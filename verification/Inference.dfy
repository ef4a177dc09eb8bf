/** The costly verification of an endpoint: health, model identity, and one forced tool call. */
module Inference {
  import opened Basics

  datatype Result = Result(healthy: bool, model: bool, tool: bool)

  datatype ToolCall = ToolCall(id: string, kind: string, name: string, exactArguments: bool)
  datatype Choice = Choice(finishReason: string, calls: seq<ToolCall>)

  /** The answers of the endpoint; `None` is a failed request. */
  datatype Answers = Answers(health: bool, models: Option<seq<string>>, choices: Option<seq<Choice>>)

  predicate SafeCallId(id: string) {
    0 < |id| <= 128 && forall c <- id :: 'A' <= c <= 'Z' || 'a' <= c <= 'z' || '0' <= c <= '9' || c == '_' || c == '-'
  }

  /** Exactly one choice with exactly one well-formed call of the readiness probe. */
  predicate ProbeCalled(choices: seq<Choice>) {
    && |choices| == 1 && choices[0].finishReason == "tool_calls" && |choices[0].calls| == 1
    && var call := choices[0].calls[0];
       call.kind == "function" && SafeCallId(call.id) && call.name == "readiness_probe" && call.exactArguments
  }

  predicate Serves(expected: string, a: Answers) { a.models.Some? && expected in a.models.value }

  predicate Calls(a: Answers) { a.choices.Some? && ProbeCalled(a.choices.value) }

  /** Each flag stands for its own check and for all earlier ones. */
  function Verdict(expected: string, a: Answers): Result {
    var healthy := expected != "" && a.health;
    var model := healthy && Serves(expected, a);
    Result(healthy, model, model && Calls(a))
  }

  /** `Verify` returns no error exactly if all three flags are set, and only a verified model is
      sent the billable completion. */
  method Verify(expected: string, a: Answers) returns (r: Result, ok: bool, billed: bool)
    ensures r == Verdict(expected, a)
    ensures ok <==> r == Result(true, true, true)
    ensures ok <==> && expected != "" && a.health && a.models.Some? && expected in a.models.value
                    && a.choices.Some? && ProbeCalled(a.choices.value)
    ensures billed <==> r.model
  {
    r, billed := Result(false, false, false), false;
    if expected == "" { return r, false, billed; }
    if !a.health { return r, false, billed; }
    r := r.(healthy := true);
    if a.models.None? { return r, false, billed; }
    var models := a.models.value;
    for i := 0 to |models|
      invariant expected !in models[..i] && r == Result(true, false, false)
    {
      if models[i] == expected {
        r := r.(model := true);
        break;
      }
    }
    if !r.model { return r, false, billed; }
    billed := true;
    if a.choices.None? { return r, false, billed; }
    var choices := a.choices.value;
    if |choices| == 1 && choices[0].finishReason == "tool_calls" && |choices[0].calls| == 1 {
      var call := choices[0].calls[0];
      if call.kind == "function" && SafeCallId(call.id) && call.name == "readiness_probe" && call.exactArguments {
        r := r.(tool := true);
      }
    }
    if !r.tool { return r, false, billed; }
    return r, true, billed;
  }

  /** Nothing but the one forced call of the probe will do. */
  lemma ProbeIsExact(choices: seq<Choice>)
    ensures ProbeCalled(choices) <==>
            exists id ::
              && 1 <= |id| <= 128
              && (forall c <- id :: 'A' <= c <= 'Z' || 'a' <= c <= 'z' || '0' <= c <= '9' || c == '_' || c == '-')
              && choices == [Choice("tool_calls", [ToolCall(id, "function", "readiness_probe", true)])]
  {
    if ProbeCalled(choices) {
      var id := choices[0].calls[0].id;
      assert SafeCallId(id);
      assert choices[0].calls == [ToolCall(id, "function", "readiness_probe", true)];
      assert choices == [Choice("tool_calls", [ToolCall(id, "function", "readiness_probe", true)])];
    }
  }
}
