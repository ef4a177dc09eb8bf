/**
 * What the message validator lets through, in terms of the raw body: which calls and results an
 * accepted body holds, and that an ordinary tool round is accepted.
 */
module MessageRules {
  import opened Basics
  import opened StrictJson
  import opened ToolSchema
  import opened ChatMessages

  predicate HasRole(raw: Any, role: string) { raw.Obj? && "role" in raw.fields && raw.fields["role"] == Str(role) }

  /** `call` is one of the calls of message `raw`. */
  ghost predicate Makes(raw: Any, call: Any) {
    && HasRole(raw, "assistant") && "tool_calls" in raw.fields && raw.fields["tool_calls"].Arr?
    && call in raw.fields["tool_calls"].items
  }

  predicate Field(v: Any, key: string, text: string) { v.Obj? && key in v.fields && v.fields[key] == Str(text) }

  // ------------------------------------------------------------------ what is accepted obeys

  predicate Bounded(v: Any) { v.Str? && |v.s| <= 131072 }

  /** An accepted message has one of four roles and no field beyond those of its role, a safe name if
      any, and bounded text as content: all but the assistant's have content, which for a user may
      come in 1 to 128 parts, and an assistant has content or calls. */
  lemma AcceptedShape(raw: Any)
    requires ReadMessage(raw) != Misshapen
    ensures HasRole(raw, "system") || HasRole(raw, "user") || HasRole(raw, "assistant") || HasRole(raw, "tool")
    ensures forall k <- raw.fields ::
              || k == "role" || k == "content" || (k == "name" && !HasRole(raw, "tool"))
              || (k == "tool_calls" && HasRole(raw, "assistant")) || (k == "tool_call_id" && HasRole(raw, "tool"))
    ensures HasRole(raw, "system") || HasRole(raw, "tool") ==>
              "content" in raw.fields && Bounded(raw.fields["content"])
    ensures HasRole(raw, "user") ==>
              && "content" in raw.fields
              && var content := raw.fields["content"];
                 || Bounded(content)
                 || (content.Arr? && 1 <= |content.items| <= 128
                     && forall part <- content.items ::
                          && Field(part, "type", "text") && part.fields.Keys == {"type", "text"}
                          && Bounded(part.fields["text"]))
    ensures HasRole(raw, "assistant") ==>
              && ("content" in raw.fields ==> raw.fields["content"] == Null || Bounded(raw.fields["content"]))
              && ("tool_calls" in raw.fields || ("content" in raw.fields && raw.fields["content"] != Null))
    ensures "name" in raw.fields ==> raw.fields["name"].Str? && SafeName(raw.fields["name"].s)
    ensures ReadMessage(raw).Calling? <==> HasRole(raw, "assistant") && "tool_calls" in raw.fields
    ensures ReadMessage(raw).Calling? ==> ReadMessage(raw).calls == raw.fields["tool_calls"]
    ensures ReadMessage(raw).Answering? <==> HasRole(raw, "tool")
    ensures ReadMessage(raw).Answering? ==> Field(raw, "tool_call_id", ReadMessage(raw).id)
  {
  }

  /** An accepted call is a function call with a safe ID, of a declared function with a safe name, and
      is forwarded with the canonical text of its own arguments and otherwise as it came. */
  lemma AcceptedCall(raw: Any, declared: set<string>, arguments: Arguments)
    requires RateCall(raw, declared, arguments).Some?
    ensures var a := RateCall(raw, declared, arguments).value;
            && Field(raw, "type", "function") && Field(raw, "id", a.id) && SafeName(a.id)
            && "function" in raw.fields && raw.fields["function"].Obj?
            && var f := raw.fields["function"].fields;
            && f.Keys == {"name", "arguments"} && f["name"].Str? && SafeName(f["name"].s) && f["name"].s in declared
            && f["arguments"].Str? && 1 <= |f["arguments"].s| <= 32768 && arguments(f["arguments"].s).Some?
            && var canonical := arguments(f["arguments"].s).value;
               a.forwarded == Obj(raw.fields["function" := Obj(f["arguments" := Str(canonical)])])
  {
  }

  /** An accepted body has 1 to 128 messages, and a message with calls has 1 to 32 of them. */
  lemma AcceptedCounts(messages: seq<Any>, declared: set<string>, arguments: Arguments)
    requires BodyOk(Ratings(messages, declared, arguments))
    ensures 1 <= |messages| <= 128
    ensures forall i :: 0 <= i < |messages| && ReadMessage(messages[i]).Calling? ==>
              var calls := ReadMessage(messages[i]).calls; calls.Arr? && 1 <= |calls.items| <= 32
  {
    var ratings := Ratings(messages, declared, arguments);
    forall i | 0 <= i < |messages| && ReadMessage(messages[i]).Calling?
      ensures var calls := ReadMessage(messages[i]).calls; calls.Arr? && 1 <= |calls.items| <= 32
    {
      assert ratings[i] in ratings && ratings[i] == Rate(messages[i], declared, arguments);
    }
  }

  lemma {:induction false} IdsComeFrom(ratings: seq<Rating>, id: string) returns (j: nat)
    requires id in AllIds(ratings)
    ensures j < |ratings| && ratings[j].Fit? && id in ratings[j].ids
    decreases |ratings|
  {
    var n := |ratings| - 1;
    if ratings[n].Fit? && id in ratings[n].ids { return n; }
    j := IdsComeFrom(ratings[..n], id);
  }

  /** The IDs of a message are those of its calls. */
  lemma CalledId(raw: Any, declared: set<string>, arguments: Arguments, id: string) returns (call: Any)
    requires Rate(raw, declared, arguments).Fit? && id in Rate(raw, declared, arguments).ids
    ensures Makes(raw, call) && Field(call, "id", id)
  {
    AcceptedShape(raw);
    var items := ReadMessage(raw).calls.items;
    var calls := RateCalls(items, declared, arguments);
    var k :| 0 <= k < |IdsOf(calls)| && IdsOf(calls)[k] == id;
    call := items[k];
    assert calls[k] == RateCall(call, declared, arguments) && calls[k].Some?;
    AcceptedCall(call, declared, arguments);
  }

  /** In an accepted body every tool result names, by its tool_call_id, the ID of a call in it. */
  lemma EveryResultNamesACall(messages: seq<Any>, declared: set<string>, arguments: Arguments, i: nat)
    returns (j: nat, call: Any)
    requires i < |messages| && HasRole(messages[i], "tool") && BodyOk(Ratings(messages, declared, arguments))
    ensures "tool_call_id" in messages[i].fields && messages[i].fields["tool_call_id"].Str?
    ensures j < |messages| && Makes(messages[j], call) && Field(call, "id", messages[i].fields["tool_call_id"].s)
  {
    var ratings := Ratings(messages, declared, arguments);
    assert ratings[i] in ratings && ratings[i] == Rate(messages[i], declared, arguments);
    AcceptedShape(messages[i]);
    j := IdsComeFrom(ratings, ratings[i].answers.value);
    call := CalledId(messages[j], declared, arguments, ratings[i].answers.value);
  }

  /** No two messages of an accepted body share a call ID, and none repeats one. */
  lemma {:induction false} CallIdsDiffer(ratings: seq<Rating>, i: nat, j: nat)
    requires i < j < |ratings| && ratings[i].Fit? && ratings[j].Fit? && Distinct(AllIds(ratings))
    ensures Ids(ratings[i].ids) !! Ids(ratings[j].ids) && Distinct(ratings[i].ids) && Distinct(ratings[j].ids)
    decreases |ratings|
  {
    var n := |ratings| - 1;
    var before := ratings[..n];
    Appended(AllIds(before), if ratings[n].Fit? then ratings[n].ids else []);
    if j < n {
      CallIdsDiffer(before, i, j);
    } else {
      ListedIds(before, i);
    }
  }

  lemma {:induction false} ListedIds(ratings: seq<Rating>, i: nat)
    requires i < |ratings| && ratings[i].Fit? && Distinct(AllIds(ratings))
    ensures Ids(ratings[i].ids) <= Ids(AllIds(ratings)) && Distinct(ratings[i].ids)
    decreases |ratings|
  {
    var n := |ratings| - 1;
    Appended(AllIds(ratings[..n]), if ratings[n].Fit? then ratings[n].ids else []);
    if i < n { ListedIds(ratings[..n], i); }
  }

  // ------------------------------------------------------------------ what obeys is accepted

  function User(text: string): Any { Obj(map["role" := Str("user"), "content" := Str(text)]) }

  function Result(id: string, text: string): Any {
    Obj(map["role" := Str("tool"), "content" := Str(text), "tool_call_id" := Str(id)])
  }

  function CallOf(id: string, callee: string, arguments: string): Any {
    Obj(map["id" := Str(id), "type" := Str("function"),
            "function" := Obj(map["name" := Str(callee), "arguments" := Str(arguments)])])
  }

  function Caller(call: Any): Any { Obj(map["role" := Str("assistant"), "tool_calls" := Arr([call])]) }

  lemma CallIsAccepted(id: string, callee: string, text: string, declared: set<string>, arguments: Arguments)
    requires SafeName(id) && SafeName(callee) && callee in declared && 1 <= |text| <= 32768 && arguments(text).Some?
    ensures RateCall(CallOf(id, callee, text), declared, arguments)
            == Some(Accepted(id, CallOf(id, callee, arguments(text).value)))
  {
    var raw := CallOf(id, callee, text);
    assert ReadCall(raw) == Call(id, callee, text);
    var f := raw.fields["function"].fields["arguments" := Str(arguments(text).value)];
    assert f == map["name" := Str(callee), "arguments" := Str(arguments(text).value)];
    assert raw.fields["function" := Obj(f)] == CallOf(id, callee, arguments(text).value).fields;
  }

  /** A question, a call of a declared tool and its result are accepted, and forwarded with the
      canonical text of the arguments. */
  lemma ToolRoundIsAccepted(
      question: string, id: string, callee: string, text: string, answer: string,
      declared: set<string>, arguments: Arguments)
    requires |question| <= 131072 && |answer| <= 131072 && SafeName(id) && SafeName(callee) && callee in declared
    requires 1 <= |text| <= 32768 && arguments(text).Some?
    ensures var body := [User(question), Caller(CallOf(id, callee, text)), Result(id, answer)];
            var ratings := Ratings(body, declared, arguments);
            && BodyOk(ratings)
            && ForwardedBody(ratings) == body[1 := Caller(CallOf(id, callee, arguments(text).value))]
  {
    var call := CallOf(id, callee, text);
    CallIsAccepted(id, callee, text, declared, arguments);
    CallerIsFit(call, declared, arguments);
    PlainAndResultAreFit(question, id, answer, declared, arguments);
    var c := Caller(CallOf(id, callee, arguments(text).value));
    var ratings := Ratings([User(question), Caller(call), Result(id, answer)], declared, arguments);
    assert ratings == [Fit([], None, User(question)), Fit([id], None, c), Fit([], Some(id), Result(id, answer))];
    RoundIsOk(id, User(question), c, Result(id, answer));
  }

  lemma PlainAndResultAreFit(
      question: string, id: string, answer: string, declared: set<string>, arguments: Arguments)
    requires |question| <= 131072 && |answer| <= 131072 && SafeName(id)
    ensures Rate(User(question), declared, arguments) == Fit([], None, User(question))
    ensures Rate(Result(id, answer), declared, arguments) == Fit([], Some(id), Result(id, answer))
  {
    assert ReadMessage(User(question)) == Plain && ReadMessage(Result(id, answer)) == Answering(id);
  }

  lemma RoundIsOk(id: string, a: Any, b: Any, c: Any)
    ensures var ratings := [Fit([], None, a), Fit([id], None, b), Fit([], Some(id), c)];
            BodyOk(ratings) && ForwardedBody(ratings) == [a, b, c]
  {
    ThreeIds(Fit([], None, a), Fit([id], None, b), Fit([], Some(id), c));
  }

  lemma CallerIsFit(call: Any, declared: set<string>, arguments: Arguments)
    requires RateCall(call, declared, arguments).Some?
    ensures var a := RateCall(call, declared, arguments).value;
            Rate(Caller(call), declared, arguments) == Fit([a.id], None, Caller(a.forwarded))
  {
    var a := RateCall(call, declared, arguments).value;
    assert ReadMessage(Caller(call)) == Calling(Arr([call]));
    var calls := RateCalls([call], declared, arguments);
    assert calls == [Some(a)] && IdsOf(calls) == [a.id] && Forwarded(calls) == [a.forwarded];
    assert Caller(call).fields["tool_calls" := Arr([a.forwarded])] == Caller(a.forwarded).fields;
  }

  lemma ThreeIds(a: Rating, b: Rating, c: Rating)
    requires a.Fit? && b.Fit? && c.Fit? && a.ids == [] && c.ids == []
    ensures AllIds([a, b, c]) == b.ids
  {
    assert [a, b, c][..2] == [a, b] && [a, b][..1] == [a] && [a][..0] == [];
    assert AllIds([a]) == AllIds([]) + a.ids == [];
    assert AllIds([a, b]) == AllIds([a]) + b.ids == b.ids;
    assert AllIds([a, b, c]) == AllIds([a, b]) + c.ids == b.ids;
  }
}
