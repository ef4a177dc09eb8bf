/**
 * The messages of a chat request: their shapes, the tool calls in them, and the tool results
 * that answer those calls. The arguments of every call are replaced by their canonical text,
 * which `validateToolArguments` computes; here it is a function of the text.
 */
module ChatMessages {
  import opened Basics
  import opened StrictJson
  import opened ToolSchema
  import ToolArguments

  const MAX_MESSAGES := 128
  const MAX_CALLS := 32
  const MAX_PARTS := 128
  const MAX_TEXT := 131072
  const MAX_ARGUMENTS := 32768

  type Fields = map<string, Any>

  /** `validateToolArguments`; `None` is a refusal. */
  type Arguments = string -> Option<string>

  // ------------------------------------------------------------------ shapes

  predicate ValidText(m: Fields, key: string) { key in m && m[key].Str? && |m[key].s| <= MAX_TEXT }

  predicate ValidName(m: Fields, key: string) { key in m && m[key].Str? && SafeName(m[key].s) }

  predicate OptionalName(m: Fields) { "name" in m ==> ValidName(m, "name") }

  predicate TextPart(part: Any) {
    && part.Obj? && part.fields.Keys <= {"type", "text"} && "type" in part.fields && part.fields["type"] == Str("text")
    && ValidText(part.fields, "text")
  }

  predicate UserContent(m: Fields) {
    ValidText(m, "content")
    || ("content" in m && m["content"].Arr? && 0 < |m["content"].items| <= MAX_PARTS
        && forall part <- m["content"].items :: TextPart(part))
  }

  predicate AssistantContent(m: Fields) {
    if "content" in m && m["content"] != Null then ValidText(m, "content") else "tool_calls" in m
  }

  /** What a message contributes: nothing, calls still to be read, or the answer to a call. */
  datatype Shape = Misshapen | Plain | Calling(calls: Any) | Answering(id: string)

  function ReadMessage(raw: Any): Shape {
    if !raw.Obj? || "role" !in raw.fields || !raw.fields["role"].Str? then Misshapen
    else
      var m, role := raw.fields, raw.fields["role"].s;
      if role == "system" then
        if m.Keys <= {"role", "content", "name"} && ValidText(m, "content") && OptionalName(m) then Plain else Misshapen
      else if role == "user" then
        if m.Keys <= {"role", "content", "name"} && UserContent(m) && OptionalName(m) then Plain else Misshapen
      else if role == "assistant" then
        if !(m.Keys <= {"role", "content", "name", "tool_calls"}) || !OptionalName(m) || !AssistantContent(m) then
          Misshapen
        else if "tool_calls" in m then Calling(m["tool_calls"])
        else Plain
      else if role == "tool" then
        if m.Keys <= {"role", "content", "tool_call_id"} && ValidText(m, "content") && ValidName(m, "tool_call_id")
        then Answering(m["tool_call_id"].s) else Misshapen
      else Misshapen
  }

  datatype CallShape = BadCall | Call(id: string, callee: string, arguments: string)

  function ReadCall(raw: Any): CallShape {
    if !raw.Obj? || !(raw.fields.Keys <= {"id", "type", "function"}) || "type" !in raw.fields
       || raw.fields["type"] != Str("function") || !ValidName(raw.fields, "id")
       || "function" !in raw.fields || !raw.fields["function"].Obj?
    then BadCall
    else
      var f := raw.fields["function"].fields;
      if !(f.Keys <= {"name", "arguments"}) || !ValidName(f, "name") || "arguments" !in f || !f["arguments"].Str?
         || !(0 < |f["arguments"].s| <= MAX_ARGUMENTS)
      then BadCall
      else Call(raw.fields["id"].s, f["name"].s, f["arguments"].s)
  }

  /** The call with other arguments, the message with other calls. */
  function WithArguments(raw: Any, text: string): (r: Any)
    requires ReadCall(raw).Call?
  {
    Obj(raw.fields["function" := Obj(raw.fields["function"].fields["arguments" := Str(text)])])
  }

  function WithCalls(raw: Any, calls: Any): (r: Any)
    requires ReadMessage(raw).Calling?
  {
    Obj(raw.fields["tool_calls" := calls])
  }

  lemma RewrittenCall(raw: Any, text: string)
    requires ReadCall(raw).Call? && 0 < |text| <= MAX_ARGUMENTS
    ensures ReadCall(WithArguments(raw, text)) == ReadCall(raw).(arguments := text)
    ensures WithArguments(WithArguments(raw, text), text) == WithArguments(raw, text)
  {
    var f := raw.fields["function"].fields["arguments" := Str(text)];
    var m := raw.fields["function" := Obj(f)];
    assert f.Keys == raw.fields["function"].fields.Keys && m.Keys == raw.fields.Keys;
    assert f["arguments" := Str(text)] == f;
    assert m["function" := Obj(f)] == m;
  }

  lemma RewrittenMessage(raw: Any, calls: Any)
    requires ReadMessage(raw).Calling?
    ensures ReadMessage(WithCalls(raw, calls)) == Calling(calls)
    ensures WithCalls(WithCalls(raw, calls), calls) == WithCalls(raw, calls)
  {
    var m := raw.fields["tool_calls" := calls];
    assert m.Keys == raw.fields.Keys;
    assert m["tool_calls" := calls] == m;
  }

  // ------------------------------------------------------------------ what is accepted

  ghost predicate Distinct(ids: seq<string>) {
    forall i, j :: 0 <= i < j < |ids| ==> ids[i] != ids[j]
  }

  function Ids(ids: seq<string>): set<string> { set id | id in ids }

  /** A call that is accepted: its ID, and what is forwarded for it. */
  datatype Accepted = Accepted(id: string, forwarded: Any)

  function RateCall(raw: Any, declared: set<string>, arguments: Arguments): Option<Accepted> {
    var c := ReadCall(raw);
    if c.BadCall? || c.callee !in declared || arguments(c.arguments).None? then None
    else Some(Accepted(c.id, WithArguments(raw, arguments(c.arguments).value)))
  }

  function RateCalls(calls: seq<Any>, declared: set<string>, arguments: Arguments): seq<Option<Accepted>> {
    seq(|calls|, i requires 0 <= i < |calls| => RateCall(calls[i], declared, arguments))
  }

  ghost predicate CallsOk(calls: seq<Option<Accepted>>) {
    && 0 < |calls| <= MAX_CALLS && (forall i :: 0 <= i < |calls| ==> calls[i].Some?)
    && Distinct(IdsOf(calls))
  }

  function IdsOf(calls: seq<Option<Accepted>>): seq<string> {
    seq(|calls|, i requires 0 <= i < |calls| => if calls[i].Some? then calls[i].value.id else "")
  }

  function Forwarded(calls: seq<Option<Accepted>>): seq<Any> {
    seq(|calls|, i requires 0 <= i < |calls| => if calls[i].Some? then calls[i].value.forwarded else Null)
  }

  /** A message that is accepted: the IDs it calls, the ID it answers, and what is forwarded for it. */
  datatype Rating = Unfit | Fit(ids: seq<string>, answers: Option<string>, forwarded: Any)

  ghost function Rate(raw: Any, declared: set<string>, arguments: Arguments): Rating {
    match ReadMessage(raw)
    case Misshapen => Unfit
    case Plain => Fit([], None, raw)
    case Answering(id) => Fit([], Some(id), raw)
    case Calling(value) =>
      if !value.Arr? then Unfit
      else
        var calls := RateCalls(value.items, declared, arguments);
        if CallsOk(calls) then Fit(IdsOf(calls), None, WithCalls(raw, Arr(Forwarded(calls)))) else Unfit
  }

  ghost function Ratings(messages: seq<Any>, declared: set<string>, arguments: Arguments): seq<Rating> {
    seq(|messages|, i requires 0 <= i < |messages| => Rate(messages[i], declared, arguments))
  }

  /** Every call ID of the body, in order. */
  ghost function AllIds(ratings: seq<Rating>): seq<string>
    decreases |ratings|
  {
    if ratings == [] then []
    else
      var last := ratings[|ratings| - 1];
      AllIds(ratings[..|ratings| - 1]) + (if last.Fit? then last.ids else [])
  }

  /** A body is accepted if it is bounded, each message is, all call IDs of the body differ, and
      every tool result answers a call of the body. */
  ghost predicate BodyOk(ratings: seq<Rating>) {
    && 0 < |ratings| <= MAX_MESSAGES && (forall r <- ratings :: r.Fit?) && Distinct(AllIds(ratings))
    && forall r <- ratings :: r.Fit? && r.answers.Some? ==> r.answers.value in AllIds(ratings)
  }

  // ------------------------------------------------------------------ sequences of IDs

  lemma Appended(ids: seq<string>, more: seq<string>)
    ensures Ids(ids + more) == Ids(ids) + Ids(more)
    ensures Distinct(ids + more) <==> Distinct(ids) && Distinct(more) && Ids(ids) !! Ids(more)
  {
    var all := ids + more;
    assert forall i :: 0 <= i < |ids| ==> all[i] == ids[i] && ids[i] in Ids(ids);
    assert forall i :: 0 <= i < |more| ==> all[|ids| + i] == more[i] && more[i] in Ids(more);
    if Distinct(all) {
      forall i, j | 0 <= i < j < |more| ensures more[i] != more[j] {
        assert all[|ids| + i] != all[|ids| + j];
      }
    }
    if Distinct(ids) && Distinct(more) && Ids(ids) !! Ids(more) {
      forall i, j | 0 <= i < j < |all| ensures all[i] != all[j] {
        if i >= |ids| {
          assert all[i] == more[i - |ids|] && all[j] == more[j - |ids|];
        } else if j >= |ids| {
          assert all[i] in Ids(ids) && all[j] == more[j - |ids|] && all[j] in Ids(more);
        }
      }
    }
  }

  lemma {:induction false} PrefixDistinct(ratings: seq<Rating>, n: nat)
    requires n <= |ratings| && Distinct(AllIds(ratings))
    ensures Distinct(AllIds(ratings[..n]))
    decreases |ratings|
  {
    if n < |ratings| {
      var k := |ratings| - 1;
      Appended(AllIds(ratings[..k]), if ratings[k].Fit? then ratings[k].ids else []);
      PrefixDistinct(ratings[..k], n);
      assert ratings[..k][..n] == ratings[..n];
    } else {
      assert ratings[..n] == ratings;
    }
  }

  lemma {:induction false} IdsAppend(first: seq<Rating>, second: seq<Rating>)
    ensures AllIds(first + second) == AllIds(first) + AllIds(second)
    decreases |second|
  {
    if second == [] {
      assert first + second == first;
    } else {
      var n := |second| - 1;
      assert (first + second)[..|first| + n] == first + second[..n];
      IdsAppend(first, second[..n]);
    }
  }

  // ------------------------------------------------------------------ the code

  /** One call of a list, with its arguments rewritten. */
  method ValidateToolCall(raw: Any, declared: set<string>, arguments: Arguments) returns (r: Option<Accepted>)
    ensures r == RateCall(raw, declared, arguments)
  {
    var call := ReadCall(raw);
    if call.BadCall? || call.callee !in declared { return None; }
    var canonical := arguments(call.arguments);
    if canonical.None? { return None; }
    return Some(Accepted(call.id, WithArguments(raw, canonical.value)));
  }

  /** The first `n` calls have passed. */
  ghost predicate CallsThrough(calls: seq<Option<Accepted>>, n: nat, seen: set<string>, out: seq<Any>)
    requires n <= |calls|
  {
    && (forall k :: 0 <= k < n ==> calls[k].Some?) && Distinct(IdsOf(calls)[..n])
    && seen == Ids(IdsOf(calls)[..n]) && out == Forwarded(calls)[..n]
  }

  lemma Repeated(ids: seq<string>, n: nat)
    requires n < |ids| && ids[n] in ids[..n]
    ensures !Distinct(ids)
  {
    var k :| 0 <= k < n && ids[..n][k] == ids[n];
    assert ids[k] == ids[n];
  }

  lemma CallTaken(calls: seq<Option<Accepted>>, n: nat, seen: set<string>, out: seq<Any>)
    requires n < |calls| && CallsThrough(calls, n, seen, out) && calls[n].Some?
    ensures calls[n].value.id !in seen ==>
              CallsThrough(calls, n + 1, seen + {calls[n].value.id}, out + [calls[n].value.forwarded])
    ensures calls[n].value.id in seen ==> !CallsOk(calls)
  {
    var ids, id := IdsOf(calls), calls[n].value.id;
    assert ids[..n + 1] == ids[..n] + [id] && Ids([id]) == {id};
    Appended(ids[..n], [id]);
    if id in seen { Repeated(ids, n); }
    assert Forwarded(calls)[..n + 1] == Forwarded(calls)[..n] + [calls[n].value.forwarded];
  }

  lemma CallsDone(calls: seq<Option<Accepted>>, seen: set<string>, out: seq<Any>)
    requires CallsThrough(calls, |calls|, seen, out)
    ensures 0 < |calls| <= MAX_CALLS ==> CallsOk(calls)
    ensures seen == Ids(IdsOf(calls)) && out == Forwarded(calls)
  {
    assert IdsOf(calls)[..|calls|] == IdsOf(calls) && Forwarded(calls)[..|calls|] == Forwarded(calls);
  }

  /** `validateToolCalls`, with the calls as they are rewritten. */
  method ValidateToolCalls(value: Any, declared: set<string>, arguments: Arguments)
    returns (r: Option<(set<string>, seq<Any>)>)
    ensures r.Some? <==> value.Arr? && CallsOk(RateCalls(value.items, declared, arguments))
    ensures r.Some? ==> var calls := RateCalls(value.items, declared, arguments);
                        r.value.0 == Ids(IdsOf(calls)) && r.value.1 == Forwarded(calls)
  {
    if !value.Arr? || |value.items| == 0 || |value.items| > MAX_CALLS { return None; }
    var seen: set<string> := {};
    var out: seq<Any> := [];
    ghost var calls := RateCalls(value.items, declared, arguments);
    for i := 0 to |value.items|
      invariant CallsThrough(calls, i, seen, out)
    {
      var call := ValidateToolCall(value.items[i], declared, arguments);
      assert call == calls[i];
      if call.None? { return None; }
      CallTaken(calls, i, seen, out);
      if call.value.id in seen { return None; }
      seen, out := seen + {call.value.id}, out + [call.value.forwarded];
    }
    CallsDone(calls, seen, out);
    return Some((seen, out));
  }

  /** One message of the body: the IDs it calls, the call it answers, and what is forwarded for it. */
  method ValidateMessage(raw: Any, declared: set<string>, arguments: Arguments)
    returns (r: Option<(set<string>, Option<string>, Any)>)
    ensures var rating := Rate(raw, declared, arguments);
            if rating.Unfit? then r.None?
            else r == Some((Ids(rating.ids), rating.answers, rating.forwarded)) && Distinct(rating.ids)
  {
    var message := ReadMessage(raw);
    if message.Misshapen? { return None; }
    if message.Calling? {
      var calls := ValidateToolCalls(message.calls, declared, arguments);
      if calls.None? { return None; }
      return Some((calls.value.0, None, WithCalls(raw, Arr(calls.value.1))));
    }
    assert Ids([]) == {};
    return Some(({}, if message.Answering? then Some(message.id) else None, raw));
  }

  /** The first `n` messages have passed. */
  ghost predicate Through(ratings: seq<Rating>, n: nat, known: set<string>, out: seq<Any>)
    requires n <= |ratings|
  {
    && Distinct(AllIds(ratings[..n])) && known == Ids(AllIds(ratings[..n])) && |out| == n
    && forall k :: 0 <= k < n ==> ratings[k].Fit? && out[k] == ratings[k].forwarded
  }

  lemma MessageTaken(ratings: seq<Rating>, n: nat, known: set<string>, out: seq<Any>)
    requires n < |ratings| && Through(ratings, n, known, out) && ratings[n].Fit? && Distinct(ratings[n].ids)
    ensures known !! Ids(ratings[n].ids) ==>
              Through(ratings, n + 1, known + Ids(ratings[n].ids), out + [ratings[n].forwarded])
    ensures !(known !! Ids(ratings[n].ids)) ==> !BodyOk(ratings)
  {
    assert ratings[..n + 1][..n] == ratings[..n];
    Appended(AllIds(ratings[..n]), ratings[n].ids);
    if Distinct(AllIds(ratings)) { PrefixDistinct(ratings, n + 1); }
  }

  /** The second loop: every tool result names a known call. */
  method CheckAnswers(answers: seq<Option<string>>, known: set<string>) returns (ok: bool)
    ensures ok <==> forall i :: 0 <= i < |answers| && answers[i].Some? ==> answers[i].value in known
  {
    for i := 0 to |answers|
      invariant forall k :: 0 <= k < i && answers[k].Some? ==> answers[k].value in known
    {
      if answers[i].Some? && answers[i].value !in known { return false; }
    }
    return true;
  }

  ghost predicate AnswersOf(ratings: seq<Rating>, n: nat, answers: seq<Option<string>>)
    requires n <= |ratings|
  {
    |answers| == n && forall i :: 0 <= i < n ==> ratings[i].Fit? && answers[i] == ratings[i].answers
  }

  /** One turn of the first loop: the message passes, and calls no ID that is known already. */
  method NextMessage(
      raw: Any, declared: set<string>, arguments: Arguments, ghost ratings: seq<Rating>, ghost i: nat,
      known: set<string>, ghost out: seq<Any>, ghost answers: seq<Option<string>>)
    returns (r: Option<(set<string>, Option<string>, Any)>)
    requires i < |ratings| && ratings[i] == Rate(raw, declared, arguments)
    requires Through(ratings, i, known, out) && AnswersOf(ratings, i, answers)
    ensures r.None? ==> !BodyOk(ratings)
    ensures r.Some? ==> Through(ratings, i + 1, known + r.value.0, out + [r.value.2])
                        && AnswersOf(ratings, i + 1, answers + [r.value.1])
  {
    assert ratings[i] in ratings;
    r := ValidateMessage(raw, declared, arguments);
    if r.Some? {
      MessageTaken(ratings, i, known, out);
      if !(known !! r.value.0) { r := None; }
    }
  }

  lemma BodyDone(ratings: seq<Rating>, known: set<string>, out: seq<Any>, answers: seq<Option<string>>)
    requires 0 < |ratings| <= MAX_MESSAGES && Through(ratings, |ratings|, known, out)
    requires AnswersOf(ratings, |ratings|, answers)
    ensures known == Ids(AllIds(ratings))
    ensures BodyOk(ratings) <==> forall i :: 0 <= i < |answers| && answers[i].Some? ==> answers[i].value in known
  {
    assert ratings[..|ratings|] == ratings;
    if forall i :: 0 <= i < |answers| && answers[i].Some? ==> answers[i].value in known {
      forall r <- ratings ensures r.Fit? && (r.answers.Some? ==> r.answers.value in AllIds(ratings)) {
        var i :| 0 <= i < |ratings| && ratings[i] == r;
        assert answers[i] == r.answers;
      }
    } else {
      var i :| 0 <= i < |answers| && answers[i].Some? && answers[i].value !in known;
      assert ratings[i] in ratings;
    }
  }

  /** `validateMessages`: accepted exactly when the body is, with the IDs of all its calls and the
      body as it is forwarded. */
  method ValidateMessages(value: Any, declared: set<string>, arguments: Arguments)
    returns (r: Option<(set<string>, seq<Any>)>)
    ensures r.Some? <==> value.Arr? && BodyOk(Ratings(value.items, declared, arguments))
    ensures r.Some? ==> var ratings := Ratings(value.items, declared, arguments);
                        && r.value.0 == Ids(AllIds(ratings)) && |r.value.1| == |ratings|
                        && forall i :: 0 <= i < |ratings| ==> ratings[i].Fit? && r.value.1[i] == ratings[i].forwarded
  {
    if !value.Arr? || |value.items| == 0 || |value.items| > MAX_MESSAGES { return None; }
    ghost var ratings := Ratings(value.items, declared, arguments);
    var known: set<string> := {};
    var out: seq<Any> := [];
    var answers: seq<Option<string>> := [];
    for i := 0 to |value.items|
      invariant Through(ratings, i, known, out) && AnswersOf(ratings, i, answers)
    {
      var message := NextMessage(value.items[i], declared, arguments, ratings, i, known, out, answers);
      if message.None? { return None; }
      known, out, answers := known + message.value.0, out + [message.value.2], answers + [message.value.1];
    }
    BodyDone(ratings, known, out, answers);
    var ok := CheckAnswers(answers, known);
    if !ok { return None; }
    return Some((known, out));
  }

  // ------------------------------------------------------------------ order does not matter

  /** A tool result may answer a call anywhere in the body: a body that ends with a result is
      accepted exactly if it is with that result moved ahead of every call. */
  lemma ResultMayComeFirst(rest: seq<Any>, m: Any, declared: set<string>, arguments: Arguments)
    requires ReadMessage(m).Answering?
    ensures BodyOk(Ratings(rest + [m], declared, arguments)) <==> BodyOk(Ratings([m] + rest, declared, arguments))
  {
    var others, result := Ratings(rest, declared, arguments), Rate(m, declared, arguments);
    assert Ratings(rest + [m], declared, arguments) == others + [result];
    assert Ratings([m] + rest, declared, arguments) == [result] + others;
    AnswersCommute(others, result);
  }

  lemma AnswersCommute(others: seq<Rating>, result: Rating)
    requires result.Fit? && result.ids == []
    ensures BodyOk(others + [result]) <==> BodyOk([result] + others)
  {
    assert [result][..0] == [];
    assert AllIds([result]) == AllIds([]) + result.ids;
    IdsAppend(others, [result]);
    IdsAppend([result], others);
    assert AllIds(others + [result]) == AllIds([result] + others);
    assert forall r :: r in others + [result] <==> r in [result] + others;
  }

  // ------------------------------------------------------------------ what is forwarded is stable

  /** Canonical text is its own canonical text. */
  ghost predicate Stable(arguments: Arguments) {
    forall x :: arguments(x).Some? ==>
      var y := arguments(x).value; arguments(y) == Some(y) && 0 < |y| <= MAX_ARGUMENTS
  }

  lemma CallIsStable(raw: Any, declared: set<string>, arguments: Arguments)
    requires Stable(arguments) && RateCall(raw, declared, arguments).Some?
    ensures var a := RateCall(raw, declared, arguments); RateCall(a.value.forwarded, declared, arguments) == a
  {
    RewrittenCall(raw, arguments(ReadCall(raw).arguments).value);
  }

  lemma CallsAreStable(calls: seq<Any>, declared: set<string>, arguments: Arguments)
    requires Stable(arguments) && CallsOk(RateCalls(calls, declared, arguments))
    ensures var ratings := RateCalls(calls, declared, arguments);
            RateCalls(Forwarded(ratings), declared, arguments) == ratings
  {
    var ratings := RateCalls(calls, declared, arguments);
    forall i | 0 <= i < |calls| ensures RateCall(Forwarded(ratings)[i], declared, arguments) == ratings[i] {
      assert ratings[i] == RateCall(calls[i], declared, arguments) && ratings[i].Some?;
      CallIsStable(calls[i], declared, arguments);
    }
  }

  lemma MessageIsStable(raw: Any, declared: set<string>, arguments: Arguments)
    requires Stable(arguments) && Rate(raw, declared, arguments).Fit?
    ensures var r := Rate(raw, declared, arguments); Rate(r.forwarded, declared, arguments) == r
  {
    var message := ReadMessage(raw);
    if message.Calling? {
      var calls := RateCalls(message.calls.items, declared, arguments);
      CallsAreStable(message.calls.items, declared, arguments);
      RewrittenMessage(raw, Arr(Forwarded(calls)));
    }
  }

  ghost function ForwardedBody(ratings: seq<Rating>): seq<Any> {
    seq(|ratings|, i requires 0 <= i < |ratings| => if ratings[i].Fit? then ratings[i].forwarded else Null)
  }

  /** The forwarded body is accepted again, with the same calls and answers, and forwarded unchanged. */
  lemma BodyIsStable(messages: seq<Any>, declared: set<string>, arguments: Arguments)
    requires Stable(arguments)
    ensures var ratings := Ratings(messages, declared, arguments);
            BodyOk(ratings) ==> Ratings(ForwardedBody(ratings), declared, arguments) == ratings
  {
    var ratings := Ratings(messages, declared, arguments);
    if BodyOk(ratings) {
      forall i | 0 <= i < |messages| ensures Rate(ForwardedBody(ratings)[i], declared, arguments) == ratings[i] {
        assert ratings[i] in ratings;
        MessageIsStable(messages[i], declared, arguments);
      }
    }
  }

  /** The text level of `validateToolArguments`: how text is read as tokens and printed, how long it
      is, and the two scans. */
  datatype Scanner = Scanner(
    lex: string -> Option<seq<Token>>, render: seq<Token> -> string, size: seq<Token> -> nat,
    secret: Value -> bool, leak: seq<Token> -> bool)

  /** The lexer reads back the canonical text of every value. */
  ghost predicate Reads(t: Scanner) {
    forall v: Value ::
      var ts := Tokens(ToolArguments.Canonical(v));
      t.lex(t.render(ts)) == Some(ts) && t.size(ts) == |t.render(ts)| > 0
  }

  ghost function Canonical(t: Scanner, text: string): Option<string> {
    if t.lex(text).None? then None
    else
      var printed := ToolArguments.Validate(t.lex(text).value, t.secret, t.leak, t.size);
      if printed.Ok? then Some(t.render(printed.value)) else None
  }

  lemma CanonicalAgain(t: Scanner, x: string)
    requires Reads(t) && Canonical(t, x).Some?
    ensures var y := Canonical(t, x).value; Canonical(t, y) == Some(y) && 0 < |y| <= MAX_ARGUMENTS
  {
    var ts := t.lex(x).value;
    ToolArguments.ValidateIsIdempotent(ts, t.secret, t.leak, t.size);
    var v := Decode(ts, 0, MAX_NODES, MAX_BYTES).value;
    var canonical := Tokens(ToolArguments.Canonical(v));
    assert ToolArguments.Validate(ts, t.secret, t.leak, t.size).value == canonical;
    assert t.lex(t.render(canonical)) == Some(canonical);
  }

  /** So the arguments that `validateToolArguments` forwards are stable. */
  lemma CanonicalIsStable(t: Scanner)
    requires Reads(t)
    ensures Stable((x: string) => Canonical(t, x))
  {
    forall x | Canonical(t, x).Some?
      ensures var y := Canonical(t, x).value; Canonical(t, y) == Some(y) && 0 < |y| <= MAX_ARGUMENTS
    {
      CanonicalAgain(t, x);
    }
  }
}
