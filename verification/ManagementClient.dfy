/**
 * The RunPod management client: one call of `doJSON` with its retry loop, the classification
 * of ambiguous creates, and the exact-name lookup that recovers from them.
 */
module ManagementClient {
  import opened Basics

  datatype Verb = Get | Post | Patch | Delete

  /** What the network does with one request. `retryAfter` is the header as `strconv.Atoi`
      reads it, `fits` whether the body was read whole within 1 MiB. */
  datatype Answer =
    | TransportError
    | Response(status: int, retryAfter: Option<int>, fits: bool, empty: bool, decodes: bool)

  datatype Outcome = Success | NotFound | CreateAmbiguous | ApiError(status: int) | Failed | Exhausted

  const MAX_ATTEMPTS := 4
  const SECOND := 1_000_000_000
  const MILLISECOND := 1_000_000

  predicate Retryable(status: int) { status == 429 || status >= 500 }

  /** Two's complement wrap-around of a 64-bit `time.Duration`. */
  function Wrap64(x: int): int { (x + 0x8000_0000_0000_0000) % 0x1_0000_0000_0000_0000 - 0x8000_0000_0000_0000 }

  function PowerOfTwo(n: nat): nat { if n == 0 then 1 else 2 * PowerOfTwo(n - 1) }

  /** `backoff`, in nanoseconds. A huge Retry-After may wrap to a negative duration. */
  function Backoff(attempt: nat, retryAfter: Option<int>): int {
    if retryAfter.Some? && retryAfter.value > 0 then
      var d := Wrap64(retryAfter.value * SECOND);
      if d > 10 * SECOND then 10 * SECOND else d
    else PowerOfTwo(attempt) * 100 * MILLISECOND
  }

  lemma BackoffIsBounded(attempt: nat, retryAfter: Option<int>)
    requires attempt < MAX_ATTEMPTS - 1
    ensures Backoff(attempt, retryAfter) <= 10 * SECOND
  {
    assert PowerOfTwo(0) == 1 && PowerOfTwo(1) == 2 && PowerOfTwo(2) == 4;
  }

  /** A plausible Retry-After is kept up to ten seconds; without one the wait doubles from 100 ms. */
  lemma BackoffIsExact(attempt: nat, retryAfter: Option<int>)
    requires attempt < 3 && (retryAfter.Some? ==> retryAfter.value <= 9_000_000_000)
    ensures Backoff(attempt, retryAfter) ==
            if retryAfter.Some? && retryAfter.value > 0 then Min(retryAfter.value, 10) * 1_000_000_000
            else if attempt == 0 then 100_000_000
            else if attempt == 1 then 200_000_000
            else 400_000_000
  {
    assert PowerOfTwo(0) == 1 && PowerOfTwo(1) == 2 && PowerOfTwo(2) == 4;
  }

  // ------------------------------------------------------------------ what a call amounts to

  /** The server answered completely and refused: nothing was created. */
  predicate DefiniteRejection(a: Answer) {
    a.Response? && a.fits && !Retryable(a.status) && !(200 <= a.status < 300)
  }

  predicate Accepted(a: Answer, wantsOutput: bool) {
    a.Response? && a.fits && 200 <= a.status < 300 && (!wantsOutput || a.empty || a.decodes)
  }

  /** A GET goes around again after this answer. */
  predicate Transient(a: Answer) { a.TransportError? || (a.fits && Retryable(a.status)) }

  /** How the call ends with the answer that is not retried. */
  function Verdict(verb: Verb, a: Answer, wantsOutput: bool): Outcome {
    if Accepted(a, wantsOutput) then Success
    else if DefiniteRejection(a) then (if a.status == 404 then NotFound else ApiError(a.status))
    else if verb == Post then CreateAmbiguous
    else if a.Response? && a.fits && Retryable(a.status) then ApiError(a.status)
    else Failed
  }

  /** The attempt a GET ends with: the first of up to four whose answer is not retried, or whose
      sleep is interrupted. */
  function Settles(answers: nat -> Answer, interrupted: nat -> bool, attempt: nat): nat
    decreases MAX_ATTEMPTS - attempt
  {
    if attempt + 1 < MAX_ATTEMPTS && Transient(answers(attempt)) && !interrupted(attempt)
    then Settles(answers, interrupted, attempt + 1)
    else attempt
  }

  /** The nanoseconds waited after an answer, and after the first `n` answers. */
  function Nap(attempt: nat, a: Answer): (r: int)
    requires attempt < MAX_ATTEMPTS - 1
    ensures 0 <= r <= 10 * SECOND
  {
    BackoffIsBounded(attempt, if a.Response? then a.retryAfter else None);
    Max(0, Backoff(attempt, if a.Response? then a.retryAfter else None))
  }

  function Naps(answers: nat -> Answer, n: nat): (r: int)
    requires n < MAX_ATTEMPTS
    ensures 0 <= r <= n * 10 * SECOND
  {
    if n == 0 then 0 else Naps(answers, n - 1) + Nap(n - 1, answers(n - 1))
  }

  /** The last answer called for another attempt, which the context has cut off. */
  predicate CutOff(verb: Verb, a: Answer, sent: nat) { verb == Get && sent < MAX_ATTEMPTS && Transient(a) }

  /** What one answer leads to: the end of the call, or a sleep before another attempt. */
  datatype Turn = Ends(outcome: Outcome) | Sleeps(nap: int)

  /** The body of the loop once a request was sent. */
  method HandleAnswer(verb: Verb, a: Answer, attempt: nat, wantsOutput: bool) returns (turn: Turn)
    requires attempt < MAX_ATTEMPTS && (attempt > 0 ==> verb == Get)
    ensures turn == if attempt < MAX_ATTEMPTS - 1 && CutOff(verb, a, attempt + 1) then Sleeps(Nap(attempt, a))
                    else Ends(Verdict(verb, a, wantsOutput))
  {
    if a.TransportError? {
      if verb == Post { return Ends(CreateAmbiguous); }
      if verb != Get || attempt == MAX_ATTEMPTS - 1 { return Ends(Failed); }
      return Sleeps(Max(0, Backoff(attempt, None)));
    }
    if !a.fits { return Ends(if verb == Post then CreateAmbiguous else Failed); }
    if a.status == 404 { return Ends(NotFound); }
    if Retryable(a.status) && attempt < MAX_ATTEMPTS - 1 {
      if verb == Post { return Ends(CreateAmbiguous); }
      if verb != Get { return Ends(ApiError(a.status)); }
      return Sleeps(Max(0, Backoff(attempt, a.retryAfter)));
    }
    if a.status < 200 || a.status >= 300 { return Ends(ApiError(a.status)); }
    if !wantsOutput || a.empty { return Ends(Success); }
    if !a.decodes { return Ends(if verb == Post then CreateAmbiguous else Failed); }
    return Ends(Success);
  }

  /** `doJSON`. `encodes` and `builds` say whether the request can be marshalled and built;
      `interrupted` whether the context ends during a sleep. `sent` counts requests on the wire
      and `slept` the nanoseconds waited. */
  method DoJson(
      verb: Verb, encodes: bool, builds: bool, wantsOutput: bool, answers: nat -> Answer, interrupted: nat -> bool)
    returns (r: Outcome, sent: nat, slept: int)
    ensures r != Exhausted
    ensures sent <= if verb == Get then 4 else 1
    ensures 0 <= slept <= 30_000_000_000 && (verb != Get ==> slept == 0)
    ensures sent == 0 <==> !encodes || !builds
    ensures sent == 0 ==> r == Failed
    ensures sent > 0 && verb == Get ==> sent == Settles(answers, interrupted, 0) + 1
    ensures sent > 0 ==>
              var last := answers(sent - 1);
              if CutOff(verb, last, sent) then r == Failed && slept == Naps(answers, sent)
              else r == Verdict(verb, last, wantsOutput) && slept == Naps(answers, sent - 1)
  {
    sent, slept := 0, 0;
    if !encodes { return Failed, sent, slept; }
    for attempt := 0 to MAX_ATTEMPTS
      invariant attempt < MAX_ATTEMPTS && sent == attempt && slept == Naps(answers, attempt)
      invariant attempt > 0 ==> verb == Get && builds
      invariant Settles(answers, interrupted, 0) == Settles(answers, interrupted, attempt)
    {
      if !builds { return Failed, sent, slept; }
      sent := sent + 1;
      var turn := HandleAnswer(verb, answers(attempt), attempt, wantsOutput);
      if turn.Ends? { return turn.outcome, sent, slept; }
      slept := slept + turn.nap;
      if interrupted(attempt) { return Failed, sent, slept; }
    }
    return Exhausted, sent, slept;
  }

  // ------------------------------------------------------------------ create and find

  datatype CreateResult = Created(id: string) | Ambiguous | Rejected

  /** `CreateEndpoint` and `CreateTemplate` after `doJSON`: a success whose body does not prove
      the identity of what was created is ambiguous, never a rejection. */
  function CreateOutcome(sendable: bool, o: Outcome, id: string, identityProven: bool): CreateResult {
    if !sendable then Rejected
    else if o == CreateAmbiguous then Ambiguous
    else if o != Success then Rejected
    else if id == "" || !identityProven then Ambiguous
    else Created(id)
  }

  /** A create is reported as rejected exactly when nothing was sent or the server refused it
      with a complete answer: every other POST may have committed and is never reported so. */
  lemma RejectedIsDefinite(sendable: bool, a: Answer, id: string, identityProven: bool)
    ensures CreateOutcome(sendable, Verdict(Post, a, true), id, identityProven).Rejected? <==>
              || !sendable
              || (a.Response? && a.fits && a.status != 429 && a.status < 500 && !(200 <= a.status < 300))
    ensures CreateOutcome(sendable, Verdict(Post, a, true), id, identityProven) == Created(id) <==>
              && sendable && a.Response? && a.fits && 200 <= a.status < 300 && (a.empty || a.decodes)
              && id != "" && identityProven
  {
  }

  /** An uninterrupted GET stops before its fourth request exactly at a complete answer that is
      neither 429 nor from 500 up, or at one that cannot be read whole. */
  lemma GetStopsIff(answers: nat -> Answer, interrupted: nat -> bool, attempt: nat)
    requires attempt < 4 && forall i: nat :: !interrupted(i)
    ensures var last := Settles(answers, interrupted, attempt);
            && attempt <= last < 4
            && (forall i :: attempt <= i < last ==>
                  var a := answers(i); a.TransportError? || (a.fits && (a.status == 429 || a.status >= 500)))
            && (last < 3 ==> var a := answers(last); a.Response? && (!a.fits || (a.status != 429 && a.status < 500)))
    decreases 4 - attempt
  {
  }

  /** What an answer means for any verb: success for a complete and readable 2xx, not found for a
      complete 404, and for a create nothing in between but doubt. */
  lemma VerdictIsExact(verb: Verb, a: Answer, wantsOutput: bool)
    ensures Verdict(verb, a, wantsOutput) == Success <==>
              a.Response? && a.fits && 200 <= a.status < 300 && (!wantsOutput || a.empty || a.decodes)
    ensures Verdict(verb, a, wantsOutput) == NotFound <==> a.Response? && a.fits && a.status == 404
    ensures Verdict(verb, a, wantsOutput).ApiError? ==> a.Response? && Verdict(verb, a, wantsOutput).status == a.status
    ensures Verdict(verb, a, wantsOutput) == CreateAmbiguous ==> verb == Post
    ensures Verdict(verb, a, wantsOutput) == Failed ==>
              verb != Post && (a.TransportError? || !a.fits || 200 <= a.status < 300)
  {
  }

  datatype Found = Missing | One(index: nat) | Several

  /** `FindEndpointByName` and `FindTemplateByName` over a complete list. */
  method FindByName(names: seq<string>, name: string) returns (found: Found)
    ensures found == Missing <==> name !in names
    ensures found.One? ==> found.index < |names| && names[found.index] == name
                           && forall i :: 0 <= i < |names| && names[i] == name ==> i == found.index
    ensures found == Several <==> exists i, j :: 0 <= i < j < |names| && names[i] == name && names[j] == name
  {
    found := Missing;
    for i := 0 to |names|
      invariant found != Several
      invariant found == Missing <==> name !in names[..i]
      invariant found.One? ==> found.index < i && names[found.index] == name
                               && forall j :: 0 <= j < i && names[j] == name ==> j == found.index
    {
      if names[i] != name { continue; }
      if found != Missing { return Several; }
      found := One(i);
    }
  }
}
