/** What an EndpointCheck's status proves about the reconciles that wrote it, over every history. */
module VerificationHistory {
  import opened Basics
  import opened Evidence
  import opened EndpointBinding
  import opened EndpointCheck
  import Inference

  /** One call of Verify: the check it served, what it was asked of, and what it found. */
  datatype Attempt = Attempt(
    at: int, generation: int, spec: Spec, identity: Identity, secret: string, result: Inference.Result)

  /** Entries of the history: a Verify call, or a `fail`; `written` says its status write succeeded. */
  datatype Entry = Tried(attempt: Attempt, written: bool) | Failed(written: bool)

  /** The last reconcile that wrote the status: when, of which generation, what it did, whether the
      endpoint was healthy, and what the reference resolved to. */
  datatype Pulse = Pulse(at: int, generation: int, effect: Effect, healthy: bool, resolved: Resolution)

  datatype State = State(check: Check, log: seq<Entry>, pulse: Option<Pulse>)

  datatype Step = Reconcile(env: Env) | Edit(spec: Spec) | Terminate

  function Logged(c: Check, env: Env): seq<Entry> {
    match Decide(c, env)
    case Attempted(b, secret, result) =>
      [Tried(Attempt(env.now, c.generation, c.spec, b.identity, secret, result), env.writes)]
    case Reset => [Failed(env.writes)]
    case _ => []
  }

  function Beat(s: State, env: Env): Option<Pulse> {
    var d := Decide(s.check, env);
    if env.writes && (d.Reset? || d.Admitted? || d.Probed? || d.Attempted?) then
      Some(Pulse(env.now, s.check.generation, d, env.answers.health,
          Resolve(env.world, s.check.spec.endpoint, env.clock)))
    else s.pulse
  }

  function Apply(s: State, step: Step): State {
    match step
    case Reconcile(env) => State(Outcome(s.check, env), s.log + Logged(s.check, env), Beat(s, env))
    case Edit(spec) => s.(check := s.check.(spec := spec, generation := s.check.generation + 1))
    case Terminate => s.(check := s.check.(deleting := true))
  }

  function Run(s: State, steps: seq<Step>): State
    decreases |steps|
  {
    if steps == [] then s else Run(Apply(s, steps[0]), steps[1..])
  }

  /** The clock is past the zero time. */
  predicate Timed(steps: seq<Step>) {
    forall i :: 0 <= i < |steps| && steps[i].Reconcile? ==> steps[i].env.now > 0
  }

  predicate Fresh(s: State) { s.log == [] && s.pulse == None && s.check.status == BLANK }

  // ------------------------------------------------------------------ what the status remembers

  /** The last Verify whose record still stands. */
  function Memory(log: seq<Entry>): Option<Attempt>
    decreases |log|
  {
    if log == [] then None
    else
      var last := log[|log| - 1];
      if !last.written then Memory(log[..|log| - 1])
      else if last.Tried? then Some(last.attempt)
      else None
  }

  /** The status is the record of that Verify and of nothing else. */
  predicate Remembers(c: Check, memory: Option<Attempt>) {
    var o := c.status.observed;
    match memory
    case None => o.attemptedAt == 0 && o.verifiedAt == 0 && o.result == FAILED && !c.status.ready
    case Some(a) =>
      && a.at > 0 && o.attemptedAt == a.at && o.verifiedAt == (if a.result == PASSED then a.at else 0)
      && o.endpoint == Recall(a.identity) && o.secretVersion == a.secret && o.result == a.result
      && c.status.observedGeneration == a.generation <= c.generation
      && (a.generation == c.generation ==> a.spec == c.spec)
      && (c.status.ready ==> a.result == PASSED)
  }

  /** Entry `j` repeats the Verify before it, for nothing that had changed. */
  predicate Repeats(a: Attempt, b: Attempt) {
    a.generation == b.generation && a.identity == b.identity && a.secret == b.secret
  }

  ghost predicate Paced(log: seq<Entry>) {
    forall j :: 0 <= j < |log| && log[j].Tried? ==>
      var memory := Memory(log[..j]);
      memory.Some? && Repeats(memory.value, log[j].attempt) ==>
        log[j].attempt.at < memory.value.at || log[j].attempt.at >= memory.value.at + Interval(log[j].attempt.spec)
  }

  ghost predicate Inv(s: State) { Remembers(s.check, Memory(s.log)) && Paced(s.log) }

  lemma MemoryExtends(log: seq<Entry>, e: Entry)
    ensures Memory(log + [e]) == if !e.written then Memory(log) else if e.Tried? then Some(e.attempt) else None
  {
  }

  lemma PacedExtends(log: seq<Entry>, e: Entry)
    requires Paced(log)
    requires e.Tried? && Memory(log).Some? && Repeats(Memory(log).value, e.attempt) ==>
               e.attempt.at < Memory(log).value.at || e.attempt.at >= Memory(log).value.at + Interval(e.attempt.spec)
    ensures Paced(log + [e])
  {
    forall j | 0 <= j < |log| ensures (log + [e])[..j] == log[..j] {}
    assert (log + [e])[..|log|] == log;
  }

  /** A Verify that was due replaces the record, if it is written. */
  lemma AttemptKeepsInv(s: State, env: Env)
    requires Inv(s) && env.now > 0 && Decide(s.check, env).Attempted?
    ensures Inv(Apply(s, Reconcile(env)))
  {
    var d := Decide(s.check, env);
    var attempt := Attempt(env.now, s.check.generation, s.check.spec, d.binding.identity, d.secret, d.result);
    assert Due(s.check, d.binding, d.secret, env.now);
    MemoryExtends(s.log, Tried(attempt, env.writes));
    PacedExtends(s.log, Tried(attempt, env.writes));
  }

  /** A `fail` clears the record, if it is written. */
  lemma ResetKeepsInv(s: State, env: Env)
    requires Inv(s) && Decide(s.check, env).Reset?
    ensures Inv(Apply(s, Reconcile(env)))
  {
    MemoryExtends(s.log, Failed(env.writes));
    PacedExtends(s.log, Failed(env.writes));
  }

  /** Every other reconcile leaves the record alone. */
  lemma OtherKeepsInv(s: State, env: Env)
    requires Inv(s) && !Decide(s.check, env).Attempted? && !Decide(s.check, env).Reset?
    ensures Inv(Apply(s, Reconcile(env)))
  {
    assert s.log + [] == s.log;
    assert Remembers(Outcome(s.check, env), Memory(s.log));
  }

  lemma StepKeepsInv(s: State, step: Step)
    requires Inv(s) && (step.Reconcile? ==> step.env.now > 0)
    ensures Inv(Apply(s, step))
  {
    if step.Reconcile? {
      var d := Decide(s.check, step.env);
      if d.Attempted? {
        AttemptKeepsInv(s, step.env);
      } else if d.Reset? {
        ResetKeepsInv(s, step.env);
      } else {
        OtherKeepsInv(s, step.env);
      }
    }
  }

  lemma {:induction false} RunKeepsInv(s: State, steps: seq<Step>)
    requires Inv(s) && Timed(steps)
    ensures Inv(Run(s, steps))
    decreases |steps|
  {
    if steps != [] {
      StepKeepsInv(s, steps[0]);
      RunKeepsInv(Apply(s, steps[0]), steps[1..]);
    }
  }

  // ------------------------------------------------------------------ theorems

  lemma MemoryIsLogged(log: seq<Entry>) returns (i: nat)
    requires Memory(log).Some?
    ensures i < |log| && log[i] == Tried(Memory(log).value, true)
    ensures forall j :: i < j < |log| ==> !log[j].written
    decreases |log|
  {
    var n := |log| - 1;
    if log[n].written {
      i := n;
    } else {
      i := MemoryIsLogged(log[..n]);
      assert forall j :: i < j < n ==> log[..n][j] == log[j];
    }
  }

  /** Every history: a Ready check of the current generation, or one with a verification time,
      rests on a successful Verify of that generation's specification, at that very time, for the
      identity and Secret version on record; nothing written since has replaced it. */
  lemma StatusHasProvenance(s: State, steps: seq<Step>) returns (i: nat, a: Attempt)
    requires Fresh(s) && Timed(steps)
    requires var c := Run(s, steps).check; c.status.ready || c.status.observed.verifiedAt != 0
    ensures var t := Run(s, steps); var o := t.check.status.observed;
            && i < |t.log| && t.log[i] == Tried(a, true) && a.result == PASSED
            && (forall j :: i < j < |t.log| ==> !t.log[j].written)
            && o.verifiedAt == a.at > 0 && o.endpoint == Recall(a.identity) && o.secretVersion == a.secret
            && t.check.status.observedGeneration == a.generation
            && (a.generation == t.check.generation ==> a.spec == t.check.spec)
  {
    RunKeepsInv(s, steps);
    var t := Run(s, steps);
    i := MemoryIsLogged(t.log);
    a := Memory(t.log).value;
  }

  /** Entries between two positions leave the record of the first in place. */
  lemma {:induction false} MemoryStands(log: seq<Entry>, i: nat, j: nat)
    requires i < j <= |log| && log[i].Tried? && log[i].written
    requires forall k :: i < k < j ==> !log[k].written
    ensures Memory(log[..j]) == Some(log[i].attempt)
    decreases j
  {
    assert log[..j][..j - 1] == log[..j - 1];
    if i < j - 1 { MemoryStands(log, i, j - 1); }
  }

  /** Consecutive costly verifications for the same generation, identity and Secret version are an
      interval apart, whatever the clock does, unless it runs backwards. */
  lemma ConsecutiveVerificationsArePaced(s: State, steps: seq<Step>, i: nat, j: nat)
    requires Fresh(s) && Timed(steps)
    requires var log := Run(s, steps).log;
             && i < j < |log| && log[i].Tried? && log[i].written && log[j].Tried?
             && (forall k :: i < k < j ==> !log[k].written) && Repeats(log[i].attempt, log[j].attempt)
    ensures var log := Run(s, steps).log;
            log[j].attempt.at < log[i].attempt.at
            || log[j].attempt.at - log[i].attempt.at >= Interval(log[j].attempt.spec)
  {
    RunKeepsInv(s, steps);
    MemoryStands(Run(s, steps).log, i, j);
  }

  lemma {:induction false} LatestTried(log: seq<Entry>, i: nat, j: nat) returns (k: nat)
    requires i < j <= |log| && log[i].Tried?
    ensures i <= k < j && log[k].Tried? && forall m :: k < m < j ==> log[m].Failed?
    decreases j
  {
    if log[j - 1].Tried? { return j - 1; }
    k := LatestTried(log, i, j - 1);
  }

  /** With a monotone clock and successful writes, two Verify calls closer than the interval have
      a `fail` between them, or the later one served another generation, identity or Secret
      version than one between. */
  lemma VerificationSpacing(s: State, steps: seq<Step>, i: nat, j: nat)
    requires Fresh(s) && Timed(steps)
    requires var log := Run(s, steps).log;
             && i < j < |log| && log[i].Tried? && log[j].Tried?
             && (forall k :: 0 <= k < |log| ==> log[k].written)
             && (forall k, m :: 0 <= k < m < |log| && log[k].Tried? && log[m].Tried? ==>
                log[k].attempt.at <= log[m].attempt.at)
             && log[j].attempt.at - log[i].attempt.at < Interval(log[j].attempt.spec)
    ensures var log := Run(s, steps).log;
            || (exists k :: i < k < j && log[k].Failed?)
            || (exists k :: i <= k < j && log[k].Tried? && !Repeats(log[k].attempt, log[j].attempt))
  {
    var log := Run(s, steps).log;
    var k := LatestTried(log, i, j);
    assert log[i].attempt.at <= log[k].attempt.at;
    if Repeats(log[k].attempt, log[j].attempt) {
      if forall m :: k < m < j ==> !log[m].written {
        ConsecutiveVerificationsArePaced(s, steps, k, j);
      } else {
        var m :| k < m < j && log[m].written;
        assert log[m].Failed?;
      }
    }
  }

  // ------------------------------------------------------------------ what the next reconcile does

  /** Whether the last status write was one that makes the check Ready: a Verify that passed with a
      proven worker, an admission, or a healthy probe with a worker seen since the Verify. */
  predicate Shows(p: Pulse, memory: Option<Attempt>) {
    match p.effect
    case Attempted(b, _, result) => result == PASSED && b.workerProven
    case Admitted => true
    case Probed =>
      && p.healthy && memory.Some? && memory.value.result == PASSED
      && p.resolved.Bound? && p.resolved.binding.workerProven && p.resolved.binding.workerAt > memory.value.at
    case _ => false
  }

  /** The check time, the observed generation and Ready are those of the last status write. */
  predicate Beats(s: State) {
    match s.pulse
    case None => s.check.status == BLANK && Memory(s.log).None? && s.check.generation > 0
    case Some(p) =>
      && p.at > 0 && s.check.status.observed.checkedAt == p.at
      && s.check.status.observedGeneration == p.generation <= s.check.generation
      && s.check.status.ready == Shows(p, Memory(s.log))
  }

  lemma StepKeepsBeat(s: State, step: Step)
    requires Inv(s) && Beats(s) && (step.Reconcile? ==> step.env.now > 0)
    ensures Beats(Apply(s, step))
  {
    if step.Reconcile? {
      var entries := Logged(s.check, step.env);
      if entries != [] {
        assert entries == [entries[0]];
        MemoryExtends(s.log, entries[0]);
      } else {
        assert s.log + [] == s.log;
      }
    }
  }

  lemma {:induction false} RunKeepsBeat(s: State, steps: seq<Step>)
    requires Inv(s) && Beats(s) && Timed(steps)
    ensures Inv(Run(s, steps)) && Beats(Run(s, steps))
    decreases |steps|
  {
    if steps != [] {
      StepKeepsInv(s, steps[0]);
      StepKeepsBeat(s, steps[0]);
      RunKeepsBeat(Apply(s, steps[0]), steps[1..]);
    }
  }

  /** The last standing Verify is no answer to what is asked now: there is none, it served another
      generation, identity or Secret version, or it is an interval old or lies in the future. */
  predicate Stale(c: Check, memory: Option<Attempt>, b: Binding, secret: string, now: int) {
    || memory.None?
    || memory.value.generation != c.generation || memory.value.identity != b.identity || memory.value.secret != secret
    || now < memory.value.at || now >= memory.value.at + (if c.spec.interval == 0 then 3600 else c.spec.interval)
  }

  /** The last Verify passed for this generation, and the check still waits to become Ready. */
  predicate Awaits(s: State) {
    && s.pulse.Some? && s.pulse.value.generation == s.check.generation && !Shows(s.pulse.value, Memory(s.log))
    && Memory(s.log).Some? && Memory(s.log).value.result == PASSED
  }

  /** The status was written for this generation within thirty seconds, and nothing is awaited. */
  predicate Idles(s: State, now: int) {
    && s.pulse.Some? && s.pulse.value.generation == s.check.generation && now < s.pulse.value.at + 30 && !Awaits(s)
  }

  /** Over every history, a reconcile that has all it needs waits, admits, verifies or probes exactly
      as the history demands: a costly verification runs exactly when the last one is stale. */
  lemma NextReconcile(s: State, steps: seq<Step>, env: Env)
    requires Fresh(s) && s.check.generation > 0 && Timed(steps)
    requires var c := Run(s, steps).check; !c.deleting && c.drain && env.now < c.createdAt + c.spec.lifetime
    requires Resolve(env.world, Run(s, steps).check.spec.endpoint, env.clock).Bound? && env.secret.Usable? && env.client
    ensures var t := Run(s, steps);
            var b := Resolve(env.world, t.check.spec.endpoint, env.clock).binding;
            var memory, d := Memory(t.log), Decide(t.check, env);
            var stale := Stale(t.check, memory, b, env.secret.version, env.now);
            var served := memory.Some? && b.workerProven && b.workerAt > memory.value.at
                          && memory.value.generation == t.check.generation && memory.value.identity == b.identity
                          && memory.value.secret == env.secret.version;
            && (d.Waited? <==> Idles(t, env.now))
            && (d.Admitted? <==> !Idles(t, env.now) && Awaits(t) && served)
            && (d.Attempted? <==> !Idles(t, env.now) && !(Awaits(t) && served) && stale)
            && (d.Probed? <==> !Idles(t, env.now) && !(Awaits(t) && served) && !stale)
  {
    RunKeepsBeat(s, steps);
  }

  // ------------------------------------------------------------------ the handshake that is skipped

  /** The first verification of every check that finds a worker proven before it makes the check
      Ready at once, without a later observation. */
  lemma FirstVerificationSkipsHandshake(s: State, env: Env)
    requires Fresh(s) && !s.check.deleting && s.check.drain && env.now < s.check.createdAt + s.check.spec.lifetime
    requires env.writes && env.client && env.secret.Usable?
             && Inference.Verdict(s.check.spec.model, env.answers) == PASSED
    requires var r := Resolve(env.world, s.check.spec.endpoint, env.clock);
             r.Bound? && r.binding.workerProven && r.binding.workerAt <= env.now
    ensures var t := Run(s, [Reconcile(env)]); var o := t.check.status.observed;
            && t.check.status.ready && o.attemptedAt == env.now
            && Resolve(env.world, s.check.spec.endpoint, env.clock).binding.workerAt <= o.attemptedAt
  {
    assert PassesOnOlderWorker(s.check, env);
    assert Run(s, [Reconcile(env)]) == Run(Apply(s, Reconcile(env)), [Reconcile(env)][1..]);
  }

  const ID := "x"

  /** An Endpoint whose worker was last seen at `seen`, in a world where all else is in order. */
  function Sighted(seen: int): World {
    var health := Health(false, 1, 1, true, true);
    var status := Status(ID, ID, Some(1), Revision("u", 1, "i"), true, Some(1), seen, true, Some(1), seen, seen);
    World(map[ID := EndpointBinding.Endpoint("e", health, 0, 9000, ID, Some(ID), status)],
          map[ID := EndpointBinding.Template("u", health, 0, 9000, ID, "i", ID)])
  }

  /** Such a verification can happen: the worker was seen ten seconds before. */
  lemma HandshakeIsSkipped() returns (s: State, env: Env)
    ensures Fresh(s) && s.check.drain && env.now > 0
    ensures var t := Run(s, [Reconcile(env)]);
            t.check.status.ready && Sighted(90).endpoints[ID].status.workerAt < t.check.status.observed.attemptedAt
    ensures env.world == Sighted(90) && s.check.spec.endpoint == Some(ID)
  {
    var call := Inference.ToolCall("c", "function", "readiness_probe", true);
    var choice := Inference.Choice("tool_calls", [call]);
    var answers := Inference.Answers(true, Some(["m"]), Some([choice]));
    s := State(Check(1, Spec(Some(ID), 9000, 0, "m"), 0, false, true, BLANK), [], None);
    env := Env(100, At(100), Sighted(90), Usable("1"), true, answers, true);
    FirstVerificationSkipsHandshake(s, env);
  }
}
