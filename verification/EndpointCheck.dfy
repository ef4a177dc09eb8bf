/**
 * The EndpointCheck reconciler: when a costly verification runs, and what the status it leaves
 * behind says. A reconcile reads the check directly and writes it under optimistic locking, so
 * one reconcile is one step.
 */
module EndpointCheck {
  import opened Basics
  import opened Evidence
  import opened EndpointBinding
  import Inference

  const POLL := 30
  const DEFAULT_INTERVAL := 3600

  /** The recorded observation; zero is the zero time. */
  datatype Observation = Observation(
    endpoint: Recollection, result: Inference.Result, secretVersion: string,
    checkedAt: int, attemptedAt: int, verifiedAt: int)

  datatype CheckStatus = CheckStatus(observed: Observation, observedGeneration: int, ready: bool)

  datatype Spec = Spec(endpoint: Option<string>, lifetime: int, interval: int, model: string)

  datatype Check = Check(
    generation: int, spec: Spec, createdAt: int, deleting: bool, drain: bool, status: CheckStatus)

  const UNSEEN := Recollection("", "", 0, None, UNBOUND)
  const FAILED := Inference.Result(false, false, false)
  const PASSED := Inference.Result(true, true, true)
  const BLANK := CheckStatus(Observation(UNSEEN, FAILED, "", 0, 0, 0), 0, false)

  datatype Secret = Unusable | Usable(version: string)

  /** Everything a reconcile reads or is told: `client` says that the verifier could be built,
      `writes` that the write at the end succeeded. */
  datatype Env = Env(
    now: int, clock: Clock, world: World, secret: Secret, client: bool, answers: Inference.Answers, writes: bool)

  function Interval(spec: Spec): int { if spec.interval == 0 then DEFAULT_INTERVAL else spec.interval }

  predicate Same(c: Check, b: Binding, secret: string) {
    && c.status.observedGeneration == c.generation
    && c.status.observed.endpoint == Recall(b.identity) && c.status.observed.secretVersion == secret
  }

  /** `fullVerificationDue` */
  predicate Due(c: Check, b: Binding, secret: string, now: int) {
    var o := c.status.observed;
    if !Same(c, b, secret) then true
    else if o.attemptedAt == 0 then true
    else now - o.attemptedAt < 0 || now - o.attemptedAt >= Interval(c.spec)
  }

  /** `verificationAdmitted` */
  predicate Admissible(c: Check, b: Binding, secret: string) {
    var o := c.status.observed;
    && Same(c, b, secret) && o.result == PASSED && o.verifiedAt != 0
    && b.workerProven && o.attemptedAt != 0 && b.workerAt > o.attemptedAt
  }

  /** `workerAdmissionPending` */
  predicate Pending(c: Check) {
    && c.status.observedGeneration == c.generation && !c.status.ready
    && c.status.observed.result == PASSED && c.status.observed.verifiedAt != 0
  }

  predicate Rests(c: Check, now: int) {
    && c.status.observedGeneration == c.generation && c.status.observed.checkedAt != 0 && !Pending(c)
    && now < c.status.observed.checkedAt + POLL
  }

  datatype Effect =
    | Ignored
    | Finalized
    | Expired
    | Reset                                                        // `fail`
    | Waited
    | Admitted
    | Probed                                                       // cheap liveness only
    | Attempted(binding: Binding, secret: string, result: Inference.Result)

  /** A refused reconcile forgets everything but that it took place. */
  function Forgotten(c: Check, now: int): CheckStatus {
    CheckStatus(Observation(UNSEEN.(version := Some(0)), FAILED, "", now, 0, 0), c.generation, false)
  }

  function Checked(c: Check, now: int, ready: bool): CheckStatus {
    c.status.(observed := c.status.observed.(checkedAt := now), ready := ready)
  }

  function Tried(c: Check, b: Binding, secret: string, result: Inference.Result, now: int): CheckStatus {
    CheckStatus(Observation(Recall(b.identity), result, secret, now, now, if result == PASSED then now else 0),
                c.generation, result == PASSED && b.workerProven)
  }

  function Decide(c: Check, env: Env): Effect {
    if c.deleting then Ignored
    else if !c.drain then Finalized
    else
      var r := Resolve(env.world, c.spec.endpoint, env.clock);
      if env.now >= c.createdAt + c.spec.lifetime || r.LifetimeExpired? then Expired
      else if r.Unresolved? then Reset
      else if Rests(c, env.now) then Waited
      else if env.secret.Unusable? then Reset
      else if Pending(c) && Admissible(c, r.binding, env.secret.version) then Admitted
      else if !env.client then Reset
      else if Due(c, r.binding, env.secret.version, env.now) then
        Attempted(r.binding, env.secret.version, Inference.Verdict(c.spec.model, env.answers))
      else Probed
  }

  function Outcome(c: Check, env: Env): Check {
    if !env.writes then c
    else match Decide(c, env)
      case Ignored => c
      case Waited => c
      case Finalized => c.(drain := true)
      case Expired => c.(deleting := true)
      case Reset => c.(status := Forgotten(c, env.now))
      case Admitted => c.(status := Checked(c, env.now, true))
      case Probed =>
        var r := Resolve(env.world, c.spec.endpoint, env.clock);
        var admitted := r.Bound? && env.secret.Usable? && Admissible(c, r.binding, env.secret.version);
        c.(status := Checked(c, env.now, env.answers.health && admitted))
      case Attempted(b, secret, result) => c.(status := Tried(c, b, secret, result, env.now))
  }

  /** The check as the API server stores it. */
  class Reconciler {
    var stored: Check

    constructor (check: Check)
      ensures stored == check
    {
      stored := check;
    }

    method Update(check: Check, writes: bool)
      modifies this
      ensures stored == if writes then check else old(stored)
    {
      if writes { stored := check; }
    }

    method Fail(check: Check, env: Env)
      requires check == stored
      modifies this
      ensures stored == if env.writes then check.(status := Forgotten(check, env.now)) else check
    {
      var status := CheckStatus(
        Observation(Recollection("", "", 0, Some(0), UNBOUND), FAILED, "", env.now, 0, 0), check.generation, false);
      Update(check.(status := status), env.writes);
    }

    method FailLiveness(check: Check, env: Env)
      requires check == stored && check.status.observedGeneration == check.generation
      modifies this
      ensures stored == if env.writes then check.(status := Checked(check, env.now, false)) else check
    {
      var status := check.status.(observed := check.status.observed.(checkedAt := env.now));
      status := status.(observedGeneration := check.generation, ready := false);
      Update(check.(status := status), env.writes);
    }

    /** `Reconcile`; the handshake branch after an admissible pending verification is dead, since
        admissibility already demands the newer worker observation that it would wait for. */
    method Reconcile(env: Env) returns (effect: Effect)
      modifies this
      ensures effect == Decide(old(stored), env)
      ensures stored == Outcome(old(stored), env)
    {
      var check := stored;
      if check.deleting { return Ignored; }
      if !check.drain {
        Update(check.(drain := true), env.writes);
        return Finalized;
      }
      if !(env.now < check.createdAt + check.spec.lifetime) {
        Update(check.(deleting := true), env.writes);
        return Expired;
      }
      var r := Resolve(env.world, check.spec.endpoint, env.clock);
      if r.LifetimeExpired? {
        Update(check.(deleting := true), env.writes);
        return Expired;
      }
      if r.Unresolved? {
        Fail(check, env);
        return Reset;
      }
      var b, observed := r.binding, check.status.observed;
      var pending := check.status.observedGeneration == check.generation && !check.status.ready
                     && observed.result.healthy && observed.result.model && observed.result.tool
                     && observed.verifiedAt != 0;
      if check.status.observedGeneration == check.generation && observed.checkedAt != 0 && !pending {
        if env.now < observed.checkedAt + POLL { return Waited; }
      }
      if env.secret.Unusable? {
        Fail(check, env);
        return Reset;
      }
      var secret := env.secret.version;
      var due := Due(check, b, secret, env.now);
      if pending && observed.secretVersion == secret && Admissible(check, b, secret) {
        if b.workerProven && b.workerAt > observed.attemptedAt {
          Update(check.(status := Checked(check, env.now, true)), env.writes);
          return Admitted;
        }
        assert false;
      }
      if !due {
        if !env.client {
          Fail(check, env);
          return Reset;
        }
        if !env.answers.health {
          FailLiveness(check, env);
          return Probed;
        }
        var status := check.status.(
          observed := observed.(endpoint := Recall(b.identity), checkedAt := env.now),
          observedGeneration := check.generation);
        status := status.(ready := Admissible(check.(status := status), b, secret));
        Update(check.(status := status), env.writes);
        return Probed;
      }
      if !env.client {
        Fail(check, env);
        return Reset;
      }
      var result, ok, _ := Inference.Verify(check.spec.model, env.answers);
      var o := Observation(Recall(b.identity), result, secret, env.now, env.now, if ok then env.now else 0);
      Update(check.(status := CheckStatus(o, check.generation, ok && b.workerProven)), env.writes);
      return Attempted(b, secret, result);
    }
  }

  /** A verification passes while an earlier observation still proves a worker. */
  predicate PassesOnOlderWorker(c: Check, env: Env) {
    var d := Decide(c, env);
    d.Attempted? && d.result == PASSED && d.binding.workerProven && d.binding.workerAt <= env.now
  }

  /** Ready is meant to wait for a worker observed after the verification woke it. It does,
      exactly unless a verification passes while an older worker proof still stands. */
  lemma ReadyAwaitsWorkerIff(c: Check, env: Env)
    requires env.writes
    requires var d := Decide(c, env); d.Admitted? || d.Probed? || d.Attempted?
    ensures var r := Resolve(env.world, c.spec.endpoint, env.clock);
            var status := Outcome(c, env).status;
            && r.Bound?
            && ((status.ready ==> r.binding.workerProven && r.binding.workerAt > status.observed.attemptedAt)
                <==> !PassesOnOlderWorker(c, env))
  {
  }

  /** A written reconcile ends a finalized check exactly when its own lifetime has run out, or that
      of the Endpoint or Template it refers to; it finalizes every check that is not being deleted;
      and it never touches the specification. */
  lemma LifeOfACheck(c: Check, env: Env)
    requires env.writes
    ensures var c' := Outcome(c, env);
            var expired := env.now >= c.createdAt + c.spec.lifetime
                           || Resolve(env.world, c.spec.endpoint, env.clock).LifetimeExpired?;
            && (c'.deleting <==> c.deleting || (c.drain && expired))
            && (c'.drain <==> c.drain || !c.deleting)
            && c'.spec == c.spec && c'.generation == c.generation && c'.createdAt == c.createdAt
  {
  }

  /** A live check whose Endpoint does not resolve, or whose Secret cannot be used after the poll,
      keeps nothing that could be taken for a verification. */
  lemma FailureForgets(c: Check, env: Env)
    requires env.writes && !c.deleting && c.drain && env.now < c.createdAt + c.spec.lifetime
    requires var r := Resolve(env.world, c.spec.endpoint, env.clock);
             r.Unresolved? || (r.Bound? && !Rests(c, env.now) && env.secret.Unusable?)
    ensures var status := Outcome(c, env).status;
            && !status.ready && status.observed.result == FAILED && status.observed.verifiedAt == 0
            && status.observed.attemptedAt == 0 && status.observed.checkedAt == env.now
            && status.observedGeneration == c.generation
  {
  }
}
