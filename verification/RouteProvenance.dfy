/**
 * From admission to the routes themselves: in every run of the drain protocol whose candidates
 * are admitted as the router admits them, every route, committed or retained, rests on a
 * successful verification.
 */
module RouteProvenance {
  import opened Basics
  import opened RouteTable
  import opened RouteLease
  import DrainTheorems
  import RouteAdmission
  import EndpointBinding
  import EndpointCheck
  import VerificationHistory

  /** Whether the check stored at a version backs a route to a target. */
  type Judge = (nat, Target) -> bool

  /** A candidate is chosen only if the listed version of its check backs it. */
  predicate Honest(s: State, step: Step, judge: Judge) {
    step.Choose? && step.next.Some? && s.refresh.Scanning? ==> Judged(s.refresh.snap, step.next.value.target, judge)
  }

  predicate Judged(snap: Checks, target: Target, judge: Judge) {
    target.check in snap && judge(snap[target.check].rv, target)
  }

  ghost predicate HonestRun(s: State, steps: seq<Step>, judge: Judge)
    decreases |steps|
  {
    steps == [] ||
    (Enabled(s, steps[0]) && Honest(s, steps[0], judge) && HonestRun(Apply(s, steps[0]), steps[1..], judge))
  }

  /** A candidate is backed by the snapshot it was chosen from, and the active route by the snapshot
      that its latest Refresh has committed. */
  ghost predicate Backed(s: State, judge: Judge) {
    && (s.refresh.Chosen? && s.refresh.next.Some? ==> Judged(s.refresh.snap, s.refresh.next.value.target, judge))
    && (s.refresh.Draining? && s.refresh.after.Acknowledge? ==> ActiveBacked(s, s.refresh.after.snap, judge))
    && (s.refresh.Acking? ==> ActiveBacked(s, s.refresh.snap, judge))
  }

  ghost predicate ActiveBacked(s: State, snap: Checks, judge: Judge) {
    s.table.active.Some? && s.table.active.value in s.table.routes ==>
      Judged(snap, s.table.routes[s.table.active.value].from.target, judge)
  }

  lemma StepKeepsBacked(s: State, step: Step, judge: Judge)
    requires WellFormed(s.table) && Enabled(s, step) && Honest(s, step, judge) && Backed(s, judge)
    ensures Backed(Apply(s, step), judge)
  {
    if step.Commit? { SwapIsExact(s.table, s.refresh.next); }
    if step.FirstListFails? || step.RevalidationFails? || step.ShutdownWithdraw? { SwapIsExact(s.table, None); }
  }

  lemma {:induction false} RunKeepsBacked(s: State, steps: seq<Step>, s': State, judge: Judge)
    requires WellFormed(s.table) && Reaches(s, steps, s') && HonestRun(s, steps, judge) && Backed(s, judge)
    ensures Backed(s', judge)
    decreases |steps|
  {
    if steps != [] {
      StepKeepsBacked(s, steps[0], judge);
      DrainTheorems.StepKeepsTable(s, steps[0]);
      RunKeepsBacked(Apply(s, steps[0]), steps[1..], s', judge);
    }
  }

  lemma CandidateIsBacked(before: seq<Step>, first: State, steps: seq<Step>, s: State, judge: Judge)
    requires Reaches(INIT, before, first) && HonestRun(INIT, before, judge) && Enabled(first, FirstList)
    requires Reaches(Apply(first, FirstList), steps, s) && HonestRun(Apply(first, FirstList), steps, judge)
    requires Enabled(s, Commit) && s.refresh.next.Some?
    ensures Judged(s.checks, s.refresh.next.value.target, judge)
  {
    DrainTheorems.LeaseKeepsToken(INIT, before, first);
    RunKeepsBacked(INIT, before, first, judge);
    StepKeepsBacked(first, FirstList, judge);
    RunKeepsBacked(Apply(first, FirstList), steps, s, judge);
  }

  // ------------------------------------------------------------------ where a route was made

  /** A step makes no route but a Commit, which makes that of its candidate, and changes none. */
  lemma RoutesAreCommitted(s: State, step: Step, r: RouteId)
    requires WellFormed(s.table) && Enabled(s, step) && r in Apply(s, step).table.routes
    ensures var from := Apply(s, step).table.routes[r].from;
            if r in s.table.routes then from == s.table.routes[r].from else step.Commit? && s.refresh.next == Some(from)
  {
    if step.Commit? { SwapIsExact(s.table, s.refresh.next); }
    if step.FirstListFails? || step.RevalidationFails? || step.ShutdownWithdraw? { SwapIsExact(s.table, None); }
  }

  /** A run ends with its last step. */
  lemma {:induction false} LastStep(s: State, steps: seq<Step>, s': State, judge: Judge) returns (mid: State)
    requires steps != [] && Reaches(s, steps, s') && HonestRun(s, steps, judge)
    ensures var n := |steps| - 1;
            && Reaches(s, steps[..n], mid) && HonestRun(s, steps[..n], judge)
            && Enabled(mid, steps[n]) && Apply(mid, steps[n]) == s'
    decreases |steps|
  {
    var n := |steps| - 1;
    if n == 0 {
      mid := s;
      assert Reaches(s, steps[..0], s);
    } else {
      mid := LastStep(Apply(s, steps[0]), steps[1..], s', judge);
      assert steps[..n][0] == steps[0] && steps[..n][1..] == steps[1..][..n - 1];
    }
  }

  /** At step `k` of the run, from `mid`, the candidate `c` was committed. */
  ghost predicate CommittedAt(steps: seq<Step>, k: nat, mid: State, c: Candidate) {
    && k < |steps| && Reaches(INIT, steps[..k], mid) && steps[k] == Commit && Enabled(mid, Commit)
    && mid.refresh.next == Some(c)
  }

  /** Every route goes back to a commit, and the check as stored at that moment backed it. */
  lemma {:induction false} EveryRouteIsBacked(steps: seq<Step>, s: State, judge: Judge, r: RouteId)
    returns (k: nat, mid: State)
    requires Reaches(INIT, steps, s) && HonestRun(INIT, steps, judge) && r in s.table.routes
    ensures CommittedAt(steps, k, mid, s.table.routes[r].from)
    ensures Judged(mid.checks, s.table.routes[r].from.target, judge)
    decreases |steps|
  {
    assert steps != [];
    var n := |steps| - 1;
    var last := LastStep(INIT, steps, s, judge);
    DrainTheorems.LeaseKeepsToken(INIT, steps[..n], last);
    RoutesAreCommitted(last, steps[n], r);
    if r in last.table.routes {
      k, mid := EveryRouteIsBacked(steps[..n], last, judge, r);
      assert steps[..n][..k] == steps[..k];
    } else {
      k, mid := n, last;
      RunKeepsBacked(INIT, steps[..n], last, judge);
    }
  }

  // ------------------------------------------------------------------ what backs a route

  /** The reconciles of a check up to one of its versions, from its creation. */
  datatype Past = Past(start: VerificationHistory.State, steps: seq<VerificationHistory.Step>)

  ghost function Known(p: Past): VerificationHistory.State { VerificationHistory.Run(p.start, p.steps) }

  /** The cluster's own histories: what has happened to the check written at each version. */
  type Chronicle = nat -> Past

  ghost predicate Genuine(past: Chronicle) {
    forall rv: nat :: VerificationHistory.Fresh(past(rv).start) && VerificationHistory.Timed(past(rv).steps)
  }

  /** What one Refresh has read in order to admit a check. */
  datatype Admission = Admission(
    first: RouteAdmission.View, secret: RouteAdmission.Credential, second: RouteAdmission.View)

  /** The check that this past has left is admitted, and this target made of it. */
  ghost predicate Makes(a: Admission, p: Past, target: Target) {
    var check := Known(p).check;
    && RouteAdmission.Admissible(check, a.first, a.secret, a.second)
    && target.endpointId == check.status.observed.endpoint.id && target.model == check.spec.model
  }

  ghost function Admits(past: Chronicle): Judge {
    (rv: nat, target: Target) => exists a: Admission :: Makes(a, past(rv), target)
  }

  /** The attempt is the last one on record in this past, it passed, and it was of the endpoint, the
      model, the Template revision and the Secret version that the admission has read. */
  ghost predicate RestsOn(a: Admission, p: Past, attempt: VerificationHistory.Attempt, target: Target) {
    var log := Known(p).log;
    && (exists i :: 0 <= i < |log| && log[i] == VerificationHistory.Tried(attempt, true)
                    && forall j :: i < j < |log| ==> !log[j].written)
    && attempt.result == EndpointCheck.PASSED
    && attempt.generation == Known(p).check.generation && attempt.spec == Known(p).check.spec
    && a.first.now - attempt.at <= EndpointCheck.Interval(attempt.spec) + RouteAdmission.MAX_LIVENESS_AGE
    && a.secret.Readable? && attempt.secret == a.secret.version
    && target.endpointId == attempt.identity.id && target.model == attempt.spec.model
    && forall v | v == a.first || v == a.second ::
         var r := EndpointBinding.Resolve(v.world, attempt.spec.endpoint, EndpointBinding.At(v.now));
         r.Bound? && r.binding.identity == attempt.identity && r.binding.workerProven
  }

  lemma AdmissionRests(past: Chronicle, rv: nat, target: Target)
    returns (a: Admission, attempt: VerificationHistory.Attempt)
    requires Genuine(past) && Admits(past)(rv, target)
    ensures Makes(a, past(rv), target) && RestsOn(a, past(rv), attempt, target)
  {
    a :| Makes(a, past(rv), target);
    var p, i := past(rv), 0;
    i, attempt := RouteAdmission.RouteHasProvenance(p.start, p.steps, a.first, a.secret, a.second);
  }

  /** Every route of every run, active or draining, was made by a commit at which the check, in the
      version then stored, had a successful Verify of the endpoint and the model in its own log. */
  lemma EveryRouteHasProvenance(steps: seq<Step>, s: State, past: Chronicle, r: RouteId)
    returns (k: nat, mid: State, a: Admission, attempt: VerificationHistory.Attempt)
    requires Genuine(past) && Reaches(INIT, steps, s) && HonestRun(INIT, steps, Admits(past)) && r in s.table.routes
    ensures var target := s.table.routes[r].from.target;
            && CommittedAt(steps, k, mid, s.table.routes[r].from) && target.check in mid.checks
            && var p := past(mid.checks[target.check].rv);
               Makes(a, p, target) && RestsOn(a, p, attempt, target)
  {
    k, mid := EveryRouteIsBacked(steps, s, Admits(past), r);
    var target := s.table.routes[r].from.target;
    a, attempt := AdmissionRests(past, mid.checks[target.check].rv, target);
  }

  /** That version has been stored, unwritten, at every moment since the Refresh first listed it. */
  lemma CommittedCheckIsCurrent(
      before: seq<Step>, first: State, steps: seq<Step>, s: State, k: nat, mid: State, past: Chronicle)
    returns (a: Admission, attempt: VerificationHistory.Attempt)
    requires Genuine(past) && Reaches(INIT, before, first) && HonestRun(INIT, before, Admits(past))
    requires Enabled(first, FirstList) && FirstList !in steps && k <= |steps|
    requires var start := Apply(first, FirstList);
             && Reaches(start, steps, s) && HonestRun(start, steps, Admits(past))
             && Reaches(start, steps[..k], mid) && Reaches(mid, steps[k..], s)
    requires Enabled(s, Commit) && s.refresh.next.Some?
    ensures var target := s.refresh.next.value.target;
            && target.check in s.checks && target.check in mid.checks
            && mid.checks[target.check] == s.checks[target.check]
            && var p := past(s.checks[target.check].rv);
               Makes(a, p, target) && RestsOn(a, p, attempt, target)
  {
    CandidateIsBacked(before, first, steps, s, Admits(past));
    DrainTheorems.RunKeepsInv(INIT, before, first);
    DrainTheorems.CommitMeansUntouched(first, steps, s, k, mid);
    var target := s.refresh.next.value.target;
    a, attempt := AdmissionRests(past, s.checks[target.check].rv, target);
  }

  /** When a Refresh is about to return, the active route, whether it was committed now or retained,
      rests on a successful Verify in the log of its check, in the very version that this Refresh
      listed and found unchanged. */
  lemma RefreshedRouteHasProvenance(steps: seq<Step>, s: State, past: Chronicle)
    returns (a: Admission, attempt: VerificationHistory.Attempt)
    requires Genuine(past) && Reaches(INIT, steps, s) && HonestRun(INIT, steps, Admits(past))
    requires Enabled(s, Return) && s.table.active.Some?
    ensures s.refresh.ok && s.table.active.value in s.table.routes
    ensures var target := s.table.routes[s.table.active.value].from.target;
            && s.refresh.eligible == {target.check} && target.check in s.refresh.snap
            && var p := past(s.refresh.snap[target.check].rv);
               Makes(a, p, target) && RestsOn(a, p, attempt, target)
  {
    DrainTheorems.NilReturnMeansCommitted(steps, s);
    RunKeepsBacked(INIT, steps, s, Admits(past));
    var target := s.table.routes[s.table.active.value].from.target;
    a, attempt := AdmissionRests(past, s.refresh.snap[target.check].rv, target);
  }
}
