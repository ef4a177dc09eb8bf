/** What holds of every run of the drain protocol. */
module DrainTheorems {
  import opened Basics
  import opened RouteTable
  import opened RouteLease

  // ------------------------------------------------------------------ runs

  lemma {:induction false} RunKeepsInv(s: State, steps: seq<Step>, s': State)
    requires Inv(s) && Reaches(s, steps, s')
    ensures Inv(s')
    decreases |steps|
  {
    if steps != [] {
      StepKeepsInv(s, steps[0]);
      RunKeepsInv(Apply(s, steps[0]), steps[1..], s');
    }
  }

  lemma {:induction false} RunsCompose(s: State, first: seq<Step>, mid: State, second: seq<Step>, s': State)
    requires Reaches(s, first, mid) && Reaches(mid, second, s')
    ensures Reaches(s, first + second, s')
    decreases |first|
  {
    if first == [] {
      assert first + second == second;
    } else {
      RunsCompose(Apply(s, first[0]), first[1..], mid, second, s');
      assert (first + second)[1..] == first[1..] + second;
    }
  }

  // ------------------------------------------------------------------ drain before delete

  /** The shutdown has withdrawn a route to `e` and waits for its leases. */
  predicate ShutdownWaitsFor(s: State, e: Name) {
    && s.shutdown.Waiting? && s.shutdown.previous in s.table.routes
    && s.table.routes[s.shutdown.previous].from.endpoint == e && s.table.routes[s.shutdown.previous].leases > 0
  }

  /** In every run: when the external DELETE of an Endpoint may be issued, no route to it is active
      and no Refresh in flight is about to commit one; and no request holds a lease on such a
      route, exactly unless the shutdown still waits for one. */
  lemma DrainBeforeDelete(steps: seq<Step>, s: State, e: Name)
    requires Reaches(INIT, steps, s) && Enabled(s, IssueDelete(e))
    ensures Unrouted(s, e)
    ensures forall r <- s.table.routes :: s.table.routes[r].from.endpoint == e ==>
              s.table.active != Some(r) && (s.table.routes[r].leases > 0 ==> s.shutdown == Waiting(r))
    ensures (forall r <- s.table.routes :: s.table.routes[r].from.endpoint == e ==> s.table.routes[r].leases == 0)
            <==> !ShutdownWaitsFor(s, e)
  {
    RunKeepsInv(INIT, steps, s);
  }

  /** While a lease is held that the shutdown does not wait for, the check behind it still exists
      with its finalizer, so the Endpoint controller's direct list cannot come back without it. */
  lemma LeaseBlocksDelete(steps: seq<Step>, s: State, r: RouteId)
    requires Reaches(INIT, steps, s)
    requires r in s.table.routes && s.table.routes[r].leases > 0 && s.shutdown != Waiting(r)
    ensures !Enabled(s, ListForDelete(s.table.routes[r].from.endpoint))
    ensures !Enabled(s, IssueDelete(s.table.routes[r].from.endpoint))
  {
    RunKeepsInv(INIT, steps, s);
    assert s.table.routes[r].from.target.check in s.checks;
  }

  /** A Refresh that returns nil has committed the one check that was eligible, and the route is
      still active unless the shutdown has withdrawn it. */
  lemma NilReturnMeansCommitted(steps: seq<Step>, s: State)
    requires Reaches(INIT, steps, s) && Enabled(s, Return)
    ensures s.table.active.Some? ==> s.refresh.ok
    ensures s.shutdown.Running? && s.refresh.ok ==> s.table.active.Some?
    ensures s.table.active.Some? ==>
              && s.table.active.value in s.table.routes
              && var from := s.table.routes[s.table.active.value].from;
                 From(s.refresh.snap, from) && s.refresh.eligible == {from.target.check}
  {
    RunKeepsInv(INIT, steps, s);
  }

  // ------------------------------------------------------------------ leases

  lemma StepKeepsTable(s: State, step: Step)
    requires WellFormed(s.table) && Enabled(s, step)
    ensures WellFormed(Apply(s, step).table)
  {
  }

  /** In every run, shutdown included, a route's token is in place while any lease is held. */
  lemma {:induction false} LeaseKeepsToken(s: State, steps: seq<Step>, s': State)
    requires WellFormed(s.table) && Reaches(s, steps, s')
    ensures WellFormed(s'.table)
    ensures forall r <- s'.table.routes :: s'.table.routes[r].leases > 0 ==> !s'.table.routes[r].erased
    decreases |steps|
  {
    if steps != [] {
      StepKeepsTable(s, steps[0]);
      LeaseKeepsToken(Apply(s, steps[0]), steps[1..], s');
    }
  }

  function Leases(s: State, r: RouteId): nat { if r in s.table.routes then s.table.routes[r].leases else 0 }

  /** How often a request took a lease while `r` was the active route. */
  ghost function Acquired(s: State, steps: seq<Step>, r: RouteId): nat
    decreases |steps|
  {
    if steps == [] || !Enabled(s, steps[0]) then 0
    else
      (if steps[0] == Acquire && s.table.active == Some(r) then 1 else 0) + Acquired(Apply(s, steps[0]), steps[1..], r)
  }

  ghost function Returned(steps: seq<Step>, r: RouteId): nat
    decreases |steps|
  {
    if steps == [] then 0 else (if steps[0] == Release(r) then 1 else 0) + Returned(steps[1..], r)
  }

  lemma StepKeepsLedger(s: State, step: Step, r: RouteId)
    requires WellFormed(s.table) && Enabled(s, step)
    ensures Leases(Apply(s, step), r) == Leases(s, r) + (if step == Acquire && s.table.active == Some(r) then 1 else 0)
                                         - (if step == Release(r) then 1 else 0)
  {
    if step.Commit? { SwapIsExact(s.table, s.refresh.next); }
    if step.FirstListFails? || step.RevalidationFails? || step.ShutdownWithdraw? { SwapIsExact(s.table, None); }
  }

  /** In every run the lease count is a ledger: one up for each lease taken on the route while it
      was active, one down for each lease given back, and changed by nothing else. */
  lemma {:induction false} LeaseLedger(s: State, steps: seq<Step>, s': State, r: RouteId)
    requires WellFormed(s.table) && Reaches(s, steps, s')
    ensures Leases(s', r) == Leases(s, r) + Acquired(s, steps, r) - Returned(steps, r)
    decreases |steps|
  {
    if steps != [] {
      StepKeepsTable(s, steps[0]);
      StepKeepsLedger(s, steps[0], r);
      LeaseLedger(Apply(s, steps[0]), steps[1..], s', r);
    }
  }

  lemma StepKeepsRetired(s: State, step: Step, r: RouteId)
    requires WellFormed(s.table) && Enabled(s, step) && r in s.table.routes && s.table.active != Some(r)
    ensures var t := Apply(s, step).table;
            r in t.routes && t.active != Some(r) && t.routes[r].leases <= s.table.routes[r].leases
  {
    if step.Commit? { SwapIsExact(s.table, s.refresh.next); }
    if step.FirstListFails? || step.RevalidationFails? || step.ShutdownWithdraw? { SwapIsExact(s.table, None); }
  }

  /** A swapped-out route never becomes active again and its lease count never grows. */
  lemma {:induction false} RetiredForever(s: State, steps: seq<Step>, s': State, r: RouteId)
    requires WellFormed(s.table) && Reaches(s, steps, s') && r in s.table.routes && s.table.active != Some(r)
    ensures r in s'.table.routes && s'.table.active != Some(r)
    ensures s'.table.routes[r].leases <= s.table.routes[r].leases
    decreases |steps|
  {
    if steps != [] {
      StepKeepsTable(s, steps[0]);
      StepKeepsRetired(s, steps[0], r);
      RetiredForever(Apply(s, steps[0]), steps[1..], s', r);
    }
  }

  function ReleaseAll(r: RouteId, n: nat): (steps: seq<Step>)
  {
    if n == 0 then [Drained] else [Release(r)] + ReleaseAll(r, n - 1)
  }

  predicate IsErased(s: State, r: RouteId) { r in s.table.routes && s.table.routes[r].erased }

  /** Progress: a Refresh that waits can always be finished by the lease holders alone, in as
      many releases as there are leases, and none of those steps needs refreshMu. */
  lemma {:induction false} DrainTerminates(s: State) returns (s': State)
    requires Inv(s) && s.refresh.Draining?
    ensures Reaches(s, ReleaseAll(s.refresh.previous, s.table.routes[s.refresh.previous].leases), s')
    ensures s'.refresh == Resume(s.refresh.after) && IsErased(s', s.refresh.previous)
    decreases s.table.routes[s.refresh.previous].leases
  {
    var r := s.refresh.previous;
    var n := s.table.routes[r].leases;
    if n == 0 {
      s' := Apply(s, Drained);
      assert Reaches(s', [Drained][1..], s');
    } else {
      ReleaseWhileDraining(s);
      s' := DrainTerminates(Apply(s, Release(r)));
      assert ReleaseAll(r, n)[1..] == ReleaseAll(r, n - 1);
    }
  }

  lemma ReleaseWhileDraining(s: State)
    requires Inv(s) && s.refresh.Draining? && s.table.routes[s.refresh.previous].leases > 0
    ensures var r := s.refresh.previous;
            && Enabled(s, Release(r))
            && var t := Apply(s, Release(r));
               Inv(t) && t.refresh == s.refresh && t.table.routes[r].leases == s.table.routes[r].leases - 1
  {
    StepKeepsInv(s, Release(s.refresh.previous));
  }

  /** The steps that take the active route away. */
  predicate Disturbs(s: State, step: Step)
    requires WellFormed(s.table) && Enabled(s, step)
  {
    || step.FirstListFails? || step.RevalidationFails? || step.ShutdownWithdraw?
    || (step.Commit? && !Equivalent(s.table, s.refresh.next))
  }

  /** A step cancels the active route exactly when it withdraws it or commits a different target. */
  lemma CancelledIffDisturbed(s: State, step: Step)
    requires WellFormed(s.table) && Enabled(s, step) && s.table.active.Some?
    ensures var r := s.table.active.value; var t := Apply(s, step).table;
            && r in t.routes && (Disturbs(s, step) <==> t.routes[r].cancelled)
            && (Disturbs(s, step) <==> t.active != s.table.active)
  {
    if step.Commit? { SwapIsExact(s.table, s.refresh.next); }
    if step.FirstListFails? || step.RevalidationFails? || step.ShutdownWithdraw? { SwapIsExact(s.table, None); }
  }

  ghost predicate Quiet(s: State, steps: seq<Step>)
    requires WellFormed(s.table)
    decreases |steps|
  {
    steps == [] ||
    (Enabled(s, steps[0]) && !Disturbs(s, steps[0]) &&
     (StepKeepsTable(s, steps[0]); Quiet(Apply(s, steps[0]), steps[1..])))
  }

  /** Any number of refreshes that re-admit the same target leave in-flight requests alone. */
  lemma {:induction false} EquivalentRefreshesKeepRoute(s: State, steps: seq<Step>, s': State)
    requires WellFormed(s.table) && s.table.active.Some? && Quiet(s, steps) && Reaches(s, steps, s')
    ensures s'.table.active == s.table.active
    ensures WellFormed(s'.table) && !s'.table.routes[s.table.active.value].cancelled
    decreases |steps|
  {
    if steps != [] {
      StepKeepsTable(s, steps[0]);
      CancelledIffDisturbed(s, steps[0]);
      EquivalentRefreshesKeepRoute(Apply(s, steps[0]), steps[1..], s');
    }
  }

  // ------------------------------------------------------------------ the two lists of a Refresh

  /** Every check listed at version `at` is still there, unwritten. */
  predicate Intact(snap: Checks, s: State) {
    forall n <- snap :: n in s.checks && s.checks[n] == snap[n]
  }

  /** A stored check whose version is not newer than the snapshot is the listed one. */
  predicate Dated(snap: Checks, at: nat, s: State) {
    && at <= s.version
    && (forall n <- snap :: snap[n].rv <= at)
    && (forall n <- s.checks :: s.checks[n].rv <= at ==> n in snap && snap[n] == s.checks[n])
  }

  lemma StepKeepsDamage(snap: Checks, at: nat, s: State, step: Step)
    requires Dated(snap, at, s) && Enabled(s, step)
    ensures Dated(snap, at, Apply(s, step))
    ensures !Intact(snap, s) ==> !Intact(snap, Apply(s, step))
  {
    var s' := Apply(s, step);
    assert forall n <- s'.checks :: (n in s.checks && s'.checks[n] == s.checks[n]) || s'.checks[n].rv > at;
    if !Intact(snap, s) {
      var n :| n in snap && !(n in s.checks && s.checks[n] == snap[n]);
      assert !(n in s'.checks && s'.checks[n] == snap[n]);
    }
  }

  lemma {:induction false} DamageIsForever(snap: Checks, at: nat, s: State, steps: seq<Step>, s': State)
    requires Dated(snap, at, s) && Reaches(s, steps, s')
    ensures Dated(snap, at, s') && (!Intact(snap, s) ==> !Intact(snap, s'))
    decreases |steps|
  {
    if steps != [] {
      StepKeepsDamage(snap, at, s, steps[0]);
      DamageIsForever(snap, at, Apply(s, steps[0]), steps[1..], s');
    }
  }

  /** Every listed check is there, unwritten, at every moment of the run. */
  ghost predicate IntactAlong(first: State, steps: seq<Step>, last: State) {
    forall k, mid :: 0 <= k <= |steps| && Reaches(first, steps[..k], mid) && Reaches(mid, steps[k..], last) ==>
      Intact(first.checks, mid)
  }

  /** No ABA: two lists at the ends of a run agree exactly when no listed check was written or
      removed at any moment in between and every check created in between is gone again. */
  lemma ListsAgreeIff(first: State, steps: seq<Step>, last: State)
    requires StoreInv(first) && Reaches(first, steps, last)
    ensures last.checks == first.checks <==> IntactAlong(first, steps, last) && last.checks.Keys <= first.checks.Keys
  {
    if last.checks == first.checks {
      forall k, mid | 0 <= k <= |steps| && Reaches(first, steps[..k], mid) && Reaches(mid, steps[k..], last)
        ensures Intact(first.checks, mid)
      {
        DamageIsForever(first.checks, first.version, first, steps[..k], mid);
        DamageIsForever(first.checks, first.version, mid, steps[k..], last);
      }
    } else if IntactAlong(first, steps, last) {
      assert steps[..|steps|] == steps && Reaches(last, steps[|steps|..], last);
      assert Intact(first.checks, last);
    }
  }

  predicate Holds(s: State, snap: Checks) {
    s.refresh.Scanning? || s.refresh.Chosen? ==> s.refresh.snap == snap
  }

  lemma {:induction false} SnapshotIsKept(snap: Checks, s: State, steps: seq<Step>, s': State)
    requires Holds(s, snap) && Reaches(s, steps, s') && FirstList !in steps
    ensures Holds(s', snap)
    decreases |steps|
  {
    if steps != [] {
      assert steps[0] in steps;
      SnapshotIsKept(snap, Apply(s, steps[0]), steps[1..], s');
    }
  }

  /** A Refresh gets to replace the route, and later to acknowledge finalizers, only if every
      check of its first list was there unwritten at every moment up to the second one. */
  lemma CommitMeansUntouched(first: State, steps: seq<Step>, last: State, k: nat, mid: State)
    requires StoreInv(first) && Enabled(first, FirstList) && FirstList !in steps && k <= |steps|
    requires Reaches(Apply(first, FirstList), steps, last) && Enabled(last, Commit)
    requires Reaches(Apply(first, FirstList), steps[..k], mid) && Reaches(mid, steps[k..], last)
    ensures last.refresh.snap == first.checks == last.checks && Intact(first.checks, mid)
  {
    var start := Apply(first, FirstList);
    SnapshotIsKept(first.checks, start, steps, last);
    ListsAgreeIff(start, steps, last);
  }

  /** A check without the finalizer that is created and deleted between the lists leaves no trace. */
  lemma TransientCheckIsInvisible(s: State, n: Name, e: Name)
    requires n !in s.checks
    ensures Enabled(s, CreateCheck(n, e, false)) && Enabled(Apply(s, CreateCheck(n, e, false)), DeleteCheck(n))
    ensures Apply(Apply(s, CreateCheck(n, e, false)), DeleteCheck(n)).checks == s.checks
  {
  }
}
