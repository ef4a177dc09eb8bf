/**
 * The drain protocol as an interleaving of atomic steps: the sub-steps of one router's
 * Refresh (serialised by refreshMu), leases taken and released by requests, writes to
 * EndpointChecks by anyone, and the Endpoint controller's Delete. The API server is a
 * store of objects in which every write takes a new resource version.
 */
module RouteLease {
  import opened Basics
  import opened RouteTable

  datatype Check = Check(uid: nat, rv: nat, endpoint: Name, deleting: bool, drain: bool)

  type Checks = map<Name, Check>

  /** Delete of a terminating Endpoint: after `Listed` its direct list has shown no check. That the
      runtime calls Delete only after an Observe that found the object is left out here, so these
      steps allow more runs than the code has. */
  datatype DeletePhase = Resting | Listed

  datatype Endpoint = Endpoint(terminating: bool, phase: DeletePhase)

  /** What a Refresh does once the route it swapped out has drained. */
  datatype After = Fail | Acknowledge(snap: Checks, eligible: set<Name>, ok: bool)

  /** Where the goroutine that holds refreshMu stands; `at` is the store version of its first list. */
  datatype Refresh =
    | Idle
    | Scanning(snap: Checks, at: nat, todo: set<Name>, eligible: set<Name>)
    | Chosen(snap: Checks, at: nat, eligible: set<Name>, next: Option<Candidate>)
    | Draining(previous: RouteId, after: After)
    | Acking(snap: Checks, eligible: set<Name>, todo: set<Name>, ok: bool)

  /** `Run` withdraws at shutdown without refreshMu. */
  datatype Shutdown = Running | Waiting(previous: RouteId) | Stopped

  datatype State = State(
    table: Table, refresh: Refresh, shutdown: Shutdown,
    checks: Checks, endpoints: map<Name, Endpoint>, version: nat, uids: nat)

  datatype Step =
    // EndpointChecks, written by users, the check controller and the janitor.
    | CreateCheck(check: Name, endpoint: Name, drain: bool)
    | WriteCheck(check: Name, addDrain: bool)
    | DeleteCheck(check: Name)
    | DropCheck(check: Name)
    // Endpoints and their managed reconciler.
    | CreateEndpoint(endpoint: Name)
    | TerminateEndpoint(endpoint: Name)
    | ListForDelete(endpoint: Name)
    | AbandonDelete(endpoint: Name)
    | IssueDelete(endpoint: Name)
    | RemoveEndpoint(endpoint: Name)
    // Refresh.
    | FirstList
    | FirstListFails
    | Evaluate(check: Name, admit: bool)
    | Choose(next: Option<Candidate>)
    | Commit
    | RevalidationFails
    | Drained
    | Ack(check: Name, gone: bool)
    | AckFails
    | Return
    // Requests.
    | Acquire
    | Release(lease: RouteId)
    // Shutdown.
    | ShutdownWithdraw
    | ShutdownDrained

  const INIT := State(EMPTY, Idle, Running, map[], map[], 0, 0)

  function DeletingWithDrain(snap: Checks): set<Name> {
    set n | n in snap && snap[n].deleting && snap[n].drain
  }

  predicate Live(s: State, endpoint: Name) {
    endpoint in s.endpoints && !s.endpoints[endpoint].terminating
  }

  /** The last read of `endpointRevisionMatches` and the single eligible check behind a new route. */
  predicate Selected(s: State, c: Candidate)
    requires s.refresh.Scanning?
  {
    && s.refresh.eligible == {c.target.check} && c.target.check in s.refresh.snap
    && c.uid == s.refresh.snap[c.target.check].uid
    && c.endpoint == s.refresh.snap[c.target.check].endpoint
    && Live(s, c.endpoint)
  }

  predicate Enabled(s: State, step: Step) {
    match step
    case CreateCheck(n, _, _) => n !in s.checks
    case WriteCheck(n, addDrain) => n in s.checks && (addDrain ==> !s.checks[n].deleting)
    case DeleteCheck(n) => n in s.checks
    case DropCheck(n) => n in s.checks && s.checks[n].deleting && !s.checks[n].drain
    case CreateEndpoint(e) => e !in s.endpoints
    case TerminateEndpoint(e) => e in s.endpoints
    case ListForDelete(e) =>
      && e in s.endpoints && s.endpoints[e].terminating && s.endpoints[e].phase == Resting
      && forall n <- s.checks :: s.checks[n].endpoint != e
    case AbandonDelete(e) => e in s.endpoints && s.endpoints[e].phase == Listed
    case IssueDelete(e) => e in s.endpoints && s.endpoints[e].phase == Listed
    case RemoveEndpoint(e) => e in s.endpoints && s.endpoints[e].terminating && s.endpoints[e].phase == Resting
    case FirstList => s.refresh.Idle?
    case FirstListFails => s.refresh.Idle? && WellFormed(s.table)
    case Evaluate(n, admit) =>
      && s.refresh.Scanning? && n in s.refresh.todo && n in s.refresh.snap
      && (admit ==> !s.refresh.snap[n].deleting && s.refresh.snap[n].drain && Live(s, s.refresh.snap[n].endpoint))
    case Choose(next) =>
      s.refresh.Scanning? && s.refresh.todo == {} && (next.Some? ==> Selected(s, next.value))
    case Commit => s.refresh.Chosen? && s.checks == s.refresh.snap && WellFormed(s.table)
    case RevalidationFails => s.refresh.Chosen? && WellFormed(s.table)
    case Drained =>
      && s.refresh.Draining? && WellFormed(s.table) && s.refresh.previous in s.table.routes
      && s.table.routes[s.refresh.previous].leases == 0 && s.table.routes[s.refresh.previous].cancelled
    case Ack(n, _) => s.refresh.Acking? && n in s.refresh.todo && n in s.refresh.snap
                      && (n in s.checks ==> s.checks[n].rv == s.refresh.snap[n].rv)
    case AckFails => s.refresh.Acking?
    case Return => s.refresh.Acking? && s.refresh.todo == {}
    case Acquire => WellFormed(s.table) && s.table.active.Some?
    case Release(r) => WellFormed(s.table) && r in s.table.routes && s.table.routes[r].leases > 0
    case ShutdownWithdraw => s.shutdown.Running? && WellFormed(s.table)
    case ShutdownDrained =>
      && s.shutdown.Waiting? && WellFormed(s.table) && s.shutdown.previous in s.table.routes
      && s.table.routes[s.shutdown.previous].leases == 0 && s.table.routes[s.shutdown.previous].cancelled
  }

  /** `replace(next)` inside a Refresh: swap, then wait if a route was swapped out. */
  function Replace(s: State, next: Option<Candidate>, after: After): State
    requires WellFormed(s.table)
  {
    var (table, previous) := Swap(s.table, next);
    s.(table := table, refresh := if previous.Some? then Draining(previous.value, after) else Resume(after))
  }

  function Resume(after: After): Refresh {
    if after.Fail? then Idle else Acking(after.snap, after.eligible, DeletingWithDrain(after.snap), after.ok)
  }

  function Written(s: State, n: Name, c: Check): State {
    s.(checks := s.checks[n := c.(rv := s.version + 1)], version := s.version + 1)
  }

  function Apply(s: State, step: Step): State
    requires Enabled(s, step)
  {
    match step
    case CreateCheck(n, e, drain) => Written(s, n, Check(s.uids, 0, e, false, drain)).(uids := s.uids + 1)
    case WriteCheck(n, addDrain) => Written(s, n, s.checks[n].(drain := s.checks[n].drain || addDrain))
    case DeleteCheck(n) =>
      if s.checks[n].deleting then s
      else if s.checks[n].drain then Written(s, n, s.checks[n].(deleting := true))
      else s.(checks := s.checks - {n})
    case DropCheck(n) => s.(checks := s.checks - {n})
    case CreateEndpoint(e) => s.(endpoints := s.endpoints[e := Endpoint(false, Resting)])
    case TerminateEndpoint(e) => s.(endpoints := s.endpoints[e := s.endpoints[e].(terminating := true)])
    case ListForDelete(e) => s.(endpoints := s.endpoints[e := s.endpoints[e].(phase := Listed)])
    case AbandonDelete(e) => s.(endpoints := s.endpoints[e := s.endpoints[e].(phase := Resting)])
    case IssueDelete(e) => s.(endpoints := s.endpoints[e := s.endpoints[e].(phase := Resting)])
    case RemoveEndpoint(e) => s.(endpoints := s.endpoints - {e})
    case FirstList => s.(refresh := Scanning(s.checks, s.version, s.checks.Keys, {}))
    case FirstListFails => Replace(s, None, Fail)
    case Evaluate(n, admit) =>
      var eligible := if admit then s.refresh.eligible + {n} else s.refresh.eligible;
      s.(refresh := Scanning(s.refresh.snap, s.refresh.at, s.refresh.todo - {n}, eligible))
    case Choose(next) => s.(refresh := Chosen(s.refresh.snap, s.refresh.at, s.refresh.eligible, next))
    case Commit => Replace(s, s.refresh.next, Acknowledge(s.refresh.snap, s.refresh.eligible, s.refresh.next.Some?))
    case RevalidationFails => Replace(s, None, Fail)
    case Drained => s.(table := Erased(s.table, s.refresh.previous), refresh := Resume(s.refresh.after))
    case Ack(n, gone) =>
      var s' := s.(refresh := Acking(s.refresh.snap, s.refresh.eligible, s.refresh.todo - {n}, s.refresh.ok));
      if n !in s.checks then s'
      else if gone then s'.(checks := s.checks - {n})
      else Written(s', n, s.checks[n].(drain := false))
    case AckFails => s.(refresh := Idle)
    case Return => s.(refresh := Idle)
    case Acquire => s.(table := Leased(s.table))
    case Release(r) => s.(table := Released(s.table, r))
    case ShutdownWithdraw =>
      var (table, previous) := Swap(s.table, None);
      s.(table := table, shutdown := if previous.Some? then Waiting(previous.value) else Stopped)
    case ShutdownDrained => s.(table := Erased(s.table, s.shutdown.previous), shutdown := Stopped)
  }

  /** Every run of the protocol is a sequence of enabled steps. */
  ghost predicate Reaches(s: State, steps: seq<Step>, s': State)
    decreases |steps|
  {
    if steps == [] then s == s'
    else Enabled(s, steps[0]) && Reaches(Apply(s, steps[0]), steps[1..], s')
  }

  // ------------------------------------------------------------------ drain before delete

  /** A route that is active, or that a Refresh is still waiting to drain. */
  predicate Held(s: State, r: RouteId) {
    s.table.active == Some(r) || (s.refresh.Draining? && s.refresh.previous == r)
  }

  /** The check object behind a candidate still exists and still carries the drain finalizer. */
  predicate Pinned(s: State, c: Candidate) {
    && c.target.check in s.checks
    && var check := s.checks[c.target.check];
       check.uid == c.uid && check.drain && check.endpoint == c.endpoint
  }

  predicate SnapshotPinned(s: State, snap: Checks) {
    forall n <- snap :: snap[n].drain ==>
      n in s.checks && s.checks[n].uid == snap[n].uid && s.checks[n].drain && s.checks[n].endpoint == snap[n].endpoint
  }

  /** A candidate drawn from a snapshot: an undeleted check that carried the finalizer. */
  predicate From(snap: Checks, c: Candidate) {
    && c.target.check in snap
    && var check := snap[c.target.check];
       check.uid == c.uid && check.endpoint == c.endpoint && check.drain && !check.deleting
  }

  predicate RefreshInv(s: State) {
    match s.refresh
    case Idle => true
    case Scanning(snap, _, todo, eligible) =>
      && SnapshotPinned(s, snap) && todo <= snap.Keys && eligible <= snap.Keys
      && (forall n <- eligible :: snap[n].drain && !snap[n].deleting)
    case Chosen(snap, _, eligible, next) =>
      SnapshotPinned(s, snap) && (next.Some? ==> From(snap, next.value) && eligible == {next.value.target.check})
    case Draining(previous, after) =>
      && previous in s.table.routes && s.table.active != Some(previous) && s.table.routes[previous].cancelled
      && (after.Fail? ==> s.table.active.None?)
      && (after.Acknowledge? ==> Committed(s, after.snap, after.eligible, after.ok))
    case Acking(snap, eligible, todo, ok) => Committed(s, snap, eligible, ok) && todo <= DeletingWithDrain(snap)
  }

  /** After a commit the active route, if any, comes from the only eligible check of the snapshot
      about to be acknowledged. Only the withdrawal at shutdown takes it away in between. */
  predicate Committed(s: State, snap: Checks, eligible: set<Name>, ok: bool) {
    && (s.shutdown.Running? && ok ==> s.table.active.Some?)
    && (s.table.active.Some? ==>
          && ok && s.table.active.value in s.table.routes
          && var from := s.table.routes[s.table.active.value].from;
             From(snap, from) && eligible == {from.target.check})
  }

  /** While a Delete of `e` is past its list, nothing routes to `e` or is about to. */
  predicate Unrouted(s: State, e: Name) {
    && (forall r <- s.table.routes :: Held(s, r) ==> s.table.routes[r].from.endpoint != e)
    && (s.refresh.Scanning? ==>
          forall n <- s.refresh.eligible :: n in s.refresh.snap ==> s.refresh.snap[n].endpoint != e)
    && (s.refresh.Chosen? && s.refresh.next.Some? ==> s.refresh.next.value.endpoint != e)
  }

  predicate DeleteInv(s: State) {
    forall e <- s.endpoints :: s.endpoints[e].phase == Listed ==> s.endpoints[e].terminating && Unrouted(s, e)
  }

  predicate LeaseInv(s: State) {
    && WellFormed(s.table)
    && (forall r <- s.table.routes :: s.table.routes[r].leases > 0 ==> Held(s, r) || s.shutdown == Waiting(r))
    && (forall r <- s.table.routes :: Held(s, r) ==> Pinned(s, s.table.routes[r].from))
  }

  predicate StoreInv(s: State) {
    forall n <- s.checks :: s.checks[n].uid < s.uids && s.checks[n].rv <= s.version
  }

  /** The route that the shutdown waits for has been withdrawn. */
  predicate ShutdownInv(s: State) {
    s.shutdown.Waiting? ==> s.shutdown.previous in s.table.routes && s.table.routes[s.shutdown.previous].cancelled
  }

  predicate Inv(s: State) {
    LeaseInv(s) && StoreInv(s) && RefreshInv(s) && DeleteInv(s) && ShutdownInv(s)
  }

  /** Every check that carries the drain finalizer survives as the object it is. */
  predicate DrainSurvives(before: Checks, after: Checks) {
    forall n <- before :: before[n].drain ==>
      && n in after && after[n].uid == before[n].uid && after[n].drain && after[n].endpoint == before[n].endpoint
  }

  lemma OnlyDrainMatters(s: State, checks: Checks, version: nat, uids: nat)
    requires Inv(s) && DrainSurvives(s.checks, checks)
    requires forall n <- checks :: checks[n].uid < uids && checks[n].rv <= version
    ensures Inv(s.(checks := checks, version := version, uids := uids))
  {
    var s' := s.(checks := checks, version := version, uids := uids);
    assert LeaseInv(s') && RefreshInv(s');
    forall e: Name | Unrouted(s, e) ensures Unrouted(s', e) { }
  }

  lemma CheckWriteKeepsInv(s: State, step: Step)
    requires Inv(s) && Enabled(s, step)
    requires step.CreateCheck? || step.WriteCheck? || step.DeleteCheck? || step.DropCheck?
    ensures Inv(Apply(s, step))
  {
    var s' := Apply(s, step);
    OnlyDrainMatters(s, s'.checks, s'.version, s'.uids);
  }

  /** Endpoints are no part of what a Refresh or a lease relies on. */
  lemma EndpointsDoNotMatter(s: State, endpoints: map<Name, Endpoint>)
    requires Inv(s)
    ensures var s' := s.(endpoints := endpoints);
            && LeaseInv(s') && StoreInv(s') && RefreshInv(s') && ShutdownInv(s')
            && forall e: Name :: Unrouted(s, e) ==> Unrouted(s', e)
  {
  }

  /** A direct list without a check for `e` means nothing routes to `e` and nothing in flight can. */
  lemma EmptyListMeansUnrouted(s: State, e: Name)
    requires Inv(s) && forall n <- s.checks :: s.checks[n].endpoint != e
    ensures Unrouted(s, e)
  {
  }

  lemma EndpointStepKeepsInv(s: State, step: Step)
    requires Inv(s) && Enabled(s, step)
    requires step.CreateEndpoint? || step.TerminateEndpoint? || step.ListForDelete? || step.AbandonDelete?
             || step.IssueDelete? || step.RemoveEndpoint?
    ensures Inv(Apply(s, step))
  {
    EndpointsDoNotMatter(s, Apply(s, step).endpoints);
    if step.ListForDelete? {
      EmptyListMeansUnrouted(s, step.endpoint);
    }
  }

  lemma ScanKeepsInv(s: State, step: Step)
    requires Inv(s) && Enabled(s, step) && (step.FirstList? || step.Evaluate? || step.Choose?)
    ensures Inv(Apply(s, step))
  {
    var s' := Apply(s, step);
    assert LeaseInv(s') && RefreshInv(s');
    forall e <- s'.endpoints | s'.endpoints[e].phase == Listed
      ensures Unrouted(s', e)
    {
      assert Unrouted(s, e);
    }
  }

  /** Acknowledging a deleting check never touches the check behind the active route. */
  lemma AckedCheckIsNotRouted(s: State, n: Name)
    requires Inv(s) && s.refresh.Acking? && n in s.refresh.todo
    ensures forall r <- s.table.routes :: Held(s, r) ==> s.table.routes[r].from.target.check != n
  {
  }

  lemma AckKeepsInv(s: State, step: Step)
    requires Inv(s) && Enabled(s, step) && (step.Ack? || step.AckFails? || step.Return?)
    ensures Inv(Apply(s, step))
  {
    if step.Ack? { AckedCheckIsNotRouted(s, step.check); }
    var s' := Apply(s, step);
    assert s'.table == s.table && s'.endpoints == s.endpoints && s'.shutdown == s.shutdown;
    assert forall r: RouteId :: Held(s', r) <==> Held(s, r);
    assert LeaseInv(s');
    assert DeleteInv(s') by {
      forall e: Name | Unrouted(s, e) ensures Unrouted(s', e) { }
    }
  }

  /** Only who holds leases changes: the protocol's other facts carry over. */
  lemma LeaseCountsDoNotMatter(s: State, t: Table)
    requires Inv(s) && WellFormed(t) && t.active == s.table.active && t.routes.Keys == s.table.routes.Keys
    requires forall r <- t.routes :: t.routes[r].from == s.table.routes[r].from
                                     && t.routes[r].cancelled == s.table.routes[r].cancelled
                                     && (t.routes[r].leases > 0 ==> Held(s, r) || s.shutdown == Waiting(r))
    ensures Inv(s.(table := t))
  {
  }

  lemma LeaseStepKeepsInv(s: State, step: Step)
    requires Inv(s) && Enabled(s, step) && (step.Acquire? || step.Release?)
    ensures Inv(Apply(s, step))
  {
    LeaseCountsDoNotMatter(s, if step.Acquire? then Leased(s.table) else Released(s.table, step.lease));
  }

  lemma DrainedKeepsInv(s: State)
    requires Inv(s) && Enabled(s, Drained)
    ensures Inv(Apply(s, Drained))
  {
  }

  lemma ReplaceKeepsLeases(s: State, next: Option<Candidate>, after: After)
    requires Inv(s) && (s.refresh.Idle? || s.refresh.Chosen?)
    requires next.Some? ==> s.refresh.Chosen? && next == s.refresh.next && s.checks == s.refresh.snap
    ensures LeaseInv(Replace(s, next, after))
    ensures var s' := Replace(s, next, after);
            forall r <- s'.table.routes :: Held(s', r) ==>
              if r in s.table.routes then Held(s, r) && s'.table.routes[r].from == s.table.routes[r].from
              else next == Some(s'.table.routes[r].from)
  {
    SwapIsExact(s.table, next);
    var s' := Replace(s, next, after);
    forall r <- s'.table.routes | s'.table.routes[r].leases > 0
      ensures Held(s', r) || s'.shutdown == Waiting(r)
    {
      assert Held(s, r) || s.shutdown == Waiting(r);
    }
  }

  lemma ReplaceKeepsInv(s: State, next: Option<Candidate>, after: After)
    requires Inv(s) && (s.refresh.Idle? || s.refresh.Chosen?)
    requires after.Fail? ==> next.None?
    requires after.Acknowledge? ==>
               && s.refresh.Chosen? && next == s.refresh.next && s.checks == s.refresh.snap
               && after == Acknowledge(s.refresh.snap, s.refresh.eligible, next.Some?)
    ensures Inv(Replace(s, next, after))
  {
    ReplaceKeepsLeases(s, next, after);
    SwapIsExact(s.table, next);
    var s' := Replace(s, next, after);
    forall e: Name | Unrouted(s, e) ensures Unrouted(s', e) { }
  }

  lemma RefreshReplaceKeepsInv(s: State, step: Step)
    requires Inv(s) && Enabled(s, step) && (step.FirstListFails? || step.RevalidationFails? || step.Commit?)
    ensures Inv(Apply(s, step))
  {
    if step.Commit? {
      ReplaceKeepsInv(s, s.refresh.next, Acknowledge(s.refresh.snap, s.refresh.eligible, s.refresh.next.Some?));
    } else {
      ReplaceKeepsInv(s, None, Fail);
    }
  }

  /** The withdrawal at shutdown takes the active route out of the protocol's care: its leases
      are waited for, but its check is no longer pinned. */
  lemma WithdrawalKeepsInv(s: State)
    requires Inv(s) && Enabled(s, ShutdownWithdraw)
    ensures Inv(Apply(s, ShutdownWithdraw))
  {
    SwapIsExact(s.table, None);
    var s' := Apply(s, ShutdownWithdraw);
    assert forall r <- s'.table.routes :: r in s.table.routes && (Held(s', r) ==> Held(s, r));
    assert s'.table.active.None?;
    assert RefreshInv(s');
    forall e: Name | Unrouted(s, e) ensures Unrouted(s', e) { }
  }

  lemma ShutdownDrainedKeepsInv(s: State)
    requires Inv(s) && Enabled(s, ShutdownDrained)
    ensures Inv(Apply(s, ShutdownDrained))
  {
    var table := Erased(s.table, s.shutdown.previous);
    LeaseCountsDoNotMatter(s, table);
    WaitEnds(s.(table := table));
  }

  lemma WaitEnds(s: State)
    requires Inv(s) && s.shutdown.Waiting? && s.table.routes[s.shutdown.previous].leases == 0
    ensures Inv(s.(shutdown := Stopped))
  {
    forall e: Name | Unrouted(s, e) ensures Unrouted(s.(shutdown := Stopped), e) { }
  }

  lemma StepKeepsInv(s: State, step: Step)
    requires Inv(s) && Enabled(s, step)
    ensures Inv(Apply(s, step))
  {
    if step.CreateCheck? || step.WriteCheck? || step.DeleteCheck? || step.DropCheck? {
      CheckWriteKeepsInv(s, step);
    } else if step.FirstList? || step.Evaluate? || step.Choose? {
      ScanKeepsInv(s, step);
    } else if step.FirstListFails? || step.RevalidationFails? || step.Commit? {
      RefreshReplaceKeepsInv(s, step);
    } else if step.Ack? || step.AckFails? || step.Return? {
      AckKeepsInv(s, step);
    } else if step.Acquire? || step.Release? {
      LeaseStepKeepsInv(s, step);
    } else if step.Drained? {
      DrainedKeepsInv(s);
    } else if step.ShutdownWithdraw? {
      WithdrawalKeepsInv(s);
    } else if step.ShutdownDrained? {
      ShutdownDrainedKeepsInv(s);
    } else {
      EndpointStepKeepsInv(s, step);
    }
  }
}
