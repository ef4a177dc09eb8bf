/**
 * The other half of the drain property: the withdrawal at shutdown does give up the drain. From
 * every state with an idle Refresh and a leased active route, the checks that hold back the
 * deletion of the Endpoint can all go while the lease is held.
 */
module ShutdownDrain {
  import opened Basics
  import opened RouteTable
  import opened RouteLease
  import opened DrainTheorems

  ghost predicate Leads(s: State, s': State) {
    exists steps: seq<Step> :: Reaches(s, steps, s')
  }

  lemma LeadsToItself(s: State)
    ensures Leads(s, s)
  {
    assert Reaches(s, [], s);
  }

  /** One step, and then on. */
  lemma Then(s: State, step: Step, s': State)
    requires Enabled(s, step) && Leads(Apply(s, step), s')
    ensures Leads(s, s')
  {
    var steps :| Reaches(Apply(s, step), steps, s');
    assert ([step] + steps)[1..] == steps;
    assert Reaches(s, [step] + steps, s');
  }

  lemma LeadsOn(s: State, mid: State, s': State)
    requires Leads(s, mid) && Leads(mid, s')
    ensures Leads(s, s')
  {
    var first :| Reaches(s, first, mid);
    var second :| Reaches(mid, second, s');
    RunsCompose(s, first, mid, second, s');
  }

  /** Only checks and the Refresh have moved. */
  predicate Apart(s: State, s': State) {
    s'.table == s.table && s'.endpoints == s.endpoints && s'.shutdown == s.shutdown
  }

  function Undeleted(s: State): set<Name> { set n | n in s.checks && !s.checks[n].deleting }

  function Unfinalized(s: State): set<Name> { set n | n in s.checks && !s.checks[n].drain }

  /** Someone deletes every check. */
  lemma {:induction false} DeleteAll(s: State) returns (s': State)
    ensures Leads(s, s') && Apart(s, s') && s'.refresh == s.refresh && Undeleted(s') == {}
    decreases |Undeleted(s)|
  {
    if n :| n in Undeleted(s) {
      var t := Apply(s, DeleteCheck(n));
      assert Undeleted(t) == Undeleted(s) - {n};
      s' := DeleteAll(t);
      Then(s, DeleteCheck(n), s');
    } else {
      s' := s;
      LeadsToItself(s);
    }
  }

  /** The deleted checks without the drain finalizer disappear. */
  lemma {:induction false} DropAll(s: State) returns (s': State)
    requires Undeleted(s) == {}
    ensures Leads(s, s') && Apart(s, s') && s'.refresh == s.refresh && Undeleted(s') == {} && Unfinalized(s') == {}
    decreases |Unfinalized(s)|
  {
    if n :| n in Unfinalized(s) {
      assert n !in Undeleted(s);
      var t := Apply(s, DropCheck(n));
      assert Undeleted(t) == {} by { assert Undeleted(t) <= Undeleted(s); }
      assert Unfinalized(t) == Unfinalized(s) - {n};
      s' := DropAll(t);
      Then(s, DropCheck(n), s');
    } else {
      s' := s;
      LeadsToItself(s);
    }
  }

  /** A Refresh finds no check eligible. */
  lemma {:induction false} EvaluateAll(s: State)
    requires s.refresh.Scanning? && s.refresh.todo <= s.refresh.snap.Keys
    ensures Leads(s, s.(refresh := Scanning(s.refresh.snap, s.refresh.at, {}, s.refresh.eligible)))
    decreases |if s.refresh.Scanning? then s.refresh.todo else {}|
  {
    if n :| n in s.refresh.todo {
      EvaluateAll(Apply(s, Evaluate(n, false)));
      Then(s, Evaluate(n, false), s.(refresh := Scanning(s.refresh.snap, s.refresh.at, {}, s.refresh.eligible)));
    } else {
      assert s == s.(refresh := Scanning(s.refresh.snap, s.refresh.at, {}, s.refresh.eligible));
      LeadsToItself(s);
    }
  }

  /** It acknowledges every check of its unchanged snapshot. */
  lemma {:induction false} AckAll(s: State)
    requires s.refresh.Acking? && s.refresh.todo == s.checks.Keys
    requires forall n <- s.checks :: n in s.refresh.snap && s.checks[n].rv == s.refresh.snap[n].rv
    ensures Leads(s, s.(checks := map[], refresh := Idle))
    decreases |s.checks|
  {
    if n :| n in s.checks {
      var t := Apply(s, Ack(n, true));
      assert t.checks.Keys == s.checks.Keys - {n};
      AckAll(t);
      Then(s, Ack(n, true), s.(checks := map[], refresh := Idle));
    } else {
      assert s.checks == map[];
      LeadsToItself(Apply(s, Return));
      Then(s, Return, s.(checks := map[], refresh := Idle));
    }
  }

  /** Without an active route a Refresh never waits, so all checks can go. */
  lemma ChecksCanGo(s: State) returns (s': State)
    requires WellFormed(s.table) && s.table.active.None? && s.refresh.Idle?
    ensures Leads(s, s') && Apart(s, s') && s'.refresh.Idle? && s'.checks == map[]
  {
    var s1 := DeleteAll(s);
    var s2 := DropAll(s1);
    LeadsOn(s, s1, s2);
    s' := s2.(checks := map[], refresh := Idle);
    RefreshOfDeleted(s2);
    LeadsOn(s, s2, s');
  }

  lemma RefreshOfDeleted(s: State)
    requires WellFormed(s.table) && s.table.active.None? && s.refresh.Idle? && Undeleted(s) == {}
             && Unfinalized(s) == {}
    ensures Leads(s, s.(checks := map[], refresh := Idle))
  {
    var s' := s.(checks := map[], refresh := Idle);
    var s1 := Apply(s, FirstList);
    EvaluateAll(s1);
    var s2 := s.(refresh := Scanning(s.checks, s.version, {}, {}));
    var s3 := s.(refresh := Chosen(s.checks, s.version, {}, None));
    var s4 := s.(refresh := Acking(s.checks, {}, s.checks.Keys, false));
    assert DeletingWithDrain(s.checks) == s.checks.Keys by {
      forall n <- s.checks ensures s.checks[n].deleting && s.checks[n].drain {
        assert n !in Undeleted(s) && n !in Unfinalized(s);
      }
    }
    assert Apply(s2, Choose(None)) == s3 && Apply(s3, Commit) == s4;
    AckAll(s4);
    Then(s3, Commit, s');
    Then(s2, Choose(None), s');
    LeadsOn(s1, s2, s');
    Then(s, FirstList, s');
  }

  /** `Run` withdraws at shutdown without refreshMu. From every reachable running state with an idle
      Refresh and a leased active route, that leads to a state in which the lease is still held and
      every check, the one behind the route included, has been acknowledged and is gone. The list
      with which Delete guards every Endpoint then comes back empty. */
  lemma ShutdownReleasesChecks(steps: seq<Step>, s: State, r: RouteId) returns (s': State)
    requires Reaches(INIT, steps, s)
    requires s.shutdown.Running? && s.refresh.Idle?
    requires s.table.active == Some(r) && r in s.table.routes && s.table.routes[r].leases > 0
    ensures Leads(s, s') && s'.checks == map[] && s'.endpoints == s.endpoints && s'.shutdown == Waiting(r)
    ensures r in s'.table.routes && s'.table.routes[r].from == s.table.routes[r].from
    ensures s'.table.routes[r].leases == s.table.routes[r].leases
  {
    RunKeepsInv(INIT, steps, s);
    SwapIsExact(s.table, None);
    s' := ChecksCanGo(Apply(s, ShutdownWithdraw));
    Then(s, ShutdownWithdraw, s');
  }

  // ------------------------------------------------------------------ such a state

  function Admitted(checks: Checks, c: Candidate, table: Table, refresh: Refresh): State {
    State(table, refresh, Running, checks, map[c.endpoint := Endpoint(false, Resting)], 1, 1)
  }

  /** One check of one Endpoint, and the candidate that a Refresh makes of it. */
  lemma CandidateIsReachable(c: Candidate)
    requires c.uid == 0
    ensures var checks := map[c.target.check := Check(0, 1, c.endpoint, false, true)];
            Leads(INIT, Admitted(checks, c, EMPTY, Chosen(checks, 1, {c.target.check}, Some(c))))
  {
    var n := c.target.check;
    var checks: Checks := map[n := Check(0, 1, c.endpoint, false, true)];
    var s1 := Apply(INIT, CreateEndpoint(c.endpoint));
    var s2 := Admitted(checks, c, EMPTY, Idle);
    assert Apply(s1, CreateCheck(n, c.endpoint, true)) == s2;
    var s3 := Admitted(checks, c, EMPTY, Scanning(checks, 1, {n}, {}));
    assert Apply(s2, FirstList) == s3 by { assert checks.Keys == {n}; }
    var s4 := Admitted(checks, c, EMPTY, Scanning(checks, 1, {}, {n}));
    assert Apply(s3, Evaluate(n, true)) == s4 by { assert {n} - {n} == {} && {} + {n} == {n}; }
    var s5 := Admitted(checks, c, EMPTY, Chosen(checks, 1, {n}, Some(c)));
    assert Apply(s4, Choose(Some(c))) == s5;
    LeadsToItself(s5);
    Then(s4, Choose(Some(c)), s5);
    Then(s3, Evaluate(n, true), s5);
    Then(s2, FirstList, s5);
    Then(s1, CreateCheck(n, c.endpoint, true), s5);
    Then(INIT, CreateEndpoint(c.endpoint), s5);
  }

  /** Every first candidate can be committed and leased. */
  lemma LeaseIsReachable(c: Candidate) returns (s: State)
    requires c.uid == 0
    ensures Leads(INIT, s) && s.shutdown.Running? && s.refresh.Idle? && s.table.active == Some(0)
    ensures 0 in s.table.routes && s.table.routes[0] == Route(c, false, false, 1)
  {
    CandidateIsReachable(c);
    var checks := map[c.target.check := Check(0, 1, c.endpoint, false, true)];
    var s1 := Admitted(checks, c, EMPTY, Chosen(checks, 1, {c.target.check}, Some(c)));
    var s2 := Apply(s1, Commit);
    assert s2.refresh == Acking(checks, {c.target.check}, {}, true) by { assert DeletingWithDrain(checks) == {}; }
    var s3 := Apply(s2, Return);
    s := Apply(s3, Acquire);
    LeadsToItself(s);
    Then(s3, Acquire, s);
    Then(s2, Return, s);
    Then(s1, Commit, s);
    LeadsOn(INIT, s1, s);
  }
}
