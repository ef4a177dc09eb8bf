/**
 * Creation of one external object under crashes and lost responses. The runtime's contract:
 * the pending stamp is persisted, under optimistic locking, before Create runs; Create runs only
 * after Observe reported a resource that is not deleting absent; its outcome stamps and
 * annotations are persisted afterwards, or not at all if the process dies first.
 */
module CreateProtocol {
  import opened Basics
  import opened ExternalIdentity

  /** Where the reconciler stands; `mem` is its copy of the resource during Create. */
  datatype Phase = Resting | Announced(mem: Meta) | Posting(mem: Meta) | Answered(mem: Meta)

  /**
   * `uncertain` counts the POSTs without a definite rejection, `inflight` those of them that
   * may still take effect, and `objects` holds the IDs of the objects they left, if present.
   */
  datatype State = State(
    kind: Kind, name: string, meta: Meta, statusId: string, phase: Phase, clock: int,
    uncertain: nat, inflight: nat, objects: set<string>)

  datatype Step =
    // The reconciler.
    | Observed(a: Answers, keepMeta: bool, keepStatus: bool)
    | Announce(a: Answers)
    | Refuse
    | Resume(found: Option<string>)
    | Post
    | Rejected
    | Ambiguous(found: Option<string>)
    | Created(id: string)
    | Persist
    | Crash
    // The external service.
    | Commit(id: string)
    | Drop
    | Vanish(id: string)
    // Users, operators and time.
    | Delete
    | Acknowledge(stamp: Option<int>)
    | Tick(seconds: nat)

  function Init(kind: Kind, name: string, clock: int): State {
    State(kind, name, FRESH, "", Resting, clock, 0, 0, {})
  }

  /** A name that is found belongs to an object of ours, since it carries our UID, and a GET
      that finds nothing is right. A lookup that finds nothing may be wrong. */
  predicate Truthful(s: State, a: Answers) {
    && (a.find.Named? && a.find.found.name == s.name ==> a.find.found.id in s.objects)
    && (a.get == Gone ==> s.meta.externalName !in s.objects) && Vouched(s.kind, a)
  }

  predicate Ours(s: State, id: string) { id in s.objects && ValidId(id) }

  predicate Enabled(s: State, step: Step) {
    match step
    case Observed(a, _, _) =>
      s.phase.Resting? && Truthful(s, a) && ReportsPresent(s.meta, s.statusId, s.kind, s.name, a)
    case Announce(a) =>
      s.phase.Resting? && !s.meta.deleting && Truthful(s, a) && ReportsAbsent(s.meta, s.statusId, s.name, a)
    case Refuse => s.phase.Announced?
    case Resume(found) =>
      s.phase.Announced? && s.phase.mem.ambiguousName != "" && (found.Some? ==> Ours(s, found.value))
    case Post => s.phase.Announced? && s.phase.mem.ambiguousName == "" && s.phase.mem.absence.None?
    case Rejected => s.phase.Posting? && s.inflight > 0 && s.uncertain > 0
    case Ambiguous(found) => s.phase.Posting? && (found.Some? ==> Ours(s, found.value))
    case Created(id) => s.phase.Posting? && Ours(s, id)
    case Persist => s.phase.Answered?
    case Crash => !s.phase.Resting?
    case Commit(id) => s.inflight > 0 && id !in s.objects
    case Drop => s.inflight > 0
    case Vanish(id) => id in s.objects
    case _ => true
  }

  function Apply(s: State, step: Step): State
    requires Enabled(s, step)
  {
    match step
    case Observed(a, keepMeta, keepStatus) =>
      var bound := if Recovers(s.meta, s.name) then Bind(s.meta, a.find.found.id, s.clock) else s.meta;
      s.(meta := if keepMeta then bound else s.meta,
         statusId := if keepStatus then bound.externalName else s.statusId)
    case Announce(_) =>
      var m := s.meta.(pending := Some(s.clock));
      s.(meta := m, phase := Announced(m))
    case Refuse => s.(phase := Answered(s.phase.mem.(failed := s.clock)))
    case Resume(found) => s.(phase := Answered(Recovered(s.phase.mem, found, s.clock).(succeeded := s.clock)))
    case Post => s.(phase := Posting(s.phase.mem), uncertain := s.uncertain + 1, inflight := s.inflight + 1)
    case Rejected =>
      s.(phase := Answered(s.phase.mem.(failed := s.clock)), uncertain := s.uncertain - 1, inflight := s.inflight - 1)
    case Ambiguous(found) =>
      s.(phase := Answered(Recovered(s.phase.mem.(ambiguousName := s.name), found, s.clock).(succeeded := s.clock)))
    case Created(id) => s.(phase := Answered(Bind(s.phase.mem, id, s.clock)))
    case Persist =>
      s.(meta := s.phase.mem.(deleting := s.meta.deleting, absence := s.meta.absence), phase := Resting)
    case Crash => s.(phase := Resting)
    case Commit(id) => s.(objects := s.objects + {id}, inflight := s.inflight - 1)
    case Drop => s.(inflight := s.inflight - 1)
    case Vanish(id) => s.(objects := s.objects - {id})
    case Delete => s.(meta := s.meta.(deleting := true))
    case Acknowledge(stamp) => s.(meta := s.meta.(absence := stamp))
    case Tick(seconds) => s.(clock := s.clock + seconds)
  }

  /** The announced stamp is later than every outcome recorded before it. */
  predicate Spaced(s: State, step: Step) {
    step.Announce? ==> s.clock > Max(s.meta.succeeded, s.meta.failed)
  }

  predicate Reaches(s: State, steps: seq<Step>, s': State)
    decreases |steps|
  {
    if steps == [] then s == s' else Enabled(s, steps[0]) && Reaches(Apply(s, steps[0]), steps[1..], s')
  }

  /** A run in which every announcement is spaced. */
  predicate ReachesSpaced(s: State, steps: seq<Step>, s': State)
    decreases |steps|
  {
    if steps == [] then s == s'
    else Enabled(s, steps[0]) && Spaced(s, steps[0]) && ReachesSpaced(Apply(s, steps[0]), steps[1..], s')
  }

  // ------------------------------------------------------------------ the invariant

  /** A record that forbids another POST. */
  predicate Guarded(m: Meta) {
    Incomplete(m) || m.ambiguousName != "" || m.externalName != ""
  }

  predicate Stamped(s: State, m: Meta) {
    && m.succeeded <= s.clock && m.failed <= s.clock && (m.pending.Some? ==> m.pending.value <= s.clock)
    && (m.ambiguousName == "" || m.ambiguousName == s.name)
  }

  /** A bound ID accounts for the one POST. */
  predicate Accounted(s: State, m: Meta) {
    m.externalName != "" ==> s.uncertain == 1 && s.inflight == 0 && s.objects <= {m.externalName}
  }

  predicate Blank(m: Meta) {
    Incomplete(m) && m.ambiguousName == "" && m.externalName == ""
  }

  predicate PhaseOk(s: State) {
    match s.phase
    case Resting => s.uncertain > 0 ==> Guarded(s.meta)
    case Announced(mem) => Blank(s.meta) && Blank(mem) && s.uncertain == 0
    case Posting(mem) => Blank(s.meta) && Blank(mem) && s.uncertain == 1
    case Answered(mem) => Blank(s.meta) && (s.uncertain > 0 ==> Guarded(mem))
  }

  predicate Inv(s: State) {
    && s.name != "" && s.uncertain <= 1 && s.inflight + |s.objects| <= s.uncertain
    && Stamped(s, s.meta) && Accounted(s, s.meta)
    && (!s.phase.Resting? ==> Stamped(s, s.phase.mem) && Accounted(s, s.phase.mem))
    && PhaseOk(s)
  }

  lemma OnlyObject(objects: set<string>, id: string)
    requires |objects| <= 1 && id in objects
    ensures objects == {id}
  {
    assert |objects - {id}| == |objects| - 1 <= 0;
    assert objects == {id} + (objects - {id});
  }

  /** Absence of a resource that is not deleting is reported only without a guard. */
  lemma AbsentIsUnguarded(s: State, a: Answers)
    requires s.name != "" && !s.meta.deleting && ReportsAbsent(s.meta, s.statusId, s.name, a)
    ensures !Guarded(s.meta)
  {
  }

  lemma BindingKeepsInv(s: State, step: Step)
    requires Inv(s) && Enabled(s, step)
    requires step.Observed? || step.Ambiguous? || step.Created? || step.Resume?
    ensures Inv(Apply(s, step))
  {
    var id := match step
      case Observed(a, _, _) => if Recovers(s.meta, s.name) then a.find.found.id else ""
      case Ambiguous(found) => if found.Some? then found.value else ""
      case Created(id) => id
      case _ => "";
    if id in s.objects { OnlyObject(s.objects, id); }
  }

  lemma ServiceKeepsInv(s: State, step: Step)
    requires Inv(s) && Enabled(s, step)
    requires step.Commit? || step.Drop? || step.Vanish?
    ensures Inv(Apply(s, step))
  {
    var t := Apply(s, step);
    if step.Commit? { assert |t.objects| == |s.objects| + 1; }
    if step.Vanish? { assert |t.objects| == |s.objects| - 1; }
  }

  lemma StepKeepsInv(s: State, step: Step)
    requires Inv(s) && Enabled(s, step) && Spaced(s, step)
    ensures Inv(Apply(s, step))
  {
    if step.Observed? || step.Ambiguous? || step.Created? || step.Resume? {
      BindingKeepsInv(s, step);
    } else if step.Commit? || step.Drop? || step.Vanish? {
      ServiceKeepsInv(s, step);
    } else if step.Announce? {
      AbsentIsUnguarded(s, step.a);
    }
  }

  lemma {:induction false} RunKeepsInv(s: State, steps: seq<Step>, s': State)
    requires Inv(s) && ReachesSpaced(s, steps, s')
    ensures Inv(s')
    decreases |steps|
  {
    if steps != [] {
      StepKeepsInv(s, steps[0]);
      RunKeepsInv(Apply(s, steps[0]), steps[1..], s');
    }
  }

  // ------------------------------------------------------------------ theorems

  /** However the process crashes and whatever responses are lost, at most one POST of the
      resource may have committed, and at most one object of its name exists. */
  lemma AtMostOneUncertainPost(kind: Kind, name: string, clock: int, steps: seq<Step>, s: State)
    requires name != "" && clock >= 0 && ReachesSpaced(Init(kind, name, clock), steps, s)
    ensures s.uncertain <= 1 && |s.objects| + s.inflight <= 1
    ensures s.uncertain == 1 ==> !Enabled(s, Post) && forall a :: !Enabled(s, Announce(a))
  {
    RunKeepsInv(Init(kind, name, clock), steps, s);
    if s.uncertain == 1 {
      forall a ensures !Enabled(s, Announce(a)) {
        if Enabled(s, Announce(a)) { AbsentIsUnguarded(s, a); }
      }
    }
  }

  /** Once a POST may have committed, absence is reported only of a deleting resource, and only
      if its one object is truly gone or the exact pending stamp was acknowledged and no object
      of the owned name is to be found. */
  lemma NoOrphan(kind: Kind, name: string, clock: int, steps: seq<Step>, s: State, a: Answers)
    requires name != "" && clock >= 0 && ReachesSpaced(Init(kind, name, clock), steps, s)
    requires s.phase.Resting? && s.uncertain > 0 && Truthful(s, a)
    requires ReportsAbsent(s.meta, s.statusId, s.name, a)
    ensures s.meta.deleting
    ensures || (s.objects == {} && s.inflight == 0 && a.get == Gone)
            || (s.meta.pending.Some? && s.meta.absence == s.meta.pending && a.find == NoneNamed)
  {
    RunKeepsInv(Init(kind, name, clock), steps, s);
    if !Recovers(s.meta, s.name) {
      assert s.objects <= {s.meta.externalName};
      assert s.objects == {};
    }
  }

  /** The resume branch of Create is dead: Create never sees a recovery marker. */
  lemma CreateNeverResumes(kind: Kind, name: string, clock: int, steps: seq<Step>, s: State, found: Option<string>)
    requires name != "" && clock >= 0 && ReachesSpaced(Init(kind, name, clock), steps, s)
    ensures !Enabled(s, Resume(found))
  {
    RunKeepsInv(Init(kind, name, clock), steps, s);
  }

  /** The state after an announcement, its POST, and a crash before the answer. */
  function Interrupted(s: State, a: Answers): State
    requires Enabled(s, Announce(a))
  {
    s.(meta := s.meta.(pending := Some(s.clock)), uncertain := s.uncertain + 1, inflight := s.inflight + 1)
  }

  /** Stamps are whole seconds, so an announcement in the second of an earlier outcome is no
      guard: after a crash a second POST is permitted exactly when the stamp is not later. */
  lemma InterruptedCreateRepeatsIff(s: State, a: Answers, b: Answers)
    requires s.name != "" && Enabled(s, Announce(a)) && Truthful(s, b)
    ensures Reaches(s, [Announce(a), Post, Crash], Interrupted(s, a))
    ensures Enabled(Interrupted(s, a), Announce(b)) <==> !Spaced(s, Announce(a))
  {
    AbsentIsUnguarded(s, a);
    var s1 := Apply(s, Announce(a));
    var s2 := Apply(s1, Post);
    var s3 := Apply(s2, Crash);
    assert s3 == Interrupted(s, a);
    assert [Announce(a), Post, Crash][1..] == [Post, Crash];
    assert [Post, Crash][1..] == [Crash];
    assert Reaches(s3, [Crash][1..], s3);
    assert Reaches(s2, [Crash], s3);
    assert Reaches(s1, [Post, Crash], s3);
  }

  lemma {:induction false} RunsCompose(s: State, first: seq<Step>, mid: State, second: seq<Step>, s': State)
    requires Reaches(s, first, mid) && Reaches(mid, second, s')
    ensures Reaches(s, first + second, s')
    decreases |first|
  {
    if first == [] {
      assert first + second == second;
    } else {
      RunsCompose(Apply(s, first[0]), first[1..], mid, second, s');
      assert (first + second)[1..] == first[1..] + second;
    }
  }

  const NOTHING := Answers("", NoneNamed, false, false, Gone, false)

  /** The first create is announced and rejected within one second, and the rejection recorded. */
  lemma RejectedAtOnce(kind: Kind, name: string, clock: int)
    requires name != ""
    ensures Reaches(Init(kind, name, clock), [Announce(NOTHING), Post, Rejected, Persist],
              Init(kind, name, clock).(meta := FRESH.(pending := Some(clock), failed := clock)))
  {
    var s := Init(kind, name, clock);
    var s1, m := Apply(s, Announce(NOTHING)), FRESH.(pending := Some(clock));
    assert s1 == s.(meta := m, phase := Announced(m));
    var s2 := s.(meta := m, phase := Posting(m), uncertain := 1, inflight := 1);
    assert s2 == Apply(s1, Post);
    var s3 := s.(meta := m, phase := Answered(m.(failed := clock)));
    assert s3 == Apply(s2, Rejected);
    var s4 := s.(meta := m.(failed := clock));
    assert s4 == Apply(s3, Persist);
    assert Reaches(s4, [Persist][1..], s4);
    assert [Rejected, Persist][1..] == [Persist];
    assert Reaches(s2, [Rejected, Persist], s4);
    assert [Post, Rejected, Persist][1..] == [Rejected, Persist];
    assert Reaches(s1, [Post, Rejected, Persist], s4);
    assert [Announce(NOTHING), Post, Rejected, Persist][1..] == [Post, Rejected, Persist];
  }

  /** The bound of one fails without spacing: a retry in the second of the rejection, interrupted
      by a crash, is repeated, and both of its POSTs may have committed. */
  lemma SameSecondRetryPostsTwice(kind: Kind, name: string, clock: int) returns (steps: seq<Step>, s: State)
    requires name != "" && clock > 0
    ensures Reaches(Init(kind, name, clock), steps, s) && s.uncertain == 2
  {
    RejectedAtOnce(kind, name, clock);
    var first := [Announce(NOTHING), Post, Rejected, Persist];
    var s0 := Init(kind, name, clock).(meta := FRESH.(pending := Some(clock), failed := clock));
    var again := [Announce(NOTHING), Post, Crash];
    InterruptedCreateRepeatsIff(s0, NOTHING, NOTHING);
    var s1 := Interrupted(s0, NOTHING);
    RunsCompose(Init(kind, name, clock), first, s0, again, s1);
    InterruptedCreateRepeatsIff(s1, NOTHING, NOTHING);
    s := Interrupted(s1, NOTHING);
    RunsCompose(Init(kind, name, clock), first + again, s1, again, s);
    steps := first + again + again;
  }

  // ------------------------------------------------------------------ creation succeeds

  lemma Reached(s: State, step: Step, steps: seq<Step>, s': State)
    requires Enabled(s, step) && Reaches(Apply(s, step), steps, s')
    ensures Reaches(s, [step] + steps, s')
  {
    assert ([step] + steps)[1..] == steps;
  }

  /** The POST of the first create has made the object, and its answer is on the way. */
  function Made(kind: Kind, name: string, clock: int, id: string): State {
    var m := FRESH.(pending := Some(clock));
    Init(kind, name, clock).(meta := m, phase := Posting(m), uncertain := 1, objects := {id})
  }

  lemma PostMakes(kind: Kind, name: string, clock: int, id: string)
    requires name != "" && clock > 0 && ValidId(id)
    ensures Reaches(Init(kind, name, clock), [Announce(NOTHING), Post, Commit(id)], Made(kind, name, clock, id))
  {
    var s0, m := Init(kind, name, clock), FRESH.(pending := Some(clock));
    var s1 := Apply(s0, Announce(NOTHING));
    var s2 := s0.(meta := m, phase := Posting(m), uncertain := 1, inflight := 1);
    var s3 := Made(kind, name, clock, id);
    assert Apply(s1, Post) == s2 && Apply(s2, Commit(id)) == s3;
    assert Reaches(s3, [], s3);
    Reached(s2, Commit(id), [], s3);
    Reached(s1, Post, [Commit(id)], s3);
    Reached(s0, Announce(NOTHING), [Post, Commit(id)], s3);
  }

  /** What is left once the answer is recorded: the object bound, or the name under which to look. */
  function AtRest(kind: Kind, name: string, clock: int, id: string, lost: bool): State {
    var m := FRESH.(pending := Some(clock), succeeded := clock);
    Made(kind, name, clock, id).(
      phase := Resting, meta := if lost then m.(ambiguousName := name) else m.(externalName := id, bound := true))
  }

  function CreateRun(id: string, lost: bool): seq<Step> {
    [Announce(NOTHING), Post, Commit(id)] + [if lost then Ambiguous(None) else Created(id), Persist]
  }

  lemma CreateIsRecorded(kind: Kind, name: string, clock: int, id: string, lost: bool)
    requires name != "" && clock > 0 && ValidId(id)
    ensures Reaches(Init(kind, name, clock), CreateRun(id, lost), AtRest(kind, name, clock, id, lost))
  {
    PostMakes(kind, name, clock, id);
    var made, s := Made(kind, name, clock, id), AtRest(kind, name, clock, id, lost);
    var answer := if lost then Ambiguous(None) else Created(id);
    assert Apply(Apply(made, answer), Persist) == s;
    assert Reaches(s, [], s);
    Reached(Apply(made, answer), Persist, [], s);
    Reached(made, answer, [Persist], s);
    RunsCompose(Init(kind, name, clock), [Announce(NOTHING), Post, Commit(id)], made, [answer, Persist], s);
  }

  /** A create that was answered is then seen: Observe reports the resource present whenever its
      object is in order. */
  lemma CreatedIsSeen(kind: Kind, name: string, clock: int, id: string, a: Answers)
    requires name != "" && clock > 0 && ValidId(id)
    requires var s := AtRest(kind, name, clock, id, false); Truthful(s, a) && InOrder(s.meta, kind, name, a)
    ensures Reaches(Init(kind, name, clock), CreateRun(id, false), AtRest(kind, name, clock, id, false))
    ensures forall k, l :: Enabled(AtRest(kind, name, clock, id, false), Observed(a, k, l))
  {
    CreateIsRecorded(kind, name, clock, id, false);
    BoundIsSeen(FRESH.(pending := Some(clock)), id, clock, "", kind, name, a);
  }

  /** A create whose answer was lost is recovered as soon as the name is found, unless adoption is
      refused, and is then seen like any other. */
  lemma LostCreateIsRecovered(kind: Kind, name: string, clock: int, id: string, a: Answers, b: Answers)
    requires name != "" && clock > 0 && ValidId(id)
    requires var s := AtRest(kind, name, clock, id, true);
             && Truthful(s, a) && a.find.Named? && a.find.found.id == id && a.find.found.name == name
             && RunsTemplate(kind, s.meta, a, a.find.found) && !a.adoptionRefused
             && InOrder(s.meta, kind, name, b) && Vouched(kind, b) && b.find == NoneNamed
    ensures var s := AtRest(kind, name, clock, id, true);
            && Reaches(Init(kind, name, clock), CreateRun(id, true), s)
            && Enabled(s, Observed(a, true, true))
            && var t := Apply(s, Observed(a, true, true));
               t.meta.externalName == t.statusId == id && Enabled(t, Observed(b, true, true))
  {
    CreateIsRecorded(kind, name, clock, id, true);
    var s := AtRest(kind, name, clock, id, true);
    BoundIsSeen(s.meta, id, clock, id, kind, name, b);
  }

  // ------------------------------------------------------------------ a terminating Endpoint

  /** A terminating Endpoint that is bound, at rest, and has no create to recover. */
  predicate Stuck(s: State) {
    && s.kind == EndpointKind && s.phase.Resting? && s.meta.deleting && s.meta.externalName != ""
    && !Incomplete(s.meta) && s.meta.ambiguousName == ""
  }

  /** It is never again reported present, so its external object is never deleted, and it is not
      reported absent, and so not released, while that object exists. */
  lemma StuckIsUnseen(s: State, a: Answers)
    requires Stuck(s) && Truthful(s, a)
    ensures !ReportsPresent(s.meta, s.statusId, s.kind, s.name, a)
    ensures s.meta.externalName in s.objects ==> !ReportsAbsent(s.meta, s.statusId, s.name, a)
  {
    TerminatingEndpointIsNotSeen(s.meta, s.statusId, s.name, a);
  }

  /** It stays so in every run, and its object stays until someone else removes it. */
  lemma {:induction false} StuckForever(s: State, steps: seq<Step>, s': State)
    requires Stuck(s) && Reaches(s, steps, s')
    ensures Stuck(s') && s'.meta.externalName == s.meta.externalName
            && forall a, k, l :: !Enabled(s', Observed(a, k, l))
    ensures s.meta.externalName in s.objects && Vanish(s.meta.externalName) !in steps ==>
              s'.meta.externalName in s'.objects
    decreases |steps|
  {
    forall a | Truthful(s, a) ensures !ReportsPresent(s.meta, s.statusId, s.kind, s.name, a) { StuckIsUnseen(s, a); }
    if steps != [] {
      assert steps[0] in steps && forall step <- steps[1..] :: step in steps;
      StuckForever(Apply(s, steps[0]), steps[1..], s');
    }
  }

  /** A bound ID leaves nothing to recover. */
  predicate Settled(m: Meta) {
    m.externalName != "" ==> m.ambiguousName == "" && !Incomplete(m)
  }

  predicate BindingInv(s: State) {
    && s.name != "" && Stamped(s, s.meta) && Settled(s.meta)
    && (!s.phase.Resting? ==> Stamped(s, s.phase.mem) && Settled(s.phase.mem) && s.meta.externalName == "")
    && (s.phase.Announced? || s.phase.Posting? ==> s.phase.mem.externalName == "")
  }

  lemma StepKeepsBinding(s: State, step: Step)
    requires BindingInv(s) && Enabled(s, step)
    ensures BindingInv(Apply(s, step)) && Apply(s, step).kind == s.kind
    ensures s.meta.externalName != "" ==> Apply(s, step).meta.externalName == s.meta.externalName
  {
    if step.Announce? { AbsentIsUnguarded(s, step.a); }
  }

  /** In every run, spaced or not, a bound resource stays bound to its object and at rest. */
  lemma {:induction false} RunKeepsBinding(s: State, steps: seq<Step>, s': State)
    requires BindingInv(s) && Reaches(s, steps, s')
    ensures BindingInv(s') && s'.kind == s.kind
    ensures s.meta.externalName != "" ==> s'.meta.externalName == s.meta.externalName && s'.phase.Resting?
    decreases |steps|
  {
    if steps != [] {
      StepKeepsBinding(s, steps[0]);
      RunKeepsBinding(Apply(s, steps[0]), steps[1..], s');
    }
  }

  /** Every terminating Endpoint that has been bound is stuck. */
  lemma TerminatingBoundIsStuck(name: string, clock: int, steps: seq<Step>, s: State)
    requires name != "" && clock >= 0 && Reaches(Init(EndpointKind, name, clock), steps, s)
    requires s.meta.deleting && s.meta.externalName != ""
    ensures Stuck(s)
  {
    RunKeepsBinding(Init(EndpointKind, name, clock), steps, s);
  }

  /** Once an Endpoint is bound it stays bound to that object; and however the run goes on, the
      object is never observed present after the deletion, which is what the runtime demands before
      it calls Delete. */
  lemma BoundIsNeverDeleted(name: string, clock: int, past: seq<Step>, s: State, steps: seq<Step>, s': State)
    requires name != "" && clock >= 0 && Reaches(Init(EndpointKind, name, clock), past, s)
    requires s.meta.externalName != "" && Reaches(s, steps, s')
    ensures s'.meta.externalName == s.meta.externalName
    ensures s'.meta.deleting ==> forall a, k, l :: !Enabled(s', Observed(a, k, l))
  {
    RunKeepsBinding(Init(EndpointKind, name, clock), past, s);
    RunKeepsBinding(s, steps, s');
    if s'.meta.deleting {
      forall a | Truthful(s', a) ensures !ReportsPresent(s'.meta, s'.statusId, s'.kind, s'.name, a) {
        StuckIsUnseen(s', a);
      }
    }
  }

  /** The run to it: an Endpoint is created without a fault, and then deleted. */
  lemma DeletedEndpointIsStuck(name: string, clock: int, id: string) returns (steps: seq<Step>, s: State)
    requires name != "" && clock > 0 && ValidId(id)
    ensures Reaches(Init(EndpointKind, name, clock), steps, s) && Stuck(s) && s.meta.externalName == id
            && s.objects == {id}
  {
    CreateIsRecorded(EndpointKind, name, clock, id, false);
    var bound := AtRest(EndpointKind, name, clock, id, false);
    s := Apply(bound, Delete);
    assert Reaches(s, [], s);
    Reached(bound, Delete, [], s);
    steps := CreateRun(id, false) + [Delete];
    RunsCompose(Init(EndpointKind, name, clock), CreateRun(id, false), bound, [Delete], s);
  }
}
