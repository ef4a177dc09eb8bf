/**
 * The Endpoint status as evidence: what `setObservation` records, and what a recorded value
 * says about the history of reads and writes that led to it. Times are whole seconds; zero is
 * the zero time.
 */
module Evidence {
  import opened Basics

  const MAX_AGE := 300
  const SKEW := 30

  /** The revision of the managed Template that a rollout runs. */
  datatype Revision = Revision(uid: string, generation: int, image: string)

  datatype Status = Status(
    id: string, templateId: string, version: Option<int>, revision: Revision,
    flashOff: bool, flashVersion: Option<int>, flashAt: int,
    workerOk: bool, workerVersion: Option<int>, workerAt: int, observedAt: int)

  const UNBOUND := Revision("", 0, "")
  const EMPTY := Status("", "", None, UNBOUND, false, None, 0, false, None, 0, 0)

  /** `FlashBootEvidenceCurrent` */
  predicate FlashBootCurrent(o: Status, now: int) {
    && o.flashOff && o.flashVersion.Some? && o.version == o.flashVersion && o.flashAt != 0
    && -SKEW <= now - o.flashAt <= MAX_AGE
  }

  /** `WorkerSecurityEvidenceCurrent` */
  predicate WorkerCurrent(o: Status) {
    o.workerOk && o.version.Some? && o.workerVersion == o.version && o.workerAt != 0
  }

  /** An answer of the management API; `bounds` says that both worker bounds are present. */
  datatype Reading = Reading(
    id: string, templateId: string, bounds: bool, version: Option<int>, flashBoot: Option<bool>, workers: nat)

  predicate Complete(got: Reading) { got.bounds && got.version.Some? }

  /** The operations that record an answer. Before a Read or a Recovery records, the workers in
      the answer have been matched against the bounded contract. */
  datatype Operation = Read | Recovery | Create | Update

  predicate Confirmed(op: Operation) { op != Read }

  predicate ProvesWorkers(op: Operation, got: Reading) { (op == Read || op == Recovery) && got.workers > 0 }

  class Endpoint {
    var status: Status

    constructor ()
      ensures status == EMPTY
    {
      status := EMPTY;
    }

    /** `setObservation`, with its two results. */
    method SetObservation(got: Reading, confirmed: bool, template: Revision, active: bool, now: int)
      returns (flashBootProven: bool, revisionProven: bool)
      modifies this
      ensures status == Recorded(old(status), got, confirmed, template, active, now)
      ensures flashBootProven <==> Complete(got) && status.flashOff
      ensures revisionProven <==>
              Complete(got) && (old(status).revision == template || Rebinds(old(status), got, confirmed))
    {
      if !got.bounds || got.version.None? { return false, false; }
      var previous, version := status, got.version.value;
      var off := false;
      var at := 0;
      if got.flashBoot.Some? {
        off := !got.flashBoot.value;
      } else if confirmed {
        off := true;
      } else if previous.id == got.id && FlashBootCurrent(previous, now) && previous.flashVersion == Some(version) {
        off := true;
      }
      if off {
        if !confirmed && got.flashBoot.None? && previous.id == got.id && FlashBootCurrent(previous, now)
           && previous.flashVersion == Some(version)
        {
          at := previous.flashAt;
        } else {
          at := now;
        }
      }
      revisionProven := previous.revision == template;
      if previous.revision.uid == "" && confirmed { revisionProven := true; }
      if previous.revision.uid != "" && previous.version.Some? && previous.version.value != version {
        revisionProven := true;
      }
      var revision := previous.revision;
      if revisionProven { revision := template; }
      status := Status(got.id, got.templateId, Some(version), revision,
                       off, None, at,
                       active, if active then Some(version) else None, if active then now else 0, now);
      if off { status := status.(flashVersion := Some(version)); }
      flashBootProven := off;
    }

    /** The four places that record an answer: `Observe` for an existing object and after recovering
        one, `Create`, whose recovery is of the second kind, and `Update`. */
    method Perform(op: Operation, got: Reading, template: Resolved, now: int)
      modifies this
      ensures status == Next(old(status), Record(op, got, template, now))
    {
      match op {
        case Read => var _, _ := SetObservation(got, false, template.revision, got.workers > 0, now);
        case Recovery => var _, _ := SetObservation(got, true, template.revision, got.workers > 0, now);
        case Create => var _, _ := SetObservation(got, true, template.revision, false, now);
        case Update => var _, _ := SetObservation(got, true, template.revision, false, now);
      }
    }
  }

  /** The evidence held already covers this answer. */
  predicate Carries(o: Status, got: Reading, now: int) {
    o.id == got.id && FlashBootCurrent(o, now) && o.flashVersion == got.version
  }

  /** The answer moves the Endpoint to the current Template revision. */
  predicate Rebinds(o: Status, got: Reading, confirmed: bool) {
    if o.revision.uid == "" then confirmed else o.version.Some? && o.version != got.version
  }

  /** What `setObservation` leaves in the status. */
  function Recorded(o: Status, got: Reading, confirmed: bool, template: Revision, active: bool, now: int): Status {
    if !Complete(got) then o
    else
      var carried := got.flashBoot.None? && !confirmed && Carries(o, got, now);
      var off := if got.flashBoot.Some? then !got.flashBoot.value else confirmed || carried;
      Status(got.id, got.templateId, got.version, if Rebinds(o, got, confirmed) then template else o.revision,
             off, if off then got.version else None, if !off then 0 else if carried then o.flashAt else now,
             active, if active then got.version else None, if active then now else 0, now)
  }

  // ------------------------------------------------------------------ histories

  /** The Template that a reconcile has resolved: its external ID and its revision. */
  datatype Resolved = Resolved(id: string, revision: Revision)

  const NO_TEMPLATE := Resolved("", UNBOUND)

  /** A status write that was persisted, or the deletion of the resource. A lost write leaves no
      event. */
  datatype Event =
    | Record(op: Operation, got: Reading, template: Resolved, now: int)
    | Adopt(id: string)                        // a bound ID fills an empty status
    | Cleanup(id: string, templateId: string)  // a deleting resource found its object by name
    | Terminate

  function Next(o: Status, e: Event): Status {
    match e
    case Record(op, got, template, now) =>
      Recorded(o, got, Confirmed(op), template.revision, ProvesWorkers(op, got), now)
    case Adopt(id) => if o.id == "" then o.(id := id) else o
    case Cleanup(id, templateId) => o.(id := id, templateId := templateId)
    case Terminate => o
  }

  function Run(events: seq<Event>): Status
    decreases |events|
  {
    if events == [] then EMPTY else Next(Run(events[..|events| - 1]), events[|events| - 1])
  }

  /**
   * The guards on the way to a status write. The client vouches for the IDs in an answer. A
   * terminating resource resolves no Template. A Read or a Recovery records only an answer that
   * runs the resolved Template, a Create or an Update only with a Template. Only a terminating
   * resource is cleaned up.
   */
  predicate Permitted(e: Event, terminating: bool) {
    match e
    case Record(op, got, template, now) =>
      && now > 0 && got.id != "" && got.templateId != ""
      && (if terminating then template == NO_TEMPLATE else template.id != "" ==> template.revision.uid != "")
      && (if op == Read || op == Recovery then template.id == got.templateId else template.id != "")
    case Cleanup(id, _) => terminating && id != ""
    case _ => true
  }

  ghost predicate Possible(events: seq<Event>) {
    forall i :: 0 <= i < |events| ==> Permitted(events[i], Terminate in events[..i])
  }

  /** Nothing is recorded for a terminating resource. */
  lemma NoRecordAfterTermination(events: seq<Event>, i: nat)
    requires Possible(events) && i < |events| && events[i].Record?
    ensures Terminate !in events[..i] && events[i].template.revision.uid != ""
    ensures forall j :: 0 <= j < i ==> !events[j].Cleanup?
  {
    assert forall j :: 0 <= j < i && Terminate in events[..j] ==> Terminate in events[..i];
  }

  predicate Records(e: Event) { e.Record? && Complete(e.got) }

  /** A confirmed write of flashboot=false, or a direct reading of it. */
  predicate Enforces(e: Event) {
    Records(e) && (e.got.flashBoot == Some(false) || (e.got.flashBoot.None? && e.op != Read))
  }

  /** An event that leaves the evidence of `e` as it is: a silent read of the same object and
      rollout while that evidence is current, or no record at all. */
  predicate Leaves(e: Event, later: Event)
    requires Records(e)
  {
    Records(later) ==>
      && later.op == Read && later.got.flashBoot.None? && later.got.id == e.got.id && later.got.version == e.got.version
      && -SKEW <= later.now - e.now <= MAX_AGE
  }

  ghost predicate Traces(events: seq<Event>, i: nat) {
    && i < |events| && Enforces(events[i])
    && forall j :: i < j < |events| ==> Leaves(events[i], events[j])
  }

  ghost predicate Cleaned(events: seq<Event>) {
    exists i :: 0 <= i < |events| && events[i].Cleanup?
  }

  /** `i` is where the evidence in `o` comes from. */
  ghost predicate ComesFrom(o: Status, events: seq<Event>, i: nat)
    requires i < |events| && Records(events[i])
  {
    && o.flashOff && o.flashAt == events[i].now && o.flashVersion == events[i].got.version == o.version
    && (!Cleaned(events) ==> o.id == events[i].got.id)
  }

  lemma Prefixes(events: seq<Event>)
    requires events != []
    ensures var before, last := events[..|events| - 1], events[|events| - 1];
            && (Possible(events) ==> Possible(before))
            && (Cleaned(events) <==> Cleaned(before) || last.Cleanup?)
            && forall i: nat :: i < |before| ==> (Traces(events, i) <==> Traces(before, i) && Leaves(events[i], last))
  {
    var before := events[..|events| - 1];
    assert forall i :: 0 <= i < |before| ==> before[..i] == events[..i] && before[i] == events[i];
    if i :| 0 <= i < |before| && before[i].Cleanup? { assert events[i].Cleanup?; }
    forall i: nat | i < |before| && Traces(before, i) && Leaves(events[i], events[|events| - 1])
      ensures Traces(events, i)
    {
      forall j | i < j < |events| ensures Leaves(events[i], events[j]) {
        assert j < |before| ==> events[j] == before[j];
      }
    }
    forall i: nat | i < |before| && Traces(events, i) ensures Traces(before, i) {
      assert forall j :: i < j < |before| ==> before[j] == events[j];
    }
  }

  /** Evidence is recorded exactly if it traces to a confirmed write or a direct false reading,
      and then it carries that event's time and version, and its object unless a cleanup has
      replaced the ID since: silent reads never refresh it. */
  lemma {:induction false} FlashBootTraces(events: seq<Event>)
    requires Possible(events)
    ensures Run(events).flashOff <==> exists i: nat :: Traces(events, i)
    ensures forall i: nat :: Traces(events, i) ==> ComesFrom(Run(events), events, i)
    decreases |events|
  {
    if events != [] {
      var n := |events| - 1;
      var before, e := events[..n], events[n];
      Prefixes(events);
      FlashBootTraces(before);
      assert Permitted(e, Terminate in before);
      if e.Record? {
        NoRecordAfterTermination(events, n);
        assert !Cleaned(before) by { assert forall j :: 0 <= j < n ==> before[j] == events[j]; }
      }
      forall i: nat | Traces(events, i) ensures ComesFrom(Run(events), events, i) {
        if i < n { assert ComesFrom(Run(before), before, i); }
      }
      if Run(events).flashOff {
        if Enforces(e) {
          assert Traces(events, n);
        } else {
          var i: nat :| Traces(before, i);
          assert ComesFrom(Run(before), before, i);
          assert Traces(events, i);
        }
      }
    }
  }

  /** Evidence that is current now: an enforcement of the same rollout, no older than five minutes,
      with nothing but silent reads since. */
  lemma CurrentEvidenceTraces(events: seq<Event>, now: int)
    requires Possible(events)
    ensures FlashBootCurrent(Run(events), now) <==>
            exists i: nat :: Traces(events, i) && -30 <= now - events[i].now <= 300
  {
    FlashBootTraces(events);
  }

  /** A first cleanup keeps the evidence tied to its object exactly if it finds that object again. */
  lemma CleanupKeepsTraceIff(events: seq<Event>, id: string, templateId: string, i: nat)
    requires Possible(events + [Cleanup(id, templateId)]) && !Cleaned(events) && Traces(events, i)
    ensures var all := events + [Cleanup(id, templateId)];
            Traces(all, i) && Run(all).flashOff && (Run(all).id == all[i].got.id <==> id == Run(events).id)
  {
    var all := events + [Cleanup(id, templateId)];
    assert all[..|all| - 1] == events;
    Prefixes(all);
    FlashBootTraces(events);
    assert ComesFrom(Run(events), events, i);
  }

  // ------------------------------------------------------------------ workers

  ghost predicate LastRecord(events: seq<Event>, i: nat) {
    i < |events| && Records(events[i]) && forall j :: i < j < |events| ==> !Records(events[j])
  }

  lemma LastRecordPrefix(events: seq<Event>, i: nat)
    requires events != []
    ensures var n := |events| - 1;
            LastRecord(events, i) <==> if Records(events[n]) then i == n else i < n && LastRecord(events[..n], i)
  {
    var n := |events| - 1;
    var before := events[..n];
    assert forall j :: 0 <= j < n ==> before[j] == events[j];
    if i < n && LastRecord(before, i) && !Records(events[n]) {
      forall j | i < j < |events| ensures !Records(events[j]) {
        assert j < n ==> events[j] == before[j];
      }
    }
  }

  /** The worker proof holds exactly if the last recorded answer, from a Read or a Recovery,
      had matched workers; the version held is always that of the last recorded answer. */
  lemma {:induction false} WorkerProofIsTheLast(events: seq<Event>)
    requires Possible(events)
    ensures WorkerCurrent(Run(events)) <==>
            exists i: nat :: LastRecord(events, i) && events[i].op in {Read, Recovery} && events[i].got.workers > 0
    ensures forall i: nat :: LastRecord(events, i) ==>
              && Run(events).version == events[i].got.version
              && (WorkerCurrent(Run(events)) ==> Run(events).workerAt == events[i].now)
    ensures Run(events).version.Some? ==> exists i: nat :: LastRecord(events, i)
    decreases |events|
  {
    if events != [] {
      var n := |events| - 1;
      var before, e := events[..n], events[n];
      Prefixes(events);
      WorkerProofIsTheLast(before);
      assert Permitted(e, Terminate in before);
      forall i: nat ensures LastRecord(events, i) <==> if Records(e) then i == n else i < n && LastRecord(before, i) {
        LastRecordPrefix(events, i);
      }
      if Records(e) {
        assert LastRecord(events, n);
      } else {
        forall i: nat | LastRecord(before, i) ensures LastRecord(events, i) {}
      }
    }
  }

  /** The status holds what this answer said, up to a change of ID by a cleanup. */
  predicate Reflects(o: Status, e: Event, cleaned: bool)
    requires Records(e)
  {
    && o.observedAt == e.now && o.version == e.got.version
    && (!cleaned ==> o.id == e.got.id && o.templateId == e.got.templateId)
  }

  lemma NextReflects(o: Status, e: Event, next: Event, cleaned: bool)
    requires Records(e) && e.got.id != "" && Reflects(o, e, cleaned) && !Records(next)
    ensures Reflects(Next(o, next), e, cleaned || next.Cleanup?)
  {
  }

  lemma CleanedPrefix(events: seq<Event>)
    requires events != []
    ensures Cleaned(events) <==> Cleaned(events[..|events| - 1]) || events[|events| - 1].Cleanup?
  {
    var before := events[..|events| - 1];
    assert forall i :: 0 <= i < |before| ==> before[i] == events[i];
    if i :| 0 <= i < |before| && before[i].Cleanup? { assert events[i].Cleanup?; }
  }

  /** The rest of the status is that of the last recorded answer too, until a cleanup. */
  lemma {:induction false} StatusIsTheLastAnswer(events: seq<Event>, i: nat)
    requires LastRecord(events, i) && events[i].got.id != ""
    ensures Reflects(Run(events), events[i], Cleaned(events))
    decreases |events|
  {
    var n := |events| - 1;
    LastRecordPrefix(events, i);
    if i < n {
      var before := events[..n];
      assert before[i] == events[i];
      StatusIsTheLastAnswer(before, i);
      CleanedPrefix(events);
      NextReflects(Run(before), events[i], events[n], Cleaned(before));
    }
  }

  // ------------------------------------------------------------------ the template revision

  predicate Writes(e: Event) { Records(e) && e.op != Read }

  /** Event `i` is the first confirmed write, or it reports a new rollout after one. */
  ghost predicate RebindsAt(events: seq<Event>, i: nat) {
    && i < |events| && Records(events[i])
    && if forall j :: 0 <= j < i ==> !Writes(events[j]) then Writes(events[i])
       else exists k: nat :: LastRecord(events[..i], k) && events[k].got.version != events[i].got.version
  }

  lemma RebindsAtPrefix(events: seq<Event>, i: nat)
    requires i < |events| - 1
    ensures RebindsAt(events, i) <==> RebindsAt(events[..|events| - 1], i)
  {
    var before := events[..|events| - 1];
    assert before[..i] == events[..i];
    assert forall j :: 0 <= j <= i ==> before[j] == events[j];
  }

  ghost predicate LastRebind(events: seq<Event>, i: nat) {
    RebindsAt(events, i) && forall j: nat :: i < j < |events| ==> !RebindsAt(events, j)
  }

  lemma LastRebindPrefix(events: seq<Event>, i: nat)
    requires i < |events| - 1 && LastRebind(events, i)
    ensures !RebindsAt(events, |events| - 1) && LastRebind(events[..|events| - 1], i)
  {
    var before := events[..|events| - 1];
    RebindsAtPrefix(events, i);
    forall j: nat | i < j < |before| ensures !RebindsAt(before, j) { RebindsAtPrefix(events, j); }
  }

  lemma WritesPrefix(events: seq<Event>)
    requires events != []
    ensures var n := |events| - 1;
            (forall i :: 0 <= i < |events| ==> !Writes(events[i])) <==>
            (forall i :: 0 <= i < n ==> !Writes(events[..n][i])) && !Writes(events[n])
  {
    var n := |events| - 1;
    assert forall j :: 0 <= j < n ==> events[..n][j] == events[j];
  }

  /** No revision is bound until the first confirmed write. */
  lemma {:induction false} UnboundIff(events: seq<Event>)
    requires Possible(events)
    ensures Run(events).revision.uid == "" <==> forall i :: 0 <= i < |events| ==> !Writes(events[i])
    decreases |events|
  {
    if events != [] {
      var n := |events| - 1;
      Prefixes(events);
      UnboundIff(events[..n]);
      WritesPrefix(events);
      if events[n].Record? { NoRecordAfterTermination(events, n); }
    }
  }

  /** One event rebinds exactly if the trace says so. */
  lemma RebindsNow(events: seq<Event>)
    requires Possible(events) && events != [] && Records(events[|events| - 1])
    ensures var n := |events| - 1;
            Rebinds(Run(events[..n]), events[n].got, Confirmed(events[n].op)) <==> RebindsAt(events, n)
  {
    var n := |events| - 1;
    var before, e := events[..n], events[n];
    Prefixes(events);
    UnboundIff(before);
    WorkerProofIsTheLast(before);
    assert forall j :: 0 <= j < n ==> before[j] == events[j];
    if j :| 0 <= j < n && Writes(events[j]) {
      assert Writes(before[j]);
      if RebindsAt(events, n) {
        var k: nat :| LastRecord(before, k) && events[k].got.version != e.got.version;
        assert before[k] == events[k];
      }
      if Rebinds(Run(before), e.got, Confirmed(e.op)) {
        var k: nat :| LastRecord(before, k);
        assert before[k] == events[k];
      }
    } else {
      assert forall j :: 0 <= j < n ==> !Writes(before[j]);
    }
  }

  /** The bound Template revision is that of the last event that was the first confirmed write
      or reported a new rollout; before any such event there is none. */
  lemma {:induction false} RevisionTraces(events: seq<Event>)
    requires Possible(events)
    ensures forall i: nat :: LastRebind(events, i) ==> Run(events).revision == events[i].template.revision
    ensures Run(events).revision == UNBOUND || exists i: nat :: RebindsAt(events, i)
    decreases |events|
  {
    if events != [] {
      var n := |events| - 1;
      var before, e := events[..n], events[n];
      Prefixes(events);
      RevisionTraces(before);
      if Records(e) { RebindsNow(events); }
      assert RebindsAt(events, n) || Run(events).revision == Run(before).revision;
      forall i: nat | LastRebind(events, i) ensures Run(events).revision == events[i].template.revision {
        if i < n { LastRebindPrefix(events, i); }
      }
      if Run(before).revision != UNBOUND {
        var i: nat :| RebindsAt(before, i);
        RebindsAtPrefix(events, i);
      }
    }
  }
}
