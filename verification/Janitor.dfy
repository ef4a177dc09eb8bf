/**
 * Teardown: the lifetime janitor stops routing before it lets an Endpoint go, and hands an
 * expired Endpoint's Template to the reaper. Objects live in a store in which a deletion only
 * marks an object that still carries a finalizer. Between any two calls of a pass everyone else may
 * change the store at will.
 */
module Janitor {
  import opened Basics

  type Name = string

  /** `lifetime` is the janitor's finalizer and `managed` the managed reconciler's. */
  datatype Endpoint = Endpoint(
    namespace: string, uid: string, rv: nat, deleting: bool, lifetime: bool, managed: bool, expiresAt: int,
    template: Option<Name>, reapTemplate: Option<bool>)

  datatype Check = Check(endpoint: Option<Name>, deleting: bool, drain: bool)

  /** `mark` is the value of the reap annotation; `expiresAt` is absent for an unbounded Template. */
  datatype Template = Template(rv: nat, deleting: bool, managed: bool, expiresAt: Option<int>, mark: Option<string>)

  datatype Store = Store(
    endpoints: map<Name, Endpoint>, checks: map<Name, Check>, templates: map<Name, Template>, version: nat)

  /** The API calls of one reconcile that fail; a failing check deletion is named. */
  datatype Faults = Faults(list: bool, deletes: set<Name>, read: bool, mark: bool, write: bool)

  const NO_FAULTS := Faults(false, {}, false, false, false)

  /** What everyone else does to the store just before each call of a pass. */
  datatype Others = Others(
    list: Store -> Store, delete: (Name, Store) -> Store, read: Store -> Store, mark: Store -> Store,
    write: Store -> Store)

  const QUIET := Others(s => s, (n, s) => s, s => s, s => s, s => s)

  predicate References(c: Check, endpoint: Name) { c.endpoint == Some(endpoint) }

  function Matching(checks: map<Name, Check>, endpoint: Name): set<Name> {
    set n | n in checks && References(checks[n], endpoint)
  }

  // ------------------------------------------------------------------ the store

  function WithoutCheck(s: Store, n: Name): Store {
    if n !in s.checks then s
    else if s.checks[n].drain then s.(checks := s.checks[n := s.checks[n].(deleting := true)])
    else s.(checks := s.checks - {n})
  }

  /** A write; an object that is deleting and carries no finalizer disappears. */
  function Put(s: Store, n: Name, e: Endpoint): Store {
    if e.deleting && !e.lifetime && !e.managed then s.(endpoints := s.endpoints - {n})
    else s.(endpoints := s.endpoints[n := e.(rv := s.version + 1)], version := s.version + 1)
  }

  function WithoutEndpoint(s: Store, n: Name): Store {
    if n !in s.endpoints || s.endpoints[n].deleting then s else Put(s, n, s.endpoints[n].(deleting := true))
  }

  // ------------------------------------------------------------------ the janitor

  predicate Wanted(e: Endpoint) { e.reapTemplate != Some(false) && e.template.Some? }

  function Marker(n: Name, e: Endpoint): string { if e.uid != "" then e.uid else e.namespace + "/" + n }

  /** `deleteChecks` over the names of a list, up to the first failure. What a listed check
      references is read from the list, and the deletion is by name. */
  function ChecksDeleted(
      s: Store, listed: map<Name, Check>, endpoint: Name, order: seq<Name>, faults: Faults, others: Others): Store
    decreases |order|
  {
    if order == [] then s
    else if order[0] !in listed || !References(listed[order[0]], endpoint) then
      ChecksDeleted(s, listed, endpoint, order[1..], faults, others)
    else
      var s' := others.delete(order[0], s);
      if order[0] in faults.deletes then s'
      else ChecksDeleted(WithoutCheck(s', order[0]), listed, endpoint, order[1..], faults, others)
  }

  function Marked(s: Store, n: Name, e: Endpoint): Store
    requires e.template.Some? && e.template.value in s.templates
  {
    var t := s.templates[e.template.value].(mark := Some(Marker(n, e)), rv := s.version + 1);
    s.(templates := s.templates[e.template.value := t], version := s.version + 1)
  }

  /** `markTemplateForReaping`: the store it leaves and whether it succeeded. The update is refused if
      the Template is not the one that was read. */
  function Marking(s: Store, n: Name, e: Endpoint, faults: Faults, others: Others): (Store, bool)
    requires e.template.Some?
  {
    var t, s1 := e.template.value, others.read(s);
    if faults.read then (s1, false)
    else if t !in s1.templates || s1.templates[t].mark.Some? then (s1, true)
    else
      var s2 := others.mark(s1);
      if faults.mark || t !in s2.templates || s2.templates[t].rv != s1.templates[t].rv then (s2, false)
      else (Marked(s2, n, e), true)
  }

  /** A pass as it went: the store that was listed, the store once the Template was seen to, the
      store before and after the write on the Endpoint, and the store at the end. */
  datatype Pass = Pass(listed: Option<Store>, marked: Option<Store>, write: Option<(Store, Store)>, final: Store)

  /** The janitor's Reconcile of Endpoint `n`, of which it holds the possibly stale copy `e`. */
  function Reconciled(
      s: Store, n: Name, e: Endpoint, now: int, order: seq<Name>, faults: Faults, others: Others): Pass
  {
    if !e.deleting && !e.lifetime then
      var s1 := others.write(s);
      var s2 := Updated(s1, n, e, e.(lifetime := true), faults);
      Pass(None, None, Some((s1, s2)), s2)
    else if !e.deleting && now < e.expiresAt then Pass(None, None, None, s)
    else
      var listed := others.list(s);
      if faults.list then Pass(None, None, None, listed)
      else if Matching(listed.checks, n) != {} then
        Pass(Some(listed), None, None, ChecksDeleted(listed, listed.checks, n, order, faults, others))
      else
        var (marked, ok) :=
          if now >= e.expiresAt && Wanted(e) then Marking(listed, n, e, faults, others) else (listed, true);
        if !ok || (e.deleting && !e.lifetime) then Pass(Some(listed), Some(marked), None, marked)
        else
          var s1 := others.write(marked);
          var s2 := if e.deleting then Updated(s1, n, e, e.(lifetime := false), faults)
                    else if faults.write then s1
                    else WithoutEndpoint(s1, n);
          Pass(Some(listed), Some(marked), Some((s1, s2)), s2)
  }

  /** An update under optimistic locking. */
  function Updated(s: Store, n: Name, e: Endpoint, e': Endpoint, faults: Faults): Store {
    if faults.write || n !in s.endpoints || s.endpoints[n].rv != e.rv then s else Put(s, n, e')
  }

  /** A list returns every check once, in any order. */
  ghost predicate Lists(s: Store, order: seq<Name>) {
    (forall n :: n in order <==> n in s.checks) && forall i, j :: 0 <= i < j < |order| ==> order[i] != order[j]
  }

  class Cluster {
    var store: Store

    constructor (s: Store)
      ensures store == s
    {
      store := s;
    }

    method DeleteChecks(endpoint: Name, order: seq<Name>, faults: Faults, others: Others)
      returns (found: bool, ok: bool)
      requires Lists(others.list(store), order)
      modifies this
      ensures var listed := others.list(old(store));
              && store == (if faults.list then listed
                           else ChecksDeleted(listed, listed.checks, endpoint, order, faults, others))
              && (ok ==> (found <==> Matching(listed.checks, endpoint) != {}))
              && (ok <==> !faults.list && forall n <- Matching(listed.checks, endpoint) :: n !in faults.deletes)
    {
      store := others.list(store);
      if faults.list { return false, false; }
      found := false;
      var listed := store.checks;
      ghost var all := ChecksDeleted(store, listed, endpoint, order, faults, others);
      ghost var matching := Matching(listed, endpoint);
      for i := 0 to |order|
        invariant ChecksDeleted(store, listed, endpoint, order[i..], faults, others) == all
        invariant forall n <- matching :: n in order[..i] ==> n !in faults.deletes
        invariant found <==> exists n :: n in matching && n in order[..i]
      {
        var n := order[i];
        Turn(order, i);
        assert n in matching <==> References(listed[n], endpoint);
        if References(listed[n], endpoint) {
          store := others.delete(n, store);
          if n in faults.deletes { return false, false; }
          store := WithoutCheck(store, n);
          found := true;
        }
      }
      assert order[..|order|] == order;
      ok := true;
    }

    method MarkTemplateForReaping(n: Name, e: Endpoint, faults: Faults, others: Others) returns (ok: bool)
      requires e.template.Some?
      modifies this
      ensures (store, ok) == Marking(old(store), n, e, faults, others)
    {
      var name := e.template.value;
      store := others.read(store);
      if faults.read { return false; }
      if name !in store.templates { return true; }
      var template := store.templates[name];
      if template.mark.Some? { return true; }
      var marker := e.uid;
      if marker == "" { marker := e.namespace + "/" + n; }
      store := others.mark(store);
      if faults.mark || name !in store.templates || store.templates[name].rv != template.rv { return false; }
      template := store.templates[name].(mark := Some(marker), rv := store.version + 1);
      store := store.(templates := store.templates[name := template], version := store.version + 1);
      return true;
    }

    method Reconcile(n: Name, e: Endpoint, now: int, order: seq<Name>, faults: Faults, others: Others)
      requires Lists(others.list(store), order)
      modifies this
      ensures store == Reconciled(old(store), n, e, now, order, faults, others).final
    {
      if !e.deleting && !e.lifetime {
        store := Updated(others.write(store), n, e, e.(lifetime := true), faults);
        return;
      }
      if !e.deleting && e.expiresAt - now > 0 { return; }
      ghost var listed := others.list(store);
      var found, ok := DeleteChecks(n, order, faults, others);
      if !ok || found { return; }
      NothingToDelete(listed, listed.checks, n, order, faults, others);
      if now >= e.expiresAt && (e.reapTemplate.None? || e.reapTemplate.value) && e.template.Some? {
        ok := MarkTemplateForReaping(n, e, faults, others);
        if !ok { return; }
      }
      if !e.deleting {
        store := others.write(store);
        if !faults.write { store := WithoutEndpoint(store, n); }
        return;
      }
      if e.lifetime {
        store := Updated(others.write(store), n, e, e.(lifetime := false), faults);
      }
    }

    /** The reaper's Reconcile: a Template goes only if it was read marked or expired, and only after
        a list has shown no Endpoint that references it. */
    method Reap(n: Name, now: int, order: seq<Name>, faults: Faults, others: Others)
      requires forall m :: m in order <==> m in others.list(store).endpoints
      modifies this
      ensures store == Reaped(old(store), n, now, faults, others)
    {
      if n !in store.templates { return; }
      var template := store.templates[n];
      if template.deleting { return; }
      var requested := template.mark.Some? && template.mark.value != "";
      if template.expiresAt.Some? {
        if now < template.expiresAt.value && !requested { return; }
        if !(now < template.expiresAt.value) { requested := true; }
      }
      if !requested { return; }
      store := others.list(store);
      if faults.list { return; }
      ghost var listed := store;
      for i := 0 to |order|
        invariant store == listed
        invariant forall k :: 0 <= k < i ==> store.endpoints[order[k]].template != Some(n)
      {
        if store.endpoints[order[i]].template == Some(n) {
          assert order[i] in Referrers(store, n);
          return;
        }
      }
      assert Referrers(store, n) == {};
      store := others.write(store);
      if !faults.write { store := WithoutTemplate(store, n); }
    }
  }

  function Reaped(s: Store, n: Name, now: int, faults: Faults, others: Others): Store {
    if !ReapDue(s, n, now) then s
    else
      var listed := others.list(s);
      if faults.list || Referrers(listed, n) != {} then listed
      else if faults.write then others.write(listed)
      else WithoutTemplate(others.write(listed), n)
  }

  lemma Turn(order: seq<Name>, i: nat)
    requires i < |order|
    ensures order[i..][0] == order[i] && order[i..][1..] == order[i + 1..]
    ensures forall n :: n in order[..i + 1] <==> n in order[..i] || n == order[i]
  {
    assert order[..i + 1] == order[..i] + [order[i]];
  }

  lemma {:induction false} NothingToDelete(
      s: Store, listed: map<Name, Check>, endpoint: Name, order: seq<Name>, faults: Faults, others: Others)
    requires Matching(listed, endpoint) == {}
    ensures ChecksDeleted(s, listed, endpoint, order, faults, others) == s
    decreases |order|
  {
    if order != [] {
      var n := order[0];
      assert n in Matching(listed, endpoint) <==> n in listed && References(listed[n], endpoint);
      NothingToDelete(s, listed, endpoint, order[1..], faults, others);
    }
  }

  function Referrers(s: Store, template: Name): set<Name> {
    set m | m in s.endpoints && s.endpoints[m].template == Some(template)
  }

  /** The reaper reads an empty mark as no mark. */
  predicate ReapDue(s: Store, n: Name, now: int) {
    && n in s.templates && !s.templates[n].deleting
    && var t := s.templates[n];
       (t.mark.Some? && t.mark.value != "") || (t.expiresAt.Some? && now >= t.expiresAt.value)
  }

  function WithoutTemplate(s: Store, n: Name): Store {
    if n !in s.templates then s
    else if s.templates[n].managed then s.(templates := s.templates[n := s.templates[n].(deleting := true)])
    else s.(templates := s.templates - {n})
  }

  // ------------------------------------------------------------------ order

  /** The write let the Endpoint go: deleted it, or released the janitor's finalizer. */
  predicate LetsGo(s: Store, t: Store, n: Name) {
    n in s.endpoints && (n !in t.endpoints
                         || (t.endpoints[n].deleting && !s.endpoints[n].deleting)
                         || (!t.endpoints[n].lifetime && s.endpoints[n].lifetime))
  }

  /** The Template carries the annotation or does not exist. */
  predicate SeenTo(s: Store, e: Endpoint) {
    e.template.Some? ==> e.template.value !in s.templates || s.templates[e.template.value].mark.Some?
  }

  /** Whatever fails, however stale the janitor's copy is and whatever others do in between: a pass
      lets an Endpoint go only if it is deleted or expired, and after its list has shown no check of
      it, and an expired one whose Template is to go with it only after that Template has been seen
      annotated or absent. */
  lemma TeardownOrder(
      s: Store, n: Name, e: Endpoint, now: int, order: seq<Name>, faults: Faults, others: Others)
    ensures var p := Reconciled(s, n, e, now, order, faults, others);
            p.write.Some? && LetsGo(p.write.value.0, p.write.value.1, n) ==>
              && (e.deleting || now >= e.expiresAt)
              && p.listed.Some? && (forall m <- p.listed.value.checks :: p.listed.value.checks[m].endpoint != Some(n))
              && (now >= e.expiresAt && e.reapTemplate != Some(false) ==> p.marked.Some? && SeenTo(p.marked.value, e))
  {
    var p := Reconciled(s, n, e, now, order, faults, others);
    if p.listed.Some? {
      assert forall m <- p.listed.value.checks ::
          p.listed.value.checks[m].endpoint == Some(n) ==> m in Matching(p.listed.value.checks, n);
    }
  }

  /** An Endpoint that is neither deleted nor expired is left alone: nothing is listed, deleted or
      marked, and the one write there may be adds the janitor's finalizer. */
  lemma LiveEndpointIsLeftAlone(
      s: Store, n: Name, e: Endpoint, now: int, order: seq<Name>, faults: Faults, others: Others)
    requires !e.deleting && now < e.expiresAt
    ensures var p := Reconciled(s, n, e, now, order, faults, others);
            && p.listed.None? && p.marked.None? && (e.lifetime ==> p.write.None? && p.final == s)
            && (p.write.Some? ==>
                  var (before, after) := p.write.value;
                  && p.final == after && !LetsGo(before, after, n)
                  && after.checks == before.checks && after.templates == before.templates
                  && (after != before ==> n in after.endpoints && after.endpoints[n].lifetime)
                  && forall m <- before.endpoints :: m != n ==>
                       m in after.endpoints && after.endpoints[m] == before.endpoints[m])
  {
  }

  /** An undisturbed pass touches no Template but the one that an expired Endpoint gives up, and
      writes the Endpoint's identity on it. */
  lemma OnlyGivenUpTemplateIsMarked(s: Store, n: Name, e: Endpoint, now: int, order: seq<Name>, t: Name)
    requires t in s.templates
    ensures var after := Reconciled(s, n, e, now, order, NO_FAULTS, QUIET).final;
            && t in after.templates && after.templates[t].deleting == s.templates[t].deleting
            && (after.templates[t].mark != s.templates[t].mark ==>
                  && now >= e.expiresAt && e.template == Some(t) && e.reapTemplate != Some(false)
                  && s.templates[t].mark.None?
                  && after.templates[t].mark == Some(if e.uid != "" then e.uid else e.namespace + "/" + n))
  {
    ChecksDeletedFrame(s, s.checks, n, order);
  }

  /** Deleting the checks of an Endpoint touches neither Endpoints nor Templates nor the checks of
      other Endpoints, and takes no check away that the router has still to let go. */
  lemma {:induction false} ChecksDeletedFrame(s: Store, listed: map<Name, Check>, endpoint: Name, order: seq<Name>)
    ensures var t := ChecksDeleted(s, listed, endpoint, order, NO_FAULTS, QUIET);
            && t.endpoints == s.endpoints && t.templates == s.templates && t.checks.Keys <= s.checks.Keys
            && (forall m <- s.checks :: (m in listed ==> listed[m].endpoint != Some(endpoint)) ==>
                  m in t.checks && t.checks[m] == s.checks[m])
            && (forall m <- s.checks :: s.checks[m].drain ==> m in t.checks)
            && forall m <- t.checks :: t.checks[m] == s.checks[m] || t.checks[m] == s.checks[m].(deleting := true)
    decreases |order|
  {
    if order != [] {
      ChecksDeletedFrame(s, listed, endpoint, order[1..]);
      ChecksDeletedFrame(WithoutCheck(s, order[0]), listed, endpoint, order[1..]);
    }
  }

  /** The reaper's counterpart: whatever fails and whatever others do in between, its own write takes
      a Template, or marks it as deleting, only if the Template was read marked or expired, and after
      a list that showed no Endpoint referring to it; and then it always does. */
  lemma ReapOrder(s: Store, n: Name, now: int, faults: Faults, others: Others)
    ensures var listed := others.list(s);
            var before := others.write(listed);
            var after := Reaped(s, n, now, faults, others);
            if ReapDue(s, n, now) && !faults.list && Referrers(listed, n) == {} && !faults.write then
              && n in s.templates && !s.templates[n].deleting
              && (s.templates[n].mark !in {None, Some("")}
                  || (s.templates[n].expiresAt.Some? && now >= s.templates[n].expiresAt.value))
              && (forall m <- listed.endpoints :: listed.endpoints[m].template != Some(n))
              && (n in after.templates ==> after.templates[n].deleting && after.templates[n].managed)
              && after.endpoints == before.endpoints && after.checks == before.checks
              && forall m :: m != n ==> (m in after.templates <==> m in before.templates)
                                        && (m in before.templates ==> after.templates[m] == before.templates[m])
            else after in {s, listed, before}
  {
    assert forall m <- others.list(s).endpoints ::
        others.list(s).endpoints[m].template == Some(n) ==> m in Referrers(others.list(s), n);
  }

  /** And a Template that is marked or expired, and that no Endpoint refers to, does go. */
  lemma UnreferencedIsReaped(s: Store, n: Name, now: int)
    requires n in s.templates && forall m <- s.endpoints :: s.endpoints[m].template != Some(n)
    requires var t := s.templates[n];
             (t.mark.Some? && t.mark.value != "") || (t.expiresAt.Some? && now >= t.expiresAt.value)
    ensures var after := Reaped(s, n, now, NO_FAULTS, QUIET);
            n !in after.templates || after.templates[n].deleting
  {
    assert Referrers(s, n) == {};
  }

  /** The mark that the janitor leaves makes the reaper act exactly if the Template carried no
      annotation before, or one that was not empty, or has expired. */
  lemma MarkedIsReapedIff(s: Store, n: Name, e: Endpoint, now: int)
    requires e.template.Some? && e.template.value in s.templates && !s.templates[e.template.value].deleting
    ensures var t := s.templates[e.template.value];
            ReapDue(Marking(s, n, e, NO_FAULTS, QUIET).0, e.template.value, now) <==>
            t.mark != Some("") || (t.expiresAt.Some? && now >= t.expiresAt.value)
  {
  }

  // ------------------------------------------------------------------ termination

  /** The router's part: deleting checks lose their drain finalizer and disappear. */
  function Drained(s: Store): Store {
    s.(checks := map m | m in s.checks && !s.checks[m].deleting :: s.checks[m])
  }

  /** An undisturbed pass over the stored Endpoint, then the drain. */
  function Round(s: Store, n: Name, now: int, order: seq<Name>): Store {
    if n !in s.endpoints then s else Drained(Reconciled(s, n, s.endpoints[n], now, order, NO_FAULTS, QUIET).final)
  }

  predicate TeardownDue(s: Store, n: Name, now: int) {
    n in s.endpoints ==> s.endpoints[n].deleting || now >= s.endpoints[n].expiresAt
  }

  /** (finalizer to add, checks remain, not yet deleting, finalizer held), as one number. */
  function Stage(s: Store, n: Name): nat {
    if n !in s.endpoints then 0
    else
      var e := s.endpoints[n];
      if !e.deleting && !e.lifetime then 4
      else if Matching(s.checks, n) != {} then 3
      else if !e.deleting then 2
      else if e.lifetime then 1
      else 0
  }

  lemma {:induction false} EveryCheckDeleted(
      s: Store, listed: map<Name, Check>, endpoint: Name, order: seq<Name>, m: Name)
    requires m in order && m in listed && listed[m].endpoint == Some(endpoint)
    ensures var t := ChecksDeleted(s, listed, endpoint, order, NO_FAULTS, QUIET); m in t.checks ==> t.checks[m].deleting
    decreases |order|
  {
    var skip := order[0] !in listed || !References(listed[order[0]], endpoint);
    var rest := if skip then s else WithoutCheck(s, order[0]);
    ChecksDeletedFrame(rest, listed, endpoint, order[1..]);
    if m != order[0] { EveryCheckDeleted(rest, listed, endpoint, order[1..], m); }
  }

  /** Every round moves the teardown on. */
  lemma RoundLowersStage(s: Store, n: Name, now: int, order: seq<Name>)
    requires Lists(s, order) && TeardownDue(s, n, now)
    ensures var t := Round(s, n, now, order);
            TeardownDue(t, n, now) && Stage(t, n) <= Stage(s, n) && (Stage(s, n) > 0 ==> Stage(t, n) < Stage(s, n))
  {
    if Stage(s, n) == 3 {
      var t := ChecksDeleted(s, s.checks, n, order, NO_FAULTS, QUIET);
      ChecksDeletedFrame(s, s.checks, n, order);
      forall m | m in t.checks && References(t.checks[m], n) ensures t.checks[m].deleting {
        EveryCheckDeleted(s, s.checks, n, order, m);
      }
      assert Matching(Drained(t).checks, n) == {};
    } else if Stage(s, n) < 3 {
      var t := Round(s, n, now, order);
      assert forall m <- t.checks :: m in s.checks && t.checks[m] == s.checks[m];
      assert forall m <- Matching(t.checks, n) :: m in Matching(s.checks, n);
    }
  }

  function Rounds(s: Store, n: Name, now: int, orders: seq<seq<Name>>): Store
    decreases |orders|
  {
    if orders == [] then s else Rounds(Round(s, n, now, orders[0]), n, now, orders[1..])
  }

  ghost predicate ListsAlong(s: Store, n: Name, now: int, orders: seq<seq<Name>>)
    decreases |orders|
  {
    orders == [] || (Lists(s, orders[0]) && ListsAlong(Round(s, n, now, orders[0]), n, now, orders[1..]))
  }

  lemma {:induction false} RoundsLowerStage(s: Store, n: Name, now: int, orders: seq<seq<Name>>)
    requires TeardownDue(s, n, now) && ListsAlong(s, n, now, orders)
    ensures Stage(Rounds(s, n, now, orders), n) <= if Stage(s, n) <= |orders| then 0 else Stage(s, n) - |orders|
    decreases |orders|
  {
    if orders != [] {
      RoundLowersStage(s, n, now, orders[0]);
      RoundsLowerStage(Round(s, n, now, orders[0]), n, now, orders[1..]);
    }
  }

  /** Teardown completes: four rounds, in any list orders, leave no check of the Endpoint and
      nothing of the janitor's on it. */
  lemma TeardownCompletes(s: Store, n: Name, now: int, orders: seq<seq<Name>>)
    requires TeardownDue(s, n, now) && ListsAlong(s, n, now, orders) && |orders| >= 4
    ensures var t := Rounds(s, n, now, orders);
            n !in t.endpoints || (t.endpoints[n].deleting && !t.endpoints[n].lifetime && Matching(t.checks, n) == {})
  {
    RoundsLowerStage(s, n, now, orders);
  }
}
