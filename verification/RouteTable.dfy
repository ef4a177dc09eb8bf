/**
 * The router's in-memory route: the pointer swap of `replace`, the lease count of
 * `acquire`, cancellation and token erasure. Everything here happens under one mutex,
 * so each operation is a single atomic step of the protocol in `RouteLease`.
 */
module RouteTable {
  import opened Basics

  /** Names of objects are only ever compared for equality. */
  type Name = nat
  type RouteId = nat

  /** The fields that `routesEquivalent` compares. The namespace is fixed per router. */
  datatype Target = Target(check: Name, endpointId: string, model: string, token: string)

  /** A route that Refresh has built but not yet committed. `uid` and `endpoint` identify
      the EndpointCheck object it was built from and the Endpoint that check references. */
  datatype Candidate = Candidate(target: Target, uid: nat, endpoint: Name)

  datatype Route = Route(from: Candidate, cancelled: bool, erased: bool, leases: nat)

  datatype Table = Table(active: Option<RouteId>, routes: map<RouteId, Route>, nextId: RouteId)

  const EMPTY := Table(None, map[], 0)

  predicate WellFormed(t: Table) {
    && (forall r <- t.routes :: r < t.nextId)
    && (forall r <- t.routes :: t.routes[r].erased ==> t.routes[r].leases == 0 && t.routes[r].cancelled)
    && (t.active.Some? ==> t.active.value in t.routes && !t.routes[t.active.value].cancelled)
  }

  predicate Equivalent(t: Table, next: Option<Candidate>)
    requires WellFormed(t)
  {
    t.active.Some? && next.Some? && t.routes[t.active.value].from.target == next.value.target
  }

  /** True when `replace` returns under the lock and leaves the active pointer alone. */
  predicate Retains(t: Table, next: Option<Candidate>)
    requires WellFormed(t)
  {
    (t.active.None? && next.None?) || Equivalent(t, next)
  }

  /** The critical section of `replace`: the new table, and the route whose leases the
      caller must then wait for. */
  function Swap(t: Table, next: Option<Candidate>): (r: (Table, Option<RouteId>))
    requires WellFormed(t)
    ensures WellFormed(r.0)
  {
    if Retains(t, next) then (t, None)
    else
      var cancelled := if t.active.None? then t.routes
                       else t.routes[t.active.value := t.routes[t.active.value].(cancelled := true)];
      if next.None? then (t.(active := None, routes := cancelled), t.active)
      else (Table(Some(t.nextId), cancelled[t.nextId := Route(next.value, false, false, 0)], t.nextId + 1), t.active)
  }

  function Leased(t: Table): (t': Table)
    requires WellFormed(t) && t.active.Some?
    ensures WellFormed(t')
  {
    var r := t.active.value;
    t.(routes := t.routes[r := t.routes[r].(leases := t.routes[r].leases + 1)])
  }

  function Released(t: Table, r: RouteId): (t': Table)
    requires WellFormed(t) && r in t.routes && t.routes[r].leases > 0
    ensures WellFormed(t')
  {
    t.(routes := t.routes[r := t.routes[r].(leases := t.routes[r].leases - 1)])
  }

  /** `clear(previous.token)` after the wait group has drained. */
  function Erased(t: Table, r: RouteId): (t': Table)
    requires WellFormed(t) && r in t.routes && t.routes[r].leases == 0 && t.routes[r].cancelled
    ensures WellFormed(t')
  {
    t.(routes := t.routes[r := t.routes[r].(erased := true)])
  }

  /** What the swap does to the routes that leases are held on: the active pointer moves to
      exactly the candidate, the old route is cancelled and handed to the caller to drain,
      and no lease count changes. */
  lemma SwapIsExact(t: Table, next: Option<Candidate>)
    requires WellFormed(t)
    ensures var (t', previous) := Swap(t, next);
            && (t'.active.Some? <==> next.Some?)
            && (next.Some? ==> t'.routes[t'.active.value].from.target == next.value.target
                               && !t'.routes[t'.active.value].cancelled)
            && (previous.Some? <==> t.active.Some? && !Equivalent(t, next))
            && (previous.Some? ==> previous == t.active && t'.routes[previous.value].cancelled && t'.active != previous)
            && (forall r <- t.routes :: r in t'.routes && t'.routes[r].leases == t.routes[r].leases
                                        && t'.routes[r].from == t.routes[r].from
                                        && t'.routes[r].erased == t.routes[r].erased)
            && (forall r <- t'.routes :: r !in t.routes ==> t'.active == Some(r) && t'.routes[r].leases == 0)
  {
  }

  /** The router's mutable state. Each method is one locked region of router.go. */
  class Router {
    var active: Option<RouteId>
    var routes: map<RouteId, Route>
    var nextId: RouteId
    var stateError: string

    ghost function State(): Table reads this { Table(active, routes, nextId) }

    constructor ()
      ensures State() == EMPTY && stateError == "no admitted EndpointCheck"
    {
      active, routes, nextId := None, map[], 0;
      stateError := "no admitted EndpointCheck";
    }

    /** `replace` up to its unlock. `previous` is the route to wait for. */
    method Replace(next: Option<Candidate>, stateErr: string) returns (previous: Option<RouteId>)
      requires WellFormed(State())
      modifies this
      ensures (State(), previous) == Swap(old(State()), next)
      ensures stateError == stateErr
    {
      stateError := stateErr;
      var before := active;
      if before.None? && next.None? {
        return None;
      }
      if before.Some? && next.Some? && routes[before.value].from.target == next.value.target {
        return None;
      }
      if before.Some? {
        routes := routes[before.value := routes[before.value].(cancelled := true)];
      }
      if next.Some? {
        routes := routes[nextId := Route(next.value, false, false, 0)];
        active := Some(nextId);
        nextId := nextId + 1;
      } else {
        active := None;
      }
      return before;
    }

    /** The lines after the unlock, once every lease on `previous` has been released. */
    method FinishReplace(previous: Option<RouteId>)
      requires WellFormed(State())
      requires previous.Some? ==> previous.value in routes && routes[previous.value].leases == 0
                                  && routes[previous.value].cancelled
      modifies this`routes
      ensures previous.None? ==> State() == old(State())
      ensures previous.Some? ==> State() == Erased(old(State()), previous.value)
    {
      if previous.Some? {
        routes := routes[previous.value := routes[previous.value].(erased := true)];
      }
    }

    method Acquire() returns (lease: Option<RouteId>)
      requires WellFormed(State())
      modifies this`routes
      ensures lease == old(active)
      ensures State() == if lease.None? then old(State()) else Leased(old(State()))
    {
      if active.None? {
        return None;
      }
      routes := routes[active.value := routes[active.value].(leases := routes[active.value].leases + 1)];
      return active;
    }

    method Release(lease: RouteId)
      requires WellFormed(State()) && lease in routes && routes[lease].leases > 0
      modifies this`routes
      ensures State() == Released(old(State()), lease)
    {
      routes := routes[lease := routes[lease].(leases := routes[lease].leases - 1)];
    }
  }
}
