/** Which EndpointCheck the router admits during one Refresh, and what an admitted one rests on. */
module RouteAdmission {
  import opened Basics
  import opened Evidence
  import opened ExternalIdentity
  import opened EndpointBinding
  import opened EndpointCheck
  import VerificationHistory
  import CreateProtocol

  const MAX_LIVENESS_AGE := 90

  datatype Credential = Unreadable | Readable(inference: bool, version: string, tokenOk: bool)

  /** One of the two times at which a Refresh reads Endpoints and Templates. */
  datatype View = View(world: World, now: int)

  predicate RecentEnough(c: Check, now: int) {
    var o := c.status.observed;
    && c.status.observedGeneration == c.generation
    && o.checkedAt != 0 && o.checkedAt <= now + SKEW && now - o.checkedAt <= MAX_LIVENESS_AGE
    && o.verifiedAt != 0 && o.verifiedAt <= now + SKEW && now - o.verifiedAt <= Interval(c.spec) + MAX_LIVENESS_AGE
  }

  predicate Eligible(c: Check, v: View) {
    var o := c.status.observed;
    && !c.deleting && c.status.ready && c.drain && RecentEnough(c, v.now) && v.now < c.createdAt + c.spec.lifetime
    && o.result == PASSED && RevisionMatches(v.world, c.spec.endpoint, o.endpoint, v.now) && ValidId(o.endpoint.id)
  }

  predicate Credentialed(c: Check, secret: Credential) {
    && secret.Readable? && secret.inference && secret.tokenOk
    && c.status.observed.secretVersion != "" && secret.version == c.status.observed.secretVersion
  }

  /** The check behind a new route: eligible, with the credential it was verified with, and still
      matching at the second look. */
  predicate Admissible(c: Check, first: View, secret: Credential, second: View) {
    Eligible(c, first) && Credentialed(c, secret)
    && RevisionMatches(second.world, c.spec.endpoint, c.status.observed.endpoint, second.now)
  }

  predicate Only(checks: seq<Check>, first: View, i: nat) {
    i < |checks| && Eligible(checks[i], first) && forall j :: 0 <= j < |checks| && Eligible(checks[j], first) ==> j == i
  }

  /** The scan of a Refresh: the only eligible check becomes the next route, and every deleting
      one is due for acknowledgement, in list order. */
  method Select(checks: seq<Check>, first: View, secrets: seq<Credential>, second: View)
    returns (next: Option<nat>, deleting: seq<nat>)
    requires |secrets| == |checks|
    ensures next.Some? ==> Only(checks, first, next.value)
                           && Admissible(checks[next.value], first, secrets[next.value], second)
    ensures forall i: nat :: Only(checks, first, i) && Admissible(checks[i], first, secrets[i], second) ==>
            next == Some(i)
    ensures forall i: nat :: i in deleting <==> i < |checks| && checks[i].deleting
    ensures forall j, k :: 0 <= j < k < |deleting| ==> deleting[j] < deleting[k]
  {
    var eligible: seq<nat> := [];
    deleting := [];
    for i := 0 to |checks|
      invariant forall k: nat :: k in deleting <==> k < i && checks[k].deleting
      invariant forall k: nat :: k in eligible <==> k < i && Eligible(checks[k], first)
      invariant (forall j :: 0 <= j < |deleting| ==> deleting[j] < i)
                && (forall j :: 0 <= j < |eligible| ==> eligible[j] < i)
      invariant forall j, k :: 0 <= j < k < |deleting| ==> deleting[j] < deleting[k]
      invariant forall j, k :: 0 <= j < k < |eligible| ==> eligible[j] < eligible[k]
    {
      var check := checks[i];
      if check.deleting {
        deleting := deleting + [i];
        continue;
      }
      var observed := check.status.observed;
      if check.status.ready && check.drain && RecentEnough(check, first.now)
          && first.now < check.createdAt + check.spec.lifetime
         && observed.result.healthy && observed.result.model && observed.result.tool && observed.endpoint.id != ""
         && RevisionMatches(first.world, check.spec.endpoint, observed.endpoint, first.now)
      {
        if !ValidId(observed.endpoint.id) { continue; }
        eligible := eligible + [i];
      }
    }
    next := None;
    if |eligible| == 1 {
      var i := eligible[0];
      assert forall k :: k in eligible ==> k == i;
      var check, secret := checks[i], secrets[i];
      if secret.Readable? && secret.inference
         && check.status.observed.secretVersion != "" && secret.version == check.status.observed.secretVersion
         && secret.tokenOk
         && RevisionMatches(second.world, check.spec.endpoint, check.status.observed.endpoint, second.now)
      {
        next := Some(i);
      }
    } else if |eligible| > 1 {
      assert eligible[0] in eligible && eligible[1] in eligible && eligible[0] < eligible[1];
    }
  }

  /** Eligibility in terms of what has happened: exactly a live, finalized check whose last status
      write was for its present generation, made it Ready and is at most 90 s old, and whose last
      standing Verify passed at most an interval and 90 s ago for the endpoint, rollout and Template
      revision that the router reads. Both times may lie 30 s ahead. */
  lemma EligibleIff(s: VerificationHistory.State, steps: seq<VerificationHistory.Step>, v: View)
    requires VerificationHistory.Fresh(s) && s.check.generation > 0 && VerificationHistory.Timed(steps)
    ensures var t := VerificationHistory.Run(s, steps);
            var memory := VerificationHistory.Memory(t.log);
            var interval := if t.check.spec.interval == 0 then 3600 else t.check.spec.interval;
            Eligible(t.check, v) <==>
              && !t.check.deleting && t.check.drain && v.now < t.check.createdAt + t.check.spec.lifetime
              && t.pulse.Some? && t.pulse.value.generation == t.check.generation
              && VerificationHistory.Shows(t.pulse.value, memory) && -30 <= v.now - t.pulse.value.at <= 90
              && memory.Some? && memory.value.result == PASSED
              && -30 <= v.now - memory.value.at <= interval + 90
              && RevisionMatches(v.world, t.check.spec.endpoint, Recall(memory.value.identity), v.now)
  {
    VerificationHistory.RunKeepsBeat(s, steps);
  }

  /** No status is taken on trust, whoever wrote it: an eligible check is live, finalized, Ready for its
      generation with all three flags and both times, and matches what the router reads. */
  lemma EligibleDemands(c: Check, v: View)
    requires Eligible(c, v)
    ensures !c.deleting && c.drain && c.status.ready && c.status.observedGeneration == c.generation
    ensures v.now < c.createdAt + c.spec.lifetime
    ensures var o := c.status.observed;
            && o.result.healthy && o.result.model && o.result.tool && o.endpoint.id != ""
            && o.checkedAt != 0 && o.verifiedAt != 0
    ensures var r := Resolve(v.world, c.spec.endpoint, At(v.now));
            r.Bound? && r.binding.workerProven && c.status.observed.endpoint == Recall(r.binding.identity)
  {
    PredicatesAgree(v.world, c.spec.endpoint, c.status.observed.endpoint, v.now);
  }

  /** A probe that finds the endpoint unhealthy takes the check off the router, for every view. */
  lemma UnhealthyIsWithdrawn(c: Check, env: Env, v: View)
    requires env.writes && Decide(c, env).Probed? && !env.answers.health
    ensures !Eligible(Outcome(c, env), v)
  {
  }

  /** An admissible check is no longer so with any other credential: one that cannot be read, is not
      meant for inference, has no well-formed token, or has been written since. */
  lemma CredentialIsEssential(c: Check, first: View, secret: Credential, second: View)
    requires Admissible(c, first, secret, second)
    ensures secret.Readable?
    ensures forall other: Credential :: Admissible(c, first, other, second) <==> other == secret
  {
  }

  /** Every route rests on a successful Verify of the same generation and specification, no older
      than the interval plus 90 s, for the endpoint, rollout, Template revision and Secret version
      that the router has just read itself. */
  lemma RouteHasProvenance(
      s: VerificationHistory.State, steps: seq<VerificationHistory.Step>,
      first: View, secret: Credential, second: View)
    returns (i: nat, a: VerificationHistory.Attempt)
    requires VerificationHistory.Fresh(s) && VerificationHistory.Timed(steps)
    requires Admissible(VerificationHistory.Run(s, steps).check, first, secret, second)
    ensures var t := VerificationHistory.Run(s, steps);
            && i < |t.log| && t.log[i] == VerificationHistory.Tried(a, true) && a.result == PASSED
            && (forall j :: i < j < |t.log| ==> !t.log[j].written)
            && a.at == t.check.status.observed.verifiedAt && a.generation == t.check.generation
            && a.spec == t.check.spec
            && -SKEW <= first.now - a.at <= Interval(a.spec) + MAX_LIVENESS_AGE
            && a.secret == secret.version
    ensures forall v | v == first || v == second ::
              var r := Resolve(v.world, a.spec.endpoint, At(v.now));
              r.Bound? && r.binding.identity == a.identity && r.binding.workerProven
  {
    var t := VerificationHistory.Run(s, steps);
    i, a := VerificationHistory.StatusHasProvenance(s, steps);
    PredicatesAgree(first.world, t.check.spec.endpoint, t.check.status.observed.endpoint, first.now);
    PredicatesAgree(second.world, t.check.spec.endpoint, t.check.status.observed.endpoint, second.now);
  }

  /** The Endpoint status that the router trusts goes back, in turn, to an enforcement of
      flashboot=false on the same endpoint and rollout within five minutes, and to a last
      recorded answer with matched workers. */
  lemma RouteRestsOnEnforcement(c: Check, first: View, events: seq<Event>) returns (i: nat, k: nat)
    requires Eligible(c, first) && Possible(events)
    requires var ep := first.world.endpoints[c.spec.endpoint.value];
             ep.status == Evidence.Run(events) && (Terminate in events ==> ep.health.deleting)
    ensures Traces(events, i) && events[i].got.id == c.status.observed.endpoint.id
            && events[i].got.version == c.status.observed.endpoint.version
            && -SKEW <= first.now - events[i].now <= MAX_AGE
    ensures LastRecord(events, k) && events[k].op in {Read, Recovery} && events[k].got.workers > 0
            && events[k].got.version == c.status.observed.endpoint.version
  {
    CurrentEvidenceTraces(events, first.now);
    FlashBootTraces(events);
    i :| Traces(events, i) && -SKEW <= first.now - events[i].now <= MAX_AGE;
    assert ComesFrom(Evidence.Run(events), events, i);
    assert !Cleaned(events) by {
      assert forall j :: 0 <= j < |events| && events[j].Cleanup? ==> Terminate in events[..j];
      assert forall j :: 0 <= j < |events| && Terminate in events[..j] ==> Terminate in events;
    }
    WorkerProofIsTheLast(events);
    k :| LastRecord(events, k) && events[k].op in {Read, Recovery} && events[k].got.workers > 0;
  }

  /** A route is only made to a bound Endpoint. Whatever happens to that Endpoint afterwards, Observe
      never finds its object once it terminates, so Delete is never called for it: no external
      DELETE is issued for an Endpoint that was ever eligible, leased or not. */
  lemma RoutedEndpointIsNotDeleted(
      c: Check, first: View, name: string, clock: int, past: seq<CreateProtocol.Step>, s: CreateProtocol.State,
      steps: seq<CreateProtocol.Step>, s': CreateProtocol.State)
    requires Eligible(c, first)
    requires name != "" && clock >= 0
    requires CreateProtocol.Reaches(CreateProtocol.Init(EndpointKind, name, clock), past, s)
    requires s.meta.externalName == first.world.endpoints[c.spec.endpoint.value].externalName
    requires CreateProtocol.Reaches(s, steps, s')
    ensures s'.meta.externalName == c.status.observed.endpoint.id
    ensures s'.meta.deleting ==> forall a, k, l :: !CreateProtocol.Enabled(s', CreateProtocol.Observed(a, k, l))
  {
    CreateProtocol.BoundIsNeverDeleted(name, clock, past, s, steps, s');
  }
}
