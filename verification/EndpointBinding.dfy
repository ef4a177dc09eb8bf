/**
 * The identity of a referenced Endpoint and of the Template revision it runs, as two components
 * establish it: the check controller when it resolves the reference, and the router when it
 * compares the recorded identity with what it reads.
 */
module EndpointBinding {
  import opened Basics
  import opened Evidence
  import opened ExternalIdentity

  datatype Health = Health(deleting: bool, generation: int, observedGeneration: int, ready: bool, synced: bool)

  datatype Endpoint = Endpoint(
    uid: string, health: Health, createdAt: int, lifetime: int, externalName: string,
    templateRef: Option<string>, status: Status)

  datatype Template = Template(
    uid: string, health: Health, createdAt: int, lifetime: int, externalName: string, image: string, statusId: string)

  /** What a direct read returns; an absent key stands for any read error. */
  datatype World = World(endpoints: map<string, Endpoint>, templates: map<string, Template>)

  /** Which endpoint, in which rollout, of which Template revision. */
  datatype Identity = Identity(id: string, uid: string, generation: int, version: int, revision: Revision)

  datatype Binding = Binding(identity: Identity, expiresAt: int, workerProven: bool, workerAt: int)

  datatype Resolution = Bound(binding: Binding) | LifetimeExpired | Unresolved

  /** The three clock readings of `resolveEndpoint`: for the Endpoint's lifetime, its evidence and
      the Template's lifetime. */
  datatype Clock = Clock(endpoint: int, evidence: int, template: int)

  function At(now: int): Clock { Clock(now, now, now) }

  /** `resolveEndpoint` */
  function Resolve(w: World, ref: Option<string>, clock: Clock): Resolution {
    if ref.None? || ref.value !in w.endpoints then Unresolved
    else
      var ep := w.endpoints[ref.value];
      var expiresAt := ep.createdAt + ep.lifetime;
      if clock.endpoint >= expiresAt then LifetimeExpired
      else if ep.health.deleting || ep.health.observedGeneration != ep.health.generation || !ep.health.ready
              || !ep.health.synced || !FlashBootCurrent(ep.status, clock.evidence) then Unresolved
      else if ep.status.version.None? then Unresolved
      else if !ValidId(ep.externalName) || ep.externalName != ep.status.id then Unresolved
      else if ep.templateRef.None? || ep.templateRef.value !in w.templates then Unresolved
      else
        var t := w.templates[ep.templateRef.value];
        if t.health.deleting || t.health.observedGeneration != t.health.generation || !t.health.ready
           || !t.health.synced || Revision(t.uid, t.health.generation, t.image) != ep.status.revision then Unresolved
        else if !ValidId(t.externalName) || t.externalName != t.statusId || ep.status.templateId != t.externalName then
          Unresolved
        else if t.createdAt != 0 && clock.template >= t.createdAt + t.lifetime then LifetimeExpired
        else Bound(Binding(
                     Identity(ep.externalName, ep.uid, ep.health.generation, ep.status.version.value,
                              Revision(t.uid, t.health.generation, t.image)),
                     expiresAt, WorkerCurrent(ep.status), ep.status.workerAt))
  }

  /** The identity as a check's status holds it. */
  datatype Recollection = Recollection(
    id: string, uid: string, generation: int, version: Option<int>, revision: Revision)

  function Recall(i: Identity): Recollection {
    Recollection(i.id, i.uid, i.generation, Some(i.version), i.revision)
  }

  /** `endpointRevisionMatches` */
  predicate RevisionMatches(w: World, ref: Option<string>, seen: Recollection, now: int) {
    && ref.Some? && ref.value in w.endpoints
    && var ep := w.endpoints[ref.value];
    && ep.templateRef.Some? && ep.templateRef.value in w.templates
    && var t := w.templates[ep.templateRef.value];
    && !ep.health.deleting && ep.health.observedGeneration == ep.health.generation && ep.health.ready
    && ep.health.synced
    && now < ep.createdAt + ep.lifetime && FlashBootCurrent(ep.status, now) && WorkerCurrent(ep.status)
    && !t.health.deleting && t.health.observedGeneration == t.health.generation && t.health.ready && t.health.synced
    && (t.createdAt == 0 || now < t.createdAt + t.lifetime)
    && t.uid == ep.status.revision.uid && t.health.generation == ep.status.revision.generation
    && t.image == ep.status.revision.image
    && ValidId(ep.externalName) && ep.externalName == ep.status.id && ep.externalName == seen.id
    && ValidId(t.externalName) && t.externalName == t.statusId && t.externalName == ep.status.templateId
    && ep.uid == seen.uid && ep.health.generation == seen.generation
    && ep.status.version.Some? && seen.version.Some? && ep.status.version.value == seen.version.value
    && ep.status.revision == seen.revision
  }

  /** The router accepts a recorded identity exactly if the check controller, at the same time,
      would resolve the reference to that identity with a proven worker. */
  lemma PredicatesAgree(w: World, ref: Option<string>, seen: Recollection, now: int)
    ensures RevisionMatches(w, ref, seen, now) <==>
            var r := Resolve(w, ref, At(now));
            r.Bound? && r.binding.workerProven && seen == Recall(r.binding.identity)
  {
  }

  /** A recorded identity leaves no room: any two worlds in which the router accepts it agree on the
      Endpoint's object, health, binding and rollout and on the Template's object, health and image,
      the two external IDs are consistent, and neither lifetime has run out. */
  lemma MatchDetermines(
      w: World, w': World, ref: Option<string>, ref': Option<string>, seen: Recollection, now: int, now': int)
    requires RevisionMatches(w, ref, seen, now) && RevisionMatches(w', ref', seen, now')
    ensures var ep, ep' := w.endpoints[ref.value], w'.endpoints[ref'.value];
            && ep.uid == ep'.uid && ep.health == ep'.health && ep.externalName == ep'.externalName == ep.status.id
            && ep.status.version == ep'.status.version && ep.status.revision == ep'.status.revision
            && ep.health == Health(false, seen.generation, seen.generation, true, true)
            && now < ep.createdAt + ep.lifetime
            && var t, t' := w.templates[ep.templateRef.value], w'.templates[ep'.templateRef.value];
            && t.uid == t'.uid && t.image == t'.image && t.health == t'.health
            && t.health == Health(false, seen.revision.generation, seen.revision.generation, true, true)
            && t.externalName == t.statusId == ep.status.templateId && ValidId(t.externalName)
            && ValidId(ep.externalName)
            && (t.createdAt != 0 ==> now < t.createdAt + t.lifetime)
  {
  }
}
