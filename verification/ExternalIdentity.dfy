/**
 * How a managed resource finds, binds and refuses to re-create its external object. Endpoint
 * and Template share this logic. An Endpoint also demands that its object runs the Template it
 * has resolved; the other checks of either kind are what the `refused` answers stand for.
 */
module ExternalIdentity {
  import opened Basics

  /** The annotations and metadata that decide identity. Stamps are whole seconds, as the
      runtime's RFC 3339 annotations are; zero is an absent stamp. The value of the pending
      annotation is its stamp, so an acknowledgement is a stamp too. */
  datatype Meta = Meta(
    deleting: bool, externalName: string, bound: bool, ambiguousName: string,
    pending: Option<int>, succeeded: int, failed: int, absence: Option<int>)

  const FRESH := Meta(false, "", false, "", None, 0, 0, None)

  /** crossplane-runtime: a create was announced and no later outcome has been recorded. */
  predicate Incomplete(m: Meta) {
    m.pending.Some? && m.pending.value > Max(m.succeeded, m.failed)
  }

  /** `ambiguousAbsenceAcknowledged` */
  predicate Acknowledged(m: Meta) {
    m.pending.Some? && m.absence == m.pending
  }

  /** `bindExternalID`, annotations only. */
  function Bind(m: Meta, id: string, now: int): Meta {
    m.(externalName := id, bound := true, ambiguousName := "", succeeded := now)
  }

  predicate ValidId(id: string) {
    0 < |id| <= 191 && forall c <- id :: 'A' <= c <= 'Z' || 'a' <= c <= 'z' || '0' <= c <= '9' || c == '_' || c == '-'
  }

  /** `template` is the ID of the Template that an external endpoint runs. */
  datatype Object = Object(id: string, name: string, template: string)

  datatype Kind = EndpointKind | TemplateKind

  /** The exact-name lookup; `Unknown` is any error but not-found, a duplicate name included. */
  datatype Lookup = NoneNamed | Unknown | Named(found: Object)

  datatype Read = Gone | Unreadable | Got(found: Object)

  /** What the cluster, the external service and the drift checks say during one Observe: `ready` is
      the ID of the referenced Template. Endpoint refuses a cleanup whose template differs from the
      referenced one, and an adoption that does not match or whose PATCH does not confirm; Template
      refuses an adoption that does not match. */
  datatype Answers = Answers(
    ready: string, find: Lookup, cleanupRefused: bool, adoptionRefused: bool, get: Read, readRefused: bool)

  /** The client returns an endpoint only with the ID of its Template. */
  predicate Vouched(kind: Kind, a: Answers) {
    kind == EndpointKind && a.get.Got? ==> a.get.found.template != ""
  }

  /** `resolveTemplate`: a terminating Endpoint resolves none. */
  function ResolvedTemplate(m: Meta, a: Answers): string { if m.deleting then "" else a.ready }

  /** `endpointTemplateMatches`, as far as the ID goes. */
  predicate RunsTemplate(kind: Kind, m: Meta, a: Answers, found: Object) {
    kind == EndpointKind ==> found.template == ResolvedTemplate(m, a)
  }

  datatype Observation = Failure | Absent | Present

  /** The answer to a POST: a definite rejection, anything ambiguous, or the object made. */
  datatype PostAnswer = Denied | Lost | Made(id: string)

  /** `recoverAmbiguousCreate`: `found` is the object that the owned name resolved to, if it
      matched and, for an Endpoint, its bounded settings were reasserted. */
  function Recovered(m: Meta, found: Option<string>, now: int): Meta {
    if found.Some? then Bind(m, found.value, now) else m
  }

  /** The name under which a create may have left an object behind. */
  function RecoveryName(m: Meta, name: string): string {
    if Incomplete(m) then name else m.ambiguousName
  }

  /** The managed resource as Observe works on it. `name` is the UID-scoped effective name. */
  class Resource {
    var meta: Meta
    var statusId: string
    const kind: Kind
    const name: string

    constructor (meta: Meta, statusId: string, kind: Kind, name: string)
      ensures this.meta == meta && this.statusId == statusId && this.kind == kind && this.name == name
    {
      this.meta, this.statusId, this.kind, this.name := meta, statusId, kind, name;
    }

    method BindExternalId(id: string, now: int)
      modifies this
      ensures meta == Bind(old(meta), id, now) && statusId == id
    {
      meta := meta.(externalName := id);
      statusId := id;
      meta := meta.(bound := true);
      meta := meta.(ambiguousName := "");
      meta := meta.(succeeded := now);
    }

    /** `Observe`: absence is reported only without a recorded create, or for a deleting resource
        whose bound object is gone or whose pending create was acknowledged and is not to be found. */
    method Observe(a: Answers, now: int) returns (r: Observation)
      requires Vouched(kind, a)
      modifies this
      ensures r == Absent <==> ReportsAbsent(old(meta), old(statusId), name, a)
      ensures r == Present <==> ReportsPresent(old(meta), old(statusId), kind, name, a)
      ensures kind == EndpointKind && old(meta).deleting ==> (r == Present <==> CleansUp(old(meta), name, a))
      ensures meta == if r == Present && Recovers(old(meta), name) then Bind(old(meta), a.find.found.id, now)
                      else old(meta)
      ensures r == Present ==> statusId == meta.externalName != ""
      ensures statusId == old(statusId) || statusId == meta.externalName
    {
      if !meta.deleting && meta.absence.Some? { return Failure; }
      var pendingName := meta.ambiguousName;
      if Incomplete(meta) { pendingName := name; }
      if pendingName != "" {
        if pendingName != name { return Failure; }
        match a.find {
          case NoneNamed =>
            if meta.deleting && Acknowledged(meta) { return Absent; }
            return Failure;
          case Unknown => return Failure;
          case Named(found) =>
            if found.name != pendingName || !ValidId(found.id) { return Failure; }
            if meta.deleting {
              if a.cleanupRefused { return Failure; }
            } else if !RunsTemplate(kind, meta, a, found) || a.adoptionRefused { return Failure; }
            BindExternalId(found.id, now);
            return Present;
        }
      }
      var id := meta.externalName;
      if id == "" { return Absent; }
      if !meta.bound || !ValidId(id) { return Failure; }
      var statusBound := statusId != "";
      if statusBound && statusId != id { return Failure; }
      match a.get {
        case Gone =>
          if meta.deleting { return Absent; }
          return Failure;
        case Unreadable => return Failure;
        case Got(found) =>
          if !statusBound {
            if found.name != name { return Failure; }
            statusId := id;
          }
          if a.readRefused || !RunsTemplate(kind, meta, a, found) { return Failure; }
          return Present;
      }
    }

    method RecoverAmbiguousCreate(found: Option<string>, now: int)
      modifies this
      ensures meta == Recovered(old(meta), found, now)
    {
      if found.Some? { BindExternalId(found.value, now); }
    }

    /** `Create`: `valid` says that the specification checks pass and `active` that the lifetime
        has not run out, which an Endpoint asks only before the POST and a Template as part of
        `valid`; `ok` is a nil error. */
    method Create(valid: bool, active: bool, post: PostAnswer, found: Option<string>, now: int)
      returns (sent: bool, ok: bool)
      modifies this
      ensures sent <==> valid && active && old(meta).absence.None? && old(meta).ambiguousName == ""
      ensures ok <==> valid && old(meta).absence.None? && (old(meta).ambiguousName == "" ==> active && post != Denied)
      ensures meta == if !ok then old(meta)
                      else if !sent then Recovered(old(meta), found, now)
                      else if post == Lost then Recovered(old(meta).(ambiguousName := name), found, now)
                      else Bind(old(meta), post.id, now)
    {
      if meta.absence.Some? || !valid { return false, false; }
      if meta.ambiguousName != "" {
        RecoverAmbiguousCreate(found, now);
        return false, true;
      }
      if !active { return false, false; }
      match post {
        case Lost =>
          meta := meta.(ambiguousName := name);
          RecoverAmbiguousCreate(found, now);
        case Denied => return true, false;
        case Made(id) => BindExternalId(id, now);
      }
      return true, true;
    }
  }

  /** The lookup by name decides, rather than a recorded ID. */
  predicate Recovers(m: Meta, name: string) { RecoveryName(m, name) != "" }

  predicate ReportsAbsent(m: Meta, statusId: string, name: string, a: Answers) {
    && (m.deleting || m.absence.None?)
    && if Recovers(m, name) then RecoveryName(m, name) == name && m.deleting && a.find == NoneNamed && Acknowledged(m)
       else m.externalName == "" || (BoundTo(m, statusId) && m.deleting && a.get == Gone)
  }

  predicate BoundTo(m: Meta, statusId: string) {
    m.bound && ValidId(m.externalName) && (statusId == "" || statusId == m.externalName)
  }

  /** The owned name resolves to one object with a usable ID. */
  predicate FindsOwn(m: Meta, name: string, a: Answers) {
    && Recovers(m, name) && RecoveryName(m, name) == name
    && a.find.Named? && a.find.found.name == name && ValidId(a.find.found.id)
  }

  predicate CleansUp(m: Meta, name: string, a: Answers) {
    m.deleting && FindsOwn(m, name, a) && !a.cleanupRefused
  }

  predicate ReportsPresent(m: Meta, statusId: string, kind: Kind, name: string, a: Answers) {
    if m.deleting && Recovers(m, name) then CleansUp(m, name, a)
    else
      && (m.deleting || m.absence.None?)
      && if Recovers(m, name) then
           FindsOwn(m, name, a) && RunsTemplate(kind, m, a, a.find.found) && !a.adoptionRefused
         else
           && BoundTo(m, statusId) && a.get.Got? && (statusId == "" ==> a.get.found.name == name)
           && !a.readRefused && RunsTemplate(kind, m, a, a.get.found)
  }

  /** A terminating Endpoint resolves no Template, and every external endpoint runs one: unless the
      object is recovered by name, it is never reported present. */
  lemma TerminatingEndpointIsNotSeen(m: Meta, statusId: string, name: string, a: Answers)
    requires m.deleting && Vouched(EndpointKind, a)
    ensures ReportsPresent(m, statusId, EndpointKind, name, a) <==> CleansUp(m, name, a)
  {
  }

  /** The object answers to the bound ID under the owned name, runs the resolved Template and has
      not drifted beyond repair. */
  predicate InOrder(m: Meta, kind: Kind, name: string, a: Answers) {
    a.get.Got? && a.get.found.name == name && !a.readRefused && RunsTemplate(kind, m, a, a.get.found)
  }

  /** A resource that has just been bound is seen: whatever was pending before, the next Observe
      reports it present if its object is in order, with or without a recorded status ID. */
  lemma BoundIsSeen(m: Meta, id: string, now: int, statusId: string, kind: Kind, name: string, a: Answers)
    requires ValidId(id) && !m.deleting && m.absence.None? && (m.pending.Some? ==> m.pending.value <= now)
    requires (statusId == "" || statusId == id) && InOrder(m, kind, name, a)
    ensures ReportsPresent(Bind(m, id, now), statusId, kind, name, a)
  {
  }

  /** Only the resource's own object is taken for it: by the owned name when it is recovered or has
      no status ID, and otherwise by the ID that the annotations and the status agree on. */
  lemma PresentIsOurs(m: Meta, statusId: string, kind: Kind, name: string, a: Answers)
    requires name != "" && ReportsPresent(m, statusId, kind, name, a)
    ensures if Incomplete(m) || m.ambiguousName != "" then a.find.Named? && a.find.found.name == name
            else
              && m.bound && m.externalName != "" && a.get.Got?
              && (if statusId == "" then a.get.found.name == name else statusId == m.externalName)
  {
  }
}
