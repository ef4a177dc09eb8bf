/**
 * Drift and repair: which external states the controllers call up to date, which they refuse
 * to touch, and what a PATCH carries once `omitempty` has dropped its zero fields.
 */
module Repair {
  import opened Basics

  /** A JSON field that may be omitted, null or a string. */
  datatype Nullable = Omitted | IsNull | Value(s: string)

  predicate Blank(v: Nullable) { v == IsNull || v == Value("") }

  // ------------------------------------------------------------------ names

  function Lower(s: string): (r: string)
    ensures |r| == |s|
  {
    if s == "" then "" else [if 'A' <= s[0] <= 'Z' then s[0] - 'A' + 'a' else s[0]] + Lower(s[1..])
  }

  const MAX_NAME := 191

  function Cut(name: string, room: nat): string { if |name| > room then name[..room] else name }

  function Suffix(uid: string): (r: string)
    ensures |r| == |uid| + 4
  {
    "-xp-" + Lower(uid)
  }

  /** The controller-owned name: the spec name cut to make room for the UID. */
  function EffectiveName(name: string, uid: string): (r: string)
    requires |uid| <= MAX_NAME - 4
    ensures 4 <= |r| <= 191
    ensures |name| + |uid| <= 187 ==> r == name + Suffix(uid)
    ensures |name| + |uid| > 187 ==> r == name[..187 - |uid|] + Suffix(uid)
  {
    Cut(name, MAX_NAME - |Suffix(uid)|) + Suffix(uid)
  }

  /** Kubernetes UIDs have one length, so no two objects share an effective name. */
  lemma EffectiveNameIsUidScoped(name: string, uid: string, name': string, uid': string)
    requires |uid| == |uid'| <= MAX_NAME - 4
    requires EffectiveName(name, uid) == EffectiveName(name', uid')
    ensures Lower(uid) == Lower(uid')
  {
    var room := MAX_NAME - |Suffix(uid)|;
    SameEnding(Cut(name, room), Suffix(uid), Cut(name', room), Suffix(uid'));
    SameEnding("-xp-", Lower(uid), "-xp-", Lower(uid'));
  }

  lemma SameEnding(p: string, s: string, p': string, s': string)
    requires p + s == p' + s' && |s| == |s'|
    ensures s == s'
  {
    assert (p + s)[|p|..] == s && (p' + s')[|p'|..] == s';
  }

  // ------------------------------------------------------------------ endpoints

  /** The external endpoint. Lists that Go compares by content are plain sequences; a list
      whose absence matters is optional. */
  datatype Endpoint = Endpoint(
    id: string, name: string, templateId: string, computeType: string, gpuCount: int, gpuTypeIds: seq<string>,
    allowedCuda: Option<seq<string>>, dataCenterIds: seq<string>, workersMin: Option<int>, workersMax: Option<int>,
    idleTimeout: int, scalerType: string, scalerValue: int, executionTimeoutMs: int, flashBoot: Option<bool>,
    networkVolumeId: Nullable, networkVolumeIds: Option<seq<string>>, minCuda: Nullable,
    env: Option<map<string, string>>, instanceIds: seq<string>, version: Option<int>)

  /** The spec fields that reach the wire. */
  datatype EndpointSpec = EndpointSpec(
    name: string, templateId: string, gpuTypeIds: seq<string>, allowedCuda: seq<string>, dataCenterIds: seq<string>,
    workersMin: int, workersMax: int, idleTimeout: int, scalerType: string, scalerValue: int, executionTimeoutMs: int)

  /** `EndpointUpdateInput` as `endpointInput` and `endpointUpdateInput` fill it. */
  datatype EndpointUpdate = EndpointUpdate(
    name: string, templateId: string, gpuCount: int, gpuTypeIds: seq<string>, allowedCuda: seq<string>,
    dataCenterIds: seq<string>, workersMin: int, workersMax: int, idleTimeout: int, scalerType: string,
    scalerValue: int, executionTimeoutMs: int,
    flashBoot: bool, networkVolumeId: string, networkVolumeIds: seq<string>, minCuda: string)

  function UpdateInput(want: EndpointSpec): EndpointUpdate {
    EndpointUpdate(want.name, want.templateId, 1, want.gpuTypeIds, want.allowedCuda, want.dataCenterIds,
                   want.workersMin, want.workersMax, want.idleTimeout, want.scalerType, want.scalerValue,
                   want.executionTimeoutMs, false, "", [], "")
  }

  /** A PATCH as the server applies it: a serialized field overwrites, a dropped one leaves the
      stored value. The `omitempty` fields are name, allowedCudaVersions, the two network volume
      fields and minCudaVersion. FlashBoot changes where the server exposes it at all. */
  function ApplyPatch(e: Endpoint, u: EndpointUpdate, version: int): Endpoint {
    e.(name := if u.name == "" then e.name else u.name,
       templateId := u.templateId, gpuCount := u.gpuCount, gpuTypeIds := u.gpuTypeIds,
       allowedCuda := if u.allowedCuda == [] then e.allowedCuda else Some(u.allowedCuda),
       dataCenterIds := u.dataCenterIds, workersMin := Some(u.workersMin), workersMax := Some(u.workersMax),
       idleTimeout := u.idleTimeout, scalerType := u.scalerType, scalerValue := u.scalerValue,
       executionTimeoutMs := u.executionTimeoutMs,
       flashBoot := if e.flashBoot.None? then None else Some(u.flashBoot),
       networkVolumeId := if u.networkVolumeId == "" then e.networkVolumeId else Value(u.networkVolumeId),
       networkVolumeIds := if u.networkVolumeIds == [] then e.networkVolumeIds else Some(u.networkVolumeIds),
       minCuda := if u.minCuda == "" then e.minCuda else Value(u.minCuda),
       version := Some(version))
  }

  /** `endpointMatchesInput` */
  predicate EndpointMatches(want: EndpointSpec, got: Endpoint) {
    && got.name == want.name && got.templateId == want.templateId && got.computeType == "GPU" && got.gpuCount == 1
    && got.workersMin == Some(want.workersMin) && got.workersMax == Some(want.workersMax) && got.version.Some?
    && got.idleTimeout == want.idleTimeout && got.scalerType == want.scalerType && got.scalerValue == want.scalerValue
    && got.executionTimeoutMs == want.executionTimeoutMs
    && (got.flashBoot.None? || got.flashBoot.value == false)
    && Blank(got.networkVolumeId) && got.networkVolumeIds == Some([]) && Blank(got.minCuda)
    && got.env == Some(map[]) && got.instanceIds == []
    && got.gpuTypeIds == want.gpuTypeIds && got.allowedCuda == Some(want.allowedCuda)
    && got.dataCenterIds == want.dataCenterIds
  }

  /** `unrepairableExternalState` returns nil. */
  predicate EndpointRepairable(want: EndpointSpec, got: Endpoint) {
    && got.computeType == "GPU" && got.env == Some(map[]) && got.instanceIds == []
    && got.networkVolumeId != Omitted && got.networkVolumeIds.Some? && got.minCuda != Omitted && got.allowedCuda.Some?
    && Blank(got.networkVolumeId) && got.networkVolumeIds.value == [] && Blank(got.minCuda)
    && (want.allowedCuda == [] ==> got.allowedCuda.value == [])
  }

  /** Repair completeness: past the unrepairable test one PATCH restores the desired state,
      although `omitempty` drops every field it has no safe way to clear. Conversely the
      controller refuses only states that no PATCH repairs, and responses that omit the CUDA list. */
  lemma EndpointRepairIsComplete(want: EndpointSpec, got: Endpoint, version: int)
    requires want.name != ""
    ensures EndpointRepairable(want, got) <==>
              got.allowedCuda.Some? && EndpointMatches(want, ApplyPatch(got, UpdateInput(want), version))
  {
  }

  /** Up to date means exactly: repairable, with a rollout version, and the PATCH would change nothing. */
  lemma EndpointMatchesIffPatchIsIdle(want: EndpointSpec, got: Endpoint)
    requires want.name != ""
    ensures EndpointMatches(want, got) <==>
              && got.version.Some? && EndpointRepairable(want, got)
              && ApplyPatch(got, UpdateInput(want), got.version.value) == got
  {
  }

  /** No drift goes unnoticed: an Endpoint matches at most one specification, and two Endpoints that
      match the same one differ in nothing but identity, rollout, the retention setting that the API
      may hide, and the spelling of an empty value. */
  lemma EndpointMatchIsTight(want: EndpointSpec, want': EndpointSpec, got: Endpoint, got': Endpoint)
    requires EndpointMatches(want, got)
    ensures EndpointMatches(want', got) ==> want' == want
    ensures EndpointMatches(want, got') ==>
              && got' == got.(id := got'.id, version := got'.version, flashBoot := got'.flashBoot,
                              networkVolumeId := got'.networkVolumeId, minCuda := got'.minCuda)
              && got'.flashBoot != Some(true) && got'.networkVolumeId in {IsNull, Value("")}
              && got'.minCuda in {IsNull, Value("")}
  {
  }

  // ------------------------------------------------------------------ templates

  datatype Template = Template(
    id: string, name: string, category: string, imageName: string, isPublic: Option<bool>, isRunpod: Option<bool>,
    isServerless: Option<bool>, containerDisk: Option<int>, entrypoint: Option<seq<string>>,
    startCmd: Option<seq<string>>, ports: Option<seq<string>>, readme: Nullable, volume: Option<int>,
    mountPath: Nullable,
    env: Option<map<string, string>>, registryAuth: Nullable)

  /** `templateInput`: readme, mount path, env and registry auth are always empty. */
  datatype TemplateSpec = TemplateSpec(
    name: string, imageName: string, containerDisk: int, entrypoint: seq<string>, startCmd: seq<string>,
    ports: seq<string>, volume: int)

  const DEFAULT_DISK := 50

  /** `normalizeTemplateInput` replaces a zero disk by RunPod's default. */
  function SentDisk(disk: int): int { if disk == 0 then DEFAULT_DISK else disk }

  /** `TemplateUpdateInput` has no `omitempty`: every field is sent. */
  function ApplyTemplatePatch(t: Template, want: TemplateSpec): Template {
    t.(name := want.name, imageName := want.imageName, isPublic := Some(false),
       containerDisk := Some(SentDisk(want.containerDisk)),
       entrypoint := Some(want.entrypoint), startCmd := Some(want.startCmd), ports := Some(want.ports),
       readme := Value(""), volume := Some(want.volume), mountPath := Value(""), env := Some(map[]),
       registryAuth := Value(""))
  }

  /** `templateMatchesInput` */
  predicate TemplateMatches(want: TemplateSpec, got: Template) {
    && got.category == "NVIDIA" && got.name == want.name && got.imageName == want.imageName
    && got.isPublic == Some(false) && got.isRunpod == Some(false) && got.isServerless == Some(true)
    && got.containerDisk == Some(want.containerDisk) && got.volume == Some(want.volume)
    && got.readme == Value("") && got.mountPath == Value("") && got.env == Some(map[]) && Blank(got.registryAuth)
    && got.entrypoint == Some(want.entrypoint) && got.startCmd == Some(want.startCmd) && got.ports == Some(want.ports)
  }

  /** `unrepairableExternalState` returns nil. */
  predicate TemplateRepairable(got: Template) {
    && got.category == "NVIDIA" && got.isServerless == Some(true) && got.isRunpod == Some(false)
    && got.isPublic.Some? && got.containerDisk.Some? && got.volume.Some?
    && got.entrypoint.Some? && got.startCmd.Some? && got.ports.Some? && got.env.Some?
    && got.readme != Omitted && got.mountPath != Omitted && got.registryAuth != Omitted
  }

  /** The API server admits a disk of 1 to 100 GB and fills in 50 for none. */
  predicate Admitted(want: TemplateSpec) { 1 <= want.containerDisk <= 100 }

  /** Repair completeness: one PATCH restores every template that passes the unrepairable test. It
      restores a template exactly when the facts that only a create can set are right. */
  lemma TemplateRepairIsComplete(want: TemplateSpec, got: Template)
    requires Admitted(want)
    ensures TemplateRepairable(got) ==> TemplateMatches(want, ApplyTemplatePatch(got, want))
    ensures TemplateMatches(want, ApplyTemplatePatch(got, want)) <==>
              got.category == "NVIDIA" && got.isServerless == Some(true) && got.isRunpod == Some(false)
  {
  }

  /** A Template is refused if any of the evidence is missing that the PATCH would be judged by. */
  lemma TemplateEvidenceIsDemanded(got: Template)
    requires TemplateRepairable(got)
    ensures got.isPublic.Some? && got.containerDisk.Some? && got.volume.Some? && got.entrypoint.Some?
            && got.startCmd.Some? && got.ports.Some? && got.env.Some? && got.readme != Omitted
            && got.mountPath != Omitted && got.registryAuth != Omitted
  {
  }

  /** No drift goes unnoticed here either. */
  lemma TemplateMatchIsTight(want: TemplateSpec, want': TemplateSpec, got: Template, got': Template)
    requires TemplateMatches(want, got)
    ensures TemplateMatches(want', got) ==> want' == want
    ensures TemplateMatches(want, got') ==>
              got' == got.(id := got'.id, registryAuth := got'.registryAuth) && got'.registryAuth in {IsNull, Value("")}
  {
  }

  /** The client alone would not: it sends a zero disk as fifty, which then never matches. */
  lemma ZeroDiskIsReplaced(want: TemplateSpec, got: Template)
    ensures ApplyTemplatePatch(got, want).containerDisk == Some(want.containerDisk) <==> want.containerDisk != 0
  {
  }

  function AuthAsSent(got: Template): Template {
    if got.registryAuth == IsNull then got.(registryAuth := Value("")) else got
  }

  /** Up to date means exactly: repairable, and the PATCH would change nothing but a null auth. */
  lemma TemplateMatchesIffPatchIsIdle(want: TemplateSpec, got: Template)
    requires Admitted(want)
    ensures TemplateMatches(want, got) <==> TemplateRepairable(got) && ApplyTemplatePatch(got, want) == AuthAsSent(got)
  {
  }
}
