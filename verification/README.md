# A verified model of provider-runpod

provider-runpod is a Crossplane provider for RunPod Serverless with a model router beside it. Its
controllers and its router cooperate through Kubernetes objects only: a finalizer on an
EndpointCheck keeps an Endpoint from being deleted under a running request, a status written by
one controller is the evidence on which another admits traffic, and annotations are all that
survives a crash in the middle of a billable create. This project models that protocol, the
management client under it and the bounded JSON front end of the router, and proves what they are
for: no request loses its endpoint, no object is created twice or orphaned, no route rests on
stale evidence, and what is forwarded means what was sent.

| file | content |
|---|---|
| `RouteTable`, `RouteLease`, `DrainTheorems`, `ShutdownDrain` | the router's route, the drain protocol as interleaved steps, and its theorems |
| `ByteOrder`, `Snapshot` | the order-free revision of a list of checks |
| `RouteAdmission`, `RouteProvenance` | which check a Refresh admits, and what every route rests on |
| `EndpointBinding`, `EndpointCheck`, `VerificationHistory`, `Inference` | the check reconciler, its history, and the costly verification |
| `Evidence` | what the Endpoint status proves about past reads and writes |
| `ExternalIdentity`, `CreateProtocol`, `ExternalDelete` | identity, creation under crashes, and the last guard before a deletion |
| `Repair` | drift, unrepairable drift and the fields a PATCH carries |
| `ManagementClient` | the retry loop and the classification of ambiguous creates |
| `Janitor` | teardown order and termination |
| `StrictJson`, `DecoderBounds`, `ToolArguments`, `ToolSchema`, `SchemaRules`, `ChatMessages`, `MessageRules` | the chat request validator, and what it lets through in terms of the raw request |
| `BoundedCopy` | the bounded stream copy |

Conventions. Times are whole seconds and zero is the zero time. Strings are byte strings. The API
server is a store in which every write takes a new resource version; writes under optimistic
locking are atomic with the reads they are based on. What a component reads from the network,
the API server or the clock is a parameter, and a failed call is one of the possible answers.

The drain protocol's invariant (`RouteLease.Inv`) is kept step group by step group: writes to checks
(`CheckWriteKeepsInv`), Endpoint termination and deletion (`EndpointStepKeepsInv`), the scan
(`ScanKeepsInv`), commit and withdrawal (`RefreshReplaceKeepsInv`), acknowledgement (`AckKeepsInv`),
leases (`LeaseStepKeepsInv`), the end of a wait (`DrainedKeepsInv`) and the shutdown
(`WithdrawalKeepsInv`, `ShutdownDrainedKeepsInv`); the table below lists the results.

## Where the code and its documentation differ

- `Run` withdraws the route at shutdown without `refreshMu` (internal/router/router.go:316-331). A
  Refresh that overlaps it sees no active route, does not wait, and acknowledges the drain under a
  held lease. `DrainBeforeDelete` says that this is the only way in which the drain gives way, in
  every run; `ShutdownReleasesChecks` says that it is always open: all checks can go while the lease
  is held, so that the list with which Delete guards the Endpoint no longer stops it. The next item
  is why no external DELETE follows for that Endpoint all the same.
- A terminating Endpoint resolves no Template, so that it can be deleted without one
  (internal/controller/endpoint/endpoint.go:447-453), but Observe then compares the Template of the
  external endpoint with none and fails (lines 271-274). A bound Endpoint whose object exists is
  therefore never observed while it terminates, and its Delete never runs: `TerminatingBoundIsStuck`,
  `StuckForever`, `BoundIsNeverDeleted`. Every Endpoint that was ever routed is bound, so none of
  these is deleted, drained or not: `RoutedEndpointIsNotDeleted`. The drain protocol itself leaves
  Observe out, so its theorems hold of a Delete that does run.
- The create stamps are whole seconds. A retry within the second of an earlier outcome is not
  guarded by its own announcement; `SameSecondRetryPostsTwice` gives the run and
  `InterruptedCreateRepeatsIff` the exact condition.
- A check that is created and deleted between the two lists of a Refresh leaves no trace
  (`TransientCheckIsInvisible`); listed checks are protected from ABA (`CommitMeansUntouched`).
- A verification that passes while an older worker proof stands sets Ready at once
  (internal/controller/endpointcheck/endpointcheck.go:207-208); `ReadyAwaitsWorkerIff` says exactly
  when the documented handshake is skipped, and `HandshakeIsSkipped` gives a run. Lines 156-168 of
  that file are unreachable.
- An empty reap annotation counts as present for the janitor and as absent for the reaper:
  `MarkedIsReapedIff`.
- A tool message may answer a call anywhere in the body, not only an earlier one
  (internal/router/request.go:156-164): `ResultMayComeFirst`.

## Model

| member | source | states |
|---|---|---|
| `DrainTheorems.DrainBeforeDelete` | internal/controller/endpoint/endpoint.go:408-438 | In every run, shutdown included, when the external DELETE of an Endpoint may be issued no route to it is active and no Refresh in flight will commit one; and no lease on such a route is held, exactly unless the shutdown waits for a leased one |
| `DrainTheorems.LeaseBlocksDelete` | internal/router/router.go:557-566 | While a lease is held that the shutdown does not wait for, the direct list of the Endpoint's Delete cannot come back empty |
| `DrainTheorems.NilReturnMeansCommitted` | internal/router/router.go:136-256 | When a Refresh is about to return, an active route comes from the only check of its snapshot that was eligible; before shutdown, nil is returned exactly with an active route |
| `ShutdownDrain.ShutdownReleasesChecks` | internal/router/router.go:316-331 | From every reachable running state with an idle Refresh and a leased active route, the unlocked withdrawal leads to a state without any check in which that lease is still held |
| `ShutdownDrain.LeaseIsReachable` | internal/router/router.go:136-256 | Such a state is reachable for every first candidate |
| `DrainTheorems.RunKeepsInv` | internal/router/router.go:136-256 | Every run of the protocol, with requests, writers, deletions and shutdown interleaved, keeps its invariant |
| `RouteLease.StepKeepsInv` | internal/router/router.go:136-256 | Every step keeps the invariant that ties routes, leases, snapshots and finalizers together |
| `RouteLease.EmptyListMeansUnrouted` | internal/controller/endpoint/endpoint.go:413-422 | A list without a referencing check proves that the Endpoint is not routed anywhere |
| `RouteLease.AckedCheckIsNotRouted` | internal/router/router.go:244-252 | A deleting check whose finalizer is about to be acknowledged backs no active route and no lease |
| `RouteTable.SwapIsExact` | internal/router/router.go:499-535 | The swap moves the active pointer to exactly the candidate, cancels the old route and hands it over to be drained, and changes no lease count |
| `RouteTable.Router.Replace` | internal/router/router.go:499-526 | The critical section of `replace` is that swap, and reports the route to wait for |
| `RouteTable.Router.FinishReplace` | internal/router/router.go:528-535 | Once drained, the old route's token is erased and nothing else changes |
| `RouteTable.Router.Acquire` | internal/router/router.go:557-566 | One more lease on the active route, or none without a route; `LeaseLedger` says what the count means |
| `RouteTable.Router.Release` | internal/router/router.go:557-566 | One lease less on the route it was taken from, active or not |
| `DrainTheorems.LeaseLedger` | internal/router/router.go:557-566 | In every run the lease count of a route is what it was, plus the leases taken while it was active, minus those given back |
| `DrainTheorems.LeaseKeepsToken` | internal/router/router.go:528-535 | In every run, shutdown included, a token is not cleared while a lease on its route is held |
| `DrainTheorems.RetiredForever` | internal/router/router.go:499-535 | A swapped-out route never becomes active again and its lease count never grows |
| `DrainTheorems.DrainTerminates` | internal/router/router.go:528-535 | A waiting Refresh is finished by the lease holders' releases alone, as many as there are leases; none of them needs `refreshMu` |
| `DrainTheorems.CancelledIffDisturbed` | internal/router/router.go:537-540 | A step cancels the active route exactly if it withdraws it or commits a different target |
| `DrainTheorems.EquivalentRefreshesKeepRoute` | internal/router/router.go:510-520 | Any run of equivalent refreshes leaves the active route in place and uncancelled |
| `DrainTheorems.ListsAgreeIff` | internal/router/router.go:223-241 | Two lists agree exactly if every listed check was there unwritten at every moment between them and no other is left |
| `DrainTheorems.CommitMeansUntouched` | internal/router/router.go:143-242 | A Refresh commits only if the store at its second list is its snapshot and no check of it changed in between |
| `DrainTheorems.TransientCheckIsInvisible` | internal/router/router.go:223-241 | A check created and deleted between the lists is not noticed |
| `Snapshot.EndpointCheckRevision` | internal/router/router.go:301-314 | The encoded list is a sorted permutation of the input |
| `Snapshot.RevisionsAgreeIff` | internal/router/router.go:301-314 | Revisions are equal exactly if the lists hold the same objects, in whatever order |
| `RouteAdmission.Select` | internal/router/router.go:152-222 | The next route is the only eligible check with its verified credential and a second match, and every deleting check is due for acknowledgement, in order |
| `RouteAdmission.EligibleIff` | internal/router/router.go:156-181 | Over every history, a check is eligible exactly if it is live and finalized, its last status write was for its generation, made it Ready and is at most 90 s old, and its last standing Verify passed at most an interval and 90 s ago for what the router reads |
| `RouteAdmission.EligibleDemands` | internal/router/router.go:174-181 | Of any status whatever, eligibility demands Ready, the finalizer, all three flags, both times, the lifetime and a match |
| `RouteAdmission.UnhealthyIsWithdrawn` | internal/controller/endpointcheck/endpointcheck.go:246-258 | A probe that finds the endpoint unhealthy makes the check ineligible for every view |
| `RouteAdmission.CredentialIsEssential` | internal/router/router.go:189-211 | An admissible check is admissible with no credential but the one it was verified with |
| `RouteAdmission.RouteHasProvenance` | internal/router/router.go:156-222 | Over every reconcile history, an admitted route rests on a logged successful Verify at `LastVerifiedAt` for the same generation, specification, identity, Template revision and Secret version that the router reads, no older than the interval plus 90 s |
| `RouteProvenance.EveryRouteHasProvenance` | internal/router/router.go:152-242 | In every run of the drain protocol whose candidates are admitted so, every route, active or draining, goes back to a commit at which the stored version of its check had, in its own history, a standing successful Verify of the endpoint and model it routes to |
| `RouteProvenance.CommittedCheckIsCurrent` | internal/router/router.go:223-242 | At the commit, that version is what is stored, and has been unwritten since the first list |
| `RouteProvenance.RefreshedRouteHasProvenance` | internal/router/router.go:499-520 | A route that a Refresh commits or retains rests on a successful Verify in the history of its check, in the version that this Refresh listed |
| `RouteAdmission.RouteRestsOnEnforcement` | internal/router/router.go:258-299 | The Endpoint status behind a route traces to an enforcement within five minutes on the same endpoint and rollout, and to a last answer with matched workers |
| `RouteAdmission.RoutedEndpointIsNotDeleted` | internal/controller/endpoint/endpoint.go:249-274 | Whatever happens to an Endpoint after it was eligible, it stays bound to the recorded ID, and once it terminates Observe never reports its object present, so Delete is not called |
| `EndpointBinding.PredicatesAgree` | internal/router/router.go:258-299 | `endpointRevisionMatches` holds exactly if `resolveEndpoint` succeeds at the same time with a proven worker and the recorded identity, field by field |
| `EndpointBinding.MatchDetermines` | internal/router/router.go:258-299 | Any two worlds in which a recorded identity is accepted agree on the objects, health, binding and rollout behind it, with neither lifetime run out |
| `EndpointCheck.Reconciler.Reconcile` | internal/controller/endpointcheck/endpointcheck.go:80-223 | The reconcile takes the decision and leaves the status that the history model gives it, whatever fails; the handshake branch is dead; `NextReconcile` says what the decision means |
| `EndpointCheck.Reconciler.Fail` | internal/controller/endpointcheck/endpointcheck.go:325-334 | A failed reconcile forgets identity, verification and attempt |
| `EndpointCheck.Reconciler.FailLiveness` | internal/controller/endpointcheck/endpointcheck.go:246-258 | A failed liveness check keeps the verification and clears Ready |
| `EndpointCheck.ReadyAwaitsWorkerIff` | internal/controller/endpointcheck/endpointcheck.go:203-214 | Ready implies a worker observed after the attempt exactly unless a verification passes with a worker proven at or before its start |
| `EndpointCheck.LifeOfACheck` | internal/controller/endpointcheck/endpointcheck.go:91-110 | A written reconcile ends a finalized check exactly at the end of its own or its Endpoint's or Template's lifetime, finalizes every live check, and leaves the specification alone |
| `EndpointCheck.FailureForgets` | internal/controller/endpointcheck/endpointcheck.go:325-334 | After an unresolved Endpoint or an unusable Secret nothing is left that could be taken for a verification |
| `VerificationHistory.RunKeepsInv` | internal/controller/endpointcheck/endpointcheck.go:80-223 | After every history the status is the record of the last standing Verify and of nothing else |
| `VerificationHistory.StatusHasProvenance` | internal/controller/endpointcheck/endpointcheck.go:325-416 | A Ready condition or a verification time rests on a logged successful Verify with exactly the recorded identity, Secret version and time |
| `VerificationHistory.ConsecutiveVerificationsArePaced` | internal/controller/endpointcheck/endpointcheck.go:384-403 | Consecutive Verify calls for an unchanged generation, identity and Secret version are an interval apart unless the clock runs backwards |
| `VerificationHistory.VerificationSpacing` | internal/controller/endpointcheck/endpointcheck.go:115-203 | With a monotone clock and successful writes, two closer Verify calls have a reset or a change of generation, identity or Secret version between them |
| `VerificationHistory.NextReconcile` | internal/controller/endpointcheck/endpointcheck.go:115-203 | Over every history, a reconcile with all it needs verifies exactly when the last standing Verify is stale (none, of another generation, identity or Secret version, an interval old, or in the future), and otherwise waits within 30 s of the last status write, admits or probes |
| `VerificationHistory.FirstVerificationSkipsHandshake` | internal/controller/endpointcheck/endpointcheck.go:203-214 | The first verification of every check that finds an earlier worker proof makes it Ready at once |
| `VerificationHistory.HandshakeIsSkipped` | internal/controller/endpointcheck/endpointcheck.go:207-208 | A run from a new check to a Ready status whose worker was seen before the attempt |
| `Inference.Verify` | internal/inference/client.go:89-166 | No error exactly if all three flags are set; each flag implies the earlier ones; the billable completion goes only to an advertised model |
| `Inference.ProbeIsExact` | internal/inference/client.go:154-161 | Only one choice with the one forced call of the probe passes |
| `Evidence.Endpoint.SetObservation` | internal/controller/endpoint/endpoint.go:682-741 | What an answer leaves in the status and which of the two proofs it gives |
| `Evidence.Endpoint.Perform` | internal/controller/endpoint/endpoint.go:279-335 | Which of the four recording operations confirm a write and which prove workers |
| `Evidence.NoRecordAfterTermination` | internal/controller/endpoint/endpoint.go:447-453 | Nothing is recorded for a terminating Endpoint, hence nothing after a cleanup |
| `Evidence.FlashBootTraces` | internal/controller/endpoint/endpoint.go:682-741 | Over every history the guards permit, FlashBoot evidence is recorded exactly if it traces to a confirmed write or a direct false reading, followed only by silent reads of the same object and rollout while current; it carries that event's time and version, and its object until a cleanup |
| `Evidence.CurrentEvidenceTraces` | apis/serverless/v1alpha1/endpoint_types.go:145-152 | Evidence is current exactly if that event is at most five minutes old |
| `Evidence.CleanupKeepsTraceIff` | internal/controller/endpoint/endpoint.go:197-209 | A first cleanup keeps the recorded ID tied to the evidence exactly if it finds the same object again |
| `Evidence.WorkerProofIsTheLast` | apis/serverless/v1alpha1/endpoint_types.go:157-160 | The worker proof holds exactly if the last recorded answer had matched workers |
| `Evidence.StatusIsTheLastAnswer` | internal/controller/endpoint/endpoint.go:729-739 | ID, Template ID, version and time are those of the last recorded answer, the IDs until a cleanup |
| `Evidence.UnboundIff` | internal/controller/endpoint/endpoint.go:706-719 | No Template revision is bound until the first confirmed write |
| `Evidence.RevisionTraces` | internal/controller/endpoint/endpoint.go:706-719 | The bound revision is that of the last event that was the first confirmed write or reported a new rollout version |
| `ExternalIdentity.Resource.Observe` | internal/controller/endpoint/endpoint.go:172-285 | Exactly when absence and presence are reported, that a terminating Endpoint is present only through a cleanup, and that only a recovery writes the binding |
| `ExternalIdentity.TerminatingEndpointIsNotSeen` | internal/controller/endpoint/endpoint.go:266-274 | A terminating Endpoint is reported present exactly if its object is recovered by name and the cleanup accepted |
| `ExternalIdentity.Resource.Create` | internal/controller/endpoint/endpoint.go:290-335 | Exactly when a POST is sent and what each answer leaves in the annotations |
| `ExternalIdentity.Resource.RecoverAmbiguousCreate` | internal/controller/template/template.go:285-293 | Binds the recovered object or changes nothing |
| `ExternalIdentity.Resource.BindExternalId` | internal/controller/endpoint/endpoint.go:353-362 | Binding sets name, marker, status and success stamp, and clears the recovery marker |
| `ExternalIdentity.BoundIsSeen` | internal/controller/endpoint/endpoint.go:240-285 | A resource that has just been bound is reported present by the next Observe if its object is in order |
| `ExternalIdentity.PresentIsOurs` | internal/controller/endpoint/endpoint.go:176-265 | Only an object of the owned name, or of the ID that annotations and status agree on, is taken for the resource |
| `CreateProtocol.StepKeepsInv` | internal/controller/endpoint/endpoint.go:172-335 | Every step, crash, lost response and late commit keeps the invariant that a possibly committed POST is guarded |
| `CreateProtocol.AtMostOneUncertainPost` | internal/controller/template/template.go:126-293 | In every run with spaced announcements at most one POST may have committed, and after it none is sent |
| `CreateProtocol.NoOrphan` | internal/controller/endpoint/endpoint.go:176-249 | Once a POST may have committed, absence is reported only for a deleting resource whose object is truly gone, or with the exact pending stamp acknowledged and no object found |
| `CreateProtocol.CreateNeverResumes` | internal/controller/endpoint/endpoint.go:302-305 | Create never sees a recovery marker |
| `CreateProtocol.InterruptedCreateRepeatsIff` | internal/controller/endpoint/endpoint.go:176-179 | After a crash during the POST a second one is permitted exactly if the announcement was not later than every recorded outcome |
| `CreateProtocol.SameSecondRetryPostsTwice` | internal/controller/endpoint/endpoint.go:306-317 | For every name and time, a run in which two POSTs may have committed |
| `CreateProtocol.CreatedIsSeen` | internal/controller/endpoint/endpoint.go:309-321 | The run of an answered create ends bound, and Observe then reports the resource present |
| `CreateProtocol.LostCreateIsRecovered` | internal/controller/endpoint/endpoint.go:310-335 | The run of a create whose answer was lost ends with the marker; the object is adopted once its name is found, and then seen |
| `CreateProtocol.TerminatingBoundIsStuck` | internal/controller/endpoint/endpoint.go:249-274 | In every run, a bound Endpoint that terminates is stuck |
| `CreateProtocol.StuckForever` | internal/controller/endpoint/endpoint.go:266-274 | It stays so in every run: it is never observed present, and its object remains until someone else removes it |
| `CreateProtocol.BoundIsNeverDeleted` | internal/controller/endpoint/endpoint.go:266-274 | In every run, a bound Endpoint stays bound to its object, and after its deletion is never observed present |
| `CreateProtocol.StuckIsUnseen` | internal/controller/endpoint/endpoint.go:240-247 | Nor is it reported absent while its object exists |
| `CreateProtocol.DeletedEndpointIsStuck` | internal/controller/endpoint/endpoint.go:290-321 | The run: an Endpoint is created without a fault and then deleted |
| `ExternalDelete.DeleteTemplate` | internal/controller/template/template.go:353-399 | The DELETE is issued exactly for a bound, present Template that no listed or external Endpoint uses |
| `Repair.EffectiveName` | internal/controller/endpoint/endpoint.go:535-543 | The owned name fits the bound, and is the wanted name, cut if need be, and the UID |
| `Repair.EffectiveNameIsUidScoped` | internal/controller/endpoint/endpoint.go:535-543 | Equal owned names mean equal UIDs, up to case |
| `Repair.EndpointRepairIsComplete` | internal/controller/endpoint/endpoint.go:545-562 | An Endpoint passes the unrepairable test exactly if its CUDA list is present and the PATCH, after `omitempty`, makes it match |
| `Repair.EndpointMatchesIffPatchIsIdle` | internal/controller/endpoint/endpoint.go:649-675 | Up to date means repairable with a version, and unchanged by the PATCH |
| `Repair.EndpointMatchIsTight` | internal/controller/endpoint/endpoint.go:545-562 | An Endpoint matches at most one specification, and what matches one differs only in identity, rollout, hidden retention and the spelling of empty values |
| `Repair.TemplateRepairIsComplete` | internal/controller/template/template.go:462-483 | For every admitted disk, one PATCH makes every repairable Template match, and any Template exactly if its create-only facts are right |
| `Repair.TemplateMatchIsTight` | internal/controller/template/template.go:462-483 | The same for Templates |
| `Repair.TemplateEvidenceIsDemanded` | internal/controller/template/template.go:234-238 | A Template with any of its evidence omitted is refused |
| `Repair.ZeroDiskIsReplaced` | internal/client/runpod/client.go:380-399 | The client keeps a wanted disk exactly if it is not zero; the API server admits no zero |
| `Repair.TemplateMatchesIffPatchIsIdle` | internal/controller/template/template.go:224-240 | Up to date means repairable and unchanged by the PATCH but for a null registry auth |
| `ManagementClient.DoJson` | internal/client/runpod/client.go:435-518 | At most one POST, PATCH or DELETE and four GETs, at most 30 s asleep and exactly the backoffs of the retried answers, never the final return; the outcome is that of the last answer, or a failure if a sleep was interrupted |
| `ManagementClient.HandleAnswer` | internal/client/runpod/client.go:457-515 | What one answer leads to: the end of the call with its verdict, or a sleep before the next attempt |
| `ManagementClient.BackoffIsBounded` | internal/client/runpod/client.go:532-541 | One backoff is at most 10 s for every Retry-After, wrap-around included |
| `ManagementClient.BackoffIsExact` | internal/client/runpod/client.go:532-541 | A plausible Retry-After is kept up to 10 s, and without one the wait doubles from 100 ms |
| `ManagementClient.RejectedIsDefinite` | internal/client/runpod/client.go:274-290 | A create is reported rejected exactly if nothing was sent or a complete answer came back that is neither 2xx nor 429 nor from 500 up, and made exactly for a readable 2xx with a proven identity |
| `ManagementClient.GetStopsIff` | internal/client/runpod/client.go:491-505 | An uninterrupted GET stops before its fourth request exactly at an answer that is not to be retried |
| `ManagementClient.VerdictIsExact` | internal/client/runpod/client.go:476-515 | Success, not found, API error, doubt and failure for every verb and answer |
| `ManagementClient.FindByName` | internal/client/runpod/client.go:253-272 | None, the only one, or an error for several of the name |
| `Janitor.Cluster.DeleteChecks` | internal/controller/janitor/janitor.go:125-141 | Deletes the listed referencing checks up to the first failure and reports whether there were any |
| `Janitor.Cluster.MarkTemplateForReaping` | internal/controller/janitor/janitor.go:143-165 | Succeeds exactly if the Template is absent, annotated, or annotated now with a non-empty owner while unchanged since it was read |
| `Janitor.Cluster.Reconcile` | internal/controller/janitor/janitor.go:70-123 | A pass with any failures, a possibly stale copy and other writers between its calls is the pass of the teardown model |
| `Janitor.Cluster.Reap` | internal/controller/janitor/janitor.go:173-215 | A Template is deleted exactly if it was read marked or expired and the list showed no Endpoint that references it |
| `Janitor.TeardownOrder` | internal/controller/janitor/janitor.go:70-123 | Whatever fails and whatever others do in between, a pass deletes or releases an Endpoint only if it is deleted or expired, after its list showed no check of it, and an expired one only after the Template to go with it was seen annotated or absent |
| `Janitor.LiveEndpointIsLeftAlone` | internal/controller/janitor/janitor.go:78-89 | For an Endpoint neither deleted nor expired a pass lists, deletes and marks nothing, and writes at most its finalizer |
| `Janitor.OnlyGivenUpTemplateIsMarked` | internal/controller/janitor/janitor.go:143-165 | An undisturbed pass marks only the Template that an expired Endpoint gives up, with that Endpoint's identity |
| `Janitor.ChecksDeletedFrame` | internal/controller/janitor/janitor.go:125-141 | Deleting an Endpoint's checks touches nothing else and takes no finalized check away |
| `Janitor.ReapOrder` | internal/controller/janitor/janitor.go:173-215 | Whatever fails and whatever others do in between, the reaper's write takes a Template exactly if it was read marked or expired and the list showed no Endpoint referring to it, and touches nothing else |
| `Janitor.UnreferencedIsReaped` | internal/controller/janitor/janitor.go:173-215 | A marked or expired Template without referring Endpoints is deleted |
| `Janitor.MarkedIsReapedIff` | internal/controller/janitor/janitor.go:154-163 | The mark makes the reaper act exactly unless an empty annotation was there before the Template expired |
| `Janitor.RoundLowersStage` | internal/controller/janitor/janitor.go:70-141 | Each pass followed by the drain lowers (finalizer to add, checks remaining, not yet deleting, finalizer held) |
| `Janitor.TeardownCompletes` | internal/controller/janitor/janitor.go:70-141 | Four rounds, in any list order, leave no check and nothing of the janitor's on the Endpoint |
| `StrictJson.DecodeTree` | internal/router/request.go:578-647 | Completeness: a document within the bounds decodes to its meaning and costs exactly its size |
| `StrictJson.DecodedTree` | internal/router/request.go:578-647 | Soundness: whatever decodes was a document within the bounds |
| `StrictJson.DecodeIsExact` | internal/router/request.go:552-647 | Decoding succeeds exactly for depth at most 6, at most 128 nodes and 32768 bytes of text, with non-empty, bounded, unique keys |
| `DecoderBounds.TextIsCounted` | internal/router/request.go:604-641 | The text budget is charged for the bytes of every key and string token |
| `DecoderBounds.KeysAreBounded` | internal/router/request.go:597-603 | Keys have 1 to 128 bytes and differ within their object |
| `DecoderBounds.NestingIsBounded` | internal/router/request.go:579-582 | A value inside `n` arrays decodes exactly for `n` up to 6 |
| `DecoderBounds.WidthIsBounded` | internal/router/request.go:579-582 | An array of `n` values decodes exactly for `n` up to 127 |
| `ToolArguments.Decoder.DecodeValue` | internal/router/request.go:578-647 | The recursive decoder with shared budgets agrees with that specification in value, rest and budgets |
| `ToolArguments.Decoder.DecodeObject` | internal/router/request.go:590-618 | So does its object loop |
| `ToolArguments.Decoder.DecodeArray` | internal/router/request.go:619-632 | So does its array loop |
| `ToolArguments.PrintedDecodes` | internal/router/request.go:552-576 | The canonical printing of a decoded value decodes to the same value at the same cost |
| `ToolArguments.ValidateIsExact` | internal/router/request.go:552-576 | Arguments are accepted exactly if they are one bounded, well-keyed object without secrets whose canonical text is bounded and clean, and that text is forwarded |
| `ToolArguments.PrintedInOrder` | internal/router/request.go:571-575 | Members are printed in byte order of their keys |
| `ToolArguments.ValidateIsIdempotent` | internal/router/request.go:552-576 | Validating canonical output again yields the same output |
| `ToolArguments.SpellingIsForgotten` | internal/router/request.go:552-576 | Spellings that differ in member order are forwarded identically |
| `ToolSchema.NodesInAnyOrder` | internal/router/request.go:365-372 | The node count does not depend on the iteration order of a map |
| `ToolSchema.StripKeepsInstances` | internal/router/request.go:312-354 | The forwarded schema accepts exactly the instances of the original |
| `ToolSchema.StripIsBare` | internal/router/request.go:312-354 | No `default` and no root `$schema` crosses the boundary |
| `ToolSchema.StripKeepsBare` | internal/router/request.go:312-354 | A schema without them is forwarded unchanged |
| `ToolSchema.StringArray` | internal/router/request.go:508-522 | Exactly the bounded arrays of bounded strings, in order |
| `ToolSchema.CheckRequired` | internal/router/request.go:374-392 | Required names are declared and distinct |
| `ToolSchema.CheckEnum` | internal/router/request.go:416-429 | Enum values are a bounded non-empty list of the node's type |
| `ToolSchema.Budget.ValidateSchema` | internal/router/request.go:300-441 | Accepts exactly the well-formed schemas whose nodes fit the budget, lowers it by exactly their number and leaves the stripped schema |
| `ToolSchema.Budget.ValidateProperties` | internal/router/request.go:355-373 | The same for the properties of a node, in any order of iteration |
| `ToolSchema.ValidateTools` | internal/router/request.go:185-227 | An absent list declares nothing; a present one is accepted exactly if it is a bounded array of well-formed, distinctly named tools with at most 128 schema nodes together, and each schema is forwarded stripped |
| `SchemaRules.AcceptedTool` | internal/router/request.go:197-224 | A tool is accepted exactly as a function with a safe name, a bounded description and an accepted root schema |
| `SchemaRules.AcceptedTools` | internal/router/request.go:190-213 | An accepted list has 1 to 32 tools of distinct names with at most 128 nodes |
| `SchemaRules.AcceptedKeywords` | internal/router/request.go:312-354 | Every accepted node has only captured keywords, a listed type, a bounded description and a default of its type, and the root the dialect and type object |
| `SchemaRules.AcceptedObject` | internal/router/request.go:355-402 | Objects have 1 to 64 well-named accepted properties and require some of them once; nothing else does |
| `SchemaRules.AcceptedValues` | internal/router/request.go:403-439 | Arrays have accepted items, enumerations 1 to 64 values of the type, bounds are numbers on numeric nodes |
| `SchemaRules.PrimitiveIsAccepted` | internal/router/request.go:334-340 | Every primitive type makes an accepted node below the root |
| `SchemaRules.ArrayIsAccepted` | internal/router/request.go:403-415 | Every accepted schema makes an accepted array one level up |
| `SchemaRules.ObjectIsAccepted` | internal/router/request.go:355-402 | Every 1 to 64 accepted properties, some of them required, make an accepted object, at the root with the dialect |
| `SchemaRules.KeywordMayBeAdded` | internal/router/request.go:341-439 | Bounded descriptions, typed defaults and enumerations and numeric bounds may be added to any accepted node |
| `SchemaRules.NodesOfArray` | internal/router/request.go:300-304 | An array costs one node more than its items |
| `SchemaRules.NodesOfFlatObject` | internal/router/request.go:300-304 | An object of `n` primitive properties costs `n + 1` nodes |
| `ChatMessages.ValidateToolCalls` | internal/router/request.go:229-270 | Accepts exactly the bounded arrays of well-formed calls of declared functions with distinct IDs and canonicalizable arguments, and returns their IDs and the rewritten calls |
| `ChatMessages.ValidateMessages` | internal/router/request.go:96-166 | Accepts exactly the bounded bodies of well-formed messages whose call IDs all differ and whose tool results each name a call of the body, and returns the IDs and the rewritten body |
| `MessageRules.AcceptedShape` | internal/router/request.go:102-154 | Every accepted message has one of four roles, only the fields of its role, bounded content, and its calls and answered ID in the fields that carry them |
| `MessageRules.AcceptedCall` | internal/router/request.go:235-267 | Every accepted call is of a declared function with safe names, and is forwarded with its own canonical arguments and otherwise as it came |
| `MessageRules.AcceptedCounts` | internal/router/request.go:97-100 | Bodies have 1 to 128 messages and calling messages 1 to 32 calls |
| `MessageRules.EveryResultNamesACall` | internal/router/request.go:156-164 | In an accepted body the `tool_call_id` of every tool result is the ID of a call |
| `MessageRules.CallIdsDiffer` | internal/router/request.go:131-142 | No two messages of an accepted body share a call ID and none repeats one |
| `MessageRules.ToolRoundIsAccepted` | internal/router/request.go:96-166 | Every question, call of a declared tool and result is accepted, and forwarded with canonical arguments |
| `ChatMessages.BodyIsStable` | internal/router/request.go:259-267 | The forwarded body is accepted again, with the same calls and answers, and forwarded unchanged |
| `ChatMessages.CanonicalIsStable` | internal/router/request.go:552-576 | Canonical arguments are their own canonical form, given a lexer that reads back the canonical text of every value |
| `ChatMessages.ResultMayComeFirst` | internal/router/request.go:156-164 | Moving a tool result ahead of every call changes nothing |
| `BoundedCopy.CopyBoundedAndFlush` | internal/router/router.go:451-497 | For every read script and writer the output is a prefix within the limit and nil means the whole stream; against a writer that keeps up it is `take(limit)`, with the limit error exactly for a non-positive limit or a longer stream |

## Left out

- HTTP transports, proxies, redirects, headers, trailers, the inference slot and `proxyChat`: no protocol state of their own.
- Kubernetes client, cache, watches, controller setup, gating, ProviderConfig usage and `cmd/*`: wrappers over libraries. Cached reads appear only as the janitor's possibly stale copy.
- crossplane-runtime is a stated contract: the pending stamp is persisted before Create, Create follows an Observe that reported absence, Delete serves terminating resources, and only the controllers and the acknowledging operator write the annotations.
- Byte-level JSON lexing, string escaping and number text: documents are token sequences, and the revision of a list is the sorted list itself.
- Credential patterns and secret-key scans are abstract predicates.
- Range checks of temperature, seed, stop, stream options and tool choice; requeue intervals; condition messages and error texts.
- `endpointWorkersMatch`, and `endpointTemplateMatches` beyond the Template's ID, are boolean answers: `Observe` refuses a mismatch, and a recorded answer has passed them.
- Endpoint `Update` beyond what it records, `resolveTemplate`, `validate`, the decoders in internal/client/runpod/types.go, and `ObservedGeneration` of Endpoints and Templates as they are written.
- RouteLease.StepKeepsInv: one router and one namespace; its Delete steps are not gated by Observe; `endpointIdRef` is not edited and only the router removes the drain finalizer.
- CreateProtocol.NoOrphan: assumes that a GET that finds nothing is right and that no one else creates objects under the UID-scoped name.
- RouteProvenance.EveryRouteHasProvenance: the reconcile history of each stored version of a check is given, and is not itself a part of the drain protocol's steps.
- Janitor.TeardownCompletes: assumes passes without failures or other writers, and that deleted checks drain in between.
- BoundedCopy.CopyBoundedAndFlush: flushes and their errors are not modelled; an empty read without an error is assumed not to repeat for ever, since scripts are finite.
- Template `Create` checks its lifetime before the recovery marker and Endpoint `Create` after it; both orders are covered by one method with two conditions.
