# Verification of the Kubernetes container service provider

This project models the parts of the service provider that carry state or promise something over
whole runs, and proves those promises in Dafny 4.11. `dafny verify dfyconfig.toml` checks it all.

| files | what they model |
|---|---|
| `DebouncerProtocol`, `DebouncerRuns`, `DebouncerObject` | the debouncer's locked sections, timers and callbacks as atomic steps; what every interleaving keeps; the object that takes the steps in place |
| `TimedDebouncer`, `DebouncerTrace` | the debouncer with a clock: what it publishes, told from the history of calls alone |
| `Reconcile`, `Monitor`, `Convergence` | one status from a Deployment and its Pods; handlers, publish retries; the pipeline from informer caches to publishes |
| `Cluster`, `StoreModel`, `StoreRead`, `StoreMap`, `Store` | the Kubernetes API with calls that may fail; Create, Get and Delete as relations and call by call; the map from instance to container that serial runs refine |
| `Convert`, `RoundTrip`, `CreatedObjects` | spec to Deployment and Service and back, the normal form a spec reads back as, and what a Create asks the cluster to run |
| `PageToken`, `Listing` | page tokens and pagination |
| `Registration`, `Units`, `Validation`, `Handler` | registration backoff, memory units, label pointers and violations, the validation gate |
| `Wrappers`, `StatusEvents`, `KubeObjects`, `ApiTypes`, `Dcm`, `Ordering`, `Decimal`, `GoInts` | shared types, labels, string order, decimal text, fixed-width integers |

## Where the code does less than it says

Each of these is proved with the exact condition under which the promise holds.

- **Replacing events (debouncer.go:28-29).** A Submit replaces the previous event of its instance
  exactly when the only submission of the instance still on its way to a publish is the running
  timer that the map holds (`DebouncerRuns.SubmitReplacesIff`, `SubmitKeepsOrderIff`). Two things
  break this. A callback between its expiry and its publish can still publish its older event, even
  after the newer one (`StalePublishCanComeLast`). And such a callback deletes the map entry of the
  timer that replaced it (debouncer.go:48), so that a later Submit finds no entry and leaves that
  timer running, although no callback is pending any more (`OrphanIsNotReplaced`).
- **Worst Pod first (REQ-MON-050).** A change of one Pod is reported as the status of the Pod in the
  notification, whatever the index holds by then. That is the most severe status in the index
  exactly when the notified Pod's priority is the highest there (`Reconcile.PodChangeAgreesIff`).
  Once everything is handled, the newest submission reports the most severe status exactly when the
  Pod it was about had the highest priority (`Convergence.SettledReportsWorstIff`). When the last
  notification handled was not a change of a Pod in a phase without a status, such as Succeeded,
  that notification alone decides (`LastHandledDecides`). A failed Pod can stay hidden behind a
  running one (`FailureStaysHidden`), a failure that is over can still be reported
  (`StaleChangeIsReported`), and a change that submits nothing can leave the worst Pod reported
  (`SilentChangeHidesNothing`) or an obsolete status in place (`ObsoleteStatusStays`).
- **Memory round trip.** API text comes back with the same bytes exactly when the canonical suffix
  is Mi, Gi or Ti. Zero, multiples of 2^50 (such as `1024TB`) and capped amounts do not come back
  (`Units.MemoryRoundTripIff`), so normalising a spec twice is normalising it once exactly for the
  other amounts and zero (`RoundTrip.NormalFormStableIff`).
- **Backoff.** The waits follow the capped exponential exactly when no doubling can wrap around 64
  bits (`Registration.BackoffFormulaIff`).
- **Name.** Create answers with the caller's name, Get with the generated one
  (`Store.CreateAnswersOldName`).

## Assumptions

- The debouncer's locked sections are atomic steps, and so are firing, the call of the publish
  function, its return and Done. In the timed model time cannot pass the deadline of a running
  timer; at the very instant of a deadline the order of expiry, Submit and Stop is free, which is
  why `PublishedIsWindowFilter` brackets the publishes between a strict and a weak filter and
  `PublishedExactly` asks that nothing falls exactly on a deadline.
- An informer updates its cache and queues its notification in one step; handlers run one at a
  time, at any later point, against caches that may be ahead. At any time an instance has at most
  one Deployment, and a Pod's or Deployment's instance label does not change.
- A failed API call has no effect, store operations run one after another, and generated name
  suffixes and the outcome of every call are the environment's choice.
- A `resource.Quantity` is its number of bytes, capped at 2^63 - 1 and printed canonically, as the
  Kubernetes library documents it.

## Model

| member | source | states |
|---|---|---|
| DebouncerObject.Debouncer.Submit | internal/monitoring/debouncer.go:30-54 | after Stop nothing happens; otherwise the instance's running timer is stopped and a new one becomes its map entry, and nothing else changes |
| DebouncerObject.Debouncer.CallbackLocked | internal/monitoring/debouncer.go:43-50 | the callback's locked section gives up after Stop, and otherwise removes the instance's entry and adds one to the wait group |
| DebouncerObject.Debouncer.CallPublish | internal/monitoring/debouncer.go:51-52 | a counted callback publishes its own submission's event, which was not published before |
| DebouncerObject.Debouncer.PublishReturns | internal/monitoring/debouncer.go:52-52 | the return of the publish function leaves everything but the callback's own phase alone |
| DebouncerObject.Debouncer.DeferredDone | internal/monitoring/debouncer.go:51-51 | once the publish function has returned, Done lowers the wait group by one and the callback is finished |
| DebouncerObject.Debouncer.StopLocked | internal/monitoring/debouncer.go:59-65 | Stop's locked section stops every mapped timer that is still running, empties the map and sets the flag |
| DebouncerObject.Debouncer.StopReturns | internal/monitoring/debouncer.go:66-66 | Stop returns only when the wait group is zero |
| DebouncerRuns.PublishedAtMostOnce | internal/monitoring/debouncer.go:42-53 | under every interleaving each accepted submission is published at most once |
| DebouncerRuns.MapEntryNamesNewest | internal/monitoring/debouncer.go:38-48 | a map entry always names the newest submission of its instance, one whose callback has not yet run its locked section |
| DebouncerRuns.QuiescentPublishedNewest | internal/monitoring/debouncer.go:8-9 | when no timer or callback has anything left to do before Stop, the newest submission of every instance has been published |
| DebouncerRuns.WaitGroupCountsCallbacks | internal/monitoring/debouncer.go:49-51 | the wait group is the number of callbacks between Add and Done, and zero exactly when there is none |
| DebouncerRuns.NoAddOnceStopped | internal/monitoring/debouncer.go:34-36 | once the flag is set no step accepts a submission, fills the map or starts another callback's publish |
| DebouncerRuns.SilentAfterStop | internal/monitoring/debouncer.go:56-67 | after Stop has returned, whatever follows: no publish is running, none ever starts, the map stays empty |
| DebouncerRuns.CallbacksCanFinish | internal/monitoring/debouncer.go:66-66 | from every reachable state the callbacks alone can run to the end, so the wait group reaches zero and Stop can return |
| DebouncerRuns.TimelyRunPublishesInOrder | internal/monitoring/debouncer.go:28-29 | if no Submit meets a callback of its instance between expiry and publish, publishes of an instance come in submission order and its last one is its newest submission |
| DebouncerRuns.SubmitReplacesIff | internal/monitoring/debouncer.go:28-54 | in every reachable state before Stop, a Submit replaces the earlier events of its instance exactly when the only live submission of the instance, if any, is the running timer that the map holds |
| DebouncerRuns.SubmitKeepsOrderIff | internal/monitoring/debouncer.go:38-53 | every later publish of the instance keeps submission order exactly when the publishes so far are in order and the same condition holds |
| DebouncerRuns.StalePublishCanComeLast | internal/monitoring/debouncer.go:38-53 | a run of two submissions whose last publish is the older one |
| DebouncerRuns.OrphanIsNotReplaced | internal/monitoring/debouncer.go:38-53 | a reachable state without any callback between expiry and publish in which a Submit still does not replace the event before it, because its timer has lost its map entry |
| TimedDebouncer.AfterKeepsInv | internal/monitoring/debouncer.go:30-67 | in every timed run a running timer is the newest of its instance and not overdue, a published submission survived its window, a stopped one met a newer submission or Stop no later than its deadline |
| DebouncerTrace.PublishedIsWindowFilter | internal/monitoring/debouncer.go:30-67 | for every history: a submission that nothing for its instance and no Stop follows up to its deadline is published; what is published met nothing before its deadline; publishes of an instance are in submission order |
| DebouncerTrace.PublishedExactly | internal/monitoring/debouncer.go:30-67 | away from ties the publishes of an instance are exactly the submissions that survive the window, in submission order |
| DebouncerTrace.TieGoesEitherWay | internal/monitoring/debouncer.go:30-54 | on a deadline the calls alone do not decide: two runs with the same submissions at the same times, of which only one publishes the first event |
| DebouncerTrace.InstancesAreIndependent | internal/monitoring/debouncer.go:30-54 | a run seen through one instance's calls, the clock and Stop is a run and publishes the same events for that instance |
| DebouncerTrace.TimeCanPass | internal/monitoring/debouncer.go:42-53 | no history is stuck: from each the clock can reach any later time without any further call |
| DebouncerTrace.TimedRunIsInterleaving | internal/monitoring/debouncer.go:42-53 | every timed run is one of the protocol's interleavings, with timely submissions only |
| Reconcile.LookupPod | internal/monitoring/monitor.go:216-241 | the lookup returns a Pod of highest priority, the first such one, and none exactly when there is no Pod |
| Reconcile.LookupReportsMostSevere | internal/monitoring/monitor.go:216-256 | lookup and reconciliation give the most severe of FAILED, UNKNOWN, PENDING, RUNNING present, and publish nothing if none is |
| Reconcile.LookupIgnoresOrder | internal/monitoring/monitor.go:225-240 | status and whether to publish do not depend on the order in which the index returns the Pods |
| Reconcile.DeploymentAloneVerdict | internal/monitoring/reconcile.go:32-45 | without a Pod a Deployment is FAILED when scaled to zero or with a true replica-failure condition, and PENDING otherwise |
| Reconcile.FailureReasonIsFirst | internal/monitoring/reconcile.go:50-60 | the failure reason is the first non-empty waiting or terminated reason, empty only if there is none |
| Reconcile.VerdictTells | internal/monitoring/reconcile.go:13-60 | status and message told from the objects: the Pod's phase with its name, a failed Pod with the first reason of its containers, a Deployment alone as scaled to zero, with its first replica failure's message or waiting for pods, and DELETED without either; nothing exactly for a Pod in a phase without a status |
| Reconcile.DeletedOnlyWhenGone | internal/monitoring/monitor.go:118-167 | DELETED comes out of a handler exactly when the Pod index is empty for the instance and its Deployment is the one being removed or, on a Pod removal, absent from the index |
| Reconcile.PodChangeAgreesIff | internal/monitoring/monitor.go:143-156 | for any notified Pod and any index content, also one that is ahead of the notification, a Pod change reports the most severe status in the index exactly when its priority is the highest there, 0 for an empty index |
| Reconcile.PodChangeCanHideFailure | internal/monitoring/monitor.go:153-155 | a change of a running Pod reports RUNNING beside a failed Pod |
| Monitor.Handle | internal/monitoring/monitor.go:118-189 | a handler submits one event under its object's instance, naming that instance and saying what its Deployment and Pod are to say, and submits nothing without an instance, for a Pod in a phase without a status or after Stop |
| Monitor.PublishWithRetry | internal/monitoring/monitor.go:191-214 | at most five attempts; none follows a success or a cancelled wait; the k-th wait is 10ms doubled k times; delivered exactly when the last attempt succeeded |
| Convergence.EveryRunKeepsInv | internal/monitoring/monitor.go:118-189 | in every run, an instance with no queued notification has as newest submission the verdict, when that verdict is to be published, on its cached Deployment and the cached Pod that the last notification handled speaks for: the changed Pod, or a worst Pod for any other notification; in any state the newest submission is the verdict on the last Deployment and Pod that had one |
| Convergence.EveryEventNamesItsInstance | internal/monitoring/monitor.go:178-189 | in every run each submitted event names the instance it is submitted under, never the empty one |
| Convergence.MonitorConverges | internal/monitoring/monitor.go:118-189 | once all notifications are handled and at most one Pod is left, and the verdict on the final Deployment and Pod is to be published, it is the newest submission, which a quiescent debouncer has published |
| Convergence.LastEventIsFinalVerdict | internal/monitoring/monitor.go:118-189 | when, in addition, no submission of the instance left an older one on its way, the last event published for the instance names it and carries the status and the message of the final Deployment and Pod |
| Convergence.PipelineCanSettle | internal/monitoring/monitor.go:118-189 | from every state before Stop the handlers can empty the queues and the callbacks can then publish all that was submitted, which settles every notified instance |
| Convergence.MonitorConvergesOnPhase | internal/monitoring/monitor.go:143-189 | with several Pods left the same holds of the status when they are all in the same phase |
| Convergence.SettledReportsWorstIff | internal/monitoring/monitor.go:143-189 | in every settled state, with any Pods, the newest submission reports the most severe status among the cached Pods exactly when the Pod it is about had the highest priority among them |
| Convergence.LastHandledDecides | internal/monitoring/monitor.go:143-189 | when a Pod with a status is left and the last notification handled was not a change of a Pod without one, the most severe status is reported exactly when it was not a change of a Pod below the highest priority |
| Convergence.StaleChangeIsReported | internal/monitoring/monitor.go:143-156 | a reachable state in which the handler reports FAILED while the index holds only a running Pod |
| Convergence.FailureStaysHidden | internal/monitoring/monitor.go:143-156 | a run after which an instance is settled on RUNNING although one of its cached Pods has failed |
| Convergence.SilentChangeHidesNothing | internal/monitoring/reconcile.go:13-30 | a settled run in which the last notification handled is a change of a succeeded Pod, and the newest submission still reports the failed Pod beside it |
| Convergence.ObsoleteStatusStays | internal/monitoring/reconcile.go:13-30 | a settled run whose newest submission is RUNNING although the only Pod has succeeded since |
| Units.MapOrderIsIrrelevant | internal/units/convert.go:36-56 | both conversions give the same result in whatever order Go reads their maps |
| Units.ConvertMemoryReads | internal/units/convert.go:36-43 | for texts of the API's pattern, digits followed by MB, GB or TB, the result is that many binary units, capped |
| Units.UnknownUnitIsRefused | internal/units/convert.go:36-43 | a text that ends in none of MB, GB and TB is an error |
| Units.MemoryRoundTripIff | internal/units/convert.go:36-56 | a quantity's API text reads back to the same bytes exactly when its canonical suffix is Mi, Gi or Ti, and is refused otherwise |
| Units.PebibyteIsLost | internal/units/convert.go:48-56 | 1024TB is accepted and its text is refused on the way back |
| Units.PrintedUnitIsLargest | internal/units/convert.go:48-56 | a quantity is printed in a binary unit that divides it, and no larger unit does |
| Units.PrintedTextParses | internal/units/convert.go:48-56 | the printed text of any quantity, whatever its suffix, denotes that quantity |
| Units.TextComesBackIff | internal/units/convert.go:36-56 | a text of the API's pattern is written back as it was exactly when it has no leading zero, its number is no multiple of 1024 and its bytes are within the cap |
| Convert.PortsWithVisibility | internal/kubernetes/store_create.go:17-28 | the ports other than none, in their order |
| Convert.ContainerObject.EnrichWithPod | internal/kubernetes/convert.go:150-165 | a Pod sets the status when its phase has one and the network address when it has one, and leaves ports and the rest of the spec alone |
| Convert.ContainerObject.EnrichWithService | internal/kubernetes/convert.go:169-213 | exactly the ports the Service targets take the visibility its type implies |
| RoundTrip.SpecRoundTrip | internal/kubernetes/convert.go:37-147 | what is read from the Deployment and Service built for any spec is the spec's normal form: same image, CPU, command, args, env, user labels and port order, memory in canonical text, empty parts absent, generated name |
| RoundTrip.NormalMemoryKeepsBytes | internal/kubernetes/convert.go:265-268 | the memory text read back means the same bytes exactly when they have a Mi, Gi or Ti suffix |
| RoundTrip.MemoryTextIff | internal/kubernetes/convert.go:97-108 | memory reads back in the very text of the spec under exactly that condition |
| RoundTrip.VisibilityRoundTrip | internal/kubernetes/convert.go:181-223 | with valid distinct ports, none reads back as none and every other port as external if any was external and as internal otherwise |
| RoundTrip.NoServiceIffAllNone | internal/kubernetes/store_create.go:82-85 | there is no Service exactly when all ports are none |
| RoundTrip.NormalFormStableIff | internal/kubernetes/convert.go:256-332 | apart from the name, normalising twice is normalising once exactly when both memory amounts are zero or have a Mi, Gi or Ti suffix |
| CreatedObjects.CreateAddsDeployment | internal/kubernetes/convert.go:256-332 | a successful Create adds one Deployment under the generated name, with one replica of one container named after the spec with its image, process, resources and ports, labels and selector of the instance, and Pods that the selector finds; without Pods it is pending |
| CreatedObjects.CreateAddsService | internal/kubernetes/store_create.go:82-85 | and one Service exactly when a port is visible, with one entry for each visible port to its own number, the configured type when a port is external and ClusterIP otherwise |
| Dcm.MergeThenFilter | internal/kubernetes/labels.go:12-17 | DCM labels win a merge, and filtering them out again leaves the user's own labels |
| Dcm.SelectorMeans | internal/dcm/labels.go:40-45 | the listing selects exactly the objects managed by dcm with service type container |
| Dcm.InstanceSelectorMeans | internal/dcm/labels.go:32-37 | an instance's listing selects exactly the objects managed by dcm with that instance id |
| StoreModel.MidCreateSafe | internal/kubernetes/store_create.go:57-103 | every state that an API call of Create can leave has one Deployment and one Service per instance at most and no Service without its Deployment |
| StoreModel.MidDeleteSafe | internal/kubernetes/store_delete.go:19-41 | the same of every state that an API call of Delete can leave |
| StoreMap.CreateRefines | internal/kubernetes/store_create.go:51-106 | Create on the cluster is Create on the map, for every combination of faults: it adds an absent instance under its normal form, and does so whenever no call fails and the generated names are free; a failed Create leaves the map alone unless the rollback failed too, which leaves the instance unexposed |
| StoreMap.DeleteRefines | internal/kubernetes/store_delete.go:11-42 | Delete on the cluster is Delete on the map: it removes a present instance and no other whenever no call fails; a failed Delete keeps its key, unexposed exactly when the Services were gone already; not found exactly when absent |
| StoreMap.GetRefines | internal/kubernetes/store_get.go:11-17 | Get answers with the map's entry and its exposure, status and address from the active Pod, and not found exactly when absent; with at most one Pod it succeeds whenever no call fails |
| StoreMap.SerialRunIsSafe | internal/kubernetes/store_create.go:57-103 | every state of every serial run with any faults is safe |
| StoreMap.SerialRunRefinesMap | internal/kubernetes/store_create.go:51-106 | in every such run every Create, Get and Delete changes the map and answers as the map's own operation does |
| StoreMap.GetAfterCreate | internal/kubernetes/store_get.go:11-17 | a Get after a successful Create answers with the spec's normal form and exposure, memory in the spec's own text when that is canonical |
| StoreMap.DeleteUndoesCreate | internal/kubernetes/store_delete.go:11-42 | a faultless Delete after a successful Create restores the map |
| Store.K8sContainerStore.FindDeployment | internal/kubernetes/store.go:46-60 | the only Deployment of the instance; not found exactly when there is none, conflict exactly when there are several |
| Store.K8sContainerStore.BuildContainer | internal/kubernetes/store.go:64-118 | succeeds exactly when no call fails and there are not too many Pods, and reads the spec from the Deployment and the only Service, status and address from the active Pod |
| StoreRead.ReadStepMeans | internal/kubernetes/store.go:84-127 | a read conflicts exactly for more than two Pods, or two while the Deployment is not rolling out, and takes the status of the one Pod or PENDING without any |
| StoreRead.SelectActivePod | internal/kubernetes/store.go:130-144 | the first running Pod or, when none is running, the first of the newest |
| StoreRead.ActiveIsUnique | internal/kubernetes/store.go:130-144 | a listing has one active Pod |
| Store.K8sContainerStore.Get | internal/kubernetes/store_get.go:11-17 | the error or the container for every cluster, Pod listing and combination of failing calls, and in a safe cluster the map's answer |
| Store.K8sContainerStore.Create | internal/kubernetes/store_create.go:51-106 | the final state and result for every combination of failing calls, and only safe stages on the way |
| Store.CreateAnswer | internal/kubernetes/store_create.go:108-124 | a successful Create answers with the given id, PENDING, and the caller's spec in the store's namespace |
| Store.K8sContainerStore.Delete | internal/kubernetes/store_delete.go:11-42 | Services go first and the Deployment last; the first failing call ends it and decides what is left; only safe stages on the way |
| Store.CreateAnswersOldName | internal/kubernetes/store_create.go:108-124 | Create's answer carries the caller's name, what Get reads carries the generated one |
| PageToken.Base64RoundTrip | internal/kubernetes/store_list.go:71-84 | decoding the base64 of any bytes gives the bytes |
| PageToken.AlphabetIsStandard | internal/kubernetes/store_list.go:71-71 | the alphabet is the one of section 4 of RFC 4648 |
| PageToken.GroupsHoldBits | internal/kubernetes/store_list.go:71-71 | four groups hold the bits of three bytes in order |
| PageToken.TestVectors | internal/kubernetes/store_list.go:71-71 | the test vectors of section 10 of RFC 4648 |
| PageToken.OffsetRoundTrip | internal/kubernetes/store_list.go:71-95 | the token of any offset decodes to that offset |
| PageToken.OffsetTokensDiffer | internal/kubernetes/store_list.go:71-71 | two offsets never share a token |
| PageToken.DecodePageToken | internal/kubernetes/store_list.go:79-95 | an accepted token decodes to an offset that is not negative |
| PageToken.TokenAcceptedIff | internal/kubernetes/store_list.go:79-95 | a token is accepted exactly when it is empty or the padded base64, line breaks aside, of an optional sign and digits of a number that is not negative and fits int64, which is its offset |
| Listing.PageBounds | internal/kubernetes/store_list.go:26-53 | for any offset a token can hold the page is a stretch of the list of at most the page size, 50 by default; unless the list ends there it is full and has a token, which decodes to where the page ends |
| Listing.FollowFromTheStart | internal/kubernetes/store_list.go:42-73 | with any page sizes following the tokens ends and the pages together are the list, each item once and in order |
| Listing.FollowGivesTheRest | internal/kubernetes/store_list.go:42-73 | the same from any accepted token for the rest of the list |
| Listing.SortedListingIsUnique | internal/kubernetes/store_list.go:42-44 | a cluster has one name-sorted listing, so pages of different calls fit together |
| Ordering.LessIsPrecedes | internal/kubernetes/store_list.go:42-44 | the order of names is the one that decides at the first place where they differ, a name before its extensions |
| Listing.List | internal/kubernetes/store_list.go:25-76 | invalid argument exactly for a refused token; otherwise List returns the page of the managed Deployments in that order of names with each container, status included, and the continuing token, exactly when the listing succeeds and every Deployment of the page can be read; otherwise the error of the first that cannot, so one instance with too many Pods refuses its whole page |
| Listing.WalkCoversCluster | internal/kubernetes/store_list.go:42-73 | the answers of successive calls that follow the tokens over a fixed cluster, with any page sizes, together hold one container for each Deployment in name order, after at most one call more than there are Deployments |
| Registration.BackoffFormulaIff | internal/registration/registration.go:148-177 | the waits are the initial one, then min(initial*2^k, max), exactly when the initial wait is zero or both bounds are at most half the largest duration |
| Registration.WaitsDoNotShrink | internal/registration/registration.go:173-176 | from an initial wait within the cap the waits never shrink and never exceed the cap |
| Registration.Run | internal/registration/registration.go:148-206 | it succeeds exactly when the last request was answered 200 or 201 and gives up exactly when it was answered 400 to 499; no request follows either or an observed cancellation; it goes on otherwise; the waits are the backoff sequence |
| Registration.Registrar.Start | internal/registration/registration.go:133-140 | any number of calls launches one run |
| Registration.Registrar.Goroutine | internal/registration/registration.go:134-139 | the launched goroutine closes the channel exactly when its run ends |
| Validation.EscapeIsCharwise | internal/handlers/container/validation.go:29-33 | the two replacement passes equal one character-wise escape |
| Validation.EscapeRoundTrip | internal/handlers/container/validation.go:29-33 | decoding ~1 and then ~0 restores every string |
| Validation.LabelPointerIs | internal/handlers/container/validation.go:35-37 | a label's pointer is the labels' path and the escaped key |
| Validation.LabelPointerInjective | internal/handlers/container/validation.go:35-37 | two labels never share a pointer |
| Validation.AllErrorsExact | internal/handlers/container/validation.go:49-104 | the errors are every violation of the spec, each exactly once with its own pointer |
| Validation.ErrorOrderIgnoresMapOrder | internal/handlers/container/validation.go:88-92 | the order of the errors does not depend on the order in which Go reads the reserved keys |
| Handler.CreateContainer | internal/handlers/container/handler.go:37-68 | the store is reached exactly when the id is not reserved, requests are within limits, memory is readable and no label is reserved; otherwise the cluster is untouched and the response carries all the errors |
| Handler.StorableIff | internal/handlers/container/validation.go:49-104 | that condition is the absence of violations |
| Handler.GateMakesBuildSafe | internal/kubernetes/convert.go:262-268 | behind the gate both conversions whose errors are dropped have succeeded, requests are within limits, and the user's labels are stored whole |

## Left out

- Units.ParseQuantity: reads decimal digits with an optional binary suffix only, as the API's pattern admits; signs, fractions, exponents and decimal suffixes of the library's grammar are outside the model, which calls them errors where the library reads them.
- Units.ConvertMemoryReads: is about the API's pattern for that reason; `1.5GB`, which the pattern excludes, is accepted by the code.
- DebouncerTrace.PublishedExactly: asks that nothing falls exactly on a deadline, where the order is the scheduler's and, as `TieGoesEitherWay` shows, the calls do not decide; `PublishedIsWindowFilter` covers those histories.
- Convergence.MonitorConverges: says that the newest submission has been published, not that no older event is published after it, which `DebouncerRuns.SubmitReplacesIff` shows can happen; `LastEventIsFinalVerdict` says when it does not.
- StoreMap.SerialRunRefinesMap: is about serial runs; the duplicate check of Create is not atomic with its creation, so concurrent calls for one id are not covered.
- StoreMap.GetRefines: leaves open for two Pods whether they conflict, which the Deployment's rollout status decides and the map does not show; `Store.K8sContainerStore.Get` says it.
- Registration.Run: is stated for every finite stretch of environment, as the real loop may go on for ever.
- A publish function that panics, and Stop called from within it.
- Pods created and deleted by Kubernetes after the store's calls, garbage collection, and API calls that take effect yet report failure; Pods appear as what a listing returns.
- Cluster address and external address of a Service in the API's service info, port names and protocols, additional properties, timestamps and creation times other than for choosing the active Pod.
- The wording of error details, log output, NATS and CloudEvents encoding, CheckHealth, the HTTP layer, configuration loading and the registration payload.
- Whether ByIndex or a type assertion in a handler can fail: the indexes exist and each informer delivers its own type.
- The OpenAPI middleware, which bounds page sizes and ports before the handlers; the theorems say where they rely on it.
