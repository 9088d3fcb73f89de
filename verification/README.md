# Adapter Fabric, modelled and proved

The adapter fabric decides which adapter of a base model may execute, on which worker process, and keeps the books
of what is loaded where. This project models its three hard parts and proves what they are for.

**The authority protocol.** `Fabric.dfy` is the registry and decision point: a class with the fields and methods
of `Fabric`, each method proved equal to a function on an immutable state. `FabricRuns.dfy` proves what every run
of those functions keeps, and `FabricLaws.dfy` says, part by part of the state and both ways round, what each
operation grants, takes, files and leaves alone. `Authority.dfy` is the pairwise reference check, and `Reuse.dfy`
asks which process a granted reuse relies on. `Coordinator.dfy` holds the state the coordinator's threads share
and its critical sections, again as a class over state functions. `CoordinatorRuns.dfy` makes every section, and
every gap between two sections of a request, an event, so that requests, worker replies, connections and
disconnects interleave arbitrarily; `Checks.dfy`, `Requests.dfy`, `Correlation.dfy`, `Tables.dfy`,
`Conservation.dfy` and `Holdings.dfy` prove what holds in all interleavings: which requests were checked, whose
commands were sent, which replies count, what the tables hold, and who holds memory. `Commands.dfy` is what a
forwarded command carries. `Worker.dfy` is the shipped worker, `Scenarios.dfy` plays whole runs from the
coordinator's start, and `Recovery.dfy` joins snapshots, codec and recovery.

**The strict codecs.** `Codec.dfy` defines formats and values, what it is for bytes to spell a value, and the
writer's spelling; soundness and completeness of decoding are proved once. `Envelope.dfy` adds the checksum and
the cursor classes; `AdapterCodec.dfy`, `SnapshotCodec.dfy` and `Protocol.dfy` prove the reading and writing loops
against formats and derive exact round trips, and `Layout.dfy` lists the bytes of each record. `Checksum.dfy`,
`Rng.dfy`, `Uuids.dfy` and `Compositions.dfy` carry the arithmetic and text they rest on, read back digit by digit
in `Texts.dfy`; `Transport.dfy` is the framing.

**Exact accounting.** `Capacity.dfy` is the accountant with its 64-bit arithmetic; it enters the protocol's load
and evict sections in `Conservation.dfy`.

Integers are unbounded and every width, wrap and saturation is written out. Strings are byte strings, enumerations
their byte codes, exceptions the error codes they carry. Maps keyed by identity text are keyed by the identity,
which `Uuids.TextInjective` justifies. An identity the source generates is a parameter. The program's `FNV_START`
is 1469598103934665603, which is not the usual FNV-1a basis; the model follows the code.

## What the code does not keep

These are proved, with the exact condition where there is one:

- A load whose acknowledgement is committed after its worker restarted makes the dead process's residency ready,
  and reuse of it can be granted to the new boot (`Reuse.LateLoadIsReused`, and from a coordinator just started
  `Scenarios.LateLoadFromTheStart`); readiness stays live exactly when no commit is late
  (`Reuse.ReadinessStaysLiveExactly`).
- With no late commit a granted reuse may still rely on another worker's instance, because neither the bind nor
  the reuse compares the fence's worker with the residency's (`Reuse.OtherWorkerIsGrantedReuse`). It names the
  process that holds the instance exactly when it names the residency's worker
  (`Reuse.ReuseNamesTheResidentProcess`), and a step keeps authority on that worker exactly when it does not bind
  elsewhere (`Reuse.HomeIsKeptExactly`).
- Creating an instance for the exclusive adapter takes its authority and leaves the exclusive fence, which shuts
  every other adapter out (`Reuse.RecreatingShutsOthersOut`, exactly then by `Reuse.ExclusiveStaysHeldExactly`).
- A load committed after its instance was evicted reserves memory for good (`Conservation.EarlyEvictionLeaks`,
  `Scenarios.LeakFromTheStart`); memory is leaked exactly by such commits (`Conservation.LeakedExactly`,
  `Conservation.LeakedInRunExactly`).
- The disconnect of an old connection takes down the worker's new process
  (`Scenarios.LateDisconnectTakesDownTheNewBoot`), exactly when the registered boot is another
  (`Scenarios.DetachTakesDownAnotherExactly`).
- At the saturated generation or epoch, re-registration or an epoch advance outdates nothing
  (`FabricRuns.ReregistrationIsForever`, `FabricRuns.EpochAdvanceIsForever`).
- A limit set below the use stops limiting (`Capacity.LimitHonouredExactlyWithinIt`).
- The shipped worker acknowledges one byte for every load, whatever the adapter's size, because the command
  carries none (`Correlation.GoodResultsWereHandled`).

Where the code and its own names or comments disagree the model follows the code: the checksum called FNV-1a
starts from another constant, and a disconnect fails every pending entry, although the function doing so takes a
worker.

## Model

| member | source | states |
|---|---|---|
| `FabricRuns.AuthorityIsExclusiveAndLive` | src/fabric.cpp:157-172 | In every run of fabric operations from an empty fabric, at most one adapter record has authority or an active lifecycle; its fence is the exclusive fence, names a registered worker connected under exactly that boot, and carries the recorded attempt |
| `FabricRuns.StepKeepsAuthority` | src/fabric.cpp:91-285 | Every operation, one at a time, keeps the joint invariant behind exclusivity (records filed under their adapter, active iff has_authority, authority implies the exclusive fence and a live process) |
| `FabricRuns.RunKeepsAuthority` | src/fabric.cpp:91-285 | The same over whole runs from any state that has the invariant |
| `FabricRuns.RegistryAndPairwiseChecksAgree` | src/authority.cpp:25-44 | While a record holds authority under a fence that is still current, the pairwise check against that fence authorizes a candidate for the adapter exactly when check_fence does and the candidate names the same worker |
| `FabricRuns.EpochAdvanceIsForever` | include/adapter_fabric/fabric.hpp:47 | Advancing the epoch makes an authorized fence stale in every later state if and only if the epoch was not saturated |
| `FabricRuns.ReregistrationIsForever` | src/fabric.cpp:25-35 | Registering the same adapter again makes a fence authorized before stale in every later state if and only if its generation was not saturated |
| `FabricRuns.RunMovesForward` | include/adapter_fabric/generation.hpp:26-31 | Over any run the epoch and the generation counter never decrease and a registered generation never goes back |
| `Generations.Next` | include/adapter_fabric/generation.hpp:26-31 | The next generation is never none, never smaller, and strictly larger exactly below the largest value |
| `FabricRuns.NoResurrection` | src/fabric.cpp:252-285 | After a worker goes down or registers under another boot, no fence naming the earlier boot is checked, bound or reused, and no record has authority under it, in any continuation that does not register that boot again |
| `FabricRuns.InvalidationLasts` | src/fabric.cpp:185-203 | Invalidation ends an adapter's authority and denies every reuse until a fence is bound for it again, leaves other records alone, frees the exclusive fence, and its log entry is kept for good |
| `FabricRuns.OnlyBindingGrants` | src/fabric.cpp:157-172 | An adapter without authority gets it in no run that does not bind a fence for it |
| `Reuse.ReadinessStaysLiveExactly` | src/coordinator.cpp:167 | Ready residencies keep naming live worker processes through a step exactly when the step is not a load committed after its process died |
| `Reuse.TimelyRunsKeepReadinessLive` | src/fabric.cpp:260-284 | Over runs whose load commits are all timely, every ready residency's process is alive |
| `Reuse.ReuseNamesTheResidentProcess` | src/fabric.cpp:175-183 | With live readiness, a granted reuse names the worker process that holds the instance if and only if its fence names the residency's worker |
| `Reuse.OtherWorkerIsGrantedReuse` | src/fabric.cpp:157-183 | Negative result: with the load committed in time and readiness live, a second worker is granted reuse of an instance that lives on the first, whatever the adapter and identities |
| `Reuse.HomeIsKeptExactly` | src/fabric.cpp:157-172 | Authority stays with the worker its instance is on through a step if and only if the step is no granted bind of a fence naming another worker than the resident instance's, and no creation repeating the identity of another authorized instance |
| `Reuse.ReuseAtHomeNamesTheProcess` | src/fabric.cpp:157-183 | Over runs of timely commits and binds at home, a granted reuse names the process holding the instance exactly when its fence names the worker the adapter's authority is bound to |
| `Reuse.ExclusiveStaysHeldExactly` | src/fabric.cpp:91-121 | The exclusive fence stays that of a record with authority through a step if and only if the step creates no instance for the exclusive adapter |
| `Reuse.RecreatingShutsOthersOut` | src/fabric.cpp:91-121 | Negative result: after such a creation nobody has authority, the exclusive fence stays, and every other adapter is refused, a current fence of it with a conflict |
| `Reuse.LateLoadIsReused` | src/coordinator.cpp:161-167 | Negative result: after a load committed behind its worker's restart, the new boot is granted reuse of an instance that lived in the dead one, whatever the adapter and identities |
| `FabricRuns.PublishExactly` | src/fabric.cpp:54-68 | Publishing succeeds exactly on non-empty lists of distinct registered adapters of one base model revision without target clashes; the result lists them in order at their registered generations; a refusal changes nothing |
| `FabricRuns.AddAllExactly` | src/fabric.cpp:59-63 | Adding the listed adapters one by one succeeds exactly when all are registered and together admissible, and then yields them in order |
| `FabricRuns.RunKeepsRegistry` | src/fabric.cpp:25-89 | In every run fed by decoded messages, adapters, compositions and workers are filed under their ids, are fit for the snapshot codec, and generations stay behind the counter |
| `FabricRuns.PinnedInstancesStay` | src/fabric.cpp:205-227 | An instance unpinned less often than pinned stays resident through any run, with an exact pin count, and its eviction is refused without effect |
| `Fabrics.Fabric.Register` | src/fabric.cpp:25-35 | The method in the source's order of checks has exactly the effect of the state function that FabricLaws.RegisteredExactly and the run theorems describe |
| `Fabrics.Fabric.Publish` | src/fabric.cpp:54-68 | As above, through the composition builder, including which error wins |
| `Fabrics.Fabric.Create` | src/fabric.cpp:91-121 | As above: a new residency and a fresh record without authority |
| `Fabrics.Fabric.Check` | src/fabric.cpp:133-155 | The cascade of early returns yields the verdict that FabricLaws.AuthorizedExactly and RefusedExactly describe |
| `Fabrics.Fabric.Bind` | src/fabric.cpp:157-172 | As above (FabricLaws.BoundExactly): verdict, conflict, missing record, or the bound record, attempt and exclusive fence |
| `Fabrics.Fabric.Reuse` | src/fabric.cpp:175-183 | Authorized only for a current fence, a record with authority and a ready residency |
| `Fabrics.Fabric.InvalidateAdapter` | src/fabric.cpp:185-203 | As above, with the log entry |
| `Fabrics.Fabric.EvictInstance` | src/fabric.cpp:205-213 | As above, with the reason of a refusal |
| `Fabrics.Fabric.PinInstance` | src/fabric.cpp:215-220 | As above, with the 32-bit wrap of the count |
| `Fabrics.Fabric.UnpinInstance` | src/fabric.cpp:222-227 | As above |
| `Fabrics.Fabric.WorkerDown` | src/fabric.cpp:252-267 | Two loops over the maps rewrite exactly the entries of that worker and erase their attempts, whatever the order of iteration; other workers keep theirs (FabricLaws.OtherWorkersAreLeftAlone) |
| `Fabrics.Fabric.WorkerRestart` | src/fabric.cpp:269-285 | The same for entries of that worker under another boot |
| `Fabrics.Fabric.TakeSnapshot` | src/fabric.cpp:229-238 | The snapshot lists each registry in key order |
| `Fabrics.Fabric.RecoverFrom` | src/fabric.cpp:240-250 | Replaces the registries and generations and leaves authority, residencies and attempts as they were |
| `Recovery.ListingRebuilds` | src/fabric.cpp:229-250 | A registry's listing is strictly in key order, complete, and rebuilding from it gives the registry back |
| `Recovery.SnapshotIsOk` | src/persistence.cpp:179-225 | The snapshot of a well-filed fabric with at most 100000 adapters, compositions and workers is one the strict decoder accepts |
| `Recovery.Restart` | src/fabric.cpp:229-250 | For every state reachable by wire-fed operations within those counts: serialize, deserialize and recover into a new fabric succeeds, rebuilds equal registries, and holds no authority, residency, exclusive fence or attempt |
| `Recovery.RecoveryRestoresRegistries` | src/fabric.cpp:240-250 | Recovering a fabric's own snapshot into a fresh one equals it in every registry and generation, with no authority, residency or attempt |
| `Recovery.NothingGrantedBeforeAnInstance` | src/fabric.cpp:157-183 | After any recovery no fence is bound or reused in any continuation before an instance is created |
| `Recovery.LastEntryWins` | src/fabric.cpp:240-250 | A registry rebuilt from a list holds exactly the listed ids, each with its last entry |
| `Recovery.RecoveryKeepsHoldings` | src/fabric.cpp:240-250 | Recovery takes epoch, counters and registries from the snapshot alone and keeps every record, attempt, residency, log entry and the exclusive fence |
| `FabricLaws.AuthorizedExactly` | src/fabric.cpp:133-155 | A fence is authorized if and only if its adapter is registered, not nil, at its epoch, generation and base revision, worker, boot and attempt are there, the worker is connected under that boot, a recorded attempt is the fence's, and the three generations are those of the record, or 1 |
| `FabricLaws.RefusedExactly` | src/fabric.cpp:133-155 | For each refusal, exactly the fences that get it: the first disagreement in the order of the checks decides |
| `FabricLaws.ReusedExactly` | src/fabric.cpp:175-183 | Reuse is granted if and only if the fence is current and its adapter has authority and a ready, resident instance |
| `FabricLaws.RecordedAttemptsAreSet` | src/fabric.cpp:157-172 | In every run from an empty fabric no recorded attempt is nil |
| `FabricLaws.AuthorityWasGranted` | src/fabric.cpp:157-172 | In every run a record with authority has a complete fence that some bind of the run was granted |
| `FabricLaws.BoundExactly` | src/fabric.cpp:157-172 | A bind is granted if and only if the fence is current, its adapter has a record, and the exclusive fence is none or of that adapter; exactly when each error is returned; what is not granted changes nothing |
| `FabricLaws.BindingAgainChangesNothing` | src/fabric.cpp:157-172 | A fence that was bound is current and binding it again is granted and changes nothing |
| `FabricLaws.BindLeavesOthersAlone` | src/fabric.cpp:157-172 | A granted bind leaves every other record and attempt, all registrations, residencies and the log as they were |
| `FabricLaws.AuthorityIsLostExactly` | src/fabric.cpp:91-285 | In every step a record with authority loses it if and only if its worker goes down or joins under another boot, it is invalidated, or an instance is created for it while registered; otherwise, unless a fence for it is bound, its fence stays and stays exclusive |
| `FabricLaws.AuthorityIsGainedExactly` | src/fabric.cpp:91-285 | In every step a record without authority gains it if and only if a fence for it is granted |
| `FabricLaws.OtherWorkersAreLeftAlone` | src/fabric.cpp:252-285 | A worker going down or joining leaves the registrations, records, attempts, residencies and exclusive fence of every other worker as they were, and drops the attempts of the records it clears |
| `FabricLaws.HoldingsAfterStep` | src/fabric.cpp:91-285 | For each of the thirteen operations: what every adapter's record and attempt and the exclusive fence are afterwards |
| `FabricLaws.ResidencyAfterStep` | src/fabric.cpp:91-285 | For each of the thirteen operations: what every residency is afterwards |
| `FabricLaws.RegistriesAfterStep` | src/fabric.cpp:25-89 | For each of the thirteen operations: what every registration, the epoch and the counters are afterwards |
| `FabricLaws.LogAfterStep` | src/fabric.cpp:185-203 | The log gains the record of an invalidation, with its epoch and the registered generation, and nothing else |
| `FabricLaws.RegisteredExactly` | src/fabric.cpp:25-35 | A registration succeeds if and only if the descriptor is registrable; what it files and returns is that descriptor at the counter's value; every other adapter stays; a refusal changes nothing and says which field is missing |
| `FabricLaws.AdaptersAreTheLastRegistered` | src/fabric.cpp:25-35 | In every run an adapter's descriptor is that of its last registrable registration, numbered by the registrations until then, up to saturation |
| `FabricLaws.LastRegisteredExactly` | src/fabric.cpp:25-35 | An adapter has such a last registration if and only if some registrable operation of the run was for it |
| `FabricLaws.WorkersAreTheLastJoined` | src/fabric.cpp:70-89 | In every run the epoch counts the advances up to saturation, and a worker's record is that of its last join, disconnected if it went down since |
| `FabricLaws.CompositionsAfterStep` | src/fabric.cpp:54-68 | For each of the thirteen operations: what every composition and the composition counter are afterwards |
| `FabricLaws.PublishMissesExactly` | src/fabric.cpp:54-68 | Publishing reports not_found if and only if the first adapter that stops it is not registered |
| `FabricLaws.EvictedExactly` | src/fabric.cpp:205-213 | An eviction succeeds if and only if the instance is resident, unused, unpinned and unprotected; exactly when each refusal is given |
| `Coordinators.CoordinatorServer.RegisterWorker` | src/coordinator.cpp:70-75 | Worker registration and restart handling as one section |
| `Coordinators.CoordinatorServer.AbortPending` | src/coordinator.cpp:100-107 | The loop fails every pending entry that is not done, whichever worker it waits for, and no other |
| `Coordinators.CoordinatorServer.ForwardToWorker` | src/coordinator.cpp:109-127 | Running one forwarded request through its sections: an unreachable worker, a failed send, or the answer posted to this request, and what each leaves in the tables |
| `Coordinators.CoordinatorServer.CreateForLoad` | src/coordinator.cpp:161 | The section that creates the instance of a load |
| `Coordinators.CoordinatorServer.CommitLoad` | src/coordinator.cpp:167 | The section that commits a load: residency and reservation, a refused reservation ignored |
| `Coordinators.CoordinatorServer.EvictAndRelease` | src/coordinator.cpp:211 | The eviction section: release of the recorded bytes, a refused release ignored |
| `Coordinators.CoordinatorServer.BindChecked` | src/coordinator.cpp:179 | The section that binds after a good activation reply |
| `CoordinatorRuns.InterleavingsAreFabricRuns` | src/coordinator.cpp:55-218 | However requests, replies, connections and disconnects interleave, the coordinator's fabric is the result of some sequence of fabric operations, all within the bounds of the wire |
| `CoordinatorRuns.EventOnFabric` | src/coordinator.cpp:55-218 | Each event's effect on the fabric is no operation or the one named |
| `CoordinatorRuns.CoordinatorIsSafe` | src/coordinator.cpp:55-218 | In every reachable coordinator state: the authority invariant, at most one record with authority whose fence is the exclusive one, and registries fit to be saved |
| `Correlation.StepKeepsCorrelation` | src/coordinator.cpp:82-127 | Every event keeps the invariant tying requests, ids, entries, held messages and sent commands together |
| `Correlation.RequestIdsAreDistinct` | src/coordinator.cpp:165 | No two requests ever have the same id |
| `Correlation.AcceptedWhilePending` | src/coordinator.cpp:83-86 | Every accepted reply was read from a worker connection while its request id was pending |
| `Correlation.GoodResultsAreReplies` | src/coordinator.cpp:109-127 | A load, activation, deactivation or migration ends well only on an ok reply carrying its own id, accepted while it was pending, after being sent as exactly its own command; for a load or activation an earlier check of its own authorized its fence |
| `Correlation.GoodActivationsWereCurrent` | src/coordinator.cpp:172-183 | A successful activation had its fence authorized in the very section that bound it, which left that fence exclusive and its record in authority |
| `Checks.CheckRefusesExactly` | src/coordinator.cpp:156-175 | The check of a load or activation lets it go on if and only if its fence is authorized then; otherwise the request ends not ok and nothing else changes |
| `Checks.PassedWasChecked` | src/coordinator.cpp:156-183 | In every run a load or activation past its start and not refused had its fence authorized at an earlier check event of its own |
| `Requests.GeneratedWasChecked` | src/coordinator.cpp:156-161 | In every run each generated instance is that of a load whose fence was authorized at its check |
| `Requests.SentWasChecked` | src/coordinator.cpp:156-183 | In every run each load or activation command sent is that of a request whose fence was authorized at its check |
| `Requests.GeneratedForALoad` | src/coordinator.cpp:161 | In every run each generated instance belongs to a load |
| `Requests.SentForARequest` | src/coordinator.cpp:109-127 | In every run each command sent is the one its request forwards |
| `Requests.SentWasFound` | src/coordinator.cpp:109-117 | A command is sent only after its worker's text was looked up and led to a connected slot |
| `Commands.CommandCarriesItsRequest` | src/coordinator.cpp:162-212 | Every forwarded command decodes on the wire to itself, has the kind and id of its request, names its adapter or instance, and its payload decodes to the request's fence where it has one |
| `Commands.SameCommandSameRequest` | src/coordinator.cpp:162-212 | Equal commands have the same id, kind, identity, fence and instance |
| `Tables.PendingExactly` | src/coordinator.cpp:109-127 | In every run the pending table holds exactly the ids of the requests being forwarded |
| `Tables.EntryAfterStep` | src/coordinator.cpp:82-127 | For each event: what every pending entry is afterwards |
| `Tables.PendingAfterStep` | src/coordinator.cpp:109-127 | For each event: which ids are pending afterwards |
| `Tables.AbortLeavesNobodyWaiting` | src/coordinator.cpp:93-107 | After the abort of a disconnect every waiting request can go on, with the reply it had or the disconnection |
| `Tables.SlotAfterStep` | src/coordinator.cpp:60-97 | For each event: what every slot is afterwards |
| `Tables.WorkerTableAfterStep` | src/coordinator.cpp:60-70 | For each event: a worker's text leads to the last slot made for it |
| `Tables.LinkAfterStep` | src/coordinator.cpp:55-107 | For each event: what every connection is doing afterwards |
| `Tables.FabricMovesExactly` | src/coordinator.cpp:55-218 | Each event moves the fabric by exactly the operation it is behind, and by none otherwise |
| `Tables.LoadCreatesExactly` | src/coordinator.cpp:161 | The instance of a load is created for its adapter, on the process its fence names, at the registered size and generation, not ready |
| `Tables.BeginsExactly` | src/coordinator.cpp:187-211 | An eviction begins well if and only if its instance is resident and evictable, an invalidation always |
| `Tables.CommitsExactly` | src/coordinator.cpp:164-216 | A request ends well if and only if its reply is good and, for an activation, its fence is granted in that section; an eviction or invalidation as it began |
| `Tables.EvictionsEndExactly` | src/coordinator.cpp:187-216 | In every run an eviction or invalidation is worth at its end what it was worth in its first section |
| `Correlation.RepliesWereMade` | src/worker.cpp:29-32 | In runs with honest workers every reply was made by a worker handling the command sent under that id |
| `Correlation.GoodResultsWereHandled` | src/worker.cpp:34-47 | With honest workers a good result means a worker handled that very command and this is its answer; a good load records one byte, because no load command states a size |
| `Workers.WorkerService.HandleCommand` | src/worker.cpp:34-64 | Answers exactly the five commands, once, positively, under the command's id, with the bytes and note of its kind, and keeps the specified local residency |
| `Workers.WorkerService.Serve` | src/worker.cpp:66-73 | Commands are handled in order until a shutdown, and the answers are appended in command order; every answer belongs to a handled command and the count is exact |
| `Workers.HoldsTheLastLoaded` | src/worker.cpp:34-64 | After any commands a worker holds exactly the adapters whose last load was not followed by an invalidation, each with the bytes of that load, at least one |
| `Conservation.LoadsAndEvictionsBalance` | src/coordinator.cpp:156-216 | In every interleaving the books balance within the limits, a resident instance holds nothing or exactly its recorded bytes, and nothing else is held but by an instance some event of the run leaked; once nothing is resident the accountant is clean if and only if no event did |
| `Conservation.LeakedExactly` | src/coordinator.cpp:167 | In every step: memory is held for an absent instance afterwards if and only if it was before, or the step commits an acknowledged load of that instance after it is gone, with bytes that fit |
| `Conservation.LeakedInRunExactly` | src/coordinator.cpp:167 | Over every run from the start: memory is held for an absent instance at the end if and only if some event of the run was such a commit |
| `Conservation.StepConserves` | src/coordinator.cpp:156-216 | Every event keeps that account, and never changes what an abandoned instance holds |
| `Conservation.AbandonedHoldingsStay` | src/coordinator.cpp:208-216 | What an instance that is gone holds is neither released nor grown in any continuation |
| `Conservation.EarlyEvictionLeaks` | src/coordinator.cpp:167-211 | Negative result: from any state with a waiting load whose instance is resident and unprotected, evicting it before the reply leaves the acknowledged bytes reserved for good |
| `Holdings.HoldingAfterStep` | src/coordinator.cpp:167-211 | For each event and instance: what it holds afterwards, the acknowledged bytes if they fit at its commit, nothing at its eviction, and otherwise what it held; no limit moves |
| `Holdings.HeldExactly` | src/coordinator.cpp:156-216 | In every run an instance holds a number of bytes if and only if its load was committed with that acknowledgement while it fitted, and no event since then evicted it |
| `Scenarios.LeakFromTheStart` | src/coordinator.cpp:156-216 | Such a state is reached, and the leak happens, in a run of a coordinator just started with honest workers: join, load, evict, reply |
| `Scenarios.LateLoadFromTheStart` | src/coordinator.cpp:156-183 | The late load is such a run too: its fabric operations are exactly those of the late-load result, and reuse is granted to the new boot |
| `Scenarios.DetachTakesDownAnotherExactly` | src/coordinator.cpp:93-97 | The disconnect of a connection takes down a process that is not its own if and only if the worker is registered as connected under another boot |
| `Scenarios.LateDisconnectTakesDownTheNewBoot` | src/coordinator.cpp:60-97 | Negative result: from a coordinator just started, a worker that joined again is registered as disconnected once its first connection is cleaned up, although its new one serves |
| `Scenarios.ForwardedAsEvents` | src/coordinator.cpp:109-127 | Run as events, a forwarded and answered request leaves the shared state and result that the method for it does |
| `Capacity.ReserveIsExact` | src/capacity.cpp:18-28 | With balanced books a reservation succeeds exactly when the owner holds nothing there and the bytes are free; it then changes that balance alone; a refusal changes no balance; nothing wraps |
| `Capacity.ReleaseIsExact` | src/capacity.cpp:30-40 | The same for a release, partial ones included |
| `Capacity.RunsKeepTheBooks` | src/capacity.cpp:18-67 | Over any run whose limits are never set below use: use equals the sum of all holdings at every location, within the limit |
| `Capacity.CleanExactly` | src/capacity.cpp:65 | Clean exactly when every owner holds nothing everywhere |
| `Capacity.ReleaseUndoesReserve` | src/capacity.cpp:18-40 | Releasing what was reserved succeeds and restores every balance |
| `Capacity.LimitHonouredExactlyWithinIt` | src/capacity.cpp:23 | The limit is honoured exactly while use is within it; below it the unsigned difference wraps and even one byte is accepted |
| `Capacity.CapacityAccountant.ReserveBytes` | src/capacity.cpp:18-28 | The method, with its wrapping subtraction and the zero entry a look-up leaves, has the specified effect |
| `Capacity.CapacityAccountant.ReleaseBytes` | src/capacity.cpp:30-40 | As above |
| `Capacity.CapacityAccountant.AdjustBytes` | src/capacity.cpp:42-48 | As above |
| `Capacity.CapacityAccountant.Clean` | src/capacity.cpp:65 | The loop over the uses decides cleanliness |
| `Codec.DecodeIsSound` | src/persistence.cpp:29-53 | Whatever a strict format accepts satisfies the format, and the bytes consumed spell it |
| `Codec.DecodeIsComplete` | src/persistence.cpp:29-53 | Every spelling of an acceptable value decodes to it, whatever follows |
| `Codec.EncodeIsThePlainSpelling` | src/persistence.cpp:16-26 | Among all spellings of a value the writer's is the one whose boolean bytes are 0 or 1 |
| `Envelope.AcceptedExactly` | src/persistence.cpp:29-36 | A sealed payload is accepted as a value exactly when its checksum matches, it spells the value and nothing follows |
| `Envelope.RoundTripExactly` | src/persistence.cpp:26-53 | Sealing and unsealing returns the value if and only if the value satisfies the format |
| `Envelope.ReencodingIsCanonical` | src/persistence.cpp:89-122 | Re-encoding an accepted payload decodes to the same value, and gives the same bytes exactly when its boolean bytes are 0 or 1 |
| `Envelope.AppendedPayloadIsRefused` | src/persistence.cpp:51-53 | Appending any bytes to an accepted payload, with the checksum recomputed, is refused as trailing garbage |
| `Envelope.TruncatedPayloadIsRefused` | src/persistence.cpp:38-40 | Every proper prefix of an accepted payload, with the checksum recomputed, is refused |
| `Envelope.OneChangedByteIsDetected` | src/persistence.cpp:26-36 | Changing exactly one byte of a sealed payload, the checksum included, is always refused as a checksum mismatch |
| `Envelope.ChangedChecksumIsDetected` | src/persistence.cpp:26-36 | So is replacing the stored checksum by any other eight bytes |
| `Envelope.BinWriter.Number` | src/persistence.cpp:16-19 | The byte loop appends the little-endian bytes |
| `Envelope.BinWriter.Close` | src/persistence.cpp:26 | Appends the checksum of everything written |
| `Envelope.BinReader.Create` | src/persistence.cpp:29-36 | Refuses short input and a wrong checksum, and otherwise starts at the payload |
| `Envelope.BinReader.Number` | src/persistence.cpp:42-45 | Reads exactly what the format says or reports truncation, never past the payload end |
| `Envelope.BinReader.Str` | src/persistence.cpp:49 | As above for strings, with the length check |
| `Envelope.BinReader.ExpectEnd` | src/persistence.cpp:51-53 | Accepts exactly at the payload end |
| `AdapterCodec.WriteDesc` | src/persistence.cpp:59-83 | The nested loops write exactly the descriptor's encoding |
| `AdapterCodec.ReadDesc` | src/persistence.cpp:89-122 | The nested loops read exactly the descriptor format: same value, same rest, same error |
| `AdapterCodec.AdapterFitsExactly` | src/persistence.cpp:85-122 | A descriptor satisfies the strict format exactly when its enumerations, caps, version and generation are valid |
| `AdapterCodec.AdapterRoundTrip` | src/persistence.cpp:125-141 | Serialize then deserialize returns the descriptor if and only if it is valid |
| `SnapshotCodec.ReadComposition` | src/persistence.cpp:191-210 | Reads one composition with its running total, digest and emptiness checks |
| `SnapshotCodec.ReadAdapters` | src/persistence.cpp:188-189 | Reads the adapters and refuses a repeated id |
| `SnapshotCodec.ReadWorkers` | src/persistence.cpp:211-222 | Reads the workers and refuses a repeated id |
| `SnapshotCodec.SerializeSnapshot` | src/persistence.cpp:143-177 | The loops write exactly the snapshot's encoding, sealed |
| `SnapshotCodec.DeserializeSnapshot` | src/persistence.cpp:179-225 | The loops decode exactly the snapshot format: same value or same error |
| `SnapshotCodec.SnapshotFitsExactly` | src/persistence.cpp:179-225 | A snapshot satisfies the strict format exactly when ids are distinct, counts within the caps, and every record valid, digests and mod-2^64 totals included |
| `SnapshotCodec.SnapshotRoundTrip` | src/persistence.cpp:143-225 | Serialize then deserialize returns the snapshot if and only if it is well formed |
| `Layout.DescLayout` | src/persistence.cpp:59-83 | The bytes of a descriptor are its fields and counted lists, one after another in the written order |
| `Layout.SnapshotLayout` | src/persistence.cpp:143-177 | The bytes of a snapshot are format, epoch, counters and the three counted registries, every field of every record in the written order |
| `Protocol.FenceRoundTrip` | src/protocol.cpp:56-85 | Every fence survives its codec |
| `Protocol.MessageRoundTrip` | src/protocol.cpp:87-122 | A message survives its codec if and only if its texts and payload fit their 32-bit lengths |
| `Layout.FenceLayout` | src/protocol.cpp:56-66 | The bytes of a fence are its thirteen fields in their order |
| `Layout.MessageLayout` | src/protocol.cpp:87-102 | The bytes of a message are its fields in their order, the payload last and counted |
| `Protocol.DecodeMessage` | src/protocol.cpp:104-122 | Decodes exactly the message format, the payload length checked against the whole size first |
| `Protocol.AppendedMessageIsRefused` | src/protocol.cpp:117-120 | Appended bytes are refused, although they also raise the payload length check |
| `Protocol.TruncatedMessageIsRefused` | src/protocol.cpp:117-120 | Every proper prefix of an accepted message is refused |
| `Checksum.Fnv1a64` | include/adapter_fabric/checksum.hpp:14-21 | The loop computes the fold of xor and multiplication mod 2^64 |
| `Checksum.StepLosesNothing` | include/adapter_fabric/checksum.hpp:14-21 | Each step is injective in the hash and in the byte, because the multiplier is invertible mod 2^64 |
| `Checksum.OneChangedByteChangesFnv` | include/adapter_fabric/checksum.hpp:14-21 | Changing one byte anywhere changes the result, from any starting hash |
| `Texts.StepOfLowByte` | include/adapter_fabric/checksum.hpp:14-21 | A step changes the low byte of the hash alone and then multiplies |
| `Texts.XorBit` | include/adapter_fabric/checksum.hpp:14-21 | The exclusive or computed on numbers is that of their bits |
| `Rng.MixInjective` | include/adapter_fabric/rng.hpp:25-30 | The output scrambler is injective on 64-bit states |
| `Rng.OutputsDistinctForAFullPeriod` | include/adapter_fabric/rng.hpp:25-30 | Any 2^64 consecutive outputs are pairwise distinct |
| `Rng.Rng.Fill` | include/adapter_fabric/rng.hpp:33-41 | The buffer receives the stream's bytes, the last word cut short |
| `Uuids.Str` | src/uuid.cpp:18-29 | The index loop fills the 36 characters of the canonical text |
| `Uuids.Parse` | src/uuid.cpp:31-48 | Accepts exactly the texts that are canonical up to letter case, returns the identity whose text is the lower-case form, and stays in bounds |
| `Uuids.ParseOfStr` | src/uuid.cpp:18-48 | Parsing a printed identity gives it back |
| `Uuids.TextInjective` | src/uuid.cpp:18-29 | Distinct identities print differently, so map keys made of texts identify |
| `Texts.TextIsHexInGroups` | src/uuid.cpp:18-29 | The text is the hexadecimal of five byte groups joined by dashes |
| `Uuids.Generate` | include/adapter_fabric/uuid.hpp:39-46 | A generated identity is the next sixteen bytes of the stream with the version and variant bits set, and never nil |
| `Compositions.CanonicalInjective` | src/composition.cpp:31-42 | Equal hashed texts mean equal ordered members, in every field, and equal policies |
| `Texts.CanonicalAsPieces` | src/composition.cpp:31-42 | The hashed text is five fields a member, each with its terminator, then the policy after an at sign |
| `Texts.DecimalReads` | src/composition.cpp:37-39 | A printed number is read back from its digits, without leading zeros |
| `Texts.HexReads` | src/composition.cpp:43-46 | Each byte of the digest is read back from its two digits, the upper first |
| `Texts.TotalIsTheSum` | src/composition.cpp:70-91 | The running total is the sum of all members' bytes modulo 2^64 |
| `Compositions.ComputeDigest` | src/composition.cpp:31-47 | The appending loop hashes exactly the canonical text |
| `Compositions.CompositionBuilder.Add` | src/composition.cpp:15-29 | Succeeds exactly when the extended list is admissible; a refusal leaves the builder as it was |
| `Compositions.CompositionBuilder.Build` | src/composition.cpp:49-97 | Succeeds exactly on non-empty members without target clashes; total, digest and summary are those of the members |
| `Transport.FrameIsReadBackExactly` | src/transport.cpp:103-130 | A frame is read back, whatever follows, if and only if its payload is at most 64 MiB |
| `Transport.TakenIsAFrame` | src/transport.cpp:117-130 | Whatever is accepted as a frame is the frame of the payload returned |
| `Transport.DamagedFrameIsRefused` | src/transport.cpp:128-129 | One changed byte in a framed payload or its checksum is always detected |
| `Transport.ReaderRecoversAPrefix` | src/transport.cpp:117-130 | From any arrived part of a stream of frames the reader recovers exactly the payloads that arrived whole, in order |
| `Transport.FramedWritersAreRecovered` | src/transport.cpp:103-130 | However several writers' sends are split and scheduled under the write lock, the reader recovers intact an interleaving of their payloads, each writer's in order, and all of them once all has arrived |
| `Transport.TcpSocket.SendAll` | src/transport.cpp:79-88 | For any short sends, all bytes go out in order, or a proper prefix and failure |
| `Transport.TcpSocket.RecvExact` | src/transport.cpp:90-99 | For any short receives, the buffer range is filled with exactly the next bytes |
| `Transport.TcpSocket.SendFrame` | src/transport.cpp:101-115 | Sends the frame, or a proper prefix of it and failure |
| `Transport.TcpSocket.RecvFrame` | src/transport.cpp:117-130 | Succeeds only on a whole frame within the cap with a right checksum, leaves what follows, and never fails on one while the connection works |

## Left out

- Sockets, threads, locks and condition variables: each section under a lock is one atomic step; the byte stream is abstract.
- A send error is taken to end the stream: what a second writer's frame after a partial one would look like is not modelled.
- Liveness: a worker whose frame does not decode ends its connection without clean-up (the event `Vanish`), and then its requests wait for ever; only safety is claimed.
- An ill-formed identity in a registration message, which ends the original process, is no event of the model.
- Which worker answered: the connection a command goes to is looked up by the request's own text, so only the request id is claimed.
- Slots and pending entries are shared objects in the source and entries under a handle here; that two handles never alias is by construction.
- The wrap of `next_req_` at 2^64: a request id is drawn only below the largest value.
- Uniqueness of generated instance ids is assumed where an instance is created by the coordinator; it does not follow from the generator.
- Reason strings of verdicts and errors; the verdict and the error code are kept.
- evaluate_compatibility, ctl_validate, explain and JSON text, the enum names, listings and the capacity report: settled by reading branches.
- Lifecycle and migration tables (src/lifecycle.cpp, src/migration.cpp): small finite graphs that the fabric's own writes bypass; the lifecycle is a field here.
- The 16-bit, signed and floating-point codecs, which no modelled record uses.
- Constructing the fabric's capacity limits: the coordinator's default limits are all zero, any limits are allowed here.
- Capacity.CapacityAccountant.AdjustBytes: excludes the most negative 64-bit delta, whose negation overflows in the source.
- Coordinators.CoordinatorServer.ForwardToWorker: the wait ends with an answer to this request; an abort that ends it, and a wait nothing ends, occur only among the events of CoordinatorRuns.
- FabricRuns.PinnedInstancesStay: excludes counts that wrap at 2^32, which the pin itself models.
- FabricRuns.NoResurrection: says nothing of a worker that registers the old boot again, which the code admits.
- Correlation.GoodResultsAreReplies: says nothing of evictions and invalidations, whose result does not depend on the reply.
- Uuids.Generate: claims the fixed bits and the stream, not uniqueness.
