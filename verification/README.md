# A verified model of the Lightspeed hub operator

The operator manages remote clusters ("spokes") from a hub. Four loops share one API server: the
SpokeCluster reconciler, the periodic spoke health handler, the MCE discovery reconciler and the
HubConfig reconciler. Any API call may fail, and the process may stop between any two of them. This
project models the loops and proves what they promise together. To verify it, use
`dafny verify dfyconfig.toml`.

## Layout

| file | contents |
|---|---|
| `Kube.dfy` | names, optional values, HubConfig modes, credential sources |
| `Conditions.dfy` | condition lists, `patchStatus` and `conditionsEqual` |
| `SpokeStatus.dfy` | what each verdict of a pass writes; the event predicate; the health handler's condition |
| `StatusProtocol.dfy` | the two writers of one condition list, interleaved at their API calls |
| `StatusConvergence.dfy` | how every run of `StatusProtocol` comes to rest once passes agree |
| `StatusPasses.dfy` | the passes of `SpokePass` are stretches of `StatusProtocol` runs |
| `HealthHandler.dfy` | `SpokeHealthHandler` as a class |
| `Credential.dfy`, `TokenRotation.dfy` | the two Secrets of a spoke; when its token is replaced |
| `SpokePass.dfy` | one reconcile pass as a function of the stored objects and of which calls fail |
| `Reconciler.dfy` | `SpokeClusterReconciler` as a class, call by call, proved against `SpokePass` |
| `SpokeTheorems.dfy` | readiness, idempotence, best-effort cleanup, isolation |
| `StageTheorems.dfy` | the gate, the kubeconfig that is dialled, which verdict a pass reaches and what its conditions mean, for every failure pattern |
| `Convergence.dfy` | what the verdict and the probe depend on; whole passes and checks on a moving clock |
| `RestartRuns.dfy` | the label of a SpokeCluster and the restart it calls for, with passes interrupted at any call |
| `AdapterStack.dfy` | `HubConfigReconciler` as a class, and among users, crashes and restarts |
| `Inventory.dfy` | what one discovery pass does to the objects of one name |
| `DiscoveryReconciler.dfy` | `MCEDiscoveryReconciler` as a class whose loops visit names in any order |
| `Fleet.dfy`, `FleetSafety.dfy` | spoke passes, discovery passes, users and garbage collection interleaved at every API call, and what every run keeps |
| `FleetRuns.dfy` | stretches of `Fleet` runs and whose work they are |
| `FleetPasses.dfy` | the passes of `SpokePass` and `Inventory` are stretches of `Fleet` runs |
| `FleetRaces.dfy` | runs that show why the fleet theorems are stated as they are |
| `Teardown.dfy` | teardown ends |

The imperative code is modelled by classes whose methods are proved equal to the functions the
theorems speak about. The interleaved models are transition systems; a run is a sequence of states
and enabled events from the initial state, and the safety theorems hold for every state of every run.

## Modelling decisions

- Reads are current: a Get or List returns what is stored at that moment.
- `Update` is compare-and-swap on the resource version. `Delete` carries no precondition.
- One key is never processed twice at once; an event during a pass queues the key again; a restart
  queues every key.
- `client.MergeFrom` yields a JSON merge patch (section 2 of RFC 7396), so a changed condition list
  replaces the stored one whole.
- Deleting a ManagedServiceAccount, a ManifestWork, a Secret or a part of the adapter stack is
  immediate. A SpokeCluster or HubConfig with a finalizer is only marked. `held` stands for
  finalizers that belong to somebody else.
- The environment does not edit the controllers' own labels, finalizers, companions or Secrets, apart
  from deleting SpokeClusters and HubConfigs and from garbage collection of Secrets whose owner is gone.
- `SetStatusCondition`, `RemoveStatusCondition` and `FindStatusCondition` are written from their
  behaviour in apimachinery.
- Credentials, connectivity, the TokenRequest call, the AlertManager URL, the ingress CA and the clock
  are inputs. Error texts are inputs too: they matter because they are stored in conditions.
- Times are integer nanoseconds; a stored expiry keeps whole seconds only (section 5.6 of RFC 3339).
- Writing and parsing a kubeconfig are each other's inverse.
- Secrets are identified by the spoke and the role; `Credential.SecretNamesDistinct` shows that the
  names in use are just as distinct.
- A ManagedServiceAccount listing refused because the resource kind is not installed is a listing of
  none.

## Where the code does not do what one would expect

Each of these is proved, with the exact condition and an input or a run that shows it.

- The comment at internal/controller/spokecluster_controller.go:484-488 says that `patchStatus`
  preserves conditions the reconciler did not touch. The loop at lines 499-503 removes every type that
  the local copy lacks: the stored map becomes exactly the local one (`Conditions.PatchStatusExact`,
  `Conditions.SurvivesExactly`, and the list in `Conditions.UntouchedIsRemoved`).
- The health handler patches from a copy listed earlier. If the copy no longer shows the stored
  Connected status, its patch can restore Ready=True beside Connected=False with nothing queued
  (`StatusProtocol.StaleCopyBreaks`); `StatusProtocol.HealthPatchExact` says exactly when it does not,
  and `HealthHandler.OnlyConnectedExactly` exactly when a check changes nothing but Connected.
- Without credentials but with an old standing Secret that still reaches the spoke, the reconciler
  writes Connected=False, the handler writes True, and both writes trigger the other, without end
  (`Convergence.AlternatesForever`). `Convergence.FirstPassSettles` shows that in every other case the
  first full pass leaves both writers with nothing to write as long as the clock stands still.
- As the clock moves, a spoke that refuses TokenRequest while its stored token is still good is steady
  and Ready until the token has no more than the rotation buffer left; the next pass then writes
  AdaptersReady=False and Ready=False (`Convergence.TokenRunsOut`, `Convergence.AgedPass`). This is
  the only effect of the clock, and it happens once (`Convergence.SteadyUnlessTokenAges`, an equality).
- Discovery deletes a SpokeCluster by name. If a user replaces it between the List and the Delete, the
  manual SpokeCluster is deleted (`FleetRaces.ManualClusterDeleted`);
  `FleetSafety.UnlabelledTouchedExactly` shows that this is the only way discovery changes one.
- After a mode switch the absence of the standing Secret proves that there is no residue at that moment
  only; a switch back can provision the spoke before its ManagedServiceAccount goes
  (`FleetRaces.ModeSwitchWindow`). `FleetSafety.ModeSwitchResidueExactly` says exactly when there is
  residue at any later moment, the delete included.
- `cleanupOrphanedCompanions` stops at its first error, so one failing name can keep every other orphan
  from being swept (`Inventory.SweepNotIsolated`, an if-and-only-if).
- An adapter restart that is missed is never made up for, because the label is already set. Over runs
  in which passes may stop, fail or lose replies at any call, it takes place exactly if the reply to the
  label's update arrives, the next call finds the Deployment, and the one after that writes it back
  unchanged by others (`RestartRuns.RestartedExactly`; `RestartRuns.LostReply` is a run that misses it
  although no call fails). For a pass that runs to its end this means that neither call of the restart
  fails (`SpokeTheorems.RestartMissedExactly`, an if-and-only-if, and `SpokeTheorems.LostRestart`).
- Cleanup without a standing Secret, or with one that lacks its key, leaves the spoke as it is and
  raises no warning (`SpokeTheorems.MissingKeyIsSilent`). `SpokeTheorems.SilentResidueExactly` shows that
  nothing else leaves residue without a warning.
- A Secret whose delete fails outlives its SpokeCluster, since the finalizer is removed all the same;
  garbage collection takes it. `SpokeTheorems.SecretOutlivesExactly` has the exact condition for both
  Secrets, `FleetRaces.SecretOutlives` a run. Over runs, `FleetSafety.SecretsGuarded` and
  `Teardown.OnlyFailureLeavesSecrets` show that a failing delete is the only way.

## Model

| member | source | states |
|---|---|---|
| `Conditions.MergedExact` | internal/controller/spokecluster_controller.go:494-503 | the merged list has unique types; each type is present exactly if the local list has it, with the local facts; its transition time is the stored one if the status did not move, otherwise the local one or, if that is zero, the time of the call |
| `Conditions.PatchStatusExact` | internal/controller/spokecluster_controller.go:489-510 | after a call the stored map from type to status, reason, message and generation is the local one, and a patch is sent exactly if it was not already |
| `Conditions.PatchStatusSince` | internal/controller/spokecluster_controller.go:489-510 | the same rule for the transition time after a whole call, whether or not a patch was sent |
| `Conditions.SurvivesExactly` | internal/controller/spokecluster_controller.go:494-503 | a stored condition survives a call if and only if the local list names its type |
| `Conditions.UntouchedIsRemoved` | internal/controller/spokecluster_controller.go:484-503 | a list with a condition the reconciler did not touch, which a call removes |
| `Conditions.PatchStatusQuiet` | internal/controller/spokecluster_controller.go:504-509 | an immediate second call sends nothing |
| `Conditions.AgreesDecides` | internal/controller/spokecluster_controller.go:514-525 | with unique types on both sides, conditionsEqual holds if and only if the two maps are equal |
| `Conditions.AgreesIsSameMap` | internal/controller/spokecluster_controller.go:514-525 | uniqueness of the first list suffices for one direction, by a pigeonhole from equal lengths |
| `Conditions.AgreesNeedsUnique` | internal/controller/spokecluster_controller.go:514-525 | without unique types conditionsEqual accepts different maps, and is not symmetric |
| `Conditions.ConditionsEqual` | internal/controller/spokecluster_controller.go:514-525 | the loop decides Agrees, hence map equality under uniqueness |
| `Conditions.ComputePatch` | internal/controller/spokecluster_controller.go:494-509 | the two loops compute the merged list although the second removes from the list it ranges over, and send exactly when a fact differs |
| `SpokeStatus.DecideExact` | internal/controller/spokecluster_controller.go:193-246 | every verdict writes its intended map: earlier stages True, the failing stage and Ready False with the same reason, later stages and foreign types untouched, all three stages removed when unmanaged |
| `SpokeStatus.WriteSince` | internal/controller/spokecluster_controller.go:474-482 | a write stamps a new transition time exactly if it moves the status |
| `SpokeStatus.PassedSays` | internal/controller/spokecluster_controller.go:65-77 | what passed stages and a managed spoke say, word for word, at the generation worked on |
| `SpokeStatus.ConnectedMovedExactly` | internal/controller/spokecluster_controller.go:762-764 | a status update queues the key if and only if it changes the status of Connected or whether there is one |
| `SpokeStatus.DecideUnique` | internal/controller/spokecluster_controller.go:391-482 | the writes of a pass keep types unique |
| `SpokeStatus.DecideReady` | internal/controller/spokecluster_controller.go:218-246 | Ready=True is claimed only by a fully successful pass, together with all three stages |
| `SpokeStatus.DecideSettles` | internal/controller/spokecluster_controller.go:391-426 | the same verdict on top of its own result changes no fact |
| `StatusProtocol.StepKeeps` | internal/controller/spokecluster_controller.go:152-247 | every event of reconciler, handler, users, HubConfig watch and failures keeps the two-writer invariant |
| `StatusProtocol.TwoWriterSafety` | internal/controller/spokecluster_controller.go:750-767 | in every run whose health patches start from a copy that agrees on Connected, a live SpokeCluster with Ready=True has all three stages True or a pass queued or running |
| `StatusProtocol.HandlerSays` | internal/controller/spoke_health_handler.go:108-129 | what the handler writes of a spoke it reached is what a pass writes of a passed connect stage, at the generation of its copy; of one it did not reach, what a pass writes of a failed one |
| `StatusProtocol.HealthPatchMoves` | internal/controller/spoke_health_handler.go:122-137 | a patch from an agreeing copy always passes the event predicate |
| `StatusProtocol.HealthPatchExact` | internal/controller/spoke_health_handler.go:122-137 | exactly when one health patch keeps the promise |
| `StatusProtocol.StaleCopyBreaks` | internal/controller/spoke_health_handler.go:68-80 | a run in which a stale copy breaks it |
| `StatusProtocol.OnePass` | internal/controller/spokecluster_controller.go:489-510 | from any state in which a pass is due, one Start and events of that pass alone lead to a state that holds its verdict's map, queued only if the pass moved Connected |
| `StatusProtocol.ComesToRest` | internal/controller/spokecluster_controller.go:752-766 | if passes keep reaching one verdict, events of passes alone, with one or two Starts among them, lead to a state at rest that holds its map |
| `StatusProtocol.RestartRecovers` | internal/controller/spokecluster_controller.go:152-247 | from whatever state the process stops in, a restart and at most two passes bring a live SpokeCluster to rest with the map of their verdict |
| `StatusConvergence.PassCompletes` | internal/controller/spokecluster_controller.go:489-510 | whatever health checks and failures came in between, when a pass completes the stored list denotes its verdict |
| `StatusConvergence.HandlerWritesExactly` | internal/controller/spoke_health_handler.go:122-137 | at rest the handler has something to write from an agreeing copy if and only if probes contradict passes |
| `StatusConvergence.Converges` | internal/controller/spokecluster_controller.go:489-510 | in every run whose passes conclude one verdict, from the completion of a pass on, nothing is stored again as long as probes agree with the verdict and health patches with the stored Connected; undisturbed, at most one further pass is started, none if the key was not queued. Before that completion probes may find anything, and calls and the process may fail |
| `StatusConvergence.StaleCopyOnce` | internal/controller/spoke_health_handler.go:110-137 | without the proviso on copies, at most one health patch is stored from then on, from a copy listed before; Connected never moves, and the bound on passes is the same |
| `StatusPasses.PassRun` | internal/controller/spokecluster_controller.go:152-265 | a run in which a pass is due goes on with one Start and the events of that pass alone, to the same effect as SpokePass.Reconcile, and leaves the key queued exactly when the pass fails, asks for it, moved Connected or removed the object |
| `HealthHandler.SpokeHealthHandler.CheckSpoke` | internal/controller/spoke_health_handler.go:82-142 | the stored object becomes the Checked one, no other object changes |
| `HealthHandler.SpokeHealthHandler.CheckAll` | internal/controller/spoke_health_handler.go:68-80 | each listed spoke ends as its own check leaves it, whatever happened to the others; unlisted spokes are unchanged |
| `HealthHandler.CheckedExactly` | internal/controller/spoke_health_handler.go:84-137 | with a readable kubeconfig a check stores nothing if the listed status is the one found or the patch fails, and otherwise word for word what it found |
| `HealthHandler.UncheckedExactly` | internal/controller/spoke_health_handler.go:84-103 | without one it stores nothing |
| `HealthHandler.CheckIsEvent` | internal/controller/spoke_health_handler.go:110-137 | a check is a health event of the two-writer protocol with the same effect |
| `HealthHandler.OnlyConnectedExactly` | internal/controller/spoke_health_handler.go:122-137 | a check changes nothing but Connected if and only if it writes nothing or its copy has the other conditions as stored |
| `HealthHandler.ConnectedIsProbed` | internal/controller/spoke_health_handler.go:108-137 | from a current copy Connected ends up as probed and a second check writes nothing |
| `Credential.SecretNamesDistinct` | internal/credential/kubeconfig.go:38-40 | the two name functions are injective with disjoint ranges |
| `TokenRotation.RotateExactly` | internal/controller/spokecluster_controller.go:577-590 | a token is kept exactly while more than 4h48m are left of it; stored expiries are cut to whole seconds |
| `TokenRotation.HeldSinceWrite` | internal/controller/spokecluster_controller.go:577-590 | what was written lives longer than the buffer from the moment its writer looked at the clock |
| `TokenRotation.NeverExpired` | internal/controller/spokecluster_controller.go:577-617 | if writes are at most the buffer apart and issued tokens outlast it by a second, the stored token is never expired from the first write on, whether or not passes can read it |
| `TokenRotation.GapTight` | internal/controller/spokecluster_controller.go:577-590 | any larger gap admits a run in which it expires |
| `TokenRotation.MarginTight` | internal/controller/spokecluster_controller.go:553-590 | with a nanosecond less than the second of margin, so does the buffer itself |
| `Reconciler.SpokeClusterReconciler.Provision` | internal/provisioner/spoke.go:48-123 | the four ordered creates, stopping at the first failure |
| `Reconciler.SpokeClusterReconciler.Deprovision` | internal/provisioner/spoke.go:128-185 | each of the four objects is gone unless its own delete failed; an error is reported exactly if one did |
| `Reconciler.SpokeClusterReconciler.ProvisionAdapter` | internal/provisioner/adapter.go:45-86 | the two ordered creates |
| `Reconciler.SpokeClusterReconciler.DeprovisionAdapter` | internal/provisioner/adapter.go:91-121 | the two deletes, both attempted |
| `Reconciler.SpokeClusterReconciler.EnsureSecret` | internal/controller/spokecluster_controller.go:284-308 | create, or compare data and owners and update; also the shape of ensureAdapterCredentialSecret |
| `Reconciler.SpokeClusterReconciler.RestartAdapterDeployment` | internal/controller/adapter_deployment.go:359-378 | an existing Deployment is restarted exactly once unless a call fails, an absent one stays absent, and an error is returned exactly if the Get fails or there is a Deployment and its update fails |
| `Reconciler.SpokeClusterReconciler.EnsureAdapterLabel` | internal/controller/spokecluster_controller.go:684-704 | the label is set unless a call fails, and the change is reported exactly |
| `Reconciler.SpokeClusterReconciler.ResolveAdapterToken` | internal/controller/spokecluster_controller.go:577-617 | the stored token is reused exactly when more than the buffer remains; otherwise one request is made |
| `Reconciler.SpokeClusterReconciler.ReconcileAdapters` | internal/controller/spokecluster_controller.go:530-573 | computes SpokePass.Adapters, whose outcome PublishExact and AdaptersExact characterise |
| `Reconciler.SpokeClusterReconciler.CleanupSpokeResources` | internal/controller/spokecluster_controller.go:314-389 | computes SpokePass.Cleanup, characterised by CleanupIsBestEffort and CleanupRestarts, and its failure flag, characterised by WarningIsExact |
| `Reconciler.SpokeClusterReconciler.PatchStatus` | internal/controller/spokecluster_controller.go:489-510 | stores the patched list unless a call fails, and changes nothing else |
| `Reconciler.SpokeClusterReconciler.FailWithCondition` | internal/controller/spokecluster_controller.go:410-426 | reports the failed stage and clears Ready; only connectivity failures are not retried |
| `Reconciler.SpokeClusterReconciler.UnmanageSpoke` | internal/controller/spokecluster_controller.go:391-406 | cleans up, clears Ready and removes the stage conditions |
| `Reconciler.SpokeClusterReconciler.ReconcileDelete` | internal/controller/spokecluster_controller.go:249-265 | cleans up and removes the finalizer even if cleanup failed; the SpokeCluster stays exactly if that removal fails |
| `Reconciler.SpokeClusterReconciler.RunStages` | internal/controller/spokecluster_controller.go:207-246 | from the standing kubeconfig to the status write |
| `Reconciler.SpokeClusterReconciler.Reconcile` | internal/controller/spokecluster_controller.go:152-247 | the whole pass computes SpokePass.Reconcile for every pattern of failing calls; GateExactly, VerdictExactly, ConditionsAreEarned and OutcomeExactly say what that is |
| `StageTheorems.GateExactly` | internal/controller/spokecluster_controller.go:176-190 | a spoke is managed if and only if HubConfig exists, is not being deleted, and its mode is the kind of the spoke's credentials; otherwise the reason says which of these failed |
| `StageTheorems.EnrolledPassesGate` | internal/controller/mce_discovery_controller.go:239-299 | what discovery enrols passes the gate exactly in MCE mode |
| `StageTheorems.GatedPass` | internal/controller/spokecluster_controller.go:391-406 | a pass with a closed gate is a cleanup and a status write, nothing else |
| `StageTheorems.WantedConfigExactly` | internal/credential/kubeconfig.go:70-94 | the kubeconfig is wanted if and only if it points at spec.apiServer for a spoke with credentials of its own that names one, otherwise at the host of the credentials, with exactly these credentials |
| `StageTheorems.StandingPointsRight` | internal/controller/spokecluster_controller.go:269-309 | once ensured, the standing Secret holds that kubeconfig |
| `StageTheorems.AdapterSecretExactly` | internal/credential/adapter.go:50-83 | the keys and values of the adapter credential Secret, the CA only if there is one |
| `StageTheorems.BaseExactly` | internal/provisioner/spoke.go:48-123 | all four base resources or an error, the error exactly if one of four calls fails, and nothing before the namespace |
| `StageTheorems.AdapterResourcesExactly` | internal/provisioner/adapter.go:45-86 | the same for the two adapter resources, the account first |
| `StageTheorems.LabelExactly` | internal/controller/spokecluster_controller.go:684-704 | the label is there afterwards unless a call fails that is made because it was not |
| `StageTheorems.TokenRequestedExactly` | internal/controller/spokecluster_controller.go:577-590 | one token is requested exactly if the stored one is not to be reused and the adapter resources could be created |
| `StageTheorems.VerdictExactly` | internal/controller/spokecluster_controller.go:193-246 | for every environment: which stage a pass reports as failed and with which reason, or that the spoke is managed, as a flat list of failing calls per stage |
| `StageTheorems.OutcomeExactly` | internal/controller/spokecluster_controller.go:410-426 | a pass is over exactly if it has reported that the spoke is managed, is not to be, or does not answer; everything else is returned for another try |
| `StageTheorems.StagesArePassed` | internal/controller/spokecluster_controller.go:207-240 | a stage reported as passed has passed: the right kubeconfig reached the spoke, the base resources are there, everything is in place |
| `StageTheorems.ConditionsAreEarned` | internal/controller/spokecluster_controller.go:193-246 | so for the status that is written, also by passes that fail later |
| `StageTheorems.UnreachedIsUntouched` | internal/controller/spokecluster_controller.go:193-219 | a pass that does not get through to the spoke changes nothing on it, no label, no Deployment, and requests no token |
| `SpokeTheorems.CreateInOrderExact` | internal/provisioner/spoke.go:48-123 | ordered creates never remove anything and succeed exactly when none is refused |
| `SpokeTheorems.EnsureSecretExact` | internal/controller/spokecluster_controller.go:642-678 | on success the Secret is up to date, an up-to-date one is left alone, an error changes nothing and occurs exactly if a call that is made fails |
| `SpokeTheorems.AdaptersExact` | internal/controller/spokecluster_controller.go:530-573 | success of the adapter stage means both spoke objects, an up-to-date owned Secret and the label; only that Secret can change |
| `SpokeTheorems.ManagedIsEarned` | internal/controller/spokecluster_controller.go:193-246 | a fully successful verdict has all six spoke objects, both Secrets owned by the current UID, the wanted kubeconfig reachable, and the label in place |
| `SpokeTheorems.ReportedExactly` | internal/controller/spokecluster_controller.go:218-246 | a status write carries exactly the verdict's map, so earlier stages are True in the write that reports a failure |
| `SpokeTheorems.ReadyIsEarned` | internal/controller/spokecluster_controller.go:193-246 | a pass that writes Ready=True has earned it, and says True for all three stages in the same write |
| `SpokeTheorems.SuccessIsIdempotent` | internal/controller/spokecluster_controller.go:201-246 | after a success that leaves a reusable token a second pass changes no object on hub or spoke and requests no token |
| `SpokeTheorems.HealthyPassSettles` | internal/controller/spokecluster_controller.go:152-247 | in healthy surroundings one pass puts everything in place and an immediate second pass changes nothing at all |
| `SpokeTheorems.JudgeStoresToken` | internal/controller/spokecluster_controller.go:530-617 | what a later pass reads back is exactly the token that rotation chose, its expiry cut to whole seconds |
| `SpokeTheorems.WantedAdapterSettled` | internal/controller/spokecluster_controller.go:595-678 | a reusable token and its expiry are written back as they were read |
| `SpokeTheorems.ManagedWhenHealthy` | internal/controller/spokecluster_controller.go:177-240 | with all calls succeeding a spoke is managed if and only if HubConfig is active in the mode of its credentials, credentials exist, the wanted kubeconfig is reachable and the URL is known |
| `SpokeTheorems.CleanupIsBestEffort` | internal/controller/spokecluster_controller.go:314-389 | each spoke object is gone unless its own delete failed or the spoke was not reached, each Secret unless its own delete failed; no other Secret changes |
| `StageTheorems.CleanupRestarts` | internal/controller/spokecluster_controller.go:385-388 | cleanup restarts an existing Deployment exactly once unless one of the two calls fails |
| `StageTheorems.CleaningPassRestarts` | internal/controller/spokecluster_controller.go:249-265 | so does every pass that removes a SpokeCluster or unmanages it |
| `SpokeTheorems.SecretOutlivesExactly` | internal/controller/spokecluster_controller.go:249-265 | a Secret outlives its terminating SpokeCluster if and only if its own delete failed and the removal of the finalizer did not |
| `SpokeTheorems.WarningIsExact` | internal/controller/spokecluster_controller.go:321-359 | with the key present the failure flag is exact, and no warning means an empty spoke |
| `SpokeTheorems.MissingKeyIsSilent` | internal/controller/spokecluster_controller.go:325-328 | without the key nothing is deleted and nothing reported |
| `SpokeTheorems.SilentResidueExactly` | internal/controller/spokecluster_controller.go:314-359 | cleanup leaves something on the spoke without a warning if and only if the standing Secret or its key is missing |
| `SpokeTheorems.PassKeepsOtherSecrets` | internal/controller/spokecluster_controller.go:152-265 | no pass touches a Secret of another spoke |
| `SpokeTheorems.RestartExactly` | internal/controller/adapter_deployment.go:359-378 | the restart happens once unless one of its calls fails, and an absent Deployment stays absent |
| `SpokeTheorems.JudgeRestart` | internal/controller/spokecluster_controller.go:561-570 | for every failure pattern the Deployment is restarted once if the pass newly sets the label and neither call of the restart fails, and otherwise not at all |
| `SpokeTheorems.LabelledNeverRestarts` | internal/controller/spokecluster_controller.go:561-570 | once the label is set a managed pass keeps it and does not restart the Deployment |
| `SpokeTheorems.RestartMissedExactly` | internal/controller/spokecluster_controller.go:561-570 | a pass that runs to its end and newly sets the label misses the restart if and only if the Get or the Update of the Deployment fails, and no sequence of later managed passes makes up for it |
| `SpokeTheorems.StoppedAfterLabel` | internal/controller/spokecluster_controller.go:561-570 | a process that stops, or loses the reply, right after the label is stored misses the restart for good although no call fails |
| `RestartRuns.RestartedExactly` | internal/controller/spokecluster_controller.go:561-570 | over every run of passes interrupted anywhere, the restart a newly stored label calls for takes place if and only if the calls after the label succeed in turn, and at most once |
| `RestartRuns.LabelStoredOnce` | internal/controller/spokecluster_controller.go:684-704 | in no run is the label stored a second time |
| `RestartRuns.UpdateExactly` | internal/controller/adapter_deployment.go:359-378 | the update of a restart takes effect if and only if the Deployment is there as it was read |
| `RestartRuns.LostReply` | internal/controller/spokecluster_controller.go:697-703 | a run in which no call fails and the restart is missed |
| `RestartRuns.RestartCalls` | internal/controller/adapter_deployment.go:359-378 | the restart as SpokePass makes it is the corresponding sequence of events |
| `RestartRuns.LabelCalls` | internal/controller/spokecluster_controller.go:684-704 | so is storing the label |
| `SpokeTheorems.LostRestart` | internal/controller/spokecluster_controller.go:561-570 | on every healthy unlabelled spoke on which only one of these two calls fails, the pass fails with the label set and the next succeeds without the restart |
| `Convergence.VerdictForetold` | internal/controller/spokecluster_controller.go:176-246 | with the hub answering, the verdict depends on the surroundings and the token only |
| `Convergence.FirstPassSettles` | internal/controller/spokecluster_controller.go:193-219 | after any full pass the status denotes the verdict of a further pass, and the handler is quiet too if and only if the alternation does not hold |
| `Convergence.QuietExactly` | internal/controller/spoke_health_handler.go:89-127 | on a rested spoke the handler writes nothing exactly outside the alternation |
| `Convergence.LaterPass` | internal/controller/spokecluster_controller.go:577-590 | at any later time a pass changes the status of a steady spoke if and only if the token has aged, the spoke refuses another and the verdict depends on it; the spoke is steady again afterwards |
| `Convergence.AgedPass` | internal/controller/spokecluster_controller.go:535-549 | that pass writes Ready=False with the text of the refused request |
| `Convergence.SteadyUnlessTokenAges` | internal/controller/spokecluster_controller.go:504-509 | over every sequence of passes and checks on a clock that does not go back, the status of a steady spoke changes once if some pass comes after the token has aged, and otherwise never |
| `Convergence.TokenRunsOut` | internal/controller/spokecluster_controller.go:577-590 | every healthy spoke, once settled, stays steady while it refuses tokens, and its token ages exactly when no more than the buffer is left of it |
| `Convergence.AlternatesOnce` | internal/controller/spokecluster_controller.go:193-198 | in the exception handler and pass undo each other, and both writes pass the event predicate |
| `Convergence.EntersAlternation` | internal/controller/spokecluster_controller.go:193-198 | any full pass in the exception leads into the alternation |
| `Convergence.AlternatesForever` | internal/controller/spoke_health_handler.go:110-137 | and this repeats without end, at whatever times the rounds take place |
| `AdapterStack.CreationIsComplete` | internal/controller/adapter_deployment.go:267-294 | each of the eight parts is created exactly once, the Deployment last |
| `AdapterStack.HubConfigReconciler.EnsureAdapterStack` | internal/controller/adapter_deployment.go:267-331 | success, exactly if no call fails, means all eight parts; it stops at the first failure, and creates the Deployment only after all others were ensured |
| `AdapterStack.HubConfigReconciler.TeardownAdapterStack` | internal/controller/adapter_deployment.go:333-357 | attempts all eight deletes, keeps exactly the parts whose delete failed, returns the first error |
| `AdapterStack.HubConfigReconciler.Reconcile` | internal/controller/hubconfig_controller.go:58-96 | keeps the guard for every failure pattern; succeeds exactly if no call it makes fails, with all eight parts under the finalizer, or no part and the finalizer gone |
| `AdapterStack.StepKeeps` | internal/controller/hubconfig_controller.go:69-92 | every event, lost replies, crashes and Deployment restarts included, keeps the guard invariant |
| `AdapterStack.StackGuarded` | internal/controller/hubconfig_controller.go:69-92 | at every API-call boundary of every run a stack part implies a HubConfig with the finalizer |
| `AdapterStack.PassIsEvents` | internal/controller/hubconfig_controller.go:69-92 | an undisturbed pass is made of these events: all eight parts if no call fails, exactly the undeletable ones after a teardown, and the finalizer may go exactly if there is none |
| `AdapterStack.RestartsNeverRecreate` | internal/controller/adapter_deployment.go:359-378 | the update of a restart is refused once the Deployment is gone, so it brings no part back |
| `DiscoveryReconciler.MatchesSelector` | internal/controller/mce_discovery_controller.go:692-703 | decides that every selected label is present with its value |
| `DiscoveryReconciler.ExtractApiServer` | internal/controller/mce_discovery_controller.go:707-728 | the first URL that starts with https://, None exactly if there is none |
| `DiscoveryReconciler.MCEDiscoveryReconciler.BuildDesired` | internal/controller/mce_discovery_controller.go:180-233 | the desired map is Desired at every name, which DesiredExactly characterises |
| `DiscoveryReconciler.MCEDiscoveryReconciler.EnsureMsa` | internal/controller/mce_discovery_controller.go:341-368 | creates or verifies ownership, no other name changes |
| `DiscoveryReconciler.MCEDiscoveryReconciler.EnsureMsaRbac` | internal/controller/mce_discovery_controller.go:501-527 | creates, verifies ownership or restores the manifests |
| `DiscoveryReconciler.MCEDiscoveryReconciler.EnrolOne` | internal/controller/mce_discovery_controller.go:239-311 | one round of the create/update loop |
| `DiscoveryReconciler.MCEDiscoveryReconciler.EnrolAll` | internal/controller/mce_discovery_controller.go:238-312 | in any order, every desired name has its own round's outcome and errors are collected per name |
| `DiscoveryReconciler.MCEDiscoveryReconciler.PruneAll` | internal/controller/mce_discovery_controller.go:314-325 | the same for the delete loop |
| `DiscoveryReconciler.MCEDiscoveryReconciler.SettleAll` | internal/controller/mce_discovery_controller.go:185-325 | non-interference: each name's outcome depends on its own calls only |
| `DiscoveryReconciler.MCEDiscoveryReconciler.DeleteMsaRbac` | internal/controller/mce_discovery_controller.go:533-550 | removes an owned ManifestWork only, errors exactly as stated |
| `DiscoveryReconciler.MCEDiscoveryReconciler.DeleteMsa` | internal/controller/mce_discovery_controller.go:554-571 | removes an owned ManagedServiceAccount only |
| `DiscoveryReconciler.MCEDiscoveryReconciler.CleanupOrphanedCompanions` | internal/controller/mce_discovery_controller.go:626-660 | visited names have their outcome, the rest are untouched; an error is returned exactly if a call for some listed name fails |
| `DiscoveryReconciler.MCEDiscoveryReconciler.CleanupAllDiscoveryCompanions` | internal/controller/mce_discovery_controller.go:580-622 | whatever fails, names with a standing Secret keep their companions; succeeds exactly if no listed name has one and no call fails, and then all their owned companions are gone |
| `DiscoveryReconciler.MCEDiscoveryReconciler.CleanupAllDiscoverySpokes` | internal/controller/mce_discovery_controller.go:665-683 | marks or removes every discovered SpokeCluster, stopping at the first error, which it reports exactly if a delete fails |
| `DiscoveryReconciler.MCEDiscoveryReconciler.ReconcileMce` | internal/controller/mce_discovery_controller.go:180-336 | succeeds exactly if no call fails and no companion it needs is foreign, and then leaves Final at every name, in any order of visits |
| `DiscoveryReconciler.MCEDiscoveryReconciler.TearDown` | internal/controller/mce_discovery_controller.go:121-139 | an error-free pass with the HubConfig absent or terminating leaves Final with nothing desired; after a failing one each name is untouched, pruned, swept or both |
| `DiscoveryReconciler.MCEDiscoveryReconciler.Reconcile` | internal/controller/mce_discovery_controller.go:116-336 | whatever fails, objects that are not discovery's own are unchanged, owned ManifestWorks keep their record, and outside MCE mode SpokeClusters and the companions of names with a standing Secret are unchanged; success has the outcome of its mode |
| `Inventory.FinalExactly` | internal/controller/mce_discovery_controller.go:235-336 | after an error-free pass the live discovered SpokeClusters, their fields and the owned companions are exactly the desired ones, collisions and terminating SpokeClusters treated as the code does |
| `Inventory.SecondPassQuiet` | internal/controller/mce_discovery_controller.go:207-312 | a second pass over unchanged ManagedClusters wants the same and changes nothing |
| `Inventory.DesiredSettles` | internal/controller/mce_discovery_controller.go:207-233 | an address once recorded is still wanted, also while the ManagedCluster shows none |
| `Inventory.DesiredExactly` | internal/controller/mce_discovery_controller.go:185-233 | a name wants an address if and only if its ManagedCluster is not detaching, not the hub, carries every selected label, and that address is the first HTTPS URL it offers or, if it offers none, the one recorded |
| `Inventory.DriftRepaired` | internal/controller/mce_discovery_controller.go:240-260 | whatever was recorded, an error-free pass leaves the first HTTPS URL and the MCE source |
| `Inventory.EnrolFailsExactly` | internal/controller/mce_discovery_controller.go:238-312 | exactly which failing calls and foreign companions make the create/update loop record an error |
| `Inventory.EnrolCreates` | internal/controller/mce_discovery_controller.go:279-299 | what the loop creates is labelled, live, without finalizer, with the desired fields |
| `Inventory.PruneExactly` | internal/controller/mce_discovery_controller.go:314-325 | what the delete loop does and when it records an error |
| `Inventory.NoErrorNoDifference` | internal/controller/mce_discovery_controller.go:235-325 | failing calls can only cause errors, never another outcome |
| `Inventory.RoundsRespect` | internal/controller/mce_discovery_controller.go:238-325 | every round of every loop, whatever fails, leaves foreign objects alone and keeps the retry record |
| `Inventory.SweepNotIsolated` | internal/controller/mce_discovery_controller.go:638-659 | an orphan is sure to be swept in every order of visits if and only if none of the calls the sweep makes for any listed name fails |
| `FleetSafety.StepKeeps` | internal/controller/spokecluster_controller.go:152-265 | every event of every loop, user and collector keeps the fleet invariant |
| `FleetSafety.SeamsExactly` | internal/controller/mce_discovery_controller.go:195-326 | what a discovery pass visits: every desired name, then every discovered one that is not desired, then every owned ManagedServiceAccount |
| `FleetSafety.FinalizerSafety` | internal/controller/spokecluster_controller.go:163-174 | at every API-call boundary un-attempted residue implies that the very SpokeCluster it came from exists with the finalizer and owns the standing Secret |
| `FleetSafety.OrphanRevocation` | internal/controller/mce_discovery_controller.go:638-657 | the orphan path revokes only after cleanup of every discovered SpokeCluster of that name was attempted |
| `FleetSafety.ModeSwitchRevocation` | internal/controller/mce_discovery_controller.go:593-617 | when mode-switch cleanup finds the standing Secret absent there is no un-attempted residue at that moment |
| `FleetSafety.ModeSwitchResidueExactly` | internal/controller/mce_discovery_controller.go:593-617 | at any later moment, the deletes included, there is residue if and only if provisioning was begun after the check and its cleanup not attempted since |
| `FleetSafety.SecretsGuarded` | internal/controller/spokecluster_controller.go:249-309 | at every API-call boundary of every run in which no delete of it failed, a standing Secret is there only with its owner, which carries the finalizer |
| `FleetSafety.RetryRecord` | internal/controller/mce_discovery_controller.go:305-311 | at every API-call boundary an owned ManifestWork implies an owned ManagedServiceAccount, so listing those misses none |
| `FleetSafety.ForeignCompanionsUntouched` | internal/controller/mce_discovery_controller.go:501-571 | no discovery step changes a companion without the label |
| `FleetSafety.UnlabelledTouchedExactly` | internal/controller/mce_discovery_controller.go:314-325 | exactly when a discovery step changes a SpokeCluster without the label |
| `FleetRaces.ManualClusterDeleted` | internal/controller/mce_discovery_controller.go:314-325 | a run in which it does |
| `FleetRaces.ModeSwitchWindow` | internal/controller/mce_discovery_controller.go:593-617 | a run in which a spoke provisioned after the check loses its ManagedServiceAccount |
| `FleetRaces.SecretOutlives` | internal/controller/spokecluster_controller.go:249-265 | a run in which the standing Secret outlives its SpokeCluster |
| `FleetPasses.EnrolRound` | internal/controller/mce_discovery_controller.go:239-311 | a run that has come to a round of the create/update loop goes on with discovery calls on that name alone, to the same effect as Inventory.Enrol, whatever fails |
| `FleetPasses.PruneRound` | internal/controller/mce_discovery_controller.go:314-325 | the same for a round of the delete loop |
| `FleetPasses.SweepRound` | internal/controller/mce_discovery_controller.go:593-657 | the same for a round of either companion cleanup, which ends the pass on an error |
| `FleetPasses.SpokePassRun` | internal/controller/spokecluster_controller.go:152-265 | a run in which a spoke pass is due goes on with calls of that pass on that spoke alone, to the same effect as SpokePass.Reconcile, whatever fails; whatever it adds to the spoke is recorded as residue |
| `Teardown.SpokePassIsStep` | internal/controller/spokecluster_controller.go:249-265 | a spoke pass without HubConfig is a teardown step, a partial one if hub calls fail |
| `Teardown.DiscoveryPassIsSteps` | internal/controller/mce_discovery_controller.go:121-139 | whatever a failing discovery pass got done for a name is done by teardown steps on it |
| `Teardown.MeasureNeverGrows` | internal/controller/mce_discovery_controller.go:121-139 | no pass, failing or not, increases the lexicographic measure |
| `Teardown.DiscoverDrops` | internal/controller/mce_discovery_controller.go:626-683 | a discovery pass decreases it if and only if a live discovered SpokeCluster or an orphaned record exists |
| `Teardown.ReconcileDrops` | internal/controller/spokecluster_controller.go:249-265 | a spoke pass decreases it if and only if its SpokeCluster is discovered and terminating |
| `Teardown.SomethingDrops` | internal/controller/mce_discovery_controller.go:121-139 | nothing decreases it if and only if nothing of discovery's own is left, and guarded Secrets then belong to SpokeClusters made by hand |
| `Teardown.TeardownEnds` | internal/controller/mce_discovery_controller.go:121-139 | in every run with a discovery pass, then a pass on each discovered spoke, then a discovery pass, no discovered SpokeCluster, owned ManagedServiceAccount or owned ManifestWork is left from then on, and no Secret of a discovered spoke on which no pass failed |
| `Teardown.SecretsGone` | internal/controller/spokecluster_controller.go:361-383 | after a discovery pass and then a pass on the spoke, with no failing pass on it, neither the SpokeCluster nor a Secret of it is left |
| `Teardown.OnlyFailureLeavesSecrets` | internal/controller/spokecluster_controller.go:361-383 | in every run Secrets stay guarded by a finalizer unless a pass on that spoke failed |
| `Teardown.PassGuards` | internal/controller/spokecluster_controller.go:152-265 | whatever HubConfig says and whatever else fails, a spoke pass keeps both Secrets guarded unless the delete of one fails |
| `Teardown.SecretsCollected` | internal/controller/spokecluster_controller.go:361-383 | what failing passes left garbage collection may take by then, and once it has they are gone for good |
| `Teardown.SecretsGoneAtOnce` | internal/controller/spokecluster_controller.go:361-383 | a successful pass on a terminating SpokeCluster leaves neither Secret, whatever came before |

## Left out

- Stale informer caches: reads are current.
- cmd/main.go, flags, manager wiring, logging and the lazy watch registration: no property of their own.
- Network and client-library internals, internal/credential/secret.go and internal/credential/mce.go: inputs of the model.
- The literal RBAC rules, Deployment fields, ConfigMap text and manifests: only identity and, for the ManifestWork, equality matter.
- Deletion of a namespace and what it takes with it on spoke or hub.
- The order of the deletes within Deprovision and DeprovisionAdapter, which no other component observes.
- Kubernetes events, beyond the flag that decides the cleanup warning.
- Foreign finalizers in `SpokePass`, `Teardown` and `Inventory`: there an object marked for deletion is there only while it has the operator's finalizer; `Fleet`, `StatusProtocol` and `AdapterStack` include them.
- Calendar arithmetic of expiry strings, and the scheduling of the health handler's ticker.
- `Fleet` does not tell the API server, source and conditions of a SpokeCluster apart: these are the subject of `Inventory` and `StatusProtocol`.
