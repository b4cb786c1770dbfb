/**
 One uninterrupted reconcile pass of a SpokeCluster, as a function of the stored
 objects, the spoke and the outcome of every API call. The reconciler that performs
 the pass call by call is in Reconciler.dfy.
 */
module SpokePass {
  import opened Kube
  import opened Conditions
  import opened SpokeStatus
  import opened Credential
  import opened TokenRotation

  /** The six spoke-side objects; only their identity matters. */
  datatype Resource =
    | ManagedNamespace | AgentAccount | ReaderBinding | MonitoringBinding
    | AdapterAccount | AdapterBinding

  const BASE: seq<Resource> := [ManagedNamespace, AgentAccount, ReaderBinding, MonitoringBinding]
  const ADAPTER: seq<Resource> := [AdapterAccount, AdapterBinding]
  const ALL: set<Resource> :=
    {ManagedNamespace, AgentAccount, ReaderBinding, MonitoringBinding, AdapterAccount, AdapterBinding}

  /** Every call a pass can make; each happens at most once per pass. */
  datatype Call =
    | GetCr | AddFinalizer | GetHub
    | CreateStanding | GetStanding | UpdateStanding | LoadStanding
    | NewClient | CreateOn(resource: Resource) | DeleteOn(resource: Resource)
    | ReadToken | RequestToken
    | CreateAdapter | GetAdapter | UpdateAdapter
    | GetForLabel | UpdateLabel | GetDeployment | UpdateDeployment
    | GetForCleanup | DeleteStanding | DeleteAdapter | RemoveFinalizer
    | Refetch | SendStatus

  datatype Cr =
    Cr(name: Name, uid: nat, generation: nat, deleting: bool, finalizer: bool,
       source: Source, apiServer: string, credentialLabel: Option<SecretId>, conditions: seq<Condition>)

  /**
   `deployment` is the adapter Deployment, if it exists, by the number of its restarts; `requests`
   counts TokenRequest calls.
   */
  datatype World =
    World(cr: Option<Cr>, secrets: map<SecretId, Secret>, spoke: set<Resource>, deployment: Option<nat>, requests: nat)

  /** Everything a pass learns from outside: oracles, the clock and the calls that fail. */
  datatype Env = Env(
    hub: HubView,
    credentials: Option<RestConfig>,
    reachable: set<Kubeconfig>,
    issued: Token,
    url: Option<string>,
    ca: string,
    now: nat,
    fails: set<Call>,
    texts: map<Call, string>,
    credentialText: string,
    connectText: string,
    urlText: string)

  function ErrorText(env: Env, call: Call): string {
    if call in env.texts then env.texts[call] else ""
  }

  datatype Step = Step(world: World, error: Option<string>)

  /** Nothing of the SpokeCluster changed but that its credential label may have been set. */
  predicate OnlyLabel(w: World, after: World)
    requires w.cr.Some?
  {
    && after.cr.Some? && after.cr.value == w.cr.value.(credentialLabel := after.cr.value.credentialLabel)
    && (after.cr.value.credentialLabel == w.cr.value.credentialLabel || Labelled(after.cr.value))
  }

  function Owner(cr: Cr): OwnerRef {
    OwnerRef(cr.uid, cr.name)
  }

  /** Create, or on AlreadyExists compare and update: both ensure functions have this shape. */
  function EnsureSecret(env: Env, w: World, id: SecretId, want: Secret, keys: set<Key>,
                        create: Call, get: Call, update: Call): Step
  {
    if create in env.fails then Step(w, Some(ErrorText(env, create)))
    else if id !in w.secrets then Step(w.(secrets := w.secrets[id := want]), None)
    else if get in env.fails then Step(w, Some(ErrorText(env, get)))
    else if UpToDate(w.secrets[id], want, keys) then Step(w, None)
    else if update in env.fails then Step(w, Some(ErrorText(env, update)))
    else Step(w.(secrets := w.secrets[id := want]), None)
  }

  /** MCE spokes are reached through the proxy, others at the API server the spec names. */
  function WantedConfig(cr: Cr, cfg: RestConfig): Kubeconfig {
    BuildKubeconfig(cfg, if cr.source.FromMce? then "" else cr.apiServer)
  }

  function EnsureStanding(env: Env, w: World, cr: Cr, cfg: RestConfig): Step {
    EnsureSecret(env, w, StandingOf(cr.name), BuildStanding(Owner(cr), WantedConfig(cr, cfg)), STANDING_KEYS,
                 CreateStanding, GetStanding, UpdateStanding)
  }

  /** The kubeconfig in the standing Secret, if it is there and parses. */
  function Standing(w: World, spoke: Name): Option<Kubeconfig> {
    var id := StandingOf(spoke);
    if id !in w.secrets then None
    else
      var blob := Lookup(w.secrets[id].data, KubeconfigKey);
      if blob.Config? then Some(blob.config) else None
  }

  /** Ordered creates, stopping at the first that fails with anything but AlreadyExists. */
  function CreateInOrder(env: Env, spoke: set<Resource>, todo: seq<Resource>): (set<Resource>, Option<Resource>)
    decreases |todo|
  {
    if todo == [] then (spoke, None)
    else if CreateOn(todo[0]) in env.fails then (spoke, Some(todo[0]))
    else CreateInOrder(env, spoke + {todo[0]}, todo[1..])
  }

  function ProvisionIn(env: Env, w: World, todo: seq<Resource>): Step {
    var (spoke, failed) := CreateInOrder(env, w.spoke, todo);
    Step(w.(spoke := spoke), if failed.Some? then Some(ErrorText(env, CreateOn(failed.value))) else None)
  }

  /** readExistingTokenAndExpiry */
  function ExistingToken(env: Env, w: World, spoke: Name): Option<Token> {
    var id := AdapterOf(spoke);
    if ReadToken in env.fails || id !in w.secrets then None
    else
      var token, expiry := Lookup(w.secrets[id].data, TokenKey), Lookup(w.secrets[id].data, ExpiryKey);
      if token.Text? && token.text != "" && expiry.Instant? then Some(Token(token.text, expiry.at)) else None
  }

  /** restartAdapterDeployment: an absent Deployment is not an error and is never created. */
  function Restart(env: Env, w: World): Step {
    if GetDeployment in env.fails then Step(w, Some(ErrorText(env, GetDeployment)))
    else if w.deployment.None? then Step(w, None)
    else if UpdateDeployment in env.fails then Step(w, Some(ErrorText(env, UpdateDeployment)))
    else Step(w.(deployment := Some(w.deployment.value + 1)), None)
  }

  predicate Labelled(cr: Cr) {
    cr.credentialLabel == Some(AdapterOf(cr.name))
  }

  /** ensureAdapterLabel */
  function EnsureLabel(env: Env, w: World): Step
    requires w.cr.Some?
  {
    var cr := w.cr.value;
    if Labelled(cr) then Step(w, None)
    else if GetForLabel in env.fails then Step(w, Some(ErrorText(env, GetForLabel)))
    else if UpdateLabel in env.fails then Step(w, Some(ErrorText(env, UpdateLabel)))
    else Step(w.(cr := Some(cr.(credentialLabel := Some(AdapterOf(cr.name))))), None)
  }

  /** A label that was set just now is followed by a restart. */
  function LabelAndRestart(env: Env, w: World): Step
    requires w.cr.Some?
  {
    var labelled := EnsureLabel(env, w);
    if labelled.error.Some? || Labelled(w.cr.value) then labelled else Restart(env, labelled.world)
  }

  /** resolveAdapterToken: the world only remembers that a token was requested. */
  function AskToken(env: Env, w: World, spoke: Name): Step {
    if Reusable(ExistingToken(env, w, spoke), env.now) then Step(w, None)
    else Step(w.(requests := w.requests + 1),
              if RequestToken in env.fails then Some(ErrorText(env, RequestToken)) else None)
  }

  function WantedAdapter(env: Env, w: World, cr: Cr, url: string): Secret {
    var token := Rotate(ExistingToken(env, w, cr.name), env.now, env.issued);
    BuildAdapter(Owner(cr), url, token.value, token.expiry, env.ca)
  }

  function EnsureAdapter(env: Env, w: World, cr: Cr, want: Secret): Step {
    EnsureSecret(env, w, AdapterOf(cr.name), want, ADAPTER_KEYS, CreateAdapter, GetAdapter, UpdateAdapter)
  }

  /** The first half of reconcileAdapters: spoke resources, a token, the AlertManager URL. */
  function Prepare(env: Env, w: World): (r: Step)
    requires w.cr.Some?
    ensures r.world == w.(spoke := r.world.spoke, requests := r.world.requests)
    ensures r.error.None? ==> env.url.Some?
  {
    var provisioned := ProvisionIn(env, w, ADAPTER);
    if provisioned.error.Some? then provisioned
    else
      var asked := AskToken(env, provisioned.world, w.cr.value.name);
      if asked.error.None? && env.url.None? then Step(asked.world, Some(env.urlText)) else asked
  }

  /** The second half: the credential Secret, the label, the restart. */
  function Publish(env: Env, w: World, want: Secret): (r: Step)
    requires w.cr.Some?
    ensures OnlyLabel(w, r.world) && r.world.spoke == w.spoke && r.world.requests == w.requests
  {
    var stored := EnsureAdapter(env, w, w.cr.value, want);
    if stored.error.Some? then stored else LabelAndRestart(env, stored.world)
  }

  /** reconcileAdapters */
  function Adapters(env: Env, w: World): (r: Step)
    requires w.cr.Some?
    ensures OnlyLabel(w, r.world)
  {
    var prepared := Prepare(env, w);
    if prepared.error.Some? then prepared
    else Publish(env, prepared.world, WantedAdapter(env, w, w.cr.value, env.url.value))
  }

  /** Why a spoke is not managed at all, if so. */
  function Gate(env: Env, cr: Cr): Option<Verdict> {
    match env.hub
    case Missing => Some(Unmanaged(HUB_CONFIG_MISSING, "HubConfig 'cluster' not found"))
    case Terminating => Some(Unmanaged(HUB_CONFIG_MISSING, "HubConfig is being deleted"))
    case Active(mode) =>
      if SourceMatches(cr.source, mode) then None
      else Some(Unmanaged(CREDENTIAL_SOURCE_MISMATCH,
                          "credential source does not match clusterRegistryMode " + ModeText(mode)))
  }

  function ModeText(mode: Mode): string {
    match mode
    case SecretMode => "\"secret\""
    case MceMode => "\"mce\""
    case OtherMode => "\"\""
  }

  datatype Cleaned = Cleaned(world: World, failed: bool)

  /** The standing Secret could be read, held a usable kubeconfig, and a client was made from it. */
  predicate SpokeReached(env: Env, w: World, spoke: Name) {
    GetForCleanup !in env.fails && Standing(w, spoke).Some? && NewClient !in env.fails
  }

  predicate HasStandingKey(w: World, spoke: Name) {
    StandingOf(spoke) in w.secrets && KubeconfigKey in w.secrets[StandingOf(spoke)].data
  }

  function Deleted(env: Env, todo: set<Resource>): set<Resource> {
    set r | r in todo && DeleteOn(r) !in env.fails
  }

  /** cleanupSpokeResources, and the flag that decides its warning event. */
  function Cleanup(env: Env, w: World, spoke: Name): Cleaned {
    var reached := SpokeReached(env, w, spoke);
    var secrets := w.secrets - (if DeleteStanding in env.fails then {} else {StandingOf(spoke)});
    var deprovisioned := w.(
      spoke := if reached then w.spoke - Deleted(env, ALL) else w.spoke,
      secrets := secrets - (if DeleteAdapter in env.fails then {} else {AdapterOf(spoke)}));
    var failed :=
      || GetForCleanup in env.fails
      || (HasStandingKey(w, spoke) && (!reached || exists r :: r in ALL && DeleteOn(r) in env.fails));
    Cleaned(Restart(env, deprovisioned).world, failed)
  }

  datatype Judged = Judged(world: World, verdict: Verdict)

  /** Everything between the finalizer check and patchStatus. */
  function Judge(env: Env, w: World): (r: Judged)
    requires w.cr.Some?
    ensures OnlyLabel(w, r.world)
  {
    var cr := w.cr.value;
    var gate := Gate(env, cr);
    if gate.Some? then Judged(Cleanup(env, w, cr.name).world, gate.value)
    else if env.credentials.None? then Judged(w, Failed(ConnectStage, CREDENTIAL_ERROR, env.credentialText))
    else
      var ensured := EnsureStanding(env, w, cr, env.credentials.value);
      if ensured.error.Some? then Judged(w, Failed(ConnectStage, CREDENTIAL_ERROR, ensured.error.value))
      else Dial(env, ensured.world)
  }

  /** From loading the standing kubeconfig onwards. */
  function Dial(env: Env, w: World): (r: Judged)
    requires w.cr.Some?
    ensures OnlyLabel(w, r.world)
  {
    var config := Standing(w, w.cr.value.name);
    if LoadStanding in env.fails || config.None?
    then Judged(w, Failed(ConnectStage, CREDENTIAL_ERROR, ErrorText(env, LoadStanding)))
    else if config.value !in env.reachable
    then Judged(w, Failed(ConnectStage, CONNECTION_FAILED, env.connectText))
    else if NewClient in env.fails
    then Judged(w, Failed(ProvisionStage, PROVISIONING_FAILED, ErrorText(env, NewClient)))
    else
      var provisioned := ProvisionIn(env, w, BASE);
      if provisioned.error.Some?
      then Judged(provisioned.world, Failed(ProvisionStage, PROVISIONING_FAILED, provisioned.error.value))
      else
        var adapted := Adapters(env, provisioned.world);
        if adapted.error.Some?
        then Judged(adapted.world, Failed(AdapterStage, ADAPTERS_FAILED, adapted.error.value))
        else Judged(adapted.world, Managed)
  }

  datatype Outcome = Settled | Requeued | Errored

  datatype Result = Result(world: World, outcome: Outcome)

  /** patchStatus on the world a verdict was reached in; `read` is the list the pass started from. */
  function Report(env: Env, judged: Judged, read: seq<Condition>): Result
    requires judged.world.cr.Some?
  {
    var cr := judged.world.cr.value;
    var local := Decide(read, judged.verdict, cr.generation, env.now);
    var patch := PatchStatus(cr.conditions, local, env.now);
    if Refetch in env.fails || (patch.wrote && SendStatus in env.fails) then Result(judged.world, Errored)
    else Result(judged.world.(cr := Some(cr.(conditions := patch.conditions))),
                if Retries(judged.verdict) then Errored else Settled)
  }

  /** reconcileDelete */
  function Decommission(env: Env, w: World): Result
    requires w.cr.Some?
  {
    if !w.cr.value.finalizer then Result(w, Settled)
    else
      var cleaned := Cleanup(env, w, w.cr.value.name).world;
      if RemoveFinalizer in env.fails then Result(cleaned, Errored) else Result(cleaned.(cr := None), Settled)
  }

  /** SpokeClusterReconciler.Reconcile */
  function Reconcile(env: Env, w: World): Result {
    if GetCr in env.fails then Result(w, Errored)
    else if w.cr.None? then Result(w, Settled)
    else
      var cr := w.cr.value;
      if cr.deleting then Decommission(env, w)
      else if !cr.finalizer then
        if AddFinalizer in env.fails then Result(w, Errored)
        else Result(w.(cr := Some(cr.(finalizer := true))), Requeued)
      else if GetHub in env.fails then Result(w, Errored)
      else Report(env, Judge(env, w), cr.conditions)
  }
}
