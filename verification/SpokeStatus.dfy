/**
 What one reconcile pass of a SpokeCluster writes into its local condition list,
 and the event predicate that turns status writes into further passes.
 */
module SpokeStatus {
  import opened Kube
  import opened Conditions

  const MANAGED := "Managed"
  const HUB_CONFIG_MISSING := "HubConfigMissing"
  const CREDENTIAL_SOURCE_MISMATCH := "CredentialSourceMismatch"
  const CONNECTION_SUCCEEDED := "ConnectionSucceeded"
  const CONNECTION_FAILED := "ConnectionFailed"
  const CREDENTIAL_ERROR := "CredentialError"
  const PROVISIONING_SUCCEEDED := "ProvisioningSucceeded"
  const PROVISIONING_FAILED := "ProvisioningFailed"
  const ADAPTERS_READY := "AdaptersReady"
  const ADAPTERS_FAILED := "AdaptersFailed"
  const REACHABLE := "spoke API server is reachable"

  datatype Stage = ConnectStage | ProvisionStage | AdapterStage

  /** How a pass on a live, finalized SpokeCluster ends before it touches the stored status. */
  datatype Verdict =
    | Unmanaged(reason: string, message: string)
    | Failed(stage: Stage, reason: string, message: string)
    | Managed

  function KindOf(stage: Stage): Kind {
    match stage
    case ConnectStage => Connected
    case ProvisionStage => Provisioned
    case AdapterStage => AdaptersReady
  }

  /** Connectivity failures wait for the health handler; every other failure is returned for backoff. */
  predicate Retries(v: Verdict) {
    v.Failed? && v.reason != CONNECTION_FAILED
  }

  /** setCondition: the new entry has no transition time of its own. */
  function Write(cs: seq<Condition>, k: Kind, facts: Facts, now: nat): seq<Condition> {
    Set(cs, Condition(k, facts.status, facts.reason, facts.message, facts.generation, 0), now)
  }

  function PassedFacts(stage: Stage, generation: nat): Facts {
    match stage
    case ConnectStage => Facts(Yes, CONNECTION_SUCCEEDED, REACHABLE, generation)
    case ProvisionStage => Facts(Yes, PROVISIONING_SUCCEEDED, "spoke-side resources provisioned", generation)
    case AdapterStage => Facts(Yes, ADAPTERS_READY, "adapter credential Secrets provisioned", generation)
  }

  function ReadyFacts(generation: nat): Facts {
    Facts(Yes, MANAGED, "spoke is managed by hub", generation)
  }

  function Pass(cs: seq<Condition>, stage: Stage, generation: nat, now: nat): seq<Condition> {
    Write(cs, KindOf(stage), PassedFacts(stage, generation), now)
  }

  /** The list as it stands when `stage` begins. */
  function Before(read: seq<Condition>, stage: Stage, generation: nat, now: nat): seq<Condition> {
    match stage
    case ConnectStage => read
    case ProvisionStage => Pass(read, ConnectStage, generation, now)
    case AdapterStage => Pass(Pass(read, ConnectStage, generation, now), ProvisionStage, generation, now)
  }

  /** The local condition list handed to patchStatus. */
  function Decide(read: seq<Condition>, v: Verdict, generation: nat, now: nat): seq<Condition> {
    match v
    case Managed =>
      var staged := Pass(Before(read, AdapterStage, generation, now), AdapterStage, generation, now);
      Write(staged, Ready, ReadyFacts(generation), now)
    case Failed(stage, reason, message) =>
      var facts := Facts(No, reason, message, generation);
      Write(Write(Before(read, stage, generation, now), KindOf(stage), facts, now), Ready, facts, now)
    case Unmanaged(reason, message) =>
      var cleared := Write(read, Ready, Facts(No, reason, message, generation), now);
      Remove(Remove(Remove(cleared, Connected), Provisioned), AdaptersReady)
  }

  predicate Earlier(a: Stage, b: Stage) {
    (a.ConnectStage? && !b.ConnectStage?) || (a.ProvisionStage? && b.AdapterStage?)
  }

  /** The map each verdict denotes, stated without the order of the writes. */
  ghost function Intended(read: seq<Condition>, v: Verdict, generation: nat, k: Kind): Option<Facts> {
    match k
    case Unrelated(_) => FactsAt(read, k)
    case Ready =>
      if v.Managed? then Some(ReadyFacts(generation)) else Some(Facts(No, v.reason, v.message, generation))
    case _ =>
      var stage := if k.Connected? then ConnectStage else if k.Provisioned? then ProvisionStage else AdapterStage;
      match v
      case Unmanaged(_, _) => None
      case Managed => Some(PassedFacts(stage, generation))
      case Failed(at, reason, message) =>
        if stage == at then Some(Facts(No, reason, message, generation))
        else if Earlier(stage, at) then Some(PassedFacts(stage, generation))
        else FactsAt(read, k)
  }

  lemma FactsAtWrite(cs: seq<Condition>, k: Kind, facts: Facts, now: nat, j: Kind)
    ensures FactsAt(Write(cs, k, facts, now), j) == if j == k then Some(facts) else FactsAt(cs, j)
  {
    FindSet(cs, Condition(k, facts.status, facts.reason, facts.message, facts.generation, 0), now, j);
  }

  lemma WriteUnique(cs: seq<Condition>, k: Kind, facts: Facts, now: nat)
    requires Unique(cs)
    ensures Unique(Write(cs, k, facts, now))
  {
    SetUnique(cs, Condition(k, facts.status, facts.reason, facts.message, facts.generation, 0), now);
  }

  lemma FactsAtBefore(read: seq<Condition>, stage: Stage, generation: nat, now: nat, k: Kind)
    ensures FactsAt(Before(read, stage, generation, now), k) ==
            if k.Connected? && !stage.ConnectStage? then Some(PassedFacts(ConnectStage, generation))
            else if k.Provisioned? && stage.AdapterStage? then Some(PassedFacts(ProvisionStage, generation))
            else FactsAt(read, k)
    ensures Unique(read) ==> Unique(Before(read, stage, generation, now))
  {
    var connected := Pass(read, ConnectStage, generation, now);
    FactsAtWrite(read, Connected, PassedFacts(ConnectStage, generation), now, k);
    FactsAtWrite(connected, Provisioned, PassedFacts(ProvisionStage, generation), now, k);
    if Unique(read) {
      WriteUnique(read, Connected, PassedFacts(ConnectStage, generation), now);
      WriteUnique(connected, Provisioned, PassedFacts(ProvisionStage, generation), now);
    }
  }

  /** A write stamps a new time exactly if it moves the status. */
  lemma WriteSince(cs: seq<Condition>, k: Kind, facts: Facts, now: nat)
    ensures var written := Find(Write(cs, k, facts, now), k);
      && written.Some?
      && (if Find(cs, k).Some? && Find(cs, k).value.status == facts.status
          then written.value.since == Find(cs, k).value.since
          else written.value.since == now)
  {
    FindSet(cs, Condition(k, facts.status, facts.reason, facts.message, facts.generation, 0), now, k);
  }

  /** What a passed stage and a managed spoke say, word for word. */
  lemma PassedSays(generation: nat)
    ensures PassedFacts(ConnectStage, generation) ==
      Facts(Yes, "ConnectionSucceeded", "spoke API server is reachable", generation)
    ensures PassedFacts(ProvisionStage, generation) ==
      Facts(Yes, "ProvisioningSucceeded", "spoke-side resources provisioned", generation)
    ensures PassedFacts(AdapterStage, generation) ==
      Facts(Yes, "AdaptersReady", "adapter credential Secrets provisioned", generation)
    ensures ReadyFacts(generation) == Facts(Yes, "Managed", "spoke is managed by hub", generation)
    ensures KindOf(ConnectStage) == Connected && KindOf(ProvisionStage) == Provisioned
    ensures KindOf(AdapterStage) == AdaptersReady
  {
  }

  /** Every verdict writes its intended map: earlier stages True, the failing one and Ready False. */
  lemma DecideExact(read: seq<Condition>, v: Verdict, generation: nat, now: nat, k: Kind)
    ensures FactsAt(Decide(read, v, generation, now), k) == Intended(read, v, generation, k)
  {
    match v
    case Managed =>
      var before := Before(read, AdapterStage, generation, now);
      FactsAtBefore(read, AdapterStage, generation, now, k);
      FactsAtWrite(before, AdaptersReady, PassedFacts(AdapterStage, generation), now, k);
      FactsAtWrite(Pass(before, AdapterStage, generation, now), Ready, ReadyFacts(generation), now, k);
    case Failed(stage, reason, message) =>
      var before := Before(read, stage, generation, now);
      var facts := Facts(No, reason, message, generation);
      FactsAtBefore(read, stage, generation, now, k);
      FactsAtWrite(before, KindOf(stage), facts, now, k);
      FactsAtWrite(Write(before, KindOf(stage), facts, now), Ready, facts, now, k);
    case Unmanaged(reason, message) =>
      var facts := Facts(No, reason, message, generation);
      var cleared := Write(read, Ready, facts, now);
      FactsAtWrite(read, Ready, facts, now, k);
      FindRemove(cleared, Connected, k);
      FindRemove(Remove(cleared, Connected), Provisioned, k);
      FindRemove(Remove(Remove(cleared, Connected), Provisioned), AdaptersReady, k);
  }

  lemma DecideUnique(read: seq<Condition>, v: Verdict, generation: nat, now: nat)
    requires Unique(read)
    ensures Unique(Decide(read, v, generation, now))
  {
    match v
    case Managed =>
      var before := Before(read, AdapterStage, generation, now);
      FactsAtBefore(read, AdapterStage, generation, now, Ready);
      WriteUnique(before, AdaptersReady, PassedFacts(AdapterStage, generation), now);
      WriteUnique(Pass(before, AdapterStage, generation, now), Ready, ReadyFacts(generation), now);
    case Failed(stage, reason, message) =>
      var facts := Facts(No, reason, message, generation);
      var before := Before(read, stage, generation, now);
      FactsAtBefore(read, stage, generation, now, Ready);
      WriteUnique(before, KindOf(stage), facts, now);
      WriteUnique(Write(before, KindOf(stage), facts, now), Ready, facts, now);
    case Unmanaged(reason, message) =>
      var cleared := Write(read, Ready, Facts(No, reason, message, generation), now);
      WriteUnique(read, Ready, Facts(No, reason, message, generation), now);
      RemoveUnique(cleared, Connected);
      RemoveUnique(Remove(cleared, Connected), Provisioned);
      RemoveUnique(Remove(Remove(cleared, Connected), Provisioned), AdaptersReady);
  }

  /** The three stage conditions are True. */
  predicate StagesYes(cs: seq<Condition>) {
    IsYes(cs, Connected) && IsYes(cs, Provisioned) && IsYes(cs, AdaptersReady)
  }

  /** Only the Managed verdict claims Ready, and it claims it together with all three stages. */
  lemma DecideReady(read: seq<Condition>, v: Verdict, generation: nat, now: nat)
    ensures var local := Decide(read, v, generation, now);
      (IsYes(local, Ready) <==> v.Managed?) && (IsYes(local, Ready) ==> StagesYes(local))
  {
    DecideExact(read, v, generation, now, Ready);
    DecideExact(read, v, generation, now, Connected);
    DecideExact(read, v, generation, now, Provisioned);
    DecideExact(read, v, generation, now, AdaptersReady);
  }

  /** Deciding the same verdict again on top of its own result changes no fact. */
  lemma DecideSettles(read: seq<Condition>, stored: seq<Condition>, v: Verdict, generation: nat, now: nat, later: nat)
    requires SameMap(stored, Decide(read, v, generation, now))
    ensures SameMap(stored, Decide(stored, v, generation, later))
  {
    forall k ensures FactsAt(stored, k) == FactsAt(Decide(stored, v, generation, later), k) {
      assert FactsAt(stored, k) == FactsAt(Decide(read, v, generation, now), k);
      DecideExact(read, v, generation, now, k);
      DecideExact(stored, v, generation, later, k);
    }
  }

  /** The Connected clause of the update predicate in SetupWithManager. */
  predicate ConnectedMoved(before: seq<Condition>, after: seq<Condition>) {
    var b, a := Find(before, Connected), Find(after, Connected);
    b.Some? != a.Some? || (b.Some? && a.Some? && b.value.status != a.value.status)
  }

  /** The status of Connected, if there is one: the only thing about status updates that queues a key. */
  function ConnectedStatus(cs: seq<Condition>): Option<Status> {
    match FactsAt(cs, Connected)
    case None => None
    case Some(facts) => Some(facts.status)
  }

  lemma ConnectedMovedExactly(before: seq<Condition>, after: seq<Condition>)
    ensures ConnectedMoved(before, after) <==> ConnectedStatus(before) != ConnectedStatus(after)
  {
  }

  /** The condition the health handler writes after a connectivity probe. */
  function Probed(reachable: bool, message: string, generation: nat): Condition {
    if reachable then Condition(Connected, Yes, CONNECTION_SUCCEEDED, REACHABLE, generation, 0)
    else Condition(Connected, No, CONNECTION_FAILED, message, generation, 0)
  }

  /** checkSpoke skips the patch when the copy it listed already shows the probed status. */
  predicate ProbeNews(copy: seq<Condition>, reachable: bool) {
    var c := Find(copy, Connected);
    c.None? || c.value.status != (if reachable then Yes else No)
  }
}
