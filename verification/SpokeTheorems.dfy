/** What a reconcile pass guarantees: earned readiness, idempotence, exact cleanup, isolation. */
module SpokeTheorems {
  import opened Kube
  import opened Conditions
  import opened SpokeStatus
  import opened Credential
  import opened TokenRotation
  import opened SpokePass

  /** A live SpokeCluster that already carries the finalizer. */
  predicate Live(w: World) {
    w.cr.Some? && !w.cr.value.deleting && w.cr.value.finalizer && Unique(w.cr.value.conditions)
  }

  function Spoke(w: World): Name
    requires w.cr.Some?
  {
    w.cr.value.name
  }

  // ----- secrets -----

  /** Only the named Secret may differ. */
  ghost predicate Elsewhere(before: map<SecretId, Secret>, after: map<SecretId, Secret>, id: SecretId) {
    forall other :: other != id ==>
      (other in after <==> other in before) && (other in before ==> after[other] == before[other])
  }

  lemma EnsureSecretExact(env: Env, w: World, id: SecretId, want: Secret, keys: set<Key>, create: Call, get: Call,
                          update: Call)
    ensures var r := EnsureSecret(env, w, id, want, keys, create, get, update);
      && r.world == w.(secrets := r.world.secrets)
      && Elsewhere(w.secrets, r.world.secrets, id)
      && (r.error.None? ==> id in r.world.secrets && UpToDate(r.world.secrets[id], want, keys))
      && (r.error.None? && id in w.secrets && UpToDate(w.secrets[id], want, keys) ==> r.world == w)
      && (r.error.Some? ==> r.world == w)
      && (r.error.Some? <==>
          || create in env.fails
          || (id in w.secrets && (get in env.fails || (!UpToDate(w.secrets[id], want, keys) && update in env.fails))))
  {
  }

  // ----- spoke resources -----

  lemma {:induction false} CreateInOrderExact(env: Env, spoke: set<Resource>, todo: seq<Resource>)
    ensures var (after, failed) := CreateInOrder(env, spoke, todo);
      && spoke <= after
      && (forall r :: r in after ==> r in spoke || r in todo)
      && (failed.None? <==> forall r :: r in todo ==> CreateOn(r) !in env.fails)
      && (failed.None? ==> forall r :: r in todo ==> r in after)
    decreases |todo|
  {
    if todo != [] && CreateOn(todo[0]) !in env.fails {
      CreateInOrderExact(env, spoke + {todo[0]}, todo[1..]);
      assert todo == [todo[0]] + todo[1..];
    }
  }

  lemma EveryResource(spoke: set<Resource>)
    requires forall r :: r in BASE || r in ADAPTER ==> r in spoke
    ensures ALL <= spoke
  {
  }

  // ----- readiness is earned -----

  /** The adapter Secret names this URL and CA, and holds a token with a whole-second expiry. */
  ghost predicate AdapterData(data: map<Key, Blob>, url: string, ca: string) {
    && Lookup(data, UrlKey) == Text(url)
    && Lookup(data, CaKey) == Text(ca)
    && Lookup(data, TokenKey).Text?
    && Lookup(data, ExpiryKey).Instant?
    && Lookup(data, ExpiryKey).at % SECOND == 0
  }

  /** What must be in place before Ready=True may be written. */
  ghost predicate Earned(env: Env, w: World)
  {
    && w.cr.Some? && env.credentials.Some?
    && var cr := w.cr.value;
    && ALL <= w.spoke
    && StandingOf(cr.name) in w.secrets
    && w.secrets[StandingOf(cr.name)].owners == [Owner(cr)]
    && Standing(w, cr.name) == Some(WantedConfig(cr, env.credentials.value))
    && WantedConfig(cr, env.credentials.value) in env.reachable
    && AdapterOf(cr.name) in w.secrets
    && w.secrets[AdapterOf(cr.name)].owners == [Owner(cr)]
    && env.url.Some? && AdapterData(w.secrets[AdapterOf(cr.name)].data, env.url.value, env.ca)
    && cr.credentialLabel == Some(AdapterOf(cr.name))
  }

  lemma StandingAfterEnsure(env: Env, w: World)
    requires w.cr.Some? && env.credentials.Some?
    ensures var cr := w.cr.value;
      var r := EnsureStanding(env, w, cr, env.credentials.value);
      && r.world == w.(secrets := r.world.secrets)
      && (r.error.None? ==>
          && StandingOf(cr.name) in r.world.secrets
          && r.world.secrets[StandingOf(cr.name)].owners == [Owner(cr)]
          && Standing(r.world, cr.name) == Some(WantedConfig(cr, env.credentials.value)))
  {
  }

  lemma PrepareExact(env: Env, w: World)
    requires w.cr.Some?
    ensures var r := Prepare(env, w);
      && w.spoke <= r.world.spoke
      && (r.error.None? ==> forall x :: x in ADAPTER ==> x in r.world.spoke)
  {
  }

  lemma PublishExact(env: Env, w: World, want: Secret)
    requires w.cr.Some?
    ensures var r, id := Publish(env, w, want), AdapterOf(Spoke(w));
      && Elsewhere(w.secrets, r.world.secrets, id)
      && (r.error.None? ==>
          && id in r.world.secrets && UpToDate(r.world.secrets[id], want, ADAPTER_KEYS)
          && r.world.cr.value.credentialLabel == Some(id))
  {
    EnsureSecretExact(env, w, AdapterOf(Spoke(w)), want, ADAPTER_KEYS, CreateAdapter, GetAdapter, UpdateAdapter);
  }

  /** reconcileAdapters leaves the standing Secret alone and, on success, everything it promises. */
  lemma AdaptersExact(env: Env, w: World)
    requires w.cr.Some?
    ensures var r, id := Adapters(env, w), AdapterOf(Spoke(w));
      && w.spoke <= r.world.spoke
      && Elsewhere(w.secrets, r.world.secrets, id)
      && (r.error.None? ==>
          && (forall x :: x in ADAPTER ==> x in r.world.spoke)
          && env.url.Some?
          && id in r.world.secrets
          && UpToDate(r.world.secrets[id], WantedAdapter(env, w, w.cr.value, env.url.value), ADAPTER_KEYS)
          && r.world.cr.value.credentialLabel == Some(id))
  {
    PrepareExact(env, w);
    var prepared := Prepare(env, w);
    if prepared.error.None? {
      PublishExact(env, prepared.world, WantedAdapter(env, w, w.cr.value, env.url.value));
    }
  }

  lemma WantedAdapterData(env: Env, w: World, cr: Cr, url: string, stored: Secret)
    requires UpToDate(stored, WantedAdapter(env, w, cr, url), ADAPTER_KEYS)
    ensures AdapterData(stored.data, url, env.ca)
  {
  }

  lemma DialEarned(env: Env, w: World)
    requires w.cr.Some? && env.credentials.Some?
    requires StandingOf(Spoke(w)) in w.secrets && w.secrets[StandingOf(Spoke(w))].owners == [Owner(w.cr.value)]
    requires Standing(w, Spoke(w)) == Some(WantedConfig(w.cr.value, env.credentials.value))
    ensures Dial(env, w).verdict.Managed? ==> Earned(env, Dial(env, w).world)
  {
    if Dial(env, w).verdict.Managed? {
      var cr := w.cr.value;
      CreateInOrderExact(env, w.spoke, BASE);
      var provisioned := ProvisionIn(env, w, BASE).world;
      AdaptersExact(env, provisioned);
      EveryResource(Dial(env, w).world.spoke);
      WantedAdapterData(env, provisioned, cr, env.url.value, Dial(env, w).world.secrets[AdapterOf(cr.name)]);
    }
  }

  /** A pass judges a spoke Managed only with everything in place. */
  lemma ManagedIsEarned(env: Env, w: World)
    requires w.cr.Some?
    ensures Judge(env, w).verdict.Managed? ==> Gate(env, w.cr.value).None? && Earned(env, Judge(env, w).world)
  {
    if Gate(env, w.cr.value).None? && env.credentials.Some? {
      StandingAfterEnsure(env, w);
      var ensured := EnsureStanding(env, w, w.cr.value, env.credentials.value);
      if ensured.error.None? {
        DialEarned(env, ensured.world);
      }
    }
  }

  /** A list that denotes the map intended for a verdict says Ready only if the verdict is Managed. */
  lemma ReadyMeansManaged(cs: seq<Condition>, read: seq<Condition>, v: Verdict, generation: nat)
    requires forall k :: FactsAt(cs, k) == Intended(read, v, generation, k)
    requires IsYes(cs, Ready)
    ensures v.Managed?
    ensures FactsAt(cs, Ready) == Some(ReadyFacts(generation))
    ensures forall stage :: FactsAt(cs, KindOf(stage)) == Some(PassedFacts(stage, generation))
  {
    assert FactsAt(cs, Ready) == Intended(read, v, generation, Ready);
    forall stage ensures FactsAt(cs, KindOf(stage)) == Some(PassedFacts(stage, generation)) {
      assert FactsAt(cs, KindOf(stage)) == Intended(read, v, generation, KindOf(stage));
    }
  }

  /** The status this pass stored. */
  function StatusAfter(env: Env, w: World): seq<Condition>
    requires Live(w)
  {
    var r := Reconcile(env, w).world;
    if r.cr.Some? then r.cr.value.conditions else []
  }

  /**
   Readiness is earned: a pass that changes the status to one saying Ready=True has all six
   spoke resources, both owned Secrets and the label in place, and says True for all three stages,
   at the generation it worked on.
   */
  lemma ReadyIsEarned(env: Env, w: World)
    requires Live(w)
    ensures var status, generation := StatusAfter(env, w), w.cr.value.generation;
      status != w.cr.value.conditions && IsYes(status, Ready) ==>
        && Earned(env, Reconcile(env, w).world)
        && FactsAt(status, Ready) == Some(ReadyFacts(generation))
        && forall stage :: FactsAt(status, KindOf(stage)) == Some(PassedFacts(stage, generation))
  {
    ReportedExactly(env, w);
    if StatusAfter(env, w) != w.cr.value.conditions && IsYes(StatusAfter(env, w), Ready) {
      ReadyMeansManaged(StatusAfter(env, w), w.cr.value.conditions, Judge(env, w).verdict, w.cr.value.generation);
      ManagedIsEarned(env, w);
    }
  }

  /** A status write carries exactly the map intended for the verdict, and changes nothing else. */
  lemma ReportedExactly(env: Env, w: World)
    requires Live(w)
    ensures var after, judged := Reconcile(env, w).world, Judge(env, w);
      && after.cr.Some?
      && Unique(after.cr.value.conditions)
      && (after.cr.value.conditions != w.cr.value.conditions ==>
          && after == judged.world.(cr := Some(judged.world.cr.value.(conditions := after.cr.value.conditions)))
          && forall k :: FactsAt(after.cr.value.conditions, k) ==
                         Intended(w.cr.value.conditions, judged.verdict, w.cr.value.generation, k))
  {
    if GetCr !in env.fails && GetHub !in env.fails {
      var judged := Judge(env, w);
      var read, generation := w.cr.value.conditions, w.cr.value.generation;
      var local := Decide(read, judged.verdict, generation, env.now);
      DecideUnique(read, judged.verdict, generation, env.now);
      PatchStatusExact(read, local, env.now);
      forall k ensures FactsAt(PatchStatus(read, local, env.now).conditions, k) ==
        Intended(read, judged.verdict, generation, k) {
        DecideExact(read, judged.verdict, generation, env.now, k);
        assert FactsAt(PatchStatus(read, local, env.now).conditions, k) == FactsAt(local, k);
      }
    }
  }

  // ----- idempotence of success -----

  lemma {:induction false} CreateInOrderNoop(env: Env, spoke: set<Resource>, todo: seq<Resource>)
    requires forall r :: r in todo ==> r in spoke && CreateOn(r) !in env.fails
    ensures CreateInOrder(env, spoke, todo) == (spoke, None)
    decreases |todo|
  {
    if todo != [] {
      assert todo[0] in todo;
      assert spoke + {todo[0]} == spoke;
      CreateInOrderNoop(env, spoke, todo[1..]);
    }
  }

  /** A stored token that is still good is written back byte for byte. */
  lemma WantedAdapterSettled(env: Env, w: World, cr: Cr, url: string)
    requires AdapterOf(cr.name) in w.secrets && w.secrets[AdapterOf(cr.name)].owners == [Owner(cr)]
    requires AdapterData(w.secrets[AdapterOf(cr.name)].data, url, env.ca)
    requires Reusable(ExistingToken(env, w, cr.name), env.now)
    ensures UpToDate(w.secrets[AdapterOf(cr.name)], WantedAdapter(env, w, cr, url), ADAPTER_KEYS)
  {
  }

  lemma AdaptersSettled(env: Env, w: World)
    requires Earned(env, w) && env.fails == {}
    requires Reusable(ExistingToken(env, w, Spoke(w)), env.now)
    ensures Adapters(env, w) == Step(w, None)
  {
    var cr := w.cr.value;
    CreateInOrderNoop(env, w.spoke, ADAPTER);
    assert ProvisionIn(env, w, ADAPTER) == Step(w, None);
    assert AskToken(env, w, cr.name) == Step(w, None);
    WantedAdapterSettled(env, w, cr, env.url.value);
    EnsureSecretExact(env, w, AdapterOf(cr.name), WantedAdapter(env, w, cr, env.url.value), ADAPTER_KEYS,
                      CreateAdapter, GetAdapter, UpdateAdapter);
  }

  lemma JudgeSettled(env: Env, w: World)
    requires Earned(env, w) && env.fails == {} && Gate(env, w.cr.value).None?
    requires Reusable(ExistingToken(env, w, Spoke(w)), env.now)
    ensures Judge(env, w) == Judged(w, Managed)
  {
    var cr := w.cr.value;
    var want := BuildStanding(Owner(cr), WantedConfig(cr, env.credentials.value));
    EnsureSecretExact(env, w, StandingOf(cr.name), want, STANDING_KEYS, CreateStanding, GetStanding, UpdateStanding);
    assert EnsureStanding(env, w, cr, env.credentials.value) == Step(w, None);
    CreateInOrderNoop(env, w.spoke, BASE);
    assert ProvisionIn(env, w, BASE) == Step(w, None);
    AdaptersSettled(env, w);
  }

  /** The same surroundings later on, with every call succeeding. */
  function Later(env: Env, now: nat, issued: Token): Env {
    env.(now := now, issued := issued, fails := {})
  }

  /** A pass over a world where everything is in place, reported and reusable changes nothing. */
  lemma SettledPass(env: Env, w: World, read: seq<Condition>, earlier: nat)
    requires Live(w) && Earned(env, w) && env.fails == {} && Gate(env, w.cr.value).None?
    requires Reusable(ExistingToken(env, w, Spoke(w)), env.now)
    requires SameMap(w.cr.value.conditions, Decide(read, Managed, w.cr.value.generation, earlier))
    ensures Reconcile(env, w) == Result(w, Settled)
  {
    JudgeSettled(env, w);
    SettledReport(env, w, read, Managed, earlier);
  }

  /** What is in place and reported after patchStatus has stored the verdict Managed. */
  lemma ReportLeaves(env: Env, judged: Judged, read: seq<Condition>)
    requires Earned(env, judged.world) && Live(judged.world) && judged.verdict.Managed?
    requires judged.world.cr.value.conditions == read
    ensures var after := Report(env, judged, read).world;
      && after.cr.Some? && after.cr.value.source == judged.world.cr.value.source
      && Live(after) && Earned(env, after)
      && (Report(env, judged, read).outcome.Settled? ==>
          SameMap(after.cr.value.conditions, Decide(read, Managed, after.cr.value.generation, env.now)))
  {
    ReportStores(env, judged, read);
  }

  lemma SuccessLeaves(env: Env, w: World)
    requires Live(w)
    ensures Judge(env, w).verdict.Managed? && Reconcile(env, w).outcome.Settled? ==>
      var after := Reconcile(env, w).world;
      && Live(after) && Earned(env, after) && Gate(env, after.cr.value).None?
      && SameMap(after.cr.value.conditions, Decide(w.cr.value.conditions, Managed, after.cr.value.generation, env.now))
  {
    var judged := Judge(env, w);
    if judged.verdict.Managed? && Reconcile(env, w).outcome.Settled? {
      assert Reconcile(env, w) == Report(env, judged, w.cr.value.conditions);
      ManagedIsEarned(env, w);
      ReportLeaves(env, judged, w.cr.value.conditions);
    }
  }

  /**
   Idempotence of success: after a pass that judged the spoke Managed and reported it, whatever
   failed on the way, a later undisturbed pass that finds the token still good changes no stored
   object on hub or spoke, restarts nothing and requests no token.
   */
  lemma SuccessIsIdempotent(env: Env, w: World, now: nat, issued: Token)
    requires Live(w)
    ensures var after, later := Reconcile(env, w).world, Later(env, now, issued);
      && Judge(env, w).verdict.Managed? && Reconcile(env, w).outcome.Settled?
      && after.cr.Some? && Reusable(ExistingToken(later, after, Spoke(after)), now)
      ==> Reconcile(later, after) == Result(after, Settled)
  {
    SuccessLeaves(env, w);
    var r, later := Reconcile(env, w), Later(env, now, issued);
    if && Judge(env, w).verdict.Managed? && r.outcome.Settled?
       && r.world.cr.Some? && Reusable(ExistingToken(later, r.world, Spoke(r.world)), now) {
      SettledPass(later, r.world, w.cr.value.conditions, env.now);
    }
  }

  /** patchStatus changes the condition list only, and unless a call failed it leaves the decided map there. */
  lemma ReportStores(env: Env, judged: Judged, read: seq<Condition>)
    requires judged.world.cr.Some? && judged.world.cr.value.conditions == read && Unique(read)
    ensures var r, cr := Report(env, judged, read), judged.world.cr.value;
      && r.world.cr.Some?
      && r.world == judged.world.(cr := Some(cr.(conditions := r.world.cr.value.conditions)))
      && Unique(r.world.cr.value.conditions)
      && (r.outcome.Settled? || (Refetch !in env.fails && SendStatus !in env.fails) ==>
          SameMap(r.world.cr.value.conditions, Decide(read, judged.verdict, cr.generation, env.now)))
  {
    var cr := judged.world.cr.value;
    DecideUnique(read, judged.verdict, cr.generation, env.now);
    PatchStatusExact(read, Decide(read, judged.verdict, cr.generation, env.now), env.now);
  }

  /** Reporting the same verdict twice writes nothing the second time. */
  lemma SettledReport(env: Env, w: World, read: seq<Condition>, v: Verdict, earlier: nat)
    requires Live(w) && Refetch !in env.fails
    requires SameMap(w.cr.value.conditions, Decide(read, v, w.cr.value.generation, earlier))
    ensures Report(env, Judged(w, v), w.cr.value.conditions) ==
            Result(w, if Retries(v) then Errored else Settled)
  {
    var cr := w.cr.value;
    DecideSettles(read, cr.conditions, v, cr.generation, earlier, env.now);
    DecideUnique(cr.conditions, v, cr.generation, env.now);
    PatchStatusExact(cr.conditions, Decide(cr.conditions, v, cr.generation, env.now), env.now);
  }

  lemma DialWhenHealthy(env: Env, w: World)
    requires w.cr.Some? && env.fails == {} && Standing(w, Spoke(w)).Some?
    ensures Dial(env, w).verdict.Managed? <==> Standing(w, Spoke(w)).value in env.reachable && env.url.Some?
  {
    CreateInOrderExact(env, w.spoke, BASE);
    CreateInOrderExact(env, ProvisionIn(env, w, BASE).world.spoke, ADAPTER);
  }

  /** With every call succeeding, a spoke is managed exactly when its surroundings allow it. */
  lemma ManagedWhenHealthy(env: Env, w: World)
    requires w.cr.Some? && env.fails == {}
    ensures Judge(env, w).verdict.Managed? <==>
      && (|| (env.hub == Active(SecretMode) && w.cr.value.source.FromSecret?)
          || (env.hub == Active(MceMode) && w.cr.value.source.FromMce?))
      && env.credentials.Some? && WantedConfig(w.cr.value, env.credentials.value) in env.reachable
      && env.url.Some?
  {
    if Gate(env, w.cr.value).None? && env.credentials.Some? {
      StandingAfterEnsure(env, w);
      DialWhenHealthy(env, EnsureStanding(env, w, w.cr.value, env.credentials.value).world);
    }
  }

  /** A successful pass leaves exactly the token that rotation chose. */
  lemma DialStoresToken(env: Env, w: World)
    requires w.cr.Some? && Dial(env, w).verdict.Managed?
    ensures AdapterOf(Spoke(w)) in Dial(env, w).world.secrets
    ensures var data := Dial(env, w).world.secrets[AdapterOf(Spoke(w))].data;
      var token := Rotate(ExistingToken(env, w, Spoke(w)), env.now, env.issued);
      Lookup(data, TokenKey) == Text(token.value) && Lookup(data, ExpiryKey) == Instant(token.expiry)
  {
    var provisioned := ProvisionIn(env, w, BASE).world;
    AdaptersExact(env, provisioned);
    var want := WantedAdapter(env, provisioned, w.cr.value, env.url.value);
    assert TokenKey in ADAPTER_KEYS && ExpiryKey in ADAPTER_KEYS;
    assert Lookup(want.data, TokenKey) == Text(Rotate(ExistingToken(env, w, Spoke(w)), env.now, env.issued).value);
  }

  lemma JudgeStoresToken(env: Env, w: World)
    requires w.cr.Some? && Judge(env, w).verdict.Managed? && ReadToken !in env.fails
    requires Rotate(ExistingToken(env, w, Spoke(w)), env.now, env.issued).value != ""
    ensures ExistingToken(env, Judge(env, w).world, Spoke(w)) ==
            Some(Rotate(ExistingToken(env, w, Spoke(w)), env.now, env.issued))
  {
    StandingAfterEnsure(env, w);
    var cr := w.cr.value;
    var ensured := EnsureStanding(env, w, cr, env.credentials.value).world;
    EnsureSecretExact(env, w, StandingOf(cr.name), BuildStanding(Owner(cr), WantedConfig(cr, env.credentials.value)),
                      STANDING_KEYS, CreateStanding, GetStanding, UpdateStanding);
    assert ExistingToken(env, ensured, cr.name) == ExistingToken(env, w, cr.name);
    DialStoresToken(env, ensured);
  }

  /** Everything a spoke needs to be managed, and an issuer whose tokens outlast the buffer by a second. */
  predicate Healthy(env: Env, w: World)
    requires w.cr.Some?
  {
    && env.fails == {}
    && Gate(env, w.cr.value).None?
    && env.credentials.Some? && WantedConfig(w.cr.value, env.credentials.value) in env.reachable
    && env.url.Some?
    && env.issued.value != "" && env.issued.expiry >= env.now + ROTATION_BUFFER + SECOND
    && Whole(ExistingToken(env, w, Spoke(w)))
  }

  /** In healthy surroundings one pass settles every live spoke: an immediate second pass changes nothing at all. */
  lemma HealthyPassSettles(env: Env, w: World, issued: Token)
    requires Live(w) && Healthy(env, w)
    ensures var after := Reconcile(env, w).world;
      Earned(env, after) && Reconcile(Later(env, env.now, issued), after) == Result(after, Settled)
  {
    ManagedWhenHealthy(env, w);
    ManagedIsEarned(env, w);
    var existing := ExistingToken(env, w, Spoke(w));
    if Reusable(existing, env.now) {
      WholeTruncates(existing.value.expiry);
    }
    JudgeStoresToken(env, w);
    ReportStores(env, Judge(env, w), w.cr.value.conditions);
    SuccessIsIdempotent(env, w, env.now, issued);
  }

  // ----- cleanup -----

  /** Only the two Secrets of this spoke may differ. */
  ghost predicate OwnSecretsOnly(before: map<SecretId, Secret>, after: map<SecretId, Secret>, spoke: Name) {
    forall other :: other != StandingOf(spoke) && other != AdapterOf(spoke) ==>
      (other in after <==> other in before) && (other in before ==> after[other] == before[other])
  }

  /**
   Best-effort cleanup: whatever fails, each of the six spoke resources is gone unless its own
   delete failed or the spoke could not be reached, and each Secret unless its own delete failed.
   */
  lemma CleanupIsBestEffort(env: Env, w: World, spoke: Name)
    ensures var after := Cleanup(env, w, spoke).world;
      && after.cr == w.cr
      && (forall r: Resource :: r in after.spoke <==>
        r in w.spoke && (!SpokeReached(env, w, spoke) || DeleteOn(r) in env.fails))
      && (StandingOf(spoke) in after.secrets <==> StandingOf(spoke) in w.secrets && DeleteStanding in env.fails)
      && (AdapterOf(spoke) in after.secrets <==> AdapterOf(spoke) in w.secrets && DeleteAdapter in env.fails)
      && OwnSecretsOnly(w.secrets, after.secrets, spoke)
  {
    forall r: Resource ensures r in ALL {
      match r
      case ManagedNamespace =>
      case AgentAccount =>
      case ReaderBinding =>
      case MonitoringBinding =>
      case AdapterAccount =>
      case AdapterBinding =>
    }
  }

  /** When the standing Secret has its key and could be read, no warning means nothing is left on the spoke. */
  lemma WarningIsExact(env: Env, w: World, spoke: Name)
    requires HasStandingKey(w, spoke)
    ensures Cleanup(env, w, spoke).failed <==>
      !SpokeReached(env, w, spoke) || exists r: Resource :: DeleteOn(r) in env.fails
    ensures !Cleanup(env, w, spoke).failed ==> Cleanup(env, w, spoke).world.spoke == {}
  {
    CleanupIsBestEffort(env, w, spoke);
    forall r: Resource ensures r in ALL {
      match r
      case ManagedNamespace =>
      case AgentAccount =>
      case ReaderBinding =>
      case MonitoringBinding =>
      case AdapterAccount =>
      case AdapterBinding =>
    }
  }

  /** Without the key the spoke is left as it is and no warning is raised. */
  lemma MissingKeyIsSilent(env: Env, w: World, spoke: Name)
    requires GetForCleanup !in env.fails && !HasStandingKey(w, spoke)
    ensures !Cleanup(env, w, spoke).failed && Cleanup(env, w, spoke).world.spoke == w.spoke
  {
  }

  /**
   Exactly when cleanup leaves something on the spoke without a warning: the standing Secret, or
   its key, is missing.
   */
  lemma SilentResidueExactly(env: Env, w: World, spoke: Name)
    ensures var cleaned := Cleanup(env, w, spoke);
      !cleaned.failed && cleaned.world.spoke != {} <==>
        GetForCleanup !in env.fails && !HasStandingKey(w, spoke) && w.spoke != {}
  {
    if HasStandingKey(w, spoke) {
      WarningIsExact(env, w, spoke);
    } else if GetForCleanup !in env.fails {
      MissingKeyIsSilent(env, w, spoke);
    }
  }

  /**
   Exactly when a Secret outlives its terminating SpokeCluster: its own delete failed, and the removal
   of the finalizer did not.
   */
  lemma SecretOutlivesExactly(env: Env, w: World)
    requires w.cr.Some? && w.cr.value.deleting && w.cr.value.finalizer && GetCr !in env.fails
    ensures var after, n := Reconcile(env, w).world, Spoke(w);
      && (after.cr.None? && StandingOf(n) in after.secrets <==>
          RemoveFinalizer !in env.fails && DeleteStanding in env.fails && StandingOf(n) in w.secrets)
      && (after.cr.None? && AdapterOf(n) in after.secrets <==>
          RemoveFinalizer !in env.fails && DeleteAdapter in env.fails && AdapterOf(n) in w.secrets)
  {
    CleanupIsBestEffort(env, w, Spoke(w));
    assert Reconcile(env, w) == Decommission(env, w);
  }

  lemma DialOwnSecrets(env: Env, w: World)
    requires w.cr.Some?
    ensures OwnSecretsOnly(w.secrets, Dial(env, w).world.secrets, Spoke(w))
  {
    AdaptersExact(env, ProvisionIn(env, w, BASE).world);
  }

  lemma JudgeOwnSecrets(env: Env, w: World)
    requires w.cr.Some?
    ensures OwnSecretsOnly(w.secrets, Judge(env, w).world.secrets, Spoke(w))
  {
    var cr := w.cr.value;
    if Gate(env, cr).Some? {
      CleanupIsBestEffort(env, w, Spoke(w));
    } else if env.credentials.Some? {
      EnsureSecretExact(env, w, StandingOf(cr.name), BuildStanding(Owner(cr), WantedConfig(cr, env.credentials.value)),
                        STANDING_KEYS, CreateStanding, GetStanding, UpdateStanding);
      DialOwnSecrets(env, EnsureStanding(env, w, cr, env.credentials.value).world);
    }
  }

  /**
   Isolation: whatever happens, a pass on one spoke leaves every Secret of every other spoke as it
   was. SecretNamesDistinct carries this over to the names the Secrets are stored under.
   */
  lemma PassKeepsOtherSecrets(env: Env, w: World)
    requires w.cr.Some?
    ensures OwnSecretsOnly(w.secrets, Reconcile(env, w).world.secrets, Spoke(w))
  {
    if w.cr.value.deleting {
      CleanupIsBestEffort(env, w, Spoke(w));
    } else {
      JudgeOwnSecrets(env, w);
    }
  }

  // ----- when the adapter is restarted -----

  /** The restart happens unless one of its two calls fails; a Deployment that does not exist is not created. */
  lemma RestartExactly(env: Env, w: World)
    ensures var r := Restart(env, w);
      && r.world == w.(deployment := r.world.deployment)
      && (r.world.deployment.Some? <==> w.deployment.Some?)
      && (w.deployment.Some? ==>
          r.world.deployment.value == w.deployment.value + (if RestartFails(env) then 0 else 1))
      && (r.error.Some? <==> GetDeployment in env.fails || (w.deployment.Some? && UpdateDeployment in env.fails))
  {
  }

  predicate RestartFails(env: Env) {
    GetDeployment in env.fails || UpdateDeployment in env.fails
  }

  /** The Deployment after a pass: restarted once if the label is newly set and both calls of the restart succeed. */
  function RestartedBy(env: Env, w: World, labelled: bool): Option<nat>
    requires w.cr.Some?
  {
    if w.deployment.Some? && !Labelled(w.cr.value) && labelled && !RestartFails(env) then Some(w.deployment.value + 1)
    else w.deployment
  }

  /** The restart a newly set label calls for did not happen. */
  predicate RestartMissed(w: World, after: World)
    requires w.cr.Some? && after.cr.Some?
  {
    !Labelled(w.cr.value) && Labelled(after.cr.value) && w.deployment.Some? && after.deployment == w.deployment
  }

  lemma AdaptersRestart(env: Env, w: World)
    requires w.cr.Some?
    ensures var after := Adapters(env, w).world;
      after.deployment == RestartedBy(env, w, Labelled(after.cr.value))
  {
    var prepared := Prepare(env, w);
    if prepared.error.None? {
      PublishRestart(env, prepared.world, WantedAdapter(env, w, w.cr.value, env.url.value));
    }
  }

  lemma PublishRestart(env: Env, w: World, want: Secret)
    requires w.cr.Some?
    ensures var after := Publish(env, w, want).world;
      after.deployment == RestartedBy(env, w, Labelled(after.cr.value))
  {
    var stored := EnsureAdapter(env, w, w.cr.value, want);
    if stored.error.None? {
      RestartExactly(env, EnsureLabel(env, stored.world).world);
    }
  }

  lemma DialRestart(env: Env, w: World)
    requires w.cr.Some?
    ensures var after := Dial(env, w).world;
      after.deployment == RestartedBy(env, w, Labelled(after.cr.value))
  {
    AdaptersRestart(env, ProvisionIn(env, w, BASE).world);
  }

  /** A pass on a spoke to be managed either changes nothing before it dials, or dials. */
  lemma JudgeDials(env: Env, w: World)
    requires w.cr.Some? && Gate(env, w.cr.value).None?
    ensures Judge(env, w).world == w
      || (env.credentials.Some? &&
        Judge(env, w) == Dial(env, EnsureStanding(env, w, w.cr.value, env.credentials.value).world))
  {
  }

  lemma JudgeRestart(env: Env, w: World)
    requires w.cr.Some? && Gate(env, w.cr.value).None?
    ensures Judge(env, w).world.deployment == RestartedBy(env, w, Labelled(Judge(env, w).world.cr.value))
  {
    var judged := Judge(env, w);
    JudgeDials(env, w);
    if judged.world != w {
      EnsureStandingFrame(env, w);
      var ensured := EnsureStanding(env, w, w.cr.value, env.credentials.value).world;
      DialRestart(env, ensured);
      assert RestartedBy(env, ensured, Labelled(judged.world.cr.value)) ==
        RestartedBy(env, w, Labelled(judged.world.cr.value));
    }
  }

  lemma EnsureStandingFrame(env: Env, w: World)
    requires w.cr.Some? && env.credentials.Some?
    ensures var after := EnsureStanding(env, w, w.cr.value, env.credentials.value).world;
      after == w.(secrets := after.secrets)
  {
  }

  /** A pass on a live spoke reports what it judged: only conditions differ. */
  lemma ReconcileReports(env: Env, w: World)
    requires Live(w) && GetCr !in env.fails && GetHub !in env.fails
    ensures var judged, after := Judge(env, w).world, Reconcile(env, w).world;
      after.cr.Some? && after == judged.(cr := Some(judged.cr.value.(conditions := after.cr.value.conditions)))
  {
    assert Reconcile(env, w) == Report(env, Judge(env, w), w.cr.value.conditions);
  }

  /** Once the label is there, no pass on the managed path restarts the Deployment. */
  lemma LabelledNeverRestarts(env: Env, w: World)
    requires Live(w) && Labelled(w.cr.value) && Gate(env, w.cr.value).None?
    ensures var after := Reconcile(env, w).world;
      Live(after) && Labelled(after.cr.value) && after.deployment == w.deployment
  {
    if GetCr !in env.fails && GetHub !in env.fails {
      ReconcileReports(env, w);
      JudgeRestart(env, w);
      ReportedExactly(env, w);
    }
  }

  /** The world after a sequence of passes. */
  function After(envs: seq<Env>, w: World): World
    decreases |envs|
  {
    if envs == [] then w else After(envs[1..], Reconcile(envs[0], w).world)
  }

  lemma {:induction false} LabelledNeverAgain(envs: seq<Env>, w: World)
    requires Live(w) && Labelled(w.cr.value) && forall env :: env in envs ==> Gate(env, w.cr.value).None?
    ensures After(envs, w).deployment == w.deployment
    decreases |envs|
  {
    if envs != [] {
      LabelledNeverRestarts(envs[0], w);
      SourceKept(envs[0], w);
      forall env | env in envs[1..] ensures Gate(env, Reconcile(envs[0], w).world.cr.value).None? {
        assert env in envs;
      }
      LabelledNeverAgain(envs[1..], Reconcile(envs[0], w).world);
    }
  }

  lemma SourceKept(env: Env, w: World)
    requires Live(w)
    ensures var after := Reconcile(env, w).world;
      after.cr.Some? && after.cr.value.source == w.cr.value.source
  {
    if GetCr !in env.fails && GetHub !in env.fails {
      ReconcileReports(env, w);
    }
  }

  /**
   Exactly when a pass that runs to its end and sets the label misses the restart: one of the two
   calls of the restart fails. A restart that is missed is not made up for by any number of later
   passes on the managed path.
   */
  lemma RestartMissedExactly(env: Env, w: World, envs: seq<Env>)
    requires Live(w) && Gate(env, w.cr.value).None? && w.deployment.Some?
    requires forall later :: later in envs ==> Gate(later, w.cr.value).None?
    ensures var after := Reconcile(env, w).world;
      after.cr.Some? && !Labelled(w.cr.value) && Labelled(after.cr.value) ==>
        && (RestartMissed(w, after) <==> RestartFails(env))
        && After(envs, after).deployment == after.deployment
  {
    if GetCr !in env.fails && GetHub !in env.fails && !Labelled(w.cr.value) {
      ReconcileReports(env, w);
      JudgeRestart(env, w);
      ReportedExactly(env, w);
      if Labelled(Reconcile(env, w).world.cr.value) {
        LabelledNeverAgain(envs, Reconcile(env, w).world);
      }
    }
  }

  /**
   A process that stops right after the label is stored, or loses the reply to that call, misses the
   restart as well, although neither call of the restart fails. RestartRuns has the exact condition
   over runs in which passes are interrupted anywhere.
   */
  lemma StoppedAfterLabel(env: Env, w: World, envs: seq<Env>)
    requires Live(w) && !Labelled(w.cr.value) && w.deployment.Some? && env.fails == {}
    requires forall later :: later in envs ==> Gate(later, w.cr.value).None?
    ensures var stopped := EnsureLabel(env, w).world;
      && stopped.cr.Some? && RestartMissed(w, stopped) && !RestartFails(env)
      && After(envs, stopped).deployment == w.deployment
  {
    LabelledNeverAgain(envs, EnsureLabel(env, w).world);
  }

  lemma AdaptersLoseRestart(env: Env, w: World, call: Call)
    requires w.cr.Some? && !Labelled(w.cr.value) && w.deployment.Some? && env.url.Some?
    requires env.fails == {call} && (call.GetDeployment? || call.UpdateDeployment?)
    ensures Adapters(env, w).error.Some? && Labelled(Adapters(env, w).world.cr.value)
  {
    CreateInOrderExact(env, w.spoke, ADAPTER);
  }

  lemma JudgeLosesRestart(env: Env, w: World, call: Call)
    requires Live(w) && !Labelled(w.cr.value) && w.deployment.Some?
    requires env.fails == {call} && (call.GetDeployment? || call.UpdateDeployment?)
    requires Gate(env, w.cr.value).None? && env.credentials.Some? && env.url.Some?
    requires WantedConfig(w.cr.value, env.credentials.value) in env.reachable
    ensures Judge(env, w).verdict.Failed? && Labelled(Judge(env, w).world.cr.value)
  {
    StandingAfterEnsure(env, w);
    var ensured := EnsureStanding(env, w, w.cr.value, env.credentials.value).world;
    DialLosesRestart(env, ensured, call);
  }

  lemma DialLosesRestart(env: Env, w: World, call: Call)
    requires w.cr.Some? && !Labelled(w.cr.value) && w.deployment.Some? && env.url.Some?
    requires env.fails == {call} && (call.GetDeployment? || call.UpdateDeployment?)
    requires Standing(w, Spoke(w)).Some? && Standing(w, Spoke(w)).value in env.reachable
    ensures Dial(env, w).verdict.Failed? && Labelled(Dial(env, w).world.cr.value)
  {
    CreateInOrderExact(env, w.spoke, BASE);
    AdaptersLoseRestart(env, ProvisionIn(env, w, BASE).world, call);
  }

  /**
   And it does happen: on every healthy but unlabelled spoke, if nothing but one of these calls
   fails, the pass fails with the label set, and the next one succeeds without the restart.
   */
  lemma LostRestart(env: Env, w: World, call: Call, now: nat)
    requires Live(w) && !Labelled(w.cr.value) && w.deployment.Some?
    requires env.fails == {call} && (call.GetDeployment? || call.UpdateDeployment?)
    requires Gate(env, w.cr.value).None? && env.credentials.Some? && env.url.Some?
    requires WantedConfig(w.cr.value, env.credentials.value) in env.reachable
    ensures var judged := Judge(env, w);
      var retry := Judge(Later(env, now, env.issued), judged.world);
      judged.verdict.Failed? && RestartMissed(w, judged.world) && retry.verdict.Managed? &&
        retry.world.deployment == w.deployment
  {
    var judged := Judge(env, w);
    JudgeLosesRestart(env, w, call);
    JudgeRestart(env, w);
    var later := Later(env, now, env.issued);
    ManagedWhenHealthy(later, judged.world);
    JudgeRestart(later, judged.world);
  }
}
