/**
 What each stage of a spoke pass does and reports, for every environment and every pattern of failing
 calls: the HubConfig gate, the kubeconfig that is dialled, the order of creation, which verdict is
 reached, what must be true for a condition to be written, and what cleanup restarts.
 */
module StageTheorems {
  import opened Kube
  import opened Conditions
  import opened SpokeStatus
  import opened Credential
  import opened TokenRotation
  import opened SpokePass
  import opened SpokeTheorems
  import Inventory

  // ----- the gate -----

  /** A spoke is managed exactly if HubConfig is there to stay and its mode is the kind of the spoke's credentials. */
  lemma GateExactly(env: Env, cr: Cr)
    ensures Gate(env, cr).None? <==>
      || (env.hub == Active(SecretMode) && cr.source.FromSecret?)
      || (env.hub == Active(MceMode) && cr.source.FromMce?)
    ensures env.hub.Missing? ==>
      Gate(env, cr) == Some(Unmanaged("HubConfigMissing", "HubConfig 'cluster' not found"))
    ensures env.hub.Terminating? ==>
      Gate(env, cr) == Some(Unmanaged("HubConfigMissing", "HubConfig is being deleted"))
    ensures env.hub.Active? && Gate(env, cr).Some? ==>
      Gate(env, cr).value.Unmanaged? && Gate(env, cr).value.reason == "CredentialSourceMismatch"
  {
  }

  /** What discovery enrols is managed in MCE mode, and unmanaged by a switch to any other. */
  lemma EnrolledPassesGate(x: Inventory.Entry, n: Name, address: string, fails: set<Inventory.Call>, env: Env, cr: Cr)
    requires !Inventory.Enrol(x, n, address, fails).error && (x.cr.Some? ==> x.cr.value.labelled)
    requires env.hub.Active?
    ensures var enrolled := Inventory.Enrol(x, n, address, fails).entry.cr;
      && enrolled.Some?
      && (cr.source == enrolled.value.source ==> (Gate(env, cr).None? <==> env.hub.mode == MceMode))
  {
    GateExactly(env, cr);
  }

  /** A pass with a closed gate creates nothing, and cleans up. */
  lemma GatedPass(env: Env, w: World)
    requires Live(w) && GetCr !in env.fails && GetHub !in env.fails && Gate(env, w.cr.value).Some?
    ensures var after, cleaned := Reconcile(env, w).world, Cleanup(env, w, Spoke(w)).world;
      after.cr.Some? && after == cleaned.(cr := Some(w.cr.value.(conditions := after.cr.value.conditions)))
  {
    CleanupIsBestEffort(env, w, Spoke(w));
    ReconcileReports(env, w);
  }

  // ----- the standing kubeconfig -----

  /**
   Where a standing kubeconfig is to point, and with what: at the API server of the spec if the spoke has
   credentials of its own and the spec names one, otherwise where the credentials lead; always with these
   credentials, and with their key only if there is a certificate for it.
   */
  ghost predicate PointsRight(config: Kubeconfig, cr: Cr, cfg: RestConfig) {
    && config.server == (if cr.source.FromSecret? && cr.apiServer != "" then cr.apiServer else cfg.host)
    && config.token == cfg.token && config.ca == cfg.ca && config.insecure == cfg.insecure
    && config.cert == cfg.cert && config.key == (if cfg.cert != "" then cfg.key else "")
  }

  lemma WantedConfigExactly(cr: Cr, cfg: RestConfig, config: Kubeconfig)
    ensures config == WantedConfig(cr, cfg) <==> PointsRight(config, cr, cfg)
  {
  }

  /** Once the standing Secret is ensured, it holds that kubeconfig. */
  lemma StandingPointsRight(env: Env, w: World)
    requires w.cr.Some? && env.credentials.Some?
    requires EnsureStanding(env, w, w.cr.value, env.credentials.value).error.None?
    ensures var config := Standing(EnsureStanding(env, w, w.cr.value, env.credentials.value).world, Spoke(w));
      config.Some? && PointsRight(config.value, w.cr.value, env.credentials.value)
  {
    StandingAfterEnsure(env, w);
    WantedConfigExactly(w.cr.value, env.credentials.value, WantedConfig(w.cr.value, env.credentials.value));
  }

  /** The adapter credential Secret names its optional CA only if there is one. */
  lemma AdapterSecretExactly(owner: OwnerRef, url: string, token: string, expiry: int, ca: string)
    ensures var secret := BuildAdapter(owner, url, token, expiry, ca);
      && secret.owners == [owner]
      && secret.data.Keys == {UrlKey, TokenKey, ExpiryKey} + (if ca != "" then {CaKey} else {})
      && secret.data[UrlKey] == Text(url) && secret.data[TokenKey] == Text(token)
      && secret.data[ExpiryKey] == Instant(expiry) && (ca != "" ==> secret.data[CaKey] == Text(ca))
  {
  }

  // ----- creation on the spoke -----

  /** The base resources: all four or an error, and none of the other three before the namespace. */
  lemma BaseExactly(env: Env, w: World)
    ensures var r := ProvisionIn(env, w, BASE);
      && (r.error.Some? <==>
          || CreateOn(ManagedNamespace) in env.fails || CreateOn(AgentAccount) in env.fails
          || CreateOn(ReaderBinding) in env.fails || CreateOn(MonitoringBinding) in env.fails)
      && (r.error.None? ==>
          r.world.spoke == w.spoke + {ManagedNamespace, AgentAccount, ReaderBinding, MonitoringBinding})
      && (r.world.spoke != w.spoke ==> ManagedNamespace in r.world.spoke)
      && (CreateOn(ManagedNamespace) in env.fails ==> r.world == w)
  {
    assert BASE[1..][1..] == [ReaderBinding, MonitoringBinding];
    assert BASE[1..][1..][1..] == [MonitoringBinding];
    assert BASE[1..][1..][1..][1..] == [];
  }

  /** The adapter resources: the account before its binding. */
  lemma AdapterResourcesExactly(env: Env, w: World)
    ensures var r := ProvisionIn(env, w, ADAPTER);
      && (r.error.Some? <==> CreateOn(AdapterAccount) in env.fails || CreateOn(AdapterBinding) in env.fails)
      && (r.error.None? ==> r.world.spoke == w.spoke + {AdapterAccount, AdapterBinding})
      && (CreateOn(AdapterAccount) in env.fails ==> r.world == w)
      && r.world == w.(spoke := r.world.spoke)
  {
    assert ADAPTER[1..][1..] == [];
  }

  // ----- which verdict -----

  /** Some call for the credentials or the standing Secret fails. */
  predicate CredentialsFail(env: Env, w: World)
    requires w.cr.Some?
  {
    var cr, id := w.cr.value, StandingOf(w.cr.value.name);
    || env.credentials.None?
    || CreateStanding in env.fails
    || LoadStanding in env.fails
    || (id in w.secrets && GetStanding in env.fails)
    || (id in w.secrets && UpdateStanding in env.fails
        && (|| w.secrets[id].owners != [OwnerRef(cr.uid, cr.name)]
            || Lookup(w.secrets[id].data, KubeconfigKey) != Config(WantedConfig(cr, env.credentials.value))))
  }

  /** Some call of the provision stage fails. */
  predicate ProvisioningFails(env: Env) {
    || NewClient in env.fails
    || CreateOn(ManagedNamespace) in env.fails || CreateOn(AgentAccount) in env.fails
    || CreateOn(ReaderBinding) in env.fails || CreateOn(MonitoringBinding) in env.fails
  }

  /** Storing the adapter credential Secret fails. */
  predicate AdapterSecretFails(env: Env, w: World, want: Secret)
    requires w.cr.Some?
  {
    var id := AdapterOf(w.cr.value.name);
    || CreateAdapter in env.fails
    || (id in w.secrets && GetAdapter in env.fails)
    || (id in w.secrets && UpdateAdapter in env.fails
        && (|| w.secrets[id].owners != want.owners
            || Lookup(w.secrets[id].data, UrlKey) != Lookup(want.data, UrlKey)
            || Lookup(w.secrets[id].data, TokenKey) != Lookup(want.data, TokenKey)
            || Lookup(w.secrets[id].data, ExpiryKey) != Lookup(want.data, ExpiryKey)
            || Lookup(w.secrets[id].data, CaKey) != Lookup(want.data, CaKey)))
  }

  /** Setting a label that is not there yet, or the restart it calls for, fails. */
  predicate LabelFails(env: Env, w: World)
    requires w.cr.Some?
  {
    w.cr.value.credentialLabel != Some(AdapterOf(w.cr.value.name)) &&
    (|| GetForLabel in env.fails || UpdateLabel in env.fails || GetDeployment in env.fails
     || (w.deployment.Some? && UpdateDeployment in env.fails))
  }

  /** Some call of the adapter stage fails, or the spoke has no AlertManager URL. */
  predicate AdaptersFail(env: Env, w: World)
    requires w.cr.Some?
  {
    || CreateOn(AdapterAccount) in env.fails || CreateOn(AdapterBinding) in env.fails
    || (RequestToken in env.fails && !Reusable(ExistingToken(env, w, w.cr.value.name), env.now))
    || env.url.None?
    || AdapterSecretFails(env, w, WantedAdapter(env, w, w.cr.value, env.url.value))
    || LabelFails(env, w)
  }

  lemma StandingFailsExactly(env: Env, w: World)
    requires w.cr.Some? && env.credentials.Some?
    ensures EnsureStanding(env, w, w.cr.value, env.credentials.value).error.Some? || LoadStanding in env.fails <==>
      CredentialsFail(env, w)
  {
    var cr := w.cr.value;
    EnsureSecretExact(env, w, StandingOf(cr.name), BuildStanding(Owner(cr), WantedConfig(cr, env.credentials.value)),
                      STANDING_KEYS, CreateStanding, GetStanding, UpdateStanding);
  }

  lemma AdapterKeysExactly(k: Key)
    ensures k in ADAPTER_KEYS <==> k.UrlKey? || k.TokenKey? || k.ExpiryKey? || k.CaKey?
  {
  }

  /** ensureAdapterLabel: the label is there afterwards, unless a call fails that is made because it was not. */
  lemma LabelExactly(env: Env, w: World)
    requires w.cr.Some?
    ensures var r, id := EnsureLabel(env, w), AdapterOf(w.cr.value.name);
      && (r.error.Some? <==>
          w.cr.value.credentialLabel != Some(id) && (GetForLabel in env.fails || UpdateLabel in env.fails))
      && r.world == (if r.error.Some? then w else w.(cr := Some(w.cr.value.(credentialLabel := Some(id)))))
  {
  }

  lemma PublishFailsExactly(env: Env, w: World, want: Secret)
    requires w.cr.Some?
    ensures Publish(env, w, want).error.Some? <==> AdapterSecretFails(env, w, want) || LabelFails(env, w)
  {
    EnsureSecretExact(env, w, AdapterOf(w.cr.value.name), want, ADAPTER_KEYS, CreateAdapter, GetAdapter, UpdateAdapter);
    forall k ensures k in ADAPTER_KEYS <==> k.UrlKey? || k.TokenKey? || k.ExpiryKey? || k.CaKey? {
      AdapterKeysExactly(k);
    }
    var stored := EnsureAdapter(env, w, w.cr.value, want);
    if stored.error.None? {
      LabelExactly(env, stored.world);
      RestartExactly(env, EnsureLabel(env, stored.world).world);
    }
  }

  /** A token is requested exactly if the stored one is not to be reused and the adapter objects could be created. */
  lemma TokenRequestedExactly(env: Env, w: World)
    requires w.cr.Some?
    ensures Adapters(env, w).world.requests == w.requests +
      (if || Reusable(ExistingToken(env, w, w.cr.value.name), env.now)
          || CreateOn(AdapterAccount) in env.fails || CreateOn(AdapterBinding) in env.fails
       then 0 else 1)
  {
    AdapterResourcesExactly(env, w);
    PreparedExactly(env, w);
  }

  lemma PreparedExactly(env: Env, w: World)
    requires w.cr.Some?
    ensures var r := Prepare(env, w);
      && (r.error.Some? <==>
          || CreateOn(AdapterAccount) in env.fails || CreateOn(AdapterBinding) in env.fails
          || (RequestToken in env.fails && !Reusable(ExistingToken(env, w, w.cr.value.name), env.now))
          || env.url.None?)
  {
    AdapterResourcesExactly(env, w);
  }

  lemma AdaptersFailExactly(env: Env, w: World)
    requires w.cr.Some?
    ensures Adapters(env, w).error.Some? <==> AdaptersFail(env, w)
  {
    PreparedExactly(env, w);
    var prepared := Prepare(env, w);
    if prepared.error.None? {
      PublishFailsExactly(env, prepared.world, WantedAdapter(env, w, w.cr.value, env.url.value));
    }
  }

  /** The verdicts a pass on a spoke to be managed can reach, by the first stage that fails. */
  function Expected(env: Env, w: World): (Option<Stage>, string)
    requires w.cr.Some?
  {
    if CredentialsFail(env, w) then (Some(ConnectStage), "CredentialError")
    else if WantedConfig(w.cr.value, env.credentials.value) !in env.reachable then
      (Some(ConnectStage), "ConnectionFailed")
    else if ProvisioningFails(env) then (Some(ProvisionStage), "ProvisioningFailed")
    else if AdaptersFail(env, w) then (Some(AdapterStage), "AdaptersFailed")
    else (None, "")
  }

  predicate Reaches(v: Verdict, expected: (Option<Stage>, string)) {
    match expected.0
    case None => v.Managed?
    case Some(stage) => v.Failed? && v.stage == stage && v.reason == expected.1
  }

  lemma DialExactly(env: Env, w: World, config: Kubeconfig)
    requires w.cr.Some? && Standing(w, w.cr.value.name) == Some(config) && LoadStanding !in env.fails
    ensures Reaches(Dial(env, w).verdict,
      if config !in env.reachable then (Some(ConnectStage), "ConnectionFailed")
      else if ProvisioningFails(env) then (Some(ProvisionStage), "ProvisioningFailed")
      else if AdaptersFail(env, w) then (Some(AdapterStage), "AdaptersFailed")
      else (None, ""))
  {
    BaseExactly(env, w);
    var provisioned := ProvisionIn(env, w, BASE).world;
    AdaptersFailExactly(env, provisioned);
    assert AdaptersFail(env, provisioned) == AdaptersFail(env, w);
  }

  /** What the adapter stage depends on is not changed by the standing Secret. */
  lemma AdaptersFailFrame(env: Env, w: World, secrets: map<SecretId, Secret>)
    requires w.cr.Some? && SpokeTheorems.Elsewhere(w.secrets, secrets, StandingOf(w.cr.value.name))
    ensures AdaptersFail(env, w.(secrets := secrets)) == AdaptersFail(env, w)
  {
    var id := AdapterOf(w.cr.value.name);
    assert (id in secrets <==> id in w.secrets) && (id in w.secrets ==> secrets[id] == w.secrets[id]);
    assert ExistingToken(env, w.(secrets := secrets), w.cr.value.name) == ExistingToken(env, w, w.cr.value.name);
  }

  /**
   Exactly which verdict a pass reaches on a spoke that is to be managed, for every environment: the
   one of the first stage some call of which fails, in the order credentials, connection,
   provisioning, adapters; and Managed if none does.
   */
  lemma VerdictExactly(env: Env, w: World)
    requires w.cr.Some? && Gate(env, w.cr.value).None?
    ensures Reaches(Judge(env, w).verdict, Expected(env, w))
  {
    if env.credentials.Some? {
      var cr, ensured := w.cr.value, EnsureStanding(env, w, w.cr.value, env.credentials.value);
      StandingFailsExactly(env, w);
      StandingAfterEnsure(env, w);
      EnsureSecretExact(env, w, StandingOf(cr.name), BuildStanding(Owner(cr), WantedConfig(cr, env.credentials.value)),
                        STANDING_KEYS, CreateStanding, GetStanding, UpdateStanding);
      if ensured.error.None? && LoadStanding !in env.fails {
        DialExactly(env, ensured.world, WantedConfig(cr, env.credentials.value));
        AdaptersFailFrame(env, w, ensured.world.secrets);
      }
    }
  }

  /** This verdict is not returned for another try. */
  predicate IsFinal(v: Verdict) {
    v.Managed? || v.Unmanaged? || (v.stage.ConnectStage? && v.reason == "ConnectionFailed")
  }

  lemma ReportOutcome(env: Env, judged: Judged, read: seq<Condition>)
    requires judged.world.cr.Some?
    requires judged.verdict.Failed? ==> (judged.verdict.reason == "ConnectionFailed" <==> IsFinal(judged.verdict))
    ensures var r := Report(env, judged, read);
      && (r.outcome.Settled? || r.outcome.Errored?)
      && (r.outcome.Settled? ==> IsFinal(judged.verdict) && Refetch !in env.fails)
      && (IsFinal(judged.verdict) && Refetch !in env.fails && SendStatus !in env.fails ==> r.outcome.Settled?)
      && (IsFinal(judged.verdict) && r.world.cr.value.conditions != judged.world.cr.value.conditions ==>
        r.outcome.Settled?)
  {
  }

  lemma VerdictReasons(env: Env, w: World)
    requires w.cr.Some?
    ensures var v := Judge(env, w).verdict;
      v.Failed? ==> (v.reason == "ConnectionFailed" <==> IsFinal(v))
  {
    GateExactly(env, w.cr.value);
    if Gate(env, w.cr.value).None? {
      VerdictExactly(env, w);
    }
  }

  /**
   Exactly when a pass on a live spoke is over: it has reported that the spoke is managed, is not to be, or
   does not answer. Any other failure, and a report that fails, is returned for another try.
   */
  lemma OutcomeExactly(env: Env, w: World)
    requires Live(w) && GetCr !in env.fails && GetHub !in env.fails
    ensures var v, outcome := Judge(env, w).verdict, Reconcile(env, w).outcome;
      && (outcome.Settled? || outcome.Errored?)
      && (outcome.Settled? ==> IsFinal(v) && Refetch !in env.fails)
      && (IsFinal(v) && Refetch !in env.fails && SendStatus !in env.fails ==> outcome.Settled?)
      && (IsFinal(v) && StatusAfter(env, w) != w.cr.value.conditions ==> outcome.Settled?)
  {
    var judged := Judge(env, w);
    assert Reconcile(env, w) == Report(env, judged, w.cr.value.conditions);
    VerdictReasons(env, w);
    ReportOutcome(env, judged, w.cr.value.conditions);
  }

  // ----- what a condition is written for -----

  /** What has been done by the time a pass says that this stage has passed. */
  ghost predicate Staged(env: Env, w: World, stage: Stage)
    requires w.cr.Some?
  {
    && env.credentials.Some?
    && Standing(w, w.cr.value.name).Some? && Standing(w, w.cr.value.name).value in env.reachable
    && PointsRight(Standing(w, w.cr.value.name).value, w.cr.value, env.credentials.value)
    && (!stage.ConnectStage? ==> {ManagedNamespace, AgentAccount, ReaderBinding, MonitoringBinding} <= w.spoke)
    && (stage.AdapterStage? ==> Earned(env, w))
  }

  lemma DialStages(env: Env, w: World)
    requires w.cr.Some? && env.credentials.Some?
    requires Standing(w, Spoke(w)).Some? && PointsRight(Standing(w, Spoke(w)).value, w.cr.value, env.credentials.value)
    ensures var judged := Dial(env, w);
      judged.verdict.Failed? && !judged.verdict.stage.ConnectStage? ==>
        && Staged(env, judged.world, ConnectStage)
        && (judged.verdict.stage.AdapterStage? ==> Staged(env, judged.world, ProvisionStage))
  {
    BaseExactly(env, w);
    AdaptersExact(env, ProvisionIn(env, w, BASE).world);
  }

  lemma EarnedStages(env: Env, w: World)
    requires Earned(env, w)
    ensures Staged(env, w, AdapterStage)
  {
    WantedConfigExactly(w.cr.value, env.credentials.value, WantedConfig(w.cr.value, env.credentials.value));
  }

  /**
   What each verdict reports as passed has passed: the spoke answered, its resources are there, the
   adapters are set up.
   */
  lemma StagesArePassed(env: Env, w: World)
    requires w.cr.Some?
    ensures var judged := Judge(env, w);
      && (judged.verdict.Managed? ==> Staged(env, judged.world, AdapterStage))
      && (judged.verdict.Failed? && !judged.verdict.stage.ConnectStage? ==> Staged(env, judged.world, ConnectStage))
      && (judged.verdict.Failed? && judged.verdict.stage.AdapterStage? ==> Staged(env, judged.world, ProvisionStage))
  {
    GateExactly(env, w.cr.value);
    ManagedIsEarned(env, w);
    if Judge(env, w).verdict.Managed? {
      EarnedStages(env, Judge(env, w).world);
    } else if Gate(env, w.cr.value).None? && env.credentials.Some? {
      var ensured := EnsureStanding(env, w, w.cr.value, env.credentials.value);
      if ensured.error.None? {
        StandingAfterEnsure(env, w);
        StandingPointsRight(env, w);
        DialStages(env, ensured.world);
      }
    }
  }

  /** Which verdicts leave these conditions True. */
  lemma IntendedStages(cs: seq<Condition>, read: seq<Condition>, v: Verdict, generation: nat)
    requires forall k :: FactsAt(cs, k) == Intended(read, v, generation, k)
    ensures IsYes(cs, Connected) ==> v.Managed? || (v.Failed? && !v.stage.ConnectStage?)
    ensures IsYes(cs, Connected) && IsYes(cs, Provisioned) ==> v.Managed? || (v.Failed? && v.stage.AdapterStage?)
    ensures StagesYes(cs) ==> v.Managed?
  {
    assert FactsAt(cs, Connected) == Intended(read, v, generation, Connected);
    assert FactsAt(cs, Provisioned) == Intended(read, v, generation, Provisioned);
    assert FactsAt(cs, AdaptersReady) == Intended(read, v, generation, AdaptersReady);
  }

  lemma StagedFrame(env: Env, w: World, cs: seq<Condition>, stage: Stage)
    requires w.cr.Some?
    ensures Staged(env, w.(cr := Some(w.cr.value.(conditions := cs))), stage) <==> Staged(env, w, stage)
  {
  }

  /**
   So for the status a pass writes: Connected=True means that the stored kubeconfig, pointing where it
   should, reached the spoke; with Provisioned=True, that the base resources are there; and with
   AdaptersReady=True, that everything a managed spoke needs is in place.
   */
  lemma ConditionsAreEarned(env: Env, w: World)
    requires Live(w)
    ensures var status, after := StatusAfter(env, w), Reconcile(env, w).world;
      after.cr.Some? && (status != w.cr.value.conditions ==>
        && (IsYes(status, Connected) ==> Staged(env, after, ConnectStage))
        && (IsYes(status, Connected) && IsYes(status, Provisioned) ==> Staged(env, after, ProvisionStage))
        && (StagesYes(status) ==> Staged(env, after, AdapterStage)))
  {
    ReportedExactly(env, w);
    var status, judged := StatusAfter(env, w), Judge(env, w);
    if status != w.cr.value.conditions {
      StagesArePassed(env, w);
      IntendedStages(status, w.cr.value.conditions, judged.verdict, w.cr.value.generation);
      StagedFrame(env, judged.world, status, ConnectStage);
      StagedFrame(env, judged.world, status, ProvisionStage);
      StagedFrame(env, judged.world, status, AdapterStage);
    }
  }

  /** A pass that does not get through to the spoke leaves it alone, and what follows from it. */
  lemma UnreachedIsUntouched(env: Env, w: World)
    requires w.cr.Some? && Gate(env, w.cr.value).None?
    requires CredentialsFail(env, w) || WantedConfig(w.cr.value, env.credentials.value) !in env.reachable
    ensures var after := Judge(env, w).world;
      after.spoke == w.spoke && after.cr == w.cr && after.deployment == w.deployment && after.requests == w.requests
  {
    if env.credentials.Some? {
      StandingFailsExactly(env, w);
      StandingAfterEnsure(env, w);
    }
  }

  // ----- cleanup -----

  /** Cleanup restarts the adapter once, so that it drops the target, unless one of the two calls fails. */
  lemma CleanupRestarts(env: Env, w: World, spoke: Name)
    ensures var after := Cleanup(env, w, spoke).world;
      && (w.deployment.None? ==> after.deployment.None?)
      && (w.deployment.Some? ==>
          && after.deployment.Some?
          && after.deployment.value ==
             w.deployment.value + if GetDeployment in env.fails || UpdateDeployment in env.fails then 0 else 1)
  {
  }

  /** So does the pass that removes a SpokeCluster, and any pass on one that is not to be managed. */
  lemma CleaningPassRestarts(env: Env, w: World)
    requires w.cr.Some? && w.cr.value.finalizer && GetCr !in env.fails
    requires w.cr.value.deleting ||
      (GetHub !in env.fails && Gate(env, w.cr.value).Some? && Unique(w.cr.value.conditions))
    ensures var after := Reconcile(env, w).world;
      && (w.deployment.None? ==> after.deployment.None?)
      && (w.deployment.Some? ==>
          && after.deployment.Some?
          && after.deployment.value ==
             w.deployment.value + if GetDeployment in env.fails || UpdateDeployment in env.fails then 0 else 1)
  {
    CleanupRestarts(env, w, Spoke(w));
    if w.cr.value.deleting {
      assert Reconcile(env, w) == Decommission(env, w);
    } else {
      GatedPass(env, w);
    }
  }
}
