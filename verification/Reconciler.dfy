/**
 SpokeClusterReconciler, call by call: each method changes the stored objects in the
 order the code does and is proved to compute the corresponding function of SpokePass.
 */
module Reconciler {
  import opened Kube
  import opened Conditions
  import opened SpokeStatus
  import opened Credential
  import opened TokenRotation
  import SpokePass

  type Env = SpokePass.Env
  type Resource = SpokePass.Resource
  type Error = Option<string>

  class SpokeClusterReconciler {
    var cr: Option<SpokePass.Cr>
    var secrets: map<SecretId, Secret>
    var spoke: set<Resource>
    var deployment: Option<nat>
    var requests: nat

    ghost function View(): SpokePass.World
      reads this
    {
      SpokePass.World(cr, secrets, spoke, deployment, requests)
    }

    /** Create one object on the spoke; AlreadyExists is not an error. */
    method CreateOn(env: Env, r: Resource) returns (error: Error)
      modifies this`spoke
      ensures error.Some? <==> SpokePass.CreateOn(r) in env.fails
      ensures error.Some? ==> error.value == SpokePass.ErrorText(env, SpokePass.CreateOn(r)) && spoke == old(spoke)
      ensures error.None? ==> spoke == old(spoke) + {r}
    {
      if SpokePass.CreateOn(r) in env.fails {
        return Some(SpokePass.ErrorText(env, SpokePass.CreateOn(r)));
      }
      spoke := spoke + {r};
      return None;
    }

    /** Delete one object on the spoke; NotFound is not an error. */
    method DeleteOn(env: Env, r: Resource) returns (failed: bool)
      modifies this`spoke
      ensures failed <==> SpokePass.DeleteOn(r) in env.fails
      ensures spoke == if failed then old(spoke) else old(spoke) - {r}
    {
      failed := SpokePass.DeleteOn(r) in env.fails;
      if !failed {
        spoke := spoke - {r};
      }
    }

    /** provisioner.Provision */
    method Provision(env: Env) returns (error: Error)
      modifies this`spoke
      ensures SpokePass.Step(View(), error) == SpokePass.ProvisionIn(env, old(View()), SpokePass.BASE)
    {
      var todo := SpokePass.BASE;
      assert todo[1..][1..] == todo[2..] && todo[1..][1..][1..] == todo[3..] && todo[1..][1..][1..][1..] == [];
      error := CreateOn(env, SpokePass.ManagedNamespace);
      if error.Some? { return; }
      error := CreateOn(env, SpokePass.AgentAccount);
      if error.Some? { return; }
      error := CreateOn(env, SpokePass.ReaderBinding);
      if error.Some? { return; }
      error := CreateOn(env, SpokePass.MonitoringBinding);
    }

    /** provisioner.ProvisionAdapter */
    method ProvisionAdapter(env: Env) returns (error: Error)
      modifies this`spoke
      ensures SpokePass.Step(View(), error) == SpokePass.ProvisionIn(env, old(View()), SpokePass.ADAPTER)
    {
      var todo := SpokePass.ADAPTER;
      assert todo[1..][1..] == [];
      error := CreateOn(env, SpokePass.AdapterAccount);
      if error.Some? { return; }
      error := CreateOn(env, SpokePass.AdapterBinding);
    }

    /** provisioner.Deprovision: every delete is attempted, errors are collected. */
    method Deprovision(env: Env) returns (failed: bool)
      modifies this`spoke
      ensures spoke == old(spoke) - SpokePass.Deleted(env, set r | r in SpokePass.BASE)
      ensures failed <==> exists r :: r in SpokePass.BASE && SpokePass.DeleteOn(r) in env.fails
    {
      var todo := SpokePass.BASE;
      assert todo[0] in todo && todo[1] in todo && todo[2] in todo && todo[3] in todo;
      var e1 := DeleteOn(env, SpokePass.MonitoringBinding);
      var e2 := DeleteOn(env, SpokePass.ReaderBinding);
      var e3 := DeleteOn(env, SpokePass.AgentAccount);
      var e4 := DeleteOn(env, SpokePass.ManagedNamespace);
      failed := e1 || e2 || e3 || e4;
    }

    /** provisioner.DeprovisionAdapter */
    method DeprovisionAdapter(env: Env) returns (failed: bool)
      modifies this`spoke
      ensures spoke == old(spoke) - SpokePass.Deleted(env, set r | r in SpokePass.ADAPTER)
      ensures failed <==> exists r :: r in SpokePass.ADAPTER && SpokePass.DeleteOn(r) in env.fails
    {
      var todo := SpokePass.ADAPTER;
      assert todo[0] in todo && todo[1] in todo;
      var e1 := DeleteOn(env, SpokePass.AdapterBinding);
      var e2 := DeleteOn(env, SpokePass.AdapterAccount);
      failed := e1 || e2;
    }

    /** The create, compare and update both ensure functions perform. */
    method EnsureSecret(env: Env, id: SecretId, want: Secret, keys: set<Key>,
                        create: SpokePass.Call, get: SpokePass.Call, update: SpokePass.Call) returns (error: Error)
      modifies this`secrets
      ensures View() == SpokePass.EnsureSecret(env, old(View()), id, want, keys, create, get, update).world
      ensures error == SpokePass.EnsureSecret(env, old(View()), id, want, keys, create, get, update).error
    {
      error := None;
      if create in env.fails {
        error := Some(SpokePass.ErrorText(env, create));
      } else if id !in secrets {
        secrets := secrets[id := want];
      } else if get in env.fails {
        error := Some(SpokePass.ErrorText(env, get));
      } else if !UpToDate(secrets[id], want, keys) {
        if update in env.fails {
          error := Some(SpokePass.ErrorText(env, update));
        } else {
          secrets := secrets[id := want];
        }
      }
    }

    /** restartAdapterDeployment: an existing Deployment is restarted once, an absent one stays absent. */
    method RestartAdapterDeployment(env: Env) returns (error: Error)
      modifies this`deployment
      ensures error.Some? <==>
        SpokePass.GetDeployment in env.fails || (old(deployment).Some? && SpokePass.UpdateDeployment in env.fails)
      ensures deployment.Some? <==> old(deployment).Some?
      ensures deployment.Some? ==> deployment.value == old(deployment).value + (if error.None? then 1 else 0)
      ensures SpokePass.Step(View(), error) == SpokePass.Restart(env, old(View()))
    {
      if SpokePass.GetDeployment in env.fails {
        return Some(SpokePass.ErrorText(env, SpokePass.GetDeployment));
      }
      if deployment.None? {
        return None;
      }
      if SpokePass.UpdateDeployment in env.fails {
        return Some(SpokePass.ErrorText(env, SpokePass.UpdateDeployment));
      }
      deployment := Some(deployment.value + 1);
      return None;
    }

    /** ensureAdapterLabel */
    method EnsureAdapterLabel(env: Env) returns (changed: bool, error: Error)
      requires cr.Some?
      modifies this`cr
      ensures SpokePass.Step(View(), error) == SpokePass.EnsureLabel(env, old(View()))
      ensures changed <==> error.None? && !SpokePass.Labelled(old(cr.value))
    {
      var name := cr.value.name;
      if cr.value.credentialLabel == Some(AdapterOf(name)) {
        return false, None;
      }
      if SpokePass.GetForLabel in env.fails {
        return false, Some(SpokePass.ErrorText(env, SpokePass.GetForLabel));
      }
      if SpokePass.UpdateLabel in env.fails {
        return false, Some(SpokePass.ErrorText(env, SpokePass.UpdateLabel));
      }
      cr := Some(cr.value.(credentialLabel := Some(AdapterOf(name))));
      return true, None;
    }

    /** resolveAdapterToken */
    method ResolveAdapterToken(env: Env, name: Name) returns (token: Token, error: Error)
      modifies this`requests
      ensures SpokePass.Step(View(), error) == SpokePass.AskToken(env, old(View()), name)
      ensures error.None? ==>
        token.(expiry := Truncate(token.expiry)) ==
          Rotate(SpokePass.ExistingToken(env, old(View()), name), env.now, env.issued)
    {
      var existing := None;
      if SpokePass.ReadToken !in env.fails && AdapterOf(name) in secrets {
        var data := secrets[AdapterOf(name)].data;
        var value, expiry := Lookup(data, TokenKey), Lookup(data, ExpiryKey);
        if value.Text? && value.text != "" && expiry.Instant? {
          existing := Some(Token(value.text, expiry.at));
        }
      }
      if existing.Some? && existing.value.expiry - env.now > ROTATION_BUFFER {
        return existing.value, None;
      }
      requests := requests + 1;
      if SpokePass.RequestToken in env.fails {
        return env.issued, Some(SpokePass.ErrorText(env, SpokePass.RequestToken));
      }
      return env.issued, None;
    }

    /** reconcileAdapters */
    method ReconcileAdapters(env: Env) returns (error: Error)
      requires cr.Some?
      modifies this
      ensures SpokePass.Step(View(), error) == SpokePass.Adapters(env, old(View()))
    {
      var sc := cr.value;
      ghost var before := View();
      error := ProvisionAdapter(env);
      if error.Some? { return; }
      var token;
      token, error := ResolveAdapterToken(env, sc.name);
      if error.Some? { return; }
      if env.url.None? {
        return Some(env.urlText);
      }
      assert View() == SpokePass.Prepare(env, before).world;
      var want := BuildAdapter(SpokePass.Owner(sc), env.url.value, token.value, Truncate(token.expiry), env.ca);
      assert want == SpokePass.WantedAdapter(env, before, sc, env.url.value);
      error := EnsureSecret(env, AdapterOf(sc.name), want, ADAPTER_KEYS,
                            SpokePass.CreateAdapter, SpokePass.GetAdapter, SpokePass.UpdateAdapter);
      if error.Some? { return; }
      var changed;
      changed, error := EnsureAdapterLabel(env);
      if error.Some? { return; }
      if changed {
        error := RestartAdapterDeployment(env);
      }
    }

    /** The spoke-side half of cleanupSpokeResources. */
    method CleanupSpokeSide(env: Env, name: Name) returns (failed: bool)
      modifies this`spoke
      ensures spoke ==
        if SpokePass.SpokeReached(env, old(View()), name) then old(spoke) - SpokePass.Deleted(env, SpokePass.ALL)
          else old(spoke)
      ensures failed == SpokePass.Cleanup(env, old(View()), name).failed
    {
      if SpokePass.GetForCleanup in env.fails {
        return true;
      }
      if StandingOf(name) !in secrets || KubeconfigKey !in secrets[StandingOf(name)].data {
        return false;
      }
      if !secrets[StandingOf(name)].data[KubeconfigKey].Config? || SpokePass.NewClient in env.fails {
        return true;
      }
      var adapterFailed := DeprovisionAdapter(env);
      var baseFailed := Deprovision(env);
      failed := adapterFailed || baseFailed;
      BaseAndAdapter();
    }

    /** cleanupSpokeResources */
    method CleanupSpokeResources(env: Env, name: Name) returns (spokeCleanupFailed: bool)
      modifies this`secrets, this`spoke, this`deployment
      ensures View() == SpokePass.Cleanup(env, old(View()), name).world
      ensures spokeCleanupFailed == SpokePass.Cleanup(env, old(View()), name).failed
    {
      spokeCleanupFailed := CleanupSpokeSide(env, name);
      if SpokePass.DeleteStanding !in env.fails {
        secrets := secrets - {StandingOf(name)};
      }
      if SpokePass.DeleteAdapter !in env.fails {
        secrets := secrets - {AdapterOf(name)};
      }
      var _ := RestartAdapterDeployment(env);
    }

    /** patchStatus: re-read, merge, and send only what changes a fact. */
    method PatchStatus(env: Env, local: seq<Condition>) returns (failed: bool)
      requires cr.Some?
      modifies this`cr
      ensures cr.Some?
      ensures var patch := Conditions.PatchStatus(old(cr.value.conditions), local, env.now);
        && failed == (SpokePass.Refetch in env.fails || (patch.wrote && SpokePass.SendStatus in env.fails))
        && cr.value == old(cr.value).(conditions := if failed then old(cr.value.conditions) else patch.conditions)
    {
      if SpokePass.Refetch in env.fails {
        return true;
      }
      var merged, send := ComputePatch(cr.value.conditions, local, env.now);
      if !send {
        return false;
      }
      if SpokePass.SendStatus in env.fails {
        return true;
      }
      cr := Some(cr.value.(conditions := merged));
      return false;
    }

    /** failWithCondition and handleConnectivityFailure: both clear Ready; they differ in what they return. */
    method FailWithCondition(env: Env, staged: seq<Condition>, stage: Stage, reason: string, message: string,
                             ghost read: seq<Condition>) returns (outcome: SpokePass.Outcome)
      requires cr.Some? && cr.value.conditions == read
      requires staged == Before(read, stage, cr.value.generation, env.now)
      modifies this`cr
      ensures SpokePass.Result(View(), outcome) ==
              SpokePass.Report(env, SpokePass.Judged(old(View()), Failed(stage, reason, message)), read)
    {
      var facts := Facts(No, reason, message, cr.value.generation);
      var local := Write(staged, KindOf(stage), facts, env.now);
      local := Write(local, Ready, facts, env.now);
      var failed := PatchStatus(env, local);
      return if failed || reason != CONNECTION_FAILED then SpokePass.Errored else SpokePass.Settled;
    }

    /** unmanageSpoke */
    method UnmanageSpoke(env: Env, reason: string, message: string) returns (outcome: SpokePass.Outcome)
      requires cr.Some?
      modifies this
      ensures SpokePass.Result(View(), outcome) ==
              SpokePass.Report(env, SpokePass.Judged(SpokePass.Cleanup(env, old(View()), old(cr.value.name)).world,
                                                     Unmanaged(reason, message)), old(cr.value.conditions))
    {
      var sc := cr.value;
      var _ := CleanupSpokeResources(env, sc.name);
      var local := Write(sc.conditions, Ready, Facts(No, reason, message, sc.generation), env.now);
      local := Remove(local, Connected);
      local := Remove(local, Provisioned);
      local := Remove(local, AdaptersReady);
      var failed := PatchStatus(env, local);
      return if failed then SpokePass.Errored else SpokePass.Settled;
    }

    /** reconcileDelete */
    method ReconcileDelete(env: Env) returns (outcome: SpokePass.Outcome)
      requires cr.Some?
      modifies this
      ensures SpokePass.Result(View(), outcome) == SpokePass.Decommission(env, old(View()))
    {
      if !cr.value.finalizer {
        return SpokePass.Settled;
      }
      var _ := CleanupSpokeResources(env, cr.value.name);
      if SpokePass.RemoveFinalizer in env.fails {
        return SpokePass.Errored;
      }
      cr := None;
      return SpokePass.Settled;
    }

    /** The stages of Reconcile from loading the standing kubeconfig onwards. */
    method RunStages(env: Env) returns (outcome: SpokePass.Outcome)
      requires cr.Some?
      modifies this
      ensures SpokePass.Result(View(), outcome) ==
              SpokePass.Report(env, SpokePass.Dial(env, old(View())), old(cr.value.conditions))
    {
      var sc := cr.value;
      var generation := sc.generation;
      var config := SpokePass.Standing(SpokePass.World(cr, secrets, spoke, deployment, requests), sc.name);
      if SpokePass.LoadStanding in env.fails || config.None? {
        outcome := FailWithCondition(env, sc.conditions, ConnectStage, CREDENTIAL_ERROR,
                                     SpokePass.ErrorText(env, SpokePass.LoadStanding), sc.conditions);
        return;
      }
      if config.value !in env.reachable {
        outcome := FailWithCondition(env, sc.conditions, ConnectStage, CONNECTION_FAILED, env.connectText,
          sc.conditions);
        return;
      }
      var local := Pass(sc.conditions, ConnectStage, generation, env.now);
      if SpokePass.NewClient in env.fails {
        outcome := FailWithCondition(env, local, ProvisionStage, PROVISIONING_FAILED,
                                     SpokePass.ErrorText(env, SpokePass.NewClient), sc.conditions);
        return;
      }
      var error := Provision(env);
      if error.Some? {
        outcome := FailWithCondition(env, local, ProvisionStage, PROVISIONING_FAILED, error.value, sc.conditions);
        return;
      }
      local := Pass(local, ProvisionStage, generation, env.now);
      error := ReconcileAdapters(env);
      if error.Some? {
        outcome := FailWithCondition(env, local, AdapterStage, ADAPTERS_FAILED, error.value, sc.conditions);
        return;
      }
      local := Pass(local, AdapterStage, generation, env.now);
      local := Write(local, Ready, ReadyFacts(generation), env.now);
      var failed := PatchStatus(env, local);
      return if failed then SpokePass.Errored else SpokePass.Settled;
    }

    /** Reconcile */
    method Reconcile(env: Env) returns (outcome: SpokePass.Outcome)
      modifies this
      ensures SpokePass.Result(View(), outcome) == SpokePass.Reconcile(env, old(View()))
    {
      if SpokePass.GetCr in env.fails {
        return SpokePass.Errored;
      }
      if cr.None? {
        return SpokePass.Settled;
      }
      var sc := cr.value;
      if sc.deleting {
        outcome := ReconcileDelete(env);
        return;
      }
      if !sc.finalizer {
        if SpokePass.AddFinalizer in env.fails {
          return SpokePass.Errored;
        }
        cr := Some(sc.(finalizer := true));
        return SpokePass.Requeued;
      }
      if SpokePass.GetHub in env.fails {
        return SpokePass.Errored;
      }
      var gate := SpokePass.Gate(env, sc);
      if gate.Some? {
        outcome := UnmanageSpoke(env, gate.value.reason, gate.value.message);
        return;
      }
      if env.credentials.None? {
        outcome := FailWithCondition(env, sc.conditions, ConnectStage, CREDENTIAL_ERROR, env.credentialText,
          sc.conditions);
        return;
      }
      var config := SpokePass.WantedConfig(sc, env.credentials.value);
      var error := EnsureSecret(env, StandingOf(sc.name), BuildStanding(SpokePass.Owner(sc), config), STANDING_KEYS,
                                SpokePass.CreateStanding, SpokePass.GetStanding, SpokePass.UpdateStanding);
      if error.Some? {
        outcome := FailWithCondition(env, sc.conditions, ConnectStage, CREDENTIAL_ERROR, error.value, sc.conditions);
        return;
      }
      outcome := RunStages(env);
    }
  }

  lemma BaseAndAdapter()
    ensures forall r: Resource :: r in SpokePass.ALL
    ensures forall r: Resource :: r in SpokePass.BASE || r in SpokePass.ADAPTER
  {
    var base, adapter := SpokePass.BASE, SpokePass.ADAPTER;
    assert base[0] in base && base[1] in base && base[2] in base && base[3] in base;
    assert adapter[0] in adapter && adapter[1] in adapter;
    forall r: Resource ensures r in SpokePass.ALL && (r in base || r in adapter) {
      match r
      case ManagedNamespace =>
      case AgentAccount =>
      case ReaderBinding =>
      case MonitoringBinding =>
      case AdapterAccount =>
      case AdapterBinding =>
    }
  }
}
