/**
 SpokeHealthHandler: a round over all SpokeClusters that probes each spoke through its standing
 kubeconfig and patches Connected from the copy it listed at the start of the round, which may be
 out of date by then. One patch is the HealthPatch event of StatusProtocol.
 */
module HealthHandler {
  import opened Kube
  import opened Conditions
  import opened SpokeStatus
  import opened Credential
  import StatusProtocol

  type Cr = StatusProtocol.Cr

  datatype Listed = Listed(name: Name, copy: Cr)

  /** What a round learns from outside. */
  datatype Env = Env(secrets: map<SecretId, Secret>, reachable: set<Kubeconfig>, text: string, now: nat,
                     unreadable: set<Name>, unpatchable: set<Name>)

  /** Whether the spoke answers; None if no probe is made. */
  function Probe(env: Env, n: Name): Option<bool> {
    if n in env.unreadable || StandingOf(n) !in env.secrets then None
    else
      var blob := Lookup(env.secrets[StandingOf(n)].data, KubeconfigKey);
      if blob.Config? then Some(blob.config in env.reachable) else None
  }

  /** The handler sends a patch for this copy, and it arrives. */
  predicate Writes(env: Env, n: Name, copy: Cr) {
    Probe(env, n).Some? && ProbeNews(copy.conditions, Probe(env, n).value) && n !in env.unpatchable
  }

  /** The stored SpokeCluster after the check. */
  function Checked(env: Env, n: Name, stored: Cr, copy: Cr): Cr {
    if !Writes(env, n, copy) then stored
    else stored.(conditions := StatusProtocol.HealthList(copy, Probe(env, n).value, env.text, env.now))
  }

  /** A check is a HealthPatch event of the protocol, or a Skip event. */
  lemma CheckIsEvent(env: Env, n: Name, copy: Cr, s: StatusProtocol.State)
    requires s.cr.Some? && s.health == StatusProtocol.Listed(copy)
    ensures var e := if Writes(env, n, copy) then StatusProtocol.HealthPatch(Probe(env, n).value, env.text, env.now)
      else StatusProtocol.Skip;
      StatusProtocol.Enabled(s, e) && StatusProtocol.Next(s, e).cr == Some(Checked(env, n, s.cr.value, copy))
  {
  }

  /**
   Exactly when a check changes nothing but Connected: it writes nothing, or its copy shows the
   other conditions as they are stored now.
   */
  lemma OnlyConnectedExactly(env: Env, n: Name, stored: Cr, copy: Cr)
    ensures (forall k :: k != Connected ==>
      Find(Checked(env, n, stored, copy).conditions, k) == Find(stored.conditions, k)) <==>
      !Writes(env, n, copy) || forall k :: k != Connected ==> Find(copy.conditions, k) == Find(stored.conditions, k)
  {
    if Writes(env, n, copy) {
      var probe := Probe(env, n).value;
      forall k | k != Connected ensures Find(Checked(env, n, stored, copy).conditions, k) == Find(copy.conditions, k) {
        StatusProtocol.HealthWrites(copy, probe, env.text, env.now, k);
      }
    }
  }

  /** With a current copy, whatever was probed is what Connected says afterwards, unless the patch failed. */
  lemma ConnectedIsProbed(env: Env, n: Name, stored: Cr)
    requires Probe(env, n).Some? && n !in env.unpatchable
    ensures !ProbeNews(Checked(env, n, stored, stored).conditions, Probe(env, n).value)
    ensures Checked(env, n, Checked(env, n, stored, stored), Checked(env, n, stored, stored)) ==
      Checked(env, n, stored, stored)
  {
    StatusProtocol.HealthWrites(stored, Probe(env, n).value, env.text, env.now, Connected);
  }

  /**
   What a check stores: nothing unless the standing Secret could be read and holds a kubeconfig, the
   listed status differs from what was found, and the patch arrives; then word for word what was found.
   */
  lemma CheckedExactly(env: Env, n: Name, stored: Cr, copy: Cr, config: Kubeconfig)
    requires n !in env.unreadable && StandingOf(n) in env.secrets
    requires Lookup(env.secrets[StandingOf(n)].data, KubeconfigKey) == Config(config)
    ensures var found := if config in env.reachable then Yes else No;
      var after := Checked(env, n, stored, copy);
      if n in env.unpatchable || ConnectedStatus(copy.conditions) == Some(found) then after == stored
      else
        && after == stored.(conditions := after.conditions)
        && FactsAt(after.conditions, Connected) == Some(
             if config in env.reachable
             then Facts(Yes, "ConnectionSucceeded", "spoke API server is reachable", copy.generation)
             else Facts(No, "ConnectionFailed", env.text, copy.generation))
  {
    StatusProtocol.HandlerSays(copy, config in env.reachable, env.text, env.now);
  }

  /** Without a kubeconfig to probe with nothing is stored. */
  lemma UncheckedExactly(env: Env, n: Name, stored: Cr, copy: Cr)
    requires n in env.unreadable || StandingOf(n) !in env.secrets
             || !Lookup(env.secrets[StandingOf(n)].data, KubeconfigKey).Config?
    ensures Checked(env, n, stored, copy) == stored
  {
  }

  class SpokeHealthHandler {
    var stored: map<Name, Cr>

    /** checkSpoke: a patch of an object that is gone is an error, which is only logged. */
    method CheckSpoke(item: Listed, env: Env)
      modifies this
      ensures stored.Keys == old(stored).Keys
      ensures forall n :: n in stored ==>
        stored[n] == if n == item.name then Checked(env, n, old(stored)[n], item.copy) else old(stored)[n]
    {
      var n, copy := item.name, item.copy;
      if n in env.unreadable || StandingOf(n) !in env.secrets {
        return;
      }
      var blob := Lookup(env.secrets[StandingOf(n)].data, KubeconfigKey);
      if !blob.Config? {
        return;
      }
      var condition;
      if blob.config in env.reachable {
        condition := Condition(Connected, Yes, CONNECTION_SUCCEEDED, REACHABLE, copy.generation, 0);
      } else {
        condition := Condition(Connected, No, CONNECTION_FAILED, env.text, copy.generation, 0);
      }
      var existing := Find(copy.conditions, Connected);
      if existing.Some? && existing.value.status == condition.status {
        return;
      }
      var conditions := Set(copy.conditions, condition, env.now);
      if n in env.unpatchable || n !in stored {
        return;
      }
      stored := stored[n := stored[n].(conditions := conditions)];
    }

    /**
     CheckAll: None stands for a failed listing. Each spoke ends up as its own check leaves it,
     whatever happened to the others; spokes that were not listed are left alone.
     */
    method CheckAll(listing: Option<seq<Listed>>, env: Env)
      requires listing.Some? ==> forall i, j :: 0 <= i < j < |listing.value| ==>
        listing.value[i].name != listing.value[j].name
      modifies this
      ensures stored.Keys == old(stored).Keys
      ensures forall n :: n in stored && (listing.None? || forall item :: item in listing.value ==> item.name != n) ==>
        stored[n] == old(stored)[n]
      ensures listing.Some? ==> forall item :: item in listing.value && item.name in stored ==>
        stored[item.name] == Checked(env, item.name, old(stored)[item.name], item.copy)
    {
      if listing.None? {
        return;
      }
      var items := listing.value;
      for i := 0 to |items|
        invariant stored.Keys == old(stored).Keys
        invariant forall n :: n in stored && (forall j :: 0 <= j < i ==> items[j].name != n) ==>
          stored[n] == old(stored)[n]
        invariant forall j :: 0 <= j < i && items[j].name in stored ==>
          stored[items[j].name] == Checked(env, items[j].name, old(stored)[items[j].name], items[j].copy)
      {
        CheckSpoke(items[i], env);
      }
    }
  }
}
