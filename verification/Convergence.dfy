/**
 The reconciler and the health handler in frozen surroundings: same HubConfig, credentials,
 connectivity and spoke, hub calls succeeding, only the clock moving. After the first full pass
 neither writes status again, with two exceptions: without credentials they can alternate forever,
 and a token that the spoke refuses to renew runs out, once.
 */
module Convergence {
  import opened Kube
  import opened Conditions
  import opened SpokeStatus
  import opened Credential
  import opened TokenRotation
  import opened SpokePass
  import opened SpokeTheorems
  import StatusProtocol
  import StatusConvergence
  import HealthHandler

  /** Only the spoke may refuse calls; the hub answers all of its own. */
  ghost predicate HubAnswers(env: Env) {
    forall c :: c in env.fails ==> c.NewClient? || c.RequestToken? || c.CreateOn? || c.DeleteOn?
  }

  function At(env: Env, now: nat, issued: Token): Env {
    env.(now := now, issued := issued)
  }

  /** A token will be available, from the Secret or from the spoke. */
  predicate TokenOk(env: Env, w: World)
    requires w.cr.Some?
  {
    RequestToken !in env.fails || Reusable(ExistingToken(env, w, Spoke(w)), env.now)
  }

  /** The first resource whose creation the spoke refuses. */
  function Refused(env: Env, todo: seq<Resource>): Option<Resource>
    decreases |todo|
  {
    if todo == [] then None
    else if CreateOn(todo[0]) in env.fails then Some(todo[0])
    else Refused(env, todo[1..])
  }

  lemma {:induction false} RefusedIsCreateError(env: Env, spoke: set<Resource>, todo: seq<Resource>)
    ensures CreateInOrder(env, spoke, todo).1 == Refused(env, todo)
    decreases |todo|
  {
    if todo != [] && CreateOn(todo[0]) !in env.fails {
      RefusedIsCreateError(env, spoke + {todo[0]}, todo[1..]);
    }
  }

  /** The verdict, read off the surroundings: the stored objects matter only through the token. */
  function Foretold(env: Env, cr: Cr, tokenOk: bool): Verdict {
    var gate := Gate(env, cr);
    var base, adapter := Refused(env, BASE), Refused(env, ADAPTER);
    if gate.Some? then gate.value
    else if env.credentials.None? then Failed(ConnectStage, CREDENTIAL_ERROR, env.credentialText)
    else if WantedConfig(cr, env.credentials.value) !in env.reachable then
      Failed(ConnectStage, CONNECTION_FAILED, env.connectText)
    else if NewClient in env.fails then Failed(ProvisionStage, PROVISIONING_FAILED, ErrorText(env, NewClient))
    else if base.Some? then Failed(ProvisionStage, PROVISIONING_FAILED, ErrorText(env, CreateOn(base.value)))
    else if adapter.Some? then Failed(AdapterStage, ADAPTERS_FAILED, ErrorText(env, CreateOn(adapter.value)))
    else if !tokenOk then Failed(AdapterStage, ADAPTERS_FAILED, ErrorText(env, RequestToken))
    else if env.url.None? then Failed(AdapterStage, ADAPTERS_FAILED, env.urlText)
    else Managed
  }

  /** With the hub answering, publishing a token does not fail. */
  lemma PublishSucceeds(env: Env, w: World, want: Secret)
    requires w.cr.Some? && HubAnswers(env)
    ensures Publish(env, w, want).error.None?
  {
  }

  lemma AdaptersForetold(env: Env, w: World)
    requires w.cr.Some? && HubAnswers(env)
    ensures var r, adapter := Adapters(env, w), Refused(env, ADAPTER);
      r.error ==
        if adapter.Some? then Some(ErrorText(env, CreateOn(adapter.value)))
        else if !TokenOk(env, w) then Some(ErrorText(env, RequestToken))
        else if env.url.None? then Some(env.urlText)
        else None
  {
    RefusedIsCreateError(env, w.spoke, ADAPTER);
    var prepared := Prepare(env, w);
    if prepared.error.None? {
      PublishSucceeds(env, prepared.world, WantedAdapter(env, w, w.cr.value, env.url.value));
    }
  }

  lemma DialForetold(env: Env, w: World)
    requires w.cr.Some? && HubAnswers(env) && Gate(env, w.cr.value).None? && env.credentials.Some?
    requires Standing(w, Spoke(w)) == Some(WantedConfig(w.cr.value, env.credentials.value))
    ensures Dial(env, w).verdict == Foretold(env, w.cr.value, TokenOk(env, w))
  {
    RefusedIsCreateError(env, w.spoke, BASE);
    AdaptersForetold(env, ProvisionIn(env, w, BASE).world);
  }

  lemma VerdictForetold(env: Env, w: World)
    requires w.cr.Some? && HubAnswers(env)
    ensures Judge(env, w).verdict == Foretold(env, w.cr.value, TokenOk(env, w))
  {
    if Gate(env, w.cr.value).None? && env.credentials.Some? {
      StandingAfterEnsure(env, w);
      var ensured := EnsureStanding(env, w, w.cr.value, env.credentials.value).world;
      DialForetold(env, ensured);
      EnsureSecretExact(env, w, StandingOf(Spoke(w)),
                        BuildStanding(Owner(w.cr.value), WantedConfig(w.cr.value, env.credentials.value)),
                        STANDING_KEYS, CreateStanding, GetStanding, UpdateStanding);
      assert TokenOk(env, ensured) == TokenOk(env, w);
    }
  }

  // ----- the health handler -----

  /** checkSpoke on a current copy, its patch arriving. */
  function CheckSpoke(env: Env, w: World): World {
    if w.cr.None? then w
    else
      var cr := w.cr.value;
      var copy := StatusProtocol.Cr(cr.generation, cr.deleting, cr.finalizer, false, cr.conditions);
      var round := HealthHandler.Env(w.secrets, env.reachable, env.connectText, env.now, {}, {});
      w.(cr := Some(cr.(conditions := HealthHandler.Checked(round, cr.name, copy, copy).conditions)))
  }

  /** What a probe of the standing kubeconfig would report, if there is one to probe. */
  function Probe(env: Env, w: World): Option<bool>
    requires w.cr.Some?
  {
    var config := Standing(w, Spoke(w));
    if config.None? then None else Some(config.value in env.reachable)
  }

  predicate HealthQuiet(env: Env, w: World)
    requires w.cr.Some?
  {
    Probe(env, w).Some? ==> !ProbeNews(w.cr.value.conditions, Probe(env, w).value)
  }

  // ----- steadiness -----

  ghost predicate Denotes(cr: Cr, v: Verdict) {
    StatusConvergence.Denotes(cr.conditions, v, cr.generation)
  }

  /** If the spoke refuses tokens, the one in the Secret was written by this code. */
  predicate TokenKept(env: Env, w: World)
    requires w.cr.Some?
  {
    RequestToken in env.fails ==> Whole(ExistingToken(env, w, Spoke(w)))
  }

  ghost predicate Rested(env: Env, w: World) {
    Live(w) && TokenKept(env, w) && Denotes(w.cr.value, Foretold(env, w.cr.value, TokenOk(env, w)))
  }

  ghost predicate Steady(env: Env, w: World) {
    Rested(env, w) && HealthQuiet(env, w)
  }

  /** The exception: no credentials, but an old standing Secret through which the spoke still answers. */
  predicate Alternates(env: Env, w: World)
    requires w.cr.Some?
  {
    Gate(env, w.cr.value).None? && env.credentials.None? && Probe(env, w) == Some(true)
  }

  lemma DenotesDecide(cr: Cr, v: Verdict, now: nat)
    requires Denotes(cr, v)
    ensures SameMap(cr.conditions, Decide(cr.conditions, v, cr.generation, now))
  {
    forall k ensures FactsAt(cr.conditions, k) == FactsAt(Decide(cr.conditions, v, cr.generation, now), k) {
      DecideExact(cr.conditions, v, cr.generation, now, k);
    }
  }

  /** The Secret keeps its token across a pass that could not have got a new one. */
  lemma AdaptersKeepToken(env: Env, w: World)
    requires w.cr.Some? && HubAnswers(env) && RequestToken in env.fails && TokenKept(env, w)
    ensures ExistingToken(env, Adapters(env, w).world, Spoke(w)) == ExistingToken(env, w, Spoke(w))
  {
    var cr := w.cr.value;
    var existing := ExistingToken(env, w, cr.name);
    if Adapters(env, w).error.None? {
      AdaptersForetold(env, w);
      AdaptersExact(env, w);
      assert Reusable(existing, env.now);
      WholeTruncates(existing.value.expiry);
      var stored, want := Adapters(env, w).world.secrets[AdapterOf(cr.name)], WantedAdapter(env, w, cr, env.url.value);
      assert TokenKey in ADAPTER_KEYS && ExpiryKey in ADAPTER_KEYS;
      assert Lookup(stored.data, TokenKey) == Lookup(want.data, TokenKey);
      assert Lookup(stored.data, ExpiryKey) == Lookup(want.data, ExpiryKey);
    } else {
      AdaptersForetold(env, w);
    }
  }

  lemma DialKeepsToken(env: Env, w: World)
    requires w.cr.Some? && HubAnswers(env) && RequestToken in env.fails && TokenKept(env, w)
    ensures ExistingToken(env, Dial(env, w).world, Spoke(w)) == ExistingToken(env, w, Spoke(w))
  {
    AdaptersKeepToken(env, ProvisionIn(env, w, BASE).world);
  }

  lemma JudgeKeepsToken(env: Env, w: World)
    requires w.cr.Some? && HubAnswers(env) && RequestToken in env.fails && TokenKept(env, w)
    requires Gate(env, w.cr.value).None?
    ensures ExistingToken(env, Judge(env, w).world, Spoke(w)) == ExistingToken(env, w, Spoke(w))
  {
    if env.credentials.Some? {
      var cr := w.cr.value;
      EnsureSecretExact(env, w, StandingOf(cr.name), BuildStanding(Owner(cr), WantedConfig(cr, env.credentials.value)),
                        STANDING_KEYS, CreateStanding, GetStanding, UpdateStanding);
      DialKeepsToken(env, EnsureStanding(env, w, cr, env.credentials.value).world);
    }
  }

  /** The verdict after a pass is the verdict before it. */
  lemma VerdictKept(env: Env, w: World)
    requires w.cr.Some? && HubAnswers(env) && TokenKept(env, w)
    ensures var after := Judge(env, w).world;
      && TokenKept(env, after)
      && Foretold(env, after.cr.value, TokenOk(env, after)) == Foretold(env, w.cr.value, TokenOk(env, w))
  {
    var after := Judge(env, w).world;
    if Gate(env, w.cr.value).Some? {
      CleanupIsBestEffort(env, w, Spoke(w));
    } else if RequestToken in env.fails {
      JudgeKeepsToken(env, w);
    }
  }

  // ----- passes and checks on a rested spoke -----

  /** A pass that reaches the verdict the list already denotes changes no condition. */
  lemma RestedPass(env: Env, w: World)
    requires HubAnswers(env) && Rested(env, w)
    ensures Reconcile(env, w).world == Judge(env, w).world
    ensures Judge(env, w).world.cr.value.conditions == w.cr.value.conditions
    ensures Rested(env, Judge(env, w).world)
  {
    var judged := Judge(env, w);
    VerdictForetold(env, w);
    VerdictKept(env, w);
    DenotesDecide(w.cr.value, judged.verdict, env.now);
    SettledReport(env, judged.world, w.cr.value.conditions, judged.verdict, env.now);
  }

  /** After any full pass the list denotes the verdict of that pass, which is also that of the next. */
  lemma PassRests(env: Env, w: World)
    requires HubAnswers(env) && Live(w) && TokenKept(env, w)
    ensures var after := Reconcile(env, w).world;
      && Rested(env, after)
      && after.cr.value.generation == w.cr.value.generation
      && Foretold(env, after.cr.value, TokenOk(env, after)) == Foretold(env, w.cr.value, TokenOk(env, w))
  {
    var judged, read := Judge(env, w), w.cr.value.conditions;
    ReportStores(env, judged, read);
    VerdictForetold(env, w);
    VerdictKept(env, w);
    var cr := Report(env, judged, read).world.cr.value;
    StatusIsNoInput(env, judged.world, cr.conditions);
    DecideDenotes(read, cr, judged.verdict, env.now);
  }

  /** Nothing but the status itself depends on the status. */
  lemma StatusIsNoInput(env: Env, w: World, cs: seq<Condition>)
    requires w.cr.Some?
    ensures var other := w.(cr := Some(w.cr.value.(conditions := cs)));
      && TokenKept(env, other) == TokenKept(env, w)
      && Foretold(env, other.cr.value, TokenOk(env, other)) == Foretold(env, w.cr.value, TokenOk(env, w))
  {
  }

  lemma DecideDenotes(read: seq<Condition>, cr: Cr, v: Verdict, now: nat)
    requires Unique(read) && Unique(cr.conditions) && SameMap(cr.conditions, Decide(read, v, cr.generation, now))
    ensures Denotes(cr, v)
  {
    StatusConvergence.DecideDenotes(read, v, cr.generation, now);
    StatusConvergence.SameMapReversed(cr.conditions, Decide(read, v, cr.generation, now));
    StatusConvergence.SameMapDenotes(Decide(read, v, cr.generation, now), cr.conditions, v, cr.generation);
  }

  /** What a pass leaves in the standing Secret. */
  lemma StandingAfterPass(env: Env, w: World)
    requires w.cr.Some? && HubAnswers(env)
    ensures var cr := w.cr.value;
      Standing(Judge(env, w).world, cr.name) ==
        if Gate(env, cr).Some? then None
        else if env.credentials.None? then Standing(w, cr.name)
        else Some(WantedConfig(cr, env.credentials.value))
  {
    var cr := w.cr.value;
    if Gate(env, cr).Some? {
      CleanupIsBestEffort(env, w, cr.name);
    } else if env.credentials.Some? {
      StandingAfterEnsure(env, w);
      var ensured := EnsureStanding(env, w, cr, env.credentials.value).world;
      DialKeepsStanding(env, ensured);
    }
  }

  lemma DialKeepsStanding(env: Env, w: World)
    requires w.cr.Some?
    ensures Standing(Dial(env, w).world, Spoke(w)) == Standing(w, Spoke(w))
  {
    AdaptersExact(env, ProvisionIn(env, w, BASE).world);
  }

  /** The standing Secret is as a pass leaves it. */
  predicate StandingLeft(env: Env, w: World)
    requires w.cr.Some?
  {
    var cr := w.cr.value;
    && (Gate(env, cr).Some? ==> Standing(w, cr.name).None?)
    && (Gate(env, cr).None? && env.credentials.Some? ==>
      Standing(w, cr.name) == Some(WantedConfig(cr, env.credentials.value)))
  }

  /** Probes contradict passes only in the alternation. */
  lemma CompatibleExactly(env: Env, w: World, ok: bool)
    requires w.cr.Some? && StandingLeft(env, w)
    ensures StatusConvergence.Compatible(Foretold(env, w.cr.value, ok), Probe(env, w)) <==> !Alternates(env, w)
  {
  }

  /** On a rested spoke whose Secret is as a pass leaves it, the handler is quiet unless they alternate. */
  lemma QuietExactly(env: Env, w: World)
    requires Rested(env, w) && StandingLeft(env, w)
    ensures HealthQuiet(env, w) <==> !Alternates(env, w)
  {
    var cr := w.cr.value;
    var v := Foretold(env, cr, TokenOk(env, w));
    CompatibleExactly(env, w, TokenOk(env, w));
    DenotedProbe(cr, v, Probe(env, w));
  }

  lemma DenotedProbe(cr: Cr, v: Verdict, probe: Option<bool>)
    requires Denotes(cr, v)
    ensures StatusConvergence.Compatible(v, probe) <==> (probe.Some? ==> !ProbeNews(cr.conditions, probe.value))
  {
    StatusConvergence.ConnectedStored(cr.conditions, v, cr.generation);
  }

  /** What a pass never changes, and what follows from it. */
  lemma PassKeepsSpec(env: Env, w: World, ok: bool)
    requires HubAnswers(env) && Live(w)
    ensures var after := Reconcile(env, w).world;
      && after.secrets == Judge(env, w).world.secrets
      && after.cr.Some? && Spoke(after) == Spoke(w) && Gate(env, after.cr.value) == Gate(env, w.cr.value)
      && (forall cfg :: WantedConfig(after.cr.value, cfg) == WantedConfig(w.cr.value, cfg))
      && Foretold(env, after.cr.value, ok) == Foretold(env, w.cr.value, ok)
  {
    ReconcileReports(env, w);
  }

  /** The first full pass: at rest afterwards, and steady exactly outside the alternation. */
  lemma FirstPassSettles(env: Env, w: World)
    requires HubAnswers(env) && Live(w) && TokenKept(env, w)
    ensures var after := Reconcile(env, w).world;
      && Rested(env, after)
      && (Steady(env, after) <==> !Alternates(env, after))
  {
    var after := Reconcile(env, w).world;
    PassRests(env, w);
    PassKeepsSpec(env, w, true);
    StandingAfterPass(env, w);
    assert Standing(after, Spoke(w)) == Standing(Judge(env, w).world, Spoke(w));
    QuietExactly(env, after);
  }

  lemma SteadyPass(env: Env, w: World)
    requires HubAnswers(env) && Steady(env, w)
    ensures var after := Reconcile(env, w).world;
      after.cr.Some? && after.cr.value.conditions == w.cr.value.conditions && Steady(env, after)
  {
    RestedPass(env, w);
    StandingAfterPass(env, w);
    var after := Judge(env, w).world;
    QuietExactly(env, after);
    if Gate(env, w.cr.value).None? && env.credentials.None? {
      assert after == w;
    }
  }

  // ----- the clock moves -----

  lemma {:induction false} SameRefusals(env: Env, other: Env, todo: seq<Resource>)
    requires env.fails == other.fails
    ensures Refused(env, todo) == Refused(other, todo)
    decreases |todo|
  {
    if todo != [] {
      SameRefusals(env, other, todo[1..]);
    }
  }

  /** Nothing but the age of the token depends on the clock. */
  lemma ForetoldAt(env: Env, now: nat, issued: Token, cr: Cr, ok: bool)
    ensures Foretold(At(env, now, issued), cr, ok) == Foretold(env, cr, ok)
  {
    SameRefusals(env, At(env, now, issued), BASE);
    SameRefusals(env, At(env, now, issued), ADAPTER);
  }

  /** The verdict depends on whether there is a token. */
  predicate TokenMatters(env: Env, cr: Cr) {
    Foretold(env, cr, true) != Foretold(env, cr, false)
  }

  /** The token is good now, will not be at `later`, the spoke refuses another, and the verdict depends on it. */
  predicate Ages(env: Env, w: World, later: nat)
    requires w.cr.Some?
  {
    && TokenMatters(env, w.cr.value) && RequestToken in env.fails
    && var token := ExistingToken(env, w, Spoke(w));
       Reusable(token, env.now) && !Reusable(token, later)
  }

  /** The verdict at a later time is another exactly if the token has aged. */
  lemma AgesExactly(env: Env, w: World, now: nat, issued: Token)
    requires w.cr.Some? && now >= env.now
    ensures var later := At(env, now, issued);
      && (HubAnswers(later) <==> HubAnswers(env)) && (TokenKept(later, w) <==> TokenKept(env, w))
      && (Ages(env, w, now) <==>
        Foretold(later, w.cr.value, TokenOk(later, w)) != Foretold(env, w.cr.value, TokenOk(env, w)))
  {
    var later := At(env, now, issued);
    ForetoldAt(env, now, issued, w.cr.value, true);
    ForetoldAt(env, now, issued, w.cr.value, false);
    assert ExistingToken(later, w, Spoke(w)) == ExistingToken(env, w, Spoke(w));
  }

  /** What the verdicts with and without a token look like where they differ. */
  lemma TokenVerdicts(env: Env, cr: Cr, cs: seq<Condition>)
    requires TokenMatters(env, cr)
    ensures Gate(env, cr).None? && env.credentials.Some?
    ensures Foretold(env, cr, false) == Failed(AdapterStage, ADAPTERS_FAILED, ErrorText(env, RequestToken))
    ensures Intended(cs, Foretold(env, cr, true), cr.generation, Ready) !=
      Intended(cs, Foretold(env, cr, false), cr.generation, Ready)
  {
  }

  /** A pass at a later time changes the status of a steady spoke if and only if its token has aged. */
  lemma LaterPass(env: Env, w: World, now: nat, issued: Token)
    requires HubAnswers(env) && Steady(env, w) && now >= env.now
    ensures var later := At(env, now, issued);
      var after := Reconcile(later, w).world;
      && after.cr.Some? && HubAnswers(later) && Steady(later, after)
      && (after.cr.value.conditions != w.cr.value.conditions <==> Ages(env, w, now))
  {
    var later, cr := At(env, now, issued), w.cr.value;
    AgesExactly(env, w, now, issued);
    if Ages(env, w, now) {
      FirstPassSettles(later, w);
      var after := Reconcile(later, w).world;
      AgedPass(env, w, now, issued);
    } else {
      assert Steady(later, w);
      SteadyPass(later, w);
    }
  }

  /** The pass that finds the token aged. */
  lemma AgedPass(env: Env, w: World, now: nat, issued: Token)
    requires HubAnswers(env) && Rested(env, w) && now >= env.now && Ages(env, w, now)
    ensures var later := At(env, now, issued);
      var after := Reconcile(later, w).world;
      && after.cr.Some? && env.credentials.Some? && after.cr.value.conditions != w.cr.value.conditions
      && FactsAt(after.cr.value.conditions, Ready) ==
         Some(Facts(No, ADAPTERS_FAILED, ErrorText(env, RequestToken), w.cr.value.generation))
  {
    var later, cr := At(env, now, issued), w.cr.value;
    AgesExactly(env, w, now, issued);
    ForetoldAt(env, now, issued, cr, false);
    PassRests(later, w);
    var after := Reconcile(later, w).world.cr.value;
    TokenVerdicts(env, cr, cr.conditions);
    DenotesReady(cr, Foretold(env, cr, true));
    DenotesReady(after, Foretold(env, cr, false));
  }

  lemma DenotesReady(cr: Cr, v: Verdict)
    requires Denotes(cr, v)
    ensures FactsAt(cr.conditions, Ready) == Intended(cr.conditions, v, cr.generation, Ready)
  {
  }

  /** A pass keeps the token it could not replace. */
  lemma PassKeepsToken(env: Env, w: World)
    requires HubAnswers(env) && Live(w) && TokenKept(env, w) && RequestToken in env.fails && Gate(env, w.cr.value).None?
    ensures ExistingToken(env, Reconcile(env, w).world, Spoke(w)) == ExistingToken(env, w, Spoke(w))
  {
    PassKeepsSpec(env, w, true);
    JudgeKeepsToken(env, w);
  }

  /** After a pass the token will age by the same times, unless it has aged already. */
  lemma AgesLater(env: Env, w: World, now: nat, issued: Token, later: nat)
    requires HubAnswers(env) && Rested(env, w) && env.now <= now <= later
    ensures var env' := At(env, now, issued);
      var after := Reconcile(env', w).world;
      after.cr.Some? && (Ages(env', after, later) <==> Ages(env, w, later) && !Ages(env, w, now))
  {
    var env', cr := At(env, now, issued), w.cr.value;
    AgesExactly(env, w, now, issued);
    var after := Reconcile(env', w).world;
    PassKeepsSpec(env', w, true);
    PassKeepsSpec(env', w, false);
    ForetoldAt(env, now, issued, cr, true);
    ForetoldAt(env, now, issued, cr, false);
    if TokenMatters(env, cr) && RequestToken in env.fails {
      TokenVerdicts(env, cr, cr.conditions);
      PassKeepsToken(env', w);
      SameToken(env, now, issued, w);
    }
  }

  lemma SameToken(env: Env, now: nat, issued: Token, w: World)
    requires w.cr.Some?
    ensures ExistingToken(At(env, now, issued), w, Spoke(w)) == ExistingToken(env, w, Spoke(w))
  {
  }

  /** A pass or a health check, at some time. */
  datatype Tick = PassTick(now: nat, issued: Token) | HealthTick(now: nat)

  function Run(env: Env, w: World, t: Tick): World {
    if t.PassTick? then Reconcile(At(env, t.now, t.issued), w).world else CheckSpoke(At(env, t.now, env.issued), w)
  }

  /** The clock does not go back. */
  predicate Ordered(from: nat, ticks: seq<Tick>)
    decreases |ticks|
  {
    ticks != [] ==> from <= ticks[0].now && Ordered(ticks[0].now, ticks[1..])
  }

  function Status(w: World): seq<Condition> {
    if w.cr.Some? then w.cr.value.conditions else []
  }

  /** How many of the ticks change the stored conditions. */
  function Changes(env: Env, w: World, ticks: seq<Tick>): nat
    decreases |ticks|
  {
    if ticks == [] then 0
    else
      var after := Run(env, w, ticks[0]);
      (if Status(after) != Status(w) then 1 else 0) + Changes(env, after, ticks[1..])
  }

  /** Some pass among the ticks comes too late for the token. */
  ghost predicate AgesAmong(env: Env, w: World, ticks: seq<Tick>)
    requires w.cr.Some?
  {
    exists t :: t in ticks && t.PassTick? && Ages(env, w, t.now)
  }

  lemma {:induction false} ChangesAt(env: Env, now: nat, issued: Token, w: World, ticks: seq<Tick>)
    ensures Changes(At(env, now, issued), w, ticks) == Changes(env, w, ticks)
    decreases |ticks|
  {
    if ticks != [] {
      assert Run(At(env, now, issued), w, ticks[0]) == Run(env, w, ticks[0]);
      ChangesAt(env, now, issued, Run(env, w, ticks[0]), ticks[1..]);
    }
  }

  lemma {:induction false} OrderedFrom(from: nat, ticks: seq<Tick>, earlier: nat)
    requires Ordered(from, ticks) && earlier <= from
    ensures Ordered(earlier, ticks)
    ensures forall t :: t in ticks ==> from <= t.now
    decreases |ticks|
  {
    if ticks != [] {
      OrderedFrom(ticks[0].now, ticks[1..], ticks[0].now);
    }
  }

  lemma AgesAmongNext(env: Env, w: World, ticks: seq<Tick>)
    requires HubAnswers(env) && Steady(env, w) && ticks != [] && Ordered(env.now, ticks) && ticks[0].PassTick?
    ensures var t := ticks[0];
      var after := Run(env, w, t);
      && after.cr.Some?
      && (AgesAmong(At(env, t.now, t.issued), after, ticks[1..]) <==>
        AgesAmong(env, w, ticks[1..]) && !Ages(env, w, t.now))
  {
    var t := ticks[0];
    OrderedFrom(t.now, ticks[1..], t.now);
    LaterPass(env, w, t.now, t.issued);
    forall u | u in ticks[1..]
      ensures Ages(At(env, t.now, t.issued), Run(env, w, t), u.now) <==> Ages(env, w, u.now) && !Ages(env, w, t.now)
    {
      AgesLater(env, w, t.now, t.issued, u.now);
    }
  }

  /**
   Convergence on a moving clock: whatever passes and health checks follow the first full pass on a
   spoke that is then steady, the stored conditions change once if some pass comes after the token
   has aged, and otherwise never.
   */
  lemma {:induction false} SteadyUnlessTokenAges(env: Env, w: World, ticks: seq<Tick>)
    requires HubAnswers(env) && Steady(env, w) && Ordered(env.now, ticks)
    ensures Changes(env, w, ticks) == if AgesAmong(env, w, ticks) then 1 else 0
    decreases |ticks|
  {
    if ticks != [] {
      var t := ticks[0];
      assert ticks == [t] + ticks[1..];
      if t.PassTick? {
        var env', after := At(env, t.now, t.issued), Run(env, w, t);
        LaterPass(env, w, t.now, t.issued);
        AgesAmongNext(env, w, ticks);
        SteadyUnlessTokenAges(env', after, ticks[1..]);
        ChangesAt(env, t.now, t.issued, after, ticks[1..]);
      } else {
        assert Run(env, w, t) == w;
        OrderedFrom(t.now, ticks[1..], env.now);
        SteadyUnlessTokenAges(env, w, ticks[1..]);
      }
    }
  }

  /** From now on the spoke refuses tokens. */
  function Refusing(env: Env): Env {
    env.(fails := {RequestToken})
  }

  lemma HealthyToken(env: Env, w: World)
    requires Live(w) && Healthy(env, w)
    ensures var after := Reconcile(env, w).world;
      var token := ExistingToken(env, after, Spoke(w));
      after.cr.Some? && Reusable(token, env.now) && Whole(token)
  {
    ManagedWhenHealthy(env, w);
    PassKeepsSpec(env, w, true);
    var existing := ExistingToken(env, w, Spoke(w));
    if Reusable(existing, env.now) {
      WholeTruncates(existing.value.expiry);
    }
    JudgeStoresToken(env, w);
  }

  /** Refusing tokens does not disturb a spoke whose token is good. */
  lemma RefusingSteady(env: Env, w: World)
    requires env.fails == {} && Steady(env, w) && env.credentials.Some? && env.url.Some? && Gate(env, w.cr.value).None?
    requires WantedConfig(w.cr.value, env.credentials.value) in env.reachable
    requires Reusable(ExistingToken(env, w, Spoke(w)), env.now) && Whole(ExistingToken(env, w, Spoke(w)))
    ensures HubAnswers(Refusing(env)) && Steady(Refusing(env), w)
    ensures TokenMatters(Refusing(env), w.cr.value) &&
      ExistingToken(Refusing(env), w, Spoke(w)) == ExistingToken(env, w, Spoke(w))
  {
    HealthyVerdict(env, w.cr.value);
  }

  /**
   This does happen: every healthy spoke, once settled, is steady while it refuses tokens, until
   the one it gave out ages.
   */
  lemma TokenRunsOut(env: Env, w: World, later: nat)
    requires Live(w) && Healthy(env, w)
    ensures var after := Reconcile(env, w).world;
      && HubAnswers(Refusing(env)) && Steady(Refusing(env), after)
      && var token := ExistingToken(env, after, Spoke(w));
         && token.Some? && (Ages(Refusing(env), after, later) <==> later >= token.value.expiry - ROTATION_BUFFER)
  {
    FirstPassSettles(env, w);
    PassKeepsSpec(env, w, true);
    HealthyToken(env, w);
    RefusingSteady(env, Reconcile(env, w).world);
  }

  lemma HealthyVerdict(env: Env, cr: Cr)
    requires env.fails == {} && Gate(env, cr).None? && env.credentials.Some? && env.url.Some?
    requires WantedConfig(cr, env.credentials.value) in env.reachable
    ensures Foretold(env, cr, true).Managed? && Foretold(Refusing(env), cr, true).Managed?
    ensures Foretold(Refusing(env), cr, false).Failed?
  {
    NoRefusals(env, BASE);
    NoRefusals(env, ADAPTER);
    NoRefusals(Refusing(env), BASE);
    NoRefusals(Refusing(env), ADAPTER);
  }

  lemma {:induction false} NoRefusals(env: Env, todo: seq<Resource>)
    requires forall r :: CreateOn(r) !in env.fails
    ensures Refused(env, todo).None?
    decreases |todo|
  {
    if todo != [] {
      NoRefusals(env, todo[1..]);
    }
  }

  // ----- the alternation -----

  /** Without credentials nothing depends on the clock. */
  lemma RestedAt(env: Env, w: World, now: nat, issued: Token)
    requires env.credentials.None?
    ensures Rested(At(env, now, issued), w) <==> Rested(env, w)
    ensures HubAnswers(At(env, now, issued)) <==> HubAnswers(env)
    ensures w.cr.Some? ==> (Alternates(At(env, now, issued), w) <==> Alternates(env, w))
  {
    if w.cr.Some? {
      ForetoldAt(env, now, issued, w.cr.value, true);
      ForetoldAt(env, now, issued, w.cr.value, false);
      assert ExistingToken(At(env, now, issued), w, Spoke(w)) == ExistingToken(env, w, Spoke(w));
    }
  }

  /** The handler's half: it reports the spoke reachable, and its write gets through the event predicate. */
  lemma HandlerHalf(env: Env, w: World)
    requires HubAnswers(env) && Rested(env, w) && Alternates(env, w)
    ensures var seen := CheckSpoke(env, w);
      && Live(seen) && TokenKept(env, seen) && Alternates(env, seen) && IsYes(seen.cr.value.conditions, Connected)
      && ConnectedMoved(w.cr.value.conditions, seen.cr.value.conditions)
  {
    var cr := w.cr.value;
    StatusConvergence.ConnectedStored(cr.conditions, Foretold(env, cr, TokenOk(env, w)), cr.generation);
    var probed := Probed(true, env.connectText, cr.generation);
    FindSet(cr.conditions, probed, env.now, Connected);
    SetUnique(cr.conditions, probed, env.now);
  }

  /** The reconciler's half: it reports the missing credentials, and its write gets through too. */
  lemma ReconcilerHalf(env: Env, w: World)
    requires HubAnswers(env) && Live(w) && TokenKept(env, w) && Alternates(env, w) &&
      IsYes(w.cr.value.conditions, Connected)
    ensures var back := Reconcile(env, w).world;
      && Rested(env, back) && Alternates(env, back) && !IsYes(back.cr.value.conditions, Connected)
      && ConnectedMoved(w.cr.value.conditions, back.cr.value.conditions)
  {
    PassRests(env, w);
    ReconcileReports(env, w);
    var back := Reconcile(env, w).world;
    assert Judge(env, w).world == w;
    StatusConvergence.ConnectedStored(back.cr.value.conditions, Foretold(env, back.cr.value, TokenOk(env, back)),
      back.cr.value.generation);
  }

  /** Any full pass in the exception leads into the alternation. */
  lemma EntersAlternation(env: Env, w: World)
    requires HubAnswers(env) && Live(w) && TokenKept(env, w) && Alternates(env, w)
    ensures Rested(env, Reconcile(env, w).world) && Alternates(env, Reconcile(env, w).world)
  {
    PassRests(env, w);
    PassKeepsSpec(env, w, true);
    assert Judge(env, w).world == w;
  }

  /** When a round's check and pass take place, and the token on offer. */
  datatype Round = Round(check: nat, pass: nat, issued: Token)

  function Checked(env: Env, w: World, r: Round): World {
    CheckSpoke(At(env, r.check, env.issued), w)
  }

  function Passed(env: Env, w: World, r: Round): World {
    Reconcile(At(env, r.pass, r.issued), Checked(env, w, r)).world
  }

  /**
   The handler reports the spoke reachable, the next pass reports the missing credentials, and both
   writes get through.
   */
  lemma AlternatesOnce(env: Env, w: World, r: Round)
    requires HubAnswers(env) && Rested(env, w) && Alternates(env, w)
    ensures var seen, back := Checked(env, w, r), Passed(env, w, r);
      && seen.cr.Some? && back.cr.Some?
      && IsYes(seen.cr.value.conditions, Connected) && !IsYes(back.cr.value.conditions, Connected)
      && ConnectedMoved(w.cr.value.conditions, seen.cr.value.conditions)
      && ConnectedMoved(seen.cr.value.conditions, back.cr.value.conditions)
      && Rested(env, back) && Alternates(env, back)
  {
    RestedAt(env, w, r.check, env.issued);
    HandlerHalf(At(env, r.check, env.issued), w);
    var seen := Checked(env, w, r);
    RestedAt(env, seen, r.pass, r.issued);
    ReconcilerHalf(At(env, r.pass, r.issued), seen);
    RestedAt(env, Passed(env, w, r), r.pass, r.issued);
  }

  /** Each world is the previous one after a health check and a pass, at whatever times. */
  ghost predicate Rounds(env: Env, worlds: seq<World>, rounds: seq<Round>) {
    |worlds| == |rounds| + 1 && forall i :: 0 <= i < |rounds| ==> worlds[i + 1] == Passed(env, worlds[i], rounds[i])
  }

  /** And so on without end: after any number of rounds AlternatesOnce applies again. */
  lemma {:induction false} AlternatesForever(env: Env, worlds: seq<World>, rounds: seq<Round>, n: nat)
    requires HubAnswers(env) && Rounds(env, worlds, rounds) && n < |worlds|
    requires Rested(env, worlds[0]) && Alternates(env, worlds[0])
    ensures Rested(env, worlds[n]) && Alternates(env, worlds[n])
  {
    if n > 0 {
      AlternatesForever(env, worlds, rounds, n - 1);
      AlternatesOnce(env, worlds[n - 1], rounds[n - 1]);
      assert worlds[n - 1 + 1] == Passed(env, worlds[n - 1], rounds[n - 1]);
    }
  }
}
