/**
 The adapter stack on the hub and the HubConfig finalizer that guards it: the reconciler's
 loops as they run, and the same reconciler split at its API calls among users who create and
 delete HubConfigs, crashes, and the spoke controller's Deployment restarts.
 */
module AdapterStack {
  import opened Kube

  datatype Part =
    | Account | Role | OwnBinding | MonitoringBinding | ClusterRole | ClusterBinding | Config | Deployment

  /** Creation order: adapterResources, then the Deployment. */
  const CREATION: seq<Part> :=
    [Account, Role, OwnBinding, MonitoringBinding, ClusterRole, ClusterBinding, Config, Deployment]

  /** Deletion order of teardownAdapterStack. */
  const DELETION: seq<Part> :=
    [Deployment, Config, ClusterBinding, ClusterRole, MonitoringBinding, OwnBinding, Role, Account]

  lemma DeletionIsComplete(p: Part)
    ensures p in DELETION
  {
  }

  /** Every part is created, and the Deployment last. */
  lemma CreationIsComplete(p: Part)
    ensures p in CREATION && |CREATION| == 8 && CREATION[7] == Deployment
    ensures forall i, j :: 0 <= i < j < 8 ==> CREATION[i] != CREATION[j]
  {
    var i := match p
      case Account => 0 case Role => 1 case OwnBinding => 2 case MonitoringBinding => 3
      case ClusterRole => 4 case ClusterBinding => 5 case Config => 6 case Deployment => 7;
    assert CREATION[i] == p;
  }

  /** The first k parts. */
  function Begun(k: nat): set<Part>
    requires k <= |CREATION|
  {
    set p | p in CREATION[..k]
  }

  lemma BegunNext(k: nat)
    requires k < |CREATION|
    ensures Begun(k + 1) == Begun(k) + {CREATION[k]}
    ensures k < 7 ==> Deployment !in Begun(k + 1)
  {
    assert CREATION[..k + 1] == CREATION[..k] + [CREATION[k]];
    CreationIsComplete(Deployment);
  }

  lemma BegunAll()
    ensures forall p: Part :: p in Begun(|CREATION|) && (p.Deployment? || p in Begun(7))
  {
    assert CREATION[..|CREATION|] == CREATION;
    forall p: Part ensures p in Begun(|CREATION|) && (p.Deployment? || p in Begun(7)) {
      CreationIsComplete(p);
      var i :| 0 <= i < |CREATION| && CREATION[i] == p;
      if i < 7 {
        assert CREATION[..7][i] == p;
      }
    }
  }

  /** `version` is the resource version; `held` stands for somebody else's finalizer. */
  datatype HubConfig = HubConfig(version: nat, deleting: bool, finalizer: bool, held: bool)

  datatype Call = GetHub | AddFinalizer | RemoveFinalizer | Ensure(part: Part) | Delete(part: Part)

  /** The k-th delete is the first that fails. */
  ghost predicate FirstFailedDelete(fails: set<Call>, k: nat) {
    && k < |DELETION| && Delete(DELETION[k]) in fails
    && forall j :: 0 <= j < k ==> Delete(DELETION[j]) !in fails
  }

  /** HubConfigReconciler and the stack functions it calls, uninterrupted. */
  class HubConfigReconciler {
    var hub: Option<HubConfig>
    var parts: set<Part>

    ghost predicate Guarded()
      reads this
    {
      parts != {} ==> hub.Some? && hub.value.finalizer
    }

    /**
     ensureAdapterStack: stops at the first part it cannot create or update. Success means all eight
     parts are there; and the Deployment is created only after all others were ensured.
     */
    method EnsureAdapterStack(fails: set<Call>) returns (error: Option<Part>)
      modifies this`parts
      ensures error.None? <==> forall p: Part :: Ensure(p) !in fails
      ensures error.None? ==> forall p: Part :: p in parts
      ensures old(parts) <= parts
      ensures Deployment in parts && Deployment !in old(parts) ==>
        forall p: Part :: p in parts && (Ensure(p) in fails ==> p.Deployment?)
      ensures error.Some? ==>
        exists k :: 0 <= k < |CREATION| && CREATION[k] == error.value && Ensure(CREATION[k]) in fails &&
                    parts == old(parts) + Begun(k)
    {
      error := None;
      for k := 0 to |CREATION|
        invariant parts == old(parts) + Begun(k)
        invariant forall p :: p in Begun(k) ==> Ensure(p) !in fails
        invariant k <= 7 ==> Deployment !in Begun(k)
      {
        BegunNext(k);
        if Ensure(CREATION[k]) in fails {
          CreationIsComplete(CREATION[k]);
          return Some(CREATION[k]);
        }
        parts := parts + {CREATION[k]};
      }
      BegunAll();
    }

    /** teardownAdapterStack: attempts all eight deletes, remembers the first error. */
    method TeardownAdapterStack(fails: set<Call>) returns (firstErr: Option<Part>)
      modifies this`parts
      ensures parts == set p | p in old(parts) && Delete(p) in fails
      ensures firstErr.None? <==> forall p: Part :: Delete(p) !in fails
      ensures firstErr.None? ==> parts == {}
      ensures firstErr.Some? ==> exists k: nat :: FirstFailedDelete(fails, k) && DELETION[k] == firstErr.value
    {
      firstErr := None;
      for k := 0 to |DELETION|
        invariant parts == set p | p in old(parts) && (Delete(p) in fails || p !in DELETION[..k])
        invariant firstErr.None? <==> forall j :: 0 <= j < k ==> Delete(DELETION[j]) !in fails
        invariant firstErr.Some? ==>
          exists i: nat :: FirstFailedDelete(fails, i) && i < k && DELETION[i] == firstErr.value
      {
        if Delete(DELETION[k]) !in fails {
          parts := parts - {DELETION[k]};
        } else if firstErr.None? {
          firstErr := Some(DELETION[k]);
          assert FirstFailedDelete(fails, k);
        }
        assert DELETION[..k + 1] == DELETION[..k] + [DELETION[k]];
      }
      assert DELETION[..|DELETION|] == DELETION;
      forall p: Part ensures p in DELETION && (firstErr.None? ==> Delete(p) !in fails) {
        DeletionIsComplete(p);
      }
    }

    /** HubConfigReconciler.Reconcile */
    method Reconcile(fails: set<Call>) returns (ok: bool)
      requires Guarded()
      modifies this
      ensures Guarded()
      ensures old(hub).None? ==> hub.None? && parts == old(parts)
      ensures ok && old(hub).Some? && old(hub).value.deleting && old(hub).value.finalizer ==>
        parts == {} && (hub.Some? ==> !hub.value.finalizer && hub.value.held)
      ensures ok && old(hub).Some? && !old(hub).value.deleting ==>
        hub.Some? && hub.value.finalizer && forall p: Part :: p in parts
      ensures old(hub).Some? && old(hub).value.deleting && !old(hub).value.finalizer ==>
        hub == old(hub) && parts == old(parts)
      ensures GetHub in fails ==> !ok && hub == old(hub) && parts == old(parts)
      ensures old(hub).None? && GetHub !in fails ==> ok
      ensures old(hub).Some? && old(hub).value.deleting && GetHub !in fails ==>
        && (ok <==> !old(hub).value.finalizer || (RemoveFinalizer !in fails && forall p: Part :: Delete(p) !in fails))
        && (!ok ==> hub == old(hub))
        && (ok && old(hub).value.finalizer ==> (hub.None? <==> !old(hub).value.held))
      ensures old(hub).Some? && !old(hub).value.deleting && GetHub !in fails ==>
        && (ok <==> (old(hub).value.finalizer || AddFinalizer !in fails) && forall p: Part :: Ensure(p) !in fails)
        && hub.Some? && !hub.value.deleting && hub.value.held == old(hub).value.held
        && (hub.value.finalizer <==> old(hub).value.finalizer || AddFinalizer !in fails)
        && (parts == old(parts) || hub.value.finalizer)
    {
      if GetHub in fails {
        return false;
      }
      if hub.None? {
        return true;
      }
      var hc := hub.value;
      if hc.deleting {
        if hc.finalizer {
          var err := TeardownAdapterStack(fails);
          if err.Some? || RemoveFinalizer in fails {
            return false;
          }
          hub := if hc.held then Some(hc.(version := hc.version + 1, finalizer := false)) else None;
        }
        return true;
      }
      if !hc.finalizer {
        if AddFinalizer in fails {
          return false;
        }
        hub := Some(hc.(version := hc.version + 1, finalizer := true));
      }
      var err := EnsureAdapterStack(fails);
      return err.None?;
    }
  }

  // ----- the same reconciler among others -----

  datatype Progress =
    | Idle
    | Read(copy: HubConfig)
    | Ensuring(next: nat)
    | Tearing(copy: HubConfig, next: nat, failed: bool)

  /**
   `versions` hands out resource versions. `stamp` is the version the Deployment had when it was last
   written, `restarting` that of the copy the spoke reconciler is about to write back.
   */
  datatype State =
    State(hub: Option<HubConfig>, parts: set<Part>, stamp: nat, progress: Progress, restarting: Option<nat>,
      versions: nat)

  datatype Event =
    // users and accidents
    | Create(hold: bool)
    | Edit
    | MarkDeleted
    | ReleaseHold
    | Lose(part: Part)
    | Crash
    // the HubConfig reconciler
    | Start
    | GiveUp
    | PutFinalizer
    | SkipFinalizer
    | EnsurePart(applied: bool, acknowledged: bool)
    | FinishEnsuring
    | BeginTeardown
    | DeletePart(applied: bool, acknowledged: bool)
    | DropFinalizer
    // the spoke reconciler
    | RestartRead
    | RestartWrite

  const INITIAL := State(None, {}, 0, Idle, None, 0)

  /** Update is compare-and-swap: the copy must be the stored version. */
  predicate Current(s: State, copy: HubConfig) {
    s.hub.Some? && s.hub.value.version == copy.version
  }

  predicate Enabled(s: State, e: Event) {
    match e
    case Create(_) => s.hub.None?
    case Edit => s.hub.Some?
    case MarkDeleted => s.hub.Some? && !s.hub.value.deleting
    case ReleaseHold => s.hub.Some? && s.hub.value.held
    case Lose(_) => true
    case Crash => true
    case Start => s.progress.Idle? && s.hub.Some?
    case GiveUp => !s.progress.Idle?
    case PutFinalizer =>
      s.progress.Read? && !s.progress.copy.deleting && !s.progress.copy.finalizer && Current(s, s.progress.copy)
    case SkipFinalizer => s.progress.Read? && !s.progress.copy.deleting && s.progress.copy.finalizer
    case EnsurePart(_, _) => s.progress.Ensuring? && s.progress.next < |CREATION|
    case FinishEnsuring => s.progress.Ensuring? && s.progress.next >= |CREATION|
    case BeginTeardown => s.progress.Read? && s.progress.copy.deleting && s.progress.copy.finalizer
    case DeletePart(_, _) => s.progress.Tearing? && s.progress.next < |DELETION|
    case DropFinalizer =>
      s.progress.Tearing? && s.progress.next >= |DELETION| && !s.progress.failed && Current(s, s.progress.copy)
    case RestartRead => Deployment in s.parts
    case RestartWrite => s.restarting.Some?
  }

  function Put(s: State, hc: HubConfig): State {
    s.(hub := Some(hc.(version := s.versions)), versions := s.versions + 1)
  }

  /** A part is created or updated. */
  function Written(s: State, part: Part): State {
    s.(parts := s.parts + {part}, stamp := if part.Deployment? then s.versions else s.stamp, versions := s.versions + 1)
  }

  /** The update of the restart is refused if the Deployment is gone, or is another one or changed since. */
  predicate RestartAccepted(s: State) {
    Deployment in s.parts && s.restarting == Some(s.stamp)
  }

  function Next(s: State, e: Event): State
    requires Enabled(s, e)
  {
    match e
    case Create(hold) => Put(s, HubConfig(0, false, false, hold))
    case Edit => Put(s, s.hub.value)
    case MarkDeleted =>
      if s.hub.value.finalizer || s.hub.value.held then Put(s, s.hub.value.(deleting := true)) else s.(hub := None)
    case ReleaseHold =>
      if s.hub.value.deleting && !s.hub.value.finalizer then s.(hub := None) else Put(s, s.hub.value.(held := false))
    case Lose(part) => s.(parts := s.parts - {part})
    case Crash => s.(progress := Idle, restarting := None)
    case Start => s.(progress := Read(s.hub.value))
    case GiveUp => s.(progress := Idle)
    case PutFinalizer => Put(s, s.progress.copy.(finalizer := true)).(progress := Ensuring(0))
    case SkipFinalizer => s.(progress := Ensuring(0))
    case EnsurePart(applied, acknowledged) =>
      var made := if applied then Written(s, CREATION[s.progress.next]) else s;
      made.(progress := if applied && acknowledged then Ensuring(s.progress.next + 1) else Idle)
    case FinishEnsuring => s.(progress := Idle)
    case BeginTeardown => s.(progress := Tearing(s.progress.copy, 0, false))
    case DeletePart(applied, acknowledged) =>
      var left := if applied then s.parts - {DELETION[s.progress.next]} else s.parts;
      s.(parts := left,
         progress := Tearing(s.progress.copy, s.progress.next + 1, s.progress.failed || !applied || !acknowledged))
    case DropFinalizer =>
      var rest := s.progress.copy.(finalizer := false);
      (if rest.held then Put(s, rest) else s.(hub := None)).(progress := Idle)
    case RestartRead => s.(restarting := Some(s.stamp))
    case RestartWrite => (if RestartAccepted(s) then Written(s, Deployment) else s).(restarting := None)
  }

  /** The promise: while any part of the stack exists, a HubConfig with the finalizer does too. */
  predicate Guarded(s: State) {
    s.parts != {} ==> s.hub.Some? && s.hub.value.finalizer
  }

  /** A version identifies one content, and none handed out so far will be handed out again. */
  predicate CopyOk(s: State, copy: HubConfig) {
    && copy.version < s.versions
    && (Current(s, copy) ==> s.hub.value == copy)
    && (copy.finalizer ==> s.hub.Some? && s.hub.value.finalizer && (copy.deleting ==> s.hub.value.deleting))
  }

  predicate Inv(s: State) {
    && Guarded(s)
    && (s.hub.Some? ==> s.hub.value.version < s.versions)
    && match s.progress
       case Idle => true
       case Read(copy) => CopyOk(s, copy)
       case Ensuring(_) => s.hub.Some? && s.hub.value.finalizer
       case Tearing(copy, next, failed) =>
         && CopyOk(s, copy) && copy.finalizer && copy.deleting
         && (!failed ==> forall i :: 0 <= i < next && i < |DELETION| ==> DELETION[i] !in s.parts)
  }

  lemma NothingLeft(s: State)
    requires forall i :: 0 <= i < |DELETION| ==> DELETION[i] !in s.parts
    ensures s.parts == {}
  {
    forall p: Part ensures p !in s.parts {
      DeletionIsComplete(p);
      var i :| 0 <= i < |DELETION| && DELETION[i] == p;
    }
  }

  /** Restarts never bring the Deployment back: a copy read before teardown is refused after it. */
  lemma RestartsNeverRecreate(s: State, e: Event)
    requires Enabled(s, e) && (e.RestartRead? || e.RestartWrite?)
    ensures Next(s, e).parts == s.parts
    ensures e.RestartWrite? && Deployment !in s.parts ==> Next(s, e) == s.(restarting := None)
  {
  }

  lemma StepKeeps(s: State, e: Event)
    requires Inv(s) && Enabled(s, e)
    ensures Inv(Next(s, e))
  {
    if e.DropFinalizer? {
      NothingLeft(s);
    }
  }

  ghost predicate IsRun(states: seq<State>, events: seq<Event>) {
    && |states| == |events| + 1
    && states[0] == INITIAL
    && forall i :: 0 <= i < |events| ==> Enabled(states[i], events[i]) && states[i + 1] == Next(states[i], events[i])
  }

  lemma {:induction false} RunKeeps(states: seq<State>, events: seq<Event>, n: nat)
    requires IsRun(states, events) && n <= |events|
    ensures Inv(states[n])
  {
    if n > 0 {
      RunKeeps(states, events, n - 1);
      StepKeeps(states[n - 1], events[n - 1]);
    }
  }

  // ----- the reconciler's loops as events -----

  /** The calls of ensureAdapterStack from this part on, nobody else interfering. */
  function EnsureFrom(s: State, fails: set<Call>): State
    requires s.progress.Ensuring?
    decreases |CREATION| - s.progress.next
  {
    if s.progress.next >= |CREATION| then Next(s, FinishEnsuring)
    else if Ensure(CREATION[s.progress.next]) in fails then Next(s, EnsurePart(false, false))
    else EnsureFrom(Next(s, EnsurePart(true, true)), fails)
  }

  /** The first part from k on that cannot be ensured. */
  function FirstFailing(k: nat, fails: set<Call>): (r: nat)
    requires k <= |CREATION|
    ensures k <= r <= |CREATION|
    ensures forall i :: k <= i < r ==> Ensure(CREATION[i]) !in fails
    ensures r < |CREATION| ==> Ensure(CREATION[r]) in fails
    decreases |CREATION| - k
  {
    if k == |CREATION| || Ensure(CREATION[k]) in fails then k else FirstFailing(k + 1, fails)
  }

  /** They do what HubConfigReconciler.EnsureAdapterStack promises. */
  lemma {:induction false} EnsureFromExactly(s: State, fails: set<Call>, before: set<Part>)
    requires s.progress.Ensuring? && s.progress.next <= |CREATION|
    requires s.parts == before + Begun(s.progress.next)
    ensures var t := EnsureFrom(s, fails);
      t.progress.Idle? && t.hub == s.hub && t.parts == before + Begun(FirstFailing(s.progress.next, fails))
    decreases |CREATION| - s.progress.next
  {
    var next := s.progress.next;
    if next < |CREATION| && Ensure(CREATION[next]) !in fails {
      BegunNext(next);
      EnsureFromExactly(Next(s, EnsurePart(true, true)), fails, before);
    }
  }

  /** The calls of teardownAdapterStack from this part on. */
  function TearFrom(s: State, fails: set<Call>): State
    requires s.progress.Tearing?
    decreases |DELETION| - s.progress.next
  {
    if s.progress.next >= |DELETION| then s
    else
      var ok := Delete(DELETION[s.progress.next]) !in fails;
      TearFrom(Next(s, DeletePart(ok, ok)), fails)
  }

  lemma {:induction false} TearFromExactly(s: State, fails: set<Call>)
    requires s.progress.Tearing? && s.progress.next <= |DELETION|
    ensures var t := TearFrom(s, fails);
      && t.hub == s.hub && t.progress.Tearing? && t.progress.copy == s.progress.copy && t.progress.next == |DELETION|
      && (forall p :: p in t.parts <==> p in s.parts && (Delete(p) in fails || p !in DELETION[s.progress.next..]))
      && (t.progress.failed <==>
        s.progress.failed || exists p :: p in DELETION[s.progress.next..] && Delete(p) in fails)
    decreases |DELETION| - s.progress.next
  {
    var next := s.progress.next;
    if next < |DELETION| {
      var ok := Delete(DELETION[next]) !in fails;
      assert DELETION[next..] == [DELETION[next]] + DELETION[next + 1..];
      TearFromExactly(Next(s, DeletePart(ok, ok)), fails);
    }
  }

  /**
   An undisturbed pass is made of these events: on a live HubConfig with the finalizer and no failing
   call it leaves all eight parts; on a terminating one it leaves exactly the parts whose delete fails,
   and the finalizer may go exactly if none does.
   */
  lemma PassIsEvents(s: State, fails: set<Call>)
    requires s.progress.Idle? && s.hub.Some? && s.hub.value.finalizer
    ensures var read := Next(s, Start);
      if !s.hub.value.deleting then
        var t := EnsureFrom(Next(read, SkipFinalizer), fails);
        t.hub == s.hub && s.parts <= t.parts && ((forall p: Part :: Ensure(p) !in fails) ==>
          forall p: Part :: p in t.parts)
      else
        var t := TearFrom(Next(read, BeginTeardown), fails);
        && (forall p: Part :: p in t.parts <==> p in s.parts && Delete(p) in fails)
        && (Enabled(t, DropFinalizer) <==> forall p: Part :: Delete(p) !in fails)
  {
    var read := Next(s, Start);
    if !s.hub.value.deleting {
      var ensuring := Next(read, SkipFinalizer);
      assert Begun(0) == {};
      EnsureFromExactly(ensuring, fails, s.parts);
      BegunAll();
    } else {
      TearFromExactly(Next(read, BeginTeardown), fails);
      assert DELETION[0..] == DELETION;
      forall p: Part ensures p in DELETION {
        DeletionIsComplete(p);
      }
    }
  }

  /** At every API-call boundary of every run the stack is guarded; with no HubConfig there is no stack. */
  lemma StackGuarded(states: seq<State>, events: seq<Event>, n: nat)
    requires IsRun(states, events) && n <= |events|
    ensures Guarded(states[n])
    ensures states[n].hub.None? ==> states[n].parts == {}
  {
    RunKeeps(states, events, n);
  }
}
