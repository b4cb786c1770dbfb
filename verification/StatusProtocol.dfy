/**
 The two writers of one SpokeCluster's condition list: reconcile passes split at
 their API calls, and the periodic health handler, which patches from a copy it
 listed earlier. Both patches are JSON merge patches, so a changed list replaces
 the stored one whole. The event predicate couples the writers through the work queue.
 */
module StatusProtocol {
  import opened Kube
  import opened Conditions
  import opened SpokeStatus

  /** `held` stands for a finalizer that belongs to somebody else. */
  datatype Cr = Cr(generation: nat, deleting: bool, finalizer: bool, held: bool, conditions: seq<Condition>)

  /** Where the single worker for this key stands. */
  datatype Progress =
    | Idle
    | Running(read: Cr)
    | Deciding(local: seq<Condition>, retry: bool)
    | Sending(merged: seq<Condition>, retry: bool)

  datatype Health = Resting | Listed(copy: Cr)

  /** `queued` covers events still on their way and keys waiting out their backoff. */
  datatype State = State(cr: Option<Cr>, queued: bool, progress: Progress, health: Health)

  datatype Event =
    // the environment
    | Create(hold: bool)
    | EditSpec
    | MarkDeleted
    | ReleaseHold
    | Enqueue              // an event of a HubConfig queues every key
    | Restart
    // reconcile passes
    | Start(answered: bool)
    | Abort
    | AddFinalizer
    | RemoveFinalizer
    | QuietStop
    | Conclude(verdict: Verdict, at: nat)
    | Reread(answered: bool, at: nat)
    | SendPatch(applied: bool, acknowledged: bool)
    // the health handler
    | List
    | Skip
    | HealthPatch(reachable: bool, message: string, at: nat)

  const INITIAL := State(None, false, Idle, Resting)

  predicate Enabled(s: State, e: Event) {
    match e
    case Create(_) => s.cr.None?
    case EditSpec => s.cr.Some?
    case MarkDeleted => s.cr.Some? && !s.cr.value.deleting
    case ReleaseHold => s.cr.Some? && s.cr.value.held
    case Enqueue => true
    case Restart => true
    case Start(_) => s.queued && s.progress.Idle?
    case Abort => s.progress.Running?
    case AddFinalizer =>
      && s.progress.Running? && !s.progress.read.deleting && !s.progress.read.finalizer
      && s.cr == Some(s.progress.read)
    case RemoveFinalizer =>
      && s.progress.Running? && s.progress.read.deleting && s.progress.read.finalizer
      && s.cr.Some? && s.cr.value.deleting && s.cr.value.finalizer
    case QuietStop => s.progress.Running? && s.progress.read.deleting && !s.progress.read.finalizer
    case Conclude(_, _) => s.progress.Running? && !s.progress.read.deleting && s.progress.read.finalizer
    case Reread(_, _) => s.progress.Deciding?
    case SendPatch(applied, _) => s.progress.Sending? && (applied ==> s.cr.Some?)
    case List => s.cr.Some?
    case Skip => s.health.Listed?
    case HealthPatch(reachable, _, _) =>
      s.health.Listed? && s.cr.Some? && ProbeNews(s.health.copy.conditions, reachable)
  }

  /** Replace the stored list whole and queue the key if the update predicate lets the event through. */
  function Store(s: State, conditions: seq<Condition>): State
    requires s.cr.Some?
  {
    s.(cr := Some(s.cr.value.(conditions := conditions)),
       queued := s.queued || ConnectedMoved(s.cr.value.conditions, conditions))
  }

  function HealthList(copy: Cr, reachable: bool, message: string, at: nat): seq<Condition> {
    Set(copy.conditions, Probed(reachable, message, copy.generation), at)
  }

  function Next(s: State, e: Event): State
    requires Enabled(s, e)
  {
    match e
    case Create(hold) => s.(cr := Some(Cr(1, false, false, hold, [])), queued := true)
    case EditSpec => s.(cr := Some(s.cr.value.(generation := s.cr.value.generation + 1)), queued := true)
    case MarkDeleted =>
      if s.cr.value.finalizer || s.cr.value.held
      then s.(cr := Some(s.cr.value.(deleting := true)), queued := true)
      else s.(cr := None, queued := true)
    case ReleaseHold =>
      if s.cr.value.deleting && !s.cr.value.finalizer then s.(cr := None, queued := true)
      else s.(cr := Some(s.cr.value.(held := false)))
    case Enqueue => s.(queued := true)
    case Restart => State(s.cr, true, Idle, Resting)
    case Start(answered) =>
      if !answered then s
      else if s.cr.None? then s.(queued := false)
      else s.(queued := false, progress := Running(s.cr.value))
    case Abort => s.(queued := true, progress := Idle)
    case AddFinalizer => s.(cr := Some(s.cr.value.(finalizer := true)), queued := true, progress := Idle)
    case RemoveFinalizer =>
      if s.cr.value.held then s.(cr := Some(s.cr.value.(finalizer := false)), progress := Idle)
      else s.(cr := None, progress := Idle, queued := true)
    case QuietStop => s.(progress := Idle)
    case Conclude(verdict, at) =>
      var read := s.progress.read;
      s.(progress := Deciding(Decide(read.conditions, verdict, read.generation, at), Retries(verdict)))
    case Reread(answered, at) =>
      if !answered || s.cr.None? then s.(queued := true, progress := Idle)
      else
        var merged := Merged(s.cr.value.conditions, s.progress.local, at);
        if Agrees(s.cr.value.conditions, merged) then s.(queued := s.queued || s.progress.retry, progress := Idle)
        else s.(progress := Sending(merged, s.progress.retry))
    case SendPatch(applied, acknowledged) =>
      var stored := if applied then Store(s, s.progress.merged) else s;
      var failed := !applied || !acknowledged;
      stored.(queued := stored.queued || failed || s.progress.retry, progress := Idle)
    case List => s.(health := Listed(s.cr.value))
    case Skip => s.(health := Resting)
    case HealthPatch(reachable, message, at) =>
      Store(s, HealthList(s.health.copy, reachable, message, at)).(health := Resting)
  }

  /** The promise: a live SpokeCluster that says Ready is fully staged, or work on it is pending. */
  predicate Good(s: State) {
    s.cr.Some? && !s.cr.value.deleting && IsYes(s.cr.value.conditions, Ready) ==>
      StagesYes(s.cr.value.conditions) || s.queued || !s.progress.Idle?
  }

  /**
   The listed copy still shows the stored Connected status. Being current implies it;
   the other conditions of the copy may be as old as they like.
   */
  predicate CopyAgrees(s: State)
    requires s.health.Listed? && s.cr.Some?
  {
    !ConnectedMoved(s.health.copy.conditions, s.cr.value.conditions)
  }

  /** A list that claims Ready claims the two stages the health handler never touches. */
  predicate Sound(cs: seq<Condition>) {
    Unique(cs) && (IsYes(cs, Ready) ==> IsYes(cs, Provisioned) && IsYes(cs, AdaptersReady))
  }

  predicate Complete(cs: seq<Condition>) {
    Unique(cs) && (IsYes(cs, Ready) ==> StagesYes(cs))
  }

  predicate ProgressOk(s: State) {
    match s.progress
    case Idle => true
    case Running(read) =>
      && Sound(read.conditions)
      && (read.deleting ==> s.queued || s.cr.None? || s.cr.value.deleting)
    case Deciding(local, _) => Complete(local)
    case Sending(merged, _) => Complete(merged)
  }

  predicate Inv(s: State) {
    && Good(s)
    && ProgressOk(s)
    && (s.cr.Some? ==> Sound(s.cr.value.conditions))
    && (s.health.Listed? ==> Sound(s.health.copy.conditions))
  }

  lemma HealthListSound(copy: Cr, reachable: bool, message: string, at: nat)
    requires Sound(copy.conditions)
    ensures var cs := HealthList(copy, reachable, message, at);
      && Sound(cs)
      && IsYes(cs, Connected) == reachable
      && (forall k :: k != Connected ==> Find(cs, k) == Find(copy.conditions, k))
  {
    var c := Probed(reachable, message, copy.generation);
    SetUnique(copy.conditions, c, at);
    forall k ensures Find(HealthList(copy, reachable, message, at), k) ==
                     if k == Connected then Some(Stamp(Find(copy.conditions, k), c, at)) else Find(copy.conditions, k) {
      FindSet(copy.conditions, c, at, k);
    }
  }

  lemma MergedComplete(stored: seq<Condition>, local: seq<Condition>, at: nat)
    requires Unique(stored) && Complete(local)
    ensures Complete(Merged(stored, local, at))
    ensures Agrees(stored, Merged(stored, local, at)) ==> Complete(stored)
  {
    var merged := Merged(stored, local, at);
    forall k ensures FactsAt(merged, k) == FactsAt(local, k) && Unique(merged) {
      MergedExact(stored, local, at, k);
    }
    assert FactsAt(merged, Ready) == FactsAt(local, Ready) && Unique(merged);
    assert FactsAt(merged, Connected) == FactsAt(local, Connected);
    assert FactsAt(merged, Provisioned) == FactsAt(local, Provisioned);
    assert FactsAt(merged, AdaptersReady) == FactsAt(local, AdaptersReady);
    if Agrees(stored, merged) {
      AgreesDecides(stored, merged);
      assert FactsAt(stored, Ready) == FactsAt(merged, Ready);
      assert FactsAt(stored, Connected) == FactsAt(merged, Connected);
      assert FactsAt(stored, Provisioned) == FactsAt(merged, Provisioned);
      assert FactsAt(stored, AdaptersReady) == FactsAt(merged, AdaptersReady);
    }
  }

  /** Every event keeps the invariant, a health patch provided its copy agrees on Connected. */
  lemma StepKeeps(s: State, e: Event)
    requires Inv(s) && Enabled(s, e)
    requires e.HealthPatch? ==> CopyAgrees(s)
    ensures Inv(Next(s, e))
  {
    match e
    case Conclude(verdict, at) =>
      var read := s.progress.read;
      DecideReady(read.conditions, verdict, read.generation, at);
      DecideUnique(read.conditions, verdict, read.generation, at);
    case Reread(answered, at) =>
      if answered && s.cr.Some? {
        MergedComplete(s.cr.value.conditions, s.progress.local, at);
      }
    case HealthPatch(reachable, message, at) =>
      HealthListSound(s.health.copy, reachable, message, at);
      HealthPatchMoves(s, reachable, message, at);
    case _ =>
  }

  /** With an agreeing copy the handler's write always changes the stored Connected status. */
  lemma HealthPatchMoves(s: State, reachable: bool, message: string, at: nat)
    requires Enabled(s, HealthPatch(reachable, message, at))
    ensures CopyAgrees(s) ==>
      ConnectedMoved(s.cr.value.conditions, HealthList(s.health.copy, reachable, message, at))
  {
    FindSet(s.health.copy.conditions, Probed(reachable, message, s.health.copy.generation), at, Connected);
  }

  /** A run: each event is enabled and leads to the next state. */
  ghost predicate IsRun(states: seq<State>, events: seq<Event>) {
    && |states| == |events| + 1
    && states[0] == INITIAL
    && forall i :: 0 <= i < |events| ==> Enabled(states[i], events[i]) && states[i + 1] == Next(states[i], events[i])
  }

  ghost predicate CopiesAgree(states: seq<State>, events: seq<Event>)
    requires IsRun(states, events)
  {
    forall i :: 0 <= i < |events| && events[i].HealthPatch? ==> CopyAgrees(states[i])
  }

  lemma {:induction false} RunKeeps(states: seq<State>, events: seq<Event>, n: nat)
    requires IsRun(states, events) && CopiesAgree(states, events) && n <= |events|
    ensures Inv(states[n])
  {
    if n > 0 {
      RunKeeps(states, events, n - 1);
      StepKeeps(states[n - 1], events[n - 1]);
    }
  }

  /** Two-writer safety over every interleaving, failure, lost reply and restart. */
  lemma TwoWriterSafety(states: seq<State>, events: seq<Event>)
    requires IsRun(states, events) && CopiesAgree(states, events)
    ensures forall n :: 0 <= n < |states| ==> Good(states[n])
  {
    forall n | 0 <= n < |states| ensures Good(states[n]) {
      RunKeeps(states, events, n);
    }
  }

  /**
   Exactly when one health patch keeps the promise: either it reports the spoke
   reachable, or its copy does not claim Ready, or somebody is (or will be) working on
   the key, or the stored Connected status is not already False. A copy that agrees on
   Connected always falls under the last case.
   */
  lemma HealthPatchExact(s: State, reachable: bool, message: string, at: nat)
    requires Inv(s) && Enabled(s, HealthPatch(reachable, message, at)) && !s.cr.value.deleting
    ensures Good(Next(s, HealthPatch(reachable, message, at))) <==>
      || reachable
      || !IsYes(s.health.copy.conditions, Ready)
      || s.queued || !s.progress.Idle?
      || !StoredDisconnected(s)
    ensures CopyAgrees(s) && !reachable ==> !StoredDisconnected(s)
  {
    var copy, stored := s.health.copy.conditions, s.cr.value.conditions;
    var written := HealthList(s.health.copy, reachable, message, at);
    HealthWrites(s.health.copy, reachable, message, at, Ready);
    HealthWrites(s.health.copy, reachable, message, at, Connected);
    HealthWrites(s.health.copy, reachable, message, at, Provisioned);
    HealthWrites(s.health.copy, reachable, message, at, AdaptersReady);
    var t := Next(s, HealthPatch(reachable, message, at));
    assert t.cr.value.conditions == written && t.progress == s.progress;
    assert t.queued == (s.queued || ConnectedMoved(stored, written));
    if reachable {
      assert IsYes(written, Ready) ==> StagesYes(written);
    } else {
      assert ConnectedMoved(stored, written) <==> !StoredDisconnected(s);
      assert !StagesYes(written) && IsYes(written, Ready) == IsYes(copy, Ready);
    }
  }

  /** The handler's list differs from its copy in Connected only. */
  lemma HealthWrites(copy: Cr, reachable: bool, message: string, at: nat, k: Kind)
    ensures var written := HealthList(copy, reachable, message, at);
      if k.Connected? then Find(written, k).Some? && Find(written, k).value.status == (if reachable then Yes else No)
      else Find(written, k) == Find(copy.conditions, k)
  {
    FindSet(copy.conditions, Probed(reachable, message, copy.generation), at, k);
  }

  /**
   The two writers agree: what the handler says of a spoke it reached is what a pass says of a passed
   connect stage, and of one it did not reach, what a pass says of one that failed, in its own words.
   */
  lemma HandlerSays(copy: Cr, reachable: bool, message: string, at: nat)
    ensures FactsAt(HealthList(copy, reachable, message, at), Connected) ==
      if reachable then Some(PassedFacts(ConnectStage, copy.generation))
      else Some(Facts(No, "ConnectionFailed", message, copy.generation))
    ensures FactsAt(HealthList(copy, reachable, message, at), Connected) ==
      Intended(copy.conditions,
               if reachable then Managed else Failed(ConnectStage, CONNECTION_FAILED, message),
               copy.generation, Connected)
  {
    FindSet(copy.conditions, Probed(reachable, message, copy.generation), at, Connected);
  }

  predicate StoredDisconnected(s: State)
    requires s.cr.Some?
  {
    var c := Find(s.cr.value.conditions, Connected);
    c.Some? && c.value.status.No?
  }

  function Last(states: seq<State>): State
    requires states != []
  {
    states[|states| - 1]
  }

  // ----- stretches of runs -----

  /** These events, one after the other, lead from s to t. */
  ghost predicate Leads(s: State, events: seq<Event>, t: State)
    decreases |events|
  {
    if events == [] then s == t
    else Enabled(s, events[0]) && Leads(Next(s, events[0]), events[1..], t)
  }

  /** How many passes were started. */
  function Starts(events: seq<Event>): nat {
    if events == [] then 0
    else Starts(events[..|events| - 1]) + if events[|events| - 1].Start? then 1 else 0
  }

  /** Events of the reconciler's passes. */
  predicate OfPass(e: Event) {
    || e.Start? || e.Abort? || e.AddFinalizer? || e.RemoveFinalizer? || e.QuietStop?
    || e.Conclude? || e.Reread? || e.SendPatch?
  }

  ghost predicate AllOfPass(events: seq<Event>) {
    forall e :: e in events ==> OfPass(e)
  }

  /** One more event. */
  lemma {:induction false} Then(s: State, events: seq<Event>, t: State, e: Event)
    requires Leads(s, events, t) && Enabled(t, e)
    ensures Leads(s, events + [e], Next(t, e))
    ensures Starts(events + [e]) == Starts(events) + if e.Start? then 1 else 0
    ensures AllOfPass(events) && OfPass(e) ==> AllOfPass(events + [e])
    decreases |events|
  {
    assert (events + [e])[..|events|] == events;
    if events != [] {
      Then(Next(s, events[0]), events[1..], t, e);
      assert (events + [e])[1..] == events[1..] + [e];
    } else {
      assert [e][1..] == [];
      assert events + [e] == [e];
    }
  }

  /** Two stretches make one. */
  lemma {:induction false} Join(s: State, events: seq<Event>, t: State, more: seq<Event>, u: State)
    requires Leads(s, events, t) && Leads(t, more, u)
    ensures Leads(s, events + more, u)
    ensures Starts(events + more) == Starts(events) + Starts(more)
    ensures AllOfPass(events) && AllOfPass(more) ==> AllOfPass(events + more)
    decreases |more|
  {
    if more == [] {
      assert events + more == events;
    } else {
      Then(s, events, t, more[0]);
      Join(s, events + [more[0]], Next(t, more[0]), more[1..], u);
      assert events + [more[0]] + more[1..] == events + more;
      Head(more);
    }
  }

  lemma {:induction false} Head(events: seq<Event>)
    requires events != []
    ensures Starts(events) == Starts(events[1..]) + if events[0].Start? then 1 else 0
    decreases |events|
  {
    if |events| == 1 {
      assert events[..0] == events[1..] == [];
    } else {
      Head(events[..|events| - 1]);
      assert events[..|events| - 1][1..] == events[1..][..|events| - 2];
    }
  }

  /** A stretch from the last state of a run continues that run. */
  lemma {:induction false} Continue(states: seq<State>, events: seq<Event>, more: seq<Event>, t: State)
    returns (states': seq<State>)
    requires IsRun(states, events) && Leads(Last(states), more, t)
    ensures IsRun(states', events + more) && states <= states' && Last(states') == t
    decreases |more|
  {
    if more == [] {
      states' := states;
      assert events + more == events;
    } else {
      var next := Next(Last(states), more[0]);
      assert IsRun(states + [next], events + [more[0]]);
      states' := Continue(states + [next], events + [more[0]], more[1..], t);
      assert events + [more[0]] + more[1..] == events + more;
    }
  }

  /** A live SpokeCluster whose key waits in the queue while the worker rests. */
  predicate Waiting(s: State) {
    s.cr.Some? && !s.cr.value.deleting && s.cr.value.finalizer && Unique(s.cr.value.conditions) &&
    s.queued && s.progress.Idle?
  }

  /** Only the condition list and the queue changed. */
  predicate StatusOnly(s: State, t: State)
    requires s.cr.Some?
  {
    t.cr.Some? && t == s.(cr := Some(s.cr.value.(conditions := t.cr.value.conditions)), queued := t.queued)
  }

  /** One undisturbed pass: at most one patch, after which the stored map is the decided one. */
  lemma OnePass(s: State, v: Verdict, at: nat) returns (events: seq<Event>, t: State)
    requires Waiting(s) && !Retries(v)
    ensures Leads(s, events, t) && AllOfPass(events) && Starts(events) == 1
    ensures
      && StatusOnly(s, t)
      && Unique(t.cr.value.conditions)
      && SameMap(t.cr.value.conditions, Decide(s.cr.value.conditions, v, s.cr.value.generation, at))
      && (t.queued ==> ConnectedMoved(s.cr.value.conditions, t.cr.value.conditions))
      && (SameMap(s.cr.value.conditions, Decide(s.cr.value.conditions, v, s.cr.value.generation, at)) ==> !t.queued)
  {
    var stored := s.cr.value.conditions;
    DecideUnique(stored, v, s.cr.value.generation, at);
    PatchStatusExact(stored, Decide(stored, v, s.cr.value.generation, at), at);
    events, t := Advance(s, [], s, Start(true));
    events, t := Advance(s, events, t, Conclude(v, at));
    events, t := Advance(s, events, t, Reread(true, at));
    if t.progress.Sending? {
      events, t := Advance(s, events, t, SendPatch(true, true));
    }
  }

  lemma Advance(s: State, events: seq<Event>, t: State, e: Event) returns (events': seq<Event>, t': State)
    requires Leads(s, events, t) && Enabled(t, e)
    ensures Leads(s, events', t') && t' == Next(t, e) && events' == events + [e]
    ensures Starts(events') == Starts(events) + if e.Start? then 1 else 0
    ensures AllOfPass(events) && OfPass(e) ==> AllOfPass(events')
  {
    Then(s, events, t, e);
    events', t' := events + [e], Next(t, e);
  }

  /**
   Bounded self-triggering: left alone, a key whose passes keep reaching the same
   verdict comes to rest after at most two of them, holding exactly that verdict's map.
   */
  lemma ComesToRest(s: State, v: Verdict, at: nat) returns (events: seq<Event>, t: State)
    requires Waiting(s) && !Retries(v)
    ensures Leads(s, events, t) && AllOfPass(events) && 1 <= Starts(events) <= 2
    ensures
      && StatusOnly(s, t) && !t.queued
      && Unique(t.cr.value.conditions)
      && SameMap(t.cr.value.conditions, Decide(s.cr.value.conditions, v, s.cr.value.generation, at))
  {
    events, t := OnePass(s, v, at);
    if t.queued {
      var mid := t;
      DecideSettles(s.cr.value.conditions, mid.cr.value.conditions, v, s.cr.value.generation, at, at);
      var more;
      more, t := OnePass(mid, v, at);
      Join(s, events, mid, more, t);
      events := events + more;
      SameMapTrans(t.cr.value.conditions, Decide(mid.cr.value.conditions, v, s.cr.value.generation, at),
                   mid.cr.value.conditions, Decide(s.cr.value.conditions, v, s.cr.value.generation, at));
    }
  }

  /**
   A restart recovers: whatever state the process stops in, whoever holds which copy, the passes after
   the restart bring a live SpokeCluster to rest with the map of their verdict.
   */
  lemma RestartRecovers(s: State, v: Verdict, at: nat) returns (events: seq<Event>, t: State)
    requires s.cr.Some? && !s.cr.value.deleting && s.cr.value.finalizer && Unique(s.cr.value.conditions) && !Retries(v)
    ensures Leads(s, events, t) && events != [] && events[0] == Restart && Starts(events) <= 2
    ensures t.cr.Some? && !t.queued && t.progress.Idle? && t.health.Resting?
    ensures SameMap(t.cr.value.conditions, Decide(s.cr.value.conditions, v, s.cr.value.generation, at))
  {
    var restarted, more;
    events, restarted := Advance(s, [], s, Restart);
    more, t := ComesToRest(restarted, v, at);
    Join(s, events, restarted, more, t);
    assert Leads(s, events, restarted) && events != [];
    events := events + more;
  }

  lemma SameMapTrans(a: seq<Condition>, b: seq<Condition>, c: seq<Condition>, d: seq<Condition>)
    requires SameMap(a, b) && SameMap(c, b) && SameMap(c, d)
    ensures SameMap(a, d)
  {
  }

  /** A spoke can be enrolled and at rest with everything True. */
  lemma Enrolled() returns (events: seq<Event>, t: State)
    ensures Leads(INITIAL, events, t)
    ensures t.cr.Some? && t == State(Some(Cr(1, false, true, false, t.cr.value.conditions)), false, Idle, Resting)
    ensures Unique(t.cr.value.conditions) && IsYes(t.cr.value.conditions, Ready) && StagesYes(t.cr.value.conditions)
  {
    events, t := Advance(INITIAL, [], INITIAL, Create(false));
    events, t := Advance(INITIAL, events, t, Start(true));
    events, t := Advance(INITIAL, events, t, AddFinalizer);
    var mid, more := t, [];
    more, t := ComesToRest(mid, Managed, 1);
    Join(INITIAL, events, mid, more, t);
    events := events + more;
    DecideReady([], Managed, 1, 1);
    KeepReady(t.cr.value.conditions, Decide([], Managed, 1, 1));
  }

  /** The spoke goes away while a health check still holds an older copy. */
  lemma Lost(s: State) returns (events: seq<Event>, t: State)
    requires s.cr.Some? && !s.cr.value.deleting && s.cr.value.finalizer && Unique(s.cr.value.conditions) &&
      s.progress.Idle?
    ensures Leads(s, events, t)
    ensures t.cr.Some? && !t.cr.value.deleting && !t.queued && t.progress.Idle? && t.health == Listed(s.cr.value)
    ensures StoredDisconnected(t)
  {
    events, t := Advance(s, [], s, List);
    events, t := Advance(s, events, t, EditSpec);
    var mid, more := t, [];
    var gone := Failed(ConnectStage, CONNECTION_FAILED, "timeout");
    more, t := ComesToRest(mid, gone, 2);
    Join(s, events, mid, more, t);
    events := events + more;
    DecideExact(mid.cr.value.conditions, gone, mid.cr.value.generation, 2, Connected);
    assert FactsAt(t.cr.value.conditions, Connected) ==
           FactsAt(Decide(mid.cr.value.conditions, gone, mid.cr.value.generation, 2), Connected);
  }

  /** What a copy from before does to a spoke that was lost since. */
  lemma StalePatch(s: State)
    requires s.cr.Some? && !s.cr.value.deleting && !s.queued && s.progress.Idle? && StoredDisconnected(s)
    requires s.health.Listed? && IsYes(s.health.copy.conditions, Ready) && IsYes(s.health.copy.conditions, Connected)
    ensures var e := HealthPatch(false, "timeout", 3);
      Enabled(s, e) && Next(s, e).cr.Some? && !Good(Next(s, e))
  {
    HealthWrites(s.health.copy, false, "timeout", 3, Connected);
    HealthWrites(s.health.copy, false, "timeout", 3, Ready);
  }

  /**
   The proviso is needed. A health check that listed the SpokeCluster before its spoke
   went away, and patches after the reconciler has recorded that, puts Ready=True back
   beside Connected=False, and no event queues the key.
   */
  lemma StaleCopyBreaks() returns (states: seq<State>, events: seq<Event>)
    ensures IsRun(states, events)
    ensures Last(states).cr.Some? && !Good(Last(states))
  {
    var before, enrolled := Enrolled();
    var since, lost := Lost(enrolled);
    StalePatch(lost);
    states := Continue([INITIAL], [], before, enrolled);
    states := Continue(states, [] + before, since, lost);
    events := [] + before + since;
    var e := HealthPatch(false, "timeout", 3);
    Then(lost, [], lost, e);
    states := Continue(states, events, [] + [e], Next(lost, e));
    events := events + ([] + [e]);
  }

  lemma KeepReady(a: seq<Condition>, b: seq<Condition>)
    requires SameMap(a, b) && IsYes(b, Ready) && StagesYes(b)
    ensures IsYes(a, Ready) && StagesYes(a)
  {
    assert FactsAt(a, Ready) == FactsAt(b, Ready);
    assert FactsAt(a, Connected) == FactsAt(b, Connected);
    assert FactsAt(a, Provisioned) == FactsAt(b, Provisioned);
    assert FactsAt(a, AdaptersReady) == FactsAt(b, AdaptersReady);
  }
}
