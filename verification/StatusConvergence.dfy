/**
 Convergence of the two writers over whole runs of StatusProtocol: passes and health checks are
 interleaved call by call, and health copies may have been listed at any time before. Every pass
 concludes the same verdict; once one of them has completed, every probe says the same, too.
 */
module StatusConvergence {
  import opened Kube
  import opened Conditions
  import opened SpokeStatus
  import opened StatusProtocol

  /** Nobody else changes the SpokeCluster, and if a pass reaches a verdict, it is this one. Calls may fail. */
  predicate Settling(e: Event, v: Verdict) {
    && !e.Create? && !e.EditSpec? && !e.MarkDeleted? && !e.ReleaseHold?
    && (e.Conclude? ==> e.verdict == v)
  }

  /** In addition, `probe` is what health checks find, if they probe at all. */
  predicate Frozen(e: Event, v: Verdict, probe: Option<bool>) {
    Settling(e, v) && (e.HealthPatch? ==> probe == Some(e.reachable))
  }

  /** The key is not queued from outside, calls are answered, and nothing is interrupted. */
  predicate Undisturbed(e: Event) {
    match e
    case Enqueue => false
    case Restart => false
    case Abort => false
    case Start(answered) => answered
    case Reread(answered, _) => answered
    case SendPatch(applied, acknowledged) => applied && acknowledged
    case _ => true
  }

  /** The Connected status a pass with this verdict stores. */
  function ConnectedBy(v: Verdict): Option<Status> {
    match v
    case Managed => Some(Yes)
    case Failed(stage, _, _) => Some(if stage.ConnectStage? then No else Yes)
    case Unmanaged(_, _) => None
  }

  /** Passes and probes do not contradict each other. */
  predicate Compatible(v: Verdict, probe: Option<bool>) {
    probe.Some? ==> ConnectedBy(v) == Some(if probe.value then Yes else No)
  }

  /** The list already denotes what this verdict would write. */
  ghost predicate Denotes(cs: seq<Condition>, v: Verdict, generation: nat) {
    Unique(cs) && forall k :: FactsAt(cs, k) == Intended(cs, v, generation, k)
  }

  lemma DecideDenotes(read: seq<Condition>, v: Verdict, generation: nat, now: nat)
    requires Unique(read)
    ensures Denotes(Decide(read, v, generation, now), v, generation)
  {
    var local := Decide(read, v, generation, now);
    DecideUnique(read, v, generation, now);
    forall k ensures FactsAt(local, k) == Intended(local, v, generation, k) {
      DecideExact(read, v, generation, now, k);
    }
  }

  lemma SameMapDenotes(a: seq<Condition>, b: seq<Condition>, v: Verdict, generation: nat)
    requires Denotes(a, v, generation) && SameMap(a, b) && Unique(b)
    ensures Denotes(b, v, generation)
  {
    forall k ensures FactsAt(b, k) == Intended(b, v, generation, k) {
      assert FactsAt(a, k) == FactsAt(b, k) && FactsAt(a, k) == Intended(a, v, generation, k);
    }
  }

  lemma MergedDenotes(stored: seq<Condition>, local: seq<Condition>, v: Verdict, generation: nat, now: nat)
    requires Unique(stored) && Denotes(local, v, generation)
    ensures Denotes(Merged(stored, local, now), v, generation)
    ensures SameMap(local, Merged(stored, local, now))
  {
    forall k ensures FactsAt(local, k) == FactsAt(Merged(stored, local, now), k) && Unique(Merged(stored, local, now)) {
      MergedExact(stored, local, now, k);
    }
    MergedExact(stored, local, now, Ready);
    SameMapDenotes(local, Merged(stored, local, now), v, generation);
  }

  // ----- every list in every run has unique types -----

  predicate Tidy(s: State) {
    && (s.cr.Some? ==> Unique(s.cr.value.conditions))
    && (s.health.Listed? ==> Unique(s.health.copy.conditions))
    && match s.progress
       case Idle => true
       case Running(read) => Unique(read.conditions)
       case Deciding(local, _) => Unique(local)
       case Sending(merged, _) => Unique(merged)
  }

  lemma StepTidy(s: State, e: Event)
    requires Tidy(s) && Enabled(s, e)
    ensures Tidy(Next(s, e))
  {
    match e
    case Conclude(verdict, at) =>
      DecideUnique(s.progress.read.conditions, verdict, s.progress.read.generation, at);
    case Reread(answered, at) =>
      if answered && s.cr.Some? {
        MergedExact(s.cr.value.conditions, s.progress.local, at, Ready);
      }
    case HealthPatch(reachable, message, at) =>
      SetUnique(s.health.copy.conditions, Probed(reachable, message, s.health.copy.generation), at);
    case _ =>
  }

  lemma {:induction false} RunTidy(states: seq<State>, events: seq<Event>, n: nat)
    requires IsRun(states, events) && n <= |events|
    ensures Tidy(states[n])
  {
    if n > 0 {
      RunTidy(states, events, n - 1);
      StepTidy(states[n - 1], events[n - 1]);
    }
  }

  // ----- until the first pass is complete -----

  predicate Live(cr: Cr, generation: nat) {
    !cr.deleting && cr.finalizer && cr.generation == generation
  }

  /** The SpokeCluster lives on, and whatever the pass under way has decided is this verdict. */
  ghost predicate Working(s: State, v: Verdict, generation: nat) {
    && Tidy(s) && s.cr.Some? && Live(s.cr.value, generation)
    && match s.progress
       case Idle => true
       case Running(read) => Live(read, generation)
       case Deciding(local, retry) => Denotes(local, v, generation) && retry == Retries(v)
       case Sending(merged, retry) => Denotes(merged, v, generation) && retry == Retries(v)
  }

  lemma SettlingKeeps(s: State, e: Event, v: Verdict, generation: nat)
    requires Working(s, v, generation) && Enabled(s, e) && Settling(e, v)
    ensures Working(Next(s, e), v, generation)
  {
    StepTidy(s, e);
    match e
    case Conclude(verdict, at) => DecideDenotes(s.progress.read.conditions, v, generation, at);
    case Reread(_, at) => MergedDenotes(s.cr.value.conditions, s.progress.local, v, generation, at);
    case _ =>
  }

  /** A pass completes: its patch is stored, or it finds that there is nothing to patch. */
  predicate Completes(s: State, e: Event)
    requires Enabled(s, e)
  {
    match e
    case Reread(answered, _) => answered && s.cr.Some? && Next(s, e).progress.Idle?
    case SendPatch(applied, _) => applied
    case _ => false
  }

  /** When a pass completes, the stored list denotes its verdict. */
  lemma PassCompletes(s: State, e: Event, v: Verdict, generation: nat)
    requires Working(s, v, generation) && Enabled(s, e) && Completes(s, e)
    ensures Denotes(Next(s, e).cr.value.conditions, v, generation) && Next(s, e).progress.Idle?
  {
    if e.Reread? {
      var stored := s.cr.value.conditions;
      var merged := Merged(stored, s.progress.local, e.at);
      MergedDenotes(stored, s.progress.local, v, generation, e.at);
      AgreesDecides(stored, merged);
      SameMapReversed(stored, merged);
      SameMapDenotes(merged, stored, v, generation);
    }
  }

  lemma SameMapReversed(a: seq<Condition>, b: seq<Condition>)
    requires SameMap(a, b)
    ensures SameMap(b, a)
  {
  }

  // ----- from then on -----

  /** At rest: the stored list denotes the verdict, and the pass under way, if any, will find so. */
  ghost predicate AtRest(s: State, v: Verdict, generation: nat) {
    && Working(s, v, generation) && Denotes(s.cr.value.conditions, v, generation)
    && match s.progress
       case Idle => true
       case Running(read) => read.conditions == s.cr.value.conditions
       case Deciding(local, _) => SameMap(s.cr.value.conditions, local)
       case Sending(_, _) => false
  }

  lemma ConnectedStored(cs: seq<Condition>, v: Verdict, generation: nat)
    requires Denotes(cs, v, generation)
    ensures var c := Find(cs, Connected);
      (c.Some? <==> ConnectedBy(v).Some?) && (c.Some? ==> c.value.status == ConnectedBy(v).value)
  {
    assert FactsAt(cs, Connected) == Intended(cs, v, generation, Connected);
  }

  /**
   At rest, the handler has something to write from a copy that agrees on Connected exactly if
   probes contradict passes.
   */
  lemma HandlerWritesExactly(s: State, v: Verdict, generation: nat, reachable: bool, message: string, at: nat)
    requires AtRest(s, v, generation) && s.health.Listed? && CopyAgrees(s)
    ensures Enabled(s, HealthPatch(reachable, message, at)) <==> !Compatible(v, Some(reachable))
  {
    ConnectedStored(s.cr.value.conditions, v, generation);
  }

  function Queued(s: State): nat {
    if s.queued then 1 else 0
  }

  lemma RestKeeps(s: State, e: Event, v: Verdict, probe: Option<bool>, generation: nat)
    requires AtRest(s, v, generation) && Enabled(s, e) && Frozen(e, v, probe) && Compatible(v, probe)
    requires e.HealthPatch? ==> CopyAgrees(s)
    ensures AtRest(Next(s, e), v, generation)
    ensures Next(s, e).cr == s.cr && !e.HealthPatch? && !e.SendPatch?
    ensures !Retries(v) && Undisturbed(e) ==> Started(e) + Queued(Next(s, e)) <= Queued(s)
  {
    SettlingKeeps(s, e, v, generation);
    match e
    case HealthPatch(reachable, message, at) => HandlerWritesExactly(s, v, generation, reachable, message, at);
    case Conclude(_, at) =>
      var stored := s.cr.value.conditions;
      forall k ensures FactsAt(stored, k) == FactsAt(Decide(stored, v, generation, at), k) {
        DecideExact(stored, v, generation, at, k);
      }
    case Reread(answered, at) =>
      if answered {
        PatchStatusExact(s.cr.value.conditions, s.progress.local, at);
      }
    case _ =>
  }

  function Started(e: Event): nat {
    if e.Start? then 1 else 0
  }

  // ----- over runs -----

  /** A live SpokeCluster is stored and the worker rests. */
  predicate WorkerRests(s: State) {
    s.cr.Some? && s.progress.Idle? && Live(s.cr.value, s.cr.value.generation)
  }

  lemma {:induction false} WorkingBetween(states: seq<State>, events: seq<Event>, j: nat, k: nat, v: Verdict)
    requires IsRun(states, events) && j <= k <= |events| && WorkerRests(states[j])
    requires forall i :: j <= i < k ==> Settling(events[i], v)
    ensures Working(states[k], v, states[j].cr.value.generation)
  {
    if k == j {
      RunTidy(states, events, j);
    } else {
      WorkingBetween(states, events, j, k - 1, v);
      SettlingKeeps(states[k - 1], events[k - 1], v, states[j].cr.value.generation);
    }
  }

  /** From j on passes conclude this verdict, and one of them completes at k. */
  ghost predicate Settled(states: seq<State>, events: seq<Event>, j: nat, k: nat, v: Verdict) {
    && IsRun(states, events) && j < k <= |events| && WorkerRests(states[j])
    && (forall i :: j <= i < k ==> Settling(events[i], v))
    && Completes(states[k - 1], events[k - 1])
  }

  lemma FirstRest(states: seq<State>, events: seq<Event>, j: nat, k: nat, v: Verdict)
    requires Settled(states, events, j, k, v)
    ensures AtRest(states[k], v, states[j].cr.value.generation)
  {
    var generation := states[j].cr.value.generation;
    WorkingBetween(states, events, j, k - 1, v);
    SettlingKeeps(states[k - 1], events[k - 1], v, generation);
    PassCompletes(states[k - 1], events[k - 1], v, generation);
  }

  ghost predicate FrozenBetween(events: seq<Event>, k: nat, m: nat, v: Verdict, probe: Option<bool>)
    requires m <= |events|
  {
    forall i :: k <= i < m ==> Frozen(events[i], v, probe)
  }

  /** At rest in frozen surroundings, and health patches come from agreeing copies only. */
  ghost predicate Quiet(states: seq<State>, events: seq<Event>, k: nat, m: nat,
                        v: Verdict, probe: Option<bool>, generation: nat)
  {
    && IsRun(states, events) && k <= m <= |events| && FrozenBetween(events, k, m, v, probe)
    && AtRest(states[k], v, generation) && Compatible(v, probe)
    && forall i :: k <= i < m && events[i].HealthPatch? ==> CopyAgrees(states[i])
  }

  /** Once at rest, nothing is stored any more. */
  lemma {:induction false} NothingStored(states: seq<State>, events: seq<Event>, k: nat, m: nat,
                                         v: Verdict, probe: Option<bool>, generation: nat)
    requires Quiet(states, events, k, m, v, probe, generation)
    ensures AtRest(states[m], v, generation) && states[m].cr == states[k].cr
    ensures forall i :: k <= i < m ==> !events[i].SendPatch? && !events[i].HealthPatch?
  {
    if m > k {
      NothingStored(states, events, k, m - 1, v, probe, generation);
      RestKeeps(states[m - 1], events[m - 1], v, probe, generation);
    }
  }

  /** Every undisturbed step at rest takes from the queue what it starts. */
  lemma StepDrains(states: seq<State>, events: seq<Event>, k: nat, m: nat,
                   v: Verdict, probe: Option<bool>, generation: nat)
    requires Quiet(states, events, k, m, v, probe, generation) && k < m && !Retries(v) && Undisturbed(events[m - 1])
    ensures Started(events[m - 1]) + Queued(states[m]) <= Queued(states[m - 1])
  {
    NothingStored(states, events, k, m - 1, v, probe, generation);
    RestKeeps(states[m - 1], events[m - 1], v, probe, generation);
  }

  lemma StartsNext(events: seq<Event>, k: nat, m: nat)
    requires k < m <= |events|
    ensures Starts(events[k..m]) == Starts(events[k..m - 1]) + Started(events[m - 1])
  {
    assert events[k..m][..m - 1 - k] == events[k..m - 1];
  }

  /** If every step does, the queue bounds the passes that are started. */
  lemma {:induction false} QueueDrains(states: seq<State>, events: seq<Event>, k: nat, m: nat)
    requires |states| == |events| + 1 && k <= m <= |events|
    requires forall i :: k <= i < m ==> Started(events[i]) + Queued(states[i + 1]) <= Queued(states[i])
    ensures Starts(events[k..m]) + Queued(states[m]) <= Queued(states[k])
  {
    if m > k {
      QueueDrains(states, events, k, m - 1);
      StartsNext(events, k, m);
      assert Started(events[m - 1]) + Queued(states[m - 1 + 1]) <= Queued(states[m - 1]);
    }
  }

  lemma AtMostQueued(states: seq<State>, events: seq<Event>, k: nat, m: nat,
                     v: Verdict, probe: Option<bool>, generation: nat)
    requires Quiet(states, events, k, m, v, probe, generation) && !Retries(v)
    requires forall i :: k <= i < m ==> Undisturbed(events[i])
    ensures Starts(events[k..m]) + Queued(states[m]) <= Queued(states[k])
  {
    forall i | k <= i < m ensures Started(events[i]) + Queued(states[i + 1]) <= Queued(states[i]) {
      StepDrains(states, events, k, i + 1, v, probe, generation);
    }
    QueueDrains(states, events, k, m);
  }

  /**
   Convergence, for every run: from a moment j at which the worker rests and a live SpokeCluster is
   stored, let passes conclude one verdict, whatever fails, whatever health checks find and however
   often the process restarts, and let one of them complete at k. If from k on probes say what the
   verdict says, and health patches come from copies that agree on Connected, nothing is ever stored
   again. If moreover nothing fails or is queued from outside, and the verdict is not one that is
   retried, at most one further pass is started, none if the key was not queued at k.
   */
  lemma Converges(states: seq<State>, events: seq<Event>, j: nat, k: nat, m: nat, v: Verdict, probe: Option<bool>)
    requires Settled(states, events, j, k, v)
    requires k <= m <= |events| && FrozenBetween(events, k, m, v, probe) && Compatible(v, probe)
    requires forall i :: k <= i < m && events[i].HealthPatch? ==> CopyAgrees(states[i])
    ensures AtRest(states[m], v, states[j].cr.value.generation) && states[m].cr == states[k].cr
    ensures forall i :: k <= i < m ==> !events[i].SendPatch? && !events[i].HealthPatch?
    ensures !Retries(v) && (forall i :: k <= i < m ==> Undisturbed(events[i])) ==>
      Starts(events[k..m]) + Queued(states[m]) <= Queued(states[k])
  {
    FirstRest(states, events, j, k, v);
    NothingStored(states, events, k, m, v, probe, states[j].cr.value.generation);
    if !Retries(v) && forall i :: k <= i < m ==> Undisturbed(events[i]) {
      AtMostQueued(states, events, k, m, v, probe, states[j].cr.value.generation);
    }
  }

  // ----- copies that disagree -----

  /** The list shows the Connected status a pass with this verdict stores. */
  predicate Matches(cs: seq<Condition>, v: Verdict) {
    var c := Find(cs, Connected);
    (c.Some? <==> ConnectedBy(v).Some?) && (c.Some? ==> c.value.status == ConnectedBy(v).value)
  }

  /** The health check under way, if any, has listed this status, too. */
  predicate Fresh(s: State, v: Verdict) {
    s.health.Listed? ==> Matches(s.health.copy.conditions, v)
  }

  /** Connected stays what the verdict says, only a copy that is not fresh is patched from, and none is afterwards. */
  lemma MatchKeeps(s: State, e: Event, v: Verdict, probe: Option<bool>, generation: nat)
    requires Working(s, v, generation) && Matches(s.cr.value.conditions, v)
    requires Enabled(s, e) && Frozen(e, v, probe) && Compatible(v, probe)
    ensures Working(Next(s, e), v, generation) && Matches(Next(s, e).cr.value.conditions, v)
    ensures Fresh(s, v) ==> Fresh(Next(s, e), v) && !e.HealthPatch?
    ensures e.HealthPatch? || e.List? ==> Fresh(Next(s, e), v)
    ensures !Retries(v) && Undisturbed(e) ==> Started(e) + Queued(Next(s, e)) <= Queued(s)
  {
    SettlingKeeps(s, e, v, generation);
    match e
    case SendPatch(applied, _) =>
      if applied {
        ConnectedStored(s.progress.merged, v, generation);
      }
    case HealthPatch(reachable, message, at) =>
      HealthWrites(s.health.copy, reachable, message, at, Connected);
    case _ =>
  }

  lemma {:induction false} MatchBetween(states: seq<State>, events: seq<Event>, k: nat, m: nat,
                                        v: Verdict, probe: Option<bool>, generation: nat)
    requires IsRun(states, events) && k <= m <= |events| && FrozenBetween(events, k, m, v, probe) &&
      Compatible(v, probe)
    requires Working(states[k], v, generation) && Matches(states[k].cr.value.conditions, v)
    ensures Working(states[m], v, generation) && Matches(states[m].cr.value.conditions, v)
  {
    if m > k {
      MatchBetween(states, events, k, m - 1, v, probe, generation);
      MatchKeeps(states[m - 1], events[m - 1], v, probe, generation);
    }
  }

  lemma {:induction false} FreshBetween(states: seq<State>, events: seq<Event>, k: nat, m: nat,
                                        v: Verdict, probe: Option<bool>, generation: nat)
    requires IsRun(states, events) && k <= m <= |events| && FrozenBetween(events, k, m, v, probe) &&
      Compatible(v, probe)
    requires Working(states[k], v, generation) && Matches(states[k].cr.value.conditions, v) && Fresh(states[k], v)
    ensures Fresh(states[m], v) && forall i :: k <= i < m ==> !events[i].HealthPatch?
  {
    if m > k {
      FreshBetween(states, events, k, m - 1, v, probe, generation);
      MatchBetween(states, events, k, m - 1, v, probe, generation);
      MatchKeeps(states[m - 1], events[m - 1], v, probe, generation);
    }
  }

  /** After a new listing, or a patch, no copy is patched from any more. */
  lemma PatchIsFirst(states: seq<State>, events: seq<Event>, k: nat, i: nat, m: nat,
                     v: Verdict, probe: Option<bool>, generation: nat)
    requires IsRun(states, events) && k <= i < m <= |events| && FrozenBetween(events, k, m, v, probe) &&
      Compatible(v, probe)
    requires Working(states[k], v, generation) && Matches(states[k].cr.value.conditions, v)
    requires events[i].HealthPatch? || events[i].List?
    ensures forall l :: i < l < m ==> !events[l].HealthPatch?
  {
    MatchBetween(states, events, k, i, v, probe, generation);
    MatchKeeps(states[i], events[i], v, probe, generation);
    FreshBetween(states, events, i + 1, m, v, probe, generation);
  }

  lemma MatchDrains(states: seq<State>, events: seq<Event>, k: nat, m: nat,
                    v: Verdict, probe: Option<bool>, generation: nat)
    requires IsRun(states, events) && k <= m <= |events| && FrozenBetween(events, k, m, v, probe) &&
      Compatible(v, probe)
    requires Working(states[k], v, generation) && Matches(states[k].cr.value.conditions, v) && !Retries(v)
    requires forall i :: k <= i < m ==> Undisturbed(events[i])
    ensures Starts(events[k..m]) + Queued(states[m]) <= Queued(states[k])
  {
    forall i | k <= i < m ensures Started(events[i]) + Queued(states[i + 1]) <= Queued(states[i]) {
      MatchBetween(states, events, k, i, v, probe, generation);
      MatchKeeps(states[i], events[i], v, probe, generation);
    }
    QueueDrains(states, events, k, m);
  }

  /**
   Without the proviso on copies: from k on at most one health patch is stored, from a copy that was
   listed before k; Connected never moves again; and the bound on further passes is the same.
   */
  lemma StaleCopyOnce(states: seq<State>, events: seq<Event>, j: nat, k: nat, m: nat, v: Verdict, probe: Option<bool>)
    requires Settled(states, events, j, k, v)
    requires k <= m <= |events| && FrozenBetween(events, k, m, v, probe) && Compatible(v, probe)
    ensures forall i :: k <= i < m && events[i].HealthPatch? ==>
      forall l :: k <= l < i ==> !events[l].HealthPatch? && !events[l].List?
    ensures states[m].cr.Some? && !ConnectedMoved(states[k].cr.value.conditions, states[m].cr.value.conditions)
    ensures !Retries(v) && (forall i :: k <= i < m ==> Undisturbed(events[i])) ==>
      Starts(events[k..m]) + Queued(states[m]) <= Queued(states[k])
  {
    var generation := states[j].cr.value.generation;
    FirstRest(states, events, j, k, v);
    ConnectedStored(states[k].cr.value.conditions, v, generation);
    MatchBetween(states, events, k, m, v, probe, generation);
    forall i, l | k <= l < i < m && events[i].HealthPatch? ensures !events[l].HealthPatch? && !events[l].List? {
      if events[l].HealthPatch? || events[l].List? {
        PatchIsFirst(states, events, k, l, m, v, probe, generation);
      }
    }
    if !Retries(v) && forall i :: k <= i < m ==> Undisturbed(events[i]) {
      MatchDrains(states, events, k, m, v, probe, generation);
    }
  }
}
