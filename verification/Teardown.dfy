/**
 Teardown: the HubConfig is gone or going, discovery passes and spoke passes alternate in any order,
 and some of them fail. Every pass is one step here; what one pass does is Inventory.Final and
 SpokePass.Reconcile, to which the steps are tied below.
 */
module Teardown {
  import opened Kube
  import opened Credential
  import Inventory
  import SpokePass

  /** All objects of one name: SpokeCluster and companions, standing and adapter Secret. */
  datatype Spot = Spot(entry: Inventory.Entry, standing: bool, adapter: bool)

  type State = map<Name, Spot>

  datatype Event =
    | Discover                                             // a discovery pass whose calls succeed
    | Reconcile(spoke: Name)                               // a spoke pass whose hub calls succeed
    | Collect(name: Name)                                  // garbage collection of Secrets whose owner is gone
    | PruneOnly(name: Name)                                // what a failing discovery pass got done for one name
    | SweepPart(name: Name, fails: set<Inventory.Call>)
    | ReconcilePart(spoke: Name, result: Spot)             // what a failing spoke pass got done

  /** An object marked for deletion is there only while it has the finalizer; owned companions are paired. */
  predicate Ok(p: Spot) {
    && Inventory.RecordOk(p.entry)
    && (p.entry.cr.Some? && p.entry.cr.value.deleting ==> p.entry.cr.value.finalizer)
  }

  function ReconcileSpoke(p: Spot): Spot {
    if p.entry.cr.None? then p
    else
      var cr := p.entry.cr.value;
      if cr.deleting then if cr.finalizer then Spot(p.entry.(cr := None), false, false) else p
      else if !cr.finalizer then p.(entry := p.entry.(cr := Some(cr.(finalizer := true))))
      else p.(standing := false, adapter := false)
  }

  /** Whatever fails, a spoke pass adds the finalizer, removes the terminating SpokeCluster, or drops Secrets. */
  predicate PartOf(p: Spot, q: Spot) {
    && (q.standing ==> p.standing) && (q.adapter ==> p.adapter)
    && q.entry == p.entry.(cr := q.entry.cr)
    && (|| q.entry.cr == p.entry.cr
        || (p.entry.cr.Some? && p.entry.cr.value.deleting && q.entry.cr.None?)
        || (p.entry.cr.Some? && q.entry.cr == Some(p.entry.cr.value.(finalizer := true))))
  }

  predicate Enabled(s: State, e: Event) {
    match e
    case Collect(n) => n in s && s[n].entry.cr.None?
    case ReconcilePart(n, q) => n in s && PartOf(s[n], q)
    case _ => true
  }

  function At(p: Spot, n: Name, e: Event): Spot {
    match e
    case Discover => p.(entry := Inventory.Final(p.entry, n, None))
    case Reconcile(m) => if n == m then ReconcileSpoke(p) else p
    case Collect(m) => if n == m then p.(standing := false, adapter := false) else p
    case PruneOnly(m) => if n == m then p.(entry := Inventory.Prune(p.entry, {}).entry) else p
    case SweepPart(m, fails) => if n == m then p.(entry := Inventory.SweepOrphan(p.entry, fails).entry) else p
    case ReconcilePart(m, q) => if n == m then q else p
  }

  function Next(s: State, e: Event): State {
    map n | n in s :: At(s[n], n, e)
  }

  // ----- the steps are what the reconcilers do -----

  /** The part of a spoke pass's world that teardown is about. */
  function View(w: SpokePass.World, n: Name, labelled: bool, msa: Option<bool>, work: Option<Inventory.Work>): Spot {
    var cr := if w.cr.None? then None
              else var c := w.cr.value; Some(Inventory.Cr(labelled, c.deleting, c.finalizer, c.apiServer, c.source));
    Spot(Inventory.Entry(cr, msa, work), StandingOf(n) in w.secrets, AdapterOf(n) in w.secrets)
  }

  /** The hub calls of a teardown pass; the spoke may be unreachable all the same. */
  const HUB_CALLS: set<SpokePass.Call> :=
    {SpokePass.GetCr, SpokePass.AddFinalizer, SpokePass.GetHub,
     SpokePass.DeleteStanding, SpokePass.DeleteAdapter, SpokePass.RemoveFinalizer}

  lemma CleanupDropsSecrets(env: SpokePass.Env, w: SpokePass.World, n: Name)
    ensures var after := SpokePass.Cleanup(env, w, n).world;
      && after.cr == w.cr
      && (StandingOf(n) in after.secrets <==> StandingOf(n) in w.secrets && SpokePass.DeleteStanding in env.fails)
      && (AdapterOf(n) in after.secrets <==> AdapterOf(n) in w.secrets && SpokePass.DeleteAdapter in env.fails)
  {
  }

  /** An unmanaged spoke: its SpokeCluster changes in nothing but its conditions. */
  lemma UnmanagedKeepsCr(env: SpokePass.Env, w: SpokePass.World)
    requires !env.hub.Active? && w.cr.Some?
    ensures var before, after := w.cr.value,
      SpokePass.Report(env, SpokePass.Judge(env, w), w.cr.value.conditions).world;
      && after.secrets == SpokePass.Cleanup(env, w, before.name).world.secrets
      && after.cr.Some? && after.cr.value == before.(conditions := after.cr.value.conditions)
  {
    CleanupDropsSecrets(env, w, w.cr.value.name);
    assert SpokePass.Gate(env, w.cr.value).Some?;
    assert SpokePass.Judge(env, w).world == SpokePass.Cleanup(env, w, w.cr.value.name).world;
  }

  lemma DeletingPass(env: SpokePass.Env, w: SpokePass.World)
    requires w.cr.Some? && w.cr.value.deleting && SpokePass.GetCr !in env.fails
    ensures var after, cleaned := SpokePass.Reconcile(env, w).world, SpokePass.Cleanup(env, w, w.cr.value.name).world;
      if !w.cr.value.finalizer then after == w
      else
        && after.secrets == cleaned.secrets
        && after.cr == (if SpokePass.RemoveFinalizer in env.fails then w.cr else None)
  {
  }

  lemma LivePass(env: SpokePass.Env, w: SpokePass.World)
    requires !env.hub.Active? && w.cr.Some? && !w.cr.value.deleting && SpokePass.GetCr !in env.fails
    ensures var before, after := w.cr.value, SpokePass.Reconcile(env, w).world;
      && after.cr.Some?
      && (if !before.finalizer then
            after.secrets == w.secrets && after.cr.value == before.(finalizer := SpokePass.AddFinalizer !in env.fails)
          else if SpokePass.GetHub in env.fails then after == w
          else
            && after.secrets == SpokePass.Cleanup(env, w, before.name).world.secrets
            && after.cr.value == before.(conditions := after.cr.value.conditions))
  {
    if w.cr.value.finalizer && SpokePass.GetHub !in env.fails {
      assert SpokePass.Reconcile(env, w) == SpokePass.Report(env, SpokePass.Judge(env, w), w.cr.value.conditions);
      UnmanagedKeepsCr(env, w);
    }
  }

  lemma DeletingStep(env: SpokePass.Env, w: SpokePass.World, after: SpokePass.World, n: Name,
                     labelled: bool, msa: Option<bool>, work: Option<Inventory.Work>)
    requires w.cr.Some? && w.cr.value.name == n && w.cr.value.deleting && SpokePass.GetCr !in env.fails
    requires after == SpokePass.Reconcile(env, w).world
    ensures PartOf(View(w, n, labelled, msa, work), View(after, n, labelled, msa, work))
    ensures env.fails !! HUB_CALLS ==>
      View(after, n, labelled, msa, work) == ReconcileSpoke(View(w, n, labelled, msa, work))
  {
    CleanupDropsSecrets(env, w, n);
    DeletingPass(env, w);
  }

  lemma LiveStep(env: SpokePass.Env, w: SpokePass.World, after: SpokePass.World, n: Name,
                 labelled: bool, msa: Option<bool>, work: Option<Inventory.Work>)
    requires !env.hub.Active?
    requires w.cr.Some? && w.cr.value.name == n && !w.cr.value.deleting && SpokePass.GetCr !in env.fails
    requires after == SpokePass.Reconcile(env, w).world
    ensures PartOf(View(w, n, labelled, msa, work), View(after, n, labelled, msa, work))
    ensures env.fails !! HUB_CALLS ==>
      View(after, n, labelled, msa, work) == ReconcileSpoke(View(w, n, labelled, msa, work))
  {
    CleanupDropsSecrets(env, w, n);
    LivePass(env, w);
  }

  /** Whatever fails, a spoke pass is a ReconcilePart step; if its hub calls succeed, it is a Reconcile step. */
  lemma SpokePassIsStep(env: SpokePass.Env, w: SpokePass.World, after: SpokePass.World, n: Name,
                        labelled: bool, msa: Option<bool>, work: Option<Inventory.Work>)
    requires !env.hub.Active? && (w.cr.Some? ==> w.cr.value.name == n)
    requires after == SpokePass.Reconcile(env, w).world
    ensures PartOf(View(w, n, labelled, msa, work), View(after, n, labelled, msa, work))
    ensures env.fails !! HUB_CALLS ==>
      View(after, n, labelled, msa, work) == ReconcileSpoke(View(w, n, labelled, msa, work))
  {
    if SpokePass.GetCr in env.fails || w.cr.None? {
      assert after == w;
    } else if w.cr.value.deleting {
      DeletingStep(env, w, after, n, labelled, msa, work);
    } else {
      LiveStep(env, w, after, n, labelled, msa, work);
    }
  }

  /** Whatever a failing discovery pass got done for a name is done by PruneOnly and SweepPart steps. */
  lemma DiscoveryPassIsSteps(p: Spot, n: Name, after: Inventory.Entry, fails: set<Inventory.Call>)
    requires Inventory.PartlyTorn(p.entry, after, fails)
    ensures || after == p.entry
            || after == At(p, n, PruneOnly(n)).entry
            || after == At(p, n, SweepPart(n, fails)).entry
            || after == At(At(p, n, PruneOnly(n)), n, SweepPart(n, fails)).entry
  {
  }

  // ----- measure -----

  predicate IsLive(p: Spot) {
    Inventory.Discovered(p.entry.cr) && !p.entry.cr.value.deleting
  }

  predicate IsDiscovered(p: Spot) {
    Inventory.Discovered(p.entry.cr)
  }

  predicate HasRecord(p: Spot) {
    p.entry.msa == Some(true)
  }

  predicate HasWork(p: Spot) {
    p.entry.work.Some? && p.entry.work.value.owned
  }

  function Live(s: State): set<Name> {
    set n | n in s && IsLive(s[n])
  }

  function Remaining(s: State): set<Name> {
    set n | n in s && IsDiscovered(s[n])
  }

  function Records(s: State): set<Name> {
    set n | n in s && HasRecord(s[n])
  }

  /** Compared lexicographically. */
  datatype Measure = Measure(live: nat, remaining: nat, records: nat)

  function MeasureOf(s: State): Measure {
    Measure(|Live(s)|, |Remaining(s)|, |Records(s)|)
  }

  predicate Less(a: Measure, b: Measure) {
    || a.live < b.live
    || (a.live == b.live && (a.remaining < b.remaining || (a.remaining == b.remaining && a.records < b.records)))
  }

  /** Nothing comes back. */
  predicate Below(q: Spot, p: Spot) {
    && (IsLive(q) ==> IsLive(p))
    && (IsDiscovered(q) ==> IsDiscovered(p))
    && (HasRecord(q) ==> HasRecord(p))
    && (HasWork(q) ==> HasWork(p))
    && (q.standing ==> p.standing)
    && (q.adapter ==> p.adapter)
    && (p.entry.cr.None? ==> q.entry.cr.None?)
    && (IsDiscovered(p) && q.entry.cr.Some? ==> IsDiscovered(q))
  }

  ghost predicate AllOk(s: State) {
    forall n :: n in s ==> Ok(s[n])
  }

  ghost predicate AllBelow(t: State, s: State) {
    t.Keys == s.Keys && forall n :: n in s ==> Below(t[n], s[n])
  }

  lemma DiscoverBelow(p: Spot, n: Name)
    requires Ok(p)
    ensures Ok(At(p, n, Discover)) && Below(At(p, n, Discover), p)
  {
  }

  lemma ReconcileBelow(p: Spot)
    requires Ok(p)
    ensures Ok(ReconcileSpoke(p)) && Below(ReconcileSpoke(p), p)
  {
  }

  lemma PruneBelow(p: Spot)
    requires Ok(p)
    ensures var q := p.(entry := Inventory.Prune(p.entry, {}).entry);
      Ok(q) && Below(q, p)
  {
  }

  lemma SweepBelow(p: Spot, fails: set<Inventory.Call>)
    requires Ok(p)
    ensures var q := p.(entry := Inventory.SweepOrphan(p.entry, fails).entry);
      Ok(q) && Below(q, p)
  {
  }

  lemma StepBelow(p: Spot, n: Name, e: Event)
    requires Ok(p) && (e.ReconcilePart? && e.spoke == n ==> PartOf(p, e.result))
    ensures Ok(At(p, n, e)) && Below(At(p, n, e), p)
  {
    match e
    case Discover => DiscoverBelow(p, n);
    case Reconcile(_) => ReconcileBelow(p);
    case PruneOnly(_) => PruneBelow(p);
    case SweepPart(_, fails) => SweepBelow(p, fails);
    case _ =>
  }

  lemma NextBelow(s: State, e: Event)
    requires AllOk(s) && Enabled(s, e)
    ensures AllOk(Next(s, e)) && AllBelow(Next(s, e), s)
  {
    forall n | n in s ensures Ok(Next(s, e)[n]) && Below(Next(s, e)[n], s[n]) {
      StepBelow(s[n], n, e);
    }
  }

  lemma {:induction false} Fewer(a: set<Name>, b: set<Name>)
    requires a <= b
    ensures |a| <= |b| && (|a| == |b| <==> a == b)
  {
    assert b == a + (b - a);
  }

  /** No step, failing or not, ever makes the measure larger. */
  lemma MeasureNeverGrows(s: State, e: Event)
    requires AllOk(s) && Enabled(s, e)
    ensures !Less(MeasureOf(s), MeasureOf(Next(s, e)))
  {
    NextBelow(s, e);
    Fewer(Live(Next(s, e)), Live(s));
    Fewer(Remaining(Next(s, e)), Remaining(s));
    Fewer(Records(Next(s, e)), Records(s));
  }

  lemma DiscoverSpot(p: Spot, n: Name)
    requires Ok(p)
    ensures var q := At(p, n, Discover);
      && !IsLive(q)
      && (!IsLive(p) ==> (IsDiscovered(q) <==> IsDiscovered(p)))
      && (HasRecord(q) <==> HasRecord(p) && IsDiscovered(q))
      && (HasWork(q) ==> HasRecord(q))
  {
  }

  lemma DiscoverState(s: State)
    requires AllOk(s)
    ensures var t := Next(s, Discover);
      && Live(t) == {}
      && (Live(s) == {} ==> Remaining(t) == Remaining(s))
      && Records(t) == Records(s) * Remaining(t)
  {
    var t := Next(s, Discover);
    forall n | n in s ensures
      && !IsLive(t[n])
      && (!IsLive(s[n]) ==> (IsDiscovered(t[n]) <==> IsDiscovered(s[n])))
      && (HasRecord(t[n]) <==> HasRecord(s[n]) && IsDiscovered(t[n]))
    {
      DiscoverSpot(s[n], n);
    }
    if Live(s) == {} {
      assert forall n :: n in s ==> n !in Live(s);
    }
  }

  /** Exactly when a discovery pass makes it smaller. */
  lemma DiscoverDrops(s: State)
    requires AllOk(s)
    ensures Less(MeasureOf(Next(s, Discover)), MeasureOf(s)) <==> Live(s) != {} || Records(s) - Remaining(s) != {}
  {
    var t := Next(s, Discover);
    NextBelow(s, Discover);
    Fewer(Live(t), Live(s));
    Fewer(Remaining(t), Remaining(s));
    Fewer(Records(t), Records(s));
    DiscoverState(s);
    if Live(s) == {} {
      assert Records(t) == Records(s) - (Records(s) - Remaining(s));
    }
  }

  /** Exactly when a spoke pass does. */
  lemma ReconcileDrops(s: State, n: Name)
    requires AllOk(s)
    ensures Less(MeasureOf(Next(s, Reconcile(n))), MeasureOf(s)) <==> n in Remaining(s) - Live(s)
  {
    var t := Next(s, Reconcile(n));
    NextBelow(s, Reconcile(n));
    Fewer(Remaining(t), Remaining(s));
    assert Live(t) == Live(s);
    assert Records(t) == Records(s);
    assert Remaining(t) == if n in Remaining(s) - Live(s) then Remaining(s) - {n} else Remaining(s);
  }

  /** No discovered SpokeCluster, owned ManagedServiceAccount or owned ManifestWork is left. */
  ghost predicate Gone(s: State) {
    forall n :: n in s ==> !IsDiscovered(s[n]) && !HasRecord(s[n]) && !HasWork(s[n])
  }

  /**
   While anything is left, a discovery pass or a spoke pass makes the measure smaller; and once nothing
   is, Secrets that are guarded by a finalizer belong to SpokeClusters made by hand.
   */
  lemma SomethingDrops(s: State)
    requires AllOk(s)
    ensures Gone(s) <==>
      !Less(MeasureOf(Next(s, Discover)), MeasureOf(s)) &&
        forall n :: !Less(MeasureOf(Next(s, Reconcile(n))), MeasureOf(s))
    ensures Gone(s) ==> forall n :: n in s && Guarded(s[n]) && (s[n].standing || s[n].adapter) ==>
      s[n].entry.cr.Some? && !s[n].entry.cr.value.labelled
  {
    DiscoverDrops(s);
    forall n ensures Less(MeasureOf(Next(s, Reconcile(n))), MeasureOf(s)) <==> n in Remaining(s) - Live(s) {
      ReconcileDrops(s, n);
    }
    if Remaining(s) == {} && Records(s) == {} {
      forall n | n in s ensures !IsDiscovered(s[n]) && !HasRecord(s[n]) && !HasWork(s[n]) {
        assert n !in Remaining(s) && n !in Records(s) && Ok(s[n]);
      }
    } else if Remaining(s) != {} {
      var n :| n in Remaining(s);
      assert n in Live(s) || n in Remaining(s) - Live(s);
    } else {
      var n :| n in Records(s);
      assert n in Records(s) - Remaining(s);
    }
  }

  // ----- runs -----

  ghost predicate IsRun(states: seq<State>, events: seq<Event>) {
    && |states| == |events| + 1
    && AllOk(states[0])
    && forall i :: 0 <= i < |events| ==> Enabled(states[i], events[i]) && states[i + 1] == Next(states[i], events[i])
  }

  lemma {:induction false} RunBelow(states: seq<State>, events: seq<Event>, i: nat, j: nat)
    requires IsRun(states, events) && i <= j <= |events|
    ensures AllOk(states[i]) && AllOk(states[j]) && AllBelow(states[j], states[i])
    decreases j
  {
    if j > 0 {
      RunBelow(states, events, if i < j then i else i - 1, j - 1);
      NextBelow(states[j - 1], events[j - 1]);
    }
  }

  lemma AfterDiscover(states: seq<State>, events: seq<Event>, i: nat, j: nat, n: Name)
    requires IsRun(states, events) && i < j <= |events| && events[i] == Discover && n in states[0]
    ensures n in states[j] && !IsLive(states[j][n])
  {
    RunBelow(states, events, 0, i);
    RunBelow(states, events, i + 1, j);
    DiscoverSpot(states[i][n], n);
  }

  lemma AfterReconcile(states: seq<State>, events: seq<Event>, i: nat, j: nat, k: nat, n: Name)
    requires IsRun(states, events) && i < j < k <= |events| && n in states[0]
    requires events[i] == Discover && events[j] == Reconcile(n)
    ensures n in states[k] && !IsDiscovered(states[k][n])
  {
    AfterDiscover(states, events, i, j, n);
    RunBelow(states, events, 0, j);
    RunBelow(states, events, j + 1, k);
    assert Ok(states[j][n]);
    assert !IsDiscovered(states[j + 1][n]);
  }

  // ----- Secrets -----

  /** Secrets are there only beside a SpokeCluster with the finalizer. */
  predicate Guarded(p: Spot) {
    p.standing || p.adapter ==> p.entry.cr.Some? && p.entry.cr.value.finalizer
  }

  /** Neither the SpokeCluster nor a Secret of it. */
  predicate NoTrace(s: State, n: Name) {
    n in s && s[n].entry.cr.None? && !s[n].standing && !s[n].adapter
  }

  /**
   The guard is what passes keep, managed ones too: whatever HubConfig says and whatever fails, a
   spoke pass leaves its Secrets guarded unless the delete of one of them fails.
   */
  lemma PassGuards(env: SpokePass.Env, w: SpokePass.World, after: SpokePass.World, n: Name,
                   labelled: bool, msa: Option<bool>, work: Option<Inventory.Work>)
    requires w.cr.Some? && w.cr.value.name == n && after == SpokePass.Reconcile(env, w).world
    requires Guarded(View(w, n, labelled, msa, work))
    requires SpokePass.DeleteStanding !in env.fails && SpokePass.DeleteAdapter !in env.fails
    ensures Guarded(View(after, n, labelled, msa, work))
  {
    CleanupDropsSecrets(env, w, n);
    if SpokePass.GetCr !in env.fails {
      if w.cr.value.deleting {
        DeletingPass(env, w);
      } else {
        LiveKeepsFinalizer(env, w);
      }
    }
  }

  /** A pass on a SpokeCluster that is not terminating keeps it with the finalizer, or touches no Secret. */
  lemma LiveKeepsFinalizer(env: SpokePass.Env, w: SpokePass.World)
    requires w.cr.Some? && !w.cr.value.deleting
    ensures var after := SpokePass.Reconcile(env, w).world;
      && after.cr.Some?
      && (if w.cr.value.finalizer then after.cr.value.finalizer else after.secrets == w.secrets)
  {
    if SpokePass.GetCr !in env.fails && w.cr.value.finalizer && SpokePass.GetHub !in env.fails {
      assert SpokePass.Reconcile(env, w) == SpokePass.Report(env, SpokePass.Judge(env, w), w.cr.value.conditions);
    }
  }

  /** No pass on n fails before i. */
  ghost predicate NoFailure(events: seq<Event>, i: nat, n: Name)
    requires i <= |events|
  {
    forall j :: 0 <= j < i ==> !(events[j].ReconcilePart? && events[j].spoke == n)
  }

  lemma StepGuards(p: Spot, n: Name, e: Event)
    requires Guarded(p) && !(e.ReconcilePart? && e.spoke == n)
    ensures Guarded(At(p, n, e))
  {
  }

  /** A failing pass on n is the only way a Secret of n is left to the garbage collector. */
  lemma {:induction false} OnlyFailureLeavesSecrets(states: seq<State>, events: seq<Event>, i: nat, n: Name)
    requires IsRun(states, events) && i <= |events| && n in states[0] && Guarded(states[0][n])
    ensures n in states[i] && (NoFailure(events, i, n) ==> Guarded(states[i][n]))
  {
    if i > 0 {
      OnlyFailureLeavesSecrets(states, events, i - 1, n);
      if NoFailure(events, i, n) {
        assert NoFailure(events, i - 1, n);
        StepGuards(states[i - 1][n], n, events[i - 1]);
      }
    }
  }

  /** The SpokeCluster was discovered, and its Secrets, if any, came with the finalizer. */
  ghost predicate Orderly(s: State, n: Name) {
    n in Remaining(s) && Guarded(s[n])
  }

  /**
   With calls succeeding, the Secrets of a discovered spoke go with it: after a discovery pass and then
   a pass on the spoke, none of them failing, neither the SpokeCluster nor a Secret of it is left.
   */
  lemma SecretsGone(states: seq<State>, events: seq<Event>, i: nat, j: nat, m: nat, n: Name)
    requires IsRun(states, events) && i < j < m <= |events| && Orderly(states[0], n) && NoFailure(events, m, n)
    requires events[i] == Discover && events[j] == Reconcile(n)
    ensures NoTrace(states[m], n)
  {
    AfterReconcile(states, events, i, j, m, n);
    RunBelow(states, events, 0, m);
    OnlyFailureLeavesSecrets(states, events, m, n);
  }

  /**
   What failing passes leave of the Secrets the garbage collector may take by then, and once it
   has, they are gone for good.
   */
  lemma SecretsCollected(states: seq<State>, events: seq<Event>, i: nat, j: nat, m: nat, n: Name)
    requires IsRun(states, events) && i < j < m <= |events| && n in Remaining(states[0])
    requires events[i] == Discover && events[j] == Reconcile(n)
    ensures n in states[m] && states[m][n].entry.cr.None? && Enabled(states[m], Collect(n))
    ensures (exists l :: j < l < m && events[l] == Collect(n)) ==> !states[m][n].standing && !states[m][n].adapter
  {
    AfterReconcile(states, events, i, j, m, n);
    RunBelow(states, events, 0, m);
    if l :| j < l < m && events[l] == Collect(n) {
      RunBelow(states, events, 0, l);
      RunBelow(states, events, l + 1, m);
    }
  }

  // ----- teardown ends -----

  /**
   A discovery pass at i, after it a pass on each spoke that was discovered, and after those a
   discovery pass at k.
   */
  ghost predicate TornDown(states: seq<State>, events: seq<Event>, i: nat, k: nat) {
    && IsRun(states, events) && i < k < |events|
    && events[i] == Discover && events[k] == Discover
    && forall n :: n in Remaining(states[0]) ==> exists j :: i < j < k && events[j] == Reconcile(n)
  }

  /**
   Teardown ends: after such passes nothing of discovery's own is left from then on, however many
   other passes, failing ones included, came in between or come later; and of a discovered spoke on
   which no pass failed, no Secret is left either.
   */
  lemma TeardownEnds(states: seq<State>, events: seq<Event>, i: nat, k: nat, m: nat)
    requires TornDown(states, events, i, k) && k < m <= |events|
    ensures Gone(states[m])
    ensures forall n :: Orderly(states[0], n) && NoFailure(events, m, n) ==> NoTrace(states[m], n)
  {
    RunBelow(states, events, 0, k);
    RunBelow(states, events, k + 1, m);
    forall n | n in states[m] ensures !IsDiscovered(states[m][n]) && !HasRecord(states[m][n]) &&
      !HasWork(states[m][n]) {
      if n in Remaining(states[0]) {
        var j :| i < j < k && events[j] == Reconcile(n);
        AfterReconcile(states, events, i, j, k, n);
      }
      assert n in states[k] && !IsDiscovered(states[k][n]) && Ok(states[k][n]);
      DiscoverSpot(states[k][n], n);
    }
    forall n | Orderly(states[0], n) && NoFailure(events, m, n) ensures NoTrace(states[m], n) {
      var j :| i < j < k && events[j] == Reconcile(n);
      SecretsGone(states, events, i, j, m, n);
    }
  }

  /** One successful pass on a terminating SpokeCluster is enough, whatever came before it. */
  lemma SecretsGoneAtOnce(states: seq<State>, events: seq<Event>, j: nat, m: nat, n: Name)
    requires IsRun(states, events) && j < m <= |events| && n in states[j]
    requires events[j] == Reconcile(n) && states[j][n].entry.cr.Some? && states[j][n].entry.cr.value.deleting
    ensures NoTrace(states[m], n)
  {
    RunBelow(states, events, 0, j);
    RunBelow(states, events, j + 1, m);
    assert Ok(states[j][n]);
  }
}
