/**
 The passes as they run undisturbed are runs of Fleet: whatever fails, every round of a discovery
 pass (Inventory) and every spoke pass (SpokePass) is a sequence of Fleet events with the same
 effect. So what FleetSafety proves of all interleavings holds of the reconcilers' own calls.
 */
module FleetPasses {
  import opened Kube
  import opened Fleet
  import opened FleetSafety
  import opened FleetRuns
  import opened Credential
  import Inventory
  import SpokePass
  import SpokeTheorems

  // ----- what both descriptions of a name have in common -----

  datatype CrShape = CrShape(labelled: bool, deleting: bool, finalizer: bool)

  /** Companions: does the object carry the discovery label? */
  datatype Shape = Shape(cr: Option<CrShape>, msa: Option<bool>, work: Option<bool>)

  function OfSlice(x: Slice): Shape {
    Shape(
      if x.cr.Some? then Some(CrShape(x.cr.value.labelled, x.cr.value.deleting, x.cr.value.finalizer)) else None,
      if x.msa.Some? then Some(x.msa.value.Owned?) else None,
      if x.work.Some? then Some(x.work.value.Owned?) else None)
  }

  function OfEntry(x: Inventory.Entry): Shape {
    Shape(
      if x.cr.Some? then Some(CrShape(x.cr.value.labelled, x.cr.value.deleting, x.cr.value.finalizer)) else None,
      x.msa,
      if x.work.Some? then Some(x.work.value.owned) else None)
  }

  /** Nothing of any other name changed, nor what this pass does not own of n. */
  ghost predicate OnlyAt(s: State, t: State, n: Name) {
    && (forall m :: m != n ==> At(t, m) == At(s, m))
    && At(t, n).pass == At(s, n).pass && At(t, n).standing == At(s, n).standing && At(t, n).residue == At(s, n).residue
  }

  lemma DiscoveryFrame(s: State, e: DiscoveryEvent)
    requires DiscoveryEnabled(s, e)
    ensures var n, t := Subject(s, e), Next(s, OnDiscovery(e));
      && (Seam(e) ==> forall m :: At(t, m) == At(s, m))
      && (forall m :: m != n ==> At(t, m) == At(s, m))
      && At(t, n) == DiscoveryStep(s, e) && t.discovery == DiscoveryMove(s, e)
      && At(t, n).pass == At(s, n).pass && At(t, n).standing == At(s, n).standing &&
        At(t, n).residue == At(s, n).residue
  {
  }

  /** The next discovery event of a stretch. */
  lemma Go(s: State, events: seq<Event>, mid: State, e: DiscoveryEvent, n: Name) returns (events': seq<Event>, t: State)
    requires Leads(s, events, mid, DiscoveryParty, n) && DiscoveryEnabled(mid, e)
    requires e.Quit? || (!Seam(e) && Subject(mid, e) == n)
    ensures Leads(s, events', t, DiscoveryParty, n)
    ensures OnlyAt(mid, t, n) && t.discovery == DiscoveryMove(mid, e)
    ensures At(t, n) == if e.Quit? then At(mid, n) else DiscoveryStep(mid, e)
  {
    Then(s, events, mid, OnDiscovery(e), DiscoveryParty, n);
    events', t := events + [OnDiscovery(e)], Next(mid, OnDiscovery(e));
    DiscoveryFrame(mid, e);
  }

  // ----- discovery rounds -----

  lemma WorkRound(s: State, n: Name, x: Inventory.Entry, fails: set<Inventory.Call>)
    returns (events: seq<Event>, t: State)
    requires OnStep(s.discovery, NeedWork) && s.discovery.name == n && OfSlice(At(s, n)) == OfEntry(x)
    ensures Leads(s, events, t, DiscoveryParty, n)
    ensures t.discovery == Enrolling(s.discovery.plan) && OnlyAt(s, t, n)
    ensures OfSlice(At(t, n)) == OfEntry(Inventory.EnsureWork(x, fails).entry)
  {
    events, t := Go(s, [], s, if Inventory.CreateWork in fails then NameFailed else CreateWork, n);
  }

  lemma MsaRound(s: State, n: Name, x: Inventory.Entry, fails: set<Inventory.Call>)
    returns (events: seq<Event>, t: State)
    requires OnStep(s.discovery, NeedMsa) && s.discovery.name == n && OfSlice(At(s, n)) == OfEntry(x)
    ensures Leads(s, events, t, DiscoveryParty, n) && OnlyAt(s, t, n)
    ensures var r := Inventory.EnsureMsa(x, fails);
      && t.discovery == (if r.error then Enrolling(s.discovery.plan) else OnName(NeedWork, n, s.discovery.plan))
      && OfSlice(At(t, n)) == OfEntry(r.entry)
  {
    if Inventory.CreateMsa in fails {
      events, t := Go(s, [], s, NameFailed, n);
    } else {
      events, t := Go(s, [], s, CreateMsa, n);
      if x.msa.Some? {
        events, t := Go(s, events, t, if Inventory.GetMsa in fails then NameFailed else VerifyMsa, n);
      }
    }
  }

  lemma CompanionsRound(s: State, n: Name, x: Inventory.Entry, fails: set<Inventory.Call>)
    returns (events: seq<Event>, t: State)
    requires OnStep(s.discovery, NeedMsa) && s.discovery.name == n && OfSlice(At(s, n)) == OfEntry(x)
    ensures Leads(s, events, t, DiscoveryParty, n)
    ensures t.discovery == Enrolling(s.discovery.plan) && OnlyAt(s, t, n)
    ensures OfSlice(At(t, n)) == OfEntry(Inventory.EnsureCompanions(x, fails).entry)
  {
    events, t := MsaRound(s, n, x, fails);
    var r := Inventory.EnsureMsa(x, fails);
    if !r.error {
      var mid, more := t, [];
      more, t := WorkRound(mid, n, r.entry, fails);
      Join(s, events, mid, more, t, DiscoveryParty, n);
      events := events + more;
    }
  }

  /** What the round knows of n from the listing is still so. */
  ghost predicate Undisturbed(s: State, plan: Plan, n: Name) {
    && (n in plan.existing <==> IsDiscovered(At(s, n)))
    && (n in plan.existing ==> At(s, n).cr == Some(plan.existing[n]) && !plan.existing[n].held)
  }

  predicate IsDiscovered(x: Slice) {
    x.cr.Some? && x.cr.value.labelled
  }

  /** The SpokeCluster once the round has got as far as the companions. */
  function Enlisted(x: Inventory.Entry, n: Name, address: string): Inventory.Entry {
    if Inventory.Discovered(x.cr) then x.(cr := Some(x.cr.value.(apiServer := address, source := FromMce(n))))
    else x.(cr := Some(Inventory.Cr(true, false, false, address, FromMce(n))))
  }

  /** A round that does not get as far as the companions. */
  predicate CutShort(x: Inventory.Entry, n: Name, address: string, fails: set<Inventory.Call>) {
    if Inventory.Discovered(x.cr) then Enlisted(x, n, address) != x && Inventory.UpdateCr in fails
    else Inventory.CheckCr in fails || x.cr.Some? || Inventory.CreateCr in fails
  }

  lemma EnrolSplit(x: Inventory.Entry, n: Name, address: string, fails: set<Inventory.Call>)
    ensures Inventory.Enrol(x, n, address, fails).entry ==
      if CutShort(x, n, address, fails) then x else Inventory.EnsureCompanions(Enlisted(x, n, address), fails).entry
  {
  }

  /** The first calls of the round, up to the companions. */
  lemma EnlistRound(s: State, n: Name, x: Inventory.Entry, address: string, fails: set<Inventory.Call>)
    returns (events: seq<Event>, t: State)
    requires s.discovery.Enrolling? && n in s.discovery.plan.todo && Undisturbed(s, s.discovery.plan, n)
    requires OfSlice(At(s, n)) == OfEntry(x)
    ensures Leads(s, events, t, DiscoveryParty, n) && OnlyAt(s, t, n)
    ensures var plan := Without(s.discovery.plan, n);
      if CutShort(x, n, address, fails) then t.discovery == Enrolling(plan) && OfSlice(At(t, n)) == OfEntry(x)
      else t.discovery == OnName(NeedMsa, n, plan) && OfSlice(At(t, n)) == OfEntry(Enlisted(x, n, address))
  {
    if Inventory.Discovered(x.cr) {
      var call := if Enlisted(x, n, address) == x then Keep(n) else if Inventory.UpdateCr in fails then PassOver(n)
        else Restore(n);
      events, t := Go(s, [], s, call, n);
    } else if Inventory.CheckCr in fails || x.cr.Some? {
      events, t := Go(s, [], s, PassOver(n), n);
    } else {
      events, t := Go(s, [], s, Look(n), n);
      events, t := Go(s, events, t, if Inventory.CreateCr in fails then NameFailed else CreateCr, n);
    }
  }

  /** One round of the create/update loop, whatever fails in it. */
  lemma EnrolStretch(s: State, n: Name, x: Inventory.Entry, address: string, fails: set<Inventory.Call>)
    returns (events: seq<Event>, t: State)
    requires s.discovery.Enrolling? && n in s.discovery.plan.todo && Undisturbed(s, s.discovery.plan, n)
    requires OfSlice(At(s, n)) == OfEntry(x)
    ensures Leads(s, events, t, DiscoveryParty, n)
    ensures t.discovery == Enrolling(Without(s.discovery.plan, n)) && OnlyAt(s, t, n)
    ensures OfSlice(At(t, n)) == OfEntry(Inventory.Enrol(x, n, address, fails).entry)
  {
    EnrolSplit(x, n, address, fails);
    events, t := EnlistRound(s, n, x, address, fails);
    if !CutShort(x, n, address, fails) {
      var mid, more := t, [];
      more, t := CompanionsRound(mid, n, Enlisted(x, n, address), fails);
      Join(s, events, mid, more, t, DiscoveryParty, n);
      events := events + more;
    }
  }

  /** A run that has come to a round of the create/update loop goes on with the calls of that round. */
  lemma EnrolRound(states: seq<State>, events: seq<Event>, n: Name, x: Inventory.Entry, address: string,
                   fails: set<Inventory.Call>)
    returns (states': seq<State>, more: seq<Event>)
    requires IsRun(states, events)
    requires var s := Last(states);
      s.discovery.Enrolling? && n in s.discovery.plan.todo && Undisturbed(s, s.discovery.plan, n) &&
        OfSlice(At(s, n)) == OfEntry(x)
    ensures states <= states' && IsRun(states', events + more) &&
      WorkFrom(states', events + more, |events|, DiscoveryParty, n)
    ensures var s, t := Last(states), Last(states');
      && t.discovery == Enrolling(Without(s.discovery.plan, n)) && OnlyAt(s, t, n)
      && OfSlice(At(t, n)) == OfEntry(Inventory.Enrol(x, n, address, fails).entry)
  {
    var t;
    more, t := EnrolStretch(Last(states), n, x, address, fails);
    states' := Continue(states, events, more, t, DiscoveryParty, n);
  }

  /** So does one that has come to a round of the delete loop. */
  lemma PruneRound(states: seq<State>, events: seq<Event>, n: Name, x: Inventory.Entry, fails: set<Inventory.Call>)
    returns (states': seq<State>, more: seq<Event>)
    requires IsRun(states, events)
    requires var s := Last(states);
      && s.discovery.Pruning? && n in s.discovery.plan.todo && n in s.discovery.plan.existing
      && Undisturbed(s, s.discovery.plan, n) && OfSlice(At(s, n)) == OfEntry(x)
    ensures states <= states' && IsRun(states', events + more) &&
      WorkFrom(states', events + more, |events|, DiscoveryParty, n)
    ensures var s, t := Last(states), Last(states');
      && t.discovery == Pruning(Without(s.discovery.plan, n)) && OnlyAt(s, t, n)
      && OfSlice(At(t, n)) == OfEntry(Inventory.Prune(x, fails).entry)
  {
    var s, skip, t := Last(states), x.cr.value.deleting || Inventory.DeleteCr in fails, Last(states);
    more, t := Go(s, [], s, if skip then PassOver(n) else DeleteCr(n), n);
    states' := Continue(states, events, more, t, DiscoveryParty, n);
  }

  // ----- sweeps -----

  /** After an error the pass ends, otherwise it goes on to the other names. */
  function Onward(error: bool, sweep: Sweep, todo: set<Name>): Discovery {
    if error then Asleep else Sweeping(sweep, todo)
  }

  lemma DropMsaRound(s: State, n: Name, x: Inventory.Entry, fails: set<Inventory.Call>)
    returns (events: seq<Event>, t: State)
    requires Revokes(s.discovery, FindMsa) && s.discovery.name == n && OfSlice(At(s, n)) == OfEntry(x)
    requires !(x.work.Some? && x.work.value.owned) && Inventory.SweepGetWork !in fails
    ensures Leads(s, events, t, DiscoveryParty, n) && OnlyAt(s, t, n)
    ensures var r := Inventory.DropCompanions(x, fails);
      t.discovery == Onward(r.error, s.discovery.sweep, s.discovery.todo) && OfSlice(At(t, n)) == OfEntry(r.entry)
  {
    if Inventory.SweepGetMsa in fails {
      events, t := Go(s, [], s, Quit, n);
    } else {
      events, t := Go(s, [], s, LookMsa, n);
      if x.msa == Some(true) {
        events, t := Go(s, events, t, if Inventory.SweepDeleteMsa in fails then Quit else DeleteMsa, n);
      }
    }
  }

  /** The ManifestWork is gone or not ours. */
  function Unworked(x: Inventory.Entry): Inventory.Entry {
    if x.work.Some? && x.work.value.owned then x.(work := None) else x
  }

  /** Finding or deleting the ManifestWork fails. */
  predicate WorkStays(x: Inventory.Entry, fails: set<Inventory.Call>) {
    Inventory.SweepGetWork in fails || (x.work.Some? && x.work.value.owned && Inventory.SweepDeleteWork in fails)
  }

  lemma DropSplit(x: Inventory.Entry, fails: set<Inventory.Call>)
    ensures Inventory.DropCompanions(x, fails) ==
      if WorkStays(x, fails) then Inventory.Step(x, true) else Inventory.DropCompanions(Unworked(x), fails)
  {
  }

  lemma DropWorkRound(s: State, n: Name, x: Inventory.Entry, fails: set<Inventory.Call>)
    returns (events: seq<Event>, t: State)
    requires Revokes(s.discovery, FindWork) && s.discovery.name == n && OfSlice(At(s, n)) == OfEntry(x)
    ensures Leads(s, events, t, DiscoveryParty, n) && OnlyAt(s, t, n)
    ensures if WorkStays(x, fails) then t.discovery == Asleep && OfSlice(At(t, n)) == OfEntry(x)
            else t.discovery == s.discovery.(at := FindMsa) && OfSlice(At(t, n)) == OfEntry(Unworked(x))
  {
    if Inventory.SweepGetWork in fails {
      events, t := Go(s, [], s, Quit, n);
    } else {
      events, t := Go(s, [], s, LookWork, n);
      if x.work.Some? && x.work.value.owned {
        events, t := Go(s, events, t, if Inventory.SweepDeleteWork in fails then Quit else DeleteWork, n);
      }
    }
  }

  lemma DropRound(s: State, n: Name, x: Inventory.Entry, fails: set<Inventory.Call>)
    returns (events: seq<Event>, t: State)
    requires Revokes(s.discovery, FindWork) && s.discovery.name == n && OfSlice(At(s, n)) == OfEntry(x)
    ensures Leads(s, events, t, DiscoveryParty, n) && OnlyAt(s, t, n)
    ensures var r := Inventory.DropCompanions(x, fails);
      t.discovery == Onward(r.error, s.discovery.sweep, s.discovery.todo) && OfSlice(At(t, n)) == OfEntry(r.entry)
  {
    DropSplit(x, fails);
    events, t := DropWorkRound(s, n, x, fails);
    if !WorkStays(x, fails) {
      var mid, more := t, [];
      more, t := DropMsaRound(mid, n, Unworked(x), fails);
      Join(s, events, mid, more, t, DiscoveryParty, n);
      events := events + more;
    }
  }

  lemma SweepStretch(s: State, n: Name, x: Inventory.Entry, fails: set<Inventory.Call>)
    returns (events: seq<Event>, t: State)
    requires s.discovery.Sweeping? && n in s.discovery.todo && OfSlice(At(s, n)) == OfEntry(x)
    ensures Leads(s, events, t, DiscoveryParty, n) && OnlyAt(s, t, n)
    ensures var r := if s.discovery.sweep.Orphans? then Inventory.SweepOrphan(x, fails)
                     else Inventory.Revoke(x, At(s, n).standing.Some?, fails);
      t.discovery == Onward(r.error, s.discovery.sweep, s.discovery.todo - {n}) && OfSlice(At(t, n)) == OfEntry(r.entry)
  {
    if Inventory.SweepCheck in fails {
      events, t := Go(s, [], s, Quit, n);
    } else {
      events, t := Go(s, [], s, Judge(n), n);
      if t.discovery.Revoking? {
        var mid, more := t, [];
        more, t := DropRound(mid, n, x, fails);
        Join(s, events, mid, more, t, DiscoveryParty, n);
        events := events + more;
      }
    }
  }

  /** And so does one that has come to a round of cleanupOrphanedCompanions or cleanupAllDiscoveryCompanions. */
  lemma SweepRound(states: seq<State>, events: seq<Event>, n: Name, x: Inventory.Entry, fails: set<Inventory.Call>)
    returns (states': seq<State>, more: seq<Event>)
    requires IsRun(states, events)
    requires var s := Last(states);
      s.discovery.Sweeping? && n in s.discovery.todo && OfSlice(At(s, n)) == OfEntry(x)
    ensures states <= states' && IsRun(states', events + more) &&
      WorkFrom(states', events + more, |events|, DiscoveryParty, n)
    ensures var s, t := Last(states), Last(states');
      var r := if s.discovery.sweep.Orphans? then Inventory.SweepOrphan(x, fails)
               else Inventory.Revoke(x, At(s, n).standing.Some?, fails);
      && t.discovery == Onward(r.error, s.discovery.sweep, s.discovery.todo - {n}) && OnlyAt(s, t, n)
      && OfSlice(At(t, n)) == OfEntry(r.entry)
  {
    var t;
    more, t := SweepStretch(Last(states), n, x, fails);
    states' := Continue(states, events, more, t, DiscoveryParty, n);
  }

  // ----- spoke passes -----

  /** The slice shows what the world of a spoke pass holds; nobody else's finalizer is involved. */
  predicate Shows(x: Slice, w: SpokePass.World, n: Name) {
    && x.pass.None?
    && (x.cr.Some? <==> w.cr.Some?)
    && (w.cr.Some? ==>
        && w.cr.value.name == n && w.cr.value.uid == x.cr.value.uid && !x.cr.value.held
        && w.cr.value.finalizer == x.cr.value.finalizer && w.cr.value.deleting == x.cr.value.deleting)
    && (x.standing.Some? <==> StandingOf(n) in w.secrets)
    && (x.standing.Some? ==> w.secrets[StandingOf(n)].owners == [OwnerRef(x.standing.value, n)])
  }

  /** Nothing but the slice of n changed. */
  ghost predicate Elsewhere(s: State, t: State, n: Name) {
    t.discovery == s.discovery && forall m :: m != n ==> At(t, m) == At(s, m)
  }

  /** The next event of the pass on n. */
  lemma Call(s: State, events: seq<Event>, mid: State, n: Name, e: SpokeEvent) returns (events': seq<Event>, t: State)
    requires Leads(s, events, mid, SpokeParty, n) && SpokeEnabled(At(mid, n), e)
    ensures Leads(s, events', t, SpokeParty, n) && Elsewhere(mid, t, n)
    ensures At(t, n) == SpokeStep(At(mid, n), e, mid.next)
  {
    Then(s, events, mid, OnSpoke(n, e), SpokeParty, n);
    events', t := events + [OnSpoke(n, e)], Next(mid, OnSpoke(n, e));
  }

  /** cleanupSpokeResources, and the removal of the finalizer if the pass is a delete. */
  lemma CleanupCalls(s: State, n: Name, dropped: bool, released: bool) returns (events: seq<Event>, t: State)
    requires var x := At(s, n);
      x.pass.None? && x.cr.Some? && x.cr.value.finalizer && !x.cr.value.held
    ensures Leads(s, events, t, SpokeParty, n) && Elsewhere(s, t, n)
    ensures var x := At(s, n);
      At(t, n) == x.(residue := None, standing := if dropped then None else x.standing,
                     cr := if x.cr.value.deleting && released then None else x.cr)
  {
    var x := At(s, n);
    events, t := Call(s, [], s, n, Start);
    events, t := Call(s, events, t, n, if x.cr.value.deleting then BeginDelete else Unmanage);
    events, t := Call(s, events, t, n, Deprovision);
    events, t := Call(s, events, t, n, DropSecret(dropped));
    if x.cr.value.deleting {
      events, t := Call(s, events, t, n, if released then DropFinalizer else Stop);
    }
  }

  /** ensureStandingKubeconfig, as far as the code gets: the Secret is created, found current, or updated. */
  lemma EnsureCalls(s: State, n: Name, same: bool) returns (events: seq<Event>, t: State)
    requires var x := At(s, n);
      && x.pass.None? && x.cr.Some? && x.cr.value.finalizer && !x.cr.value.deleting
      && (same ==> x.standing == Some(x.cr.value.uid))
    ensures Leads(s, events, t, SpokeParty, n) && Elsewhere(s, t, n)
    ensures var x := At(s, n);
      At(t, n) == x.(standing := Some(x.cr.value.uid), pass := Some(Pass(Ensured, x.cr.value)))
  {
    var x := At(s, n);
    events, t := Call(s, [], s, n, Start);
    events, t := Call(s, events, t, n, Manage);
    events, t := Call(s, events, t, n, CreateSecret);
    if x.standing.Some? {
      events, t := Call(s, events, t, n, CompareSecret(same));
      if !same {
        events, t := Call(s, events, t, n, UpdateSecret);
      }
    }
  }

  /** From the loaded kubeconfig on; `provisions` says whether the pass gets to the first create. */
  lemma DialCalls(s: State, n: Name, provisions: bool) returns (events: seq<Event>, t: State)
    requires var x := At(s, n);
      x.pass.Some? && x.pass.value.phase.Ensured? && x.standing.Some?
    ensures Leads(s, events, t, SpokeParty, n) && Elsewhere(s, t, n)
    ensures var x := At(s, n);
      At(t, n) == x.(pass := None, residue := if provisions then Some(x.pass.value.copy.uid) else x.residue)
  {
    events, t := [], s;
    if provisions {
      events, t := Call(s, events, t, n, Load);
      events, t := Call(s, events, t, n, BeginProvision);
    }
    events, t := Call(s, events, t, n, Stop);
  }

  /** The pass gets to the first create on the spoke; `w` is the world with the standing Secret ensured. */
  predicate Provisions(env: SpokePass.Env, w: SpokePass.World, n: Name) {
    var config := SpokePass.Standing(w, n);
    SpokePass.LoadStanding !in env.fails && config.Some? && config.value in env.reachable &&
      SpokePass.NewClient !in env.fails
  }

  /**
   From the standing Secret on a pass keeps that Secret and the SpokeCluster, and leaves the spoke
   alone unless it provisions.
   */
  lemma DialShape(env: SpokePass.Env, w: SpokePass.World)
    requires w.cr.Some?
    ensures var n, after := w.cr.value.name, SpokePass.Dial(env, w).world;
      && SpokePass.OnlyLabel(w, after)
      && (StandingOf(n) in after.secrets <==> StandingOf(n) in w.secrets)
      && (StandingOf(n) in after.secrets ==> after.secrets[StandingOf(n)] == w.secrets[StandingOf(n)])
      && (!Provisions(env, w, n) ==> after.spoke == w.spoke)
  {
    SpokeTheorems.AdaptersExact(env, SpokePass.ProvisionIn(env, w, SpokePass.BASE).world);
  }

  /**
   A pass on a spoke that is to be managed, whatever fails in it: the recorded residue covers
   everything the pass creates on the spoke.
   */
  lemma ManagedPass(s: State, n: Name, env: SpokePass.Env, w: SpokePass.World, after: SpokePass.World)
    returns (events: seq<Event>, t: State)
    requires Shows(At(s, n), w, n)
    requires w.cr.Some? && w.cr.value.finalizer && !w.cr.value.deleting && SpokePass.Gate(env, w.cr.value).None?
    requires after == SpokePass.Judge(env, w).world
    ensures Leads(s, events, t, SpokeParty, n) && Elsewhere(s, t, n)
    ensures Shows(At(t, n), after, n)
    ensures after.spoke != w.spoke ==> At(t, n).residue == Some(w.cr.value.uid)
  {
    events, t := [], s;
    var cr := w.cr.value;
    if env.credentials.Some? {
      var cfg := env.credentials.value;
      var ensured := SpokePass.EnsureStanding(env, w, cr, cfg);
      SpokeTheorems.StandingAfterEnsure(env, w);
      if ensured.error.None? {
        DialShape(env, ensured.world);
        var same := StandingOf(n) in w.secrets &&
          UpToDate(w.secrets[StandingOf(n)], BuildStanding(SpokePass.Owner(cr), SpokePass.WantedConfig(cr, cfg)),
            STANDING_KEYS);
        var more, mid;
        events, mid := EnsureCalls(s, n, same);
        more, t := DialCalls(mid, n, Provisions(env, ensured.world, n));
        Join(s, events, mid, more, t, SpokeParty, n);
        events := events + more;
      }
    }
  }

  lemma CleanupKeepsOwner(env: SpokePass.Env, w: SpokePass.World, n: Name)
    ensures var after := SpokePass.Cleanup(env, w, n).world;
      && after.spoke <= w.spoke
      && (StandingOf(n) in after.secrets ==>
        StandingOf(n) in w.secrets && after.secrets[StandingOf(n)] == w.secrets[StandingOf(n)])
  {
  }

  /** A pass that cleans up, on a SpokeCluster that is terminating or not to be managed. */
  lemma CleaningPass(s: State, n: Name, env: SpokePass.Env, w: SpokePass.World, after: SpokePass.World)
    returns (events: seq<Event>, t: State)
    requires Shows(At(s, n), w, n) && w.cr.Some? && w.cr.value.finalizer
    requires var cleaned := SpokePass.Cleanup(env, w, n).world;
      after == if w.cr.value.deleting && SpokePass.RemoveFinalizer !in env.fails then cleaned.(cr := None) else cleaned
    ensures Leads(s, events, t, SpokeParty, n) && Elsewhere(s, t, n)
    ensures Shows(At(t, n), after, n) && At(t, n).residue.None? && after.spoke <= w.spoke
  {
    SpokeTheorems.CleanupIsBestEffort(env, w, n);
    CleanupKeepsOwner(env, w, n);
    events, t := CleanupCalls(s, n, SpokePass.DeleteStanding !in env.fails, SpokePass.RemoveFinalizer !in env.fails);
  }

  /** Two worlds the fleet does not tell apart. */
  predicate Alike(a: SpokePass.World, b: SpokePass.World) {
    && a.secrets == b.secrets && a.spoke == b.spoke
    && (a.cr.Some? <==> b.cr.Some?)
    && (a.cr.Some? ==> b.cr.value == a.cr.value.(conditions := b.cr.value.conditions))
  }

  lemma ReportAlike(env: SpokePass.Env, w: SpokePass.World)
    requires w.cr.Some? && !w.cr.value.deleting && w.cr.value.finalizer
    requires SpokePass.GetCr !in env.fails && SpokePass.GetHub !in env.fails
    ensures Alike(SpokePass.Judge(env, w).world, SpokePass.Reconcile(env, w).world)
  {
    var judged := SpokePass.Judge(env, w);
    assert SpokePass.Reconcile(env, w) == SpokePass.Report(env, judged, w.cr.value.conditions);
  }

  lemma FinalizerCalls(s: State, n: Name) returns (events: seq<Event>, t: State)
    requires var x := At(s, n);
      x.pass.None? && x.cr.Some? && !x.cr.value.finalizer && !x.cr.value.deleting
    ensures Leads(s, events, t, SpokeParty, n) && Elsewhere(s, t, n)
    ensures var x, y := At(s, n), At(t, n);
      y.cr.Some? && y == x.(cr := Some(x.cr.value.(finalizer := true, version := y.cr.value.version)))
  {
    events, t := Call(s, [], s, n, Start);
    events, t := Call(s, events, t, n, AddFinalizer);
  }

  /** A pass on a live SpokeCluster that carries the finalizer, once it has read the HubConfig. */
  lemma JudgedPass(s: State, n: Name, env: SpokePass.Env, w: SpokePass.World, after: SpokePass.World)
    returns (events: seq<Event>, t: State)
    requires Shows(At(s, n), w, n) && w.cr.Some? && !w.cr.value.deleting && w.cr.value.finalizer
    requires SpokePass.GetCr !in env.fails && SpokePass.GetHub !in env.fails
    requires after == SpokePass.Reconcile(env, w).world
    ensures Leads(s, events, t, SpokeParty, n) && Elsewhere(s, t, n)
    ensures Shows(At(t, n), after, n)
    ensures !(after.spoke <= w.spoke) ==> At(t, n).residue == Some(w.cr.value.uid)
  {
    ReportAlike(env, w);
    var judged := SpokePass.Judge(env, w).world;
    if SpokePass.Gate(env, w.cr.value).Some? {
      events, t := CleaningPass(s, n, env, w, judged);
    } else {
      events, t := ManagedPass(s, n, env, w, judged);
    }
  }

  lemma SpokeStretch(s: State, n: Name, env: SpokePass.Env, w: SpokePass.World, after: SpokePass.World)
    returns (events: seq<Event>, t: State)
    requires Shows(At(s, n), w, n) && after == SpokePass.Reconcile(env, w).world
    ensures Leads(s, events, t, SpokeParty, n) && Elsewhere(s, t, n)
    ensures Shows(At(t, n), after, n)
    ensures !(after.spoke <= w.spoke) ==> w.cr.Some? && At(t, n).residue == Some(w.cr.value.uid)
  {
    events, t := [], s;
    if SpokePass.GetCr in env.fails || w.cr.None? {
      assert after == w;
    } else if w.cr.value.deleting {
      assert SpokePass.Reconcile(env, w) == SpokePass.Decommission(env, w);
      if w.cr.value.finalizer {
        events, t := CleaningPass(s, n, env, w, after);
      }
    } else if !w.cr.value.finalizer {
      if SpokePass.AddFinalizer !in env.fails {
        events, t := FinalizerCalls(s, n);
      }
    } else if SpokePass.GetHub !in env.fails {
      events, t := JudgedPass(s, n, env, w, after);
    }
  }

  /**
   Every spoke pass, whatever its environment and whatever fails: a run in which the pass is due
   goes on with the calls of that pass alone, to the same effect on the SpokeCluster and its standing
   Secret. If the pass adds anything to the spoke, the run has recorded residue afterwards. So what
   FleetSafety says of every state of every run holds between any two calls of the pass.
   */
  lemma SpokePassRun(states: seq<State>, events: seq<Event>, n: Name, env: SpokePass.Env, w: SpokePass.World,
                     after: SpokePass.World)
    returns (states': seq<State>, more: seq<Event>)
    requires IsRun(states, events) && Shows(At(Last(states), n), w, n)
    requires after == SpokePass.Reconcile(env, w).world
    ensures states <= states' && IsRun(states', events + more) &&
      WorkFrom(states', events + more, |events|, SpokeParty, n)
    ensures Elsewhere(Last(states), Last(states'), n) && Shows(At(Last(states'), n), after, n)
    ensures !(after.spoke <= w.spoke) ==> w.cr.Some? && At(Last(states'), n).residue == Some(w.cr.value.uid)
  {
    var t;
    more, t := SpokeStretch(Last(states), n, env, w, after);
    states' := Continue(states, events, more, t, SpokeParty, n);
  }
}
