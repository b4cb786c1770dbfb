/** What every interleaving keeps: finalizer safety, ordered revocation, ownership. */
module FleetSafety {
  import opened Kube
  import opened Fleet

  /** The copy was handed out before now, and its version still identifies its content. */
  predicate Seen(x: Slice, copy: Cr, now: nat) {
    && copy.version < now && copy.uid < now
    && (Current(x, copy) ==> x.cr.value == copy)
  }

  /** The object with this UID still exists and still carries the finalizer. */
  predicate Pinned(x: Slice, uid: nat) {
    x.cr.Some? && x.cr.value.uid == uid && x.cr.value.finalizer
  }

  predicate PassOk(x: Slice, p: Pass, now: nat) {
    && Seen(x, p.copy, now)
    && (p.copy.finalizer ==> Pinned(x, p.copy.uid))
    && (!p.phase.Got? ==> p.copy.finalizer)
    && (p.phase.Ensured? || p.phase.Loaded? || p.phase.Provisioning? ==> x.standing == Some(p.copy.uid))
    && (p.phase.Cleaned? || p.phase.Dropping? ==> x.residue.None?)
  }

  /** Finalizer safety, and the Secret that leads back to the spoke. */
  predicate ResidueOk(x: Slice) {
    x.residue.Some? ==> Pinned(x, x.residue.value) && x.standing == x.residue
  }

  /** The retry record: an owned ManifestWork never outlives the owned ManagedServiceAccount. */
  predicate RecordOk(x: Slice) {
    x.work == Some(Owned) ==> x.msa == Some(Owned)
  }

  predicate SliceOk(x: Slice, now: nat) {
    && (x.cr.Some? ==> x.cr.value.uid < now && x.cr.value.version < now)
    && (x.pass.Some? ==> PassOk(x, x.pass.value, now))
    && ResidueOk(x)
    && RecordOk(x)
  }

  /** A listed SpokeCluster: current versions are intact, and the label stays with the UID. */
  predicate ListedOk(x: Slice, copy: Cr, now: nat) {
    && Seen(x, copy, now)
    && copy.labelled
    && (x.cr.Some? && x.cr.value.uid == copy.uid ==> x.cr.value.labelled)
  }

  ghost predicate PlanOk(s: State, plan: Plan) {
    forall n :: n in plan.existing ==> ListedOk(At(s, n), plan.existing[n], s.next)
  }

  /** What a discovery pass may rely on between its calls. */
  ghost predicate DiscoveryOk(s: State) {
    match s.discovery
    case Asleep => true
    case Enrolling(plan) => PlanOk(s, plan)
    case OnName(step, n, plan) => PlanOk(s, plan) && (step.NeedWork? ==> At(s, n).msa == Some(Owned))
    case Pruning(plan) => PlanOk(s, plan)
    case Sweeping(_, _) => true
    case Revoking(at, n, sweep, _) =>
      && (sweep.Orphans? ==> Clear(At(s, n), Orphans))
      && (at.DropWork? ==> At(s, n).work == Some(Owned))
      && (at.FindMsa? || at.DropMsa? ==> At(s, n).work != Some(Owned))
      && (at.DropMsa? ==> At(s, n).msa == Some(Owned))
  }

  ghost predicate Inv(s: State) {
    (forall n :: SliceOk(At(s, n), s.next)) && DiscoveryOk(s)
  }

  // ----- one slice changes -----

  /** What may happen to a stored SpokeCluster: nothing, removal, a new version, or a new object. */
  predicate CrEvolves(x: Slice, y: Slice, now: nat) {
    || y.cr == x.cr
    || y.cr.None?
    || (y.cr.value.version == now &&
        if x.cr.Some? && y.cr.value.uid == x.cr.value.uid then y.cr.value.labelled == x.cr.value.labelled
        else y.cr.value.uid == now)
  }

  lemma SliceLater(x: Slice, now: nat)
    requires SliceOk(x, now)
    ensures SliceOk(x, now + 1)
  {
  }

  lemma PlanEvolves(s: State, n: Name, y: Slice, plan: Plan)
    requires PlanOk(s, plan) && CrEvolves(At(s, n), y, s.next)
    ensures PlanOk(With(s, n, y), plan)
  {
  }

  lemma SlicesKept(s: State, n: Name, y: Slice)
    requires (forall m :: SliceOk(At(s, m), s.next)) && SliceOk(y, s.next + 1)
    ensures forall m :: SliceOk(At(With(s, n, y), m), s.next + 1)
  {
    forall m ensures SliceOk(At(With(s, n, y), m), s.next + 1) {
      if m != n {
        SliceLater(At(s, m), s.next);
      }
    }
  }

  /** Others changed one slice: the discovery pass can still rely on what it relied on. */
  predicate Polite(x: Slice, y: Slice, now: nat) {
    && CrEvolves(x, y, now)
    && (y.cr.Some? && y.cr.value.labelled ==> x.cr.Some? && x.cr.value.labelled)
    && (y.msa == Some(Owned) <==> x.msa == Some(Owned))
    && (y.work == Some(Owned) <==> x.work == Some(Owned))
  }

  lemma PoliteKeeps(s: State, n: Name, y: Slice)
    requires Inv(s) && SliceOk(y, s.next + 1) && Polite(At(s, n), y, s.next)
    ensures Inv(With(s, n, y))
  {
    SlicesKept(s, n, y);
    var d := s.discovery;
    if d.Enrolling? || d.OnName? || d.Pruning? {
      PlanEvolves(s, n, y, d.plan);
    }
  }

  lemma SpokeStepOk(x: Slice, e: SpokeEvent, now: nat)
    requires SliceOk(x, now) && SpokeEnabled(x, e)
    ensures SliceOk(SpokeStep(x, e, now), now + 1) && Polite(x, SpokeStep(x, e, now), now)
  {
  }

  lemma WorldStepOk(x: Slice, e: WorldEvent, now: nat)
    requires SliceOk(x, now) && WorldEnabled(x, e)
    ensures SliceOk(WorldStep(x, e, now), now + 1) && Polite(x, WorldStep(x, e, now), now)
  {
  }

  // ----- discovery steps -----

  /** Writing back a listed copy whose version is current changes its version only. */
  lemma RestoreOk(x: Slice, copy: Cr, now: nat)
    requires SliceOk(x, now) && ListedOk(x, copy, now) && Current(x, copy)
    ensures SliceOk(Put(x, copy, now), now + 1) && CrEvolves(x, Put(x, copy, now), now)
  {
  }

  lemma DeleteOk(x: Slice, now: nat)
    requires SliceOk(x, now)
    ensures SliceOk(Delete(x, now), now + 1) && CrEvolves(x, Delete(x, now), now)
  {
  }

  /**
   The other calls leave an existing SpokeCluster alone, and a ManagedServiceAccount while there is
   a ManifestWork.
   */
  lemma CompanionStepOk(x: Slice, y: Slice, now: nat)
    requires SliceOk(x, now) && RecordOk(y) && y == x.(cr := y.cr, msa := y.msa, work := y.work)
    requires y.cr == x.cr || (x.cr.None? && y.cr == Some(NewCr(true, false, now)))
    ensures SliceOk(y, now + 1) && CrEvolves(x, y, now)
  {
  }

  lemma CompanionStep(s: State, e: DiscoveryEvent)
    requires DiscoveryEnabled(s, e) && !e.Restore? && !e.DeleteCr?
    requires SliceOk(At(s, Subject(s, e)), s.next) && DiscoveryOk(s)
    ensures var x, y := At(s, Subject(s, e)), DiscoveryStep(s, e);
      && RecordOk(y) && y == x.(cr := y.cr, msa := y.msa, work := y.work)
      && (y.cr == x.cr || (x.cr.None? && y.cr == Some(NewCr(true, false, s.next))))
  {
  }

  lemma DiscoverySliceOk(s: State, e: DiscoveryEvent)
    requires Inv(s) && DiscoveryEnabled(s, e)
    ensures SliceOk(DiscoveryStep(s, e), s.next + 1) && CrEvolves(At(s, Subject(s, e)), DiscoveryStep(s, e), s.next)
  {
    var n := Subject(s, e);
    assert SliceOk(At(s, n), s.next);
    if e.Restore? {
      assert ListedOk(At(s, n), s.discovery.plan.existing[n], s.next);
      RestoreOk(At(s, n), s.discovery.plan.existing[n], s.next);
    } else if e.DeleteCr? {
      DeleteOk(At(s, n), s.next);
    } else {
      CompanionStep(s, e);
      CompanionStepOk(At(s, n), DiscoveryStep(s, e), s.next);
    }
  }

  lemma ListingOk(s: State)
    requires forall n :: SliceOk(At(s, n), s.next)
    ensures forall n :: n in Labelled(s) ==> ListedOk(At(s, n), Labelled(s)[n], s.next + 1)
  {
  }

  /** Events at the seams: no stored object changes. */
  predicate Seam(e: DiscoveryEvent) {
    e.PlanPass? || e.PlanTeardown? || e.SweepModeSwitch? || e.Quit? || e.Enrolled? || e.Pruned?
  }

  /**
   What a discovery pass sets out to visit: every desired name, then every discovered one that is not
   desired, then every name with an owned ManagedServiceAccount; in teardown nothing is desired, and
   after a mode switch there is only the last.
   */
  lemma SeamsExactly(s: State, e: DiscoveryEvent, n: Name)
    requires DiscoveryEnabled(s, e)
    ensures var d := DiscoveryMove(s, e);
      var discovered := At(s, n).cr.Some? && At(s, n).cr.value.labelled;
      && (e.PlanPass? ==>
          && d.Enrolling? && d.plan.desired == e.desired && (n in d.plan.todo <==> n in e.desired)
          && (n in d.plan.existing <==> discovered) && (discovered ==> d.plan.existing[n] == At(s, n).cr.value))
      && (e.PlanTeardown? ==>
          && d.Pruning? && (n in d.plan.todo <==> discovered)
          && (n in d.plan.existing <==> discovered) && (discovered ==> d.plan.existing[n] == At(s, n).cr.value))
      && (e.Enrolled? ==>
          && d.Pruning? && d.plan.existing == s.discovery.plan.existing
          && (n in d.plan.todo <==> n in d.plan.existing && n !in s.discovery.plan.desired))
      && (e.Pruned? ==> d.Sweeping? && d.sweep.Orphans? && (n in d.todo <==> At(s, n).msa == Some(Owned)))
      && (e.SweepModeSwitch? ==> d.Sweeping? && d.sweep.ModeSwitch? && (n in d.todo <==> At(s, n).msa == Some(Owned)))
      && (e.Quit? ==> d.Asleep?)
  {
  }

  lemma SeamMoveOk(s: State, e: DiscoveryEvent)
    requires Inv(s) && DiscoveryEnabled(s, e) && Seam(e)
    ensures DiscoveryOk(Next(s, OnDiscovery(e)))
  {
    var n := Subject(s, e);
    ListingOk(s);
    SamePlan(s, n, Labelled(s));
    if e.Enrolled? {
      PlanEvolves(s, n, At(s, n), s.discovery.plan);
    }
  }

  lemma NameMoveOk(s: State, e: DiscoveryEvent)
    requires Inv(s) && DiscoveryEnabled(s, e) && !Seam(e)
    ensures DiscoveryOk(Next(s, OnDiscovery(e)))
  {
    var n, y, d := Subject(s, e), DiscoveryStep(s, e), s.discovery;
    DiscoverySliceOk(s, e);
    if d.Enrolling? || d.OnName? || d.Pruning? {
      PlanEvolves(s, n, y, d.plan);
    }
  }

  lemma SamePlan(s: State, n: Name, existing: map<Name, Cr>)
    requires forall m :: m in existing ==> ListedOk(At(s, m), existing[m], s.next + 1)
    ensures forall m :: m in existing ==> ListedOk(At(With(s, n, At(s, n)), m), existing[m], s.next + 1)
  {
  }

  lemma RestartKeeps(s: State)
    requires Inv(s)
    ensures Inv(Next(s, Restart))
  {
    var t := Next(s, Restart);
    forall n ensures SliceOk(At(t, n), t.next) {
      assert SliceOk(At(s, n), s.next);
      assert At(t, n) == End(At(s, n));
    }
  }

  lemma StepKeeps(s: State, e: Event)
    requires Inv(s) && Enabled(s, e)
    ensures Inv(Next(s, e))
  {
    match e
    case OnSpoke(n, se) =>
      SpokeStepOk(At(s, n), se, s.next);
      PoliteKeeps(s, n, SpokeStep(At(s, n), se, s.next));
    case OnWorld(n, we) =>
      WorldStepOk(At(s, n), we, s.next);
      PoliteKeeps(s, n, WorldStep(At(s, n), we, s.next));
    case OnDiscovery(de) =>
      DiscoverySliceOk(s, de);
      SlicesKept(s, Subject(s, de), DiscoveryStep(s, de));
      if Seam(de) {
        SeamMoveOk(s, de);
      } else {
        NameMoveOk(s, de);
      }
      DiscoverySlices(s, de);
    case Restart => RestartKeeps(s);
  }

  lemma DiscoverySlices(s: State, e: DiscoveryEvent)
    requires DiscoveryEnabled(s, e)
    ensures var t := With(s, Subject(s, e), DiscoveryStep(s, e));
      Next(s, OnDiscovery(e)).next == t.next && forall m :: At(Next(s, OnDiscovery(e)), m) == At(t, m)
  {
  }

  // ----- runs -----

  ghost predicate IsRun(states: seq<State>, events: seq<Event>) {
    && |states| == |events| + 1
    && states[0] == INITIAL
    && forall i :: 0 <= i < |events| ==> Enabled(states[i], events[i]) && states[i + 1] == Next(states[i], events[i])
  }

  function Last(states: seq<State>): State
    requires states != []
  {
    states[|states| - 1]
  }

  lemma {:induction false} RunKeeps(states: seq<State>, events: seq<Event>, i: nat)
    requires IsRun(states, events) && i <= |events|
    ensures Inv(states[i])
  {
    if i > 0 {
      RunKeeps(states, events, i - 1);
      StepKeeps(states[i - 1], events[i - 1]);
    }
  }

  /**
   Finalizer safety, at every API-call boundary of every run: while provisioning of a spoke has
   been begun and its cleanup has not been attempted since, the very SpokeCluster it was begun for
   exists with the finalizer, and its standing Secret exists, owned by it.
   */
  lemma FinalizerSafety(states: seq<State>, events: seq<Event>, i: nat, n: Name)
    requires IsRun(states, events) && i <= |events|
    ensures var x := At(states[i], n);
      x.residue.Some? ==> Pinned(x, x.residue.value) && x.standing == x.residue
  {
    RunKeeps(states, events, i);
    assert SliceOk(At(states[i], n), states[i].next);
  }

  /**
   Ordered revocation, orphan path: when the sweep deletes a ManifestWork or a
   ManagedServiceAccount, no discovered SpokeCluster of that name has un-attempted residue; any
   residue there is belongs to an unlabelled SpokeCluster that took the name over.
   */
  lemma OrphanRevocation(states: seq<State>, events: seq<Event>, i: nat)
    requires IsRun(states, events) && i < |events|
    requires events[i] == OnDiscovery(DeleteWork) || events[i] == OnDiscovery(DeleteMsa)
    requires states[i].discovery.sweep.Orphans?
    ensures var x := At(states[i], states[i].discovery.name);
      x.residue.Some? ==> x.cr.Some? && !x.cr.value.labelled && x.cr.value.uid == x.residue.value
  {
    RunKeeps(states, events, i);
    FinalizerSafety(states, events, i, states[i].discovery.name);
  }

  /**
   Ordered revocation, mode switch: when the sweep finds no standing Secret, garbage collected or
   deleted, there is no un-attempted residue under that name at that moment.
   */
  lemma ModeSwitchRevocation(states: seq<State>, events: seq<Event>, i: nat, n: Name)
    requires IsRun(states, events) && i < |events|
    requires events[i] == OnDiscovery(Judge(n)) && states[i].discovery.sweep.ModeSwitch?
    requires states[i + 1].discovery.Revoking?
    ensures At(states[i], n).residue.None?
  {
    FinalizerSafety(states, events, i, n);
  }

  /** Only two calls of the pass on n touch the record of residue. */
  lemma ResidueStep(s: State, e: Event, n: Name)
    requires Enabled(s, e)
    ensures e == OnSpoke(n, BeginProvision) ==> At(Next(s, e), n).residue.Some?
    ensures e == OnSpoke(n, Deprovision) ==> At(Next(s, e), n).residue.None?
    ensures e != OnSpoke(n, BeginProvision) && e != OnSpoke(n, Deprovision) ==>
      At(Next(s, e), n).residue == At(s, n).residue
  {
    if e.OnDiscovery? {
      DiscoverySlices(s, e.de);
    }
  }

  /** Provisioning of n was begun at k and its cleanup not attempted between then and i. */
  ghost predicate ProvisionedAt(events: seq<Event>, n: Name, k: int, i: nat)
    requires i <= |events|
  {
    0 <= k < i && events[k] == OnSpoke(n, BeginProvision) && forall l :: k < l < i ==>
      events[l] != OnSpoke(n, Deprovision)
  }

  lemma {:induction false} ResidueSince(states: seq<State>, events: seq<Event>, j: nat, i: nat, n: Name)
    requires IsRun(states, events) && j <= i <= |events| && At(states[j], n).residue.None?
    ensures At(states[i], n).residue.Some? <==> exists k :: j <= k && ProvisionedAt(events, n, k, i)
  {
    if i > j {
      ResidueSince(states, events, j, i - 1, n);
      var e := events[i - 1];
      ResidueStep(states[i - 1], e, n);
      if e == OnSpoke(n, BeginProvision) {
        assert ProvisionedAt(events, n, i - 1, i);
      } else if e == OnSpoke(n, Deprovision) {
        assert forall k :: j <= k < i - 1 ==> !ProvisionedAt(events, n, k, i);
      } else {
        if At(states[i - 1], n).residue.Some? {
          var k :| j <= k && ProvisionedAt(events, n, k, i - 1);
          assert ProvisionedAt(events, n, k, i);
        } else {
          forall k | j <= k ensures !ProvisionedAt(events, n, k, i) {
            assert !ProvisionedAt(events, n, k, i - 1);
          }
        }
      }
    }
  }

  /**
   Ordered revocation, mode switch, at any time after the check: exactly when there is residue again
   under that name, by then or at the delete itself. Provisioning must have been begun after the
   check, and its cleanup not attempted since.
   */
  lemma ModeSwitchResidueExactly(states: seq<State>, events: seq<Event>, j: nat, i: nat, n: Name)
    requires IsRun(states, events) && j < i <= |events|
    requires events[j] == OnDiscovery(Judge(n)) && states[j].discovery.sweep.ModeSwitch?
    requires states[j + 1].discovery.Revoking?
    ensures At(states[i], n).residue.Some? <==> exists k :: j < k && ProvisionedAt(events, n, k, i)
  {
    ModeSwitchRevocation(states, events, j, n);
    ResidueStep(states[j], events[j], n);
    ResidueSince(states, events, j + 1, i, n);
  }

  /**
   The retry record, at every API-call boundary: listing owned ManagedServiceAccounts misses no
   owned ManifestWork.
   */
  lemma RetryRecord(states: seq<State>, events: seq<Event>, i: nat, n: Name)
    requires IsRun(states, events) && i <= |events| && At(states[i], n).work == Some(Owned)
    ensures At(states[i], n).msa == Some(Owned) && n in OwnedMsas(states[i])
  {
    RunKeeps(states, events, i);
    assert SliceOk(At(states[i], n), states[i].next);
  }

  // ----- the standing Secret -----

  /** A standing Secret is there only with its owner, which carries the finalizer. */
  predicate SecretGuarded(x: Slice) {
    && (x.standing.Some? ==> Pinned(x, x.standing.value))
    && (x.pass.Some? && x.pass.value.phase.Dropping? ==> x.standing.None?)
  }

  lemma SpokeGuards(x: Slice, e: SpokeEvent, now: nat)
    requires SliceOk(x, now) && SecretGuarded(x) && SpokeEnabled(x, e) && e != DropSecret(false)
    ensures SecretGuarded(SpokeStep(x, e, now))
  {
  }

  lemma WorldGuards(x: Slice, e: WorldEvent, now: nat)
    requires SliceOk(x, now) && SecretGuarded(x) && WorldEnabled(x, e)
    ensures SecretGuarded(WorldStep(x, e, now))
  {
  }

  lemma GuardStep(s: State, e: Event, n: Name)
    requires Inv(s) && Enabled(s, e) && SecretGuarded(At(s, n)) && e != OnSpoke(n, DropSecret(false))
    ensures SecretGuarded(At(Next(s, e), n))
  {
    assert SliceOk(At(s, n), s.next);
    match e
    case OnSpoke(m, se) =>
      if m == n {
        SpokeGuards(At(s, n), se, s.next);
      }
    case OnWorld(m, we) =>
      if m == n {
        WorldGuards(At(s, n), we, s.next);
      }
    case OnDiscovery(de) =>
      DiscoverySlices(s, de);
      if Subject(s, de) == n {
        DiscoveryGuards(s, de);
      }
    case Restart =>
  }

  lemma DiscoveryGuards(s: State, e: DiscoveryEvent)
    requires Inv(s) && DiscoveryEnabled(s, e) && SecretGuarded(At(s, Subject(s, e)))
    ensures SecretGuarded(DiscoveryStep(s, e))
  {
    var n := Subject(s, e);
    assert SliceOk(At(s, n), s.next);
    if e.Restore? {
      assert ListedOk(At(s, n), s.discovery.plan.existing[n], s.next);
    } else if !e.DeleteCr? {
      CompanionStep(s, e);
    }
  }

  /**
   A standing Secret outlives its SpokeCluster, or the finalizer of it, only if the call that was to
   delete it failed: in every run without such a failure it is guarded at every API-call boundary.
   */
  lemma {:induction false} SecretsGuarded(states: seq<State>, events: seq<Event>, i: nat, n: Name)
    requires IsRun(states, events) && i <= |events|
    requires forall j :: 0 <= j < i ==> events[j] != OnSpoke(n, DropSecret(false))
    ensures SecretGuarded(At(states[i], n))
  {
    if i > 0 {
      SecretsGuarded(states, events, i - 1, n);
      RunKeeps(states, events, i - 1);
      GuardStep(states[i - 1], events[i - 1], n);
    }
  }

  /** Companions that are not discovery's own are never changed by a discovery step. */
  lemma ForeignCompanionsUntouched(s: State, e: DiscoveryEvent, n: Name)
    requires Inv(s) && DiscoveryEnabled(s, e)
    ensures At(s, n).msa == Some(Foreign) ==> At(Next(s, OnDiscovery(e)), n).msa == Some(Foreign)
    ensures At(s, n).work == Some(Foreign) ==> At(Next(s, OnDiscovery(e)), n).work == Some(Foreign)
  {
    DiscoverySlices(s, e);
    assert At(With(s, Subject(s, e), DiscoveryStep(s, e)), n) == if n == Subject(s, e) then DiscoveryStep(s, e)
      else At(s, n);
  }

  /**
   Exactly when a discovery step changes a SpokeCluster that lacks its label: it is the delete of a
   listed name, which carries no precondition, and the SpokeCluster it was listed for has since been
   replaced (its UID is another).
   */
  lemma UnlabelledTouchedExactly(s: State, e: DiscoveryEvent, n: Name)
    requires Inv(s) && DiscoveryEnabled(s, e)
    requires At(s, n).cr.Some? && !At(s, n).cr.value.labelled
    ensures At(Next(s, OnDiscovery(e)), n).cr != At(s, n).cr <==> e == DeleteCr(n) && !At(s, n).cr.value.deleting
    ensures e == DeleteCr(n) ==> s.discovery.plan.existing[n].uid != At(s, n).cr.value.uid
  {
    DiscoverySlices(s, e);
    assert SliceOk(At(s, n), s.next);
    assert At(With(s, Subject(s, e), DiscoveryStep(s, e)), n) == if n == Subject(s, e) then DiscoveryStep(s, e)
      else At(s, n);
    if e == DeleteCr(n) || e == Restore(n) {
      assert ListedOk(At(s, n), s.discovery.plan.existing[n], s.next);
    }
  }
}
