/**
 All SpokeClusters of a hub at once: the spoke reconciler (one pass per name at a time), the MCE
 discovery reconciler (one pass at a time), users, garbage collection and restarts, interleaved at
 every API call. Any pass may stop after any call, which covers errors, crashes and lost replies.
 What HubConfig and the ManagedClusters say is left open, so every choice the code derives from
 them is possible here.
 */
module Fleet {
  import opened Kube

  /** `version` is the resource version, `held` somebody else's finalizer, `labelled` the discovery label. */
  datatype Cr = Cr(uid: nat, version: nat, labelled: bool, finalizer: bool, deleting: bool, held: bool)

  datatype Companion = Owned | Foreign

  /** Where the pass on one SpokeCluster stands. */
  datatype Phase =
    | Got
    | Cleaning      // the spoke-side deletes come next
    | Cleaned       // they have been attempted; the Secret delete comes next
    | Dropping      // the finalizer removal comes next
    | Creating      // creating the standing Secret comes next
    | Comparing     // it existed; reading it comes next
    | Updating      // it is out of date; updating it comes next
    | Ensured       // loading it comes next
    | Loaded        // connected; the first provisioning call comes next
    | Provisioning

  /** `copy` is what the pass's first Get returned. */
  datatype Pass = Pass(phase: Phase, copy: Cr)

  /**
   Everything about one name. `standing` is the owner UID of the standing Secret. `residue` is
   history: the UID of the SpokeCluster for which provisioning was begun and whose cleanup has not
   been attempted since. `msa` and `work` are the ManagedServiceAccount and the ManifestWork in the
   namespace of that name.
   */
  datatype Slice = Slice(
    cr: Option<Cr>,
    standing: Option<nat>,
    residue: Option<nat>,
    pass: Option<Pass>,
    msa: Option<Companion>,
    work: Option<Companion>)

  const NOTHING := Slice(None, None, None, None, None, None)

  /** The listed SpokeClusters, the desired names, and the names the current loop has yet to visit. */
  datatype Plan = Plan(existing: map<Name, Cr>, desired: set<Name>, todo: set<Name>)

  /** cleanupOrphanedCompanions or cleanupAllDiscoveryCompanions. */
  datatype Sweep = Orphans | ModeSwitch

  datatype Discovery =
    | Asleep
    | Enrolling(plan: Plan)
    | OnName(step: NameStep, name: Name, plan: Plan)
    | Pruning(plan: Plan)
    | Sweeping(sweep: Sweep, todo: set<Name>)
    | Revoking(at: RevokeStep, name: Name, sweep: Sweep, todo: set<Name>)

  datatype NameStep =
    | Confirmed     // no such SpokeCluster; creating it comes next
    | NeedMsa
    | CheckMsa      // it existed; verifying its owner comes next
    | NeedWork

  datatype RevokeStep = FindWork | DropWork | FindMsa | DropMsa

  /** `next` is the next UID or resource version; every event uses up one. */
  datatype State = State(slices: map<Name, Slice>, discovery: Discovery, next: nat)

  const INITIAL := State(map[], Asleep, 0)

  function At(s: State, n: Name): Slice {
    if n in s.slices then s.slices[n] else NOTHING
  }

  function With(s: State, n: Name, x: Slice): State {
    s.(slices := s.slices[n := x], next := s.next + 1)
  }

  // ----- the API server -----

  function Put(x: Slice, cr: Cr, now: nat): Slice {
    x.(cr := Some(cr.(version := now)))
  }

  function NewCr(labelled: bool, held: bool, now: nat): Cr {
    Cr(now, now, labelled, false, false, held)
  }

  /** Delete by name, without preconditions. */
  function Delete(x: Slice, now: nat): Slice {
    if x.cr.None? || x.cr.value.deleting then x
    else if x.cr.value.finalizer || x.cr.value.held then Put(x, x.cr.value.(deleting := true), now)
    else x.(cr := None)
  }

  /** Update is compare-and-swap on the resource version. */
  predicate Current(x: Slice, copy: Cr) {
    x.cr.Some? && x.cr.value.version == copy.version
  }

  // ----- spoke passes -----

  datatype SpokeEvent =
    | Start
    | Stop
    | AddFinalizer
    | BeginDelete
    | Unmanage
    | Manage
    | Deprovision
    | DropSecret(applied: bool)
    | DropFinalizer
    | CreateSecret
    | CompareSecret(same: bool)
    | UpdateSecret
    | Load
    | BeginProvision

  predicate SpokeEnabled(x: Slice, e: SpokeEvent) {
    if e.Start? then x.pass.None? && x.cr.Some?
    else if x.pass.None? then false
    else
      var Pass(phase, copy) := x.pass.value;
      match e
      case Start => false
      case Stop => true
      case AddFinalizer => phase.Got? && !copy.deleting && !copy.finalizer && Current(x, copy)
      case BeginDelete => phase.Got? && copy.deleting && copy.finalizer
      case Unmanage => phase.Got? && !copy.deleting && copy.finalizer
      case Manage => phase.Got? && !copy.deleting && copy.finalizer
      case Deprovision => phase.Cleaning?
      case DropSecret(_) => phase.Cleaned?
      case DropFinalizer => phase.Dropping? && Current(x, copy)
      case CreateSecret => phase.Creating?
      case CompareSecret(same) => phase.Comparing? && x.standing.Some? && (same ==> x.standing.value == copy.uid)
      case UpdateSecret => phase.Updating? && x.standing.Some?
      case Load => phase.Ensured? && x.standing.Some?
      case BeginProvision => phase.Loaded?
  }

  function To(x: Slice, phase: Phase, copy: Cr): Slice {
    x.(pass := Some(Pass(phase, copy)))
  }

  function End(x: Slice): Slice {
    x.(pass := None)
  }

  function SpokeStep(x: Slice, e: SpokeEvent, now: nat): Slice
    requires SpokeEnabled(x, e)
  {
    if e.Start? then To(x, Got, x.cr.value)
    else
      var copy := x.pass.value.copy;
      match e
      case Start => x
      case Stop => End(x)
      case AddFinalizer => End(Put(x, copy.(finalizer := true), now))
      case BeginDelete => To(x, Cleaning, copy)
      case Unmanage => To(x, Cleaning, copy)
      case Manage => To(x, Creating, copy)
      case Deprovision => To(x.(residue := None), Cleaned, copy)
      case DropSecret(applied) =>
        var dropped := if applied then x.(standing := None) else x;
        if copy.deleting then To(dropped, Dropping, copy) else End(dropped)
      case DropFinalizer =>
        End(if copy.held then Put(x, copy.(finalizer := false), now) else x.(cr := None))
      case CreateSecret =>
        if x.standing.Some? then To(x, Comparing, copy) else To(x.(standing := Some(copy.uid)), Ensured, copy)
      case CompareSecret(same) => To(x, if same then Ensured else Updating, copy)
      case UpdateSecret => To(x.(standing := Some(copy.uid)), Ensured, copy)
      case Load => To(x, Loaded, copy)
      case BeginProvision => To(x.(residue := Some(copy.uid)), Provisioning, copy)
  }

  // ----- users, garbage collection -----

  datatype WorldEvent =
    | UserCreate(hold: bool)
    | UserDelete
    | Release
    | Touch               // spec edits, labels and status writes: a new resource version
    | ForeignMsa
    | ForeignWork
    | NoForeignMsa
    | NoForeignWork
    | Collect             // garbage collection of a Secret whose owner is gone

  predicate WorldEnabled(x: Slice, e: WorldEvent) {
    match e
    case UserCreate(_) => x.cr.None?
    case UserDelete => x.cr.Some?
    case Release => x.cr.Some? && x.cr.value.held
    case Touch => x.cr.Some?
    case ForeignMsa => x.msa.None?
    case ForeignWork => x.work.None?
    case NoForeignMsa => x.msa == Some(Foreign)
    case NoForeignWork => x.work == Some(Foreign)
    case Collect => x.standing.Some? && (x.cr.Some? ==> x.cr.value.uid != x.standing.value)
  }

  function WorldStep(x: Slice, e: WorldEvent, now: nat): Slice
    requires WorldEnabled(x, e)
  {
    match e
    case UserCreate(hold) => Put(x, NewCr(false, hold, now), now)
    case UserDelete => Delete(x, now)
    case Release =>
      if x.cr.value.deleting && !x.cr.value.finalizer then x.(cr := None) else Put(x, x.cr.value.(held := false), now)
    case Touch => Put(x, x.cr.value, now)
    case ForeignMsa => x.(msa := Some(Foreign))
    case ForeignWork => x.(work := Some(Foreign))
    case NoForeignMsa => x.(msa := None)
    case NoForeignWork => x.(work := None)
    case Collect => x.(standing := None)
  }

  // ----- discovery passes -----

  datatype DiscoveryEvent =
    // between passes, and at the seams between their loops
    | PlanPass(desired: set<Name>)
    | PlanTeardown
    | SweepModeSwitch
    | Quit
    | Enrolled
    | Pruned
    // one call for one name
    | Restore(name: Name)
    | Keep(name: Name)
    | PassOver(name: Name)
    | Look(name: Name)
    | CreateCr
    | CreateMsa
    | VerifyMsa
    | CreateWork
    | NameFailed
    | DeleteCr(name: Name)
    | Judge(name: Name)
    | LookWork
    | DeleteWork
    | LookMsa
    | DeleteMsa

  function Labelled(s: State): map<Name, Cr> {
    map n | n in s.slices && s.slices[n].cr.Some? && s.slices[n].cr.value.labelled :: s.slices[n].cr.value
  }

  function OwnedMsas(s: State): set<Name> {
    set n | n in s.slices && s.slices[n].msa == Some(Owned)
  }

  function Without(plan: Plan, n: Name): Plan {
    plan.(todo := plan.todo - {n})
  }

  /** The sweep finds that the companions of this name may go. */
  predicate Clear(x: Slice, sweep: Sweep) {
    match sweep
    case Orphans => x.cr.None? || !x.cr.value.labelled
    case ModeSwitch => x.standing.None?
  }

  predicate OnStep(d: Discovery, step: NameStep) {
    d.OnName? && d.step == step
  }

  predicate Revokes(d: Discovery, at: RevokeStep) {
    d.Revoking? && d.at == at
  }

  predicate DiscoveryEnabled(s: State, e: DiscoveryEvent) {
    var d := s.discovery;
    match e
    case PlanPass(_) => d.Asleep?
    case PlanTeardown => d.Asleep?
    case SweepModeSwitch => d.Asleep?
    case Quit => true
    case Enrolled => d.Enrolling? && d.plan.todo == {}
    case Pruned => d.Pruning? && d.plan.todo == {}
    case Restore(n) => d.Enrolling? && n in d.plan.todo && n in d.plan.existing && Current(At(s, n), d.plan.existing[n])
    case Keep(n) => d.Enrolling? && n in d.plan.todo && n in d.plan.existing
    case PassOver(n) => (d.Enrolling? || d.Pruning?) && n in d.plan.todo
    case Look(n) => d.Enrolling? && n in d.plan.todo && n !in d.plan.existing && At(s, n).cr.None?
    case CreateCr => OnStep(d, Confirmed)
    case CreateMsa => OnStep(d, NeedMsa)
    case VerifyMsa => OnStep(d, CheckMsa)
    case CreateWork => OnStep(d, NeedWork)
    case NameFailed => d.OnName?
    case DeleteCr(n) => d.Pruning? && n in d.plan.todo && n in d.plan.existing && !d.plan.existing[n].deleting
    case Judge(n) => d.Sweeping? && n in d.todo
    case LookWork => Revokes(d, FindWork)
    case DeleteWork => Revokes(d, DropWork)
    case LookMsa => Revokes(d, FindMsa)
    case DeleteMsa => Revokes(d, DropMsa)
  }

  /** The name an event is about, if it is about one. */
  function Subject(s: State, e: DiscoveryEvent): Name
    requires DiscoveryEnabled(s, e)
  {
    match e
    case Restore(n) => n
    case Keep(n) => n
    case PassOver(n) => n
    case Look(n) => n
    case DeleteCr(n) => n
    case Judge(n) => n
    case _ => if s.discovery.OnName? || s.discovery.Revoking? then s.discovery.name else ""
  }

  /** What the event does to the stored objects of its name. */
  function DiscoveryStep(s: State, e: DiscoveryEvent): Slice
    requires DiscoveryEnabled(s, e)
  {
    var x := At(s, Subject(s, e));
    match e
    case Restore(n) => Put(x, s.discovery.plan.existing[n], s.next)
    case CreateCr => if x.cr.Some? then x else Put(x, NewCr(true, false, s.next), s.next)
    case CreateMsa => if x.msa.Some? then x else x.(msa := Some(Owned))
    case CreateWork => if x.work.Some? then x else x.(work := Some(Owned))
    case DeleteCr(_) => Delete(x, s.next)
    case DeleteWork => x.(work := None)
    case DeleteMsa => x.(msa := None)
    case _ => x
  }

  /** Where the event takes the pass. */
  function DiscoveryMove(s: State, e: DiscoveryEvent): Discovery
    requires DiscoveryEnabled(s, e)
  {
    var d, x := s.discovery, At(s, Subject(s, e));
    match e
    case PlanPass(desired) => Enrolling(Plan(Labelled(s), desired, desired))
    case PlanTeardown => Pruning(Plan(Labelled(s), {}, Labelled(s).Keys))
    case SweepModeSwitch => Sweeping(ModeSwitch, OwnedMsas(s))
    case Quit => Asleep
    case Enrolled => Pruning(d.plan.(todo := d.plan.existing.Keys - d.plan.desired))
    case Pruned => Sweeping(Orphans, OwnedMsas(s))
    case Restore(n) => OnName(NeedMsa, n, Without(d.plan, n))
    case Keep(n) => OnName(NeedMsa, n, Without(d.plan, n))
    case PassOver(n) => if d.Enrolling? then Enrolling(Without(d.plan, n)) else Pruning(Without(d.plan, n))
    case Look(n) => OnName(Confirmed, n, Without(d.plan, n))
    case CreateCr => if x.cr.Some? then Enrolling(d.plan) else OnName(NeedMsa, d.name, d.plan)
    case CreateMsa => OnName(if x.msa.Some? then CheckMsa else NeedWork, d.name, d.plan)
    case VerifyMsa => if x.msa == Some(Owned) then OnName(NeedWork, d.name, d.plan) else Enrolling(d.plan)
    case CreateWork => Enrolling(d.plan)
    case NameFailed => Enrolling(d.plan)
    case DeleteCr(n) => Pruning(Without(d.plan, n))
    case Judge(n) =>
      if Clear(x, d.sweep) then Revoking(FindWork, n, d.sweep, d.todo - {n}) else Sweeping(d.sweep, d.todo - {n})
    case LookWork => Revoking(if x.work == Some(Owned) then DropWork else FindMsa, d.name, d.sweep, d.todo)
    case DeleteWork => Revoking(FindMsa, d.name, d.sweep, d.todo)
    case LookMsa => if x.msa == Some(Owned) then Revoking(DropMsa, d.name, d.sweep, d.todo)
      else Sweeping(d.sweep, d.todo)
    case DeleteMsa => Sweeping(d.sweep, d.todo)
  }

  // ----- everybody -----

  datatype Event =
    | OnSpoke(spoke: Name, se: SpokeEvent)
    | OnWorld(name: Name, we: WorldEvent)
    | OnDiscovery(de: DiscoveryEvent)
    | Restart

  predicate Enabled(s: State, e: Event) {
    match e
    case OnSpoke(n, se) => SpokeEnabled(At(s, n), se)
    case OnWorld(n, we) => WorldEnabled(At(s, n), we)
    case OnDiscovery(de) => DiscoveryEnabled(s, de)
    case Restart => true
  }

  function Next(s: State, e: Event): State
    requires Enabled(s, e)
  {
    match e
    case OnSpoke(n, se) => With(s, n, SpokeStep(At(s, n), se, s.next))
    case OnWorld(n, we) => With(s, n, WorldStep(At(s, n), we, s.next))
    case OnDiscovery(de) => With(s, Subject(s, de), DiscoveryStep(s, de)).(discovery := DiscoveryMove(s, de))
    case Restart => State(map n | n in s.slices :: End(s.slices[n]), Asleep, s.next + 1)
  }
}
