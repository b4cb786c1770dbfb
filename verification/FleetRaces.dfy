/** Runs that show why the fleet theorems are stated as they are. */
module FleetRaces {
  import opened Kube
  import opened Fleet
  import opened FleetSafety
  import opened FleetRuns

  const A: Name := "a"

  /** One more event of a run that starts with nothing. */
  lemma Advance(events: seq<Event>, s: State, e: Event) returns (events': seq<Event>, t: State)
    requires Leads(INITIAL, events, s, AnyParty, A) && Enabled(s, e)
    ensures Leads(INITIAL, events', t, AnyParty, A) && t == Next(s, e)
  {
    Then(INITIAL, events, s, e, AnyParty, A);
    events', t := events + [e], Next(s, e);
  }

  /** One call of the pass on A. */
  lemma Step(events: seq<Event>, s: State, e: SpokeEvent) returns (events': seq<Event>, t: State)
    requires Leads(INITIAL, events, s, AnyParty, A) && SpokeEnabled(At(s, A), e)
    ensures Leads(INITIAL, events', t, AnyParty, A)
    ensures t.discovery == s.discovery && At(t, A) == SpokeStep(At(s, A), e, s.next)
  {
    events', t := Advance(events, s, OnSpoke(A, e));
  }

  lemma Listed() returns (events: seq<Event>, t: State)
    ensures Leads(INITIAL, events, t, AnyParty, A)
    ensures t == State(t.slices, OnName(Confirmed, A, Plan(map[], {A}, {})), 2) && At(t, A) == NOTHING
  {
    events, t := Advance([], INITIAL, OnDiscovery(PlanPass({A})));
    assert Labelled(INITIAL) == map[];
    events, t := Advance(events, t, OnDiscovery(Look(A)));
    assert {A} - {A} == {};
  }

  /** Discovery has created a SpokeCluster and gone back to sleep, with or without the MSA. */
  lemma Discovered(withMsa: bool) returns (events: seq<Event>, t: State)
    ensures Leads(INITIAL, events, t, AnyParty, A)
    ensures t.discovery.Asleep?
    ensures At(t, A) == NOTHING.(cr := Some(NewCr(true, false, 2)), msa := if withMsa then Some(Owned) else None)
  {
    events, t := Listed();
    events, t := Advance(events, t, OnDiscovery(CreateCr));
    if withMsa {
      events, t := Advance(events, t, OnDiscovery(CreateMsa));
    }
    assert At(t, A) == NOTHING.(cr := Some(NewCr(true, false, 2)), msa := if withMsa then Some(Owned) else None);
    events, t := Advance(events, t, OnDiscovery(Quit));
  }

  /** Discovery is about to delete the SpokeCluster A it has listed, but A is another one by now. */
  lemma Replaced() returns (events: seq<Event>, t: State)
    ensures Leads(INITIAL, events, t, AnyParty, A)
    ensures DiscoveryEnabled(t, DeleteCr(A))
    ensures At(t, A).cr.Some? && At(t, A).cr.value == NewCr(false, false, At(t, A).cr.value.uid)
  {
    events, t := Discovered(false);
    assert A in Labelled(t);
    events, t := Advance(events, t, OnDiscovery(PlanPass({})));
    assert t.discovery.plan.existing.Keys - {} == t.discovery.plan.existing.Keys;
    events, t := Advance(events, t, OnDiscovery(Enrolled));
    events, t := Advance(events, t, OnWorld(A, UserDelete));
    events, t := Advance(events, t, OnWorld(A, UserCreate(false)));
  }

  /**
   The delete without precondition: between discovery's List and its Delete the user deletes the
   discovered SpokeCluster and creates one of the same name by hand, and discovery deletes that one.
   */
  lemma ManualClusterDeleted() returns (states: seq<State>, events: seq<Event>)
    ensures IsRun(states, events) && Enabled(Last(states), OnDiscovery(DeleteCr(A)))
    ensures var s := Last(states);
      && At(s, A).cr.Some? && !At(s, A).cr.value.labelled && !At(s, A).cr.value.deleting
      && At(Next(s, OnDiscovery(DeleteCr(A))), A).cr.None?
  {
    var t;
    events, t := Replaced();
    states := Continue([INITIAL], [], events, t, AnyParty, A);
    assert [] + events == events;
  }

  lemma Finalized() returns (events: seq<Event>, t: State)
    ensures Leads(INITIAL, events, t, AnyParty, A) && t.discovery.Asleep?
    ensures At(t, A) == NOTHING.(cr := At(t, A).cr, msa := Some(Owned))
    ensures At(t, A).cr.Some? && At(t, A).cr.value.labelled && At(t, A).cr.value.finalizer
    ensures !At(t, A).cr.value.deleting && !At(t, A).cr.value.held
  {
    events, t := Discovered(true);
    events, t := Step(events, t, Start);
    events, t := Step(events, t, AddFinalizer);
  }

  /** From a finalized SpokeCluster with no standing Secret, a pass that gets as far as provisioning. */
  lemma ProvisionedMeanwhile(events: seq<Event>, s: State) returns (events': seq<Event>, t: State)
    requires Leads(INITIAL, events, s, AnyParty, A)
    requires At(s, A) == NOTHING.(cr := At(s, A).cr, msa := Some(Owned))
    requires At(s, A).cr.Some? && !At(s, A).cr.value.deleting && At(s, A).cr.value.finalizer
    ensures Leads(INITIAL, events', t, AnyParty, A)
    ensures t.discovery == s.discovery && At(t, A).cr == At(s, A).cr && At(t, A).residue == Some(At(s, A).cr.value.uid)
    ensures At(t, A).msa == Some(Owned) && At(t, A).work.None?
  {
    events', t := Step(events, s, Start);
    events', t := Step(events', t, Manage);
    events', t := Step(events', t, CreateSecret);
    events', t := Step(events', t, Load);
    events', t := Step(events', t, BeginProvision);
  }

  /** Mode-switch cleanup has found no standing Secret and is about to revoke. */
  lemma Cleared() returns (events: seq<Event>, t: State)
    ensures Leads(INITIAL, events, t, AnyParty, A) && Revokes(t.discovery, FindWork) && t.discovery.name == A
    ensures At(t, A) == NOTHING.(cr := At(t, A).cr, msa := Some(Owned))
    ensures At(t, A).cr.Some? && At(t, A).cr.value.labelled && !At(t, A).cr.value.deleting &&
      At(t, A).cr.value.finalizer
  {
    events, t := Finalized();
    assert A in OwnedMsas(t);
    events, t := Advance(events, t, OnDiscovery(SweepModeSwitch));
    events, t := Advance(events, t, OnDiscovery(Judge(A)));
  }

  lemma Revoked(events: seq<Event>, s: State) returns (events': seq<Event>, t: State)
    requires Leads(INITIAL, events, s, AnyParty, A) && Revokes(s.discovery, FindWork) && s.discovery.name == A
    requires At(s, A).msa == Some(Owned) && At(s, A).work.None?
    ensures Leads(INITIAL, events', t, AnyParty, A) && At(t, A) == At(s, A).(msa := None)
  {
    events', t := Advance(events, s, OnDiscovery(LookWork));
    events', t := Advance(events', t, OnDiscovery(LookMsa));
    events', t := Advance(events', t, OnDiscovery(DeleteMsa));
  }

  /**
   ModeSwitchRevocation speaks of the moment of the check only: if the mode is switched back right
   after it, a pass may provision the spoke before discovery deletes its ManagedServiceAccount.
   */
  lemma ModeSwitchWindow() returns (states: seq<State>, events: seq<Event>)
    ensures IsRun(states, events)
    ensures var x := At(Last(states), A);
      && x.msa.None? && x.cr.Some? && x.cr.value.labelled && x.residue == Some(x.cr.value.uid)
  {
    var t;
    events, t := Cleared();
    events, t := ProvisionedMeanwhile(events, t);
    events, t := Revoked(events, t);
    states := Continue([INITIAL], [], events, t, AnyParty, A);
    assert [] + events == events;
  }

  /** A discovered spoke with its standing Secret. */
  lemma Equipped() returns (events: seq<Event>, t: State)
    ensures Leads(INITIAL, events, t, AnyParty, A)
    ensures At(t, A).pass.None? && At(t, A).standing.Some?
    ensures At(t, A).cr.Some? && At(t, A).cr.value.finalizer && !At(t, A).cr.value.deleting && !At(t, A).cr.value.held
  {
    events, t := Finalized();
    events, t := Step(events, t, Start);
    events, t := Step(events, t, Manage);
    events, t := Step(events, t, CreateSecret);
    events, t := Step(events, t, Stop);
  }

  /** And marked for deletion by its user. */
  lemma Doomed() returns (events: seq<Event>, t: State)
    ensures Leads(INITIAL, events, t, AnyParty, A)
    ensures At(t, A).pass.None? && At(t, A).standing.Some?
    ensures At(t, A).cr.Some? && At(t, A).cr.value.finalizer && At(t, A).cr.value.deleting && !At(t, A).cr.value.held
  {
    events, t := Equipped();
    events, t := Advance(events, t, OnWorld(A, UserDelete));
  }

  /**
   The delete of the standing Secret fails, the finalizer is removed all the same, and the Secret
   outlives its owner.
   */
  lemma SecretOutlives() returns (states: seq<State>, events: seq<Event>)
    ensures IsRun(states, events)
    ensures At(Last(states), A).cr.None? && At(Last(states), A).standing.Some?
    ensures Enabled(Last(states), OnWorld(A, Collect))
  {
    var t;
    events, t := Doomed();
    events, t := Step(events, t, Start);
    events, t := Step(events, t, BeginDelete);
    events, t := Step(events, t, Deprovision);
    events, t := Step(events, t, DropSecret(false));
    events, t := Step(events, t, DropFinalizer);
    states := Continue([INITIAL], [], events, t, AnyParty, A);
    assert [] + events == events;
  }
}
