/** Stretches of fleet runs, and whose work they are. */
module FleetRuns {
  import opened Kube
  import opened Fleet
  import opened FleetSafety

  /** Whose calls these are. */
  datatype Party = SpokeParty | DiscoveryParty | AnyParty

  /** The event belongs to this party's work on n; a discovery pass may also end there. */
  ghost predicate Concerns(s: State, e: Event, party: Party, n: Name) {
    match party
    case SpokeParty => e.OnSpoke? && e.spoke == n
    case DiscoveryParty => e.OnDiscovery? && DiscoveryEnabled(s, e.de) &&
      (e.de.Quit? || (!Seam(e.de) && Subject(s, e.de) == n))
    case AnyParty => true
  }

  /** These events, all of this party's work on n, lead one after the other from s to t. */
  ghost predicate Leads(s: State, events: seq<Event>, t: State, party: Party, n: Name)
    decreases |events|
  {
    if events == [] then s == t
    else
      && Enabled(s, events[0]) && Concerns(s, events[0], party, n)
      && Leads(Next(s, events[0]), events[1..], t, party, n)
  }

  lemma {:induction false} Then(s: State, events: seq<Event>, t: State, e: Event, party: Party, n: Name)
    requires Leads(s, events, t, party, n) && Enabled(t, e) && Concerns(t, e, party, n)
    ensures Leads(s, events + [e], Next(t, e), party, n)
    decreases |events|
  {
    if events != [] {
      Then(Next(s, events[0]), events[1..], t, e, party, n);
      assert (events + [e])[1..] == events[1..] + [e];
    } else {
      assert [e][1..] == [];
      assert events + [e] == [e];
    }
  }

  /** Two stretches make one. */
  lemma {:induction false} Join(s: State, events: seq<Event>, t: State, more: seq<Event>, u: State, party: Party,
                                n: Name)
    requires Leads(s, events, t, party, n) && Leads(t, more, u, party, n)
    ensures Leads(s, events + more, u, party, n)
    decreases |more|
  {
    if more == [] {
      assert events + more == events;
    } else {
      Then(s, events, t, more[0], party, n);
      Join(s, events + [more[0]], Next(t, more[0]), more[1..], u, party, n);
      assert events + [more[0]] + more[1..] == events + more;
    }
  }

  /** From this index on the run consists of this party's work on n. */
  ghost predicate WorkFrom(states: seq<State>, events: seq<Event>, from: nat, party: Party, n: Name)
    requires IsRun(states, events)
  {
    forall i :: from <= i < |events| ==> Concerns(states[i], events[i], party, n)
  }

  lemma Extend(states: seq<State>, events: seq<Event>, e: Event, from: nat, party: Party, n: Name)
    requires IsRun(states, events) && from <= |events| && WorkFrom(states, events, from, party, n)
    requires Enabled(Last(states), e) && Concerns(Last(states), e, party, n)
    ensures var next := states + [Next(Last(states), e)];
      IsRun(next, events + [e]) && WorkFrom(next, events + [e], from, party, n)
  {
  }

  lemma {:induction false} ContinueFrom(states: seq<State>, events: seq<Event>, from: nat, more: seq<Event>, t: State,
                                        party: Party, n: Name)
    returns (states': seq<State>)
    requires IsRun(states, events) && from <= |events| && WorkFrom(states, events, from, party, n)
    requires Leads(Last(states), more, t, party, n)
    ensures states <= states' && IsRun(states', events + more) && Last(states') == t
    ensures WorkFrom(states', events + more, from, party, n)
    decreases |more|
  {
    if more == [] {
      states' := states;
      assert events + more == events;
    } else {
      Extend(states, events, more[0], from, party, n);
      states' := ContinueFrom(states + [Next(Last(states), more[0])], events + [more[0]], from, more[1..], t, party, n);
      assert events + [more[0]] + more[1..] == events + more;
    }
  }

  /** A stretch from the last state of a run continues that run, with its own events only. */
  lemma Continue(states: seq<State>, events: seq<Event>, more: seq<Event>, t: State, party: Party, n: Name)
    returns (states': seq<State>)
    requires IsRun(states, events) && Leads(Last(states), more, t, party, n)
    ensures states <= states' && IsRun(states', events + more) && Last(states') == t
    ensures WorkFrom(states', events + more, |events|, party, n)
  {
    states' := ContinueFrom(states, events, |events|, more, t, party, n);
  }
}
