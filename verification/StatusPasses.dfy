/**
 A reconcile pass as it runs undisturbed is a stretch of StatusProtocol: whatever fails, SpokePass
 has the same effect on the stored SpokeCluster as the reconciler's events, and the key is queued
 again exactly when the pass asks for it or its own write gets through the event predicate.
 */
module StatusPasses {
  import opened Kube
  import opened Conditions
  import opened SpokeStatus
  import opened StatusProtocol
  import SpokePass
  import SpokeTheorems

  /** What the protocol keeps of a SpokeCluster. */
  function Shown(cr: SpokePass.Cr, held: bool): Cr {
    Cr(cr.generation, cr.deleting, cr.finalizer, held, cr.conditions)
  }

  predicate Shows(s: State, w: SpokePass.World) {
    if w.cr.None? then s.cr.None? else s.cr.Some? && s.cr.value == Shown(w.cr.value, s.cr.value.held)
  }

  /** patchStatus and what the pass returns after it. */
  lemma ReportStretch(s: State, env: SpokePass.Env, judged: SpokePass.Judged, read: seq<Condition>)
    returns (events: seq<Event>, t: State)
    requires judged.world.cr.Some? && Shows(s, judged.world)
    requires s.progress ==
      Deciding(Decide(read, judged.verdict, judged.world.cr.value.generation, env.now), Retries(judged.verdict))
    ensures Leads(s, events, t) && AllOfPass(events) && Starts(events) == 0
    ensures var r := SpokePass.Report(env, judged, read);
      && Shows(t, r.world) && t.progress.Idle? && t.health == s.health
      && (t.queued <==> s.queued || !r.outcome.Settled? || ConnectedMoved(s.cr.value.conditions, t.cr.value.conditions))
  {
    events, t := Advance(s, [], s, Reread(SpokePass.Refetch !in env.fails, env.now));
    if t.progress.Sending? {
      var sent := SpokePass.SendStatus !in env.fails;
      events, t := Advance(s, events, t, SendPatch(sent, sent));
    }
  }

  /** A pass on a live SpokeCluster that carries the finalizer, once it has read the HubConfig. */
  lemma JudgedStretch(s: State, env: SpokePass.Env, w: SpokePass.World) returns (events: seq<Event>, t: State)
    requires SpokeTheorems.Live(w) && Shows(s, w) && s.progress == Running(s.cr.value)
    ensures Leads(s, events, t) && AllOfPass(events) && Starts(events) == 0
    ensures var r := SpokePass.Report(env, SpokePass.Judge(env, w), w.cr.value.conditions);
      && Shows(t, r.world) && t.progress.Idle? && t.health == s.health
      && (t.queued <==> s.queued || !r.outcome.Settled? || ConnectedMoved(s.cr.value.conditions, t.cr.value.conditions))
  {
    var judged := SpokePass.Judge(env, w);
    var decided, more;
    events, decided := Advance(s, [], s, Conclude(judged.verdict, env.now));
    more, t := ReportStretch(decided, env, judged, w.cr.value.conditions);
    Join(s, events, decided, more, t);
    events := events + more;
  }

  /** The last event of a pass that does not get as far as the HubConfig. */
  function Ending(env: SpokePass.Env, cr: SpokePass.Cr): Event {
    if cr.deleting then
      if !cr.finalizer then QuietStop else if SpokePass.RemoveFinalizer in env.fails then Abort else RemoveFinalizer
    else if !cr.finalizer then
      if SpokePass.AddFinalizer in env.fails then Abort else AddFinalizer
    else Abort
  }

  /** The key stays queued: the pass failed or asked for it, moved Connected, or removed the object. */
  predicate Requeues(s: State, t: State, outcome: SpokePass.Outcome) {
    || !outcome.Settled?
    || (s.cr.Some? && (t.cr.None? || ConnectedMoved(s.cr.value.conditions, t.cr.value.conditions)))
  }

  /** A pass that has read the SpokeCluster. */
  lemma RunningStretch(s: State, env: SpokePass.Env, w: SpokePass.World, r: SpokePass.Result)
    returns (events: seq<Event>, t: State)
    requires w.cr.Some? && Shows(s, w) && !s.queued && s.progress == Running(s.cr.value)
    requires Unique(w.cr.value.conditions) && (s.cr.value.held ==> !(w.cr.value.deleting && w.cr.value.finalizer))
    requires SpokePass.GetCr !in env.fails && r == SpokePass.Reconcile(env, w)
    ensures Leads(s, events, t) && AllOfPass(events) && Starts(events) == 0
    ensures Shows(t, r.world) && t.progress.Idle? && t.health == s.health && (t.queued <==> Requeues(s, t, r.outcome))
  {
    var cr := w.cr.value;
    if SpokeTheorems.Live(w) && SpokePass.GetHub !in env.fails {
      events, t := JudgedStretch(s, env, w);
    } else {
      CleanupKeepsCr(env, w);
      events, t := Advance(s, [], s, Ending(env, cr));
    }
  }

  /**
   Every reconcile pass, whatever its environment and whatever fails, is a stretch of the
   reconciler's own events; only the removal of one finalizer among several is not a matter of SpokePass.
   */
  lemma PassStretch(s: State, env: SpokePass.Env, w: SpokePass.World, r: SpokePass.Result)
    returns (events: seq<Event>, t: State)
    requires Shows(s, w) && s.queued && s.progress.Idle?
    requires w.cr.Some? ==>
      Unique(w.cr.value.conditions) && (s.cr.value.held ==> !(w.cr.value.deleting && w.cr.value.finalizer))
    requires r == SpokePass.Reconcile(env, w)
    ensures Leads(s, events, t) && AllOfPass(events) && Starts(events) == 1
    ensures Shows(t, r.world) && t.progress.Idle? && t.health == s.health && (t.queued <==> Requeues(s, t, r.outcome))
  {
    events, t := Advance(s, [], s, Start(SpokePass.GetCr !in env.fails));
    if SpokePass.GetCr !in env.fails && w.cr.Some? {
      var started, more := t, [];
      more, t := RunningStretch(started, env, w, r);
      Join(s, events, started, more, t);
      events := events + more;
    }
  }

  /** So a run in which the pass is due goes on with exactly the events of that pass. */
  lemma PassRun(states: seq<State>, events: seq<Event>, env: SpokePass.Env, w: SpokePass.World, r: SpokePass.Result)
    returns (states': seq<State>, more: seq<Event>)
    requires IsRun(states, events) && Shows(Last(states), w) && Last(states).queued && Last(states).progress.Idle?
    requires w.cr.Some? ==>
      Unique(w.cr.value.conditions) && (Last(states).cr.value.held ==> !(w.cr.value.deleting && w.cr.value.finalizer))
    requires r == SpokePass.Reconcile(env, w)
    ensures IsRun(states', events + more) && states <= states' && AllOfPass(more) && Starts(more) == 1
    ensures var s, t := Last(states), Last(states');
      Shows(t, r.world) && t.progress.Idle? && t.health == s.health && (t.queued <==> Requeues(s, t, r.outcome))
  {
    var t;
    more, t := PassStretch(Last(states), env, w, r);
    states' := Continue(states, events, more, t);
  }

  lemma CleanupKeepsCr(env: SpokePass.Env, w: SpokePass.World)
    requires w.cr.Some?
    ensures SpokePass.Cleanup(env, w, w.cr.value.name).world.cr == w.cr
  {
  }
}
