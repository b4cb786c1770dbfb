/**
 When the adapter Deployment is restarted for a SpokeCluster: the managed passes on it, split at the
 calls of ensureAdapterLabel and restartAdapterDeployment, among everything else that happens to the
 Deployment. A pass may stop before any call, and the reply to any call may be lost.
 */
module RestartRuns {
  import opened Kube
  import SpokePass

  /** Where the pass on the spoke stands. */
  datatype Phase =
    | Idle
    | Got(labelled: bool)      // it has read the SpokeCluster
    | Labelled                 // it has stored the label; reading the Deployment comes next
    | Read(version: nat)       // it has read the Deployment at this version; writing it back comes next

  /**
   `deployment` is the resource version of the Deployment, if it exists; `restarts` is history: how
   often passes on this spoke have restarted it. `next` is the next resource version.
   */
  datatype State = State(labelled: bool, deployment: Option<nat>, phase: Phase, restarts: nat, next: nat)

  datatype Event =
    // passes on this spoke
    | Start
    | Stop                                // a failing call, a lost reply to a read, a crash, or the end of the pass
    | StoreLabel(acknowledged: bool)
    | GetDeployment
    | UpdateDeployment                    // applied unless refused, acknowledged or not: the pass ends either way
    // everything else
    | Deploy
    | Change                              // other updates, restarts for other spokes among them
    | Undeploy

  const INITIAL := State(false, None, Idle, 0, 0)

  predicate Enabled(s: State, e: Event) {
    match e
    case Start => s.phase.Idle?
    case Stop => !s.phase.Idle?
    case StoreLabel(_) => s.phase == Got(false)
    case GetDeployment => s.phase.Labelled?
    case UpdateDeployment => s.phase.Read?
    case Deploy => s.deployment.None?
    case Change => s.deployment.Some?
    case Undeploy => s.deployment.Some?
  }

  /** Update is compare-and-swap on the resource version. */
  predicate Accepted(s: State) {
    s.phase.Read? && s.deployment == Some(s.phase.version)
  }

  function Written(s: State): State {
    s.(deployment := Some(s.next), next := s.next + 1)
  }

  function Next(s: State, e: Event): State
    requires Enabled(s, e)
  {
    match e
    case Start => s.(phase := Got(s.labelled))
    case Stop => s.(phase := Idle)
    case StoreLabel(acknowledged) => s.(labelled := true, phase := if acknowledged then Labelled else Idle)
    case GetDeployment => s.(phase := if s.deployment.Some? then Read(s.deployment.value) else Idle)
    case UpdateDeployment =>
      (if Accepted(s) then Written(s).(restarts := s.restarts + 1) else s).(phase := Idle)
    case Deploy => Written(s)
    case Change => Written(s)
    case Undeploy => s.(deployment := None)
  }

  ghost predicate IsRun(states: seq<State>, events: seq<Event>) {
    && |states| == |events| + 1
    && states[0] == INITIAL
    && forall i :: 0 <= i < |events| ==> Enabled(states[i], events[i]) && states[i + 1] == Next(states[i], events[i])
  }

  /** Versions in use have been handed out before. */
  predicate VersionsOk(s: State) {
    && (s.deployment.Some? ==> s.deployment.value < s.next)
    && (s.phase.Read? ==> s.phase.version < s.next)
  }

  lemma {:induction false} RunVersionsOk(states: seq<State>, events: seq<Event>, m: nat)
    requires IsRun(states, events) && m <= |events|
    ensures VersionsOk(states[m])
  {
    if m > 0 {
      RunVersionsOk(states, events, m - 1);
    }
  }

  /**
   An update takes effect exactly if the Deployment is there as it was read: once somebody else has
   changed or deleted it, even if it was created anew since, the update is refused and changes nothing.
   */
  lemma UpdateExactly(s: State, e: Event)
    requires VersionsOk(s) && s.phase.Read? && Enabled(s, e)
    ensures e.UpdateDeployment? && s.deployment != Some(s.phase.version) ==> Next(s, e) == s.(phase := Idle)
    ensures e.UpdateDeployment? && s.deployment == Some(s.phase.version) ==>
      Next(s, e).restarts == s.restarts + 1 && Next(s, e).deployment.Some?
    ensures e.Change? || e.Undeploy? || (e.Deploy? && s.deployment != Some(s.phase.version)) ==>
      Next(s, e).phase == s.phase && Next(s, e).deployment != Some(s.phase.version)
  {
  }

  /** How far the calls after the label have got, one after the other in the same pass. */
  datatype Course = LabelStored | DeploymentRead | Restarted | Missed

  /**
   The course of the restart that the label stored at i calls for, read off what happens afterwards:
   the reply arrives; the next call of the pass finds the Deployment; the one after that writes it
   back, and nobody else has written or deleted it in between.
   */
  ghost function CourseOf(states: seq<State>, events: seq<Event>, i: nat, m: nat): Course
    requires i < m <= |events| < |states|
  {
    if m == i + 1 then if events[i] == StoreLabel(true) then LabelStored else Missed
    else
      var before, s, e := CourseOf(states, events, i, m - 1), states[m - 1], events[m - 1];
      match before
      case LabelStored =>
        if e.GetDeployment? && s.deployment.Some? then DeploymentRead
        else if e.Stop? || e.GetDeployment? then Missed
        else before
      case DeploymentRead =>
        if e.UpdateDeployment? && Accepted(s) then Restarted
        else if e.Stop? || e.UpdateDeployment? then Missed
        else before
      case _ => before
  }

  /** The phase of the pass follows the course; once it is over, no later pass has anything to store. */
  predicate Follows(s: State, course: Course) {
    s.labelled &&
    match course
    case LabelStored => s.phase.Labelled?
    case DeploymentRead => s.phase.Read?
    case _ => s.phase.Idle? || s.phase == Got(true)
  }

  /**
   Exactly when the restart that a newly stored label calls for takes place, for every run and every
   later moment: it is not missed if and only if the calls after the label succeed in turn. A failing
   call, a stop, a lost reply to the label's update, or a change to the Deployment in between make it
   miss, and no number of later passes makes up for it.
   */
  lemma {:induction false} RestartedExactly(states: seq<State>, events: seq<Event>, i: nat, m: nat)
    requires IsRun(states, events) && i < m <= |events| && events[i].StoreLabel?
    ensures Follows(states[m], CourseOf(states, events, i, m))
    ensures states[m].restarts == states[i].restarts + if CourseOf(states, events, i, m).Restarted? then 1 else 0
  {
    if m > i + 1 {
      RestartedExactly(states, events, i, m - 1);
    }
  }

  /** Before the label is stored there is no restart for the spoke. */
  lemma {:induction false} NoneBeforeLabel(states: seq<State>, events: seq<Event>, m: nat)
    requires IsRun(states, events) && m <= |events| && forall i :: 0 <= i < m ==> !events[i].StoreLabel?
    ensures states[m].restarts == 0 && !states[m].labelled && (states[m].phase.Idle? || states[m].phase == Got(false))
  {
    if m > 0 {
      NoneBeforeLabel(states, events, m - 1);
    }
  }

  /** The label is stored at most once. */
  lemma LabelStoredOnce(states: seq<State>, events: seq<Event>, i: nat, m: nat)
    requires IsRun(states, events) && i < m < |events| && events[i].StoreLabel?
    ensures !events[m].StoreLabel?
  {
    RestartedExactly(states, events, i, m);
  }

  /** No call fails, but the reply to the label's update is lost: the restart never happens. */
  lemma LostReply() returns (states: seq<State>, events: seq<Event>)
    ensures IsRun(states, events)
    ensures var s := states[|states| - 1];
      s.labelled && s.deployment.Some? && s.restarts == 0 && s.phase == Got(true)
  {
    var deployed := Next(INITIAL, Deploy);
    var got := Next(deployed, Start);
    var stored := Next(got, StoreLabel(false));
    states := [INITIAL, deployed, got, stored, Next(stored, Start)];
    events := [Deploy, Start, StoreLabel(false), Start];
  }

  // ----- the calls as SpokePass makes them -----

  predicate Shows(s: State, w: SpokePass.World)
    requires w.cr.Some?
  {
    && s.labelled == SpokePass.Labelled(w.cr.value)
    && (s.deployment.Some? <==> w.deployment.Some?)
  }

  /** The pass stores the label and its reply arrives; then come the two calls of the restart. */
  lemma RestartCalls(env: SpokePass.Env, w: SpokePass.World, s: State)
    requires w.cr.Some? && Shows(s, w) && s.phase.Labelled?
    ensures var restarted := SpokePass.Restart(env, w).world;
      if SpokePass.GetDeployment in env.fails then Next(s, Stop).restarts == s.restarts && restarted == w
      else
        var found := Next(s, GetDeployment);
        if w.deployment.None? then found.phase.Idle? && found.restarts == s.restarts && restarted == w
        else
          && Accepted(found)
          && (if SpokePass.UpdateDeployment in env.fails then Next(found, Stop).restarts == s.restarts && restarted == w
              else
                && Next(found, UpdateDeployment).restarts == s.restarts + 1
                && restarted == w.(deployment := Some(w.deployment.value + 1)))
  {
  }

  /** An undisturbed pass that has read the SpokeCluster is Stop, or StoreLabel and what RestartCalls describes. */
  lemma LabelCalls(env: SpokePass.Env, w: SpokePass.World, s: State)
    requires w.cr.Some? && Shows(s, w) && s.phase == Got(SpokePass.Labelled(w.cr.value))
    ensures var after := SpokePass.EnsureLabel(env, w);
      if SpokePass.Labelled(w.cr.value) || after.error.Some? then
        after.world == w && SpokePass.LabelAndRestart(env, w).world == w
      else
        && Enabled(s, StoreLabel(true)) && Shows(Next(s, StoreLabel(true)), after.world)
        && SpokePass.LabelAndRestart(env, w).world == SpokePass.Restart(env, after.world).world
  {
  }
}
