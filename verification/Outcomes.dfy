/** What the scaffolding of an actor records and tells, read off the events of a run
    alone: the first thing that went wrong, whether the stop hook ended, the stage and
    the lifecycle. */
module Outcomes {

  import opened Options
  import opened Scaffold

  /** What an event blames: errors fail the actor, panics of hooks and handlers panic it. */
  function Blame(a: Action): Option<Reason> {
    match a
    case InitErr(error) => Some(Failed(error))
    case Fail(error) => Some(Failed(error))
    case StartHookEnds(Some(panic)) => Some(Panicked(panic))
    case LoopPanics(panic) => Some(Panicked(panic))
    case StopHookEnds(Some(panic)) => Some(Panicked(panic))
    case _ => None
  }

  /** The first blame among the first `i` events. */
  function FirstBlame(actions: seq<Action>, i: nat): Option<Reason>
    requires i <= |actions|
  {
    if i == 0 then None
    else
      var earlier := FirstBlame(actions, i - 1);
      if earlier.Some? then earlier else Blame(actions[i - 1])
  }

  predicate HookEnded(actions: seq<Action>, i: nat)
    requires i <= |actions|
  {
    exists k :: 0 <= k < i && actions[k].StopHookEnds?
  }

  // -------------------------------------------------------------------- the outcome

  lemma StepBlames(w: World, a: Action)
    requires OutcomeOk(w) && Enabled(w, a)
    ensures Blame(a).Some? ==> Next(w, a).reason == if w.reason.Some? then w.reason else Blame(a)
    ensures Blame(a).Some? ==> w.reason != Some(Finished) && w.reason != Some(Aborted)
    ensures Blame(a).None? && w.reason.None? ==>
      var reason := Next(w, a).reason;
      reason == None || reason == Some(if w.hookEnded then Finished else Aborted)
    ensures Blame(a).None? && w.reason.Some? ==> Next(w, a).reason == w.reason
    ensures Blame(a).None? && Next(w, a).reason != w.reason ==> !a.StopHookEnds?
    ensures Next(w, a).hookEnded <==> w.hookEnded || a.StopHookEnds?
  {
    hide Kept, Gone, AttemptTo, KindOf;
  }

  /** The recorded outcome is the first thing that went wrong, if anything did; otherwise
      it is Finished if the stop hook ended and Aborted if not, once there is one. */
  lemma {:induction false} OutcomeIsFirstBlame(run: seq<World>, actions: seq<Action>, i: nat)
    requires IsRun(run, actions) && i < |run|
    ensures FirstBlame(actions, i).Some? ==> run[i].reason == FirstBlame(actions, i)
    ensures FirstBlame(actions, i).None? ==>
      run[i].reason == None || run[i].reason == Some(if HookEnded(actions, i) then Finished else Aborted)
    ensures run[i].hookEnded <==> HookEnded(actions, i)
  {
    hide Next, Enabled, OutcomeOk, Census, DiedOk, AttemptsOk, Blame;
    if i > 0 {
      hide Fresh;
      OutcomeIsFirstBlame(run, actions, i - 1);
      InvInRuns(run, actions, i - 1);
      StepBlames(run[i - 1], actions[i - 1]);
      HookEndedOnce(run, actions, i);
    }
  }

  lemma HookEndedOnce(run: seq<World>, actions: seq<Action>, i: nat)
    requires IsRun(run, actions) && 0 < i < |run|
    ensures HookEnded(actions, i) <==> HookEnded(actions, i - 1) || actions[i - 1].StopHookEnds?
    ensures run[i - 1].reason == Some(Aborted) ==> !actions[i - 1].StopHookEnds?
  {
    hide Next, Census, DiedOk, AttemptsOk;
    InvInRuns(run, actions, i - 1);
  }

  /** The reference for the final outcome: a function of the events. */
  function OutcomeOf(actions: seq<Action>, i: nat): Reason
    requires i <= |actions|
  {
    var blame := FirstBlame(actions, i);
    if blame.Some? then blame.value else if HookEnded(actions, i) then Finished else Aborted
  }

  /** The kind of termination that watchers and the log are told. */
  predicate Tells(reason: Reason, kind: TerminationKind) {
    match kind
    case KindFinished => reason.Finished?
    case KindFailed => reason.Failed?
    case KindPanicked => reason.Panicked?
    case KindAborted => reason.Aborted?
  }

  /** Any outcome there is is the one the events call for; at Dead there is one; every
      delivery attempt and every Died event tells exactly its kind; and a Died event is
      emitted exactly if the stop hook ended or the actor is aborted. */
  lemma OutcomeIsTold(run: seq<World>, actions: seq<Action>, i: nat)
    requires IsRun(run, actions) && i < |run|
    ensures var w, outcome := run[i], OutcomeOf(actions, i);
      && (w.reason.Some? ==> w.reason.value == outcome)
      && (w.lifecycle == Dead ==> w.reason.Some?)
      && (forall k :: 0 <= k < |w.attempts| ==> Tells(outcome, w.attempts[k].signal.kind))
      && (forall k :: 0 <= k < |w.died| ==> Tells(outcome, w.died[k])) && |w.died| <= 1
      && (w.lifecycle == Dead ==> (w.died != [] <==> HookEnded(actions, i) || outcome.Aborted?))
  {
    hide Next, Enabled, Census, Fresh;
    InvInRuns(run, actions, i);
    OutcomeIsFirstBlame(run, actions, i);
    forall k | 0 <= k < |run[i].attempts| ensures Tells(OutcomeOf(actions, i), run[i].attempts[k].signal.kind) {
      assert AttemptOk(run[i], run[i].attempts[k]);
    }
  }

  // --------------------------------------------------------------------- the stages

  function Rank(stage: Stage): nat {
    match stage
    case Initializing => 0
    case StartHook => 1
    case Looping => 2
    case StopHook => 3
    case MarkFinished => 4
    case RecordDied => 5
    case TakeSubscriptions => 6
    case Notifying(_) => 7
    case GuardMark => 8
    case GuardDied => 9
    case GuardTake => 10
    case GuardNotifying(_) => 11
    case GuardDead => 12
    case Over => 13
  }

  lemma StepGoesOn(w: World, a: Action)
    requires OutcomeOk(w) && Enabled(w, a)
    ensures Rank(w.stage) <= Rank(Next(w, a).stage)
    ensures Rank(Next(w, a).stage) > Rank(w.stage) + 1 ==>
      Next(w, a).stage == GuardMark && (a == Abort || a.InitErr? || a.StartHookEnds? || a == Proceed)
    ensures a == Abort ==> Next(w, a).stage == GuardMark
  {
    hide Kept, Gone, AttemptTo, KindOf;
  }

  /** The task goes through its stages in order and never back. */
  lemma {:induction false} StagesInOrder(run: seq<World>, actions: seq<Action>, i: nat, j: nat)
    requires IsRun(run, actions) && i <= j < |run|
    ensures Rank(run[i].stage) <= Rank(run[j].stage)
  {
    hide Next, Enabled, Rank, Fresh, OutcomeOk, Census, DiedOk, AttemptsOk;
    if i < j {
      StagesInOrder(run, actions, i, j - 1);
      InvInRuns(run, actions, j - 1);
      StepGoesOn(run[j - 1], actions[j - 1]);
    }
  }

  lemma StartEnds(w: World, a: Action)
    requires OutcomeOk(w) && Enabled(w, a) && a.StartHookEnds?
    ensures Next(w, a).stage == if Next(w, a).reason.Some? then GuardMark else Looping
    ensures w.stage == StartHook && Next(w, a).reason != Some(Finished) && Next(w, a).reason != Some(Aborted)
  {
  }

  /** The loop runs exactly after a start hook that ended with nothing gone wrong; after
      any other start neither the loop nor the stop hook ever runs. */
  lemma StartGate(run: seq<World>, actions: seq<Action>, i: nat, j: nat)
    requires IsRun(run, actions) && i < j < |run| && actions[i].StartHookEnds?
    ensures FirstBlame(actions, i + 1).None? ==> run[i + 1].stage == Looping
    ensures FirstBlame(actions, i + 1).Some? ==>
      run[i + 1].stage == GuardMark && run[j].stage != Looping && run[j].stage != StopHook
  {
    hide Next, Census, DiedOk, AttemptsOk, Fresh, Blame;
    InvInRuns(run, actions, i);
    OutcomeIsFirstBlame(run, actions, i + 1);
    StartEnds(run[i], actions[i]);
    InvInRuns(run, actions, i + 1);
    StagesInOrder(run, actions, i + 1, j);
  }

  lemma InitEnds(w: World, a: Action)
    requires Enabled(w, a) && (a.InitErr? || a.InitOk?)
    ensures w.stage == Initializing && Next(w, a).stage == if a.InitErr? then GuardMark else StartHook
  {
  }

  /** The start hook runs exactly after an init that succeeded; a failed one goes straight
      to the guard, and no hook ever runs. */
  lemma InitGate(run: seq<World>, actions: seq<Action>, i: nat, j: nat)
    requires IsRun(run, actions) && i < j < |run| && (actions[i].InitErr? || actions[i].InitOk?)
    ensures actions[i].InitOk? ==> run[i + 1].stage == StartHook
    ensures actions[i].InitErr? ==>
      run[i + 1].stage == GuardMark && run[j].stage != StartHook && run[j].stage != Looping && run[j].stage != StopHook
  {
    hide Next, Enabled, Fresh;
    InitEnds(run[i], actions[i]);
    StagesInOrder(run, actions, i + 1, j);
  }

  /** The task's own steps never idle: each reaches a later stage or delivers one more. */
  lemma ProceedGoesOn(w: World)
    requires OutcomeOk(w) && Enabled(w, Proceed)
    ensures var w' := Next(w, Proceed);
      || Rank(w'.stage) > Rank(w.stage)
      || (Rank(w'.stage) == Rank(w.stage) && |InFlight(w'.stage)| + 1 == |InFlight(w.stage)|
          && |w'.attempts| == |w.attempts| + 1)
  {
    hide KindOf;
  }

  // ------------------------------------------------------------------ the lifecycle

  predicate Happened(actions: seq<Action>, i: nat, a: Action)
    requires i <= |actions|
  {
    a in actions[..i]
  }

  /** The loop was entered: some start hook ended with nothing gone wrong. */
  predicate LoopEntered(actions: seq<Action>, i: nat)
    requires i <= |actions|
  {
    exists k :: 0 <= k < i && actions[k].StartHookEnds? && FirstBlame(actions, k + 1).None?
  }

  /** The lifecycle as a function of the events and of whether the guard is through. */
  function LifecycleOf(over: bool, ended: bool, stopAsked: bool, entered: bool): LifecycleState {
    if over then Dead
    else if ended then Stopping
    else if stopAsked then Draining
    else if entered then Running
    else Starting
  }

  ghost predicate LifecycleOk(w: World) {
    && (w.stage == Looping ==> w.lifecycle == Running || w.lifecycle == Draining)
    && (w.stage == StopHook ==> w.lifecycle == Stopping)
    && (Rank(w.stage) < 2 ==> w.lifecycle == Starting || w.lifecycle == Draining)
  }

  lemma StepKeepsLifecycle(w: World, a: Action)
    requires LifecycleOk(w) && Enabled(w, a)
    ensures LifecycleOk(Next(w, a))
  {
    hide Kept, Gone, AttemptTo, KindOf;
  }

  lemma {:induction false} LifecycleOkInRuns(run: seq<World>, actions: seq<Action>, i: nat)
    requires IsRun(run, actions) && i < |run|
    ensures LifecycleOk(run[i])
  {
    hide Next, Enabled;
    if i > 0 {
      LifecycleOkInRuns(run, actions, i - 1);
      StepKeepsLifecycle(run[i - 1], actions[i - 1]);
    }
  }

  lemma StepLifecycle(w: World, a: Action, ended: bool, stopAsked: bool, entered: bool)
    requires LifecycleOk(w) && OutcomeOk(w) && Enabled(w, a)
    requires w.lifecycle == LifecycleOf(w.stage == Over, ended, stopAsked, entered)
    ensures Next(w, a).lifecycle == LifecycleOf(
      Next(w, a).stage == Over, ended || a == LoopEnds, stopAsked || a == RequestStop,
      entered || (a.StartHookEnds? && Next(w, a).stage == Looping))
  {
    hide Kept, Gone, AttemptTo, KindOf;
  }

  /** In every run the lifecycle is exactly what the events make it: Running from a clean
      start, Draining from a stop request, Stopping from the loop's end, Dead at the end. */
  lemma {:induction false} LifecycleExactly(run: seq<World>, actions: seq<Action>, i: nat)
    requires IsRun(run, actions) && i < |run|
    ensures run[i].lifecycle == LifecycleOf(
      run[i].stage == Over, Happened(actions, i, LoopEnds), Happened(actions, i, RequestStop), LoopEntered(actions, i))
  {
    hide Next, OutcomeOk, Census, DiedOk, AttemptsOk, LifecycleOk, LifecycleOf;
    if i == 0 {
      FreshLifecycle(run[0].id);
    } else {
      hide Enabled, Fresh;
      LifecycleExactly(run, actions, i - 1);
      InvInRuns(run, actions, i - 1);
      LifecycleOkInRuns(run, actions, i - 1);
      StepLifecycle(run[i - 1], actions[i - 1], Happened(actions, i - 1, LoopEnds),
                    Happened(actions, i - 1, RequestStop), LoopEntered(actions, i - 1));
      assert actions[..i] == actions[..i - 1] + [actions[i - 1]];
      EnteredStep(run, actions, i);
    }
  }

  lemma FreshLifecycle(id: ActorId)
    ensures Fresh(id).lifecycle == LifecycleOf(false, false, false, false) && Fresh(id).stage == Initializing
  {
  }

  lemma EnteredStep(run: seq<World>, actions: seq<Action>, i: nat)
    requires IsRun(run, actions) && 0 < i < |run|
    ensures LoopEntered(actions, i)
      <==> LoopEntered(actions, i - 1) || (actions[i - 1].StartHookEnds? && run[i].stage == Looping)
  {
    hide Next, Enabled, Fresh;
    if actions[i - 1].StartHookEnds? {
      StartGate(run, actions, i - 1, i);
    }
  }

  // --------------------------------------------------------------- how it is delivered

  lemma StepAttempts(w: World, a: Action)
    requires Enabled(w, a) && Next(w, a).attempts != w.attempts
    ensures |Next(w, a).attempts| == |w.attempts| + 1 && w.attempts == Next(w, a).attempts[..|w.attempts|]
    ensures w.stage.Notifying? || w.stage.GuardNotifying?
    ensures w.stage.rest != [] && Next(w, a).attempts[|w.attempts|].to == w.stage.rest[0]
    ensures var policy, manner := w.stage.rest[0].policy, Next(w, a).attempts[|w.attempts|].manner;
      && (manner == AwaitRoom <==> w.stage.Notifying? && policy != NoWait)
      && (manner == BlockThread <==> w.stage.GuardNotifying? && policy == Always)
  {
    hide Kept, Gone, KindOf;
  }

  /** Watchers are told in the order in which they were taken; on the way through the stop
      path a delivery waits for room unless the watch asks for none, and in the guard it
      blocks only for a watch that insists. */
  lemma DeliveryManner(run: seq<World>, actions: seq<Action>, i: nat)
    requires IsRun(run, actions) && i < |actions| && run[i + 1].attempts != run[i].attempts
    ensures run[i].stage.Notifying? || run[i].stage.GuardNotifying?
    ensures var attempts, rest := run[i + 1].attempts, run[i].stage.rest;
      && rest != [] && |attempts| == |run[i].attempts| + 1 && attempts[|attempts| - 1].to == rest[0]
      && (attempts[|attempts| - 1].manner == AwaitRoom <==> run[i].stage.Notifying? && rest[0].policy != NoWait)
      && (attempts[|attempts| - 1].manner == BlockThread <==> run[i].stage.GuardNotifying? && rest[0].policy == Always)
  {
    hide Next, Enabled, Fresh;
    StepAttempts(run[i], actions[i]);
  }
}
