/** What each kind of lifecycle transition and each poll of a waiting future amounts to
    over whole runs: which moves happen, who makes them, who is woken, what is answered. */
module Transitions {

  import opened Lifecycle

  // -------------------------------------------------------------------------- moves

  /** The moves each kind of transition may make. */
  predicate Moves(kind: Kind, from: LifecycleState, to: LifecycleState) {
    match kind
    case ToRunning => from == Starting && to == Running
    case ToDraining => (from == Starting || from == Running) && to == Draining
    case ToStopping => (from == Running || from == Draining) && to == Stopping
    case ToDead => to == Dead
  }

  lemma StepMoves(c: Cell, a: Action)
    requires Enabled(c, a) && Next(c, a).state != c.state
    requires a.StepCall? ==> EffectOk(c.calls[a.call].kind, c.calls[a.call].at, c.state)
    ensures a.StepCall? && a.call in c.calls && Moves(c.calls[a.call].kind, c.state, Next(c, a).state)
  {
  }

  /** In every run the state changes only by a step of a call whose kind makes that move. */
  lemma StateMovesOnly(run: seq<Cell>, actions: seq<Action>, i: nat)
    requires IsRun(run, actions) && i < |actions| && run[i + 1].state != run[i].state
    ensures actions[i].StepCall? && actions[i].call in run[i].calls
    ensures Moves(run[i].calls[actions[i].call].kind, run[i].state, run[i + 1].state)
  {
    hide Next, EffectOk, Moves;
    if actions[i].StepCall? {
      TransitionTakesEffect(run, actions, i, actions[i].call);
    }
    StepMoves(run[i], actions[i]);
  }

  predicate Exchanging(step: CallStep) {
    step == FirstStep || step == SecondCas
  }

  lemma KindStays(c: Cell, a: Action, id: CallId)
    requires Enabled(c, a) && id in c.calls
    ensures id in Next(c, a).calls && Next(c, a).calls[id].kind == c.calls[id].kind
    ensures a != StepCall(id) ==> Next(c, a).calls[id].at == c.calls[id].at
  {
  }

  lemma NewCall(c: Cell, a: Action, id: CallId)
    requires Enabled(c, a) && id !in c.calls && id in Next(c, a).calls
    ensures Next(c, a).calls[id].at == FirstStep && a != StepCall(id)
  {
  }

  predicate EffectOk(kind: Kind, at: CallStep, state: LifecycleState) {
    && (at == SecondCas ==> kind == ToDraining || kind == ToStopping)
    && (!Exchanging(at) ==> (kind == ToRunning ==> state != Starting) && (kind == ToDead ==> state == Dead))
  }

  lemma StepTakesEffect(c: Cell, id: CallId)
    requires id in c.calls && EffectOk(c.calls[id].kind, c.calls[id].at, c.state) && c.calls[id].at != Returned
    ensures EffectOk(c.calls[id].kind, Step(c, id).calls[id].at, Step(c, id).state)
  {
  }

  lemma EffectStays(kind: Kind, at: CallStep, before: LifecycleState, after: LifecycleState)
    requires EffectOk(kind, at, before) && Rank(before) <= Rank(after)
    ensures EffectOk(kind, at, after)
  {
  }

  lemma {:induction false} TransitionTakesEffect(run: seq<Cell>, actions: seq<Action>, i: nat, id: CallId)
    requires IsRun(run, actions) && i < |run| && id in run[i].calls
    ensures EffectOk(run[i].calls[id].kind, run[i].calls[id].at, run[i].state)
  {
    if i > 0 {
      var c, a := run[i - 1], actions[i - 1];
      if id in c.calls {
        hide EffectOk, Step;
        TransitionTakesEffect(run, actions, i - 1, id);
        KindStays(c, a, id);
        if a == StepCall(id) {
          StepTakesEffect(c, id);
        } else {
          StepNeverGoesBack(c, a);
          EffectStays(c.calls[id].kind, c.calls[id].at, c.state, run[i].state);
        }
      } else {
        NewCall(c, a, id);
      }
    }
  }

  /** A running transition past its exchange leaves Starting behind; one to Dead makes the
      state Dead from whatever it was. */
  lemma RunningAndDeadTakeEffect(run: seq<Cell>, actions: seq<Action>, i: nat, id: CallId)
    requires IsRun(run, actions) && i < |run| && id in run[i].calls && !Exchanging(run[i].calls[id].at)
    ensures run[i].calls[id].kind == ToRunning ==> run[i].state != Starting
    ensures run[i].calls[id].kind == ToDead ==> run[i].state == Dead
  {
    hide Next, Enabled;
    TransitionTakesEffect(run, actions, i, id);
  }

  // ------------------------------------------------------------ stopping, exactly

  predicate FirstExchange(c: Cell, a: Action, id: CallId) {
    a == StepCall(id) && id in c.calls && c.calls[id].at == FirstStep
  }

  lemma StepToSecond(c: Cell, a: Action, id: CallId)
    requires Enabled(c, a) && id in Next(c, a).calls && Next(c, a).calls[id].at == SecondCas
    ensures id in c.calls && Next(c, a).calls[id].kind == c.calls[id].kind
    ensures c.calls[id].at == SecondCas || (FirstExchange(c, a, id) && c.state != Running)
  {
  }

  /** A second exchange is made only after a first that found another state than Running. */
  lemma {:induction false} SecondAfterFirst(run: seq<Cell>, actions: seq<Action>, i: nat, id: CallId) returns (f: nat)
    requires IsRun(run, actions) && i < |run| && id in run[i].calls && run[i].calls[id].at == SecondCas
    ensures f < i && FirstExchange(run[f], actions[f], id) && run[f].state != Running
  {
    hide Next, Enabled, FirstExchange;
    StepToSecond(run[i - 1], actions[i - 1], id);
    if run[i - 1].calls[id].at == SecondCas {
      f := SecondAfterFirst(run, actions, i - 1, id);
    } else {
      f := i - 1;
    }
  }

  lemma StopReturns(c: Cell, id: CallId)
    requires id in c.calls && c.calls[id].kind == ToStopping && Exchanging(c.calls[id].at)
    ensures Step(c, id).calls[id].at == Returned ==>
      (Rank(Step(c, id).state) < Rank(Stopping) <==>
        c.calls[id].at == SecondCas && (c.state == Starting || c.state == Running))
    ensures c.calls[id].at == SecondCas ==> Step(c, id).calls[id].at == Returned
    ensures c.calls[id].at == FirstStep && c.state == Running ==> Step(c, id).calls[id].at == Returned
  {
  }

  lemma {:induction false} StopNeverWakes(run: seq<Cell>, actions: seq<Action>, i: nat, id: CallId)
    requires IsRun(run, actions) && i < |run| && id in run[i].calls && run[i].calls[id].kind == ToStopping
    ensures Exchanging(run[i].calls[id].at) || run[i].calls[id].at == Returned
  {
    if i > 0 {
      var c, a := run[i - 1], actions[i - 1];
      if id in c.calls {
        KindStays(c, a, id);
        StopNeverWakes(run, actions, i - 1, id);
      } else {
        NewCall(c, a, id);
      }
    }
  }

  /** A stopping call returns with the state below Stopping if and only if its second
      exchange found Starting, or found Running, to which a running transition had moved
      it since the first; the first then found Starting too. */
  lemma StoppingExactly(run: seq<Cell>, actions: seq<Action>, i: nat, id: CallId)
    requires IsRun(run, actions) && i < |actions| && actions[i] == StepCall(id)
    requires id in run[i].calls && run[i].calls[id].kind == ToStopping
    requires id in run[i + 1].calls && run[i + 1].calls[id].at == Returned
    ensures Rank(run[i + 1].state) < Rank(Stopping)
      <==> run[i].calls[id].at == SecondCas && (run[i].state == Starting || run[i].state == Running)
    ensures Rank(run[i + 1].state) < Rank(Stopping) ==>
      exists f :: 0 <= f < i && FirstExchange(run[f], actions[f], id) && run[f].state == Starting
  {
    StopNeverWakes(run, actions, i, id);
    hide FirstExchange;
    StopReturns(run[i], id);
    if Rank(run[i + 1].state) < Rank(Stopping) {
      var f := SecondAfterFirst(run, actions, i, id);
      hide Next, Enabled;
      LifecycleOrder(run, actions, f, i);
    }
  }

  // -------------------------------------------------------------------- calls go on

  function Phase(step: CallStep): nat {
    match step
    case FirstStep => 4
    case SecondCas => 3
    case TakeWakers => 2
    case Waking(_) => 1
    case Returned => 0
  }

  /** Every step of a call brings it closer to its return, one waker at a time. */
  lemma CallGoesOn(c: Cell, id: CallId)
    requires id in c.calls && c.calls[id].at != Returned
    ensures var before, after := c.calls[id].at, Step(c, id).calls[id].at;
      || Phase(after) < Phase(before)
      || (before.Waking? && after.Waking? && |after.rest| + 1 == |before.rest|)
  {
  }

  predicate TakesSet(c: Cell, a: Action, id: CallId) {
    a == StepCall(id) && id in c.calls && c.calls[id].at == TakeWakers
  }

  /** The step is one of the call's exchanges and it succeeded. */
  predicate ChangesState(c: Cell, a: Action, c': Cell, id: CallId) {
    a == StepCall(id) && c'.state != c.state
  }

  ghost predicate Took(run: seq<Cell>, actions: seq<Action>, i: nat, id: CallId)
    requires IsRun(run, actions) && i < |run|
  {
    exists k :: 0 <= k < i && TakesSet(run[k], actions[k], id)
  }

  ghost predicate Changed(run: seq<Cell>, actions: seq<Action>, i: nat, id: CallId)
    requires IsRun(run, actions) && i < |run|
  {
    exists k :: 0 <= k < i && ChangesState(run[k], actions[k], run[k + 1], id)
  }

  predicate MustWake(kind: Kind, changed: bool) {
    kind == ToRunning || kind == ToDead || (kind == ToDraining && changed)
  }

  predicate PathOk(kind: Kind, at: CallStep, took: bool, changed: bool) {
    match at
    case FirstStep => !took && !changed
    case SecondCas => !took && !changed && (kind == ToDraining || kind == ToStopping)
    case TakeWakers => !took && MustWake(kind, changed)
    case Waking(_) => took && MustWake(kind, changed)
    case Returned => took <==> MustWake(kind, changed)
  }

  lemma PathStep(c: Cell, a: Action, id: CallId, took: bool, changed: bool)
    requires Enabled(c, a) && a == StepCall(id) && PathOk(c.calls[id].kind, c.calls[id].at, took, changed)
    ensures id in Next(c, a).calls && Next(c, a).calls[id].kind == c.calls[id].kind
    ensures PathOk(c.calls[id].kind, Next(c, a).calls[id].at,
                   took || TakesSet(c, a, id), changed || ChangesState(c, a, Next(c, a), id))
  {
  }

  lemma OtherPath(c: Cell, a: Action, c': Cell, id: CallId)
    requires a != StepCall(id)
    ensures !TakesSet(c, a, id) && !ChangesState(c, a, c', id)
  {
  }

  lemma {:induction false} PathInRuns(run: seq<Cell>, actions: seq<Action>, i: nat, id: CallId)
    requires IsRun(run, actions) && i < |run|
    ensures id in run[i].calls ==>
      PathOk(run[i].calls[id].kind, run[i].calls[id].at, Took(run, actions, i, id), Changed(run, actions, i, id))
    ensures id !in run[i].calls ==> !Took(run, actions, i, id) && !Changed(run, actions, i, id)
  {
    if i > 0 {
      var c, a := run[i - 1], actions[i - 1];
      assert Enabled(c, a) && run[i] == Next(c, a);
      if id !in c.calls && id in run[i].calls {
        NewCall(c, a, id);
      }
      hide Next, Enabled, TakesSet, ChangesState, Took, Changed;
      PathInRuns(run, actions, i - 1, id);
      TookStep(run, actions, i, id);
      if id in c.calls {
        hide PathOk;
        KindStays(c, a, id);
        if a == StepCall(id) {
          PathStep(c, a, id, Took(run, actions, i - 1, id), Changed(run, actions, i - 1, id));
        } else {
          OtherPath(c, a, run[i], id);
        }
      } else {
        NoCallNoStep(c, a, id);
        OtherPath(c, a, run[i], id);
      }
    }
  }

  lemma NoCallNoStep(c: Cell, a: Action, id: CallId)
    requires Enabled(c, a) && id !in c.calls
    ensures a != StepCall(id)
  {
  }

  lemma TookStep(run: seq<Cell>, actions: seq<Action>, i: nat, id: CallId)
    requires IsRun(run, actions) && 0 < i < |run|
    ensures Took(run, actions, i, id) <==> Took(run, actions, i - 1, id) || TakesSet(run[i - 1], actions[i - 1], id)
    ensures Changed(run, actions, i, id)
      <==> Changed(run, actions, i - 1, id) || ChangesState(run[i - 1], actions[i - 1], run[i], id)
  {
    hide Next, Enabled, TakesSet, ChangesState;
    if k :| 0 <= k < i && ChangesState(run[k], actions[k], run[k + 1], id) {
      assert k == i - 1 || Changed(run, actions, i - 1, id);
    }
  }

  /** Which calls wake: every running transition and every one to Dead before it returns, a
      draining one exactly if an exchange of it succeeded, a stopping one never. */
  lemma WakesExactly(run: seq<Cell>, actions: seq<Action>, i: nat, id: CallId)
    requires IsRun(run, actions) && i < |run| && id in run[i].calls && run[i].calls[id].at == Returned
    ensures Took(run, actions, i, id) <==>
      match run[i].calls[id].kind
      case ToRunning => true
      case ToDraining => Changed(run, actions, i, id)
      case ToStopping => false
      case ToDead => true
  {
    hide Next, Enabled, Took, Changed;
    PathInRuns(run, actions, i, id);
  }

  // ----------------------------------------------------------------- who is woken

  predicate Wakes(c: Cell, a: Action, task: TaskId) {
    a.StepCall? && a.call in c.calls && c.calls[a.call].at.Waking?
    && c.calls[a.call].at.rest != [] && c.calls[a.call].at.rest[0] == task
  }

  lemma TakeStep(c: Cell, id: CallId)
    requires id in c.calls && c.calls[id].at == TakeWakers
    ensures id in Step(c, id).calls && Step(c, id).wakers == [] && Step(c, id).calls[id].at == Waking(c.wakers)
  {
  }

  lemma WakingStep(c: Cell, a: Action, id: CallId, task: TaskId)
    requires Enabled(c, a) && id in c.calls && c.calls[id].at.Waking? && task in c.calls[id].at.rest
    ensures id in Next(c, a).calls
    ensures (a == StepCall(id) && Wakes(c, a, task))
      || (Next(c, a).calls[id].at.Waking? && task in Next(c, a).calls[id].at.rest)
  {
  }

  /** A call that takes the set wakes every task in it before it returns. */
  lemma {:induction false} TakenAreWoken(run: seq<Cell>, actions: seq<Action>, k: nat, j: nat, id: CallId, task: TaskId)
    requires IsRun(run, actions) && k < j < |run| && TakesSet(run[k], actions[k], id) && task in run[k].wakers
    ensures run[k + 1].wakers == [] && id in run[j].calls
    ensures (exists l :: k < l < j && actions[l] == StepCall(id) && Wakes(run[l], actions[l], task))
      || (run[j].calls[id].at.Waking? && task in run[j].calls[id].at.rest)
  {
    hide Wakes, Step;
    TakeStep(run[k], id);
    if k + 1 < j {
      TakenAreWoken(run, actions, k, j - 1, id, task);
      KindStays(run[j - 1], actions[j - 1], id);
      if run[j - 1].calls[id].at.Waking? && task in run[j - 1].calls[id].at.rest {
        WakingStep(run[j - 1], actions[j - 1], id, task);
      }
    }
  }

  predicate BeginsPoll(c: Cell, a: Action, id: WaiterId) {
    a == StepWaiter(id) && id in c.waiters && (c.waiters[id].at == Unpolled || c.waiters[id].at == Pending)
  }

  /** A waiter is woken exactly by a wake of its task, and stays so until its next poll. */
  lemma WokenStep(c: Cell, a: Action, id: WaiterId)
    requires Enabled(c, a) && id in Next(c, a).waiters
    ensures id !in c.waiters ==>
      a.NewWaiter? && Next(c, a).waiters[id] == Waiter(a.task, a.waiting, Unpolled, false)
    ensures id in c.waiters ==>
      && Next(c, a).waiters[id].task == c.waiters[id].task && Next(c, a).waiters[id].waiting == c.waiters[id].waiting
      && (Next(c, a).waiters[id].woken <==>
            Wakes(c, a, c.waiters[id].task) || (c.waiters[id].woken && !BeginsPoll(c, a, id)))
  {
  }

  ghost predicate WokenSincePoll(run: seq<Cell>, actions: seq<Action>, i: nat, id: WaiterId, task: TaskId)
    requires IsRun(run, actions) && i < |run|
  {
    exists k :: 0 <= k < i && Wakes(run[k], actions[k], task) && id in run[k].waiters
      && Undisturbed(run, actions, k, i, id)
  }

  /** The waiter neither began a poll nor was dropped since. */
  predicate Undisturbed(run: seq<Cell>, actions: seq<Action>, k: nat, i: nat, id: WaiterId)
    requires |run| == |actions| + 1 && i < |run|
  {
    forall n :: k <= n < i ==> !BeginsPoll(run[n], actions[n], id) && actions[n] != DropWaiter(id)
  }

  lemma {:induction false} WokenExactly(run: seq<Cell>, actions: seq<Action>, i: nat, id: WaiterId)
    requires IsRun(run, actions) && i < |run| && id in run[i].waiters
    ensures run[i].waiters[id].woken <==> WokenSincePoll(run, actions, i, id, run[i].waiters[id].task)
  {
    hide Next, Wakes, BeginsPoll;
    if i > 0 {
      var c, a, task := run[i - 1], actions[i - 1], run[i].waiters[id].task;
      WokenStep(c, a, id);
      WaiterKept(c, a, id);
      if id in c.waiters {
        WokenExactly(run, actions, i - 1, id);
        if Wakes(c, a, task) {
          WakeIsNoPoll(c, a, id, task);
        }
        WokenSinceStep(run, actions, i, id, task);
      } else if WokenSincePoll(run, actions, i, id, task) {
        var k :| 0 <= k < i && Wakes(run[k], actions[k], task) && id in run[k].waiters
          && Undisturbed(run, actions, k, i, id);
        WaiterStays(run, actions, k, i - 1, id);
      }
    }
  }

  lemma WakeIsNoPoll(c: Cell, a: Action, id: WaiterId, task: TaskId)
    requires Wakes(c, a, task)
    ensures !BeginsPoll(c, a, id) && a != DropWaiter(id)
  {
  }

  lemma WaiterKept(c: Cell, a: Action, id: WaiterId)
    requires Enabled(c, a)
    ensures id in c.waiters ==> (id in Next(c, a).waiters <==> a != DropWaiter(id))
  {
  }

  lemma {:induction false} WaiterStays(run: seq<Cell>, actions: seq<Action>, k: nat, i: nat, id: WaiterId)
    requires IsRun(run, actions) && k <= i < |run| && id in run[k].waiters
    requires forall n :: k <= n < i ==> actions[n] != DropWaiter(id)
    ensures id in run[i].waiters
  {
    hide Next;
    if k < i {
      WaiterStays(run, actions, k, i - 1, id);
      WaiterKept(run[i - 1], actions[i - 1], id);
    }
  }

  lemma WokenSinceStep(run: seq<Cell>, actions: seq<Action>, i: nat, id: WaiterId, task: TaskId)
    requires IsRun(run, actions) && 0 < i < |run| && id in run[i - 1].waiters
    requires !BeginsPoll(run[i - 1], actions[i - 1], id) || !Wakes(run[i - 1], actions[i - 1], task)
    requires actions[i - 1] != DropWaiter(id)
    ensures WokenSincePoll(run, actions, i, id, task) <==>
      || (Wakes(run[i - 1], actions[i - 1], task) && !BeginsPoll(run[i - 1], actions[i - 1], id))
      || (WokenSincePoll(run, actions, i - 1, id, task) && !BeginsPoll(run[i - 1], actions[i - 1], id))
  {
    hide Next, Enabled, Wakes, BeginsPoll;
    var before := i - 1;
    if WokenSincePoll(run, actions, i, id, task) {
      var k :| 0 <= k < i && Wakes(run[k], actions[k], task) && id in run[k].waiters
        && Undisturbed(run, actions, k, i, id);
      assert k == before || Undisturbed(run, actions, k, before, id);
    }
    if !BeginsPoll(run[before], actions[before], id) {
      if Wakes(run[before], actions[before], task) {
        assert Undisturbed(run, actions, before, i, id);
      }
      if WokenSincePoll(run, actions, before, id, task) {
        var k :| 0 <= k < before && Wakes(run[k], actions[k], task) && id in run[k].waiters
          && Undisturbed(run, actions, k, before, id);
        assert Undisturbed(run, actions, k, i, id);
      }
    }
  }

  // ------------------------------------------------------------- the waker set, exactly

  predicate Registers(c: Cell, a: Action, task: TaskId) {
    a.StepWaiter? && a.waiter in c.waiters && c.waiters[a.waiter].at == ToRegister && c.waiters[a.waiter].task == task
  }

  predicate TakesAny(c: Cell, a: Action) {
    a.StepCall? && TakesSet(c, a, a.call)
  }

  predicate Unique(s: seq<TaskId>) {
    forall i, j :: 0 <= i < j < |s| ==> s[i] != s[j]
  }

  lemma SetStep(c: Cell, a: Action, task: TaskId)
    requires Enabled(c, a) && Unique(c.wakers)
    ensures task in Next(c, a).wakers <==> Registers(c, a, task) || (task in c.wakers && !TakesAny(c, a))
    ensures Unique(Next(c, a).wakers)
  {
  }

  /** Registered and not taken since. */
  ghost predicate RegisteredSinceTake(run: seq<Cell>, actions: seq<Action>, i: nat, task: TaskId)
    requires IsRun(run, actions) && i < |run|
  {
    exists k :: 0 <= k < i && Registers(run[k], actions[k], task) && NotTaken(run, actions, k + 1, i)
  }

  predicate NotTaken(run: seq<Cell>, actions: seq<Action>, from: nat, to: nat)
    requires |run| == |actions| + 1 && to < |run|
  {
    forall n :: from <= n < to ==> !TakesAny(run[n], actions[n])
  }

  /** A task is in the set exactly if a poll registered it and no transition took the set
      since; it is in it once, however often it registered. */
  lemma {:induction false} SetExactly(run: seq<Cell>, actions: seq<Action>, i: nat, task: TaskId)
    requires IsRun(run, actions) && i < |run|
    ensures task in run[i].wakers <==> RegisteredSinceTake(run, actions, i, task)
    ensures Unique(run[i].wakers)
  {
    if i > 0 {
      hide Next, Enabled, Registers, TakesAny;
      SetExactly(run, actions, i - 1, task);
      SetStep(run[i - 1], actions[i - 1], task);
      RegisterIsNoTake(run[i - 1], actions[i - 1], task);
      RegisteredStep(run, actions, i, task);
    }
  }

  lemma RegisterIsNoTake(c: Cell, a: Action, task: TaskId)
    ensures !(Registers(c, a, task) && TakesAny(c, a))
  {
  }

  lemma RegisteredStep(run: seq<Cell>, actions: seq<Action>, i: nat, task: TaskId)
    requires IsRun(run, actions) && 0 < i < |run|
    ensures RegisteredSinceTake(run, actions, i, task) <==>
      || Registers(run[i - 1], actions[i - 1], task)
      || (RegisteredSinceTake(run, actions, i - 1, task) && !TakesAny(run[i - 1], actions[i - 1]))
  {
    hide Next, Enabled, Registers, TakesAny;
    var before := i - 1;
    if Registers(run[before], actions[before], task) {
      assert NotTaken(run, actions, i, i);
    }
    if k :| 0 <= k < i && Registers(run[k], actions[k], task) && NotTaken(run, actions, k + 1, i) {
      assert k == before || (NotTaken(run, actions, k + 1, before) && !TakesAny(run[before], actions[before]));
    }
    if k :| 0 <= k < before && Registers(run[k], actions[k], task) && NotTaken(run, actions, k + 1, before) {
      assert TakesAny(run[before], actions[before]) || NotTaken(run, actions, k + 1, i);
    }
  }

  // ------------------------------------------------------------------ what polls answer

  /** The condition each kind of waiting future awaits. */
  predicate Holds(waiting: Waiting, state: LifecycleState) {
    match waiting
    case ForTerminal => state == Dead
    case ForLeaveStarting => state != Starting
  }

  /** Step `a` is the last step of the waiter's before state `i`. */
  predicate LastOwnStep(run: seq<Cell>, actions: seq<Action>, a: nat, i: nat, id: WaiterId)
    requires |run| == |actions| + 1 && i < |run|
  {
    && a < i && actions[a] == StepWaiter(id) && id in run[a].waiters
    && forall n :: a < n < i ==> actions[n] != StepWaiter(id)
  }

  /** What the waiter's last step was, by where it stands now. */
  predicate AnswerOf(before: Waiter, state: LifecycleState, wakers: seq<TaskId>, at: WaiterStep) {
    match at
    case Unpolled => false
    case ToRegister => (before.at == Unpolled || before.at == Pending) && !Holds(before.waiting, state)
    case ToRecheck => before.at == ToRegister && before.task in wakers
    case Pending => before.at == ToRecheck && !Holds(before.waiting, state)
    case Ready(observed) =>
      && before.at != ToRegister && !before.at.Ready?
      && Holds(before.waiting, state) && observed == state
  }

  predicate AnsweredAt(run: seq<Cell>, actions: seq<Action>, a: nat, i: nat, id: WaiterId)
    requires |run| == |actions| + 1 && i < |run| && id in run[i].waiters
  {
    && LastOwnStep(run, actions, a, i, id)
    && AnswerOf(run[a].waiters[id], run[a].state, run[a + 1].wakers, run[i].waiters[id].at)
  }

  lemma StepAnswers(c: Cell, a: Action, id: WaiterId)
    requires Enabled(c, a) && id in c.waiters && id in Next(c, a).waiters
    ensures a == StepWaiter(id) ==>
      AnswerOf(c.waiters[id], c.state, Next(c, a).wakers, Next(c, a).waiters[id].at)
    ensures a != StepWaiter(id) ==> Next(c, a).waiters[id].at == c.waiters[id].at
  {
  }

  /** A poll is a load, a registration and a second load, in that order: it is pending
      exactly if the condition failed at both loads, and ready with the state it observed
      as soon as a load finds that it holds. */
  lemma {:induction false} PollProtocol(run: seq<Cell>, actions: seq<Action>, i: nat, id: WaiterId)
    requires IsRun(run, actions) && i < |run| && id in run[i].waiters
    ensures run[i].waiters[id].at == Unpolled || exists a: nat :: AnsweredAt(run, actions, a, i, id)
  {
    hide Next, AnswerOf;
    if i > 0 {
      var c, a, before := run[i - 1], actions[i - 1], i - 1;
      if id in c.waiters {
        StepAnswers(c, a, id);
        if a == StepWaiter(id) {
          assert AnsweredAt(run, actions, before, i, id);
        } else {
          PollProtocol(run, actions, before, id);
          if run[before].waiters[id].at != Unpolled {
            var last: nat :| AnsweredAt(run, actions, last, before, id);
            assert AnsweredAt(run, actions, last, i, id);
          }
        }
      } else {
        WokenStep(c, a, id);
      }
    }
  }

  /** A drop removes the waiter, and only a creation makes one. */
  lemma WaitersChange(c: Cell, a: Action, id: WaiterId)
    requires Enabled(c, a)
    ensures id in Next(c, a).waiters
      <==> (id in c.waiters && a != DropWaiter(id)) || (a.NewWaiter? && a.waiter == id)
  {
  }
}
