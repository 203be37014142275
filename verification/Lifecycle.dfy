/** The lifecycle cell under concurrency: any number of transition calls and any
    number of waiting futures, one step per atomic operation (a compare-exchange,
    a store, a load, or one lock section of the waker set). */
module Lifecycle {

  datatype LifecycleState = Starting | Running | Draining | Stopping | Dead

  function Rank(state: LifecycleState): nat {
    match state
    case Starting => 0
    case Running => 1
    case Draining => 2
    case Stopping => 3
    case Dead => 4
  }

  type CallId = nat
  type WaiterId = nat
  type TaskId = nat

  // ------------------------------------------------------------ transition calls

  datatype Kind = ToRunning | ToDraining | ToStopping | ToDead

  /** Where a transition call stands. */
  datatype CallStep =
    | FirstStep
    | SecondCas
    | TakeWakers
    | Waking(rest: seq<TaskId>)
    | Returned

  /** `raced` is a history: a running transition took effect between the two
      compare-exchanges of this call. */
  datatype Call = Call(kind: Kind, at: CallStep, raced: bool)

  /** A compare-exchange on the state. */
  function Cas(state: LifecycleState, from: LifecycleState, to: LifecycleState): LifecycleState {
    if state == from then to else state
  }

  // --------------------------------------------------------------------- waiters

  datatype Waiting = ForTerminal | ForLeaveStarting

  predicate Satisfied(waiting: Waiting, state: LifecycleState) {
    match waiting
    case ForTerminal => state == Dead
    case ForLeaveStarting => state != Starting
  }

  /** Where a poll of a waiting future stands; `Pending` and `Ready` are the
      results of its last poll, the latter with the state it observed. */
  datatype WaiterStep = Unpolled | ToRegister | ToRecheck | Pending | Ready(observed: LifecycleState)

  /** `woken`: the task was woken since this future's last poll began. */
  datatype Waiter = Waiter(task: TaskId, waiting: Waiting, at: WaiterStep, woken: bool)

  datatype Cell = Cell(
    state: LifecycleState,
    wakers: seq<TaskId>,
    calls: map<CallId, Call>,
    waiters: map<WaiterId, Waiter>)

  // ----------------------------------------------------------------------- steps

  datatype Action =
    | StartCall(call: CallId, kind: Kind)
    | StepCall(call: CallId)
    | NewWaiter(waiter: WaiterId, task: TaskId, waiting: Waiting)
    | StepWaiter(waiter: WaiterId)
    | DropWaiter(waiter: WaiterId)

  predicate Enabled(c: Cell, a: Action) {
    match a
    case StartCall(id, _) => id !in c.calls
    case StepCall(id) => id in c.calls && c.calls[id].at != Returned
    case NewWaiter(id, _, _) => id !in c.waiters
    case StepWaiter(id) => id in c.waiters && !c.waiters[id].at.Ready?
    case DropWaiter(id) => id in c.waiters
  }

  /** A running transition that takes effect races every draining call that is
      between its two compare-exchanges. */
  function MarkRaced(calls: map<CallId, Call>): map<CallId, Call> {
    map id | id in calls ::
      if calls[id].kind == ToDraining && calls[id].at == SecondCas then calls[id].(raced := true) else calls[id]
  }

  function WakeTask(waiters: map<WaiterId, Waiter>, task: TaskId): map<WaiterId, Waiter> {
    map id | id in waiters :: if waiters[id].task == task then waiters[id].(woken := true) else waiters[id]
  }

  function At(c: Cell, id: CallId, step: CallStep): map<CallId, Call>
    requires id in c.calls
  {
    c.calls[id := c.calls[id].(at := step)]
  }

  /** The first atomic operation of a transition. */
  function First(c: Cell, id: CallId): Cell
    requires id in c.calls
  {
    match c.calls[id].kind
    case ToRunning =>
      if c.state == Starting
      then c.(state := Running, calls := MarkRaced(At(c, id, TakeWakers)))
      else c.(calls := At(c, id, TakeWakers))
    case ToDraining =>
      c.(state := Cas(c.state, Running, Draining),
         calls := At(c, id, if c.state == Running then TakeWakers else SecondCas))
    case ToStopping =>
      c.(state := Cas(c.state, Running, Stopping),
         calls := At(c, id, if c.state == Running then Returned else SecondCas))
    case ToDead => c.(state := Dead, calls := At(c, id, TakeWakers))
  }

  /** The second compare-exchange of `transition_draining` and `transition_stopping`. */
  function Second(c: Cell, id: CallId): Cell
    requires id in c.calls
  {
    if c.calls[id].kind == ToDraining then
      c.(state := Cas(c.state, Starting, Draining),
         calls := At(c, id, if c.state == Starting then TakeWakers else Returned))
    else
      c.(state := Cas(c.state, Draining, Stopping), calls := At(c, id, Returned))
  }

  function Step(c: Cell, id: CallId): Cell
    requires id in c.calls
  {
    match c.calls[id].at
    case FirstStep => First(c, id)
    case SecondCas => Second(c, id)
    case TakeWakers => c.(wakers := [], calls := At(c, id, Waking(c.wakers)))
    case Waking(rest) =>
      if rest == [] then c.(calls := At(c, id, Returned))
      else c.(calls := At(c, id, Waking(rest[1..])), waiters := WakeTask(c.waiters, rest[0]))
    case Returned => c
  }

  /** One atomic operation of a poll: load, register, load again. */
  function PollStep(c: Cell, id: WaiterId): Cell
    requires id in c.waiters
  {
    var w := c.waiters[id];
    match w.at
    case ToRegister =>
      c.(wakers := if w.task in c.wakers then c.wakers else c.wakers + [w.task],
         waiters := c.waiters[id := w.(at := ToRecheck)])
    case ToRecheck =>
      c.(waiters := c.waiters[id := w.(at := if Satisfied(w.waiting, c.state) then Ready(c.state) else Pending)])
    case Ready(_) => c
    case _ =>
      c.(waiters := c.waiters[id := w.(at := if Satisfied(w.waiting, c.state) then Ready(c.state) else ToRegister,
                                       woken := false)])
  }

  function Next(c: Cell, a: Action): Cell
    requires Enabled(c, a)
  {
    match a
    case StartCall(id, kind) => c.(calls := c.calls[id := Call(kind, FirstStep, false)])
    case StepCall(id) => Step(c, id)
    case NewWaiter(id, task, waiting) => c.(waiters := c.waiters[id := Waiter(task, waiting, Unpolled, false)])
    case StepWaiter(id) => PollStep(c, id)
    case DropWaiter(id) => c.(waiters := c.waiters - {id})
  }

  const FRESH: Cell := Cell(Starting, [], map[], map[])

  ghost predicate IsRun(run: seq<Cell>, actions: seq<Action>) {
    && |run| == |actions| + 1 && run[0] == FRESH
    && forall i :: 0 <= i < |actions| ==> Enabled(run[i], actions[i]) && run[i + 1] == Next(run[i], actions[i])
  }

  // -------------------------------------------------------------- lifecycle order

  lemma StepNeverGoesBack(c: Cell, a: Action)
    requires Enabled(c, a)
    ensures Rank(c.state) <= Rank(Next(c, a).state)
  {
  }

  /** Under every interleaving the state never moves to an earlier stage, so Dead is final. */
  lemma {:induction false} LifecycleOrder(run: seq<Cell>, actions: seq<Action>, i: nat, j: nat)
    requires IsRun(run, actions) && i <= j < |run|
    ensures Rank(run[i].state) <= Rank(run[j].state)
    ensures run[i].state == Dead ==> run[j].state == Dead
  {
    hide Next, Enabled;
    if i < j {
      LifecycleOrder(run, actions, i, j - 1);
      StepNeverGoesBack(run[j - 1], actions[j - 1]);
    }
  }

  // -------------------------------------------------------------- no lost wake-up

  predicate HeldBy(call: Call, task: TaskId) {
    call.at.Waking? && task in call.at.rest
  }

  /** Some wake_all still in progress holds the task's waker. */
  ghost predicate Held(c: Cell, task: TaskId) {
    exists id :: id in c.calls && HeldBy(c.calls[id], task)
  }

  /** Some transition has taken effect and not yet taken the waker set. */
  ghost predicate TakePending(c: Cell) {
    exists id :: id in c.calls && c.calls[id].at == TakeWakers
  }

  /** A registered waiter's waker is woken, held, or still in the set. */
  ghost predicate Tracked(c: Cell, w: Waiter) {
    w.at == ToRecheck || w.at == Pending ==> w.woken || Held(c, w.task) || w.task in c.wakers
  }

  /** A waiter whose condition holds while its last poll returned Pending. */
  ghost predicate NotLost(c: Cell, w: Waiter) {
    w.at == Pending && Satisfied(w.waiting, c.state) ==>
      w.woken || Held(c, w.task) || (w.task in c.wakers && TakePending(c))
  }

  ghost predicate WaitersOk(c: Cell) {
    forall id :: id in c.waiters ==> Tracked(c, c.waiters[id]) && NotLost(c, c.waiters[id])
  }

  /** Calls that keep what they hold keep every waiter's standing. */
  lemma KeepsStanding(c: Cell, c': Cell, w: Waiter, id: CallId)
    requires Tracked(c, w) && NotLost(c, w) && id in c.calls && id in c'.calls
    requires c'.wakers == c.wakers && c.calls.Keys <= c'.calls.Keys
    requires forall other :: other in c.calls && other != id ==> c'.calls[other].at == c.calls[other].at
    requires !c.calls[id].at.Waking? && c.calls[id].at != TakeWakers
    requires Satisfied(w.waiting, c'.state) ==> Satisfied(w.waiting, c.state) || c'.calls[id].at == TakeWakers
    ensures Tracked(c', w) && NotLost(c', w)
  {
    if Held(c, w.task) {
      var holder :| holder in c.calls && HeldBy(c.calls[holder], w.task);
      assert HeldBy(c'.calls[holder], w.task);
    }
    if TakePending(c) {
      var taker :| taker in c.calls && c.calls[taker].at == TakeWakers;
      assert c'.calls[taker].at == TakeWakers;
    }
  }

  lemma StateStepKeeps(c: Cell, id: CallId)
    requires WaitersOk(c) && id in c.calls && (c.calls[id].at == FirstStep || c.calls[id].at == SecondCas)
    ensures WaitersOk(Step(c, id))
  {
    hide Tracked, NotLost;
    var c' := Step(c, id);
    forall w | w in c'.waiters ensures Tracked(c', c'.waiters[w]) && NotLost(c', c'.waiters[w]) {
      KeepsStanding(c, c', c.waiters[w], id);
    }
  }

  lemma TakeStepKeeps(c: Cell, id: CallId)
    requires WaitersOk(c) && id in c.calls && c.calls[id].at == TakeWakers
    ensures WaitersOk(Step(c, id))
  {
    var c' := Step(c, id);
    assert forall task :: task in c.wakers ==> HeldBy(c'.calls[id], task);
    forall w | w in c'.waiters ensures Tracked(c', c'.waiters[w]) && NotLost(c', c'.waiters[w]) {
      TakeKeeps(c, id, c.waiters[w]);
    }
  }

  lemma TakeKeeps(c: Cell, id: CallId, w: Waiter)
    requires Tracked(c, w) && id in c.calls && c.calls[id].at == TakeWakers
    ensures Tracked(Step(c, id), w) && NotLost(Step(c, id), w)
  {
    var c' := Step(c, id);
    if Held(c, w.task) {
      var holder :| holder in c.calls && HeldBy(c.calls[holder], w.task);
      assert HeldBy(c'.calls[holder], w.task);
    } else if w.task in c.wakers {
      assert HeldBy(c'.calls[id], w.task);
    }
  }

  lemma WakeStepKeeps(c: Cell, id: CallId)
    requires WaitersOk(c) && id in c.calls && c.calls[id].at.Waking?
    ensures WaitersOk(Step(c, id))
  {
    hide Satisfied;
    var c' := Step(c, id);
    forall w | w in c'.waiters ensures Tracked(c', c'.waiters[w]) && NotLost(c', c'.waiters[w]) {
      WakeKeeps(c, id, w);
    }
  }

  lemma WakeKeeps(c: Cell, id: CallId, w: WaiterId)
    requires WaitersOk(c) && id in c.calls && c.calls[id].at.Waking? && w in c.waiters
    ensures var c' := Step(c, id); w in c'.waiters && Tracked(c', c'.waiters[w]) && NotLost(c', c'.waiters[w])
  {
    hide Satisfied;
    var c' := Step(c, id);
    var waiter := c.waiters[w];
    assert Tracked(c, waiter) && NotLost(c, waiter);
    if Held(c, waiter.task) {
      var holder :| holder in c.calls && HeldBy(c.calls[holder], waiter.task);
      if holder != id || waiter.task in c.calls[id].at.rest[1..] {
        assert HeldBy(c'.calls[holder], waiter.task);
      } else {
        assert waiter.task == c.calls[id].at.rest[0];
      }
    }
    if TakePending(c) {
      var taker :| taker in c.calls && c.calls[taker].at == TakeWakers;
      assert c'.calls[taker].at == TakeWakers;
    }
  }

  lemma PollKeeps(c: Cell, id: WaiterId)
    requires WaitersOk(c) && id in c.waiters && !c.waiters[id].at.Ready?
    ensures WaitersOk(PollStep(c, id))
  {
    var c' := PollStep(c, id);
    assert forall task :: Held(c, task) <==> Held(c', task);
    assert TakePending(c) <==> TakePending(c');
    forall w | w in c'.waiters ensures Tracked(c', c'.waiters[w]) && NotLost(c', c'.waiters[w]) {
      assert Tracked(c, c.waiters[w]) && NotLost(c, c.waiters[w]);
    }
  }

  lemma EnvironmentKeeps(c: Cell, a: Action)
    requires WaitersOk(c) && Enabled(c, a) && !a.StepCall? && !a.StepWaiter?
    ensures WaitersOk(Next(c, a))
  {
    var c' := Next(c, a);
    forall w | w in c'.waiters ensures Tracked(c', c'.waiters[w]) && NotLost(c', c'.waiters[w]) {
      if w in c.waiters {
        var waiter := c.waiters[w];
        assert Tracked(c, waiter) && NotLost(c, waiter);
        if Held(c, waiter.task) {
          var holder :| holder in c.calls && HeldBy(c.calls[holder], waiter.task);
          assert HeldBy(c'.calls[holder], waiter.task);
        }
        if TakePending(c) {
          var taker :| taker in c.calls && c.calls[taker].at == TakeWakers;
          assert c'.calls[taker].at == TakeWakers;
        }
      }
    }
  }

  lemma StepKeepsWaiters(c: Cell, a: Action)
    requires WaitersOk(c) && Enabled(c, a)
    ensures WaitersOk(Next(c, a))
  {
    hide WaitersOk, Step, PollStep;
    match a
    case StepCall(id) =>
      if c.calls[id].at == FirstStep || c.calls[id].at == SecondCas {
        StateStepKeeps(c, id);
      } else if c.calls[id].at == TakeWakers {
        TakeStepKeeps(c, id);
      } else {
        WakeStepKeeps(c, id);
      }
    case StepWaiter(id) => PollKeeps(c, id);
    case _ => EnvironmentKeeps(c, a);
  }

  lemma {:induction false} WaitersOkInRuns(run: seq<Cell>, actions: seq<Action>, i: nat)
    requires IsRun(run, actions) && i < |run|
    ensures WaitersOk(run[i])
  {
    hide Next, Enabled, Tracked, NotLost;
    if i > 0 {
      WaitersOkInRuns(run, actions, i - 1);
      StepKeepsWaiters(run[i - 1], actions[i - 1]);
    }
  }

  /** In every state of every run, a waiter whose condition holds and whose last
      poll returned Pending has been woken, is held by a wake_all in progress, or
      is in the set while a transition is about to take the set. */
  lemma NoLostWakeUp(run: seq<Cell>, actions: seq<Action>, i: nat, w: WaiterId)
    requires IsRun(run, actions) && i < |run| && w in run[i].waiters
    requires run[i].waiters[w].at == Pending && Satisfied(run[i].waiters[w].waiting, run[i].state)
    ensures var c := run[i];
      c.waiters[w].woken || Held(c, c.waiters[w].task) || (c.waiters[w].task in c.wakers && TakePending(c))
  {
    WaitersOkInRuns(run, actions, i);
    assert NotLost(run[i], run[i].waiters[w]);
  }

  /** Once every transition call has returned, no satisfied waiter is left asleep. */
  lemma QuiescentMeansWoken(run: seq<Cell>, actions: seq<Action>, i: nat, w: WaiterId)
    requires IsRun(run, actions) && i < |run| && w in run[i].waiters
    requires forall id :: id in run[i].calls ==> run[i].calls[id].at == Returned
    requires run[i].waiters[w].at == Pending && Satisfied(run[i].waiters[w].waiting, run[i].state)
    ensures run[i].waiters[w].woken
  {
    NoLostWakeUp(run, actions, i, w);
  }

  // ------------------------------------------------------------ draining requests

  /** What is known of a draining call at each of its points. */
  predicate DrainOk(call: Call, state: LifecycleState) {
    call.kind == ToDraining ==>
      match call.at
      case FirstStep => !call.raced
      case SecondCas => (state == Running ==> call.raced) && (call.raced ==> state != Starting)
      case Returned => Rank(state) >= Rank(Draining) || call.raced
      case _ => Rank(state) >= Rank(Draining)
  }

  ghost predicate DrainsOk(c: Cell) {
    forall id :: id in c.calls ==> DrainOk(c.calls[id], c.state)
  }

  lemma OwnStepKeepsDrain(c: Cell, id: CallId)
    requires id in c.calls && DrainOk(c.calls[id], c.state)
    ensures id in Step(c, id).calls && DrainOk(Step(c, id).calls[id], Step(c, id).state)
  {
  }

  lemma OtherStepKeepsDrain(c: Cell, a: Action, id: CallId)
    requires Enabled(c, a) && id in c.calls && DrainOk(c.calls[id], c.state) && a != StepCall(id)
    ensures id in Next(c, a).calls && DrainOk(Next(c, a).calls[id], Next(c, a).state)
  {
  }

  lemma StepKeepsDrains(c: Cell, a: Action)
    requires DrainsOk(c) && Enabled(c, a)
    ensures DrainsOk(Next(c, a))
  {
    hide Step, PollStep;
    var c' := Next(c, a);
    forall id | id in c'.calls ensures DrainOk(c'.calls[id], c'.state) {
      if a == StepCall(id) {
        OwnStepKeepsDrain(c, id);
      } else if id in c.calls {
        OtherStepKeepsDrain(c, a, id);
      } else if !a.StartCall? {
        StepMakesNoCall(c, a);
      }
    }
  }

  lemma StepMakesNoCall(c: Cell, a: Action)
    requires Enabled(c, a) && !a.StartCall?
    ensures Next(c, a).calls.Keys == c.calls.Keys
  {
  }

  lemma {:induction false} DrainsOkInRuns(run: seq<Cell>, actions: seq<Action>, i: nat)
    requires IsRun(run, actions) && i < |run|
    ensures DrainsOk(run[i])
  {
    hide Next, Enabled, DrainOk;
    if i > 0 {
      DrainsOkInRuns(run, actions, i - 1);
      StepKeepsDrains(run[i - 1], actions[i - 1]);
    }
  }

  predicate InProgress(c: Cell, id: CallId) {
    id in c.calls && c.calls[id].at != Returned
  }

  /** No running transition is in progress while the call is. */
  ghost predicate NoOverlap(c: Cell, id: CallId) {
    InProgress(c, id) ==> forall other :: InProgress(c, other) ==> c.calls[other].kind != ToRunning
  }

  lemma {:induction false} NeverRaced(run: seq<Cell>, actions: seq<Action>, i: nat, id: CallId)
    requires IsRun(run, actions) && i < |run| && id in run[i].calls
    requires forall k :: 0 <= k <= i ==> NoOverlap(run[k], id)
    ensures !run[i].calls[id].raced
  {
    if i > 0 {
      var c, a := run[i - 1], actions[i - 1];
      if id in c.calls {
        NeverRaced(run, actions, i - 1, id);
        StepDoesNotRace(c, a, id);
      }
    }
  }

  lemma StepDoesNotRace(c: Cell, a: Action, id: CallId)
    requires Enabled(c, a) && id in c.calls && !c.calls[id].raced && NoOverlap(c, id)
    ensures id in Next(c, a).calls && !Next(c, a).calls[id].raced
  {
    if a.StepCall? {
      assert InProgress(c, a.call);
    }
  }

  /** A draining request that no running transition overlaps leaves the state at
      Draining or past it, from the moment it has taken effect on. */
  lemma DrainingHolds(run: seq<Cell>, actions: seq<Action>, i: nat, id: CallId)
    requires IsRun(run, actions) && i < |run| && id in run[i].calls
    requires run[i].calls[id].kind == ToDraining && run[i].calls[id].at == Returned
    requires forall k :: 0 <= k <= i ==> NoOverlap(run[k], id)
    ensures Rank(run[i].state) >= Rank(Draining)
  {
    hide Next, Enabled, NoOverlap;
    NeverRaced(run, actions, i, id);
    DrainsOkInRuns(run, actions, i);
    assert DrainOk(run[i].calls[id], run[i].state);
  }

  /** The step is the call's second exchange and finds the state at Running. */
  predicate LosesRequest(c: Cell, a: Action, id: CallId) {
    a == StepCall(id) && id in c.calls && c.calls[id].kind == ToDraining && c.calls[id].at == SecondCas
      && c.state == Running
  }

  /** Exactly when a draining call returns with the request lost, whatever path it took:
      if and only if its last step was a second exchange that found Running, if and only
      if a running transition took effect between its two exchanges and the state was
      still Running. */
  lemma DrainLostExactly(run: seq<Cell>, actions: seq<Action>, i: nat, id: CallId)
    requires IsRun(run, actions) && i < |actions| && actions[i] == StepCall(id)
    requires id in run[i].calls && run[i].calls[id].kind == ToDraining
    requires id in run[i + 1].calls && run[i + 1].calls[id].at == Returned
    ensures Rank(run[i + 1].state) < Rank(Draining) <==> LosesRequest(run[i], actions[i], id)
    ensures Rank(run[i + 1].state) < Rank(Draining) <==> run[i].calls[id].raced && run[i].state == Running
  {
    DrainsOkInRuns(run, actions, i);
    assert DrainOk(run[i].calls[id], run[i].state);
  }

  /** Whenever a draining call has returned and the state is below Draining, its second
      exchange had lost the request. */
  lemma {:induction false} BelowDrainingMeansLost(run: seq<Cell>, actions: seq<Action>, j: nat, id: CallId)
    requires IsRun(run, actions) && j < |run| && id in run[j].calls
    requires run[j].calls[id].kind == ToDraining && run[j].calls[id].at == Returned
      && Rank(run[j].state) < Rank(Draining)
    ensures exists i :: 0 <= i < j && LosesRequest(run[i], actions[i], id)
  {
    var c, a := run[j - 1], actions[j - 1];
    StepNeverGoesBack(c, a);
    KindStays(c, a, id);
    if id in c.calls && c.calls[id].at == Returned {
      hide Next, Enabled, LosesRequest;
      BelowDrainingMeansLost(run, actions, j - 1, id);
    } else {
      DrainLostExactly(run, actions, j - 1, id);
    }
  }

  lemma KindStays(c: Cell, a: Action, id: CallId)
    requires Enabled(c, a) && id in Next(c, a).calls && Next(c, a).calls[id].at == Returned
    ensures id in c.calls && Next(c, a).calls[id].kind == c.calls[id].kind
    ensures c.calls[id].at == Returned || a == StepCall(id)
  {
  }

  /** A draining call returned and the state is still at Running. */
  predicate LostRequest(c: Cell, id: CallId) {
    c.state == Running && id in c.calls && c.calls[id].kind == ToDraining && c.calls[id].at == Returned
  }

  /** A stop request can be lost: a running transition slips between its two
      compare-exchanges, both of which then fail, and the state stays at Running. */
  lemma OverlappedDrainIsLost()
    ensures exists run: seq<Cell>, actions: seq<Action> :: IsRun(run, actions) && LostRequest(run[|run| - 1], 1)
  {
    var actions := [StartCall(0, ToRunning), StartCall(1, ToDraining), StepCall(1), StepCall(0), StepCall(1)];
    var c1 := Next(FRESH, actions[0]);
    var c2 := Next(c1, actions[1]);
    var c3 := Next(c2, actions[2]);
    assert c3.calls[1].at == SecondCas && c3.calls[0].at == FirstStep && c3.state == Starting;
    var c4 := Next(c3, actions[3]);
    assert c4.state == Running && c4.calls[1].at == SecondCas && c4.calls[1].kind == ToDraining;
    var c5 := Next(c4, actions[4]);
    var run := [FRESH, c1, c2, c3, c4, c5];
    assert IsRun(run, actions);
  }
}
