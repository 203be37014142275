/** The sequential and the concurrent run loop with the default mailbox driver,
    one step per poll, with senders, stop requests, failing and panicking handlers
    and task aborts interleaving. */
module RunLoop {

  type Message = nat

  datatype Mode = Sequential | Concurrent

  /** Where the loop stands. `Pulling(first)` awaits the next dispatch; the driver
      looks at the stop request on the first poll of a pull only. */
  datatype Pc =
    | Top
    | Pulling(first: bool)
    | Driving
    | AfterLoop
    | DrainingWork
    | DropWork
    | StopHook
    | HookRunning
    | Done
    | AbortedTask

  /** The mailbox is the set of messages it still holds: lanes and priorities only
      decide which one a pull yields. `borrowed` is the unguarded lock's flag, which only
      the sequential loop may use, and `holding` the handlers with a live guard. The
      fields from `accepted` on are histories. */
  datatype World = World(
    mode: Mode,
    pc: Pc,
    compromised: bool,
    stopRequested: bool,
    closed: bool,
    queued: set<Message>,
    inFlight: set<Message>,
    borrowed: bool,
    holding: set<Message>,
    accepted: set<Message>,
    rejected: set<Message>,
    pulled: set<Message>,
    completed: set<Message>,
    dropped: set<Message>,
    hooks: nat)

  predicate Initial(w: World) {
    && w.pc == Top && !w.compromised && w.hooks == 0 && w.queued == w.accepted
    && w.inFlight == w.pulled == w.completed == w.dropped == w.holding == {} && w.accepted !! w.rejected
    && !w.borrowed
  }

  datatype Action =
    // the loop task
    | Check
    | PollPull(message: Message, dispatchPanics: bool)
    | HandlerEnds(message: Message, panics: bool)
    | Proceed
    // inside a poll of a handler
    | HandlerFails(message: Message)
    | HandlerStops(message: Message)
    | HandlerAcquires(message: Message)
    // outside the task
    | Send(message: Message)
    | SendersGone
    | Abort

  predicate TaskStep(a: Action) {
    a.Check? || a.PollPull? || a.HandlerEnds? || a.Proceed?
  }

  /** Handlers are polled only while the loop selects on them, drains or drives them. */
  predicate PollsHandlers(w: World) {
    w.pc.Pulling? || w.pc.DrainingWork? || w.pc.Driving?
  }

  /** The mailbox is closed once the first poll of a pull sees the stop request. */
  predicate ClosedAfterCheck(w: World) {
    w.closed || (w.pc == Pulling(true) && w.stopRequested)
  }

  predicate Enabled(w: World, a: Action) {
    match a
    case Check => w.pc == Top
    case PollPull(m, _) => w.pc.Pulling? && (w.queued != {} ==> m in w.queued)
    case HandlerEnds(m, _) => PollsHandlers(w) && m in w.inFlight
    case Proceed =>
      || w.pc.AfterLoop? || w.pc.DropWork? || w.pc.StopHook? || w.pc.HookRunning?
      || (w.pc.DrainingWork? && w.inFlight == {})
    case HandlerFails(m) => PollsHandlers(w) && m in w.inFlight
    case HandlerStops(m) => PollsHandlers(w) && m in w.inFlight
    case HandlerAcquires(m) => w.pc.Driving? && w.mode == Sequential && m in w.inFlight && m !in w.holding
    case Send(m) => m !in w.accepted && m !in w.rejected
    case SendersGone => true
    case Abort => PollsHandlers(w) || w.pc.HookRunning?
  }

  /** One poll of `next_dispatch` with the default driver. */
  function Pull(w: World, m: Message, dispatchPanics: bool): World {
    var closed := ClosedAfterCheck(w);
    if w.queued != {} then
      var taken := w.(closed := closed, queued := w.queued - {m}, pulled := w.pulled + {m});
      if dispatchPanics then taken.(dropped := w.dropped + {m}, compromised := true, pc := AfterLoop)
      else taken.(inFlight := w.inFlight + {m}, pc := if w.mode == Concurrent then Top else Driving)
    else w.(closed := closed, pc := if closed then AfterLoop else Pulling(false))
  }

  /** The end of a handler drops its guard, which clears the flag. */
  function Released(w: World, m: Message): World {
    if m in w.holding then w.(borrowed := false, holding := w.holding - {m}) else w
  }

  /** `swap(true)`: finding the flag already set is the overlap panic. */
  function Acquired(w: World, m: Message): World {
    if w.borrowed then Ended(w, m, true) else w.(borrowed := true, holding := w.holding + {m})
  }

  /** A handler finished or panicked; while pulling, the pending pull is cancelled. */
  function Ended(v: World, m: Message, panics: bool): World {
    var w := Released(v, m);
    if panics then
      w.(inFlight := w.inFlight - {m}, dropped := w.dropped + {m}, compromised := true,
         pc := if w.pc.DrainingWork? then DropWork else AfterLoop)
    else
      w.(inFlight := w.inFlight - {m}, completed := w.completed + {m},
         pc := if !w.pc.DrainingWork? then Top else if w.compromised then DropWork else DrainingWork)
  }

  function After(w: World): World {
    match w.pc
    case AfterLoop =>
      w.(pc := if w.mode == Sequential then StopHook else if w.compromised then DropWork else DrainingWork)
    case DrainingWork => w.(pc := DropWork)
    case DropWork => w.(dropped := w.dropped + w.inFlight, inFlight := {}, pc := StopHook)
    case StopHook => w.(hooks := w.hooks + 1, pc := HookRunning)
    case HookRunning => w.(pc := Done)
    case _ => w
  }

  function Next(w: World, a: Action): World
    requires Enabled(w, a)
  {
    match a
    case Check => w.(pc := if w.compromised then AfterLoop else Pulling(true))
    case PollPull(m, dispatchPanics) => Pull(w, m, dispatchPanics)
    case HandlerEnds(m, panics) => Ended(w, m, panics)
    case Proceed => After(w)
    case HandlerFails(_) => w.(compromised := true)
    case HandlerStops(_) => w.(stopRequested := true)
    case HandlerAcquires(m) => Acquired(w, m)
    case Send(m) =>
      if w.closed then w.(rejected := w.rejected + {m})
      else w.(queued := w.queued + {m}, accepted := w.accepted + {m})
    case SendersGone => w.(closed := true)
    case Abort =>
      w.(dropped := w.dropped + w.inFlight, inFlight := {}, borrowed := w.borrowed && w.holding == {}, holding := {},
         pc := AbortedTask)
  }

  ghost predicate IsRun(run: seq<World>, actions: seq<Action>) {
    && |run| == |actions| + 1 && Initial(run[0])
    && forall i :: 0 <= i < |actions| ==> Enabled(run[i], actions[i]) && run[i + 1] == Next(run[i], actions[i])
  }

  // ---------------------------------------------------------------- the invariant

  /** Every accepted message is in exactly one place. */
  ghost predicate Conserved(w: World) {
    && w.accepted == w.queued + w.pulled && w.queued !! w.pulled
    && w.pulled == w.completed + w.inFlight + w.dropped
    && w.completed !! w.inFlight && w.completed !! w.dropped && w.inFlight !! w.dropped
    && w.accepted !! w.rejected
  }

  predicate Quiet(pc: Pc) {
    pc.StopHook? || pc.HookRunning? || pc.Done? || pc.AbortedTask?
  }

  predicate PastLoop(pc: Pc) {
    pc.AfterLoop? || pc.DrainingWork? || pc.DropWork? || pc.StopHook? || pc.HookRunning? || pc.Done?
  }

  ghost predicate ShapeOk(w: World) {
    && (Quiet(w.pc) ==> w.inFlight == {})
    && (w.pc == DropWork ==> w.compromised || w.inFlight == {})
    && (w.dropped != {} ==> w.compromised || w.pc == AbortedTask)
    && (PastLoop(w.pc) && !w.compromised ==> w.closed && w.queued == {})
    && (w.hooks == if w.pc.HookRunning? || w.pc.Done? then 1 else if w.pc.AbortedTask? then w.hooks else 0)
    && w.hooks <= 1
    && (w.pc == Pulling(false) && w.stopRequested && !w.closed ==> w.inFlight != {})
  }

  /** The sequential loop has at most the one dispatch it is driving. */
  ghost predicate SerialOk(w: World) {
    if w.mode == Concurrent then !w.pc.Driving? && w.holding == {} else
      && w.holding <= w.inFlight && (w.borrowed <==> w.holding != {})
      && !(w.pc.DrainingWork? || w.pc.DropWork?)
      && (w.pc.Driving? ==> exists m :: w.inFlight == {m})
      && (!w.pc.Driving? ==> w.inFlight == {})
  }

  lemma PullConserves(w: World, m: Message, dispatchPanics: bool)
    requires Conserved(w) && Enabled(w, PollPull(m, dispatchPanics))
    ensures Conserved(Pull(w, m, dispatchPanics))
  {
  }

  lemma EndConserves(w: World, m: Message, panics: bool)
    requires Conserved(w) && m in w.inFlight
    ensures Conserved(Ended(w, m, panics))
  {
  }

  lemma StepConserves(w: World, a: Action)
    requires Conserved(w) && Enabled(w, a)
    ensures Conserved(Next(w, a))
  {
    hide Pull, Ended;
    match a
    case PollPull(m, dispatchPanics) => PullConserves(w, m, dispatchPanics);
    case HandlerEnds(m, panics) => EndConserves(w, m, panics);
    case HandlerAcquires(m) => EndConserves(w, m, true);
    case _ =>
  }

  lemma EndKeepsShape(w: World, m: Message, panics: bool)
    requires ShapeOk(w) && PollsHandlers(w) && m in w.inFlight
    ensures ShapeOk(Ended(w, m, panics))
  {
  }

  lemma StepKeepsShape(w: World, a: Action)
    requires ShapeOk(w) && SerialOk(w) && Enabled(w, a)
    ensures ShapeOk(Next(w, a))
  {
    hide Ended;
    match a
    case HandlerEnds(m, panics) => EndKeepsShape(w, m, panics);
    case HandlerAcquires(m) => EndKeepsShape(w, m, true);
    case _ =>
  }

  lemma StepKeepsSerial(w: World, a: Action)
    requires SerialOk(w) && Enabled(w, a)
    ensures SerialOk(Next(w, a))
  {
    if w.mode == Sequential && a.PollPull? && w.queued != {} {
      assert {} + {a.message} == {a.message};
      assert Next(w, a).pc.Driving? ==> Next(w, a).inFlight == {a.message};
    }
    if w.mode == Sequential && (a.HandlerEnds? || a.HandlerAcquires?) {
      assert w.inFlight - {a.message} == {};
    }
  }

  ghost predicate Inv(w: World) {
    Conserved(w) && ShapeOk(w) && SerialOk(w)
  }

  lemma {:induction false} InvInRuns(run: seq<World>, actions: seq<Action>, i: nat)
    requires IsRun(run, actions) && i < |run|
    ensures Inv(run[i])
  {
    hide Next, Enabled;
    if i > 0 {
      hide Conserved, ShapeOk, SerialOk, Initial;
      InvInRuns(run, actions, i - 1);
      StepConserves(run[i - 1], actions[i - 1]);
      StepKeepsShape(run[i - 1], actions[i - 1]);
      StepKeepsSerial(run[i - 1], actions[i - 1]);
    }
  }

  // --------------------------------------------------------------- quiescent stop

  /** In every run: each message taken from the mailbox is completed, in flight or
      dropped, and each accepted one still queued or taken - so a cancelled pull
      loses none; the stop hook runs at most once and only with nothing in flight;
      and when it runs uncompromised, every accepted message was completed. */
  lemma QuiescentStop(run: seq<World>, actions: seq<Action>, i: nat)
    requires IsRun(run, actions) && i < |run|
    ensures var w := run[i];
      && w.accepted == w.queued + w.pulled && w.queued !! w.pulled
      && w.pulled == w.completed + w.inFlight + w.dropped
      && w.completed !! w.inFlight && w.completed !! w.dropped && w.inFlight !! w.dropped
      && w.hooks <= 1
      && (w.pc.StopHook? || w.pc.HookRunning? || w.pc.Done? ==> w.inFlight == {})
      && ((w.pc.StopHook? || w.pc.HookRunning? || w.pc.Done?) && !w.compromised ==>
            w.closed && w.completed == w.pulled == w.accepted)
      && (w.dropped != {} ==> w.compromised || w.pc == AbortedTask)
  {
    InvInRuns(run, actions, i);
  }

  lemma AfterCompromise(w: World, a: Action)
    requires Enabled(w, a) && w.compromised
    requires w.pc.AfterLoop? || w.pc.DropWork? || Quiet(w.pc)
    ensures var w' := Next(w, a);
      && w'.completed == w.completed && w'.pulled == w.pulled && w'.compromised
      && (w'.pc.AfterLoop? || w'.pc.DropWork? || Quiet(w'.pc))
  {
  }

  /** A loop that leaves compromised completes nothing more: whatever was in flight
      is dropped undrained. */
  lemma {:induction false} CompromisedDropsRest(run: seq<World>, actions: seq<Action>, i: nat, j: nat)
    requires IsRun(run, actions) && i <= j < |run| && run[i].pc == AfterLoop && run[i].compromised
    ensures run[j].completed == run[i].completed && run[j].pulled == run[i].pulled && run[j].compromised
    ensures run[j].pc.AfterLoop? || run[j].pc.DropWork? || Quiet(run[j].pc)
    ensures Quiet(run[j].pc) ==> run[j].dropped == run[i].dropped + run[i].inFlight
  {
    hide Next, Enabled;
    if i < j {
      CompromisedDropsRest(run, actions, i, j - 1);
      AfterCompromise(run[j - 1], actions[j - 1]);
    }
    InvInRuns(run, actions, i);
    InvInRuns(run, actions, j);
    if Quiet(run[j].pc) {
      Remainder(run[i]);
      Remainder(run[j]);
    }
  }

  lemma Remainder(w: World)
    requires Conserved(w)
    ensures w.dropped + w.inFlight == w.pulled - w.completed
  {
  }

  /** The sequential loop's safety claim: no two dispatches are ever in flight at
      once, so whenever a handler acquires the unguarded lock its flag is clear - the
      overlap panic never fires - and no guard is live when the stop hook takes the
      actor out of the lock. */
  lemma DispatchesNeverOverlap(run: seq<World>, actions: seq<Action>, i: nat)
    requires IsRun(run, actions) && i < |run| && run[i].mode == Sequential
    ensures forall a, b :: a in run[i].inFlight && b in run[i].inFlight ==> a == b
    ensures i < |actions| && actions[i].HandlerAcquires? ==> !run[i].borrowed
    ensures run[i].pc.StopHook? ==> !run[i].borrowed && run[i].holding == {}
  {
    hide Next, Conserved, ShapeOk;
    InvInRuns(run, actions, i);
  }

  // ---------------------------------------------------------------- graceful stop

  lemma ClosedStays(w: World, a: Action)
    requires Enabled(w, a) && w.closed
    ensures Next(w, a).closed && Next(w, a).accepted == w.accepted
    ensures a.Send? ==> a.message in Next(w, a).rejected
  {
  }

  /** Once closed, the mailbox stays closed and accepts nothing more. */
  lemma {:induction false} ClosedForGood(run: seq<World>, actions: seq<Action>, i: nat, j: nat)
    requires IsRun(run, actions) && i <= j < |run| && run[i].closed
    ensures run[j].closed && run[j].accepted == run[i].accepted
  {
    hide Next, Enabled;
    if i < j {
      ClosedForGood(run, actions, i, j - 1);
      ClosedStays(run[j - 1], actions[j - 1]);
    }
  }

  /** The first poll of a pull that finds a stop requested closes the mailbox for good:
      from then on no message is accepted, and every send is rejected. */
  lemma DriverTurnCloses(run: seq<World>, actions: seq<Action>, i: nat, j: nat)
    requires IsRun(run, actions) && i < j < |run|
    requires run[i].pc == Pulling(true) && run[i].stopRequested && actions[i].PollPull?
    ensures run[j].closed && run[j].accepted == run[i].accepted
    ensures j < |actions| && actions[j].Send? ==> actions[j].message in run[j + 1].rejected
  {
    hide Next, Enabled;
    PullCloses(run[i], actions[i]);
    ClosedForGood(run, actions, i + 1, j);
    if j < |actions| {
      ClosedStays(run[j], actions[j]);
    }
  }

  lemma PullCloses(w: World, a: Action)
    requires w.pc == Pulling(true) && w.stopRequested && a.PollPull? && Enabled(w, a)
    ensures Next(w, a).closed && Next(w, a).accepted == w.accepted
  {
  }

  /** A stop request is never slept through: a pull that was polled before the
      request and has not seen it is never left waiting without a handler in flight,
      and that handler's end cancels the pull. */
  lemma StopRequestIsSeen(run: seq<World>, actions: seq<Action>, i: nat)
    requires IsRun(run, actions) && i < |run| && run[i].stopRequested && !run[i].closed
    ensures run[i].pc == Pulling(false) ==> run[i].inFlight != {}
    ensures PastLoop(run[i].pc) ==> run[i].compromised
  {
    hide Next, Enabled, Conserved, SerialOk;
    InvInRuns(run, actions, i);
  }

  function Stage(pc: Pc): nat {
    match pc
    case Top => 8
    case Pulling(_) => 7
    case Driving => 7
    case AfterLoop => 5
    case DrainingWork => 4
    case DropWork => 3
    case StopHook => 2
    case HookRunning => 1
    case Done => 0
    case AbortedTask => 0
  }

  /** Work left after the close: twice the queue plus what is in flight, then the stage. */
  function Measure(w: World): nat {
    4 * (2 * |w.queued| + |w.inFlight|) + Stage(w.pc)
  }

  lemma TakeOne(s: set<Message>, m: Message)
    requires m in s
    ensures |s - {m}| == |s| - 1
  {
  }

  lemma PullDecreases(w: World, m: Message, dispatchPanics: bool)
    requires Conserved(w) && Enabled(w, PollPull(m, dispatchPanics)) && w.closed
    ensures Measure(Pull(w, m, dispatchPanics)) < Measure(w)
  {
    if w.queued != {} {
      TakeOne(w.queued, m);
      TakeOne(w.inFlight + {m}, m);
      assert m !in w.inFlight;
      assert w.inFlight + {m} - {m} == w.inFlight;
    }
  }

  lemma EndDecreases(w: World, m: Message, panics: bool)
    requires PollsHandlers(w) && m in w.inFlight
    ensures Measure(Ended(w, m, panics)) < Measure(w)
  {
    TakeOne(w.inFlight, m);
  }

  lemma AfterDecreases(w: World)
    requires Enabled(w, Proceed)
    ensures Measure(After(w)) < Measure(w)
  {
    var w' := After(w);
    assert w'.queued == w.queued;
    assert Stage(w'.pc) < Stage(w.pc);
    assert |w'.inFlight| <= |w.inFlight|;
  }

  /** Every step of the task shrinks the measure; nothing else grows it. */
  lemma StepDecreases(w: World, a: Action)
    requires Conserved(w) && Enabled(w, a) && w.closed
    ensures Measure(Next(w, a)) <= Measure(w)
    ensures TaskStep(a) ==> Measure(Next(w, a)) < Measure(w)
  {
    hide Conserved, Pull, Ended, After;
    match a
    case PollPull(m, dispatchPanics) => PullDecreases(w, m, dispatchPanics);
    case HandlerEnds(m, panics) => EndDecreases(w, m, panics);
    case HandlerAcquires(m) => EndDecreases(w, m, true);
    case Proceed => AfterDecreases(w);
    case _ =>
  }

  function TaskSteps(actions: seq<Action>, i: nat, j: nat): nat
    requires i <= j <= |actions|
  {
    if i == j then 0 else TaskSteps(actions, i, j - 1) + (if TaskStep(actions[j - 1]) then 1 else 0)
  }

  /** After the close, the loop takes at most as many more steps as the measure says,
      in every run of either loop. */
  lemma {:induction false} StopTerminates(run: seq<World>, actions: seq<Action>, i: nat, j: nat)
    requires IsRun(run, actions) && i <= j < |run| && run[i].closed
    ensures TaskSteps(actions, i, j) + Measure(run[j]) <= Measure(run[i])
  {
    hide Next, Enabled, Measure, TaskStep, Initial;
    if i < j {
      StopTerminates(run, actions, i, j - 1);
      InvInRuns(run, actions, j - 1);
      ClosedForGood(run, actions, i, j - 1);
      StepDecreases(run[j - 1], actions[j - 1]);
    }
  }

  /** And it is never stuck before the end: with handlers that terminate, some step
      of the task can always be taken. */
  lemma NeverStuck(w: World)
    requires Inv(w) && w.closed && !w.pc.Done? && !w.pc.AbortedTask?
    ensures exists a :: TaskStep(a) && Enabled(w, a)
  {
    match w.pc
    case Top => assert Enabled(w, Check);
    case Pulling(_) =>
      var m: Message := if w.queued == {} then 0 else var q :| q in w.queued; q;
      assert Enabled(w, PollPull(m, false));
    case Driving =>
      var m: Message :| w.inFlight == {m};
      assert Enabled(w, HandlerEnds(m, false));
    case DrainingWork =>
      if w.inFlight == {} {
        assert Enabled(w, Proceed);
      } else {
        var m :| m in w.inFlight;
        assert Enabled(w, HandlerEnds(m, false));
      }
    case AfterLoop => assert Enabled(w, Proceed);
    case DropWork => assert Enabled(w, Proceed);
    case StopHook => assert Enabled(w, Proceed);
    case HookRunning => assert Enabled(w, Proceed);
  }

  ghost predicate TaskFinished(w: World) {
    forall a :: TaskStep(a) ==> !Enabled(w, a)
  }

  /** A run continued after the close until the task has no step left ends with the
      stop hook done (or aborted), and an uncompromised one has completed exactly the
      messages that were accepted before the close. */
  lemma GracefulStop(run: seq<World>, actions: seq<Action>, i: nat)
    requires IsRun(run, actions) && i < |run| && run[i].closed
    requires TaskFinished(run[|actions|])
    ensures var end := run[|actions|];
      && (end.pc == Done || end.pc == AbortedTask)
      && (end.pc == Done ==> end.hooks == 1 && end.inFlight == {})
      && (end.pc == Done && !end.compromised ==> end.completed == run[i].accepted && end.queued == {})
  {
    hide Next, Enabled;
    var end := run[|actions|];
    InvInRuns(run, actions, |actions|);
    ClosedForGood(run, actions, i, |actions|);
    if end.pc != Done && end.pc != AbortedTask {
      NeverStuck(end);
    }
  }

  // ------------------------------------------------- what the steps of a run amount to

  /** A failing handler, a panicking handler or a panicking dispatch compromises the actor. */
  predicate Compromises(w: World, a: Action) {
    a.HandlerFails? || (a.HandlerEnds? && a.panics) || (a.PollPull? && a.dispatchPanics && w.queued != {})
  }

  lemma StepCompromises(w: World, a: Action)
    requires Enabled(w, a) && SerialOk(w)
    ensures Next(w, a).compromised <==> w.compromised || Compromises(w, a)
  {
  }

  /** The actor is compromised exactly if one of those happened. */
  lemma {:induction false} CompromisedExactly(run: seq<World>, actions: seq<Action>, i: nat)
    requires IsRun(run, actions) && i < |run|
    ensures run[i].compromised <==> exists k :: 0 <= k < i && Compromises(run[k], actions[k])
  {
    hide Next, Enabled, Compromises, SerialOk, ShapeOk, Conserved;
    if i > 0 {
      CompromisedExactly(run, actions, i - 1);
      InvInRuns(run, actions, i - 1);
      StepCompromises(run[i - 1], actions[i - 1]);
    }
  }

  /** The first poll of the pull that a `Check` began: the driver is asked once a pull. */
  ghost predicate FirstPoll(actions: seq<Action>, k: nat) {
    exists c :: 0 <= c < k && c < |actions| && actions[c].Check? && NoPoll(actions, c + 1, k)
  }

  predicate NoPoll(actions: seq<Action>, from: nat, to: nat) {
    forall n :: from <= n < to && n < |actions| ==> !actions[n].PollPull?
  }

  lemma StepTurns(w: World, a: Action)
    requires Enabled(w, a) && Next(w, a).pc.Pulling?
    ensures w.pc.Pulling? || a.Check?
    ensures Next(w, a).pc.first <==> a.Check? || (w.pc == Pulling(true) && !a.PollPull?)
  {
  }

  lemma FirstPollStep(actions: seq<Action>, i: nat)
    requires 0 < i <= |actions|
    ensures FirstPoll(actions, i) <==> actions[i - 1].Check? || (FirstPoll(actions, i - 1) && !actions[i - 1].PollPull?)
  {
    if actions[i - 1].Check? {
      assert NoPoll(actions, i, i);
    } else if FirstPoll(actions, i) {
      var c :| 0 <= c < i && c < |actions| && actions[c].Check? && NoPoll(actions, c + 1, i);
      assert NoPoll(actions, c + 1, i - 1) && !actions[i - 1].PollPull?;
    } else if FirstPoll(actions, i - 1) {
      var c :| 0 <= c < i - 1 && c < |actions| && actions[c].Check? && NoPoll(actions, c + 1, i - 1);
      assert !NoPoll(actions, c + 1, i);
    }
  }

  lemma {:induction false} PullingMeansFirst(run: seq<World>, actions: seq<Action>, i: nat)
    requires IsRun(run, actions) && i < |run| && run[i].pc.Pulling?
    ensures run[i].pc.first <==> FirstPoll(actions, i)
  {
    hide Next, Enabled, Initial, FirstPoll;
    StartsAtTop(run[0]);
    if i > 0 {
      StepTurns(run[i - 1], actions[i - 1]);
      FirstPollStep(actions, i);
      if run[i - 1].pc.Pulling? {
        PullingMeansFirst(run, actions, i - 1);
      }
    }
  }

  lemma StartsAtTop(w: World)
    requires Initial(w)
    ensures w.pc == Top
  {
  }

  ghost predicate Closes(w: World, actions: seq<Action>, k: nat)
    requires k < |actions|
  {
    actions[k].SendersGone? || (actions[k].PollPull? && FirstPoll(actions, k) && w.stopRequested)
  }

  lemma StepCloses(w: World, a: Action)
    requires Enabled(w, a)
    ensures Next(w, a).closed <==>
      w.closed || a.SendersGone? || (a.PollPull? && w.pc == Pulling(true) && w.stopRequested)
    ensures a.PollPull? ==> w.pc.Pulling?
    ensures Next(w, a).stopRequested <==> w.stopRequested || a.HandlerStops?
  {
  }

  /** The mailbox is closed exactly if all senders went away, or the first poll of some
      pull found the stop requested; and a stop is requested exactly by a handler that
      asks for it, unless the start hook had. */
  lemma {:induction false} ClosedExactly(run: seq<World>, actions: seq<Action>, i: nat)
    requires IsRun(run, actions) && i < |run|
    ensures run[i].closed <==> run[0].closed || exists k :: 0 <= k < i && Closes(run[k], actions, k)
    ensures run[i].stopRequested <==> run[0].stopRequested || exists k :: 0 <= k < i && actions[k].HandlerStops?
  {
    hide Next, Enabled, Initial, FirstPoll;
    if i > 0 {
      ClosedExactly(run, actions, i - 1);
      StepCloses(run[i - 1], actions[i - 1]);
      if actions[i - 1].PollPull? {
        PullingMeansFirst(run, actions, i - 1);
      }
    }
  }

  predicate Takes(w: World, a: Action, m: Message) {
    a.PollPull? && a.message == m && m in w.queued
  }

  lemma EndTakes(w: World, e: Message, panics: bool, m: Message)
    ensures m in Ended(w, e, panics).pulled <==> m in w.pulled
    ensures m in Ended(w, e, panics).completed <==> m in w.completed || (m == e && !panics)
  {
  }

  lemma StepTakes(w: World, a: Action, m: Message)
    requires Enabled(w, a) && SerialOk(w)
    ensures m in Next(w, a).pulled <==> m in w.pulled || Takes(w, a, m)
    ensures m in Next(w, a).completed <==> m in w.completed || a == HandlerEnds(m, false)
  {
    hide Ended;
    match a
    case HandlerEnds(e, panics) => EndTakes(w, e, panics, m);
    case HandlerAcquires(e) => EndTakes(w, e, true, m);
    case _ =>
  }

  lemma StepSends(w: World, a: Action, m: Message)
    requires Enabled(w, a)
    ensures m in Next(w, a).accepted <==> m in w.accepted || (a == Send(m) && !w.closed)
    ensures m in Next(w, a).rejected <==> m in w.rejected || (a == Send(m) && w.closed)
  {
  }

  /** A message is pulled exactly if a poll took it, and completed exactly if its handler
      ended without a panic. */
  lemma {:induction false} PulledExactly(run: seq<World>, actions: seq<Action>, i: nat, m: Message)
    requires IsRun(run, actions) && i < |run|
    ensures m in run[i].pulled <==> exists k :: 0 <= k < i && Takes(run[k], actions[k], m)
    ensures m in run[i].completed <==> exists k :: 0 <= k < i && actions[k] == HandlerEnds(m, false)
  {
    hide Next, Enabled, Takes, SerialOk, ShapeOk, Conserved;
    if i > 0 {
      hide Initial;
      PulledExactly(run, actions, i - 1, m);
      InvInRuns(run, actions, i - 1);
      StepTakes(run[i - 1], actions[i - 1], m);
    }
  }

  /** A send is accepted exactly if the mailbox is open, and else rejected. */
  lemma {:induction false} AcceptedExactly(run: seq<World>, actions: seq<Action>, i: nat, m: Message)
    requires IsRun(run, actions) && i < |run|
    ensures m in run[i].accepted <==>
      m in run[0].accepted || exists k :: 0 <= k < i && actions[k] == Send(m) && !run[k].closed
    ensures m in run[i].rejected <==>
      m in run[0].rejected || exists k :: 0 <= k < i && actions[k] == Send(m) && run[k].closed
  {
    hide Next, Enabled, Initial;
    if i > 0 {
      AcceptedExactly(run, actions, i - 1, m);
      StepSends(run[i - 1], actions[i - 1], m);
    }
  }

  lemma StepAborts(w: World, a: Action)
    requires Enabled(w, a)
    ensures Next(w, a).pc == AbortedTask <==> w.pc == AbortedTask || a == Abort
  {
  }

  predicate EndsHook(w: World, a: Action) {
    w.pc == HookRunning && a == Proceed
  }

  lemma StepEnds(w: World, a: Action)
    requires Enabled(w, a)
    ensures Next(w, a).pc == Done <==> w.pc == Done || EndsHook(w, a)
  {
  }

  /** The task is aborted exactly if an abort hit it, and done exactly if the stop hook ran
      to its end. */
  lemma {:induction false} EndsExactly(run: seq<World>, actions: seq<Action>, i: nat)
    requires IsRun(run, actions) && i < |run|
    ensures run[i].pc == AbortedTask <==> exists k :: 0 <= k < i && actions[k] == Abort
    ensures run[i].pc == Done <==> exists k :: 0 <= k < i && EndsHook(run[k], actions[k])
  {
    hide Next, Enabled, EndsHook;
    if i > 0 {
      hide Initial;
      EndsExactly(run, actions, i - 1);
      StepAborts(run[i - 1], actions[i - 1]);
      StepEnds(run[i - 1], actions[i - 1]);
    }
  }

  // ------------------------------------------------------------- after a compromise

  /** What a compromised loop may still pull or complete before it notices. */
  function Allowance(pc: Pc): nat {
    match pc
    case Pulling(_) => 1
    case Driving => 1
    case DrainingWork => 1
    case _ => 0
  }

  /** A compromised sequential loop is not pulling: only its own dispatch could fail. */
  ghost predicate NoticesAtOnce(w: World) {
    w.mode == Sequential && w.compromised ==> !w.pc.Pulling?
  }

  lemma StepKeepsNotice(w: World, a: Action)
    requires Enabled(w, a) && SerialOk(w) && NoticesAtOnce(w)
    ensures NoticesAtOnce(Next(w, a))
  {
  }

  lemma {:induction false} NoticeInRuns(run: seq<World>, actions: seq<Action>, i: nat)
    requires IsRun(run, actions) && i < |run|
    ensures NoticesAtOnce(run[i])
  {
    if i > 0 {
      hide Next, Enabled, NoticesAtOnce, SerialOk, ShapeOk, Conserved, Initial;
      NoticeInRuns(run, actions, i - 1);
      InvInRuns(run, actions, i - 1);
      StepKeepsNotice(run[i - 1], actions[i - 1]);
    }
  }

  /** One step of a compromised loop: what it pulls or completes uses up its allowance. */
  lemma CompromisedStep(w: World, a: Action)
    requires Enabled(w, a) && SerialOk(w) && NoticesAtOnce(w) && w.compromised
    ensures var w' := Next(w, a);
      && w'.compromised
      && (w'.pulled != w.pulled || w'.completed != w.completed ==> Allowance(w.pc) == 1 && Allowance(w'.pc) == 0)
      && Allowance(w'.pc) <= Allowance(w.pc)
      && (w'.pulled == w.pulled || (a.PollPull? && w'.pulled == w.pulled + {a.message} && w'.completed == w.completed))
      && (w'.completed == w.completed || (a.HandlerEnds? && w'.completed == w.completed + {a.message}))
      && (w'.pulled != w.pulled ==> w.pc.Pulling?) && (w'.pc.Pulling? ==> w.pc.Pulling?)
  {
  }

  ghost predicate OneMore(before: set<Message>, after: set<Message>) {
    after == before || exists m :: after == before + {m}
  }

  /** From the moment the actor is compromised the loop pulls at most one more message or
      completes at most one more handler, never both; outside a pull it pulls none and never
      pulls again; and once it has left the select, the drive or the drain, neither. */
  lemma {:induction false} CompromisedStopsPulling(run: seq<World>, actions: seq<Action>, i: nat, j: nat)
    requires IsRun(run, actions) && i <= j < |run| && run[i].compromised
    ensures run[j].compromised && Allowance(run[j].pc) <= Allowance(run[i].pc)
    ensures !run[i].pc.Pulling? ==> run[j].pulled == run[i].pulled && !run[j].pc.Pulling?
    ensures OneMore(run[i].pulled, run[j].pulled) && OneMore(run[i].completed, run[j].completed)
    ensures run[j].pulled == run[i].pulled || run[j].completed == run[i].completed
    ensures run[j].pulled != run[i].pulled || run[j].completed != run[i].completed ==>
      Allowance(run[i].pc) == 1 && Allowance(run[j].pc) == 0
  {
    if i < j {
      hide Next, Enabled, NoticesAtOnce, SerialOk, ShapeOk, Conserved, Initial;
      CompromisedStopsPulling(run, actions, i, j - 1);
      InvInRuns(run, actions, j - 1);
      NoticeInRuns(run, actions, j - 1);
      CompromisedStep(run[j - 1], actions[j - 1]);
    }
  }

  /** A panic, unlike a failure, leaves no allowance: nothing is pulled or completed after it. */
  lemma PanicEndsLoop(run: seq<World>, actions: seq<Action>, i: nat, j: nat)
    requires IsRun(run, actions) && i < j < |run| && Compromises(run[i], actions[i]) && !actions[i].HandlerFails?
    ensures run[j].pulled == run[i + 1].pulled && run[j].completed == run[i].completed
  {
    hide Enabled;
    InvInRuns(run, actions, i);
    assert run[i + 1].compromised && Allowance(run[i + 1].pc) == 0 && run[i + 1].completed == run[i].completed;
    hide Next, SerialOk, ShapeOk, Conserved, Initial;
    CompromisedStopsPulling(run, actions, i + 1, j);
  }

  /** The control flow of the two loops. */
  predicate Leads(mode: Mode, from: Pc, to: Pc) {
    match from
    case Top => to == Pulling(true) || to == AfterLoop
    case Pulling(_) => to == Pulling(false) || to == AfterLoop || to == if mode == Concurrent then Top else Driving
    case Driving => to == Top || to == AfterLoop
    case AfterLoop => if mode == Sequential then to == StopHook else to == DrainingWork || to == DropWork
    case DrainingWork => to == DropWork
    case DropWork => to == StopHook
    case StopHook => to == HookRunning
    case HookRunning => to == Done
    case _ => false
  }

  lemma StepLeads(w: World, a: Action)
    requires Enabled(w, a) && SerialOk(w) && Next(w, a).pc != w.pc
    ensures a == Abort || Leads(w.mode, w.pc, Next(w, a).pc)
    ensures a != Abort && Compromises(w, a) ==> Next(w, a).pc != Top
  {
  }

  /** In every run the task moves only along its loop's control flow, or is aborted; and a
      panic leaves the loop on the spot. */
  lemma LoopPath(run: seq<World>, actions: seq<Action>, i: nat)
    requires IsRun(run, actions) && i < |actions| && run[i + 1].pc != run[i].pc
    ensures actions[i] == Abort || Leads(run[i].mode, run[i].pc, run[i + 1].pc)
    ensures actions[i] != Abort && Compromises(run[i], actions[i]) ==> run[i + 1].pc != Top
  {
    hide Next, Compromises;
    InvInRuns(run, actions, i);
    StepLeads(run[i], actions[i]);
  }
}
