/** The causal links of the capture log. Actors run on any number of threads; each
    thread has a current capture frame that a handler's poll replaces and restores,
    and every event is minted and then recorded in two separate steps. */
module Causality {

  import opened Options

  type ActorId = nat
  type ThreadId = nat
  type FutureId = nat
  type MessageId = nat

  datatype EventId = EventId(actor: ActorId, number: nat)

  datatype Frame = Frame(actor: ActorId, handling: Option<EventId>)

  datatype Stamp = Stamp(sender: Option<ActorId>, cause: Option<EventId>)

  datatype Event =
    | Spawned(id: EventId, parent: Option<ActorId>, causedBy: Option<EventId>)
    | Died(id: EventId, causedBy: Option<EventId>)
    | Delivered(id: EventId, sender: Option<ActorId>, receiver: ActorId, causedBy: Option<EventId>)

  /** An actor's capture state; only a captured actor has a sink and emits events. */
  datatype Actor = Actor(captured: bool, nextNumber: nat, birth: Option<Frame>)

  /** A poll of an instrumented handler in progress, with the frame to restore. */
  datatype Poll = Poll(future: FutureId, saved: Option<Frame>)

  /** `minted` is an event on its way to the sink. */
  datatype Thread = Thread(current: Option<Frame>, polls: seq<Poll>, minted: Option<Event>)

  datatype World = World(
    actors: map<ActorId, Actor>,
    threads: map<ThreadId, Thread>,
    messages: map<MessageId, Stamp>,
    futures: map<FutureId, Option<Frame>>,
    log: seq<Event>)

  const Initial := World(map[], map[], map[], map[], [])

  function ThreadOf(w: World, t: ThreadId): Thread {
    if t in w.threads then w.threads[t] else Thread(None, [], None)
  }

  /** `current_stamp`. */
  function CurrentStamp(frame: Option<Frame>): Stamp {
    if frame.Some? then Stamp(Some(frame.value.actor), frame.value.handling) else Stamp(None, None)
  }

  datatype Action =
    | Spawn(thread: ThreadId, actor: ActorId, captured: bool)
    | Send(thread: ThreadId, message: MessageId)
    | MintSpawned(thread: ThreadId, actor: ActorId)
    | MintDied(thread: ThreadId, actor: ActorId)
    | MintDelivered(thread: ThreadId, actor: ActorId, message: MessageId, future: FutureId)
    | Record(thread: ThreadId, future: FutureId)
    | EnterPoll(thread: ThreadId, future: FutureId)
    | ExitPoll(thread: ThreadId, unwinding: bool)

  ghost predicate MintsFor(w: World, t: ThreadId, a: ActorId) {
    t in w.threads && w.threads[t].minted.Some? && w.threads[t].minted.value.id.actor == a
  }

  /** An actor's task is polled, or dropped, by one thread at a time, so no two threads
      mint for the same actor at once. */
  ghost predicate CanMint(w: World, t: ThreadId, a: ActorId) {
    ThreadOf(w, t).minted.None? && a in w.actors && forall u :: !MintsFor(w, u, a)
  }

  /** A delivery's handler future gets a fresh identity: when its event is recorded, or
      at once for an actor that is not captured. */
  ghost predicate Enabled(w: World, a: Action) {
    match a
    case Spawn(t, actor, _) => ThreadOf(w, t).minted.None? && actor !in w.actors
    case Send(t, m) => ThreadOf(w, t).minted.None? && m !in w.messages
    case MintSpawned(t, actor) => CanMint(w, t, actor)
    case MintDied(t, actor) => CanMint(w, t, actor)
    case MintDelivered(t, actor, m, f) => CanMint(w, t, actor) && m in w.messages && f !in w.futures
    case Record(t, f) => ThreadOf(w, t).minted.Some? && f !in w.futures
    case EnterPoll(t, f) => ThreadOf(w, t).minted.None? && f in w.futures
    case ExitPoll(t, _) => ThreadOf(w, t).minted.None? && ThreadOf(w, t).polls != []
  }

  function SetThread(w: World, t: ThreadId, thread: Thread): World {
    w.(threads := w.threads[t := thread])
  }

  /** `next_capture_event_id`, with the event on its way to the sink. */
  function Mint(w: World, t: ThreadId, a: ActorId, event: Event): World
    requires a in w.actors
  {
    var actor := w.actors[a];
    w.(threads := w.threads[t := ThreadOf(w, t).(minted := Some(event))],
       actors := w.actors[a := actor.(nextNumber := actor.nextNumber + 1)])
  }

  /** The event the actor mints next; `stamp` is its birth frame's or its message's. */
  function SpawnedEvent(w: World, a: ActorId): Event
    requires a in w.actors
  {
    var stamp := CurrentStamp(w.actors[a].birth);
    Spawned(EventId(a, w.actors[a].nextNumber), stamp.sender, stamp.cause)
  }

  function DeliveredEvent(w: World, a: ActorId, stamp: Stamp): Event
    requires a in w.actors
  {
    Delivered(EventId(a, w.actors[a].nextNumber), stamp.sender, a, stamp.cause)
  }

  function HandlerFrame(e: Event): Option<Frame> {
    Some(Frame(e.id.actor, Some(e.id)))
  }

  function Recorded(w: World, t: ThreadId, f: FutureId): World
    requires ThreadOf(w, t).minted.Some?
  {
    var thread := ThreadOf(w, t);
    var e := thread.minted.value;
    w.(threads := w.threads[t := thread.(minted := None)],
       log := w.log + [e],
       futures := if e.Delivered? then w.futures[f := HandlerFrame(e)] else w.futures)
  }

  function Next(w: World, a: Action): World
    requires Enabled(w, a)
  {
    match a
    case Spawn(t, actor, captured) =>
      w.(actors := w.actors[actor := Actor(captured, 1, ThreadOf(w, t).current)])
    case Send(t, m) => w.(messages := w.messages[m := CurrentStamp(ThreadOf(w, t).current)])
    case MintSpawned(t, actor) =>
      if !w.actors[actor].captured then w else Mint(w, t, actor, SpawnedEvent(w, actor))
    case MintDied(t, actor) =>
      if !w.actors[actor].captured then w
      else Mint(w, t, actor, Died(EventId(actor, w.actors[actor].nextNumber), None))
    case MintDelivered(t, actor, m, f) =>
      var taken := w.(messages := w.messages - {m});
      if !w.actors[actor].captured then taken.(futures := w.futures[f := None])
      else Mint(taken, t, actor, DeliveredEvent(w, actor, w.messages[m]))
    case Record(t, f) => Recorded(w, t, f)
    case EnterPoll(t, f) =>
      var thread := ThreadOf(w, t);
      SetThread(w, t, Thread(w.futures[f], thread.polls + [Poll(f, thread.current)], None))
    case ExitPoll(t, _) =>
      var thread := ThreadOf(w, t);
      var top := |thread.polls| - 1;
      SetThread(w, t, Thread(thread.polls[top].saved, thread.polls[..top], None))
  }

  ghost predicate IsRun(run: seq<World>, actions: seq<Action>) {
    && |run| == |actions| + 1 && run[0] == Initial
    && forall i :: 0 <= i < |actions| ==> Enabled(run[i], actions[i]) && run[i + 1] == Next(run[i], actions[i])
  }

  // -------------------------------------------------------------- the log itself

  /** The event is in the log before `limit`, as a delivery. */
  ghost predicate LoggedBefore(log: seq<Event>, id: EventId, limit: nat) {
    exists i :: 0 <= i < limit && i < |log| && log[i].Delivered? && log[i].id == id
  }

  /** An optional cause names a logged delivery to the actor it is attributed to. */
  ghost predicate CauseOk(log: seq<Event>, cause: Option<EventId>, actor: Option<ActorId>, limit: nat) {
    cause.Some? ==> LoggedBefore(log, cause.value, limit) && actor == Some(cause.value.actor)
  }

  ghost predicate FrameOk(log: seq<Event>, frame: Option<Frame>) {
    frame.Some? ==> CauseOk(log, frame.value.handling, Some(frame.value.actor), |log|)
  }

  ghost predicate EventOk(log: seq<Event>, e: Event, limit: nat) {
    match e
    case Spawned(_, parent, cause) => CauseOk(log, cause, parent, limit)
    case Died(_, cause) => cause.None?
    case Delivered(id, sender, receiver, cause) => CauseOk(log, cause, sender, limit) && receiver == id.actor
  }

  ghost predicate CausesOk(log: seq<Event>) {
    forall i :: 0 <= i < |log| ==> EventOk(log, log[i], i)
  }

  ghost predicate NumbersAscend(log: seq<Event>) {
    forall i, j :: 0 <= i < j < |log| && log[i].id.actor == log[j].id.actor ==> log[i].id.number < log[j].id.number
  }

  // ------------------------------------------------------------------ invariants

  ghost predicate NumbersOk(w: World) {
    && NumbersAscend(w.log)
    && (forall i :: 0 <= i < |w.log| ==>
        w.log[i].id.actor in w.actors && w.log[i].id.number < w.actors[w.log[i].id.actor].nextNumber)
  }

  /** A minted event has the last number its actor gave out, and no event of the actor
      in the log has it. */
  ghost predicate MintOk(w: World, e: Event) {
    && e.id.actor in w.actors && e.id.number + 1 == w.actors[e.id.actor].nextNumber
    && (forall i :: 0 <= i < |w.log| && w.log[i].id.actor == e.id.actor ==> w.log[i].id.number < e.id.number)
    && EventOk(w.log, e, |w.log|)
  }

  ghost predicate MintsOk(w: World) {
    && (forall t :: t in w.threads && w.threads[t].minted.Some? ==> MintOk(w, w.threads[t].minted.value))
    && (forall t, u, a :: MintsFor(w, t, a) && MintsFor(w, u, a) ==> t == u)
  }

  /** A thread's frame is the one of its innermost poll, each saved frame that of the
      poll below it. */
  function FrameBelow(w: World, thread: Thread, k: nat): Option<Frame>
    requires k <= |thread.polls|
  {
    if k == 0 then None
    else
      var f := thread.polls[k - 1].future;
      if f in w.futures then w.futures[f] else None
  }

  ghost predicate ThreadFramesOk(w: World, thread: Thread) {
    && (forall k :: 0 <= k < |thread.polls| ==> thread.polls[k].future in w.futures)
    && (forall k :: 0 <= k < |thread.polls| ==> thread.polls[k].saved == FrameBelow(w, thread, k))
    && thread.current == FrameBelow(w, thread, |thread.polls|)
  }

  /** Every frame and stamp around names a logged cause. */
  ghost predicate FramesOk(w: World) {
    && (forall t :: t in w.threads ==> ThreadFramesOk(w, w.threads[t]))
    && (forall f :: f in w.futures ==> FrameOk(w.log, w.futures[f]))
    && (forall a :: a in w.actors ==> FrameOk(w.log, w.actors[a].birth))
    && (forall m :: m in w.messages ==> CauseOk(w.log, w.messages[m].cause, w.messages[m].sender, |w.log|))
  }

  ghost predicate Inv(w: World) {
    NumbersOk(w) && CausesOk(w.log) && MintsOk(w) && FramesOk(w)
  }

  // ------------------------------------------------------------ the log only grows

  lemma LoggedLater(log: seq<Event>, e: Event, id: EventId, limit: nat, limit': nat)
    requires LoggedBefore(log, id, limit) && limit <= limit'
    ensures LoggedBefore(log + [e], id, limit')
  {
    var i :| 0 <= i < limit && i < |log| && log[i].Delivered? && log[i].id == id;
    assert (log + [e])[i] == log[i];
  }

  lemma CauseLater(log: seq<Event>, e: Event, cause: Option<EventId>, actor: Option<ActorId>, limit: nat, limit': nat)
    requires CauseOk(log, cause, actor, limit) && limit <= limit'
    ensures CauseOk(log + [e], cause, actor, limit')
  {
    hide LoggedBefore;
    if cause.Some? {
      LoggedLater(log, e, cause.value, limit, limit');
    }
  }

  lemma EventLater(log: seq<Event>, e: Event, x: Event, limit: nat, limit': nat)
    requires EventOk(log, x, limit) && limit <= limit'
    ensures EventOk(log + [e], x, limit')
  {
    hide CauseOk;
    match x
    case Spawned(_, parent, cause) => CauseLater(log, e, cause, parent, limit, limit');
    case Died(_, _) =>
    case Delivered(_, sender, _, cause) => CauseLater(log, e, cause, sender, limit, limit');
  }

  lemma FrameLater(log: seq<Event>, e: Event, frame: Option<Frame>)
    requires FrameOk(log, frame)
    ensures FrameOk(log + [e], frame)
  {
    hide CauseOk;
    if frame.Some? {
      CauseLater(log, e, frame.value.handling, Some(frame.value.actor), |log|, |log| + 1);
    }
  }

  lemma CausesSnoc(log: seq<Event>, e: Event)
    requires CausesOk(log) && EventOk(log, e, |log|)
    ensures CausesOk(log + [e])
  {
    hide EventOk;
    var log' := log + [e];
    forall i | 0 <= i < |log'| ensures EventOk(log', log'[i], i) {
      EventLater(log, e, log'[i], i, i);
    }
  }

  // ----------------------------------------------------------------- preservation

  lemma StepKeepsNumbers(w: World, a: Action)
    requires NumbersOk(w) && MintsOk(w) && Enabled(w, a)
    ensures NumbersOk(Next(w, a))
  {
    hide EventOk;
    if a.Record? {
      assert MintOk(w, ThreadOf(w, a.thread).minted.value);
    }
  }

  lemma StepKeepsCauses(w: World, a: Action)
    requires CausesOk(w.log) && MintsOk(w) && Enabled(w, a)
    ensures CausesOk(Next(w, a).log)
  {
    hide CausesOk, EventOk;
    if a.Record? {
      var e := ThreadOf(w, a.thread).minted.value;
      assert MintOk(w, e);
      CausesSnoc(w.log, e);
    }
  }

  /** The stamp an event is minted with names a logged cause. */
  lemma MintedEventOk(w: World, a: Action)
    requires NumbersOk(w) && FramesOk(w) && Enabled(w, a)
    ensures a.MintSpawned? ==> EventOk(w.log, SpawnedEvent(w, a.actor), |w.log|)
    ensures a.MintDelivered? ==> EventOk(w.log, DeliveredEvent(w, a.actor, w.messages[a.message]), |w.log|)
  {
    hide CauseOk, ThreadFramesOk;
    if a.MintSpawned? {
      assert FrameOk(w.log, w.actors[a.actor].birth);
      StampOfFrame(w.log, w.actors[a.actor].birth);
    }
  }

  lemma StampOfFrame(log: seq<Event>, frame: Option<Frame>)
    requires FrameOk(log, frame)
    ensures CauseOk(log, CurrentStamp(frame).cause, CurrentStamp(frame).sender, |log|)
  {
  }

  predicate Mints(a: Action) {
    a.MintSpawned? || a.MintDied? || a.MintDelivered?
  }

  /** A captured actor's mint: what is on its way to the sink afterwards is in order. */
  lemma MintMakesOk(w: World, a: Action)
    requires NumbersOk(w) && FramesOk(w) && Enabled(w, a) && Mints(a) && w.actors[a.actor].captured
    ensures var thread := ThreadOf(Next(w, a), a.thread);
      thread.minted.Some? && thread.minted.value.id.actor == a.actor && MintOk(Next(w, a), thread.minted.value)
  {
    hide FramesOk, EventOk;
    MintedEventOk(w, a);
    DeathIsUncaused(w, EventId(a.actor, w.actors[a.actor].nextNumber));
  }

  lemma DeathIsUncaused(w: World, id: EventId)
    ensures EventOk(w.log, Died(id, None), |w.log|)
  {
  }

  /** A minted event of another actor stays in order. */
  lemma OtherMintStays(w: World, a: Action, e: Event)
    requires MintOk(w, e) && Enabled(w, a)
    requires Mints(a) ==> a.actor != e.id.actor
    requires a.Record? ==> ThreadOf(w, a.thread).minted.value.id.actor != e.id.actor
    ensures MintOk(Next(w, a), e)
  {
    hide EventOk;
    if a.Record? {
      EventLater(w.log, ThreadOf(w, a.thread).minted.value, e, |w.log|, |w.log| + 1);
    }
  }

  /** Which events are minted after a step, and by whom. */
  lemma MintedAfter(w: World, a: Action, t: ThreadId)
    requires Enabled(w, a) && ThreadOf(Next(w, a), t).minted.Some?
    ensures (Mints(a) && w.actors[a.actor].captured && a.thread == t)
      || (ThreadOf(Next(w, a), t).minted == ThreadOf(w, t).minted && (Mints(a) || a.Record? ==> a.thread != t))
  {
  }

  lemma StepKeepsMint(w: World, a: Action, t: ThreadId)
    requires Inv(w) && Enabled(w, a) && ThreadOf(Next(w, a), t).minted.Some?
    ensures MintOk(Next(w, a), ThreadOf(Next(w, a), t).minted.value)
  {
    hide NumbersOk, CausesOk, FramesOk, MintOk, Next;
    MintedAfter(w, a, t);
    if Mints(a) && w.actors[a.actor].captured && a.thread == t {
      MintMakesOk(w, a);
    } else {
      var e := ThreadOf(w, t).minted.value;
      assert MintsFor(w, t, e.id.actor);
      assert a.Record? ==> MintsFor(w, a.thread, ThreadOf(w, a.thread).minted.value.id.actor);
      OtherMintStays(w, a, e);
    }
  }

  lemma StepKeepsOneMint(w: World, a: Action, t: ThreadId, u: ThreadId, actor: ActorId)
    requires Inv(w) && Enabled(w, a) && MintsFor(Next(w, a), t, actor) && MintsFor(Next(w, a), u, actor)
    ensures t == u
  {
    hide NumbersOk, CausesOk, FramesOk, MintOk;
    MintedFrom(w, a, t, actor);
    MintedFrom(w, a, u, actor);
  }

  lemma MintedFrom(w: World, a: Action, t: ThreadId, actor: ActorId)
    requires Enabled(w, a) && MintsFor(Next(w, a), t, actor)
    ensures MintsFor(w, t, actor)
      || (Mints(a) && a.thread == t && a.actor == actor && forall u :: !MintsFor(w, u, actor))
  {
  }

  lemma StepKeepsMints(w: World, a: Action)
    requires Inv(w) && Enabled(w, a)
    ensures MintsOk(Next(w, a))
  {
    hide Inv, Next, MintOk, Enabled;
    var w' := Next(w, a);
    forall t | t in w'.threads && w'.threads[t].minted.Some? ensures MintOk(w', w'.threads[t].minted.value) {
      StepKeepsMint(w, a, t);
    }
    forall t, u, actor | MintsFor(w', t, actor) && MintsFor(w', u, actor) ensures t == u {
      StepKeepsOneMint(w, a, t, u, actor);
    }
  }

  // -------------------------------------------------------------------- the frames

  lemma StepKeepsFutures(w: World, a: Action, f: FutureId)
    requires Enabled(w, a) && f in w.futures
    ensures f in Next(w, a).futures && Next(w, a).futures[f] == w.futures[f]
  {
  }

  ghost predicate KeepsFutures(w: World, w': World) {
    forall f :: f in w.futures ==> f in w'.futures && w'.futures[f] == w.futures[f]
  }

  lemma FramesCarry(w: World, w': World, before: Thread, after: Thread)
    requires KeepsFutures(w, w') && ThreadFramesOk(w, before)
    requires after.polls == before.polls && after.current == before.current
    ensures ThreadFramesOk(w', after)
  {
  }

  lemma FramesPush(w: World, w': World, before: Thread, after: Thread, f: FutureId)
    requires KeepsFutures(w, w') && ThreadFramesOk(w, before) && f in w.futures
    requires after.polls == before.polls + [Poll(f, before.current)] && after.current == w.futures[f]
    ensures ThreadFramesOk(w', after)
  {
    var d := |before.polls|;
    forall k | 0 <= k <= d ensures FrameBelow(w', after, k) == FrameBelow(w, before, k) {
      assert k > 0 ==> after.polls[k - 1] == before.polls[k - 1];
    }
    forall k | 0 <= k < d ensures after.polls[k] == before.polls[k] {
    }
  }

  lemma FramesPop(w: World, w': World, before: Thread, after: Thread)
    requires KeepsFutures(w, w') && ThreadFramesOk(w, before) && before.polls != []
    requires after.polls == before.polls[..|before.polls| - 1]
    requires after.current == before.polls[|before.polls| - 1].saved
    ensures ThreadFramesOk(w', after)
  {
    var top := |before.polls| - 1;
    forall k | 0 <= k <= top ensures FrameBelow(w', after, k) == FrameBelow(w, before, k) {
      assert k > 0 ==> after.polls[k - 1] == before.polls[k - 1];
    }
  }

  lemma StepKeepsThread(w: World, a: Action, t: ThreadId)
    requires Enabled(w, a) && ThreadFramesOk(w, ThreadOf(w, t))
    ensures ThreadFramesOk(Next(w, a), ThreadOf(Next(w, a), t))
  {
    hide Next, ThreadFramesOk;
    var w', before, after := Next(w, a), ThreadOf(w, t), ThreadOf(Next(w, a), t);
    forall f | f in w.futures ensures f in w'.futures && w'.futures[f] == w.futures[f] {
      StepKeepsFutures(w, a, f);
    }
    SamePolls(w, a, t);
    if a.EnterPoll? && a.thread == t {
      FramesPush(w, w', before, after, a.future);
    } else if a.ExitPoll? && a.thread == t {
      FramesPop(w, w', before, after);
    } else {
      FramesCarry(w, w', before, after);
    }
  }

  lemma SamePolls(w: World, a: Action, t: ThreadId)
    requires Enabled(w, a)
    ensures a.EnterPoll? && a.thread == t ==>
      ThreadOf(Next(w, a), t).polls == ThreadOf(w, t).polls + [Poll(a.future, ThreadOf(w, t).current)]
      && ThreadOf(Next(w, a), t).current == w.futures[a.future]
    ensures a.ExitPoll? && a.thread == t ==>
      var top := |ThreadOf(w, t).polls| - 1;
      top >= 0 && ThreadOf(Next(w, a), t).polls == ThreadOf(w, t).polls[..top]
      && ThreadOf(Next(w, a), t).current == ThreadOf(w, t).polls[top].saved
    ensures !((a.EnterPoll? || a.ExitPoll?) && a.thread == t) ==>
      ThreadOf(Next(w, a), t).polls == ThreadOf(w, t).polls && ThreadOf(Next(w, a), t).current == ThreadOf(w, t).current
  {
  }

  lemma CurrentFrameOk(w: World, t: ThreadId)
    requires FramesOk(w)
    ensures ThreadFramesOk(w, ThreadOf(w, t)) && FrameOk(w.log, ThreadOf(w, t).current)
  {
    hide CauseOk;
    var thread := ThreadOf(w, t);
    assert thread.current == FrameBelow(w, thread, |thread.polls|);
  }

  /** A frame in order stays so, since the log only grows. */
  lemma StepKeepsFrame(w: World, a: Action, frame: Option<Frame>)
    requires Enabled(w, a) && FrameOk(w.log, frame)
    ensures FrameOk(Next(w, a).log, frame)
  {
    hide FrameOk;
    if a.Record? {
      FrameLater(w.log, ThreadOf(w, a.thread).minted.value, frame);
    }
  }

  lemma StepKeepsStamp(w: World, a: Action, stamp: Stamp)
    requires Enabled(w, a) && CauseOk(w.log, stamp.cause, stamp.sender, |w.log|)
    ensures var log := Next(w, a).log; CauseOk(log, stamp.cause, stamp.sender, |log|)
  {
    hide CauseOk;
    if a.Record? {
      CauseLater(w.log, ThreadOf(w, a.thread).minted.value, stamp.cause, stamp.sender, |w.log|, |w.log| + 1);
    }
  }

  lemma HandlerFrameOk(log: seq<Event>, e: Event)
    requires e.Delivered?
    ensures FrameOk(log + [e], HandlerFrame(e))
  {
    assert (log + [e])[|log|] == e;
  }

  lemma StepKeepsFutureFrame(w: World, a: Action, f: FutureId)
    requires FramesOk(w) && Enabled(w, a) && f in Next(w, a).futures
    ensures FrameOk(Next(w, a).log, Next(w, a).futures[f])
  {
    hide FrameOk, ThreadFramesOk, CauseOk;
    if f in w.futures {
      StepKeepsFrame(w, a, w.futures[f]);
      StepKeepsFutures(w, a, f);
    } else if a.Record? {
      HandlerFrameOk(w.log, ThreadOf(w, a.thread).minted.value);
    } else {
      NoFrameOk(w.log);
    }
  }

  lemma NoFrameOk(log: seq<Event>)
    ensures FrameOk(log, None)
  {
  }

  lemma StepKeepsBirth(w: World, a: Action, actor: ActorId)
    requires FramesOk(w) && Enabled(w, a) && actor in Next(w, a).actors
    ensures FrameOk(Next(w, a).log, Next(w, a).actors[actor].birth)
  {
    hide FrameOk, ThreadFramesOk, CauseOk;
    if actor in w.actors {
      StepKeepsFrame(w, a, w.actors[actor].birth);
    } else {
      CurrentFrameOk(w, a.thread);
    }
  }

  lemma StepKeepsMessage(w: World, a: Action, m: MessageId)
    requires FramesOk(w) && Enabled(w, a) && m in Next(w, a).messages
    ensures var w' := Next(w, a); CauseOk(w'.log, w'.messages[m].cause, w'.messages[m].sender, |w'.log|)
  {
    hide FrameOk, ThreadFramesOk, CauseOk;
    if m in w.messages {
      StepKeepsStamp(w, a, w.messages[m]);
    } else {
      CurrentFrameOk(w, a.thread);
      StampOfFrame(w.log, ThreadOf(w, a.thread).current);
    }
  }

  lemma StepKeepsFrames(w: World, a: Action)
    requires FramesOk(w) && Enabled(w, a)
    ensures FramesOk(Next(w, a))
  {
    hide Next, Enabled, FrameOk, ThreadFramesOk, CauseOk;
    var w' := Next(w, a);
    forall t | t in w'.threads ensures ThreadFramesOk(w', w'.threads[t]) {
      CurrentFrameOk(w, t);
      StepKeepsThread(w, a, t);
    }
    forall f | f in w'.futures ensures FrameOk(w'.log, w'.futures[f]) {
      StepKeepsFutureFrame(w, a, f);
    }
    forall actor | actor in w'.actors ensures FrameOk(w'.log, w'.actors[actor].birth) {
      StepKeepsBirth(w, a, actor);
    }
    forall m | m in w'.messages ensures CauseOk(w'.log, w'.messages[m].cause, w'.messages[m].sender, |w'.log|) {
      StepKeepsMessage(w, a, m);
    }
  }

  lemma {:induction false} InvInRuns(run: seq<World>, actions: seq<Action>, i: nat)
    requires IsRun(run, actions) && i < |run|
    ensures Inv(run[i])
  {
    hide Next, Enabled;
    if i > 0 {
      hide NumbersOk, CausesOk, MintsOk, FramesOk;
      InvInRuns(run, actions, i - 1);
      StepKeepsNumbers(run[i - 1], actions[i - 1]);
      StepKeepsCauses(run[i - 1], actions[i - 1]);
      StepKeepsMints(run[i - 1], actions[i - 1]);
      StepKeepsFrames(run[i - 1], actions[i - 1]);
    }
  }

  // --------------------------------------------------------------- main theorems

  /** In every run no two logged events share an ID, and each actor's numbers increase
      in the order of the log. */
  lemma NumbersIncrease(run: seq<World>, actions: seq<Action>, n: nat, i: nat, j: nat)
    requires IsRun(run, actions) && n < |run| && i < j < |run[n].log|
    ensures run[n].log[i].id != run[n].log[j].id
    ensures run[n].log[i].id.actor == run[n].log[j].id.actor ==> run[n].log[i].id.number < run[n].log[j].id.number
  {
    hide Next, Enabled, CausesOk, MintsOk, FramesOk;
    InvInRuns(run, actions, n);
  }

  ghost predicate IsCause(log: seq<Event>, effect: nat, cause: nat) {
    effect < |log| && cause < |log| && log[effect].causedBy == Some(log[cause].id)
  }

  /** Every cause in the log names exactly one event: a delivery recorded strictly
      earlier, to the actor that is named as sender of a message or parent of a spawn. */
  lemma CausesAreEarlier(run: seq<World>, actions: seq<Action>, n: nat, i: nat) returns (j: nat)
    requires IsRun(run, actions) && n < |run| && i < |run[n].log| && run[n].log[i].causedBy.Some?
    ensures j < i && IsCause(run[n].log, i, j) && run[n].log[j].Delivered?
    ensures forall k: nat :: IsCause(run[n].log, i, k) ==> k == j
    ensures var e := run[n].log[i];
      && !e.Died?
      && (e.Delivered? ==> e.sender == Some(run[n].log[j].receiver) && e.receiver == e.id.actor)
      && (e.Spawned? ==> e.parent == Some(run[n].log[j].receiver))
  {
    hide Next, Enabled, MintsOk, FramesOk;
    InvInRuns(run, actions, n);
    var log := run[n].log;
    assert EventOk(log, log[i], i);
    var id := log[i].causedBy.value;
    assert LoggedBefore(log, id, i);
    j :| 0 <= j < i && j < |log| && log[j].Delivered? && log[j].id == id;
    assert EventOk(log, log[j], j);
    forall k: nat | IsCause(log, i, k) ensures k == j {
      hide CausesOk, EventOk;
      if k < j {
        NumbersIncrease(run, actions, n, k, j);
      } else if j < k {
        NumbersIncrease(run, actions, n, j, k);
      }
    }
  }

  ghost predicate IsCausalChain(log: seq<Event>, chain: seq<nat>) {
    && (forall k :: 0 <= k < |chain| ==> chain[k] < |log|)
    && (forall k :: 0 <= k < |chain| - 1 ==> IsCause(log, chain[k], chain[k + 1]))
  }

  /** The causal graph is acyclic: a chain of causes never comes back to an event. */
  lemma {:induction false} NoCausalCycle(run: seq<World>, actions: seq<Action>, n: nat, chain: seq<nat>, a: nat, b: nat)
    requires IsRun(run, actions) && n < |run| && IsCausalChain(run[n].log, chain) && a < b < |chain|
    ensures chain[b] < chain[a]
  {
    hide Next, Enabled;
    assert IsCause(run[n].log, chain[b - 1], chain[b]);
    var j := CausesAreEarlier(run, actions, n, chain[b - 1]);
    if a < b - 1 {
      NoCausalCycle(run, actions, n, chain, a, b - 1);
    }
  }

  ghost predicate AtLeastAsDeep(run: seq<World>, i: nat, j: nat, t: ThreadId)
    requires i <= j < |run|
  {
    forall k :: i <= k <= j ==> |ThreadOf(run[k], t).polls| >= |ThreadOf(run[i], t).polls|
  }

  /** Polls nest: while a thread is no shallower than at step i, the polls below are
      untouched and the frame of step i is current or saved. */
  lemma {:induction false} PollsNest(run: seq<World>, actions: seq<Action>, i: nat, j: nat, t: ThreadId)
    requires IsRun(run, actions) && i <= j < |run| && AtLeastAsDeep(run, i, j, t)
    ensures var was, now, d := ThreadOf(run[i], t), ThreadOf(run[j], t), |ThreadOf(run[i], t).polls|;
      && d <= |now.polls| && now.polls[..d] == was.polls
      && (if |now.polls| == d then now.current else now.polls[d].saved) == was.current
  {
    hide Next, Enabled;
    if i < j {
      assert AtLeastAsDeep(run, i, j - 1, t);
      PollsNest(run, actions, i, j - 1, t);
      SamePolls(run[j - 1], actions[j - 1], t);
      var before, now, d := ThreadOf(run[j - 1], t), ThreadOf(run[j], t), |ThreadOf(run[i], t).polls|;
      assert |now.polls| >= d;
      assert |now.polls| > d && |before.polls| > d ==> now.polls[d] == before.polls[d];
      if |before.polls| == d && |now.polls| > d {
        assert now.polls[d].saved == before.current;
      }
    } else {
      assert ThreadOf(run[i], t).polls[..|ThreadOf(run[i], t).polls|] == ThreadOf(run[i], t).polls;
    }
  }

  /** Every poll, whether it returns or unwinds, and whatever ran inside it, leaves the
      thread with the frame it had before. */
  lemma PollRestoresFrame(run: seq<World>, actions: seq<Action>, i: nat, j: nat, t: ThreadId)
    requires IsRun(run, actions) && i < j < |actions| && AtLeastAsDeep(run, i + 1, j, t)
    requires actions[i].EnterPoll? && actions[i].thread == t && actions[j].ExitPoll? && actions[j].thread == t
    requires |ThreadOf(run[j], t).polls| == |ThreadOf(run[i + 1], t).polls|
    ensures ThreadOf(run[j + 1], t).current == ThreadOf(run[i], t).current
    ensures ThreadOf(run[j + 1], t).polls == ThreadOf(run[i], t).polls
  {
    hide Next, Enabled;
    PollsNest(run, actions, i + 1, j, t);
    SamePolls(run[i], actions[i], t);
    SamePolls(run[j], actions[j], t);
    var was, now := ThreadOf(run[i], t).polls, ThreadOf(run[j], t).polls;
    assert now[..|now|] == now;
    assert (was + [now[|was|]])[..|was|] == was;
  }

  /** A send is attributed to the innermost handler being polled on its thread, and to
      nobody when there is none. */
  lemma SendsAreAttributed(run: seq<World>, actions: seq<Action>, i: nat)
    requires IsRun(run, actions) && i < |actions| && actions[i].Send?
    ensures var thread, m := ThreadOf(run[i], actions[i].thread), actions[i].message;
      && m in run[i + 1].messages
      && (thread.polls == [] ==> run[i + 1].messages[m] == Stamp(None, None))
      && (thread.polls != [] ==>
            var f := thread.polls[|thread.polls| - 1].future;
            f in run[i].futures && run[i + 1].messages[m] == CurrentStamp(run[i].futures[f]))
  {
    hide NumbersOk, CausesOk, MintsOk;
    InvInRuns(run, actions, i);
    var thread := ThreadOf(run[i], actions[i].thread);
    CurrentFrameOk(run[i], actions[i].thread);
    assert thread.current == FrameBelow(run[i], thread, |thread.polls|);
  }
}
