/** From the act to the log: what a send or a spawn made inside a handler leaves in the
    recorded event of the delivery or the spawn, over whole runs. */
module Attribution {

  import opened Options
  import opened Causality

  /** The step creates the handler future of the delivery it records. */
  predicate CreatesHandler(w: World, a: Action, f: FutureId) {
    a.Record? && a.future == f && ThreadOf(w, a.thread).minted.Some? && ThreadOf(w, a.thread).minted.value.Delivered?
  }

  /** The future handles the delivery at index `n` of the log. */
  ghost predicate Handles(run: seq<World>, actions: seq<Action>, i: nat, f: FutureId, n: nat)
    requires i <= |actions| && i < |run|
  {
    exists k :: 0 <= k < i && k < |run| && CreatesHandler(run[k], actions[k], f) && |run[k].log| == n
  }

  function Innermost(w: World, t: ThreadId): Option<FutureId> {
    var polls := ThreadOf(w, t).polls;
    if polls == [] then None else Some(polls[|polls| - 1].future)
  }

  /** The delivery at index `n` of the log is the one whose handler the thread is polling. */
  ghost predicate IsHandling(run: seq<World>, actions: seq<Action>, i: nat, t: ThreadId, n: nat)
    requires i <= |actions| && i < |run|
  {
    Innermost(run[i], t).Some? && Handles(run, actions, i, Innermost(run[i], t).value, n)
  }

  /** A sender and cause name the receiver and the ID of the delivery being handled on the
      thread, and are absent exactly if there is none. */
  ghost predicate Attributed(run: seq<World>, actions: seq<Action>, i: nat, t: ThreadId,
                             sender: Option<ActorId>, cause: Option<EventId>)
    requires i <= |actions| && i < |run|
  {
    && (forall n: nat :: IsHandling(run, actions, i, t, n) ==>
          && n < |run[i].log| && run[i].log[n].Delivered?
          && sender == Some(run[i].log[n].receiver) && cause == Some(run[i].log[n].id))
    && ((exists n: nat :: IsHandling(run, actions, i, t, n)) || (sender == None && cause == None))
  }

  // ------------------------------------------------------------- where frames come from

  lemma StepFutures(w: World, a: Action, f: FutureId)
    requires Enabled(w, a)
    ensures f in w.futures ==>
      f in Next(w, a).futures && Next(w, a).futures[f] == w.futures[f] && !CreatesHandler(w, a, f)
    ensures f !in w.futures && f in Next(w, a).futures ==>
      if CreatesHandler(w, a, f) then
        Next(w, a).futures[f] == HandlerFrame(ThreadOf(w, a.thread).minted.value)
      else Next(w, a).futures[f] == None
    ensures CreatesHandler(w, a, f) ==> f in Next(w, a).futures
  {
  }

  lemma StepLog(w: World, a: Action)
    requires Enabled(w, a)
    ensures Next(w, a).log == if a.Record? then w.log + [ThreadOf(w, a.thread).minted.value] else w.log
  {
  }

  /** What is known of a future: its frame names the delivery it handles, if any. */
  ghost predicate Originates(run: seq<World>, actions: seq<Action>, i: nat, f: FutureId)
    requires i <= |actions| && i < |run| && f in run[i].futures
  {
    var frame := run[i].futures[f];
    && (forall n: nat :: Handles(run, actions, i, f, n) ==>
          n < |run[i].log| && run[i].log[n].Delivered? && frame == HandlerFrame(run[i].log[n]))
    && ((exists n: nat :: Handles(run, actions, i, f, n)) || frame == None)
  }

  lemma HandlesStep(run: seq<World>, actions: seq<Action>, i: nat, f: FutureId, n: nat)
    requires IsRun(run, actions) && 0 < i < |run|
    ensures Handles(run, actions, i, f, n) <==>
      || Handles(run, actions, i - 1, f, n)
      || (CreatesHandler(run[i - 1], actions[i - 1], f) && |run[i - 1].log| == n)
  {
    hide Next, Enabled, CreatesHandler;
  }

  /** A future that does not exist yet handles nothing. */
  lemma {:induction false} OnlyFuturesHandle(run: seq<World>, actions: seq<Action>, i: nat, f: FutureId, n: nat)
    requires IsRun(run, actions) && i < |run| && Handles(run, actions, i, f, n)
    ensures f in run[i].futures
  {
    hide Next, Enabled, CreatesHandler;
    if i > 0 {
      HandlesStep(run, actions, i, f, n);
      StepFutures(run[i - 1], actions[i - 1], f);
      if Handles(run, actions, i - 1, f, n) {
        OnlyFuturesHandle(run, actions, i - 1, f, n);
      }
    }
  }

  lemma {:induction false} FutureOrigin(run: seq<World>, actions: seq<Action>, i: nat, f: FutureId)
    requires IsRun(run, actions) && i < |run| && f in run[i].futures
    ensures Originates(run, actions, i, f)
  {
    hide Next, Enabled, CreatesHandler, HandlerFrame;
    if i > 0 {
      var w, a := run[i - 1], actions[i - 1];
      StepFutures(w, a, f);
      StepLog(w, a);
      var before := i - 1;
      forall n: nat ensures Handles(run, actions, i, f, n)
        <==> Handles(run, actions, before, f, n) || (CreatesHandler(w, a, f) && |w.log| == n)
      {
        HandlesStep(run, actions, i, f, n);
      }
      hide Handles;
      if f in w.futures {
        FutureOrigin(run, actions, before, f);
        if n: nat :| Handles(run, actions, before, f, n) {
          assert Handles(run, actions, i, f, n);
        }
      } else {
        forall n: nat ensures !Handles(run, actions, before, f, n) {
          NotYetHandled(run, actions, before, f, n);
        }
        if CreatesHandler(w, a, f) {
          CreatesDelivered(w, a, f);
          assert Handles(run, actions, i, f, |w.log|);
        }
      }
    }
  }

  lemma NotYetHandled(run: seq<World>, actions: seq<Action>, i: nat, f: FutureId, n: nat)
    requires IsRun(run, actions) && i < |run| && f !in run[i].futures
    ensures !Handles(run, actions, i, f, n)
  {
    hide Next, Enabled, Handles;
    if Handles(run, actions, i, f, n) {
      OnlyFuturesHandle(run, actions, i, f, n);
    }
  }

  lemma CreatesDelivered(w: World, a: Action, f: FutureId)
    requires CreatesHandler(w, a, f)
    ensures a.Record? && ThreadOf(w, a.thread).minted.Some? && ThreadOf(w, a.thread).minted.value.Delivered?
  {
  }

  /** A thread's current frame attributes to the delivery it is handling. */
  lemma CurrentIsAttributed(run: seq<World>, actions: seq<Action>, i: nat, t: ThreadId)
    requires IsRun(run, actions) && i < |run|
    ensures var stamp := CurrentStamp(ThreadOf(run[i], t).current);
      Attributed(run, actions, i, t, stamp.sender, stamp.cause)
  {
    hide Next, Enabled, NumbersOk, MintsOk, Handles;
    InvInRuns(run, actions, i);
    CurrentFrameOk(run[i], t);
    var thread := ThreadOf(run[i], t);
    assert thread.current == FrameBelow(run[i], thread, |thread.polls|);
    if thread.polls != [] {
      var f := thread.polls[|thread.polls| - 1].future;
      FutureOrigin(run, actions, i, f);
      ReceiverIsActor(run[i]);
      if n: nat :| Handles(run, actions, i, f, n) {
        assert IsHandling(run, actions, i, t, n);
      }
    }
  }

  lemma ReceiverIsActor(w: World)
    requires CausesOk(w.log)
    ensures forall n :: 0 <= n < |w.log| && w.log[n].Delivered? ==> w.log[n].receiver == w.log[n].id.actor
  {
    hide CauseOk;
    forall n | 0 <= n < |w.log| && w.log[n].Delivered? ensures w.log[n].receiver == w.log[n].id.actor {
      assert EventOk(w.log, w.log[n], n);
    }
  }

  // ---------------------------------------------------------- from the act to the log

  predicate Delivers(a: Action, m: MessageId) {
    a.MintDelivered? && a.message == m
  }

  lemma StepMessages(w: World, a: Action, m: MessageId)
    requires Enabled(w, a) && m in w.messages && !Delivers(a, m)
    ensures m in Next(w, a).messages && Next(w, a).messages[m] == w.messages[m]
  {
  }

  lemma {:induction false} MessageStays(run: seq<World>, actions: seq<Action>, i: nat, k: nat, m: MessageId)
    requires IsRun(run, actions) && i <= k < |run| && m in run[i].messages
    requires forall l :: i <= l < k ==> !Delivers(actions[l], m)
    ensures m in run[k].messages && run[k].messages[m] == run[i].messages[m]
  {
    hide Next, Enabled, Delivers;
    if i < k {
      MessageStays(run, actions, i, k - 1, m);
      StepMessages(run[k - 1], actions[k - 1], m);
    }
  }

  predicate RecordsOn(a: Action, t: ThreadId) {
    a.Record? && a.thread == t
  }

  lemma StepMinted(w: World, a: Action, t: ThreadId)
    requires Enabled(w, a) && ThreadOf(w, t).minted.Some? && !RecordsOn(a, t)
    ensures ThreadOf(Next(w, a), t).minted == ThreadOf(w, t).minted
  {
  }

  /** A minted event is the next one its thread records. */
  lemma {:induction false} MintedStays(run: seq<World>, actions: seq<Action>, i: nat, k: nat, t: ThreadId)
    requires IsRun(run, actions) && i <= k < |run| && ThreadOf(run[i], t).minted.Some?
    requires forall l :: i <= l < k ==> !RecordsOn(actions[l], t)
    ensures ThreadOf(run[k], t).minted == ThreadOf(run[i], t).minted
  {
    hide Next, Enabled, RecordsOn;
    if i < k {
      MintedStays(run, actions, i, k - 1, t);
      StepMinted(run[k - 1], actions[k - 1], t);
    }
  }

  /** Step `n` records what step `k` minted on the thread. */
  ghost predicate RecordsWhat(actions: seq<Action>, k: nat, n: nat, t: ThreadId) {
    && k < n < |actions| && RecordsOn(actions[n], t)
    && forall l :: k < l < n ==> !RecordsOn(actions[l], t)
  }

  lemma RecordedEvent(run: seq<World>, actions: seq<Action>, k: nat, n: nat, t: ThreadId)
    requires IsRun(run, actions) && RecordsWhat(actions, k, n, t) && ThreadOf(run[k + 1], t).minted.Some?
    ensures run[n + 1].log == run[n].log + [ThreadOf(run[k + 1], t).minted.value]
  {
    hide Next, Enabled;
    MintedStays(run, actions, k + 1, n, t);
    StepLog(run[n], actions[n]);
  }

  lemma StepDelivers(w: World, a: Action)
    requires Enabled(w, a) && a.MintDelivered? && w.actors[a.actor].captured
    ensures ThreadOf(Next(w, a), a.thread).minted.Some?
    ensures var e, stamp := ThreadOf(Next(w, a), a.thread).minted.value, w.messages[a.message];
      e.Delivered? && e.receiver == a.actor == e.id.actor && e.sender == stamp.sender && e.causedBy == stamp.cause
  {
  }

  /** A delivery to a captured actor is logged with the sender and the cause that were
      current where the message was sent: the receiver and the ID of the delivery whose
      handler was innermost on the sending thread, and neither exactly if there was none. */
  lemma DeliveryAttributed(run: seq<World>, actions: seq<Action>, i: nat, k: nat, n: nat) returns (e: Event)
    requires IsRun(run, actions) && i < k < |actions| && actions[i].Send?
    requires Delivers(actions[k], actions[i].message) && RecordsWhat(actions, k, n, actions[k].thread)
    requires forall l :: i < l < k ==> !Delivers(actions[l], actions[i].message)
    requires actions[k].actor in run[k].actors && run[k].actors[actions[k].actor].captured
    ensures run[n + 1].log == run[n].log + [e] && e.Delivered? && e.receiver == actions[k].actor == e.id.actor
    ensures Attributed(run, actions, i, actions[i].thread, e.sender, e.causedBy)
  {
    hide Attributed, Inv;
    var m := actions[i].message;
    assert run[i + 1].messages[m] == CurrentStamp(ThreadOf(run[i], actions[i].thread).current);
    hide Next, Enabled;
    CurrentIsAttributed(run, actions, i, actions[i].thread);
    MessageStays(run, actions, i + 1, k, m);
    StepDelivers(run[k], actions[k]);
    RecordedEvent(run, actions, k, n, actions[k].thread);
    e := ThreadOf(run[k + 1], actions[k].thread).minted.value;
  }

  lemma StepActors(w: World, a: Action, actor: ActorId)
    requires Enabled(w, a) && actor in w.actors
    ensures actor in Next(w, a).actors
    ensures Next(w, a).actors[actor].captured == w.actors[actor].captured
    ensures Next(w, a).actors[actor].birth == w.actors[actor].birth
    ensures Next(w, a).actors[actor].nextNumber
      == w.actors[actor].nextNumber + if MintsAs(a, actor) && w.actors[actor].captured then 1 else 0
  {
  }

  predicate MintsAs(a: Action, actor: ActorId) {
    (a.MintSpawned? || a.MintDied? || a.MintDelivered?) && a.actor == actor
  }

  lemma {:induction false} ActorStays(run: seq<World>, actions: seq<Action>, i: nat, k: nat, actor: ActorId)
    requires IsRun(run, actions) && i <= k < |run| && actor in run[i].actors
    ensures actor in run[k].actors && run[k].actors[actor].captured == run[i].actors[actor].captured
    ensures run[k].actors[actor].birth == run[i].actors[actor].birth
  {
    hide Next, Enabled;
    if i < k {
      ActorStays(run, actions, i, k - 1, actor);
      StepActors(run[k - 1], actions[k - 1], actor);
    }
  }

  lemma StepSpawns(w: World, a: Action)
    requires Enabled(w, a) && a.MintSpawned? && w.actors[a.actor].captured
    ensures ThreadOf(Next(w, a), a.thread).minted.Some?
    ensures var e, stamp := ThreadOf(Next(w, a), a.thread).minted.value, CurrentStamp(w.actors[a.actor].birth);
      e.Spawned? && e.id.actor == a.actor && e.parent == stamp.sender && e.causedBy == stamp.cause
  {
  }

  /** The spawn of a captured actor is logged with the actor and the delivery that were
      current where it was spawned, and with neither exactly if there was none. */
  lemma SpawnAttributed(run: seq<World>, actions: seq<Action>, i: nat, k: nat, n: nat) returns (e: Event)
    requires IsRun(run, actions) && i < k < |actions| && actions[i].Spawn? && actions[i].captured
    requires actions[k].MintSpawned? && actions[k].actor == actions[i].actor
    requires RecordsWhat(actions, k, n, actions[k].thread)
    ensures run[n + 1].log == run[n].log + [e] && e.Spawned? && e.id.actor == actions[i].actor
    ensures Attributed(run, actions, i, actions[i].thread, e.parent, e.causedBy)
  {
    hide Attributed, Inv;
    var actor := actions[i].actor;
    assert run[i + 1].actors[actor].captured;
    assert run[i + 1].actors[actor].birth == ThreadOf(run[i], actions[i].thread).current;
    hide Next, Enabled;
    CurrentIsAttributed(run, actions, i, actions[i].thread);
    ActorStays(run, actions, i + 1, k, actor);
    StepSpawns(run[k], actions[k]);
    RecordedEvent(run, actions, k, n, actions[k].thread);
    e := ThreadOf(run[k + 1], actions[k].thread).minted.value;
  }

  lemma StepDies(w: World, a: Action)
    requires Enabled(w, a) && a.MintDied? && w.actors[a.actor].captured
    ensures ThreadOf(Next(w, a), a.thread).minted.Some?
    ensures var e := ThreadOf(Next(w, a), a.thread).minted.value; e.Died? && e.id.actor == a.actor && e.causedBy == None
  {
  }

  /** The death of a captured actor is logged without a cause. */
  lemma DeathLogged(run: seq<World>, actions: seq<Action>, k: nat, n: nat) returns (e: Event)
    requires IsRun(run, actions) && k < |actions| && RecordsWhat(actions, k, n, actions[k].thread)
    requires actions[k].MintDied? && actions[k].actor in run[k].actors && run[k].actors[actions[k].actor].captured
    ensures run[n + 1].log == run[n].log + [e] && e.Died? && e.id.actor == actions[k].actor && e.causedBy == None
  {
    StepDies(run[k], actions[k]);
    RecordedEvent(run, actions, k, n, actions[k].thread);
    e := ThreadOf(run[k + 1], actions[k].thread).minted.value;
  }

  // ------------------------------------------------------------------- who is logged

  function MintCount(actions: seq<Action>, i: nat, actor: ActorId): nat
    requires i <= |actions|
  {
    if i == 0 then 0 else MintCount(actions, i - 1, actor) + if MintsAs(actions[i - 1], actor) then 1 else 0
  }

  lemma StepBirths(w: World, a: Action, actor: ActorId)
    requires Enabled(w, a) && actor !in w.actors
    ensures actor in Next(w, a).actors ==>
      a.Spawn? && Next(w, a).actors[actor].nextNumber == 1 && Next(w, a).actors[actor].captured == a.captured
    ensures !MintsAs(a, actor)
  {
  }

  /** A captured actor's events are numbered from 1 without gaps: the next number is one
      more than the number of events it minted; an actor that is not captured has none. */
  lemma {:induction false} NumbersCountMints(run: seq<World>, actions: seq<Action>, i: nat, actor: ActorId)
    requires IsRun(run, actions) && i < |run|
    ensures actor in run[i].actors ==>
      run[i].actors[actor].nextNumber == 1 + if run[i].actors[actor].captured then MintCount(actions, i, actor) else 0
    ensures actor !in run[i].actors ==> MintCount(actions, i, actor) == 0
  {
    hide Next, Enabled;
    if i > 0 {
      NumbersCountMints(run, actions, i - 1, actor);
      if actor in run[i - 1].actors {
        StepActors(run[i - 1], actions[i - 1], actor);
      } else {
        StepBirths(run[i - 1], actions[i - 1], actor);
      }
    }
  }

  lemma StepMintsCaptured(w: World, a: Action, t: ThreadId)
    requires Enabled(w, a) && ThreadOf(Next(w, a), t).minted.Some?
    ensures ThreadOf(w, t).minted == ThreadOf(Next(w, a), t).minted
      || (ThreadOf(Next(w, a), t).minted.value.id.actor in w.actors
          && w.actors[ThreadOf(Next(w, a), t).minted.value.id.actor].captured)
  {
  }

  lemma {:induction false} MintedIsCaptured(run: seq<World>, actions: seq<Action>, i: nat, t: ThreadId)
    requires IsRun(run, actions) && i < |run| && ThreadOf(run[i], t).minted.Some?
    ensures var actor := ThreadOf(run[i], t).minted.value.id.actor;
      actor in run[i].actors && run[i].actors[actor].captured
  {
    hide Next, Enabled;
    if i > 0 {
      var actor := ThreadOf(run[i], t).minted.value.id.actor;
      StepMintsCaptured(run[i - 1], actions[i - 1], t);
      if ThreadOf(run[i - 1], t).minted == ThreadOf(run[i], t).minted {
        MintedIsCaptured(run, actions, i - 1, t);
      }
      StepActors(run[i - 1], actions[i - 1], actor);
    }
  }

  /** Only captured actors are in the log. */
  lemma {:induction false} LoggedIsCaptured(run: seq<World>, actions: seq<Action>, i: nat, n: nat)
    requires IsRun(run, actions) && i < |run| && n < |run[i].log|
    ensures var actor := run[i].log[n].id.actor; actor in run[i].actors && run[i].actors[actor].captured
  {
    hide Next;
    if i > 0 {
      var actor := run[i].log[n].id.actor;
      StepLog(run[i - 1], actions[i - 1]);
      if n < |run[i - 1].log| {
        LoggedIsCaptured(run, actions, i - 1, n);
      } else {
        MintedIsCaptured(run, actions, i - 1, actions[i - 1].thread);
      }
      StepActors(run[i - 1], actions[i - 1], actor);
    }
  }

  // ----------------------------------------------------------------- once per message

  predicate Sends(a: Action, m: MessageId) {
    a.Send? && a.message == m
  }

  lemma StepHolds(w: World, a: Action, m: MessageId)
    requires Enabled(w, a)
    ensures m in Next(w, a).messages <==> Sends(a, m) || (m in w.messages && !Delivers(a, m))
  {
  }

  /** A message waits exactly from its send until its one delivery. */
  lemma {:induction false} WaitsExactly(run: seq<World>, actions: seq<Action>, i: nat, m: MessageId)
    requires IsRun(run, actions) && i < |run|
    ensures m in run[i].messages <==> SentSince(actions, i, m)
  {
    if i > 0 {
      hide Next, Enabled, Sends, Delivers;
      WaitsExactly(run, actions, i - 1, m);
      StepHolds(run[i - 1], actions[i - 1], m);
      SentStep(actions, i, m);
    }
  }

  ghost predicate SentSince(actions: seq<Action>, i: nat, m: MessageId) {
    exists k :: 0 <= k < i && k < |actions| && Sends(actions[k], m) && NotDelivered(actions, k + 1, i, m)
  }

  predicate NotDelivered(actions: seq<Action>, from: nat, to: nat, m: MessageId) {
    forall n :: from <= n < to && n < |actions| ==> !Delivers(actions[n], m)
  }

  lemma SentStep(actions: seq<Action>, i: nat, m: MessageId)
    requires 0 < i <= |actions|
    ensures SentSince(actions, i, m)
      <==> Sends(actions[i - 1], m) || (SentSince(actions, i - 1, m) && !Delivers(actions[i - 1], m))
  {
    var before := i - 1;
    if Sends(actions[before], m) {
      assert NotDelivered(actions, i, i, m);
    }
    if k :| 0 <= k < i && k < |actions| && Sends(actions[k], m) && NotDelivered(actions, k + 1, i, m) {
      assert k == before || (NotDelivered(actions, k + 1, before, m) && !Delivers(actions[before], m));
    }
    if k :| 0 <= k < before && k < |actions| && Sends(actions[k], m) && NotDelivered(actions, k + 1, before, m) {
      assert Delivers(actions[before], m) || NotDelivered(actions, k + 1, i, m);
    }
  }

  /** A delivery to an actor that is not captured creates its handler future at once, without
      a frame: polling it hides whatever frame the thread had. */
  lemma UncapturedHandlerIsFrameless(w: World, a: Action, t: ThreadId)
    requires Enabled(w, a) && a.MintDelivered? && !w.actors[a.actor].captured
    ensures a.future in Next(w, a).futures && Next(w, a).futures[a.future] == None
    ensures Next(w, a).log == w.log && ThreadOf(Next(w, a), t) == ThreadOf(w, t)
  {
  }
}
