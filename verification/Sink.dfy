/** The buffered capture sink: per-thread open segments flushed to a shared
    stream. Threads interleave between taking a finished segment from a buffer
    and appending it under the writer's mutex. */
module Sink {
  import opened Options
  import opened Wire
  import opened Segment
  import opened Encoder
  import opened Stream

  type ThreadId = nat
  type SinkId = nat

  datatype EventId = EventId(actor: NonZeroU64, evSeq: U64)
  datatype Dispatch = Tell | Ask
  datatype TerminationKind = KindFinished | KindFailed | KindAborted | KindPanicked

  datatype CaptureEvent =
    | ActorSpawned(id: EventId, typeName: Bytes, parent: Option<NonZeroU64>, causedBy: Option<EventId>)
    | ActorDied(id: EventId, typeName: Bytes, reason: TerminationKind, causedBy: Option<EventId>)
    | MessageDelivered(id: EventId, from: Option<NonZeroU64>, to: NonZeroU64, typeName: Bytes,
                       dispatch: Dispatch, causedBy: Option<EventId>)

  /** What the framework guarantees of an event: its type name is text and a
      message is emitted by its receiver. */
  predicate WellFormed(event: CaptureEvent) {
    && ValidUtf8(event.typeName)
    && (event.MessageDelivered? ==> event.to == event.id.actor)
  }

  // ------------------------------------------------------------- encode_event

  function DispatchTag(dispatch: Dispatch): Byte {
    match dispatch
    case Tell => 0
    case Ask => 1
  }

  function TerminationTag(kind: TerminationKind): Byte {
    match kind
    case KindFinished => 0
    case KindFailed => 1
    case KindAborted => 2
    case KindPanicked => 3
  }

  function ToRef(id: Option<EventId>): Option<EventRef> {
    match id
    case None => None
    case Some(EventId(actor, evSeq)) => Some(EventRef(actor, evSeq))
  }

  /** The encoder call an event becomes: metadata only, so the payload is empty. */
  function ToEvent(event: CaptureEvent): Event {
    match event
    case ActorSpawned(id, name, parent, causedBy) => SpawnedEvent(id.evSeq, id.actor, name, parent, ToRef(causedBy))
    case ActorDied(id, name, reason, causedBy) =>
      DiedEvent(id.evSeq, id.actor, name, TerminationTag(reason), ToRef(causedBy))
    case MessageDelivered(id, from, _, name, dispatch, causedBy) =>
      MessageEvent(id.evSeq, id.actor, from, name, DispatchTag(dispatch), ToRef(causedBy), [])
  }

  /** `encode_event`. */
  method EncodeEvent(encoder: SegmentEncoder, tick: U64, event: CaptureEvent)
    modifies encoder
    ensures encoder.Value() == Apply(old(encoder.Value()), RecordCall(tick, ToEvent(event)))
  {
    match event
    case ActorSpawned(id, name, parent, causedBy) =>
      encoder.Spawn(tick, id.evSeq, id.actor, name, parent, ToRef(causedBy));
    case ActorDied(id, name, reason, causedBy) =>
      encoder.Die(tick, id.evSeq, id.actor, name, TerminationTag(reason), ToRef(causedBy));
    case MessageDelivered(id, from, _, name, dispatch, causedBy) =>
      encoder.Deliver(tick, id.evSeq, id.actor, from, name, DispatchTag(dispatch), ToRef(causedBy), []);
  }

  /** The reader's side of the wire tags: the event a decoded record stands for. */
  function FromRecord(record: Record<Bytes>): Option<CaptureEvent> {
    var id := EventId(record.actorId, record.evSeq);
    var cause: Option<EventId> :=
      match record.causedBy { case None => None case Some(EventRef(actor, evSeq)) => Some(EventId(actor, evSeq)) };
    match record
    case Spawned(_, _, _, name, parent, _) => Some(ActorSpawned(id, name, parent, cause))
    case Died(_, _, _, name, reason, _) =>
      (match reason
       case 0 => Some(ActorDied(id, name, KindFinished, cause))
       case 1 => Some(ActorDied(id, name, KindFailed, cause))
       case 2 => Some(ActorDied(id, name, KindAborted, cause))
       case 3 => Some(ActorDied(id, name, KindPanicked, cause))
       case _ => None)
    case Message(_, _, _, from, name, dispatch, _, _) =>
      (match dispatch
       case 0 => Some(MessageDelivered(id, from, record.actorId, name, Tell, cause))
       case 1 => Some(MessageDelivered(id, from, record.actorId, name, Ask, cause))
       case _ => None)
  }

  /** No event is changed by its trip through the wire tags. */
  lemma EventBack(event: CaptureEvent, delta: U64)
    requires WellFormed(event)
    ensures FromRecord(Stamped(ToEvent(event), delta, ToEvent(event).name)) == Some(event)
  {
    hide ValidUtf8;
  }

  // ------------------------------------------------------------ a thread's slots

  /** Events with the tick each was stamped with. */
  type Stampeds = seq<(U64, CaptureEvent)>

  /** A segment under construction; `fed` is a history of what it was fed. */
  datatype Open = Open(state: State, fed: Stampeds)

  datatype Slot = Slot(sink: SinkId, open: Option<Open>, openTick: U64, sizeThreshold: nat, maxAgeTicks: U64)

  datatype Config = Config(sink: SinkId, mode: ClockMode, sizeThreshold: nat, maxAgeTicks: U64)

  /** The clock readings one sink call takes, in case it needs them. */
  datatype Readings = Readings(tick: U64, openUnix: U64, openMono: U64, openTick: U64, closeMono: U64, closeTick: U64)

  /** A finished segment: what was fed, between which readings. */
  datatype Flushed = Flushed(anchor: SegmentAnchor, fed: Stampeds, closeMono: U64, closeTick: U64)

  /** Bytes taken from a buffer and not yet appended; `flushed` is their history. */
  datatype InHand = InHand(sink: SinkId, bytes: Bytes, flushed: Flushed)

  function CallsOf(fed: Stampeds): seq<Call> {
    seq(|fed|, i requires 0 <= i < |fed| => RecordCall(fed[i].0, ToEvent(fed[i].1)))
  }

  function EventsOf(fed: Stampeds): seq<CaptureEvent> {
    seq(|fed|, i requires 0 <= i < |fed| => fed[i].1)
  }

  function BytesOf(f: Flushed): Bytes {
    Finished(After(f.anchor, CallsOf(f.fed)), f.closeMono, f.closeTick)
  }

  function SlotIndex(slots: seq<Slot>, sink: SinkId): (i: nat)
    ensures i <= |slots|
    ensures i < |slots| ==> slots[i].sink == sink
    ensures forall k :: 0 <= k < i ==> slots[k].sink != sink
  {
    if slots == [] || slots[0].sink == sink then 0 else 1 + SlotIndex(slots[1..], sink)
  }

  /** `SegmentBuffer::should_flush`. */
  predicate ShouldFlush(slot: Slot, state: State, tick: U64) {
    |state.records| >= slot.sizeThreshold || SaturatingSub(tick, slot.openTick) >= slot.maxAgeTicks
  }

  /** `SegmentBuffer::take`: the finished bytes of an open segment, which closes. */
  function Take(sink: SinkId, open: Open, r: Readings): InHand {
    InHand(sink, Finished(open.state, r.closeMono, r.closeTick),
           Flushed(open.state.anchor, open.fed, r.closeMono, r.closeTick))
  }

  /** The slot `record` works on: the sink's own, or a closed new one. */
  function SlotFor(slots: seq<Slot>, config: Config): Slot {
    var i := SlotIndex(slots, config.sink);
    if i < |slots| then slots[i] else Slot(config.sink, None, 0, config.sizeThreshold, config.maxAgeTicks)
  }

  /** `SegmentBuffer::open`, unless a segment is open already. */
  function Opened(slot: Slot, config: Config, r: Readings): Slot {
    if slot.open.Some? then slot else
    var anchor := SegmentAnchor(config.mode, r.openUnix, r.openMono, r.openTick);
    slot.(open := Some(Open(Fresh(anchor), [])), openTick := anchor.tick)
  }

  function Put(slots: seq<Slot>, slot: Slot): seq<Slot> {
    var i := SlotIndex(slots, slot.sink);
    if i < |slots| then slots[i := slot] else slots + [slot]
  }

  /** `record` up to the append: the slots afterwards and the bytes to append, if any. */
  function RecordLocal(slots: seq<Slot>, config: Config, r: Readings, event: CaptureEvent)
    : (seq<Slot>, Option<InHand>)
  {
    var slot := Opened(SlotFor(slots, config), config, r);
    var open := Open(Apply(slot.open.value.state, RecordCall(r.tick, ToEvent(event))),
                     slot.open.value.fed + [(r.tick, event)]);
    if ShouldFlush(slot, open.state, r.tick)
    then (Put(slots, slot.(open := None)), Some(Take(config.sink, open, r)))
    else (Put(slots, slot.(open := Some(open))), None)
  }

  /** `flush` up to the append. */
  function FlushLocal(slots: seq<Slot>, sink: SinkId, r: Readings): (seq<Slot>, Option<InHand>) {
    var i := SlotIndex(slots, sink);
    if i < |slots| && slots[i].open.Some?
    then (slots[i := slots[i].(open := None)], Some(Take(sink, slots[i].open.value, r)))
    else (slots, None)
  }

  /** `ThreadSlot::drop` of the first slot, as a thread's slot vector is dropped. */
  function DropLocal(slots: seq<Slot>, r: Readings): (seq<Slot>, Option<InHand>)
    requires slots != []
  {
    (slots[1..], if slots[0].open.Some? then Some(Take(slots[0].sink, slots[0].open.value, r)) else None)
  }

  /** The calling thread's side of the sink: its vector of slots. */
  class ThreadSlots {
    var slots: seq<Slot>

    constructor ()
      ensures slots == []
    {
      slots := [];
    }

    method Find(sink: SinkId) returns (i: nat)
      ensures i == SlotIndex(slots, sink)
    {
      i := 0;
      while i < |slots| && slots[i].sink != sink
        invariant 0 <= i <= |slots|
        invariant forall k :: 0 <= k < i ==> slots[k].sink != sink
      {
        i := i + 1;
      }
    }

    /** `BufferedCaptureSink::record`, returning the segment it would append. */
    method Record(config: Config, r: Readings, event: CaptureEvent) returns (hand: Option<InHand>)
      modifies this
      ensures (slots, hand) == RecordLocal(old(slots), config, r, event)
      ensures SlotsOk(old(slots)) && WellFormed(event) ==>
        SlotsOk(slots) && forall s :: Keeps(old(slots), slots, hand, s, config.sink, [event])
      ensures var slot := Opened(SlotFor(old(slots), config), config, r);
        var bytes := |Apply(slot.open.value.state, RecordCall(r.tick, ToEvent(event))).records|;
        hand.Some? <==>
          bytes >= slot.sizeThreshold || r.tick >= slot.openTick + slot.maxAgeTicks || slot.maxAgeTicks == 0
    {
      hide Apply, Finished, ToEvent, SlotsOk, WellFormed, HandEvents, OpenEvents;
      var i := Find(config.sink);
      if i == |slots| {
        slots := slots + [Slot(config.sink, None, 0, config.sizeThreshold, config.maxAgeTicks)];
      }
      var slot := slots[i];
      if slot.open.None? {
        var anchor := SegmentAnchor(config.mode, r.openUnix, r.openMono, r.openTick);
        slot := slot.(open := Some(Open(Fresh(anchor), [])), openTick := anchor.tick);
      }
      var open := Open(Apply(slot.open.value.state, RecordCall(r.tick, ToEvent(event))),
                       slot.open.value.fed + [(r.tick, event)]);
      hand := None;
      if ShouldFlush(slot, open.state, r.tick) {
        hand := Some(Take(config.sink, open, r));
        slot := slot.(open := None);
      } else {
        slot := slot.(open := Some(open));
      }
      slots := slots[i := slot];
      assert slots == Put(old(slots), slot);
      if SlotsOk(old(slots)) && WellFormed(event) {
        RecordLocalKeeps(old(slots), config, r, event, config.sink);
        forall s ensures Keeps(old(slots), slots, hand, s, config.sink, [event]) {
          RecordLocalKeeps(old(slots), config, r, event, s);
        }
      }
    }

    /** `BufferedCaptureSink::flush`, returning the segment it would append. */
    method Flush(sink: SinkId, r: Readings) returns (hand: Option<InHand>)
      modifies this
      ensures (slots, hand) == FlushLocal(old(slots), sink, r)
      ensures SlotsOk(old(slots)) ==> SlotsOk(slots) && forall s :: Keeps(old(slots), slots, hand, s, sink, [])
    {
      hide SlotsOk, HandEvents, OpenEvents;
      var i := Find(sink);
      hand := None;
      if i < |slots| && slots[i].open.Some? {
        hand := Some(Take(sink, slots[i].open.value, r));
        slots := slots[i := slots[i].(open := None)];
      }
      if SlotsOk(old(slots)) {
        FlushLocalKeeps(old(slots), sink, r, sink);
        forall s ensures Keeps(old(slots), slots, hand, s, sink, []) {
          FlushLocalKeeps(old(slots), sink, r, s);
          assert OpenEvents(old(slots), s) + [] == OpenEvents(old(slots), s);
        }
      }
    }
  }

  // --------------------------------------------------------------- local lemmas

  predicate AllWellFormed(fed: Stampeds) {
    forall i :: 0 <= i < |fed| ==> WellFormed(fed[i].1)
  }

  predicate OpenOk(open: Open) {
    open.state == After(open.state.anchor, CallsOf(open.fed)) && AllWellFormed(open.fed)
  }

  predicate SlotsOk(slots: seq<Slot>) {
    && (forall i, j :: 0 <= i < j < |slots| ==> slots[i].sink != slots[j].sink)
    && (forall i :: 0 <= i < |slots| && slots[i].open.Some? ==> OpenOk(slots[i].open.value))
  }

  predicate HandOk(hand: InHand) {
    hand.bytes == BytesOf(hand.flushed) && AllWellFormed(hand.flushed.fed)
  }

  /** The events of the sink's open segment on this thread. */
  function OpenEvents(slots: seq<Slot>, sink: SinkId): seq<CaptureEvent> {
    var i := SlotIndex(slots, sink);
    if i < |slots| && slots[i].open.Some? then EventsOf(slots[i].open.value.fed) else []
  }

  function HandEvents(hand: Option<InHand>, sink: SinkId): seq<CaptureEvent> {
    if hand.Some? && hand.value.sink == sink then EventsOf(hand.value.flushed.fed) else []
  }

  /** For sink `s`, what is in hand and then open is what was open, and the news if `s` is
      the target. */
  predicate Keeps(before: seq<Slot>, after: seq<Slot>, hand: Option<InHand>, s: SinkId,
                  target: SinkId, news: seq<CaptureEvent>)
  {
    HandEvents(hand, s) + OpenEvents(after, s) == OpenEvents(before, s) + if s == target then news else []
  }

  lemma FedSnoc(fed: Stampeds, tick: U64, event: CaptureEvent)
    ensures CallsOf(fed + [(tick, event)]) == CallsOf(fed) + [RecordCall(tick, ToEvent(event))]
    ensures EventsOf(fed + [(tick, event)]) == EventsOf(fed) + [event]
  {
    hide ToEvent;
  }

  lemma OpenExtends(open: Open, tick: U64, event: CaptureEvent)
    requires OpenOk(open) && WellFormed(event)
    ensures OpenOk(Open(Apply(open.state, RecordCall(tick, ToEvent(event))), open.fed + [(tick, event)]))
  {
    hide ToEvent, OnWire, Interned, EncodeRecord, WellFormed;
    FedSnoc(open.fed, tick, event);
    var call := RecordCall(tick, ToEvent(event));
    var calls := CallsOf(open.fed) + [call];
    assert calls[..|calls| - 1] == CallsOf(open.fed);
    assert After(open.state.anchor, calls) == Apply(open.state, call);
  }

  lemma FreshOpen(anchor: SegmentAnchor)
    ensures OpenOk(Open(Fresh(anchor), []))
  {
  }

  lemma TakeOk(sink: SinkId, open: Open, r: Readings)
    requires OpenOk(open)
    ensures HandOk(Take(sink, open, r))
    ensures HandEvents(Some(Take(sink, open, r)), sink) == EventsOf(open.fed)
  {
    hide After, Body, Frame, CallsOf, WellFormed;
  }

  /** Slots differ from other slots only at one sink. */
  lemma PutSlot(slots: seq<Slot>, slot: Slot, sink: SinkId)
    requires SlotsOk(slots) && (slot.open.Some? ==> OpenOk(slot.open.value))
    ensures SlotsOk(Put(slots, slot))
    ensures OpenEvents(Put(slots, slot), sink)
         == if sink != slot.sink then OpenEvents(slots, sink)
            else if slot.open.Some? then EventsOf(slot.open.value.fed) else []
  {
    hide OpenOk, EventsOf;
    var after := Put(slots, slot);
    var i, j := SlotIndex(slots, slot.sink), SlotIndex(slots, sink);
    if sink != slot.sink {
      IndexIs(after, sink, if j < |slots| then j else |after|);
    } else {
      IndexIs(after, sink, i);
    }
  }

  lemma {:induction false} IndexIs(slots: seq<Slot>, sink: SinkId, i: nat)
    requires i <= |slots| && (i < |slots| ==> slots[i].sink == sink)
    requires forall k :: 0 <= k < i ==> slots[k].sink != sink
    ensures SlotIndex(slots, sink) == i
  {
    if i > 0 {
      IndexIs(slots[1..], sink, i - 1);
    }
  }

  /** A record call loses nothing on its thread: what is in hand and still open
      afterwards is what was open before, and the event. */
  lemma RecordLocalKeeps(slots: seq<Slot>, config: Config, r: Readings, event: CaptureEvent, sink: SinkId)
    requires SlotsOk(slots) && WellFormed(event)
    ensures var (after, hand) := RecordLocal(slots, config, r, event);
      && SlotsOk(after)
      && (hand.Some? ==> HandOk(hand.value) && hand.value.sink == config.sink)
      && HandEvents(hand, sink) + OpenEvents(after, sink)
         == OpenEvents(slots, sink) + (if sink == config.sink then [event] else [])
  {
    hide OpenOk, EventsOf, HandOk, ToEvent, Apply, Fresh, ShouldFlush, Take, SlotsOk, WellFormed, Put;
    var slot := Opened(SlotFor(slots, config), config, r);
    OpenedOk(slots, config, r);
    var before := slot.open.value;
    OpenExtends(before, r.tick, event);
    FedSnoc(before.fed, r.tick, event);
    var open := Open(Apply(before.state, RecordCall(r.tick, ToEvent(event))), before.fed + [(r.tick, event)]);
    TakeOk(config.sink, open, r);
    assert Take(config.sink, open, r).sink == config.sink by { TakeSink(config.sink, open, r); }
    PutSlot(slots, slot.(open := None), sink);
    PutSlot(slots, slot.(open := Some(open)), sink);
  }

  lemma TakeSink(sink: SinkId, open: Open, r: Readings)
    ensures Take(sink, open, r).sink == sink
  {
  }

  lemma OpenedOk(slots: seq<Slot>, config: Config, r: Readings)
    requires SlotsOk(slots)
    ensures var slot := Opened(SlotFor(slots, config), config, r);
      slot.sink == config.sink && OpenOk(slot.open.value)
        && EventsOf(slot.open.value.fed) == OpenEvents(slots, config.sink)
  {
    hide OpenOk, Fresh;
    FreshOpen(SegmentAnchor(config.mode, r.openUnix, r.openMono, r.openTick));
    assert EventsOf([]) == [];
  }

  lemma FlushLocalKeeps(slots: seq<Slot>, target: SinkId, r: Readings, sink: SinkId)
    requires SlotsOk(slots)
    ensures var (after, hand) := FlushLocal(slots, target, r);
      && SlotsOk(after)
      && (hand.Some? ==> HandOk(hand.value) && hand.value.sink == target)
      && HandEvents(hand, sink) + OpenEvents(after, sink) == OpenEvents(slots, sink)
  {
    hide OpenOk, EventsOf, HandOk;
    var i := SlotIndex(slots, target);
    if i < |slots| && slots[i].open.Some? {
      TakeOk(target, slots[i].open.value, r);
      PutSlot(slots, slots[i].(open := None), sink);
    }
  }

  lemma DropLocalKeeps(slots: seq<Slot>, r: Readings, sink: SinkId)
    requires SlotsOk(slots) && slots != []
    ensures var (after, hand) := DropLocal(slots, r);
      && SlotsOk(after)
      && (hand.Some? ==> HandOk(hand.value) && hand.value.sink == slots[0].sink)
      && HandEvents(hand, sink) + OpenEvents(after, sink) == OpenEvents(slots, sink)
  {
    hide OpenOk, EventsOf, HandOk;
    if slots[0].open.Some? {
      TakeOk(slots[0].sink, slots[0].open.value, r);
    }
    var j := SlotIndex(slots, sink);
    if sink == slots[0].sink {
      IndexIs(slots[1..], sink, |slots[1..]|);
    } else {
      IndexIs(slots[1..], sink, j - 1);
    }
  }

  // ------------------------------------------------------ all threads, all sinks

  datatype Thread = Thread(slots: seq<Slot>, inHand: Option<InHand>, exiting: bool)

  /** The process: streams and threads, and two histories - which thread's segment
      each appended piece of a stream is, and what each thread recorded to each sink. */
  datatype World = World(
    configs: map<SinkId, Config>,
    streams: map<SinkId, Bytes>,
    threads: map<ThreadId, Thread>,
    written: map<SinkId, seq<(ThreadId, Flushed)>>,
    recorded: map<(ThreadId, SinkId), seq<CaptureEvent>>)

  function ThreadOf(w: World, t: ThreadId): Thread {
    if t in w.threads then w.threads[t] else Thread([], None, false)
  }

  function Recorded(w: World, t: ThreadId, s: SinkId): seq<CaptureEvent> {
    if (t, s) in w.recorded then w.recorded[(t, s)] else []
  }

  datatype Action =
    | CreateSink(config: Config)
    | RecordEvent(thread: ThreadId, sink: SinkId, readings: Readings, event: CaptureEvent)
    | FlushThread(thread: ThreadId, sink: SinkId, readings: Readings)
    | DropSlot(thread: ThreadId, readings: Readings)
    | AppendSegment(thread: ThreadId)

  /** When a step can happen: a thread does nothing else while it holds bytes to
      append, and records nothing once its slots are being dropped. */
  predicate Enabled(w: World, a: Action) {
    match a
    case CreateSink(config) => config.sink !in w.streams
    case RecordEvent(t, s, _, event) =>
      s in w.configs && ThreadOf(w, t).inHand.None? && !ThreadOf(w, t).exiting && WellFormed(event)
    case FlushThread(t, s, _) => s in w.configs && ThreadOf(w, t).inHand.None? && !ThreadOf(w, t).exiting
    case DropSlot(t, _) => ThreadOf(w, t).inHand.None? && ThreadOf(w, t).slots != []
    case AppendSegment(t) =>
      var hand := ThreadOf(w, t).inHand;
      hand.Some? && hand.value.sink in w.streams && hand.value.sink in w.written
  }

  function Next(w: World, a: Action): World
    requires Enabled(w, a)
  {
    match a
    case CreateSink(config) =>
      w.(configs := w.configs[config.sink := config],
         streams := w.streams[config.sink := StreamHeader()],
         written := w.written[config.sink := []])
    case RecordEvent(t, s, r, event) =>
      var (slots, hand) := RecordLocal(ThreadOf(w, t).slots, w.configs[s], r, event);
      w.(threads := w.threads[t := Thread(slots, hand, false)],
         recorded := w.recorded[(t, s) := Recorded(w, t, s) + [event]])
    case FlushThread(t, s, r) =>
      var (slots, hand) := FlushLocal(ThreadOf(w, t).slots, s, r);
      w.(threads := w.threads[t := Thread(slots, hand, false)])
    case DropSlot(t, r) =>
      var (slots, hand) := DropLocal(ThreadOf(w, t).slots, r);
      w.(threads := w.threads[t := Thread(slots, hand, true)])
    case AppendSegment(t) =>
      var thread := ThreadOf(w, t);
      var hand := thread.inHand.value;
      w.(threads := w.threads[t := thread.(inHand := None)],
         streams := w.streams[hand.sink := w.streams[hand.sink] + hand.bytes],
         written := w.written[hand.sink := w.written[hand.sink] + [(t, hand.flushed)]])
  }

  ghost predicate IsRun(run: seq<World>, actions: seq<Action>) {
    && |run| == |actions| + 1
    && run[0] == World(map[], map[], map[], map[], map[])
    && forall i :: 0 <= i < |actions| ==> Enabled(run[i], actions[i]) && run[i + 1] == Next(run[i], actions[i])
  }

  function Concat(written: seq<(ThreadId, Flushed)>): Bytes {
    if written == [] then [] else BytesOf(written[0].1) + Concat(written[1..])
  }

  /** The events of the segments that thread `t` wrote, in stream order. */
  function Mine(written: seq<(ThreadId, Flushed)>, t: ThreadId): seq<CaptureEvent> {
    if written == [] then [] else
    (if written[0].0 == t then EventsOf(written[0].1.fed) else []) + Mine(written[1..], t)
  }

  predicate ThreadOk(thread: Thread, streams: set<SinkId>) {
    && SlotsOk(thread.slots)
    && (forall i :: 0 <= i < |thread.slots| ==> thread.slots[i].sink in streams)
    && (thread.inHand.Some? ==> HandOk(thread.inHand.value) && thread.inHand.value.sink in streams)
  }

  predicate WrittenOk(written: seq<(ThreadId, Flushed)>) {
    forall i :: 0 <= i < |written| ==> AllWellFormed(written[i].1.fed)
  }

  /** Nothing recorded is lost, duplicated or reordered within a thread. */
  ghost predicate Balanced(w: World, t: ThreadId, s: SinkId)
    requires s in w.written
  {
    Recorded(w, t, s)
      == Mine(w.written[s], t) + (HandEvents(ThreadOf(w, t).inHand, s) + OpenEvents(ThreadOf(w, t).slots, s))
  }

  ghost predicate StreamOk(w: World, s: SinkId)
    requires s in w.streams && s in w.written
  {
    w.streams[s] == StreamHeader() + Concat(w.written[s]) && WrittenOk(w.written[s])
  }

  ghost predicate SameSinks(w: World) {
    && w.configs.Keys == w.streams.Keys == w.written.Keys
    && forall s :: s in w.configs ==> w.configs[s].sink == s
  }

  ghost predicate ThreadsOk(w: World) {
    forall t :: t in w.threads ==> ThreadOk(w.threads[t], w.streams.Keys)
  }

  ghost predicate StreamsOk(w: World)
    requires SameSinks(w)
  {
    forall s :: s in w.streams ==> StreamOk(w, s)
  }

  ghost predicate AllBalanced(w: World) {
    forall t, s :: s in w.written ==> Balanced(w, t, s)
  }

  ghost predicate RecordedOk(w: World) {
    forall t, s :: (t, s) in w.recorded ==> s in w.streams
  }

  ghost predicate Inv(w: World) {
    SameSinks(w) && ThreadsOk(w) && StreamsOk(w) && AllBalanced(w) && RecordedOk(w)
  }

  lemma {:induction false} ConcatSnoc(written: seq<(ThreadId, Flushed)>, t: ThreadId, f: Flushed)
    ensures Concat(written + [(t, f)]) == Concat(written) + BytesOf(f)
  {
    hide BytesOf;
    if written == [] {
      assert written + [(t, f)] == [(t, f)] && [(t, f)][1..] == [];
      assert BytesOf(f) + [] == BytesOf(f);
    } else {
      ConcatSnoc(written[1..], t, f);
      assert (written + [(t, f)])[1..] == written[1..] + [(t, f)];
    }
  }

  lemma Associate(a: seq<CaptureEvent>, b: seq<CaptureEvent>, c: seq<CaptureEvent>)
    ensures a + (b + c) == (a + b) + c
  {
  }

  lemma {:induction false} MineSnoc(written: seq<(ThreadId, Flushed)>, t: ThreadId, f: Flushed, me: ThreadId)
    ensures Mine(written + [(t, f)], me) == Mine(written, me) + (if t == me then EventsOf(f.fed) else [])
  {
    hide EventsOf;
    var last := if t == me then EventsOf(f.fed) else [];
    if written == [] {
      assert written + [(t, f)] == [(t, f)] && [(t, f)][1..] == [];
      assert Mine([(t, f)], me) == last + [] == [] + last;
    } else {
      MineSnoc(written[1..], t, f, me);
      assert (written + [(t, f)])[1..] == written[1..] + [(t, f)];
      Associate(if written[0].0 == me then EventsOf(written[0].1.fed) else [], Mine(written[1..], me), last);
    }
  }

  lemma StepCreate(w: World, config: Config)
    requires Inv(w) && Enabled(w, CreateSink(config))
    ensures Inv(Next(w, CreateSink(config)))
  {
    hide ThreadsOk, AllBalanced, StreamsOk, StreamHeader;
    CreateThreads(w, config);
    CreateStreams(w, config);
    var w' := Next(w, CreateSink(config));
    assert AllBalanced(w') by {
      AllBalancedFrom(w, config);
    }
  }

  lemma AllBalancedFrom(w: World, config: Config)
    requires Inv(w) && Enabled(w, CreateSink(config))
    ensures AllBalanced(Next(w, CreateSink(config)))
  {
    hide Inv, Balanced;
    var w' := Next(w, CreateSink(config));
    forall t, s | s in w'.written ensures Balanced(w', t, s) {
      CreateBalanced(w, config, t, s);
    }
  }

  lemma CreateThreads(w: World, config: Config)
    requires ThreadsOk(w) && Enabled(w, CreateSink(config))
    ensures ThreadsOk(Next(w, CreateSink(config)))
  {
    hide SlotsOk, HandOk;
    var w' := Next(w, CreateSink(config));
    forall t | t in w'.threads ensures ThreadOk(w'.threads[t], w'.streams.Keys) {
      assert ThreadOk(w.threads[t], w.streams.Keys);
    }
  }

  lemma CreateStreams(w: World, config: Config)
    requires SameSinks(w) && StreamsOk(w) && Enabled(w, CreateSink(config))
    ensures SameSinks(Next(w, CreateSink(config))) && StreamsOk(Next(w, CreateSink(config)))
  {
    var w' := Next(w, CreateSink(config));
    forall s | s in w'.streams ensures StreamOk(w', s) {
      if s == config.sink {
        assert StreamHeader() + [] == StreamHeader();
      } else {
        assert StreamOk(w, s);
      }
    }
  }

  lemma CreateBalanced(w: World, config: Config, t: ThreadId, s: SinkId)
    requires Inv(w) && Enabled(w, CreateSink(config)) && s in Next(w, CreateSink(config)).written
    ensures Balanced(Next(w, CreateSink(config)), t, s)
  {
    hide ThreadsOk, OpenEvents, HandEvents, StreamsOk;
    if s == config.sink {
      NothingYet(w, t, s);
    } else {
      assert Balanced(w, t, s);
    }
  }

  /** Before a sink exists no thread holds anything for it. */
  lemma NothingYet(w: World, t: ThreadId, s: SinkId)
    requires Inv(w) && s !in w.streams
    ensures Recorded(w, t, s) == [] && HandEvents(ThreadOf(w, t).inHand, s) == []
    ensures OpenEvents(ThreadOf(w, t).slots, s) == []
  {
    hide SlotsOk, HandOk, EventsOf;
    var thread := ThreadOf(w, t);
    if t in w.threads {
      assert ThreadOk(w.threads[t], w.streams.Keys);
    }
  }

  /** What a thread now holds for a sink is what it held, and `news` if it is `sink`. */
  ghost predicate Adds(before: Thread, after: Thread, s: SinkId, sink: SinkId, news: seq<CaptureEvent>) {
    HandEvents(after.inHand, s) + OpenEvents(after.slots, s)
      == OpenEvents(before.slots, s) + (if s == sink then news else [])
  }

  /** A step that only changes thread `t` from idle and adds `news` to its record
      for one sink keeps every balance. */
  lemma StepLocal(w: World, t: ThreadId, w': World, thread: Thread, sink: SinkId, news: seq<CaptureEvent>)
    requires Inv(w) && sink in w.streams && ThreadOf(w, t).inHand.None?
    requires w' == w.(threads := w.threads[t := thread], recorded := w'.recorded)
    requires w'.recorded == if news == [] then w.recorded else w.recorded[(t, sink) := Recorded(w, t, sink) + news]
    requires ThreadOk(thread, w.streams.Keys)
    requires forall s :: Adds(ThreadOf(w, t), thread, s, sink, news)
    ensures Inv(w')
  {
    hide ThreadOk, Balanced, Adds, StreamOk;
    forall u, s | s in w'.written ensures Balanced(w', u, s) {
      assert Balanced(w, u, s);
      if u == t {
        LocalBalanced(w, t, w', thread, s, sink, news);
      } else {
        OtherBalanced(w, w', u, s);
      }
    }
    forall s | s in w'.streams ensures StreamOk(w', s) {
      SameStream(w, w', s);
    }
  }

  lemma SameStream(w: World, w': World, s: SinkId)
    requires s in w.streams && s in w.written && StreamOk(w, s)
    requires w'.streams == w.streams && w'.written == w.written
    ensures StreamOk(w', s)
  {
  }

  lemma LocalBalanced(w: World, t: ThreadId, w': World, thread: Thread, s: SinkId,
                      sink: SinkId, news: seq<CaptureEvent>)
    requires s in w.written && w'.written == w.written
    requires Balanced(w, t, s) && ThreadOf(w, t).inHand.None? && ThreadOf(w', t) == thread
    requires Adds(ThreadOf(w, t), thread, s, sink, news)
    requires Recorded(w', t, s) == Recorded(w, t, s) + (if s == sink then news else [])
    ensures Balanced(w', t, s)
  {
    hide OpenEvents, Mine, EventsOf, ThreadOf, Recorded;
    Regroup(Mine(w.written[s], t), OpenEvents(ThreadOf(w, t).slots, s), if s == sink then news else [],
            HandEvents(thread.inHand, s), OpenEvents(thread.slots, s));
  }

  lemma Regroup(mine: seq<CaptureEvent>, open: seq<CaptureEvent>, news: seq<CaptureEvent>,
                hand: seq<CaptureEvent>, after: seq<CaptureEvent>)
    requires hand + after == open + news
    ensures mine + ([] + open) + news == mine + (hand + after)
  {
    assert [] + open == open;
    assert mine + open + news == mine + (open + news);
  }

  lemma OtherBalanced(w: World, w': World, u: ThreadId, s: SinkId)
    requires s in w.written && w'.written == w.written && Balanced(w, u, s)
    requires ThreadOf(w', u) == ThreadOf(w, u) && Recorded(w', u, s) == Recorded(w, u, s)
    ensures Balanced(w', u, s)
  {
  }

  lemma IdleThread(w: World, t: ThreadId)
    requires Inv(w)
    ensures ThreadOk(ThreadOf(w, t), w.streams.Keys)
  {
    hide OpenOk, HandOk;
  }

  lemma StepRecord(w: World, t: ThreadId, s: SinkId, r: Readings, event: CaptureEvent)
    requires Inv(w) && Enabled(w, RecordEvent(t, s, r, event))
    ensures Inv(Next(w, RecordEvent(t, s, r, event)))
  {
    hide RecordLocal, OpenEvents, HandEvents, SlotsOk, HandOk, WellFormed, Balanced, StreamOk;
    IdleThread(w, t);
    var before, config := ThreadOf(w, t).slots, w.configs[s];
    var (slots, hand) := RecordLocal(before, config, r, event);
    var thread := Thread(slots, hand, false);
    forall sink ensures Adds(ThreadOf(w, t), thread, sink, s, [event]) {
      RecordLocalKeeps(before, config, r, event, sink);
    }
    RecordLocalKeeps(before, config, r, event, s);
    RecordSinks(before, config, r, event);
    StepLocal(w, t, Next(w, RecordEvent(t, s, r, event)), thread, s, [event]);
  }

  lemma RecordSinks(slots: seq<Slot>, config: Config, r: Readings, event: CaptureEvent)
    ensures forall i :: 0 <= i < |RecordLocal(slots, config, r, event).0| ==>
      var sink := RecordLocal(slots, config, r, event).0[i].sink;
      sink == config.sink || (exists j :: 0 <= j < |slots| && slots[j].sink == sink)
  {
    hide ToEvent, Apply, Take, ShouldFlush;
    var slot := Opened(SlotFor(slots, config), config, r);
    var after := RecordLocal(slots, config, r, event).0;
    assert slot.sink == config.sink;
    forall i | 0 <= i < |after|
      ensures after[i].sink == config.sink || (exists j :: 0 <= j < |slots| && slots[j].sink == after[i].sink)
    {
      if i < |slots| && i != SlotIndex(slots, config.sink) {
        assert slots[i].sink == after[i].sink;
      }
    }
  }

  lemma StepFlush(w: World, t: ThreadId, s: SinkId, r: Readings)
    requires Inv(w) && Enabled(w, FlushThread(t, s, r))
    ensures Inv(Next(w, FlushThread(t, s, r)))
  {
    hide OpenEvents, HandEvents, SlotsOk, HandOk, Balanced, StreamOk;
    IdleThread(w, t);
    var before := ThreadOf(w, t).slots;
    var (slots, hand) := FlushLocal(before, s, r);
    var thread := Thread(slots, hand, false);
    forall sink ensures Adds(ThreadOf(w, t), thread, sink, s, []) {
      FlushLocalKeeps(before, s, r, sink);
    }
    FlushLocalKeeps(before, s, r, s);
    StepLocal(w, t, Next(w, FlushThread(t, s, r)), thread, s, []);
  }

  lemma StepDrop(w: World, t: ThreadId, r: Readings)
    requires Inv(w) && Enabled(w, DropSlot(t, r))
    ensures Inv(Next(w, DropSlot(t, r)))
  {
    hide OpenEvents, HandEvents, SlotsOk, HandOk, Balanced, StreamOk;
    IdleThread(w, t);
    var before := ThreadOf(w, t).slots;
    var (slots, hand) := DropLocal(before, r);
    var thread := Thread(slots, hand, true);
    forall sink ensures Adds(ThreadOf(w, t), thread, sink, before[0].sink, []) {
      DropLocalKeeps(before, r, sink);
    }
    DropLocalKeeps(before, r, before[0].sink);
    StepLocal(w, t, Next(w, DropSlot(t, r)), thread, before[0].sink, []);
  }

  lemma StepAppend(w: World, t: ThreadId)
    requires Inv(w) && Enabled(w, AppendSegment(t))
    ensures Inv(Next(w, AppendSegment(t)))
  {
    hide SlotsOk, HandOk, StreamOk, Balanced;
    var w' := Next(w, AppendSegment(t));
    forall u, s | s in w'.written ensures Balanced(w', u, s) {
      AppendBalanced(w, t, u, s);
    }
    forall s | s in w'.streams ensures StreamOk(w', s) {
      AppendStream(w, t, s);
    }
  }

  lemma AppendBalanced(w: World, t: ThreadId, u: ThreadId, s: SinkId)
    requires Inv(w) && Enabled(w, AppendSegment(t)) && s in w.written
    ensures s in Next(w, AppendSegment(t)).written && Balanced(Next(w, AppendSegment(t)), u, s)
  {
    hide OpenEvents, EventsOf, ThreadsOk, StreamsOk, Mine, BytesOf;
    var hand := ThreadOf(w, t).inHand.value;
    assert Balanced(w, u, s);
    if s == hand.sink {
      MineSnoc(w.written[s], t, hand.flushed, u);
      var mine, open := Mine(w.written[s], u), OpenEvents(ThreadOf(w, u).slots, s);
      if u == t {
        Shift(mine, EventsOf(hand.flushed.fed), open);
      } else {
        assert mine + [] == mine;
      }
    }
  }

  lemma Shift(mine: seq<CaptureEvent>, held: seq<CaptureEvent>, open: seq<CaptureEvent>)
    ensures mine + (held + open) == (mine + held) + ([] + open)
  {
  }

  lemma AppendStream(w: World, t: ThreadId, s: SinkId)
    requires Inv(w) && Enabled(w, AppendSegment(t)) && s in w.streams
    ensures s in Next(w, AppendSegment(t)).streams && s in Next(w, AppendSegment(t)).written
    ensures StreamOk(Next(w, AppendSegment(t)), s)
  {
    hide BytesOf, StreamHeader, Concat, AllBalanced, SlotsOk;
    var hand := ThreadOf(w, t).inHand.value;
    assert ThreadOk(w.threads[t], w.streams.Keys);
    assert StreamOk(w, s);
    if s == hand.sink {
      ConcatSnoc(w.written[s], t, hand.flushed);
      assert StreamHeader() + Concat(w.written[s]) + hand.bytes == StreamHeader() + (Concat(w.written[s]) + hand.bytes);
    }
  }

  /** Every step of every thread keeps the invariant. */
  lemma StepKeepsInv(w: World, a: Action)
    requires Inv(w) && Enabled(w, a)
    ensures Inv(Next(w, a))
  {
    hide Inv, Next;
    match a
    case CreateSink(config) => StepCreate(w, config);
    case RecordEvent(t, s, r, event) => StepRecord(w, t, s, r, event);
    case FlushThread(t, s, r) => StepFlush(w, t, s, r);
    case DropSlot(t, r) => StepDrop(w, t, r);
    case AppendSegment(t) => StepAppend(w, t);
  }

  lemma EmptyWorld()
    ensures Inv(World(map[], map[], map[], map[], map[]))
  {
  }

  lemma {:induction false} RunKeepsInv(run: seq<World>, actions: seq<Action>, i: nat)
    requires IsRun(run, actions) && i < |run|
    ensures Inv(run[i])
  {
    hide Inv, Next, Enabled;
    if i == 0 {
      EmptyWorld();
    } else {
      RunKeepsInv(run, actions, i - 1);
      StepKeepsInv(run[i - 1], actions[i - 1]);
    }
  }

  // ------------------------------------------------------- the streams read back

  predicate Fits(f: Flushed) {
    |Body(After(f.anchor, CallsOf(f.fed)), f.closeMono, f.closeTick)| < U32_LIMIT
  }

  predicate AllFit(written: seq<(ThreadId, Flushed)>) {
    forall i :: 0 <= i < |written| ==> Fits(written[i].1)
  }

  function SegmentOf(f: Flushed): Segment {
    Described(f.anchor, CallsOf(f.fed), f.closeMono, f.closeTick)
  }

  /** The events in a decoded segment: names resolved, tags interpreted. */
  function EventsIn(segment: Segment): seq<Option<CaptureEvent>> {
    seq(|segment.records|, i requires 0 <= i < |segment.records| =>
      if segment.records[i].name < |segment.strings|
      then FromRecord(Named(segment.records[i], segment.strings)) else None)
  }

  function Present(events: seq<CaptureEvent>): seq<Option<CaptureEvent>> {
    seq(|events|, i requires 0 <= i < |events| => Some(events[i]))
  }

  lemma {:induction false} FedEvents(anchor: SegmentAnchor, fed: Stampeds)
    requires AllWellFormed(fed)
    ensures var records := Fed(anchor, CallsOf(fed));
      |records| == |fed| && forall i :: 0 <= i < |fed| ==> FromRecord(records[i]) == Some(fed[i].1)
  {
    hide ToEvent, FromRecord, Stamped, WellFormed;
    if fed != [] {
      var n := |fed| - 1;
      var before := fed[..n];
      var (tick, event) := fed[n];
      FedEvents(anchor, before);
      assert fed == before + [(tick, event)];
      FedSnoc(before, tick, event);
      assert CallsOf(fed)[..n] == CallsOf(before);
      assert WellFormed(fed[n].1);
      EventBack(event, SaturatingSub(tick, OpenTick(anchor, CallsOf(before))));
    }
  }

  lemma CallNames(fed: Stampeds)
    requires AllWellFormed(fed)
    ensures NamesAreText(CallsOf(fed))
  {
    hide ValidUtf8;
    forall call | call in CallsOf(fed) && call.RecordCall? ensures ValidUtf8(call.event.name) {
      var i :| 0 <= i < |fed| && CallsOf(fed)[i] == call;
      assert WellFormed(fed[i].1);
    }
  }

  /** A flushed segment decodes, and to the events it was fed. */
  lemma FlushedBack(f: Flushed, suffix: Bytes)
    requires AllWellFormed(f.fed) && Fits(f)
    ensures ParseSegment(BytesOf(f) + suffix) == Ok((SegmentOf(f), |BytesOf(f)|))
    ensures EventsIn(SegmentOf(f)) == Present(EventsOf(f.fed))
  {
    hide After, Body, WellFormed, FromRecord, Fed, ParseSegment, Distinct, WireOf;
    CallNames(f.fed);
    SegmentRoundTrip(f.anchor, CallsOf(f.fed), f.closeMono, f.closeTick, suffix);
    FedEvents(f.anchor, f.fed);
  }

  lemma {:induction false} ItemsBack(written: seq<(ThreadId, Flushed)>)
    requires WrittenOk(written) && AllFit(written)
    ensures var items := Items(Concat(written));
      |items| == |written| && forall i :: 0 <= i < |items| ==> items[i] == Ok(SegmentOf(written[i].1))
  {
    hide BytesOf, SegmentOf, Fits, ParseSegment, AllWellFormed, EventsIn, EventsOf;
    if written != [] {
      var f, rest := written[0].1, Concat(written[1..]);
      FlushedBack(f, rest);
      ItemsBack(written[1..]);
      assert (BytesOf(f) + rest)[|BytesOf(f)|..] == rest;
    }
  }

  /** Which thread wrote each segment of a stream. */
  function OwnersOf(written: seq<(ThreadId, Flushed)>): seq<ThreadId> {
    seq(|written|, i requires 0 <= i < |written| => written[i].0)
  }

  /** The decoded events of the stream items owned by thread `t`, in order. */
  function DecodedFor(items: seq<Result<Segment>>, owners: seq<ThreadId>, t: ThreadId): seq<Option<CaptureEvent>>
    requires |items| == |owners|
  {
    if items == [] then [] else
    (if owners[0] == t && items[0].Ok? then EventsIn(items[0].value) else [])
    + DecodedFor(items[1..], owners[1..], t)
  }

  lemma PresentConcat(a: seq<CaptureEvent>, b: seq<CaptureEvent>)
    ensures Present(a + b) == Present(a) + Present(b)
  {
  }

  lemma {:induction false} DecodedMine(written: seq<(ThreadId, Flushed)>, items: seq<Result<Segment>>,
                                       owners: seq<ThreadId>, t: ThreadId)
    requires WrittenOk(written) && |items| == |owners| == |written|
    requires forall i :: 0 <= i < |written| ==>
      Fits(written[i].1) && owners[i] == written[i].0 && items[i] == Ok(SegmentOf(written[i].1))
    ensures DecodedFor(items, owners, t) == Present(Mine(written, t))
  {
    hide SegmentOf, Fits, AllWellFormed, EventsIn, EventsOf;
    if written != [] {
      FlushedBack(written[0].1, []);
      DecodedMine(written[1..], items[1..], owners[1..], t);
      PresentConcat(if written[0].0 == t then EventsOf(written[0].1.fed) else [], Mine(written[1..], t));
    }
  }

  /** End-to-end conservation, over every run of every number of threads and sinks:
      if every appended segment fits its length prefix, a sink's bytes are one
      header and whole segments that all decode, and for each thread the events
      decoded from its segments, then those in hand and those of its open segment,
      are exactly the events it recorded to that sink, in order. */
  lemma CaptureConservation(run: seq<World>, actions: seq<Action>, s: SinkId)
    requires IsRun(run, actions)
    requires s in run[|run| - 1].streams && s in run[|run| - 1].written
    requires AllFit(run[|run| - 1].written[s])
    ensures var w := run[|run| - 1];
      && ReadStreamHeader(w.streams[s]).Ok?
      && var items, owners := Items(ReadStreamHeader(w.streams[s]).value), OwnersOf(w.written[s]);
      && |owners| == |items|
      && (forall i :: 0 <= i < |items| ==> items[i].Ok?)
      && forall t: ThreadId ::
           DecodedFor(items, owners, t)
           + Present(HandEvents(ThreadOf(w, t).inHand, s) + OpenEvents(ThreadOf(w, t).slots, s))
           == Present(Recorded(w, t, s))
  {
    hide StreamHeader, ReadStreamHeader, Items, SegmentOf, Concat, EventsIn, DecodedFor, Mine, Fits, Enabled, Next;
    hide Present, HandEvents, OpenEvents;
    var w := run[|run| - 1];
    RunKeepsInv(run, actions, |run| - 1);
    var written := w.written[s];
    assert StreamOk(w, s);
    HeaderBack(Concat(written));
    ItemsBack(written);
    var owners := OwnersOf(written);
    var items := Items(Concat(written));
    forall t: ThreadId
      ensures DecodedFor(items, owners, t)
            + Present(HandEvents(ThreadOf(w, t).inHand, s) + OpenEvents(ThreadOf(w, t).slots, s))
           == Present(Recorded(w, t, s))
    {
      assert Balanced(w, t, s);
      DecodedMine(written, items, owners, t);
      PresentConcat(Mine(written, t), HandEvents(ThreadOf(w, t).inHand, s) + OpenEvents(ThreadOf(w, t).slots, s));
    }
  }
}
