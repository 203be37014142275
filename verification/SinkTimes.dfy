/** The clock readings behind every segment the sink flushes, and which of its events
    are therefore placed within the segment's mono span. */
module SinkTimes {

  import opened Options
  import opened Wire
  import opened Segment
  import opened Encoder
  import opened Timeline
  import opened Sink

  /** The tick readings a step really takes on a thread for a sink, in the order of the
      code: the event's tick, the open anchor's if it opens a segment, the close reading
      if it takes one. */
  function ReadsAt(w: World, a: Action, t: ThreadId, s: SinkId): seq<U64>
    requires Enabled(w, a)
  {
    match a
    case RecordEvent(u, target, r, event) =>
      if u != t || target != s then []
      else
        var slots := ThreadOf(w, t).slots;
        var opens := SlotFor(slots, w.configs[s]).open.None?;
        var takes := RecordLocal(slots, w.configs[s], r, event).1.Some?;
        [r.tick] + (if opens then [r.openTick] else []) + (if takes then [r.closeTick] else [])
    case FlushThread(u, target, r) =>
      if u == t && target == s && OpenOf(ThreadOf(w, t).slots, s).Some? then [r.closeTick] else []
    case DropSlot(u, r) =>
      if u == t && ThreadOf(w, t).slots[0].sink == s && ThreadOf(w, t).slots[0].open.Some? then [r.closeTick] else []
    case _ => []
  }

  function OpenOf(slots: seq<Slot>, s: SinkId): Option<Open> {
    var i := SlotIndex(slots, s);
    if i < |slots| then slots[i].open else None
  }

  function LastOf(last: U64, taken: seq<U64>): U64 {
    if taken == [] then last else taken[|taken| - 1]
  }

  predicate GoesForward(last: U64, taken: seq<U64>) {
    NonDecreasing([last] + taken)
  }

  /** The last tick read on a thread for a sink before step i, zero before the first. */
  function Clock(run: seq<World>, actions: seq<Action>, i: nat, t: ThreadId, s: SinkId): U64
    requires IsRun(run, actions) && i <= |actions|
  {
    if i == 0 then 0 else LastOf(Clock(run, actions, i - 1, t, s), ReadsAt(run[i - 1], actions[i - 1], t, s))
  }

  /** The sink's clock is monotonic: no reading on a thread lies before an earlier one. */
  ghost predicate ClockIsMonotonic(run: seq<World>, actions: seq<Action>)
    requires IsRun(run, actions)
  {
    forall i, t, s :: 0 <= i < |actions| ==>
      GoesForward(Clock(run, actions, i, t, s), ReadsAt(run[i], actions[i], t, s))
  }

  // ------------------------------------------------------------- shapes of segments

  function TicksIn(fed: Stampeds): seq<U64> {
    seq(|fed|, i requires 0 <= i < |fed| => fed[i].0)
  }

  /** The ticks of a segment the sink builds: the first was read before the open anchor,
      all others after it, and everything before `last`. */
  ghost predicate Shaped(open: U64, ticks: seq<U64>, last: U64) {
    && ticks != [] && NonDecreasing(ticks) && ticks[0] <= open <= last
    && (forall k :: 1 <= k < |ticks| ==> open <= ticks[k])
    && ticks[|ticks| - 1] <= last
  }

  ghost predicate OpenShaped(open: Option<Open>, last: U64) {
    open.Some? ==> Shaped(open.value.state.anchor.tick, TicksIn(open.value.fed), last)
  }

  ghost predicate FlushedShaped(f: Flushed) {
    Shaped(f.anchor.tick, TicksIn(f.fed), f.closeTick)
  }

  ghost predicate HandShaped(hand: Option<InHand>) {
    hand.Some? ==> FlushedShaped(hand.value.flushed)
  }

  lemma ShapedSnoc(open: U64, ticks: seq<U64>, last: U64, tick: U64)
    requires Shaped(open, ticks, last) && last <= tick
    ensures Shaped(open, ticks + [tick], tick)
  {
  }

  lemma ShapedLater(open: U64, ticks: seq<U64>, last: U64, later: U64)
    requires Shaped(open, ticks, last) && last <= later
    ensures Shaped(open, ticks, later)
  {
  }

  lemma TicksSnoc(fed: Stampeds, tick: U64, event: CaptureEvent)
    ensures TicksIn(fed + [(tick, event)]) == TicksIn(fed) + [tick]
  {
  }

  // ------------------------------------------------------------------ one sink call

  lemma PutOpen(slots: seq<Slot>, slot: Slot, s: SinkId)
    ensures OpenOf(Put(slots, slot), s) == if s == slot.sink then slot.open else OpenOf(slots, s)
  {
    var after := Put(slots, slot);
    var i, j := SlotIndex(slots, slot.sink), SlotIndex(slots, s);
    if s != slot.sink {
      IndexIs(after, s, if j < |slots| then j else |after|);
    } else {
      IndexIs(after, s, i);
    }
  }

  lemma RecordOpens(slots: seq<Slot>, config: Config, r: Sink.Readings, event: CaptureEvent, s: SinkId)
    requires s != config.sink
    ensures OpenOf(RecordLocal(slots, config, r, event).0, s) == OpenOf(slots, s)
    ensures RecordLocal(slots, config, r, event).1.Some? ==>
      RecordLocal(slots, config, r, event).1.value.sink == config.sink
  {
    hide Put, OpenOf, Apply, ToEvent, Finished, ShouldFlush;
    var slot := Opened(SlotFor(slots, config), config, r);
    var open := Open(Apply(slot.open.value.state, RecordCall(r.tick, ToEvent(event))),
                     slot.open.value.fed + [(r.tick, event)]);
    PutOpen(slots, slot.(open := None), s);
    PutOpen(slots, slot.(open := Some(open)), s);
  }

  /** A record call with readings that go forward keeps the shape of the sink's segment,
      open or taken. */
  lemma RecordShaped(slots: seq<Slot>, config: Config, r: Sink.Readings, event: CaptureEvent, last: U64)
    requires OpenShaped(OpenOf(slots, config.sink), last)
    requires var opens, takes := SlotFor(slots, config).open.None?, RecordLocal(slots, config, r, event).1.Some?;
      last <= r.tick && (opens ==> r.tick <= r.openTick)
      && (takes ==> (if opens then r.openTick else r.tick) <= r.closeTick)
    ensures var (after, hand) := RecordLocal(slots, config, r, event);
      var opens := SlotFor(slots, config).open.None?;
      && HandShaped(hand)
      && OpenShaped(OpenOf(after, config.sink), if opens then r.openTick else r.tick)
      && (hand.Some? ==> OpenOf(after, config.sink).None?)
  {
    hide Put, OpenOf, ToEvent, Finished, ShouldFlush, Shaped, OnWire, Interned;
    SlotForOpen(slots, config);
    var slot := Opened(SlotFor(slots, config), config, r);
    var before := slot.open.value;
    var open := Open(Apply(before.state, RecordCall(r.tick, ToEvent(event))), before.fed + [(r.tick, event)]);
    var now := if SlotFor(slots, config).open.None? then r.openTick else r.tick;
    TicksSnoc(before.fed, r.tick, event);
    if SlotFor(slots, config).open.None? {
      FirstShaped(r.openTick, r.tick);
      assert TicksIn(open.fed) == [r.tick];
    } else {
      ShapedSnoc(before.state.anchor.tick, TicksIn(before.fed), last, r.tick);
    }
    assert Shaped(open.state.anchor.tick, TicksIn(open.fed), now);
    PutOpen(slots, slot.(open := None), config.sink);
    PutOpen(slots, slot.(open := Some(open)), config.sink);
    if RecordLocal(slots, config, r, event).1.Some? {
      ShapedLater(open.state.anchor.tick, TicksIn(open.fed), now, r.closeTick);
    }
  }

  lemma FirstShaped(open: U64, tick: U64)
    requires tick <= open
    ensures Shaped(open, [tick], open)
  {
  }

  lemma SlotForOpen(slots: seq<Slot>, config: Config)
    ensures SlotFor(slots, config).open == OpenOf(slots, config.sink) && SlotFor(slots, config).sink == config.sink
  {
  }

  lemma FlushOpens(slots: seq<Slot>, target: SinkId, r: Sink.Readings, s: SinkId)
    ensures OpenOf(FlushLocal(slots, target, r).0, s) == if s == target then None else OpenOf(slots, s)
    ensures FlushLocal(slots, target, r).1 ==
      if OpenOf(slots, target).Some? then Some(Take(target, OpenOf(slots, target).value, r)) else None
  {
    hide Take;
    var i, j := SlotIndex(slots, target), SlotIndex(slots, s);
    var after := FlushLocal(slots, target, r).0;
    IndexIs(after, s, j);
    IndexIs(after, target, i);
  }

  lemma DropOpens(slots: seq<Slot>, r: Sink.Readings, s: SinkId)
    requires slots != [] && SlotsOk(slots)
    ensures OpenOf(DropLocal(slots, r).0, s) == if s == slots[0].sink then None else OpenOf(slots, s)
    ensures DropLocal(slots, r).1
      == if slots[0].open.Some? then Some(Take(slots[0].sink, slots[0].open.value, r)) else None
    ensures OpenOf(slots, slots[0].sink) == slots[0].open
  {
    hide Take, OpenOk;
    if s == slots[0].sink {
      IndexIs(slots[1..], s, |slots| - 1);
    }
  }

  lemma TakeShaped(s: SinkId, open: Open, r: Sink.Readings, last: U64)
    requires OpenShaped(Some(open), last) && last <= r.closeTick
    ensures HandShaped(Some(Take(s, open, r)))
  {
    hide Finished, Shaped;
    ShapedLater(open.state.anchor.tick, TicksIn(open.fed), last, r.closeTick);
  }

  // ----------------------------------------------------------------- whole runs

  lemma ForwardFirst(last: U64, first: U64, rest: seq<U64>)
    requires GoesForward(last, [first] + rest)
    ensures last <= first && GoesForward(first, rest)
  {
    var all, tail := [last] + ([first] + rest), [first] + rest;
    assert all[0] == last && all[1] == first;
    forall j, k | 0 <= j < k < |tail| ensures tail[j] <= tail[k] {
      assert all[j + 1] == tail[j] && all[k + 1] == tail[k];
    }
  }

  /** The readings of one record call go forward. */
  lemma RecordReads(w: World, t: ThreadId, s: SinkId, r: Sink.Readings, event: CaptureEvent, last: U64)
    requires Enabled(w, RecordEvent(t, s, r, event))
    requires GoesForward(last, ReadsAt(w, RecordEvent(t, s, r, event), t, s))
    ensures var slots := ThreadOf(w, t).slots;
      var opens, takes := SlotFor(slots, w.configs[s]).open.None?, RecordLocal(slots, w.configs[s], r, event).1.Some?;
      && last <= r.tick && (opens ==> r.tick <= r.openTick)
      && (takes ==> (if opens then r.openTick else r.tick) <= r.closeTick)
      && (!takes ==>
            LastOf(last, ReadsAt(w, RecordEvent(t, s, r, event), t, s)) == if opens then r.openTick else r.tick)
  {
    hide RecordLocal, SlotFor, GoesForward;
    var slots := ThreadOf(w, t).slots;
    var opens, takes := SlotFor(slots, w.configs[s]).open.None?, RecordLocal(slots, w.configs[s], r, event).1.Some?;
    var close := if takes then [r.closeTick] else [];
    var middle := if opens then [r.openTick] + close else close;
    assert ReadsAt(w, RecordEvent(t, s, r, event), t, s) == [r.tick] + middle;
    ForwardFirst(last, r.tick, middle);
    if opens {
      ForwardFirst(r.tick, r.openTick, close);
    }
    if takes {
      assert close == [r.closeTick] + [];
      ForwardFirst(if opens then r.openTick else r.tick, r.closeTick, []);
    }
  }

  lemma CloseRead(last: U64, closeTick: U64)
    requires GoesForward(last, [closeTick])
    ensures last <= closeTick
  {
    assert [closeTick] == [closeTick] + [];
    ForwardFirst(last, closeTick, []);
  }

  /** The sink whose segment a step may take on the thread. */
  predicate Targets(w: World, a: Action, t: ThreadId, s: SinkId)
    requires Enabled(w, a)
  {
    match a
    case RecordEvent(u, target, _, _) => u == t && target == s
    case FlushThread(u, target, _) => u == t && target == s
    case DropSlot(u, _) => u == t && ThreadOf(w, t).slots[0].sink == s
    case _ => false
  }

  /** A step that takes or extends the sink's segment on the thread. */
  lemma TargetStepShaped(w: World, a: Action, t: ThreadId, s: SinkId, last: U64)
    requires Inv(w) && Enabled(w, a) && Targets(w, a, t, s)
    requires OpenShaped(OpenOf(ThreadOf(w, t).slots, s), last) && GoesForward(last, ReadsAt(w, a, t, s))
    ensures OpenShaped(OpenOf(ThreadOf(Next(w, a), t).slots, s), LastOf(last, ReadsAt(w, a, t, s)))
    ensures HandShaped(ThreadOf(Next(w, a), t).inHand)
  {
    hide RecordLocal, FlushLocal, DropLocal, OpenOf, Shaped, GoesForward, StreamsOk, AllBalanced, RecordedOk, SlotsOk;
    var slots := ThreadOf(w, t).slots;
    match a
    case RecordEvent(_, _, r, event) =>
      RecordReads(w, t, s, r, event, last);
      RecordShaped(slots, w.configs[s], r, event, last);
    case FlushThread(_, _, r) =>
      FlushOpens(slots, s, r, s);
      if OpenOf(slots, s).Some? {
        CloseRead(last, r.closeTick);
        TakeShaped(s, OpenOf(slots, s).value, r, last);
      }
    case DropSlot(_, r) =>
      IdleThread(w, t);
      DropOpens(slots, r, s);
      if slots[0].open.Some? {
        CloseRead(last, r.closeTick);
        TakeShaped(s, slots[0].open.value, r, last);
      }
    case _ =>
  }

  /** Every other step leaves the thread's segment for the sink alone and reads nothing for it. */
  lemma OtherStepShaped(w: World, a: Action, t: ThreadId, s: SinkId)
    requires Inv(w) && Enabled(w, a) && !Targets(w, a, t, s)
    ensures OpenOf(ThreadOf(Next(w, a), t).slots, s) == OpenOf(ThreadOf(w, t).slots, s)
    ensures ReadsAt(w, a, t, s) == []
  {
    hide RecordLocal, FlushLocal, DropLocal, OpenOf, StreamsOk, AllBalanced, RecordedOk, SlotsOk;
    var slots := ThreadOf(w, t).slots;
    match a
    case RecordEvent(u, target, r, event) =>
      if u == t {
        RecordOpens(slots, w.configs[target], r, event, s);
      }
    case FlushThread(u, target, r) =>
      if u == t {
        FlushOpens(slots, target, r, s);
      }
    case DropSlot(u, r) =>
      if u == t {
        IdleThread(w, t);
        DropOpens(slots, r, s);
      }
    case _ =>
  }

  /** In every run with a monotonic clock each open segment has the shape. */
  lemma {:induction false} OpenShapedInRuns(run: seq<World>, actions: seq<Action>, i: nat, t: ThreadId, s: SinkId)
    requires IsRun(run, actions) && ClockIsMonotonic(run, actions) && i < |run|
    ensures OpenShaped(OpenOf(ThreadOf(run[i], t).slots, s), Clock(run, actions, i, t, s))
  {
    hide Next, Enabled, Inv, Shaped, GoesForward, ReadsAt, Targets;
    if i > 0 {
      OpenShapedInRuns(run, actions, i - 1, t, s);
      RunKeepsInv(run, actions, i - 1);
      if Targets(run[i - 1], actions[i - 1], t, s) {
        TargetStepShaped(run[i - 1], actions[i - 1], t, s, Clock(run, actions, i - 1, t, s));
      } else {
        OtherStepShaped(run[i - 1], actions[i - 1], t, s);
      }
    }
  }

  /** A step leaves new bytes in hand only by taking a targeted segment. */
  lemma HandFrom(w: World, a: Action, t: ThreadId) returns (s: SinkId)
    requires Enabled(w, a)
    ensures Targets(w, a, t, s) || ThreadOf(Next(w, a), t).inHand.None?
      || ThreadOf(Next(w, a), t).inHand == ThreadOf(w, t).inHand
  {
    hide RecordLocal, FlushLocal, DropLocal;
    s := match a
      case RecordEvent(_, target, _, _) => target
      case FlushThread(_, target, _) => target
      case DropSlot(u, _) => ThreadOf(w, u).slots[0].sink
      case _ => 0;
  }

  lemma {:induction false} HandShapedInRuns(run: seq<World>, actions: seq<Action>, i: nat, t: ThreadId)
    requires IsRun(run, actions) && ClockIsMonotonic(run, actions) && i < |run|
    ensures HandShaped(ThreadOf(run[i], t).inHand)
  {
    hide Next, Enabled, Inv, Shaped, GoesForward, ReadsAt, Targets;
    if i > 0 {
      HandShapedInRuns(run, actions, i - 1, t);
      var s := HandFrom(run[i - 1], actions[i - 1], t);
      if Targets(run[i - 1], actions[i - 1], t, s) {
        OpenShapedInRuns(run, actions, i - 1, t, s);
        RunKeepsInv(run, actions, i - 1);
        TargetStepShaped(run[i - 1], actions[i - 1], t, s, Clock(run, actions, i - 1, t, s));
      }
    }
  }

  lemma WrittenFrom(w: World, a: Action, s: SinkId, n: nat)
    requires Enabled(w, a) && s in Next(w, a).written && n < |Next(w, a).written[s]|
    ensures var f := Next(w, a).written[s][n].1;
      || (s in w.written && n < |w.written[s]| && f == w.written[s][n].1)
      || (a.AppendSegment? && ThreadOf(w, a.thread).inHand.Some? && f == ThreadOf(w, a.thread).inHand.value.flushed)
  {
    hide RecordLocal, FlushLocal, DropLocal;
  }

  /** Every segment a sink's stream is made of: its first event was read before the open
      anchor, all its other events after it, and the close reading after all of them. */
  lemma {:induction false} WrittenIsShaped(run: seq<World>, actions: seq<Action>, i: nat, s: SinkId, n: nat)
    requires IsRun(run, actions) && ClockIsMonotonic(run, actions) && i < |run|
    requires s in run[i].written && n < |run[i].written[s]|
    ensures FlushedShaped(run[i].written[s][n].1)
  {
    hide Next, Enabled, FlushedShaped, GoesForward, ReadsAt;
    if i > 0 {
      WrittenFrom(run[i - 1], actions[i - 1], s, n);
      if s in run[i - 1].written && n < |run[i - 1].written[s]|
        && run[i].written[s][n].1 == run[i - 1].written[s][n].1 {
        WrittenIsShaped(run, actions, i - 1, s, n);
      } else {
        HandShapedInRuns(run, actions, i - 1, actions[i - 1].thread);
      }
    }
  }

  lemma {:induction false} FedTicks(fed: Stampeds)
    ensures TicksOf(CallsOf(fed)) == TicksIn(fed)
  {
    hide ToEvent;
    if fed != [] {
      var n := |fed| - 1;
      var (tick, event) := fed[n];
      FedTicks(fed[..n]);
      assert fed == fed[..n] + [(tick, event)];
      FedSnoc(fed[..n], tick, event);
      TicksSnoc(fed[..n], tick, event);
      assert CallsOf(fed)[..n] == CallsOf(fed[..n]);
    }
  }

  /** How far every decoded tick of a flushed segment is ahead of the true one: the
      distance from the first event's tick to the open anchor's. */
  function LeadOf(f: Flushed): int
    requires f.fed != []
  {
    f.anchor.tick - f.fed[0].0
  }

  /** Where the reader of a flushed segment places its k-th event. */
  ghost predicate PlacedExactly(f: Flushed, k: nat)
    requires k < |f.fed| && LeadOf(f) >= 0
  {
    var segment, tick := SegmentOf(f), Capped(f.fed[k].0 + LeadOf(f));
    var earliest, latest := f.anchor.unixMicros, f.anchor.unixMicros + MonoSpan(segment);
    && k < |segment.records| && AbsoluteTick(segment, k + 1) == tick
    && (FitsSpan(segment, tick) <==> Interpolated(segment, tick) <= MonoSpan(segment))
    && (f.fed[k].0 + LeadOf(f) <= f.closeTick ==> FitsSpan(segment, tick))
    && (FitsSpan(segment, tick) && latest < U64_LIMIT ==> earliest <= EventTime(segment, k) <= latest)
  }

  lemma ShapedLead(f: Flushed)
    requires FlushedShaped(f)
    ensures f.fed != [] && NonDecreasing(TicksIn(f.fed)) && LeadOf(f) == Lead(f.anchor.tick, TicksIn(f.fed))
  {
  }

  lemma FlushedCarries(f: Flushed)
    requires |After(f.anchor, CallsOf(f.fed)).strings| <= U32_LIMIT
    ensures SegmentOf(f).anchor == f.anchor && SegmentOf(f).closeTick == f.closeTick
    ensures Carries(SegmentOf(f), TicksIn(f.fed))
  {
    hide After, WireOf, Carries, CallsOf;
    FedTicks(f.fed);
    DescribedCarries(f.anchor, CallsOf(f.fed), f.closeMono, f.closeTick);
  }

  lemma ShapedIsPlaced(f: Flushed, k: nat)
    requires FlushedShaped(f) && k < |f.fed|
    requires |After(f.anchor, CallsOf(f.fed)).strings| <= U32_LIMIT
    ensures LeadOf(f) >= 0 && PlacedExactly(f, k)
  {
    hide Interpolated, FitsSpan, AbsoluteTick, EventTime, After, SegmentOf, CallsOf, FlushedShaped;
    hide MonoSpan, Capped, Lead, Backward, Carries, NonDecreasing;
    ShapedLead(f);
    FlushedCarries(f);
    var segment, ticks := SegmentOf(f), TicksIn(f.fed);
    TickReconstruction(segment, ticks, k);
    OnlyFirstStepsBack(f.anchor.tick, ticks, k);
    FitsSpanExactly(segment, LeadingTick(segment, ticks, k));
    if f.anchor.unixMicros + MonoSpan(segment) < U64_LIMIT {
      TimesOrdered(segment, ticks, k, k);
    }
    if f.fed[k].0 + LeadOf(f) <= f.closeTick {
      BracketSuffices(segment, ticks, k);
    }
  }

  /** The times a reader reconstructs for any segment in any stream, under a monotonic
      clock: each decoded tick is the true one plus the lead; the time lies within the
      mono span exactly when that tick fits it, and it does whenever the tick does not
      pass the close reading. */
  lemma StreamTimesExact(run: seq<World>, actions: seq<Action>, i: nat, s: SinkId, n: nat, k: nat)
    requires IsRun(run, actions) && ClockIsMonotonic(run, actions) && i < |run|
    requires s in run[i].written && n < |run[i].written[s]| && k < |run[i].written[s][n].1.fed|
    requires var f := run[i].written[s][n].1; |After(f.anchor, CallsOf(f.fed)).strings| <= U32_LIMIT
    ensures var f := run[i].written[s][n].1; LeadOf(f) >= 0 && PlacedExactly(f, k)
  {
    hide Next, Enabled, PlacedExactly, After, CallsOf, GoesForward, ReadsAt, FlushedShaped;
    WrittenIsShaped(run, actions, i, s, n);
    ShapedIsPlaced(run[i].written[s][n].1, k);
  }
}
