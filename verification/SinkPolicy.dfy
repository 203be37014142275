/** When a thread's open segment is flushed, and which clock readings it carries. */
module SinkPolicy {

  import opened Options
  import opened Wire
  import opened Segment
  import opened Encoder
  import opened Sink
  import opened SinkTimes

  /** The anchor of the sink's open segment, or of the one opened now. */
  function AnchorFor(open: Option<Open>, config: Config, r: Sink.Readings): SegmentAnchor {
    if open.Some? then open.value.state.anchor
    else SegmentAnchor(config.mode, r.openUnix, r.openMono, r.openTick)
  }

  function FedBefore(open: Option<Open>): Stampeds {
    if open.Some? then open.value.fed else []
  }

  /** A segment is due once its records reach the size threshold, or the event's tick is
      the age threshold or more past the open tick. */
  predicate IsDue(config: Config, anchor: SegmentAnchor, fed: Stampeds, tick: U64) {
    || |After(anchor, CallsOf(fed)).records| >= config.sizeThreshold
    || tick >= anchor.tick + config.maxAgeTicks
    || config.maxAgeTicks == 0
  }

  /** A slot with its sink's thresholds; an open segment in it is below the size threshold. */
  predicate SlotFits(slot: Slot, config: Config) {
    && slot.sink == config.sink && slot.sizeThreshold == config.sizeThreshold && slot.maxAgeTicks == config.maxAgeTicks
    && (slot.open.Some? ==>
          slot.openTick == slot.open.value.state.anchor.tick && |slot.open.value.state.records| < config.sizeThreshold)
  }

  predicate SlotsFit(slots: seq<Slot>, configs: map<SinkId, Config>) {
    forall i :: 0 <= i < |slots| ==> slots[i].sink in configs && SlotFits(slots[i], configs[slots[i].sink])
  }

  // --------------------------------------------------------------- one record call

  lemma RecordOnSlot(slots: seq<Slot>, config: Config)
    requires SlotsOk(slots)
    requires SlotIndex(slots, config.sink) < |slots| ==> SlotFits(slots[SlotIndex(slots, config.sink)], config)
    ensures var slot := SlotFor(slots, config);
      && SlotFits(slot, config) && slot.open == OpenOf(slots, config.sink)
      && (slot.open.Some? ==> OpenOk(slot.open.value))
  {
    hide OpenOk;
  }

  /** What a record call does: the event joins the sink's segment, which is taken with the
      close readings exactly if it is due, and is left open otherwise. */
  lemma RecordMeans(slots: seq<Slot>, config: Config, r: Sink.Readings, event: CaptureEvent)
    requires SlotsOk(slots) && WellFormed(event)
    requires SlotIndex(slots, config.sink) < |slots| ==> SlotFits(slots[SlotIndex(slots, config.sink)], config)
    ensures var (after, hand) := RecordLocal(slots, config, r, event);
      var anchor := AnchorFor(OpenOf(slots, config.sink), config, r);
      var fed := FedBefore(OpenOf(slots, config.sink)) + [(r.tick, event)];
      && (hand.Some? <==> IsDue(config, anchor, fed, r.tick))
      && (hand.Some? ==>
            hand.value.flushed == Flushed(anchor, fed, r.closeMono, r.closeTick) && OpenOf(after, config.sink).None?)
      && (hand.None? ==>
            OpenOf(after, config.sink).Some? && OpenOf(after, config.sink).value.fed == fed
            && OpenOf(after, config.sink).value.state == After(anchor, CallsOf(fed)))
  {
    hide Put, OpenOf, ToEvent, Finished, OpenOk, SlotsOk, Apply, After, WellFormed;
    RecordOnSlot(slots, config);
    var slot := Opened(SlotFor(slots, config), config, r);
    var before := slot.open.value;
    FreshOpen(SegmentAnchor(config.mode, r.openUnix, r.openMono, r.openTick));
    OpenExtends(before, r.tick, event);
    var open := Open(Apply(before.state, RecordCall(r.tick, ToEvent(event))), before.fed + [(r.tick, event)]);
    AnchorStays(before.state, RecordCall(r.tick, ToEvent(event)));
    OpenMeans(open);
    PutOpen(slots, slot.(open := None), config.sink);
    PutOpen(slots, slot.(open := Some(open)), config.sink);
  }

  lemma OpenMeans(open: Open)
    requires OpenOk(open)
    ensures open.state == After(open.state.anchor, CallsOf(open.fed))
  {
  }

  lemma AnchorStays(state: State, call: Call)
    ensures Apply(state, call).anchor == state.anchor
  {
  }

  /** And every slot still fits its sink's thresholds. */
  lemma RecordFits(slots: seq<Slot>, configs: map<SinkId, Config>, s: SinkId, r: Sink.Readings, event: CaptureEvent)
    requires s in configs && configs[s].sink == s && SlotsFit(slots, configs)
    ensures SlotsFit(RecordLocal(slots, configs[s], r, event).0, configs)
  {
    hide ToEvent, Finished, EncodeRecord;
    AnchorStays(Opened(SlotFor(slots, configs[s]), configs[s], r).open.value.state, RecordCall(r.tick, ToEvent(event)));
  }

  // ------------------------------------------------------------------- whole runs

  ghost predicate AllFitted(w: World) {
    && (forall s :: s in w.configs ==> w.configs[s].sink == s)
    && forall t :: t in w.threads ==> SlotsFit(w.threads[t].slots, w.configs)
  }

  lemma StepKeepsFit(w: World, a: Action)
    requires AllFitted(w) && w.configs.Keys == w.streams.Keys && Enabled(w, a)
    ensures AllFitted(Next(w, a))
  {
    hide RecordLocal, SlotFits;
    if a.RecordEvent? {
      RecordFits(ThreadOf(w, a.thread).slots, w.configs, a.sink, a.readings, a.event);
    } else if a.FlushThread? {
      FlushFits(ThreadOf(w, a.thread).slots, w.configs, a.sink, a.readings);
    } else if a.CreateSink? {
      CreateFits(w, a.config);
    }
  }

  lemma FlushFits(slots: seq<Slot>, configs: map<SinkId, Config>, s: SinkId, r: Sink.Readings)
    requires SlotsFit(slots, configs)
    ensures SlotsFit(FlushLocal(slots, s, r).0, configs)
  {
  }

  lemma CreateFits(w: World, config: Config)
    requires AllFitted(w) && w.configs.Keys == w.streams.Keys && Enabled(w, CreateSink(config))
    ensures AllFitted(Next(w, CreateSink(config)))
  {
  }

  lemma {:induction false} FitInRuns(run: seq<World>, actions: seq<Action>, i: nat)
    requires IsRun(run, actions) && i < |run|
    ensures AllFitted(run[i])
  {
    hide Next, Enabled, SlotsFit, ThreadsOk, StreamsOk, AllBalanced, RecordedOk;
    if i > 0 {
      FitInRuns(run, actions, i - 1);
      RunKeepsInv(run, actions, i - 1);
      StepKeepsFit(run[i - 1], actions[i - 1]);
    }
  }

  /** The thread's open segment for a sink. */
  function OpenAt(w: World, t: ThreadId, s: SinkId): Option<Open> {
    OpenOf(ThreadOf(w, t).slots, s)
  }

  lemma FittedThread(w: World, t: ThreadId)
    requires AllFitted(w)
    ensures SlotsFit(ThreadOf(w, t).slots, w.configs)
  {
  }

  lemma FittedSlot(slots: seq<Slot>, configs: map<SinkId, Config>, s: SinkId)
    requires SlotsFit(slots, configs) && s in configs
    ensures SlotIndex(slots, s) < |slots| ==> SlotFits(slots[SlotIndex(slots, s)], configs[s])
    ensures OpenOf(slots, s).Some? ==> |OpenOf(slots, s).value.state.records| < configs[s].sizeThreshold
  {
  }

  /** In every run a record call flushes exactly when the sink's policy says that the
      segment with the event in it is due. */
  lemma FlushedExactlyWhenDue(run: seq<World>, actions: seq<Action>, i: nat)
    requires IsRun(run, actions) && i < |actions| && actions[i].RecordEvent?
    ensures var w, t, s, r := run[i], actions[i].thread, actions[i].sink, actions[i].readings;
      var fed := FedBefore(OpenAt(w, t, s)) + [(r.tick, actions[i].event)];
      && s in w.configs
      && (ThreadOf(run[i + 1], t).inHand.Some? <==>
          IsDue(w.configs[s], AnchorFor(OpenAt(w, t, s), w.configs[s], r), fed, r.tick))
      && (ThreadOf(run[i + 1], t).inHand.None? ==>
          OpenAt(run[i + 1], t, s).Some? && OpenAt(run[i + 1], t, s).value.fed == fed)
  {
    var w, t, s, r := run[i], actions[i].thread, actions[i].sink, actions[i].readings;
    hide RecordLocal, SlotsFit, IsDue, OpenOf, SlotsOk, StreamsOk, AllBalanced, RecordedOk, ThreadsOk;
    hide WellFormed, SlotFits;
    RunKeepsInv(run, actions, i);
    FitInRuns(run, actions, i);
    IdleThread(w, t);
    FittedThread(w, t);
    FittedSlot(ThreadOf(w, t).slots, w.configs, s);
    RecordMeans(ThreadOf(w, t).slots, w.configs[s], r, actions[i].event);
  }

  /** So in every state every open segment is below its sink's size threshold. */
  lemma OpenStaysBelowThreshold(run: seq<World>, actions: seq<Action>, i: nat, t: ThreadId, s: SinkId)
    requires IsRun(run, actions) && i < |run| && s in run[i].configs && OpenAt(run[i], t, s).Some?
    ensures |OpenAt(run[i], t, s).value.state.records| < run[i].configs[s].sizeThreshold
  {
    hide Next, Enabled, SlotsFit, OpenOf;
    FitInRuns(run, actions, i);
    FittedThread(run[i], t);
    FittedSlot(ThreadOf(run[i], t).slots, run[i].configs, s);
  }

  // ---------------------------------------------------------------- the readings kept

  predicate SinkCall(a: Action) {
    a.RecordEvent? || a.FlushThread? || a.DropSlot?
  }

  /** The step takes the segment: with the anchor it was opened with, what it was fed, and
      the close readings of the step. */
  predicate Takes(w: World, a: Action, t: ThreadId, s: SinkId, f: Flushed)
    requires Enabled(w, a)
  {
    && Targets(w, a, t, s) && SinkCall(a)
    && f.closeMono == a.readings.closeMono && f.closeTick == a.readings.closeTick
    && (if a.RecordEvent? then
          s in w.configs && f.anchor == AnchorFor(OpenAt(w, t, s), w.configs[s], a.readings)
          && f.fed == FedBefore(OpenAt(w, t, s)) + [(a.readings.tick, a.event)]
        else
          OpenAt(w, t, s).Some? && f.anchor == OpenAt(w, t, s).value.state.anchor && f.fed == OpenAt(w, t, s).value.fed)
  }

  lemma HandIsTaken(w: World, a: Action, t: ThreadId) returns (s: SinkId)
    requires Inv(w) && AllFitted(w) && Enabled(w, a) && ThreadOf(Next(w, a), t).inHand.Some?
    ensures ThreadOf(Next(w, a), t).inHand == ThreadOf(w, t).inHand
      || (ThreadOf(Next(w, a), t).inHand.value.sink == s
        && Takes(w, a, t, s, ThreadOf(Next(w, a), t).inHand.value.flushed))
  {
    hide RecordLocal, FlushLocal, DropLocal, SlotsFit, OpenOf, SlotsOk, StreamsOk, AllBalanced, RecordedOk, ThreadsOk;
    hide Finished, IsDue, WellFormed, SlotFits;
    s := 0;
    if SinkCall(a) && a.thread == t {
      IdleThread(w, t);
      FittedThread(w, t);
      var slots := ThreadOf(w, t).slots;
      match a
      case RecordEvent(_, target, r, event) =>
        s := target;
        FittedSlot(slots, w.configs, s);
        RecordMeans(slots, w.configs[s], r, event);
        RecordSink(slots, w.configs[s], r, event);
      case FlushThread(_, target, r) =>
        s := target;
        FlushOpens(slots, s, r, s);
      case DropSlot(_, r) =>
        s := slots[0].sink;
        DropOpens(slots, r, s);
      case _ =>
    }
  }

  lemma RecordSink(slots: seq<Slot>, config: Config, r: Sink.Readings, event: CaptureEvent)
    ensures RecordLocal(slots, config, r, event).1.Some? ==>
      RecordLocal(slots, config, r, event).1.value.sink == config.sink
  {
    hide Put, Apply, ToEvent, Finished, ShouldFlush;
  }

  ghost predicate WasTaken(run: seq<World>, actions: seq<Action>, i: nat, t: ThreadId, s: SinkId, f: Flushed)
    requires IsRun(run, actions) && i <= |actions|
  {
    exists k :: 0 <= k < i && Takes(run[k], actions[k], t, s, f)
  }

  lemma {:induction false} HandWasTaken(run: seq<World>, actions: seq<Action>, i: nat, t: ThreadId)
    requires IsRun(run, actions) && i < |run| && ThreadOf(run[i], t).inHand.Some?
    ensures var hand := ThreadOf(run[i], t).inHand.value; WasTaken(run, actions, i, t, hand.sink, hand.flushed)
  {
    hide Next, Enabled, Inv, AllFitted, Takes;
    if i > 0 {
      RunKeepsInv(run, actions, i - 1);
      FitInRuns(run, actions, i - 1);
      var s := HandIsTaken(run[i - 1], actions[i - 1], t);
      if ThreadOf(run[i], t).inHand == ThreadOf(run[i - 1], t).inHand {
        HandWasTaken(run, actions, i - 1, t);
      }
    }
  }

  lemma WrittenStep(w: World, a: Action, s: SinkId, n: nat)
    requires Enabled(w, a) && s in Next(w, a).written && n < |Next(w, a).written[s]|
    ensures var piece := Next(w, a).written[s][n];
      || (s in w.written && n < |w.written[s]| && piece == w.written[s][n])
      || (a.AppendSegment? && piece.0 == a.thread && ThreadOf(w, a.thread).inHand.Some?
          && ThreadOf(w, a.thread).inHand.value.sink == s && piece.1 == ThreadOf(w, a.thread).inHand.value.flushed)
  {
    hide RecordLocal, FlushLocal, DropLocal;
  }

  /** Every segment in a stream was taken by one call of its thread: it carries the anchor
      read when it was opened, the events fed in between and the close readings of that call. */
  lemma {:induction false} WrittenWasTaken(run: seq<World>, actions: seq<Action>, i: nat, s: SinkId, n: nat)
    requires IsRun(run, actions) && i < |run| && s in run[i].written && n < |run[i].written[s]|
    ensures WasTaken(run, actions, i, run[i].written[s][n].0, s, run[i].written[s][n].1)
  {
    hide Next, Enabled, Takes;
    if i > 0 {
      WrittenStep(run[i - 1], actions[i - 1], s, n);
      if s in run[i - 1].written && n < |run[i - 1].written[s]| && run[i].written[s][n] == run[i - 1].written[s][n] {
        WrittenWasTaken(run, actions, i - 1, s, n);
      } else {
        HandWasTaken(run, actions, i - 1, actions[i - 1].thread);
      }
    }
  }

  /** The step opens the segment with this anchor. */
  predicate Opens(w: World, a: Action, t: ThreadId, s: SinkId, anchor: SegmentAnchor) {
    && a.RecordEvent? && a.thread == t && a.sink == s && OpenAt(w, t, s).None? && s in w.configs
    && anchor == SegmentAnchor(w.configs[s].mode, a.readings.openUnix, a.readings.openMono, a.readings.openTick)
  }

  lemma OpenStep(w: World, a: Action, t: ThreadId, s: SinkId)
    requires Inv(w) && AllFitted(w) && Enabled(w, a) && OpenAt(Next(w, a), t, s).Some?
    ensures var anchor := OpenAt(Next(w, a), t, s).value.state.anchor;
      || (OpenAt(w, t, s).Some? && OpenAt(w, t, s).value.state.anchor == anchor)
      || Opens(w, a, t, s, anchor)
  {
    hide RecordLocal, FlushLocal, DropLocal, SlotsFit, OpenOf, SlotsOk, StreamsOk, AllBalanced, RecordedOk, ThreadsOk;
    hide Finished, IsDue, WellFormed, SlotFits, After;
    if Targets(w, a, t, s) {
      IdleThread(w, t);
      FittedThread(w, t);
      var slots := ThreadOf(w, t).slots;
      match a
      case RecordEvent(_, _, r, event) =>
        FittedSlot(slots, w.configs, s);
        RecordMeans(slots, w.configs[s], r, event);
        AnchorKept(AnchorFor(OpenAt(w, t, s), w.configs[s], r),
            CallsOf(FedBefore(OpenAt(w, t, s)) + [(r.tick, event)]));
      case FlushThread(_, _, r) => FlushOpens(slots, s, r, s);
      case DropSlot(_, r) => DropOpens(slots, r, s);
      case _ =>
    } else {
      OtherStepShaped(w, a, t, s);
    }
  }

  /** An open segment carries the readings of the record call that opened it. */
  lemma {:induction false} OpenWasOpened(run: seq<World>, actions: seq<Action>, i: nat, t: ThreadId, s: SinkId)
    requires IsRun(run, actions) && i < |run| && OpenAt(run[i], t, s).Some?
    ensures exists k :: 0 <= k < i && Opens(run[k], actions[k], t, s, OpenAt(run[i], t, s).value.state.anchor)
  {
    hide Next, Enabled, Inv, AllFitted, Opens;
    if i > 0 {
      RunKeepsInv(run, actions, i - 1);
      FitInRuns(run, actions, i - 1);
      OpenStep(run[i - 1], actions[i - 1], t, s);
      if OpenAt(run[i - 1], t, s).Some?
        && OpenAt(run[i - 1], t, s).value.state.anchor == OpenAt(run[i], t, s).value.state.anchor {
        OpenWasOpened(run, actions, i - 1, t, s);
      }
    }
  }

  lemma StepExits(w: World, a: Action, t: ThreadId)
    requires Enabled(w, a)
    ensures ThreadOf(Next(w, a), t).exiting <==> ThreadOf(w, t).exiting || (a.DropSlot? && a.thread == t)
  {
    hide RecordLocal, FlushLocal, DropLocal;
  }

  /** A thread can record to every sink until its slots begin to be dropped. */
  lemma {:induction false} ExitingExactly(run: seq<World>, actions: seq<Action>, i: nat, t: ThreadId)
    requires IsRun(run, actions) && i < |run|
    ensures ThreadOf(run[i], t).exiting <==> exists k :: 0 <= k < i && actions[k].DropSlot? && actions[k].thread == t
  {
    hide Next, Enabled;
    if i > 0 {
      ExitingExactly(run, actions, i - 1, t);
      StepExits(run[i - 1], actions[i - 1], t);
    }
  }
}
