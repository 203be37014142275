/** Wall-clock reconstruction: folding record deltas back onto ticks and
    interpolating them between a segment's open and close readings. */
module Timeline {
  import opened Options
  import opened Wire
  import opened Segment
  import opened Encoder

  // -------------------------------------------------------------------- the code

  /** The decoder's running tick after the first `k` records. */
  function AbsoluteTick(segment: Segment, k: nat): U64
    requires k <= |segment.records|
  {
    if k == 0 then segment.anchor.tick
    else SaturatingAdd(AbsoluteTick(segment, k - 1), segment.records[k - 1].tsDelta)
  }

  function TickSpan(segment: Segment): U64 {
    SaturatingSub(segment.closeTick, segment.anchor.tick)
  }

  function MonoSpan(segment: Segment): U64 {
    SaturatingSub(segment.closeMonoMicros, segment.anchor.monoMicros)
  }

  /** Microseconds into the segment, before the conversion back to 64 bits. */
  function Interpolated(segment: Segment, tick: U64): nat {
    if TickSpan(segment) == 0 then 0
    else Scaled(SaturatingSub(tick, segment.anchor.tick), MonoSpan(segment), TickSpan(segment))
  }

  /** `t * m / d` in 128-bit arithmetic, which holds every product of two 64-bit numbers. */
  function Scaled(t: nat, m: nat, d: nat): nat
    requires d > 0
  {
    var product: nat := t * m;
    product / d
  }

  /** The reconstructed time of record `k`: the quotient is truncated to 64 bits
      and added in wrapping 64-bit arithmetic. */
  function EventTime(segment: Segment, k: nat): U64
    requires k < |segment.records|
  {
    (segment.anchor.unixMicros + Interpolated(segment, AbsoluteTick(segment, k + 1)) % U64_LIMIT) % U64_LIMIT
  }

  /** `event_unix_micros`. */
  method EventUnixMicros(segment: Segment) returns (times: seq<U64>)
    ensures |times| == |segment.records|
    ensures forall k :: 0 <= k < |times| ==> times[k] == EventTime(segment, k)
  {
    var tickSpan := SaturatingSub(segment.closeTick, segment.anchor.tick);
    var monoSpan := SaturatingSub(segment.closeMonoMicros, segment.anchor.monoMicros);
    var absTick := segment.anchor.tick;
    times := [];
    for i := 0 to |segment.records|
      invariant absTick == AbsoluteTick(segment, i)
      invariant |times| == i
      invariant forall k :: 0 <= k < i ==> times[k] == EventTime(segment, k)
    {
      absTick := SaturatingAdd(absTick, segment.records[i].tsDelta);
      var elapsed := if tickSpan == 0 then 0
                     else Scaled(SaturatingSub(absTick, segment.anchor.tick), monoSpan, tickSpan) % U64_LIMIT;
      times := times + [(segment.anchor.unixMicros + elapsed) % U64_LIMIT];
    }
  }

  // --------------------------------------------------------- what was really fed

  /** The ticks of the record calls, in order. */
  function TicksOf(calls: seq<Call>): seq<U64> {
    if calls == [] then [] else
    var before, last := calls[..|calls| - 1], calls[|calls| - 1];
    if last.RecordCall? then TicksOf(before) + [last.tick] else TicksOf(before)
  }

  /** The total distance by which the first `k` ticks stepped backwards. */
  function Backward(open: U64, ticks: seq<U64>, k: nat): nat
    requires k <= |ticks|
  {
    if k == 0 then 0
    else Backward(open, ticks, k - 1) + SaturatingSub(Previous(open, ticks, k - 1), ticks[k - 1])
  }

  function Previous(open: U64, ticks: seq<U64>, k: nat): U64
    requires k < |ticks|
  {
    if k == 0 then open else ticks[k - 1]
  }

  ghost predicate DeltasAre<N>(open: U64, records: seq<Record<N>>, ticks: seq<U64>) {
    && |records| == |ticks|
    && forall k :: 0 <= k < |ticks| ==> records[k].tsDelta == SaturatingSub(ticks[k], Previous(open, ticks, k))
  }

  function LastTick(open: U64, ticks: seq<U64>): U64 {
    if ticks == [] then open else ticks[|ticks| - 1]
  }

  lemma DeltasSnoc(open: U64, fed: seq<Record<Bytes>>, ticks: seq<U64>, event: Event, tick: U64)
    requires DeltasAre(open, fed, ticks)
    ensures var delta := SaturatingSub(tick, LastTick(open, ticks));
      DeltasAre(open, fed + [Stamped(event, delta, event.name)], ticks + [tick])
  {
    forall k | 0 <= k < |ticks| ensures Previous(open, ticks + [tick], k) == Previous(open, ticks, k) {
    }
  }

  /** The deltas of the fed records are the forward steps between the fed ticks. */
  lemma {:induction false} FedDeltas(anchor: SegmentAnchor, calls: seq<Call>)
    ensures OpenTick(anchor, calls) == LastTick(anchor.tick, TicksOf(calls))
    ensures DeltasAre(anchor.tick, Fed(anchor, calls), TicksOf(calls))
  {
    hide DeltasAre, Stamped, SaturatingSub;
    if calls == [] {
      NoDeltas(anchor.tick);
    } else {
      var before, last := calls[..|calls| - 1], calls[|calls| - 1];
      FedDeltas(anchor, before);
      if last.RecordCall? {
        DeltasSnoc(anchor.tick, Fed(anchor, before), TicksOf(before), last.event, last.tick);
      }
    }
  }

  lemma NoDeltas(open: U64)
    ensures DeltasAre<Bytes>(open, [], [])
  {
  }

  /** A segment whose records carry the deltas of `ticks`. */
  ghost predicate Carries(segment: Segment, ticks: seq<U64>) {
    DeltasAre(segment.anchor.tick, segment.records, ticks)
  }

  /** Every segment the encoder describes carries the ticks it was fed. */
  lemma DescribedCarries(anchor: SegmentAnchor, calls: seq<Call>, closeMono: U64, closeTick: U64)
    requires |After(anchor, calls).strings| <= U32_LIMIT
    ensures Carries(Described(anchor, calls, closeMono, closeTick), TicksOf(calls))
  {
    hide After, WireOf, Fed, TicksOf, OpenTick;
    FedDeltas(anchor, calls);
    IndicesResolve(anchor, calls);
  }

  function Capped(n: nat): U64 {
    if n < U64_LIMIT then n else U64_LIMIT - 1
  }

  /** One saturating step of the decoder from a tick that is `back` ahead. */
  lemma CappedStep(previous: U64, tick: U64, back: nat)
    ensures SaturatingAdd(Capped(previous + back), SaturatingSub(tick, previous))
      == Capped(tick + (back + SaturatingSub(previous, tick)))
  {
  }

  lemma DeltaAt(segment: Segment, ticks: seq<U64>, k: nat)
    requires Carries(segment, ticks) && k < |ticks|
    ensures |segment.records| == |ticks|
    ensures segment.records[k].tsDelta == SaturatingSub(ticks[k], Previous(segment.anchor.tick, ticks, k))
  {
  }

  /** The decoded absolute tick of each record is the true tick plus all backward
      steps so far, capped at the largest 64-bit value. */
  lemma {:induction false} TickReconstruction(segment: Segment, ticks: seq<U64>, k: nat)
    requires Carries(segment, ticks) && k < |ticks|
    ensures k < |segment.records|
    ensures AbsoluteTick(segment, k + 1) == Capped(ticks[k] + Backward(segment.anchor.tick, ticks, k + 1))
  {
    hide Carries, SaturatingSub, SaturatingAdd, Capped;
    var open := segment.anchor.tick;
    DeltaAt(segment, ticks, k);
    assert Backward(open, ticks, k + 1) == Backward(open, ticks, k) + SaturatingSub(Previous(open, ticks, k), ticks[k]);
    CappedStep(Previous(open, ticks, k), ticks[k], Backward(open, ticks, k));
    if k > 0 {
      TickReconstruction(segment, ticks, k - 1);
    } else {
      assert AbsoluteTick(segment, 0) == open;
      UncappedOpen(open);
    }
  }

  lemma UncappedOpen(open: U64)
    ensures Capped(open) == open
  {
  }

  lemma CancelLess(a: int, b: int, d: nat)
    requires a * d < b * d
    ensures a < b
  {
  }

  lemma DivideMonotone(a: nat, b: nat, m: nat, d: nat)
    requires d > 0 && a <= b
    ensures a * m / d <= b * m / d
  {
    var x, y := a * m, b * m;
    assert x <= y;
    var p, q := x / d, y / d;
    assert x == p * d + x % d && y == q * d + y % d;
    assert (p - q) * d == p * d - q * d;
    CancelLess(p - q, 1, d);
  }

  /** A quotient does not pass a whole number exactly when the dividend stays below the next multiple. */
  lemma QuotientAtMost(x: nat, d: nat, m: nat)
    requires d > 0
    ensures x / d <= m <==> x < (m + 1) * d
  {
    var q := x / d;
    assert x == q * d + x % d;
    if q <= m {
      assert (m - q) * d >= 0;
      assert (m + 1) * d == q * d + (m - q) * d + d;
    } else {
      assert (q - (m + 1)) * d >= 0;
      assert q * d == (m + 1) * d + (q - (m + 1)) * d;
    }
  }

  /** The condition under which a decoded tick maps into the mono span: something a
      caller can compute from the readings and the fed ticks. */
  predicate FitsSpan(segment: Segment, tick: U64) {
    TickSpan(segment) == 0
    || SaturatingSub(tick, segment.anchor.tick) * MonoSpan(segment) < (MonoSpan(segment) + 1) * TickSpan(segment)
  }

  lemma FitsSpanExactly(segment: Segment, tick: U64)
    ensures Interpolated(segment, tick) <= MonoSpan(segment) <==> FitsSpan(segment, tick)
  {
    if TickSpan(segment) > 0 {
      QuotientAtMost(SaturatingSub(tick, segment.anchor.tick) * MonoSpan(segment), TickSpan(segment),
          MonoSpan(segment));
    }
  }

  lemma ProductBelowNext(t: nat, m: nat, d: nat)
    requires d > 0 && t <= d
    ensures t * m < (m + 1) * d
  {
    assert (d - t) * m >= 0;
    assert (d - t) * m == d * m - t * m;
    assert (m + 1) * d == d * m + d;
  }

  /** A decoded tick at or before the close reading always fits. */
  lemma InsideBracket(segment: Segment, tick: U64)
    requires tick <= segment.closeTick
    ensures FitsSpan(segment, tick)
  {
    if TickSpan(segment) > 0 {
      ProductBelowNext(SaturatingSub(tick, segment.anchor.tick), MonoSpan(segment), TickSpan(segment));
    }
  }

  lemma InterpolationMonotone(segment: Segment, a: U64, b: U64)
    requires a <= b
    ensures Interpolated(segment, a) <= Interpolated(segment, b)
  {
    if TickSpan(segment) > 0 {
      DivideMonotone(SaturatingSub(a, segment.anchor.tick), SaturatingSub(b, segment.anchor.tick),
                     MonoSpan(segment), TickSpan(segment));
    }
  }

  /** Exactly which times lie within the mono span, for any fed ticks. */
  lemma WithinSpanExactly(segment: Segment, ticks: seq<U64>, k: nat)
    requires Carries(segment, ticks) && k < |ticks|
    ensures Interpolated(segment, AbsoluteTick(segment, k + 1)) <= MonoSpan(segment)
      <==> FitsSpan(segment, Capped(ticks[k] + Backward(segment.anchor.tick, ticks, k + 1)))
  {
    hide Interpolated, FitsSpan, AbsoluteTick, MonoSpan, Capped, Backward, Carries;
    TickReconstruction(segment, ticks, k);
    FitsSpanExactly(segment, AbsoluteTick(segment, k + 1));
  }

  // ------------------------------------------------------ ticks that never decrease

  predicate NonDecreasing(ticks: seq<U64>) {
    forall j, k :: 0 <= j < k < |ticks| ==> ticks[j] <= ticks[k]
  }

  /** How far every decoded tick is ahead of the true one: the distance by which the
      first tick was read before the anchor's. */
  function Lead(open: U64, ticks: seq<U64>): nat {
    if ticks == [] then 0 else SaturatingSub(open, ticks[0])
  }

  lemma {:induction false} OnlyFirstStepsBack(open: U64, ticks: seq<U64>, k: nat)
    requires NonDecreasing(ticks) && k < |ticks|
    ensures Backward(open, ticks, k + 1) == Lead(open, ticks)
  {
    assert Backward(open, ticks, k + 1) == Backward(open, ticks, k) + SaturatingSub(Previous(open, ticks, k), ticks[k]);
    if k > 0 {
      OnlyFirstStepsBack(open, ticks, k - 1);
    }
  }

  /** The tick the decoder reconstructs for the k-th of a non-decreasing feed. */
  function LeadingTick(segment: Segment, ticks: seq<U64>, k: nat): U64
    requires k < |ticks|
  {
    Capped(ticks[k] + Lead(segment.anchor.tick, ticks))
  }

  /** For ticks that never decrease, wherever the first lies: each decoded tick is the
      true one plus the lead; the time is within the mono span exactly when that tick
      fits it; and then, if the wall clock plus the mono span fits 64 bits, nothing was
      truncated and no earlier record has a later time. */
  lemma TimesOrdered(segment: Segment, ticks: seq<U64>, j: nat, k: nat)
    requires Carries(segment, ticks) && NonDecreasing(ticks) && j <= k < |ticks|
    requires segment.anchor.unixMicros + MonoSpan(segment) < U64_LIMIT
    ensures AbsoluteTick(segment, k + 1) == LeadingTick(segment, ticks, k)
    ensures Interpolated(segment, LeadingTick(segment, ticks, k)) <= MonoSpan(segment)
      <==> FitsSpan(segment, LeadingTick(segment, ticks, k))
    ensures FitsSpan(segment, LeadingTick(segment, ticks, k)) ==>
      && EventTime(segment, k) == segment.anchor.unixMicros + Interpolated(segment, LeadingTick(segment, ticks, k))
      && segment.anchor.unixMicros <= EventTime(segment, j) <= EventTime(segment, k)
      && EventTime(segment, k) <= segment.anchor.unixMicros + MonoSpan(segment)
  {
    hide Interpolated, FitsSpan, AbsoluteTick, EventTime, MonoSpan, Capped, Lead, Backward, Carries, NonDecreasing;
    TickReconstruction(segment, ticks, k);
    OnlyFirstStepsBack(segment.anchor.tick, ticks, k);
    FitsSpanExactly(segment, LeadingTick(segment, ticks, k));
    if FitsSpan(segment, LeadingTick(segment, ticks, k)) {
      TimePlain(segment, k);
      TimesNeverDecrease(segment, j, k);
    }
  }

  /** It suffices that the tick plus the lead is at or before the close reading - for a
      first tick inside the bracket, that the tick is. */
  lemma BracketSuffices(segment: Segment, ticks: seq<U64>, k: nat)
    requires k < |ticks| && ticks[k] + Lead(segment.anchor.tick, ticks) <= segment.closeTick
    ensures FitsSpan(segment, LeadingTick(segment, ticks, k))
  {
    InsideBracket(segment, LeadingTick(segment, ticks, k));
  }

  /** All times of a segment lie within the mono span exactly when the last tick's does. */
  lemma LastTickDecides(segment: Segment, ticks: seq<U64>)
    requires NonDecreasing(ticks) && ticks != []
    ensures (forall k :: 0 <= k < |ticks| ==> FitsSpan(segment, LeadingTick(segment, ticks, k)))
      <==> FitsSpan(segment, LeadingTick(segment, ticks, |ticks| - 1))
  {
    hide Interpolated, FitsSpan, MonoSpan;
    var last := |ticks| - 1;
    forall k | 0 <= k < |ticks| && FitsSpan(segment, LeadingTick(segment, ticks, last))
      ensures FitsSpan(segment, LeadingTick(segment, ticks, k))
    {
      FitsSpanExactly(segment, LeadingTick(segment, ticks, k));
      FitsSpanExactly(segment, LeadingTick(segment, ticks, last));
      InterpolationMonotone(segment, LeadingTick(segment, ticks, k), LeadingTick(segment, ticks, last));
    }
  }

  /** Whatever ticks were fed, reconstructed times never decrease as long as the
      64-bit sums do not wrap: the decoder's running tick only grows. */
  lemma TimesNeverDecrease(segment: Segment, j: nat, k: nat)
    requires j <= k < |segment.records|
    requires segment.anchor.unixMicros + Interpolated(segment, AbsoluteTick(segment, k + 1)) < U64_LIMIT
    ensures segment.anchor.unixMicros <= EventTime(segment, j) <= EventTime(segment, k)
  {
    hide Interpolated, MonoSpan;
    AbsoluteTickGrows(segment, j + 1, k + 1);
    InterpolationMonotone(segment, AbsoluteTick(segment, j + 1), AbsoluteTick(segment, k + 1));
    TimePlain(segment, j);
    TimePlain(segment, k);
  }

  lemma TimePlain(segment: Segment, k: nat)
    requires k < |segment.records|
    requires segment.anchor.unixMicros + Interpolated(segment, AbsoluteTick(segment, k + 1)) < U64_LIMIT
    ensures EventTime(segment, k) == segment.anchor.unixMicros + Interpolated(segment, AbsoluteTick(segment, k + 1))
  {
    hide Interpolated, AbsoluteTick;
  }

  lemma {:induction false} AbsoluteTickGrows(segment: Segment, j: nat, k: nat)
    requires j <= k <= |segment.records|
    ensures AbsoluteTick(segment, j) <= AbsoluteTick(segment, k)
  {
    if j < k {
      AbsoluteTickGrows(segment, j, k - 1);
    }
  }

  /** The sink reads an event's tick before it reads the anchor of the segment it
      opens for it, so the first fed tick lies before the open tick. The bracket
      is then not respected: here ticks 100 and 200 are fed to a segment opened
      at 105 and closed at 203, and the second time lies past the mono span. */
  lemma TickBeforeAnchorOvershoots()
    ensures var anchor := SegmentAnchor(Monotonic, 0, 0, 105);
      var calls := [RecordCall(100, DiedEvent(1, 1, [65], 0, None)), RecordCall(200, DiedEvent(2, 1, [65], 0, None))];
      var segment := Described(anchor, calls, 9800, 203);
      && |segment.records| == 2
      && EventTime(segment, 1) > anchor.unixMicros + MonoSpan(segment)
  {
    hide IndexOf, Interned, EncodeRecord, Distinct;
    var anchor := SegmentAnchor(Monotonic, 0, 0, 105);
    var first := RecordCall(100, DiedEvent(1, 1, [65], 0, None));
    var second := RecordCall(200, DiedEvent(2, 1, [65], 0, None));
    var calls := [first, second];
    assert calls[..1] == [first] && [first][..0] == [];
    var segment := Described(anchor, calls, 9800, 203);
    assert WireOf(anchor, [first])[0].tsDelta == 0;
    assert segment.records[1].tsDelta == 100;
    assert AbsoluteTick(segment, 1) == 105;
    assert AbsoluteTick(segment, 2) == 205;
  }
}
