/** The segment encoder: interning, tick deltas and the bytes of a finished
    segment, and the proof that decoding recovers what the encoder was fed. */
module Encoder {
  import opened Options
  import opened Wire
  import opened Varint
  import opened Segment

  /** What a record call is fed, besides the tick. */
  datatype Event =
    | SpawnedEvent(evSeq: U64, actorId: NonZeroU64, name: Bytes,
                   parent: Option<NonZeroU64>, causedBy: Option<EventRef>)
    | DiedEvent(evSeq: U64, actorId: NonZeroU64, name: Bytes, reason: Byte, causedBy: Option<EventRef>)
    | MessageEvent(evSeq: U64, actorId: NonZeroU64, from: Option<NonZeroU64>, name: Bytes,
                   dispatch: Byte, causedBy: Option<EventRef>, payload: Bytes)

  /** One call on an open encoder. */
  datatype Call =
    | RecordCall(tick: U64, event: Event)
    | InterpretationCall(blob: Bytes)
    | SchemaCall(blob: Bytes)

  /** The encoder's fields as one value. */
  datatype State = State(
    anchor: SegmentAnchor,
    lastTick: U64,
    strings: seq<Bytes>,
    interpretations: seq<Bytes>,
    schemas: seq<Bytes>,
    records: Bytes)

  function Fresh(anchor: SegmentAnchor): State {
    State(anchor, anchor.tick, [], [], [], [])
  }

  /** Index of the first occurrence, or the length if there is none. */
  function IndexOf(table: seq<Bytes>, item: Bytes): (i: nat)
    ensures i <= |table|
    ensures i < |table| ==> table[i] == item
    ensures i < |table| <==> item in table
    ensures item !in table[..i]
  {
    if table == [] || table[0] == item then 0
    else
      var i := 1 + IndexOf(table[1..], item);
      assert table[..i] == [table[0]] + table[1..][..i - 1];
      i
  }

  function Interned(table: seq<Bytes>, item: Bytes): seq<Bytes> {
    if item in table then table else table + [item]
  }

  function Stamped<N>(event: Event, delta: U64, name: N): Record<N> {
    match event
    case SpawnedEvent(evSeq, actorId, _, parent, causedBy) => Spawned(delta, evSeq, actorId, name, parent, causedBy)
    case DiedEvent(evSeq, actorId, _, reason, causedBy) => Died(delta, evSeq, actorId, name, reason, causedBy)
    case MessageEvent(evSeq, actorId, from, _, dispatch, causedBy, payload) =>
      Message(delta, evSeq, actorId, from, name, dispatch, causedBy, payload)
  }

  /** The record a call puts on the wire; the index is truncated to 32 bits. */
  function OnWire(state: State, tick: U64, event: Event): WireRecord {
    Stamped(event, SaturatingSub(tick, state.lastTick), IndexOf(state.strings, event.name) % U32_LIMIT)
  }

  function Apply(state: State, call: Call): State {
    match call
    case RecordCall(tick, event) =>
      state.(lastTick := tick,
             strings := Interned(state.strings, event.name),
             records := state.records + EncodeRecord(OnWire(state, tick, event)))
    case InterpretationCall(blob) => state.(interpretations := Interned(state.interpretations, blob))
    case SchemaCall(blob) => state.(schemas := Interned(state.schemas, blob))
  }

  /** The encoder after a sequence of calls. */
  function After(anchor: SegmentAnchor, calls: seq<Call>): State {
    if calls == [] then Fresh(anchor) else Apply(After(anchor, calls[..|calls| - 1]), calls[|calls| - 1])
  }

  function Body(state: State, closeMono: U64, closeTick: U64): Bytes {
    EncodeBody(state.anchor, closeMono, closeTick,
               state.strings, state.interpretations, state.schemas, state.records)
  }

  function Finished(state: State, closeMono: U64, closeTick: U64): Bytes {
    Frame(Body(state, closeMono, closeTick))
  }

  // ---------------------------------------------------------------- the encoder

  class SegmentEncoder {
    const anchor: SegmentAnchor
    var lastTick: U64
    var strings: seq<Bytes>
    var interpretations: seq<Bytes>
    var schemas: seq<Bytes>
    var records: Bytes

    ghost function Value(): State
      reads this
    {
      State(anchor, lastTick, strings, interpretations, schemas, records)
    }

    constructor (anchor: SegmentAnchor)
      ensures Value() == Fresh(anchor)
    {
      this.anchor := anchor;
      lastTick := anchor.tick;
      strings, interpretations, schemas, records := [], [], [], [];
    }

    /** `intern_interpretation`. */
    method InternInterpretation(blob: Bytes) returns (index: U32)
      modifies this
      ensures Value() == Apply(old(Value()), InterpretationCall(blob))
      ensures index == IndexOf(old(interpretations), blob) % U32_LIMIT
    {
      interpretations, index := InternBlob(interpretations, blob);
    }

    /** `intern_schema`. */
    method InternSchema(blob: Bytes) returns (index: U32)
      modifies this
      ensures Value() == Apply(old(Value()), SchemaCall(blob))
      ensures index == IndexOf(old(schemas), blob) % U32_LIMIT
    {
      schemas, index := InternBlob(schemas, blob);
    }

    /** `delta`: the distance from the previous tick, zero if time went backwards. */
    method Delta(tick: U64) returns (delta: U64)
      modifies this`lastTick
      ensures lastTick == tick && delta == SaturatingSub(tick, old(lastTick))
    {
      delta := SaturatingSub(tick, lastTick);
      lastTick := tick;
    }

    /** `spawned`. */
    method Spawn(tick: U64, evSeq: U64, actorId: NonZeroU64, actorType: Bytes,
                 parent: Option<NonZeroU64>, causedBy: Option<EventRef>)
      modifies this
      ensures Value() == Apply(old(Value()),
        RecordCall(tick, SpawnedEvent(evSeq, actorId, actorType, parent, causedBy)))
    {
      hide Encode, EncodeCause, IndexOf;
      var delta := Delta(tick);
      var index;
      strings, index := InternBlob(strings, actorType);
      var out := WriteStart(records, TAG_SPAWNED, delta, evSeq, actorId);
      ghost var start := out;
      out := WriteUvarint(out, index);
      out := WriteUvarint(out, IdOrZero(parent));
      out := WriteCause(out, causedBy);
      assert out == start + (Encode(index) + (Encode(IdOrZero(parent)) + EncodeCause(causedBy)));
      records := out;
    }

    /** `died`. */
    method Die(tick: U64, evSeq: U64, actorId: NonZeroU64, actorType: Bytes,
               reason: Byte, causedBy: Option<EventRef>)
      modifies this
      ensures Value() == Apply(old(Value()), RecordCall(tick, DiedEvent(evSeq, actorId, actorType, reason, causedBy)))
    {
      hide Encode, EncodeCause, IndexOf;
      var delta := Delta(tick);
      var index;
      strings, index := InternBlob(strings, actorType);
      var out := WriteStart(records, TAG_DIED, delta, evSeq, actorId);
      ghost var start := out;
      out := WriteUvarint(out, index);
      out := out + [reason];
      out := WriteCause(out, causedBy);
      assert out == start + (Encode(index) + ([reason] + EncodeCause(causedBy)));
      records := out;
    }

    /** `message`. */
    method Deliver(tick: U64, evSeq: U64, actorId: NonZeroU64, from: Option<NonZeroU64>, messageType: Bytes,
                   dispatch: Byte, causedBy: Option<EventRef>, payload: Bytes)
      requires |payload| < U64_LIMIT
      modifies this
      ensures Value() == Apply(old(Value()),
        RecordCall(tick, MessageEvent(evSeq, actorId, from, messageType, dispatch, causedBy, payload)))
    {
      hide Encode, EncodeDelivery, IndexOf;
      var delta := Delta(tick);
      var index;
      strings, index := InternBlob(strings, messageType);
      var out := WriteStart(records, TAG_MESSAGE, delta, evSeq, actorId);
      ghost var start := out;
      out := WriteUvarint(out, IdOrZero(from));
      out := WriteUvarint(out, index);
      out := WriteDelivery(out, Delivery(dispatch, causedBy, payload));
      ghost var delivery := Delivery(dispatch, causedBy, payload);
      assert out == start + (Encode(IdOrZero(from)) + (Encode(index) + EncodeDelivery(delivery)));
      records := out;
    }

    /** `finish`: the complete, length-prefixed bytes. */
    method Finish(closeMono: U64, closeTick: U64) returns (out: Bytes)
      requires |strings| < U64_LIMIT && |interpretations| < U64_LIMIT && |schemas| < U64_LIMIT
      requires forall blob :: blob in strings || blob in interpretations || blob in schemas ==> |blob| < U64_LIMIT
      ensures out == Finished(Value(), closeMono, closeTick)
    {
      hide Encode, EncodeTable, LittleEndian32;
      var body: Bytes := [anchor.mode.ToTag()];
      body := WriteUvarint(body, anchor.unixMicros);
      body := WriteUvarint(body, anchor.monoMicros);
      body := WriteUvarint(body, anchor.tick);
      body := WriteUvarint(body, closeMono);
      body := WriteUvarint(body, closeTick);
      assert body == [anchor.mode.ToTag()] + EncodeReadings(anchor, closeMono, closeTick);
      ghost var head := body;
      body := WriteTable(body, strings);
      body := WriteTable(body, interpretations);
      body := WriteTable(body, schemas);
      body := body + records;
      FourPieces([anchor.mode.ToTag()], EncodeReadings(anchor, closeMono, closeTick), EncodeTable(strings),
                 EncodeTable(interpretations), EncodeTable(schemas), records);
      assert body == Body(Value(), closeMono, closeTick);
      out := LittleEndian32(|body| % U32_LIMIT) + body;
    }
  }

  lemma FourPieces(t: Bytes, h: Bytes, a: Bytes, b: Bytes, c: Bytes, r: Bytes)
    ensures t + h + a + b + c + r == t + (h + (a + (b + (c + r))))
  {
  }

  /** `intern` and `intern_blob`: linear search, then append. */
  method InternBlob(table: seq<Bytes>, blob: Bytes) returns (result: seq<Bytes>, index: U32)
    ensures result == Interned(table, blob)
    ensures index == IndexOf(table, blob) % U32_LIMIT
  {
    var i := 0;
    while i < |table|
      invariant 0 <= i <= |table|
      invariant blob !in table[..i]
    {
      if table[i] == blob {
        FoundAt(table, blob, i);
        return table, i % U32_LIMIT;
      }
      assert table[..i + 1] == table[..i] + [table[i]];
      i := i + 1;
    }
    assert table[..i] == table;
    FoundAt(table, blob, i);
    return table + [blob], |table| % U32_LIMIT;
  }

  lemma {:induction false} FoundAt(table: seq<Bytes>, blob: Bytes, i: nat)
    requires i <= |table| && blob !in table[..i]
    requires i < |table| ==> table[i] == blob
    ensures IndexOf(table, blob) == i
  {
    if i > 0 {
      assert table[0] == table[..i][0];
      assert table[1..][..i - 1] == table[..i][1..];
      FoundAt(table[1..], blob, i - 1);
    }
  }

  method WriteStart(out: Bytes, tag: Byte, delta: U64, evSeq: U64, actorId: NonZeroU64) returns (buffer: Bytes)
    ensures buffer == out + ([tag] + (Encode(delta) + (Encode(evSeq) + Encode(actorId))))
  {
    hide Encode;
    buffer := out + [tag];
    buffer := WriteUvarint(buffer, delta);
    buffer := WriteUvarint(buffer, evSeq);
    buffer := WriteUvarint(buffer, actorId);
  }

  /** `write_cause`. */
  method WriteCause(out: Bytes, cause: Option<EventRef>) returns (buffer: Bytes)
    ensures buffer == out + EncodeCause(cause)
  {
    hide Encode;
    match cause
    case Some(EventRef(actor, evSeq)) =>
      buffer := WriteUvarint(out, actor);
      buffer := WriteUvarint(buffer, evSeq);
    case None =>
      buffer := WriteUvarint(out, 0);
  }

  /** The trailing fields of `message`. */
  method WriteDelivery(out: Bytes, delivery: Delivery) returns (buffer: Bytes)
    requires |delivery.payload| < U64_LIMIT
    ensures buffer == out + EncodeDelivery(delivery)
  {
    hide Encode, EncodeCause;
    buffer := out + [delivery.dispatch];
    buffer := WriteCause(buffer, delivery.causedBy);
    buffer := WriteUvarint(buffer, |delivery.payload|);
    buffer := buffer + delivery.payload;
  }

  /** `write_blob_table`, and the string table loop of `finish`. */
  method WriteTable(out: Bytes, table: seq<Bytes>) returns (buffer: Bytes)
    requires |table| < U64_LIMIT
    requires forall blob :: blob in table ==> |blob| < U64_LIMIT
    ensures buffer == out + EncodeTable(table)
  {
    hide Encode;
    buffer := WriteUvarint(out, |table|);
    assert buffer + EncodeBlobs(table) == out + EncodeTable(table);
    assert table[0..] == table;
    var i := 0;
    while i < |table|
      invariant 0 <= i <= |table|
      invariant buffer + EncodeBlobs(table[i..]) == out + EncodeTable(table)
    {
      ghost var before, rest := buffer, EncodeBlobs(table[i + 1..]);
      assert table[i..][1..] == table[i + 1..];
      buffer := WriteUvarint(buffer, |table[i]|);
      buffer := buffer + table[i];
      assert buffer == before + EncodePayload(table[i]);
      assert before + (EncodePayload(table[i]) + rest) == buffer + rest;
      i := i + 1;
    }
    assert buffer + [] == buffer;
  }

  // --------------------------------------------------------- what a run records

  predicate Distinct(table: seq<Bytes>) {
    forall i, j :: 0 <= i < j < |table| ==> table[i] != table[j]
  }

  function OpenTick(anchor: SegmentAnchor, calls: seq<Call>): U64 {
    if calls == [] then anchor.tick
    else if calls[|calls| - 1].RecordCall? then calls[|calls| - 1].tick
    else OpenTick(anchor, calls[..|calls| - 1])
  }

  /** The records fed to the encoder, with names and with deltas between
      consecutive ticks: a definition that knows nothing of tables or bytes. */
  function Fed(anchor: SegmentAnchor, calls: seq<Call>): seq<Record<Bytes>> {
    if calls == [] then [] else
    var before, last := calls[..|calls| - 1], calls[|calls| - 1];
    match last
    case RecordCall(tick, event) =>
      Fed(anchor, before) + [Stamped(event, SaturatingSub(tick, OpenTick(anchor, before)), event.name)]
    case _ => Fed(anchor, before)
  }

  /** The names, interpretation blobs and schema blobs used by the calls. */
  function NamesOf(calls: seq<Call>): set<Bytes> {
    set call | call in calls && call.RecordCall? :: call.event.name
  }

  function InterpretationsOf(calls: seq<Call>): set<Bytes> {
    set call | call in calls && call.InterpretationCall? :: call.blob
  }

  function SchemasOf(calls: seq<Call>): set<Bytes> {
    set call | call in calls && call.SchemaCall? :: call.blob
  }

  function Elements(table: seq<Bytes>): set<Bytes> {
    set item | item in table
  }

  /** Replace a record's table index by the name it stands for. */
  function Named(record: WireRecord, strings: seq<Bytes>): Record<Bytes>
    requires record.name < |strings|
  {
    match record
    case Spawned(delta, evSeq, actorId, name, parent, causedBy) =>
      Spawned(delta, evSeq, actorId, strings[name], parent, causedBy)
    case Died(delta, evSeq, actorId, name, reason, causedBy) =>
      Died(delta, evSeq, actorId, strings[name], reason, causedBy)
    case Message(delta, evSeq, actorId, from, name, dispatch, causedBy, payload) =>
      Message(delta, evSeq, actorId, from, strings[name], dispatch, causedBy, payload)
  }

  /** Every index of `records` lies in `strings` and the named records are `fed`. */
  ghost predicate Resolves(records: seq<WireRecord>, strings: seq<Bytes>, fed: seq<Record<Bytes>>) {
    && |records| == |fed|
    && forall i :: 0 <= i < |records| ==> records[i].name < |strings| && Named(records[i], strings) == fed[i]
  }

  /** The wire records of a run, as a sequence of values. */
  function WireOf(anchor: SegmentAnchor, calls: seq<Call>): seq<WireRecord> {
    if calls == [] then [] else
    var before, last := calls[..|calls| - 1], calls[|calls| - 1];
    match last
    case RecordCall(tick, event) => WireOf(anchor, before) + [OnWire(After(anchor, before), tick, event)]
    case _ => WireOf(anchor, before)
  }

  lemma {:induction false} AnchorKept(anchor: SegmentAnchor, calls: seq<Call>)
    ensures After(anchor, calls).anchor == anchor
    ensures After(anchor, calls).lastTick == OpenTick(anchor, calls)
  {
    if calls != [] {
      AnchorKept(anchor, calls[..|calls| - 1]);
    }
  }

  lemma {:induction false} EncodeRecordsSnoc(records: seq<WireRecord>, record: WireRecord)
    ensures EncodeRecords(records + [record]) == EncodeRecords(records) + EncodeRecord(record)
  {
    hide EncodeRecord;
    if records == [] {
      assert records + [record] == [record];
      assert [record][1..] == [];
      assert EncodeRecord(record) + [] == EncodeRecord(record);
    } else {
      EncodeRecordsSnoc(records[1..], record);
      assert (records + [record])[1..] == records[1..] + [record];
    }
  }

  lemma {:induction false} RecordBytes(anchor: SegmentAnchor, calls: seq<Call>)
    ensures After(anchor, calls).records == EncodeRecords(WireOf(anchor, calls))
  {
    hide EncodeRecord, OnWire, Interned;
    if calls != [] {
      var before, last := calls[..|calls| - 1], calls[|calls| - 1];
      RecordBytes(anchor, before);
      if last.RecordCall? {
        EncodeRecordsSnoc(WireOf(anchor, before), OnWire(After(anchor, before), last.tick, last.event));
      }
    }
  }

  lemma InternedKeeps(table: seq<Bytes>, item: Bytes)
    requires Distinct(table)
    ensures Distinct(Interned(table, item))
    ensures table <= Interned(table, item)
    ensures Elements(Interned(table, item)) == Elements(table) + {item}
    ensures IndexOf(table, item) < |Interned(table, item)|
    ensures Interned(table, item)[IndexOf(table, item)] == item
  {
    assert forall x :: x in Interned(table, item) <==> x in table || x == item;
  }

  lemma SplitCalls(calls: seq<Call>)
    requires calls != []
    ensures var before, last := calls[..|calls| - 1], calls[|calls| - 1];
      && NamesOf(calls) == NamesOf(before) + (if last.RecordCall? then {last.event.name} else {})
      && InterpretationsOf(calls) == InterpretationsOf(before) + (if last.InterpretationCall? then {last.blob} else {})
      && SchemasOf(calls) == SchemasOf(before) + (if last.SchemaCall? then {last.blob} else {})
  {
    assert calls == calls[..|calls| - 1] + [calls[|calls| - 1]];
  }

  /** The tables hold each name and blob of the calls exactly once. */
  lemma {:induction false} TablesExact(anchor: SegmentAnchor, calls: seq<Call>)
    ensures var state := After(anchor, calls);
      && Distinct(state.strings) && Distinct(state.interpretations) && Distinct(state.schemas)
      && Elements(state.strings) == NamesOf(calls)
      && Elements(state.interpretations) == InterpretationsOf(calls)
      && Elements(state.schemas) == SchemasOf(calls)
  {
    hide Interned, OnWire, EncodeRecord, Distinct, IndexOf;
    if calls == [] {
      EmptyTable();
    } else {
      var before, last := calls[..|calls| - 1], calls[|calls| - 1];
      TablesExact(anchor, before);
      SplitCalls(calls);
      var state := After(anchor, before);
      match last
      case RecordCall(tick, event) => InternedKeeps(state.strings, event.name);
      case InterpretationCall(blob) => InternedKeeps(state.interpretations, blob);
      case SchemaCall(blob) => InternedKeeps(state.schemas, blob);
    }
  }

  lemma EmptyTable()
    ensures Distinct([])
  {
  }

  /** While the string table fits 32-bit indices, every index on the wire resolves
      to the name the call was given. */
  lemma {:induction false} IndicesResolve(anchor: SegmentAnchor, calls: seq<Call>)
    requires |After(anchor, calls).strings| <= U32_LIMIT
    ensures Resolves(WireOf(anchor, calls), After(anchor, calls).strings, Fed(anchor, calls))
  {
    hide Interned, EncodeRecord, Distinct, IndexOf, Resolves;
    if calls == [] {
      ResolvesNothing(After(anchor, calls).strings);
    } else {
      var before, last := calls[..|calls| - 1], calls[|calls| - 1];
      var state, strings := After(anchor, before), After(anchor, calls).strings;
      if last.RecordCall? {
        TablesExact(anchor, before);
        AnchorKept(anchor, before);
        InternedKeeps(state.strings, last.event.name);
        IndicesResolve(anchor, before);
        ResolvesMore(WireOf(anchor, before), state.strings, Fed(anchor, before), strings,
                     OnWire(state, last.tick, last.event),
                     Stamped(last.event, SaturatingSub(last.tick, OpenTick(anchor, before)), last.event.name));
      } else {
        IndicesResolve(anchor, before);
      }
    }
  }

  lemma ResolvesNothing(strings: seq<Bytes>)
    ensures Resolves([], strings, [])
  {
  }

  lemma ResolvesMore(records: seq<WireRecord>, strings: seq<Bytes>, fed: seq<Record<Bytes>>, more: seq<Bytes>,
                     record: WireRecord, named: Record<Bytes>)
    requires Resolves(records, strings, fed) && strings <= more
    requires record.name < |more| && Named(record, more) == named
    ensures Resolves(records + [record], more, fed + [named])
  {
  }

  lemma {:induction false} RecordsEncodable(anchor: SegmentAnchor, calls: seq<Call>)
    requires |After(anchor, calls).records| < U64_LIMIT
    ensures forall i :: 0 <= i < |WireOf(anchor, calls)| ==> Encodable(WireOf(anchor, calls)[i])
  {
    hide Interned, Encode, EncodeCause, EncodeStart, IndexOf;
    if calls != [] {
      RecordsEncodable(anchor, calls[..|calls| - 1]);
    }
  }

  predicate NamesAreText(calls: seq<Call>) {
    forall call :: call in calls && call.RecordCall? ==> ValidUtf8(call.event.name)
  }

  /** The segment a run of calls describes. */
  function Described(anchor: SegmentAnchor, calls: seq<Call>, closeMono: U64, closeTick: U64): Segment {
    var state := After(anchor, calls);
    Segment(anchor, closeMono, closeTick, state.strings, state.interpretations, state.schemas, WireOf(anchor, calls))
  }

  lemma BodyLengths(state: State, closeMono: U64, closeTick: U64)
    ensures |state.records| <= |Body(state, closeMono, closeTick)|
    ensures |state.strings| <= |Body(state, closeMono, closeTick)|
  {
    hide Encode, EncodeBlobs;
    BlobsLength(state.strings);
  }

  /** Decoding a finished segment, whatever follows it, consumes exactly its bytes
      and returns the anchor, the close readings, duplicate-free tables holding
      exactly the names and blobs used, and the records with indices that resolve
      to the names they were fed. */
  lemma SegmentRoundTrip(anchor: SegmentAnchor, calls: seq<Call>, closeMono: U64, closeTick: U64, suffix: Bytes)
    requires NamesAreText(calls)
    requires |Body(After(anchor, calls), closeMono, closeTick)| < U32_LIMIT
    ensures var bytes := Finished(After(anchor, calls), closeMono, closeTick);
      var segment := Described(anchor, calls, closeMono, closeTick);
      && ParseSegment(bytes + suffix) == Ok((segment, |bytes|))
      && Distinct(segment.strings) && Elements(segment.strings) == NamesOf(calls)
      && Distinct(segment.interpretations) && Elements(segment.interpretations) == InterpretationsOf(calls)
      && Distinct(segment.schemas) && Elements(segment.schemas) == SchemasOf(calls)
      && Resolves(segment.records, segment.strings, Fed(anchor, calls))
  {
    hide Interned, EncodeRecord, Distinct, WireOf, Fed, ParseSegment, ParseBody, Resolves;
    hide EncodeTable, Encodable, After;
    var state := After(anchor, calls);
    var segment := Described(anchor, calls, closeMono, closeTick);
    BodyLengths(state, closeMono, closeTick);
    AnchorKept(anchor, calls);
    RecordBytes(anchor, calls);
    RecordsEncodable(anchor, calls);
    TablesExact(anchor, calls);
    IndicesResolve(anchor, calls);
    NamesStored(state.strings, calls);
    assert EncodeSegmentBody(segment) == Body(state, closeMono, closeTick);
    FrameBack(segment, suffix);
  }

  lemma NamesStored(strings: seq<Bytes>, calls: seq<Call>)
    requires NamesAreText(calls) && Elements(strings) == NamesOf(calls)
    ensures AllValidUtf8(strings)
  {
    forall i | 0 <= i < |strings| ensures ValidUtf8(strings[i]) {
      assert strings[i] in Elements(strings);
    }
  }
}
