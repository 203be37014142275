/** The wire model of one capture segment: its parts, their byte encoding, and
    the decoder for a segment at the front of a byte sequence. */
module Segment {
  import opened Options
  import opened Wire
  import opened Varint

  const TAG_SPAWNED: Byte := 0
  const TAG_DIED: Byte := 1
  const TAG_MESSAGE: Byte := 2

  datatype ClockMode = Tsc | Cntvct | Monotonic | SegmentStamp {
    function ToTag(): Byte {
      match this
      case Tsc => 0
      case Cntvct => 1
      case Monotonic => 2
      case SegmentStamp => 3
    }

    static function FromTag(tag: Byte): Option<ClockMode> {
      match tag
      case 0 => Some(Tsc)
      case 1 => Some(Cntvct)
      case 2 => Some(Monotonic)
      case 3 => Some(SegmentStamp)
      case _ => None
    }
  }

  datatype SegmentAnchor = SegmentAnchor(mode: ClockMode, unixMicros: U64, monoMicros: U64, tick: U64)

  /** A `caused_by` link: the emitting actor and that actor's sequence number. */
  datatype EventRef = EventRef(actor: NonZeroU64, evSeq: U64)

  /** A record whose type name is an `N`: a table index on the wire, the name
      itself once resolved. */
  datatype Record<N> =
    | Spawned(tsDelta: U64, evSeq: U64, actorId: NonZeroU64, name: N,
              parent: Option<NonZeroU64>, causedBy: Option<EventRef>)
    | Died(tsDelta: U64, evSeq: U64, actorId: NonZeroU64, name: N,
           reason: Byte, causedBy: Option<EventRef>)
    | Message(tsDelta: U64, evSeq: U64, actorId: NonZeroU64, from: Option<NonZeroU64>, name: N,
              dispatch: Byte, causedBy: Option<EventRef>, payload: Bytes)

  type WireRecord = Record<U32>

  datatype Segment = Segment(
    anchor: SegmentAnchor,
    closeMonoMicros: U64,
    closeTick: U64,
    strings: seq<Bytes>,
    interpretations: seq<Bytes>,
    schemas: seq<Bytes>,
    records: seq<WireRecord>)

  // --------------------------------------------------------------------- UTF-8

  predicate Continuation(b: Byte) {
    0x80 <= b < 0xC0
  }

  /** Length of the well-formed UTF-8 sequence at the front of `s`, zero if there is none. */
  function ScalarLength(s: Bytes): (n: nat)
    ensures n <= |s|
  {
    if s == [] then 0
    else if s[0] < 0x80 then 1
    else if 0xC2 <= s[0] < 0xE0 && |s| >= 2 && Continuation(s[1]) then 2
    else if 0xE0 <= s[0] < 0xF0 && |s| >= 3 && Continuation(s[1]) && Continuation(s[2])
      && (s[0] == 0xE0 ==> s[1] >= 0xA0) && (s[0] == 0xED ==> s[1] < 0xA0) then 3
    else if 0xF0 <= s[0] < 0xF5 && |s| >= 4 && Continuation(s[1]) && Continuation(s[2]) && Continuation(s[3])
      && (s[0] == 0xF0 ==> s[1] >= 0x90) && (s[0] == 0xF4 ==> s[1] < 0x90) then 4
    else 0
  }

  predicate ValidUtf8(s: Bytes) {
    s == [] || (ScalarLength(s) > 0 && ValidUtf8(s[ScalarLength(s)..]))
  }

  predicate AllValidUtf8(table: seq<Bytes>) {
    forall i :: 0 <= i < |table| ==> ValidUtf8(table[i])
  }

  // ------------------------------------------------------------------ encoding

  function IdOrZero(id: Option<NonZeroU64>): U64 {
    if id.Some? then id.value else 0
  }

  function NonZero(raw: U64): Option<NonZeroU64> {
    if raw == 0 then None else Some(raw)
  }

  /** `write_cause`: the actor id, zero when absent, and the sequence only when present. */
  function EncodeCause(cause: Option<EventRef>): Bytes {
    match cause
    case None => Encode(0)
    case Some(EventRef(actor, evSeq)) => Encode(actor) + Encode(evSeq)
  }

  function EncodePayload(payload: Bytes): Bytes {
    Encode(|payload|) + payload
  }

  function RecordTag<N>(record: Record<N>): Byte {
    match record
    case Spawned(_, _, _, _, _, _) => TAG_SPAWNED
    case Died(_, _, _, _, _, _) => TAG_DIED
    case Message(_, _, _, _, _, _, _, _) => TAG_MESSAGE
  }

  /** The fields every record starts with. */
  function EncodeStart(record: WireRecord): Bytes {
    [RecordTag(record)] + (Encode(record.tsDelta) + (Encode(record.evSeq) + Encode(record.actorId)))
  }

  /** The fields that depend on the record's kind. */
  function EncodeRest(record: WireRecord): Bytes {
    match record
    case Spawned(_, _, _, name, parent, causedBy) =>
      Encode(name) + (Encode(IdOrZero(parent)) + EncodeCause(causedBy))
    case Died(_, _, _, name, reason, causedBy) =>
      Encode(name) + ([reason] + EncodeCause(causedBy))
    case Message(_, _, _, from, name, dispatch, causedBy, payload) =>
      Encode(IdOrZero(from)) + (Encode(name) + EncodeDelivery(Delivery(dispatch, causedBy, payload)))
  }

  function EncodeDelivery(delivery: Delivery): Bytes {
    [delivery.dispatch] + (EncodeCause(delivery.causedBy) + EncodePayload(delivery.payload))
  }

  function EncodeRecord(record: WireRecord): Bytes {
    EncodeStart(record) + EncodeRest(record)
  }

  function EncodeRecords(records: seq<WireRecord>): Bytes {
    if records == [] then [] else EncodeRecord(records[0]) + EncodeRecords(records[1..])
  }

  function EncodeBlobs(table: seq<Bytes>): Bytes {
    if table == [] then [] else EncodePayload(table[0]) + EncodeBlobs(table[1..])
  }

  /** A count followed by length-delimited blobs. */
  function EncodeTable(table: seq<Bytes>): Bytes {
    Encode(|table|) + EncodeBlobs(table)
  }

  function EncodeReadings(anchor: SegmentAnchor, closeMono: U64, closeTick: U64): Bytes {
    Encode(anchor.unixMicros) + (Encode(anchor.monoMicros) + (Encode(anchor.tick)
    + (Encode(closeMono) + Encode(closeTick))))
  }

  /** Everything after the length prefix. The record bytes are kept apart because
      the encoder holds them already encoded. */
  function EncodeBody(anchor: SegmentAnchor, closeMono: U64, closeTick: U64,
                      strings: seq<Bytes>, interpretations: seq<Bytes>, schemas: seq<Bytes>,
                      records: Bytes): Bytes
  {
    [anchor.mode.ToTag()] + (EncodeReadings(anchor, closeMono, closeTick)
    + (EncodeTable(strings) + (EncodeTable(interpretations) + (EncodeTable(schemas) + records))))
  }

  /** A 32-bit integer as four little-endian bytes. */
  function LittleEndian32(n: U32): (bytes: Bytes)
    ensures |bytes| == 4
  {
    [n % 256, n / 256 % 256, n / 256 / 256 % 256, n / 256 / 256 / 256 % 256]
  }

  function FromLittleEndian32(bytes: Bytes): U32
    requires |bytes| == 4
  {
    var b0: int, b1: int, b2: int, b3: int := bytes[0], bytes[1], bytes[2], bytes[3];
    b0 + 256 * b1 + 65536 * b2 + 16777216 * b3
  }

  /** The length prefix is the body length truncated to 32 bits. */
  function Frame(body: Bytes): Bytes {
    LittleEndian32(|body| % U32_LIMIT) + body
  }

  // ------------------------------------------------------------------ decoding

  /** Read a varint at `pos`, returning its value and the position after it. */
  function ReadFrom(input: Bytes, pos: nat): (r: Result<(U64, nat)>)
    requires pos <= |input|
    ensures r != Err(SegmentLengthMismatch)
    ensures r.Ok? ==> pos < r.value.1 <= |input|
  {
    var (value, n) :- Read(input[pos..]);
    Ok((value, pos + n))
  }

  /** Take `len` bytes at `pos`. A length that would overflow the position lies
      past the end of the input as well. */
  function Slice(input: Bytes, pos: nat, len: nat): (r: Result<Bytes>)
    requires pos <= |input|
    ensures r != Err(SegmentLengthMismatch)
    ensures r.Ok? <==> pos + len <= |input|
    ensures r.Ok? ==> r.value == input[pos..pos + len]
  {
    if pos + len <= |input| then Ok(input[pos..pos + len]) else Err(UnexpectedEof)
  }

  function ByteAt(input: Bytes, pos: nat): (r: Result<Byte>)
    ensures r != Err(SegmentLengthMismatch)
    ensures r.Ok? <==> pos < |input|
  {
    if pos < |input| then Ok(input[pos]) else Err(UnexpectedEof)
  }

  /** `read_cause`. */
  function ReadCause(input: Bytes, pos: nat): (r: Result<(Option<EventRef>, nat)>)
    requires pos <= |input|
    ensures r != Err(SegmentLengthMismatch)
    ensures r.Ok? ==> pos < r.value.1 <= |input|
  {
    var (actor, next) :- ReadFrom(input, pos);
    if actor == 0 then Ok((None, next)) else
    var (evSeq, end) :- ReadFrom(input, next);
    Ok((Some(EventRef(actor, evSeq)), end))
  }

  /** `decode_record`: one record from the front of `input` and its length. */
  function DecodeRecord(input: Bytes): (r: Result<(WireRecord, nat)>)
    ensures r != Err(SegmentLengthMismatch)
    ensures r.Ok? ==> 1 <= r.value.1 <= |input|
  {
    var tag :- ByteAt(input, 0);
    var (tsDelta, p1) :- ReadFrom(input, 1);
    var (evSeq, p2) :- ReadFrom(input, p1);
    var (actorId, p3) :- ReadFrom(input, p2);
    if actorId == 0 then Err(ZeroActorId) else
    DecodeRest(input, p3, tag, tsDelta, evSeq, actorId)
  }

  function DecodeRest(input: Bytes, pos: nat, tag: Byte, tsDelta: U64, evSeq: U64, actorId: NonZeroU64)
    : (r: Result<(WireRecord, nat)>)
    requires pos <= |input|
    ensures r != Err(SegmentLengthMismatch)
    ensures r.Ok? ==> pos < r.value.1 <= |input|
  {
    if tag == TAG_SPAWNED then DecodeSpawned(input, pos, tsDelta, evSeq, actorId)
    else if tag == TAG_DIED then DecodeDied(input, pos, tsDelta, evSeq, actorId)
    else if tag == TAG_MESSAGE then DecodeMessage(input, pos, tsDelta, evSeq, actorId)
    else Err(UnknownRecordTag(tag))
  }

  function DecodeSpawned(input: Bytes, pos: nat, tsDelta: U64, evSeq: U64, actorId: NonZeroU64)
    : (r: Result<(WireRecord, nat)>)
    requires pos <= |input|
    ensures r != Err(SegmentLengthMismatch)
    ensures r.Ok? ==> pos < r.value.1 <= |input|
  {
    var (name, p1) :- ReadFrom(input, pos);
    var (parent, p2) :- ReadFrom(input, p1);
    var (cause, p3) :- ReadCause(input, p2);
    Ok((Spawned(tsDelta, evSeq, actorId, name % U32_LIMIT, NonZero(parent), cause), p3))
  }

  function DecodeDied(input: Bytes, pos: nat, tsDelta: U64, evSeq: U64, actorId: NonZeroU64)
    : (r: Result<(WireRecord, nat)>)
    requires pos <= |input|
    ensures r != Err(SegmentLengthMismatch)
    ensures r.Ok? ==> pos < r.value.1 <= |input|
  {
    var (name, p1) :- ReadFrom(input, pos);
    var reason :- ByteAt(input, p1);
    var (cause, p2) :- ReadCause(input, p1 + 1);
    Ok((Died(tsDelta, evSeq, actorId, name % U32_LIMIT, reason, cause), p2))
  }

  function DecodeMessage(input: Bytes, pos: nat, tsDelta: U64, evSeq: U64, actorId: NonZeroU64)
    : (r: Result<(WireRecord, nat)>)
    requires pos <= |input|
    ensures r != Err(SegmentLengthMismatch)
    ensures r.Ok? ==> pos < r.value.1 <= |input|
  {
    var (from, p1) :- ReadFrom(input, pos);
    var (name, p2) :- ReadFrom(input, p1);
    var (delivery, p3) :- ReadDelivery(input, p2);
    Ok((Message(tsDelta, evSeq, actorId, NonZero(from), name % U32_LIMIT,
                delivery.dispatch, delivery.causedBy, delivery.payload), p3))
  }

  /** The trailing fields of a message record. */
  datatype Delivery = Delivery(dispatch: Byte, causedBy: Option<EventRef>, payload: Bytes)

  function ReadDelivery(input: Bytes, pos: nat): (r: Result<(Delivery, nat)>)
    requires pos <= |input|
    ensures r != Err(SegmentLengthMismatch)
    ensures r.Ok? ==> pos < r.value.1 <= |input|
  {
    var dispatch :- ByteAt(input, pos);
    var (cause, p1) :- ReadCause(input, pos + 1);
    var (payload, p2) :- ReadPayload(input, p1);
    Ok((Delivery(dispatch, cause, payload), p2))
  }

  /** A length followed by that many bytes. */
  function ReadPayload(input: Bytes, pos: nat): (r: Result<(Bytes, nat)>)
    requires pos <= |input|
    ensures r != Err(SegmentLengthMismatch)
    ensures r.Ok? ==> pos < r.value.1 <= |input|
  {
    var (len, next) :- ReadFrom(input, pos);
    var payload :- Slice(input, next, len);
    Ok((payload, next + len))
  }

  /** The `count` blobs at `pos`; text blobs must be valid UTF-8. */
  function ParseBlobs(body: Bytes, pos: nat, count: nat, text: bool): (r: Result<(seq<Bytes>, nat)>)
    requires pos <= |body|
    ensures r != Err(SegmentLengthMismatch)
    ensures r.Ok? ==> pos <= r.value.1 <= |body| && |r.value.0| == count
    decreases count
  {
    if count == 0 then Ok(([], pos)) else
    var (blob, next) :- ReadPayload(body, pos);
    if text && !ValidUtf8(blob) then Err(InvalidUtf8) else
    var (rest, end) :- ParseBlobs(body, next, count - 1, text);
    Ok(([blob] + rest, end))
  }

  function ParseTable(body: Bytes, pos: nat, text: bool): (r: Result<(seq<Bytes>, nat)>)
    requires pos <= |body|
    ensures r != Err(SegmentLengthMismatch)
    ensures r.Ok? ==> pos < r.value.1 <= |body|
  {
    var (count, next) :- ReadFrom(body, pos);
    ParseBlobs(body, next, count, text)
  }

  /** Records from `pos` until the body is used up. */
  function ParseRecords(body: Bytes, pos: nat): (r: Result<(seq<WireRecord>, nat)>)
    requires pos <= |body|
    ensures r != Err(SegmentLengthMismatch)
    ensures r.Ok? ==> r.value.1 == |body|
    decreases |body| - pos
  {
    if pos >= |body| then Ok(([], pos)) else
    var (record, n) :- DecodeRecord(body[pos..]);
    var (rest, end) :- ParseRecords(body, pos + n);
    Ok(([record] + rest, end))
  }

  datatype Readings = Readings(anchor: SegmentAnchor, closeMonoMicros: U64, closeTick: U64)

  function ParseReadings(body: Bytes): (r: Result<(Readings, nat)>)
    ensures r != Err(SegmentLengthMismatch)
    ensures r.Ok? ==> r.value.1 <= |body|
  {
    var tag :- ByteAt(body, 0);
    var mode := ClockMode.FromTag(tag);
    if mode.None? then Err(UnknownClockMode(tag)) else
    var (unix, p1) :- ReadFrom(body, 1);
    var (mono, p2) :- ReadFrom(body, p1);
    var (tick, p3) :- ReadFrom(body, p2);
    var (closeMono, p4) :- ReadFrom(body, p3);
    var (closeTick, p5) :- ReadFrom(body, p4);
    Ok((Readings(SegmentAnchor(mode.value, unix, mono, tick), closeMono, closeTick), p5))
  }

  function ParseBody(body: Bytes): (r: Result<Segment>)
    ensures r != Err(SegmentLengthMismatch)
  {
    var (readings, p1) :- ParseReadings(body);
    var (strings, p2) :- ParseTable(body, p1, true);
    var (interpretations, p3) :- ParseTable(body, p2, false);
    var (schemas, p4) :- ParseTable(body, p3, false);
    var (records, p5) :- ParseRecords(body, p4);
    if p5 != |body| then Err(SegmentLengthMismatch) else
    Ok(Segment(readings.anchor, readings.closeMonoMicros, readings.closeTick,
               strings, interpretations, schemas, records))
  }

  /** What decoding a segment from the front of `input` means. */
  function ParseSegment(input: Bytes): (r: Result<(Segment, nat)>)
    ensures r != Err(SegmentLengthMismatch)
    ensures r.Ok? ==> 4 <= r.value.1 <= |input|
  {
    var prefix :- Slice(input, 0, 4);
    var len := FromLittleEndian32(prefix);
    var body :- Slice(input, 4, len);
    var segment :- ParseBody(body);
    Ok((segment, 4 + len))
  }

  // -------------------------------------------------------- the decoder's loops

  /** The result of parsing on after `done` was already parsed. */
  function Prepend<T>(done: seq<T>, r: Result<(seq<T>, nat)>): Result<(seq<T>, nat)> {
    match r
    case Ok((rest, end)) => Ok((done + rest, end))
    case Err(error) => Err(error)
  }

  lemma PrependNothing<T>(r: Result<(seq<T>, nat)>)
    ensures Prepend([], r) == r
  {
    if r.Ok? {
      assert [] + r.value.0 == r.value.0;
    }
  }

  /** One `read_uvarint` of a position-advancing decoder. */
  method ReadUvarintAt(body: Bytes, pos: nat) returns (r: Result<(U64, nat)>)
    requires pos <= |body|
    ensures r == ReadFrom(body, pos)
  {
    var item := ReadUvarint(body[pos..]);
    if item.Err? {
      return Err(item.error);
    }
    return Ok((item.value.0, pos + item.value.1));
  }

  /** The table loops of `decode_segment` and `read_blob_table`. */
  method ReadBlobTable(body: Bytes, start: nat, text: bool) returns (r: Result<(seq<Bytes>, nat)>)
    requires start <= |body|
    ensures r == ParseTable(body, start, text)
  {
    hide ReadFrom, ValidUtf8;
    var head := ReadUvarintAt(body, start);
    if head.Err? {
      return Err(head.error);
    }
    var (count, pos) := head.value;
    ghost var first := pos;
    var table: seq<Bytes> := [];
    PrependNothing(ParseBlobs(body, first, count, text));
    var i := 0;
    while i < count
      invariant 0 <= i <= count && 0 <= pos <= |body|
      invariant ParseBlobs(body, first, count, text) == Prepend(table, ParseBlobs(body, pos, count - i, text))
    {
      ghost var before := table;
      var item := ReadUvarintAt(body, pos);
      if item.Err? {
        return Err(item.error);
      }
      var (len, next) := item.value;
      if next + len > |body| {
        return Err(UnexpectedEof);
      }
      var blob := body[next..next + len];
      if text && !ValidUtf8(blob) {
        return Err(InvalidUtf8);
      }
      ghost var rest := ParseBlobs(body, next + len, count - i - 1, text);
      assert rest.Ok? ==> before + ([blob] + rest.value.0) == before + [blob] + rest.value.0;
      pos := next + len;
      table := table + [blob];
      i := i + 1;
    }
    assert table + [] == table;
    return Ok((table, pos));
  }

  /** `decode_segment`. */
  method DecodeSegment(input: Bytes) returns (r: Result<(Segment, nat)>)
    ensures r == ParseSegment(input)
  {
    if |input| < 4 {
      return Err(UnexpectedEof);
    }
    var len := FromLittleEndian32(input[0..4]);
    if 4 + len > |input| {
      return Err(UnexpectedEof);
    }
    var body := input[4..4 + len];
    var segment := DecodeBody(body);
    if segment.Err? {
      return Err(segment.error);
    }
    return Ok((segment.value, 4 + len));
  }

  method DecodeBody(body: Bytes) returns (r: Result<Segment>)
    ensures r == ParseBody(body)
  {
    var readings := ParseReadings(body);
    if readings.Err? {
      return Err(readings.error);
    }
    var strings := ReadBlobTable(body, readings.value.1, true);
    if strings.Err? {
      return Err(strings.error);
    }
    var interpretations := ReadBlobTable(body, strings.value.1, false);
    if interpretations.Err? {
      return Err(interpretations.error);
    }
    var schemas := ReadBlobTable(body, interpretations.value.1, false);
    if schemas.Err? {
      return Err(schemas.error);
    }
    var records := DecodeRecords(body, schemas.value.1);
    if records.Err? {
      return Err(records.error);
    }
    if records.value.1 != |body| {
      return Err(SegmentLengthMismatch);
    }
    var Readings(anchor, closeMono, closeTick) := readings.value.0;
    return Ok(Segment(anchor, closeMono, closeTick, strings.value.0, interpretations.value.0,
                      schemas.value.0, records.value.0));
  }

  /** The record loop of `decode_segment`. */
  method DecodeRecords(body: Bytes, start: nat) returns (r: Result<(seq<WireRecord>, nat)>)
    requires start <= |body|
    ensures r == ParseRecords(body, start)
  {
    hide DecodeRecord;
    var pos := start;
    var records: seq<WireRecord> := [];
    PrependNothing(ParseRecords(body, start));
    while pos < |body|
      invariant pos <= |body|
      invariant ParseRecords(body, start) == Prepend(records, ParseRecords(body, pos))
    {
      var item := DecodeRecord(body[pos..]);
      if item.Err? {
        return Err(item.error);
      }
      var (record, n) := item.value;
      ghost var rest := ParseRecords(body, pos + n);
      assert rest.Ok? ==> records + ([record] + rest.value.0) == records + [record] + rest.value.0;
      pos := pos + n;
      records := records + [record];
    }
    assert records + [] == records;
    return Ok((records, pos));
  }

  // ------------------------------------------------------------ any input tiles

  /** `bytes` is exactly the concatenation of spans that decode to `records`. */
  predicate Tiles(bytes: Bytes, records: seq<WireRecord>)
    decreases |records|
  {
    if records == [] then bytes == []
    else
      var r := DecodeRecord(bytes);
      r.Ok? && r.value.0 == records[0] && Tiles(bytes[r.value.1..], records[1..])
  }

  lemma {:induction false} RecordsTile(body: Bytes, pos: nat)
    requires pos <= |body| && ParseRecords(body, pos).Ok?
    ensures Tiles(body[pos..], ParseRecords(body, pos).value.0)
    decreases |body| - pos
  {
    hide Read, DecodeRecord;
    if pos < |body| {
      var (record, n) := DecodeRecord(body[pos..]).value;
      RecordsTile(body, pos + n);
      assert body[pos..][n..] == body[pos + n..];
      var records := ParseRecords(body, pos).value.0;
      assert records[1..] == ParseRecords(body, pos + n).value.0;
    }
  }

  /** On any input, a successful decode consumes exactly the declared length and
      its records tile the tail of the body; so the length-mismatch error is
      never returned. */
  lemma DecodeTilesBody(input: Bytes)
    ensures ParseSegment(input) != Err(SegmentLengthMismatch)
    ensures ParseSegment(input).Ok? ==>
      var (segment, total) := ParseSegment(input).value;
      && total == 4 + FromLittleEndian32(input[..4])
      && exists start :: 4 <= start <= total && Tiles(input[start..total], segment.records)
  {
    hide FromLittleEndian32, ParseReadings, ParseTable, ParseRecords, Tiles;
    if ParseSegment(input).Ok? {
      var (segment, total) := ParseSegment(input).value;
      assert input[0..4] == input[..4];
      var body := input[4..total];
      var p1 := ParseReadings(body).value.1;
      var p2 := ParseTable(body, p1, true).value.1;
      var p3 := ParseTable(body, p2, false).value.1;
      var p4 := ParseTable(body, p3, false).value.1;
      RecordsTile(body, p4);
      assert body[p4..] == input[4 + p4..total];
    }
  }

  // ----------------------------------------------------------------- round trip

  /** One varint of a longer encoding. */
  lemma ReadBack(input: Bytes, pos: nat, value: U64, rest: Bytes)
    requires pos <= |input| && input[pos..] == Encode(value) + rest
    ensures ReadFrom(input, pos) == Ok((value, pos + |Encode(value)|))
    ensures pos + |Encode(value)| <= |input| && input[pos + |Encode(value)|..] == rest
  {
    hide Read, Encode;
    RoundTrip(value, rest);
    assert |input[pos..]| == |Encode(value)| + |rest|;
    assert input[pos + |Encode(value)|..] == input[pos..][|Encode(value)|..];
  }

  lemma ByteBack(input: Bytes, pos: nat, b: Byte, rest: Bytes)
    requires pos <= |input| && input[pos..] == [b] + rest
    ensures ByteAt(input, pos) == Ok(b) && input[pos + 1..] == rest
  {
    assert |input[pos..]| == 1 + |rest|;
    assert input[pos] == input[pos..][0];
    assert input[pos + 1..] == input[pos..][1..];
  }

  lemma BytesBack(input: Bytes, pos: nat, bytes: Bytes, rest: Bytes)
    requires pos <= |input| && input[pos..] == bytes + rest
    ensures Slice(input, pos, |bytes|) == Ok(bytes) && input[pos + |bytes|..] == rest
  {
    assert |input[pos..]| == |bytes| + |rest|;
    assert input[pos..pos + |bytes|] == input[pos..][..|bytes|];
    assert input[pos + |bytes|..] == input[pos..][|bytes|..];
  }

  lemma CauseBack(input: Bytes, pos: nat, cause: Option<EventRef>, rest: Bytes)
    requires pos <= |input| && input[pos..] == EncodeCause(cause) + rest
    ensures ReadCause(input, pos) == Ok((cause, pos + |EncodeCause(cause)|))
    ensures pos + |EncodeCause(cause)| <= |input| && input[pos + |EncodeCause(cause)|..] == rest
  {
    hide Read, Encode, ReadFrom, ByteAt, Slice;
    match cause
    case None => ReadBack(input, pos, 0, rest);
    case Some(EventRef(actor, evSeq)) =>
      assert input[pos..] == Encode(actor) + (Encode(evSeq) + rest);
      ReadBack(input, pos, actor, Encode(evSeq) + rest);
      ReadBack(input, pos + |Encode(actor)|, evSeq, rest);
  }

  predicate Encodable(record: WireRecord) {
    record.Message? ==> |record.payload| < U64_LIMIT
  }

  /** A record reads back as itself, whatever follows it. */
  lemma RecordBack(record: WireRecord, suffix: Bytes)
    requires Encodable(record)
    ensures DecodeRecord(EncodeRecord(record) + suffix) == Ok((record, |EncodeRecord(record)|))
  {
    hide Read, Encode, DecodeRest, EncodeRest;
    var input := EncodeRecord(record) + suffix;
    var tail := EncodeRest(record) + suffix;
    var d, s, a := Encode(record.tsDelta), Encode(record.evSeq), Encode(record.actorId);
    assert input[0..] == [RecordTag(record)] + (d + (s + (a + tail)));
    ByteBack(input, 0, RecordTag(record), d + (s + (a + tail)));
    ReadBack(input, 1, record.tsDelta, s + (a + tail));
    ReadBack(input, 1 + |d|, record.evSeq, a + tail);
    ReadBack(input, 1 + |d| + |s|, record.actorId, tail);
    RestBack(input, |EncodeStart(record)|, record, suffix);
  }

  lemma RestBack(input: Bytes, pos: nat, record: WireRecord, suffix: Bytes)
    requires Encodable(record)
    requires pos <= |input| && input[pos..] == EncodeRest(record) + suffix
    ensures DecodeRest(input, pos, RecordTag(record), record.tsDelta, record.evSeq, record.actorId)
         == Ok((record, pos + |EncodeRest(record)|))
  {
    hide DecodeSpawned, DecodeDied, DecodeMessage, EncodeCause, EncodePayload;
    match record
    case Spawned(_, _, _, name, parent, causedBy) => SpawnedBack(input, pos, record, suffix);
    case Died(_, _, _, name, reason, causedBy) => DiedBack(input, pos, record, suffix);
    case Message(_, _, _, from, name, dispatch, causedBy, payload) => MessageBack(input, pos, record, suffix);
  }

  lemma SpawnedBack(input: Bytes, pos: nat, record: WireRecord, suffix: Bytes)
    requires record.Spawned?
    requires pos <= |input| && input[pos..] == EncodeRest(record) + suffix
    ensures DecodeSpawned(input, pos, record.tsDelta, record.evSeq, record.actorId)
         == Ok((record, pos + |EncodeRest(record)|))
  {
    hide Read, Encode, ReadFrom, EncodeCause, ReadCause;
    var n, p, c := Encode(record.name), Encode(IdOrZero(record.parent)), EncodeCause(record.causedBy);
    assert input[pos..] == n + (p + (c + suffix));
    ReadBack(input, pos, record.name, p + (c + suffix));
    ReadBack(input, pos + |n|, IdOrZero(record.parent), c + suffix);
    CauseBack(input, pos + |n| + |p|, record.causedBy, suffix);
  }

  lemma DiedBack(input: Bytes, pos: nat, record: WireRecord, suffix: Bytes)
    requires record.Died?
    requires pos <= |input| && input[pos..] == EncodeRest(record) + suffix
    ensures DecodeDied(input, pos, record.tsDelta, record.evSeq, record.actorId)
         == Ok((record, pos + |EncodeRest(record)|))
  {
    hide Read, Encode, ReadFrom, ByteAt, EncodeCause, ReadCause;
    var n, c := Encode(record.name), EncodeCause(record.causedBy);
    assert input[pos..] == n + ([record.reason] + (c + suffix));
    ReadBack(input, pos, record.name, [record.reason] + (c + suffix));
    ByteBack(input, pos + |n|, record.reason, c + suffix);
    CauseBack(input, pos + |n| + 1, record.causedBy, suffix);
  }

  lemma MessageBack(input: Bytes, pos: nat, record: WireRecord, suffix: Bytes)
    requires record.Message? && Encodable(record)
    requires pos <= |input| && input[pos..] == EncodeRest(record) + suffix
    ensures DecodeMessage(input, pos, record.tsDelta, record.evSeq, record.actorId)
         == Ok((record, pos + |EncodeRest(record)|))
  {
    hide Read, Encode, ReadFrom, EncodeDelivery, ReadDelivery;
    var f, n := Encode(IdOrZero(record.from)), Encode(record.name);
    var delivery := Delivery(record.dispatch, record.causedBy, record.payload);
    var tail := EncodeDelivery(delivery) + suffix;
    assert input[pos..] == f + (n + tail);
    ReadBack(input, pos, IdOrZero(record.from), n + tail);
    ReadBack(input, pos + |f|, record.name, tail);
    DeliveryBack(input, pos + |f| + |n|, delivery, suffix);
  }

  lemma DeliveryBack(input: Bytes, pos: nat, delivery: Delivery, suffix: Bytes)
    requires |delivery.payload| < U64_LIMIT
    requires pos <= |input| && input[pos..] == EncodeDelivery(delivery) + suffix
    ensures ReadDelivery(input, pos) == Ok((delivery, pos + |EncodeDelivery(delivery)|))
  {
    hide Read, Encode, ByteAt, EncodeCause, ReadCause, EncodePayload, ReadPayload;
    var c, tail := EncodeCause(delivery.causedBy), EncodePayload(delivery.payload) + suffix;
    assert input[pos..] == [delivery.dispatch] + (c + tail);
    ByteBack(input, pos, delivery.dispatch, c + tail);
    CauseBack(input, pos + 1, delivery.causedBy, tail);
    PayloadBack(input, pos + 1 + |c|, delivery.payload, suffix);
  }

  lemma PayloadBack(input: Bytes, pos: nat, payload: Bytes, rest: Bytes)
    requires |payload| < U64_LIMIT
    requires pos <= |input| && input[pos..] == EncodePayload(payload) + rest
    ensures ReadPayload(input, pos) == Ok((payload, pos + |EncodePayload(payload)|))
    ensures pos + |EncodePayload(payload)| <= |input| && input[pos + |EncodePayload(payload)|..] == rest
  {
    hide Read, Encode, ReadFrom;
    var l := Encode(|payload|);
    assert input[pos..] == l + (payload + rest);
    ReadBack(input, pos, |payload|, payload + rest);
    BytesBack(input, pos + |l|, payload, rest);
  }

  lemma {:induction false} RecordsBack(body: Bytes, pos: nat, records: seq<WireRecord>)
    requires pos <= |body| && body[pos..] == EncodeRecords(records)
    requires forall i :: 0 <= i < |records| ==> Encodable(records[i])
    ensures ParseRecords(body, pos) == Ok((records, |body|))
    decreases |records|
  {
    hide Read, Encode, DecodeRecord, EncodeRecord;
    if records == [] {
      assert |body[pos..]| == 0;
    } else {
      var head, tail := EncodeRecord(records[0]), EncodeRecords(records[1..]);
      RecordBack(records[0], tail);
      assert |body[pos..]| == |head| + |tail|;
      assert body[pos + |head|..] == body[pos..][|head|..] == tail;
      RecordsBack(body, pos + |head|, records[1..]);
      assert [records[0]] + records[1..] == records;
    }
  }

  lemma {:induction false} BlobsBack(body: Bytes, pos: nat, table: seq<Bytes>, text: bool, rest: Bytes)
    requires pos <= |body| && body[pos..] == EncodeBlobs(table) + rest
    requires |body| < U64_LIMIT
    requires text ==> AllValidUtf8(table)
    ensures ParseBlobs(body, pos, |table|, text) == Ok((table, pos + |EncodeBlobs(table)|))
    ensures pos + |EncodeBlobs(table)| <= |body| && body[pos + |EncodeBlobs(table)|..] == rest
    decreases |table|
  {
    hide ReadPayload, ValidUtf8;
    if table == [] {
      assert EncodeBlobs(table) + rest == rest;
    } else {
      var blob, tail := table[0], EncodeBlobs(table[1..]) + rest;
      var head := EncodePayload(blob);
      assert body[pos..] == head + tail;
      assert |body[pos..]| == |head| + |tail|;
      PayloadBack(body, pos, blob, tail);
      BlobsBack(body, pos + |head|, table[1..], text, rest);
      assert [blob] + table[1..] == table;
    }
  }

  /** Every blob costs at least its length byte. */
  lemma {:induction false} BlobsLength(table: seq<Bytes>)
    ensures |table| <= |EncodeBlobs(table)|
  {
    if table != [] {
      EncodeShape(|table[0]|, []);
      BlobsLength(table[1..]);
    }
  }

  lemma TableBack(body: Bytes, pos: nat, table: seq<Bytes>, text: bool, rest: Bytes)
    requires pos <= |body| && body[pos..] == EncodeTable(table) + rest
    requires |body| < U64_LIMIT
    requires text ==> AllValidUtf8(table)
    ensures ParseTable(body, pos, text) == Ok((table, pos + |EncodeTable(table)|))
    ensures pos + |EncodeTable(table)| <= |body| && body[pos + |EncodeTable(table)|..] == rest
  {
    hide Read, Encode, ParseBlobs, EncodeBlobs, ReadFrom;
    BlobsLength(table);
    assert |body[pos..]| == |EncodeTable(table)| + |rest|;
    assert body[pos..] == Encode(|table|) + (EncodeBlobs(table) + rest);
    ReadBack(body, pos, |table|, EncodeBlobs(table) + rest);
    BlobsBack(body, pos + |Encode(|table|)|, table, text, rest);
  }

  lemma ReadingsBack(body: Bytes, anchor: SegmentAnchor, closeMono: U64, closeTick: U64, rest: Bytes)
    requires body == [anchor.mode.ToTag()] + (EncodeReadings(anchor, closeMono, closeTick) + rest)
    ensures var end := 1 + |EncodeReadings(anchor, closeMono, closeTick)|;
      && ParseReadings(body) == Ok((Readings(anchor, closeMono, closeTick), end))
      && end <= |body| && body[end..] == rest
  {
    hide Read, Encode, ReadFrom, ByteAt, Slice;
    var u, m, t := Encode(anchor.unixMicros), Encode(anchor.monoMicros), Encode(anchor.tick);
    var cm, ct := Encode(closeMono), Encode(closeTick);
    assert body[0..] == [anchor.mode.ToTag()] + (u + (m + (t + (cm + (ct + rest)))));
    ByteBack(body, 0, anchor.mode.ToTag(), u + (m + (t + (cm + (ct + rest)))));
    ReadBack(body, 1, anchor.unixMicros, m + (t + (cm + (ct + rest))));
    ReadBack(body, 1 + |u|, anchor.monoMicros, t + (cm + (ct + rest)));
    ReadBack(body, 1 + |u| + |m|, anchor.tick, cm + (ct + rest));
    ReadBack(body, 1 + |u| + |m| + |t|, closeMono, ct + rest);
    ReadBack(body, 1 + |u| + |m| + |t| + |cm|, closeTick, rest);
  }

  function EncodeSegmentBody(segment: Segment): Bytes {
    EncodeBody(segment.anchor, segment.closeMonoMicros, segment.closeTick,
               segment.strings, segment.interpretations, segment.schemas, EncodeRecords(segment.records))
  }

  lemma BodyBack(segment: Segment)
    requires |EncodeSegmentBody(segment)| < U64_LIMIT
    requires AllValidUtf8(segment.strings)
    requires forall i :: 0 <= i < |segment.records| ==> Encodable(segment.records[i])
    ensures ParseBody(EncodeSegmentBody(segment)) == Ok(segment)
  {
    hide Read, Encode, ParseReadings, ParseTable, ParseRecords, EncodeTable, EncodeReadings, EncodeRecords;
    hide Encodable, AllValidUtf8;
    var body := EncodeSegmentBody(segment);
    var s, i, c, r := EncodeTable(segment.strings), EncodeTable(segment.interpretations),
                      EncodeTable(segment.schemas), EncodeRecords(segment.records);
    ReadingsBack(body, segment.anchor, segment.closeMonoMicros, segment.closeTick, s + (i + (c + r)));
    var p1 := ParseReadings(body).value.1;
    TableBack(body, p1, segment.strings, true, i + (c + r));
    TableBack(body, p1 + |s|, segment.interpretations, false, c + r);
    TableBack(body, p1 + |s| + |i|, segment.schemas, false, r);
    RecordsBack(body, p1 + |s| + |i| + |c|, segment.records);
  }

  lemma LittleEndianBack(n: U32)
    ensures FromLittleEndian32(LittleEndian32(n)) == n
  {
  }

  /** A framed body that fits its length prefix is recovered from the front of any input. */
  lemma FrameBack(segment: Segment, suffix: Bytes)
    requires |EncodeSegmentBody(segment)| < U32_LIMIT
    requires AllValidUtf8(segment.strings)
    requires forall i :: 0 <= i < |segment.records| ==> Encodable(segment.records[i])
    ensures var bytes := Frame(EncodeSegmentBody(segment));
      ParseSegment(bytes + suffix) == Ok((segment, |bytes|))
  {
    hide ParseBody, EncodeSegmentBody, Encodable, AllValidUtf8, LittleEndian32, FromLittleEndian32;
    var body := EncodeSegmentBody(segment);
    var input := Frame(body) + suffix;
    var prefix := LittleEndian32(|body|);
    LittleEndianBack(|body|);
    assert input[0..4] == prefix;
    assert input[4..4 + |body|] == body;
    BodyBack(segment);
  }
}
