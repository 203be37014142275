/** What the codec's readers do with inputs that are cut short or malformed. */
module Rejection {

  import opened Options
  import opened Wire
  import opened Varint
  import opened Segment
  import opened Stream

  // ------------------------------------------------------------------------ varints

  /** Exactly when a varint is rejected, and as what: ten continuation bytes are overlong,
      fewer that reach the end of the input are cut short. */
  lemma VarintRejectedExactly(input: Bytes)
    ensures Read(input) == Err(OverlongVarint) <==>
      |input| >= 10 && forall k :: 0 <= k < 10 ==> input[k] >= 128
    ensures Read(input) == Err(UnexpectedEof) <==>
      |input| < 10 && forall k :: 0 <= k < |input| ==> input[k] >= 128
    ensures Read(input).Ok? <==> exists k :: 0 <= k < |input| && k < 10 && input[k] < 128
  {
    hide GroupSum;
    var i := Terminator(input);
  }

  lemma TerminatorOf(input: Bytes, i: nat)
    requires i < |input| && input[i] < 128 && forall k :: 0 <= k < i ==> input[k] >= 128
    ensures Terminator(input) == i
  {
  }

  /** Reading is local: it depends on the bytes it consumes only, and cutting into them is
      an unexpected end of the input. */
  lemma VarintLocal(input: Bytes, m: nat)
    requires Read(input).Ok? && m <= |input|
    ensures Read(input[..m]) == if m < Read(input).value.1 then Err(UnexpectedEof) else Read(input)
  {
    hide GroupSum;
    var n := Read(input).value.1;
    var cut := input[..m];
    if m >= n {
      TerminatorOf(cut, n - 1);
      assert cut[..n] == input[..n];
    } else {
      assert forall k :: 0 <= k < m ==> cut[k] >= 128;
      VarintRejectedExactly(cut);
    }
  }

  // -------------------------------------------------------------------- fields are local

  /** Whether a field that ends at `end` survives a cut at `m`. */
  function CutAt<T>(r: Result<(T, nat)>, m: nat): Result<(T, nat)>
    requires r.Ok?
  {
    if m < r.value.1 then Err(UnexpectedEof) else r
  }

  lemma FieldLocal(input: Bytes, pos: nat, m: nat)
    requires pos <= m <= |input| && ReadFrom(input, pos).Ok?
    ensures ReadFrom(input[..m], pos) == CutAt(ReadFrom(input, pos), m)
  {
    hide Read;
    assert input[..m][pos..] == input[pos..][..m - pos];
    VarintLocal(input[pos..], m - pos);
  }

  lemma CauseLocal(input: Bytes, pos: nat, m: nat)
    requires pos <= m <= |input| && ReadCause(input, pos).Ok?
    ensures ReadCause(input[..m], pos) == CutAt(ReadCause(input, pos), m)
  {
    hide ReadFrom;
    FieldLocal(input, pos, m);
    var (actor, next) := ReadFrom(input, pos).value;
    if m >= next && actor != 0 {
      FieldLocal(input, next, m);
    }
  }

  lemma PayloadLocal(input: Bytes, pos: nat, m: nat)
    requires pos <= m <= |input| && ReadPayload(input, pos).Ok?
    ensures ReadPayload(input[..m], pos) == CutAt(ReadPayload(input, pos), m)
  {
    hide ReadFrom;
    FieldLocal(input, pos, m);
    var (len, next) := ReadFrom(input, pos).value;
    if m >= next + len {
      assert input[..m][next..next + len] == input[next..next + len];
    }
  }

  lemma DeliveryLocal(input: Bytes, pos: nat, m: nat)
    requires pos <= m <= |input| && ReadDelivery(input, pos).Ok?
    ensures ReadDelivery(input[..m], pos) == CutAt(ReadDelivery(input, pos), m)
  {
    hide ReadCause, ReadPayload;
    if pos < m {
      CauseLocal(input, pos + 1, m);
      var next := ReadCause(input, pos + 1).value.1;
      if m >= next {
        PayloadLocal(input, next, m);
      }
    }
  }

  lemma RestLocal(input: Bytes, pos: nat, m: nat, tag: Byte, tsDelta: U64, evSeq: U64, actorId: NonZeroU64)
    requires pos <= m <= |input| && DecodeRest(input, pos, tag, tsDelta, evSeq, actorId).Ok?
    ensures DecodeRest(input[..m], pos, tag, tsDelta, evSeq, actorId)
      == CutAt(DecodeRest(input, pos, tag, tsDelta, evSeq, actorId), m)
  {
    hide ReadFrom, ReadCause, ReadDelivery;
    FieldLocal(input, pos, m);
    var p1 := ReadFrom(input, pos).value.1;
    if m >= p1 {
      if tag == TAG_SPAWNED {
        FieldLocal(input, p1, m);
        var p2 := ReadFrom(input, p1).value.1;
        if m >= p2 {
          CauseLocal(input, p2, m);
        }
      } else if tag == TAG_DIED {
        if m > p1 {
          CauseLocal(input, p1 + 1, m);
        }
      } else {
        FieldLocal(input, p1, m);
        var p2 := ReadFrom(input, p1).value.1;
        if m >= p2 {
          DeliveryLocal(input, p2, m);
        }
      }
    }
  }

  /** A record's decoding depends on its own bytes only, and every proper prefix of a
      record is an unexpected end of the input. */
  lemma RecordLocal(input: Bytes, m: nat)
    requires m <= |input| && DecodeRecord(input).Ok?
    ensures DecodeRecord(input[..m]) == CutAt(DecodeRecord(input), m)
  {
    hide ReadFrom, DecodeRest;
    if m > 0 {
      FieldLocal(input, 1, m);
      var (tsDelta, p1) := ReadFrom(input, 1).value;
      if m >= p1 {
        FieldLocal(input, p1, m);
        var (evSeq, p2) := ReadFrom(input, p1).value;
        if m >= p2 {
          FieldLocal(input, p2, m);
          var (actorId, p3) := ReadFrom(input, p2).value;
          if m >= p3 {
            RestLocal(input, p3, m, input[0], tsDelta, evSeq, actorId);
          }
        }
      }
    }
  }

  /** Every proper prefix of a segment is an unexpected end of the input. */
  lemma SegmentCutShort(input: Bytes, m: nat)
    requires ParseSegment(input).Ok? && m < ParseSegment(input).value.1
    ensures ParseSegment(input[..m]) == Err(UnexpectedEof)
  {
    hide ParseBody;
    if m >= 4 {
      assert input[..m][0..4] == input[0..4];
    }
  }

  // ------------------------------------------------------------------- malformed records

  /** After a readable start, a zero actor ID is rejected before the tag is looked at, and
      then every tag but the three known ones. */
  lemma RecordRejected(tag: Byte, tsDelta: U64, evSeq: U64, actorId: U64, rest: Bytes)
    ensures var input := [tag] + (Encode(tsDelta) + (Encode(evSeq) + (Encode(actorId) + rest)));
      && (actorId == 0 ==> DecodeRecord(input) == Err(ZeroActorId))
      && (actorId != 0 && tag > 2 ==> DecodeRecord(input) == Err(UnknownRecordTag(tag)))
  {
    hide Read, Encode, ReadFrom, DecodeSpawned, DecodeDied, DecodeMessage;
    var d, s, a := Encode(tsDelta), Encode(evSeq), Encode(actorId);
    var input := [tag] + (d + (s + (a + rest)));
    assert input[0..] == input;
    ByteBack(input, 0, tag, d + (s + (a + rest)));
    ReadBack(input, 1, tsDelta, s + (a + rest));
    ReadBack(input, 1 + |d|, evSeq, a + rest);
    ReadBack(input, 1 + |d| + |s|, actorId, rest);
  }

  /** A segment body is rejected by its first byte alone if that is no clock mode. */
  lemma ClockModeRejected(tag: Byte, rest: Bytes)
    ensures tag > 3 ==> ParseBody([tag] + rest) == Err(UnknownClockMode(tag))
    ensures ParseBody([]) == Err(UnexpectedEof)
  {
    hide ParseTable, ParseRecords, ReadFrom;
    var body := [tag] + rest;
    assert body[0] == tag;
  }

  /** The clock modes and their tags. */
  lemma ClockModeBack(mode: ClockMode, tag: Byte)
    ensures ClockMode.FromTag(mode.ToTag()) == Some(mode)
    ensures ClockMode.FromTag(tag).Some? <==> tag <= 3
    ensures ClockMode.FromTag(tag).Some? ==> ClockMode.FromTag(tag).value.ToTag() == tag
  {
  }

  /** A name table whose first name that is not text comes after valid ones is rejected. */
  lemma {:induction false} TableRejected(body: Bytes, pos: nat, table: seq<Bytes>, bad: nat, rest: Bytes)
    requires pos <= |body| && body[pos..] == EncodeBlobs(table) + rest && |body| < U64_LIMIT
    requires bad < |table| && !ValidUtf8(table[bad]) && forall i :: 0 <= i < bad ==> ValidUtf8(table[i])
    ensures ParseBlobs(body, pos, |table|, true) == Err(InvalidUtf8)
    decreases |table|
  {
    hide ReadPayload, ValidUtf8;
    var blob, tail := table[0], EncodeBlobs(table[1..]) + rest;
    var head := EncodePayload(blob);
    assert body[pos..] == head + tail;
    assert |body[pos..]| == |head| + |tail|;
    PayloadBack(body, pos, blob, tail);
    if bad > 0 {
      TableRejected(body, pos + |head|, table[1..], bad - 1, rest);
    }
  }

  // ------------------------------------------------------------------------- the stream

  /** Exactly how a stream without a valid header is rejected. */
  lemma HeaderRejectedExactly(input: Bytes)
    ensures ReadStreamHeader(input) == Err(UnexpectedEof) <==>
      || |input| < 4
      || (input[..4] == MAGIC && (|input| < 6 || (input[4] == 1 && input[5] == 0 && |input| < 8)))
    ensures ReadStreamHeader(input) == Err(BadMagic) <==> |input| >= 4 && input[..4] != MAGIC
    ensures |input| >= 6 && input[..4] == MAGIC && !(input[4] == 1 && input[5] == 0) ==>
      exists found: U16 :: found as int == input[4] as int + 256 * input[5] as int
        && ReadStreamHeader(input) == Err(UnsupportedVersion(found, 1))
  {
    if |input| >= 4 {
      assert input[0..4] == input[..4];
    }
    if |input| >= 6 {
      assert input[4..6][0] == input[4] && input[4..6][1] == input[5];
      var low: int, high: int := input[4], input[5];
      var found: U16 := low + 256 * high;
    }
  }

  // -------------------------------------------------------------------- the constants

  /** The bytes that identify a stream, a clock mode and a kind of record. */
  lemma WireConstants(record: WireRecord)
    ensures StreamHeader() == [0x46, 0x43, 0x41, 0x50, 1, 0, 0, 0]
    ensures Tsc.ToTag() == 0 && Cntvct.ToTag() == 1 && Monotonic.ToTag() == 2 && SegmentStamp.ToTag() == 3
    ensures EncodeRecord(record)[0] == if record.Spawned? then 0 else if record.Died? then 1 else 2
  {
  }

  /** A body begins with its clock mode, a frame with its body's length, low byte first. */
  lemma FrameConstants(anchor: SegmentAnchor, closeMono: U64, closeTick: U64, strings: seq<Bytes>,
                       interpretations: seq<Bytes>, schemas: seq<Bytes>, records: Bytes)
    ensures var body := EncodeBody(anchor, closeMono, closeTick, strings, interpretations, schemas, records);
      && body[0] == anchor.mode.ToTag()
      && |Frame(body)| == 4 + |body| && Frame(body)[4..] == body
      && var n := |body| % U32_LIMIT;
      Frame(body)[..4] == [n % 0x100, n / 0x100 % 0x100, n / 0x1_0000 % 0x100, n / 0x100_0000]
  {
    hide EncodeReadings, EncodeTable;
    var n := |EncodeBody(anchor, closeMono, closeTick, strings, interpretations, schemas, records)| % U32_LIMIT;
    assert n / 256 / 256 == n / 0x1_0000 && n / 256 / 256 / 256 == n / 0x100_0000;
  }
}
