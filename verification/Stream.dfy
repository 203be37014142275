/** Stream framing: a fixed header followed by segments, and the fused iterator
    that reads them back. */
module Stream {
  import opened Options
  import opened Wire
  import opened Segment

  const MAGIC: Bytes := [0x46, 0x43, 0x41, 0x50]
  const VERSION: U16 := 1

  /** `write_stream_header`: magic, version and reserved flags. */
  function StreamHeader(): (header: Bytes)
    ensures |header| == 8
  {
    MAGIC + [VERSION % 256, VERSION / 256] + [0, 0]
  }

  /** `read_stream_header`: the bytes after a valid header. */
  function ReadStreamHeader(input: Bytes): Result<Bytes> {
    var magic :- Slice(input, 0, 4);
    if magic != MAGIC then Err(BadMagic) else
    var versionBytes :- Slice(input, 4, 2);
    var low: int, high: int := versionBytes[0], versionBytes[1];
    var version: U16 := low + 256 * high;
    if version != VERSION then Err(UnsupportedVersion(version, VERSION)) else
    var flags :- Slice(input, 6, 2);
    Ok(input[8..])
  }

  lemma HeaderBack(rest: Bytes)
    ensures ReadStreamHeader(StreamHeader() + rest) == Ok(rest)
  {
    var input := StreamHeader() + rest;
    assert input[0..4] == MAGIC;
    assert input[4..6] == [1, 0];
    assert input[8..] == rest;
  }

  /** Exactly which inputs carry a header: the magic, version one, and two more bytes. */
  lemma HeaderExactly(input: Bytes)
    ensures ReadStreamHeader(input).Ok? <==>
      |input| >= 8 && input[..4] == MAGIC && input[4] == 1 && input[5] == 0
  {
    if |input| >= 6 {
      assert input[0..4] == input[..4];
      assert input[4..6][0] == input[4] && input[4..6][1] == input[5];
    } else if |input| >= 4 {
      assert input[0..4] == input[..4];
    }
  }

  /** The items the segment iterator yields: one per segment, and a single error
      after which nothing follows. */
  function Items(body: Bytes): seq<Result<Segment>>
    decreases |body|
  {
    if body == [] then [] else
    match ParseSegment(body)
    case Ok((segment, consumed)) => [Ok(segment)] + Items(body[consumed..])
    case Err(error) => [Err(error)]
  }

  class Segments {
    var rest: Bytes

    constructor (body: Bytes)
      ensures rest == body
    {
      rest := body;
    }

    /** `Segments::next`: yields the first of the remaining items and fuses on an error. */
    method Next() returns (item: Option<Result<Segment>>)
      modifies this
      ensures item.None? <==> old(rest) == []
      ensures Items(old(rest)) == (if item.Some? then [item.value] else []) + Items(rest)
      ensures if item.Some? then |rest| < |old(rest)| else rest == []
      ensures item.Some? && item.value.Err? ==> rest == []
    {
      hide ParseSegment;
      if rest == [] {
        return None;
      }
      var r := DecodeSegment(rest);
      match r
      case Ok((segment, consumed)) =>
        rest := rest[consumed..];
        return Some(Ok(segment));
      case Err(error) =>
        rest := [];
        return Some(Err(error));
    }
  }

  /** Running the iterator to exhaustion yields exactly the items. */
  method Collect(body: Bytes) returns (items: seq<Result<Segment>>)
    ensures items == Items(body)
  {
    hide Items;
    var source := new Segments(body);
    items := [];
    var more := true;
    while more
      invariant items + Items(source.rest) == Items(body)
      invariant !more ==> source.rest == []
      decreases more, |source.rest|
    {
      var item := source.Next();
      if item.None? {
        more := false;
      } else {
        assert items + ([item.value] + Items(source.rest)) == items + [item.value] + Items(source.rest);
        items := items + [item.value];
      }
    }
    NoItems();
  }

  lemma NoItems()
    ensures Items([]) == []
  {
  }
}
