/** The codec's text check against Unicode: the byte sequences it accepts are exactly the
    encodings of sequences of Unicode scalar values. */
module Text {

  import opened Wire
  import opened Segment

  predicate IsScalar(c: nat) {
    c < 0xD800 || 0xE000 <= c < 0x110000
  }

  function Tail(c: nat): Byte {
    0x80 + c % 64
  }

  function EncodeScalar(c: nat): (bytes: Bytes)
    requires IsScalar(c)
    ensures bytes != []
  {
    if c < 0x80 then [c]
    else if c < 0x800 then [0xC0 + c / 64, Tail(c)]
    else if c < 0x10000 then [0xE0 + c / 4096, Tail(c / 64), Tail(c)]
    else [0xF0 + c / 262144, Tail(c / 4096), Tail(c / 64), Tail(c)]
  }

  predicate AllScalars(text: seq<nat>) {
    forall i :: 0 <= i < |text| ==> IsScalar(text[i])
  }

  function EncodeText(text: seq<nat>): Bytes
    requires AllScalars(text)
  {
    if text == [] then [] else EncodeScalar(text[0]) + EncodeText(text[1..])
  }

  lemma ScalarAccepted(c: nat, rest: Bytes)
    requires IsScalar(c)
    ensures ScalarLength(EncodeScalar(c) + rest) == |EncodeScalar(c)|
  {
  }

  /** The scalar value at the front of a well-formed sequence. */
  function DecodeScalar(s: Bytes): nat
    requires ScalarLength(s) > 0
  {
    var n, a: int := ScalarLength(s), s[0];
    if n == 1 then a
    else if n == 2 then (a - 0xC0) * 64 + Payload(s[1])
    else if n == 3 then (a - 0xE0) * 4096 + Payload(s[1]) * 64 + Payload(s[2])
    else (a - 0xF0) * 262144 + Payload(s[1]) * 4096 + Payload(s[2]) * 64 + Payload(s[3])
  }

  /** The six payload bits of a continuation byte. */
  function Payload(b: Byte): nat
    requires Continuation(b)
  {
    b - 0x80
  }

  /** A base-64 digit comes back from the number it ends. */
  lemma Digit(high: nat, low: nat)
    requires low < 64
    ensures (high * 64 + low) / 64 == high && (high * 64 + low) % 64 == low
  {
  }

  lemma DivideTwice(v: nat)
    ensures v / 4096 == v / 64 / 64 && v / 262144 == v / 64 / 64 / 64
  {
  }

  lemma TwoBytes(a: nat, b: nat)
    requires 2 <= a < 32 && b < 64
    ensures var c := a * 64 + b; IsScalar(c) && EncodeScalar(c) == [0xC0 + a, 0x80 + b]
  {
    Digit(a, b);
  }

  lemma ThreeBytes(a: nat, b: nat, d: nat)
    requires a < 16 && b < 64 && d < 64 && IsScalar(a * 4096 + b * 64 + d) && a * 64 + b >= 32
    ensures var c := a * 4096 + b * 64 + d; EncodeScalar(c) == [0xE0 + a, 0x80 + b, 0x80 + d]
  {
    var c := a * 4096 + b * 64 + d;
    Digit(a * 64 + b, d);
    Digit(a, b);
    DivideTwice(c);
  }

  lemma FourBytes(a: nat, b: nat, d: nat, e: nat)
    requires a < 5 && b < 64 && d < 64 && e < 64 && a * 64 + b >= 16 && a * 262144 + b * 4096 + d * 64 + e < 0x110000
    ensures var c := a * 262144 + b * 4096 + d * 64 + e;
      IsScalar(c) && EncodeScalar(c) == [0xF0 + a, 0x80 + b, 0x80 + d, 0x80 + e]
  {
    var c := a * 262144 + b * 4096 + d * 64 + e;
    Digit(a * 4096 + b * 64 + d, e);
    Digit(a * 64 + b, d);
    Digit(a, b);
    DivideTwice(c);
  }

  lemma AcceptedScalar(s: Bytes)
    requires ScalarLength(s) > 0
    ensures IsScalar(DecodeScalar(s)) && EncodeScalar(DecodeScalar(s)) == s[..ScalarLength(s)]
  {
    hide EncodeScalar;
    var n := ScalarLength(s);
    if n == 1 {
      OneByte(s[0]);
      assert s[..1] == [s[0]];
    } else if n == 2 {
      TwoBytes(s[0] - 0xC0, s[1] - 0x80);
      assert s[..2] == [s[0], s[1]];
    } else if n == 3 {
      ThreeBytes(s[0] - 0xE0, s[1] - 0x80, s[2] - 0x80);
      assert s[..3] == [s[0], s[1], s[2]];
    } else {
      FourBytes(s[0] - 0xF0, s[1] - 0x80, s[2] - 0x80, s[3] - 0x80);
      assert s[..4] == [s[0], s[1], s[2], s[3]];
    }
  }

  lemma OneByte(b: nat)
    requires b < 0x80
    ensures IsScalar(b) && EncodeScalar(b) == [b]
  {
  }

  lemma {:induction false} EncodedIsValid(text: seq<nat>)
    requires AllScalars(text)
    ensures ValidUtf8(EncodeText(text))
  {
    hide ScalarLength;
    if text != [] {
      var head, tail := EncodeScalar(text[0]), EncodeText(text[1..]);
      ScalarAccepted(text[0], tail);
      EncodedIsValid(text[1..]);
      assert (head + tail)[|head|..] == tail;
    }
  }

  lemma {:induction false} ValidIsEncoded(s: Bytes) returns (text: seq<nat>)
    requires ValidUtf8(s)
    ensures AllScalars(text) && EncodeText(text) == s
    decreases |s|
  {
    hide ScalarLength, EncodeScalar;
    if s == [] {
      text := [];
    } else {
      var n := ScalarLength(s);
      AcceptedScalar(s);
      var rest := ValidIsEncoded(s[n..]);
      text := [DecodeScalar(s)] + rest;
      assert text[1..] == rest;
      assert s == s[..n] + s[n..];
    }
  }

  /** Valid UTF-8 is exactly the encoding of some sequence of scalar values. */
  lemma ValidUtf8Exactly(s: Bytes)
    ensures ValidUtf8(s) <==> exists text: seq<nat> :: AllScalars(text) && EncodeText(text) == s
  {
    hide ValidUtf8, EncodeText;
    if ValidUtf8(s) {
      var text := ValidIsEncoded(s);
    }
    if text: seq<nat> :| AllScalars(text) && EncodeText(text) == s {
      EncodedIsValid(text);
    }
  }
}
