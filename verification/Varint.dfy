/** Unsigned LEB128 varints (section 7.6 of DWARF Version 5), as written and
    read by the capture codec. */
module Varint {
  import opened Wire

  /** The most bytes a 64-bit varint occupies. */
  const MAX_LEN: nat := 10

  /** The canonical encoding: seven payload bits per byte, low group first, the
      high bit set on every byte but the last. */
  function Encode(value: nat): Bytes {
    if value < 128 then [value] else [value % 128 + 128] + Encode(value / 128)
  }

  /** The number whose base-128 digits, low first, are the low seven bits of each byte. */
  function GroupSum(bytes: Bytes): nat {
    if bytes == [] then 0 else bytes[0] % 128 + 128 * GroupSum(bytes[1..])
  }

  /** Index of the first byte without the continuation bit, or the length if there is none. */
  function Terminator(bytes: Bytes): (i: nat)
    ensures i <= |bytes|
    ensures i < |bytes| ==> bytes[i] < 128
    ensures forall k :: 0 <= k < i ==> bytes[k] >= 128
  {
    if bytes == [] || bytes[0] < 128 then 0 else 1 + Terminator(bytes[1..])
  }

  /** What reading a varint from the front of `input` means: find the terminator
      among the first ten bytes and take the groups up to it modulo 2^64. */
  function Read(input: Bytes): Result<(U64, nat)> {
    var i := Terminator(input);
    if i < |input| && i < MAX_LEN then Ok((GroupSum(input[..i + 1]) % U64_LIMIT, i + 1))
    else if |input| >= MAX_LEN then Err(OverlongVarint)
    else Err(UnexpectedEof)
  }

  function Pow2(k: nat): (r: nat)
    ensures r >= 1
  {
    if k == 0 then 1 else 2 * Pow2(k - 1)
  }

  /** Bitwise or of two naturals. */
  function BitOr(a: nat, b: nat): nat {
    if a == 0 && b == 0 then 0
    else 2 * BitOr(a / 2, b / 2) + (if a % 2 == 1 || b % 2 == 1 then 1 else 0)
  }

  // ---------------------------------------------------------------- arithmetic

  lemma {:induction false} Pow2Add(a: nat, b: nat)
    ensures Pow2(a + b) == Pow2(a) * Pow2(b)
  {
    if a > 0 {
      Pow2Add(a - 1, b);
    }
  }

  /** Or-ing a multiple of 2^k onto a number below 2^k adds it. */
  lemma {:induction false} BitOrDisjoint(a: nat, m: nat, k: nat)
    requires a < Pow2(k)
    ensures BitOr(a, m * Pow2(k)) == a + m * Pow2(k)
  {
    var b := m * Pow2(k);
    if k == 0 {
      BitOrZero(b);
    } else if a == 0 && b == 0 {
    } else {
      assert b == 2 * (m * Pow2(k - 1));
      BitOrDisjoint(a / 2, m, k - 1);
    }
  }

  lemma {:induction false} BitOrZero(b: nat)
    ensures BitOr(0, b) == b
  {
    if b > 0 {
      BitOrZero(b / 2);
    }
  }

  lemma {:induction false} GroupSumSnoc(bytes: Bytes, b: Byte)
    ensures GroupSum(bytes + [b]) == GroupSum(bytes) + (b % 128) * Pow2(7 * |bytes|)
  {
    if bytes == [] {
      assert bytes + [b] == [b];
    } else {
      GroupSumSnoc(bytes[1..], b);
      assert (bytes + [b])[1..] == bytes[1..] + [b];
      Pow2Add(7, 7 * |bytes[1..]|);
      assert Pow2(7) == 128;
      var p, q := Pow2(7 * |bytes[1..]|), Pow2(7 * |bytes|);
      assert q == 128 * p;
      assert 128 * ((b % 128) * p) == (b % 128) * q;
    }
  }

  lemma {:induction false} GroupSumBound(bytes: Bytes)
    ensures GroupSum(bytes) < Pow2(7 * |bytes|)
  {
    if bytes != [] {
      GroupSumBound(bytes[1..]);
      Pow2Add(7, 7 * |bytes[1..]|);
      assert Pow2(7) == 128;
    }
  }

  lemma Pow2Of63()
    ensures Pow2(63) == 0x8000_0000_0000_0000
    ensures U64_LIMIT == 2 * Pow2(63) == Pow2(64)
  {
    Pow2Add(31, 32);
    Pow2Add(16, 16);
    Pow2Add(8, 8);
    assert Pow2(8) == 256;
    assert Pow2(32) == 2 * Pow2(31);
  }

  lemma {:induction false} Pow2Monotone(a: nat, b: nat)
    requires a <= b
    ensures Pow2(a) <= Pow2(b)
  {
    if a < b {
      Pow2Monotone(a, b - 1);
    }
  }

  // ------------------------------------------------------------------- writing

  /** `write_uvarint`: appends the canonical encoding to the buffer. */
  method WriteUvarint(out: Bytes, value: U64) returns (buffer: Bytes)
    ensures buffer == out + Encode(value)
  {
    buffer := out;
    var rest: nat := value;
    while true
      invariant buffer + Encode(rest) == out + Encode(value)
      decreases rest
    {
      var byte := rest % 128;
      ghost var before, was := buffer, rest;
      rest := rest / 128;
      if rest == 0 {
        buffer := buffer + [byte];
        return;
      }
      assert Encode(was) == [byte + 128] + Encode(rest);
      buffer := buffer + [byte + 128];
      assert buffer + Encode(rest) == before + Encode(was);
    }
  }

  // ------------------------------------------------------------------- reading

  /** `result |= (byte & 0x7f) << shift` in 64-bit arithmetic: the shift discards high bits. */
  function OrGroup(acc: U64, byte: Byte, shift: nat): nat {
    BitOr(acc, ShiftLeft(byte % 128, shift))
  }

  function ShiftLeft(group: nat, shift: nat): U64 {
    group * Pow2(shift) % U64_LIMIT
  }

  /** `read_uvarint`: or-s each shifted group into a 64-bit accumulator and stops
      at the first byte without the continuation bit. */
  method ReadUvarint(input: Bytes) returns (r: Result<(U64, nat)>)
    ensures r == Read(input)
  {
    hide Read, Terminator, OrGroup;
    var result: U64 := 0;
    var shift: nat := 0;
    var i := 0;
    while i < |input| && i < MAX_LEN
      invariant 0 <= i <= |input| && i <= MAX_LEN
      invariant shift == 7 * i
      invariant forall k :: 0 <= k < i ==> input[k] >= 128
      invariant i < MAX_LEN ==> result == GroupSum(input[..i])
    {
      var byte := input[i];
      AccumulateGroup(input, i);
      result := OrGroup(result, byte, shift);
      if byte < 128 {
        ReadAtTerminator(input, i);
        return Ok((result, i + 1));
      }
      shift := shift + 7;
      i := i + 1;
    }
    NoTerminator(input, i);
    if |input| >= MAX_LEN {
      return Err(OverlongVarint);
    } else {
      return Err(UnexpectedEof);
    }
  }

  lemma ReadAtTerminator(input: Bytes, i: nat)
    requires i < |input| && i < MAX_LEN && input[i] < 128
    requires forall k :: 0 <= k < i ==> input[k] >= 128
    ensures Read(input) == Ok((GroupSum(input[..i + 1]) % U64_LIMIT, i + 1))
  {
    assert Terminator(input) == i;
  }

  lemma NoTerminator(input: Bytes, i: nat)
    requires i == |input| < MAX_LEN || i == MAX_LEN <= |input|
    requires forall k :: 0 <= k < i ==> input[k] >= 128
    ensures Read(input) == Err(if |input| >= MAX_LEN then OverlongVarint else UnexpectedEof)
  {
    assert Terminator(input) >= i;
  }

  /** One turn of the reader: the or-ed accumulator is the group sum so far modulo 2^64. */
  lemma AccumulateGroup(input: Bytes, i: nat)
    requires i < |input| && i < MAX_LEN
    ensures GroupSum(input[..i]) < U64_LIMIT
    ensures OrGroup(GroupSum(input[..i]), input[i], 7 * i) == GroupSum(input[..i + 1]) % U64_LIMIT
    ensures i + 1 < MAX_LEN ==> GroupSum(input[..i + 1]) < U64_LIMIT
  {
    hide BitOr, Pow2, ShiftLeft;
    assert input[..i + 1] == input[..i] + [input[i]];
    GroupSumSnoc(input[..i], input[i]);
    GroupSumBelow(input, i);
    GroupSumBound(input[..i]);
    if i + 1 < MAX_LEN {
      GroupSumBelow(input, i + 1);
      LowGroup(GroupSum(input[..i]), input[i] % 128, 7 * i);
    } else {
      TenthGroup(GroupSum(input[..i]), input[i] % 128, 7 * i);
    }
  }

  /** Nine groups or fewer fit in 64 bits. */
  lemma GroupSumBelow(input: Bytes, i: nat)
    requires i <= |input| && i < MAX_LEN
    ensures GroupSum(input[..i]) < U64_LIMIT
  {
    hide Pow2;
    GroupSumBound(input[..i]);
    Pow2Of63();
    Pow2Monotone(7 * i, 63);
  }

  lemma LowGroup(low: nat, g: nat, shift: nat)
    requires low < Pow2(shift) && low + g * Pow2(shift) < U64_LIMIT
    ensures BitOr(low, ShiftLeft(g, shift)) == (low + g * Pow2(shift)) % U64_LIMIT
  {
    hide BitOr, Pow2;
    ModDrop(g * Pow2(shift), 0);
    ModDrop(low + g * Pow2(shift), 0);
    BitOrDisjoint(low, g, shift);
  }

  /** The tenth group is shifted by 63, so only its lowest bit survives. */
  lemma TenthGroup(low: nat, g: nat, shift: nat)
    requires shift == 63 && low < Pow2(shift)
    ensures BitOr(low, ShiftLeft(g, shift)) == (low + g * Pow2(shift)) % U64_LIMIT
  {
    hide BitOr, Pow2;
    Pow2Of63();
    var p := Pow2(shift);
    var bit, rest := g % 2, g / 2;
    assert g * p == bit * p + rest * (2 * p) by {
      assert g == bit + 2 * rest;
    }
    ModDrop(bit * p, rest);
    BitOrDisjoint(low, bit, shift);
    ModDrop(low + bit * p, rest);
  }

  lemma ModDrop(x: nat, k: nat)
    requires x < U64_LIMIT
    ensures (x + k * U64_LIMIT) % U64_LIMIT == x
  {
  }

  // ------------------------------------------------------------------ theorems

  lemma {:induction false} EncodeShape(value: nat, suffix: Bytes)
    ensures |Encode(value)| >= 1
    ensures Terminator(Encode(value) + suffix) == |Encode(value)| - 1
    ensures GroupSum(Encode(value)) == value
  {
    var e := Encode(value);
    if value >= 128 {
      EncodeShape(value / 128, suffix);
      assert (e + suffix)[1..] == Encode(value / 128) + suffix;
      assert e[1..] == Encode(value / 128);
    } else {
      assert e[1..] == [];
    }
  }

  /** A value below 128^n needs at most n bytes. */
  lemma {:induction false} EncodeLength(value: nat, n: nat)
    requires n >= 1 && value < Pow2(7 * n)
    ensures 1 <= |Encode(value)| <= n
  {
    if value >= 128 {
      assert n > 1 by {
        assert Pow2(7) == 128;
      }
      Pow2Add(7, 7 * (n - 1));
      assert Pow2(7) == 128;
      EncodeLength(value / 128, n - 1);
    }
  }

  lemma EncodeLengthU64(value: U64)
    ensures 1 <= |Encode(value)| <= MAX_LEN
  {
    hide Pow2, Encode;
    Pow2Of63();
    var ten: nat := MAX_LEN;
    Pow2Monotone(64, 7 * ten);
    EncodeLength(value, ten);
  }

  /** Reading what was written, whatever follows it, returns the value and the
      exact length, which lies between one and ten bytes. */
  lemma RoundTrip(value: U64, suffix: Bytes)
    ensures 1 <= |Encode(value)| <= MAX_LEN
    ensures Read(Encode(value) + suffix) == Ok((value, |Encode(value)|))
  {
    hide Encode;
    EncodeShape(value, suffix);
    EncodeLengthU64(value);
    var e := Encode(value);
    assert (e + suffix)[..|e|] == e;
  }

  /** No encoding is a proper prefix of another. */
  lemma PrefixFree(a: U64, b: U64)
    requires Encode(a) <= Encode(b)
    ensures a == b
  {
    hide Encode, Read;
    RoundTrip(a, Encode(b)[|Encode(a)|..]);
    RoundTrip(b, []);
    assert Encode(a) + Encode(b)[|Encode(a)|..] == Encode(b) == Encode(b) + [];
  }

  /** Every accepted input is at most ten bytes of groups, and no accepted input
      for a value is shorter than the canonical encoding of that value. */
  lemma Accepted(input: Bytes)
    requires Read(input).Ok?
    ensures var (value, n) := Read(input).value;
      && 1 <= n <= MAX_LEN && n <= |input|
      && value == GroupSum(input[..n]) % U64_LIMIT
      && |Encode(value)| <= n
  {
    hide Pow2, Encode;
    var (value, n) := Read(input).value;
    if n < MAX_LEN {
      GroupSumBound(input[..n]);
      Pow2Of63();
      Pow2Monotone(7 * n, 63);
      EncodeLength(value, n);
    } else {
      EncodeLengthU64(value);
    }
  }

  /** Which accepted inputs are the canonical encoding of what they decode to:
      those whose last group is needed and whose tenth byte, if any, does not
      overflow 64 bits. */
  lemma CanonicalExactly(input: Bytes)
    requires Read(input).Ok?
    ensures var (value, n) := Read(input).value;
      input[..n] == Encode(value) <==> (n == 1 || input[n - 1] != 0) && (n == MAX_LEN ==> input[n - 1] <= 1)
  {
    hide Encode, GroupSum;
    var (value, n) := Read(input).value;
    if n < MAX_LEN {
      GroupSumBelow(input, n);
      CanonicalDigits(input[..n]);
    } else {
      CanonicalTen(input[..n], value);
    }
  }

  lemma BelowTwo(k: nat, p: nat)
    requires k * p < 2 * p
    ensures k <= 1
  {
  }

  lemma CanonicalTen(bytes: Bytes, value: U64)
    requires |bytes| == MAX_LEN && bytes[9] < 128 && value == GroupSum(bytes) % U64_LIMIT
    requires forall k :: 0 <= k < 9 ==> bytes[k] >= 128
    ensures bytes == Encode(value) <==> bytes[9] == 1
  {
    hide Encode, GroupSum, Pow2;
    var last, low := bytes[9], GroupSum(bytes[..9]);
    assert bytes == bytes[..9] + [last];
    GroupSumSnoc(bytes[..9], last);
    GroupSumBound(bytes[..9]);
    Pow2Of63();
    CanonicalDigits(bytes);
    if bytes == Encode(value) {
      EncodeShape(value, []);
      BelowTwo(last, Pow2(63));
    } else if last <= 1 {
      assert last * Pow2(63) <= Pow2(63);
    }
  }

  lemma {:induction false} CanonicalDigits(bytes: Bytes)
    requires bytes != [] && bytes[|bytes| - 1] < 128
    requires forall k :: 0 <= k < |bytes| - 1 ==> bytes[k] >= 128
    ensures bytes == Encode(GroupSum(bytes)) <==> |bytes| == 1 || bytes[|bytes| - 1] != 0
  {
    if |bytes| == 1 {
      assert bytes == [bytes[0]];
    } else {
      var head, tail := bytes[0], bytes[1..];
      CanonicalDigits(tail);
      var sum, high := GroupSum(bytes), GroupSum(tail);
      assert sum == (head - 128) + 128 * high;
      assert bytes == [head] + tail;
      if high > 0 {
        assert sum % 128 == head - 128 && sum / 128 == high;
        assert Encode(sum) == [head] + Encode(high);
        assert ([head] + Encode(high))[1..] == Encode(high);
        if |tail| == 1 {
          assert tail[0] != 0;
        }
      } else {
        ZeroTail(tail);
        assert |Encode(sum)| == 1;
      }
    }
  }

  lemma {:induction false} ZeroTail(bytes: Bytes)
    requires bytes != [] && GroupSum(bytes) == 0
    ensures bytes[|bytes| - 1] % 128 == 0
  {
    if |bytes| > 1 {
      ZeroTail(bytes[1..]);
    }
  }
}
