/**
 Byte-level encodings: fixed-width little-endian integers, base-128 varints and
 length-prefixed slices. Every `Get...` function parses a value from the front of
 its input and returns the bytes that follow it, or `None` when the input is too
 short or malformed.
 */
module Coding {

  type byte = x: int | 0 <= x < 0x100
  type uint32 = x: int | 0 <= x < 0x1_0000_0000
  type uint64 = x: int | 0 <= x < 0x1_0000_0000_0000_0000

  const TWO32: int := 0x1_0000_0000
  const TWO64: int := 0x1_0000_0000_0000_0000
  const UINT32_MAX: uint32 := 0xFFFF_FFFF
  const UINT64_MAX: uint64 := 0xFFFF_FFFF_FFFF_FFFF

  datatype Option<+T> = None | Some(value: T)

  /** Unsigned 64-bit arithmetic wraps. */
  function Add64(a: uint64, b: uint64): uint64 {
    (a + b) % TWO64
  }

  function Sub64(a: uint64, b: uint64): uint64 {
    (a - b) % TWO64
  }

  /* ---------- sequences ---------- */

  lemma Assoc3<T>(a: seq<T>, b: seq<T>, c: seq<T>)
    ensures a + b + c == a + (b + c)
  {
  }

  lemma Assoc4<T>(a: seq<T>, b: seq<T>, c: seq<T>, d: seq<T>)
    ensures a + b + c + d == a + (b + c + d)
  {
    Assoc3(a + b, c, d);
    Assoc3(a, b, c + d);
    Assoc3(b, c, d);
  }

  /* ---------- fixed width ---------- */

  function Pow256(n: nat): nat {
    if n == 0 then 1 else 256 * Pow256(n - 1)
  }

  function Fixed(v: nat, n: nat): (bs: seq<byte>)
    ensures |bs| == n
    decreases n
  {
    if n == 0 then [] else [v % 256] + Fixed(v / 256, n - 1)
  }

  function FixedValue(bs: seq<byte>): (v: nat)
    ensures v < Pow256(|bs|)
  {
    if bs == [] then 0 else bs[0] + 256 * FixedValue(bs[1..])
  }

  lemma {:induction false} FixedRoundTrip(v: nat, n: nat)
    requires v < Pow256(n)
    ensures FixedValue(Fixed(v, n)) == v
    decreases n
  {
    if n != 0 {
      FixedRoundTrip(v / 256, n - 1);
      assert Fixed(v, n)[1..] == Fixed(v / 256, n - 1);
    }
  }

  function DecodeFixed32(bs: seq<byte>): uint32
    requires |bs| == 4
  {
    assert Pow256(4) == TWO32;
    FixedValue(bs)
  }

  function DecodeFixed64(bs: seq<byte>): uint64
    requires |bs| == 8
  {
    assert Pow256(8) == TWO64 by { assert Pow256(4) == TWO32; }
    FixedValue(bs)
  }

  lemma Fixed32RoundTrip(v: uint32)
    ensures DecodeFixed32(Fixed(v, 4)) == v
  {
    assert Pow256(4) == TWO32;
    FixedRoundTrip(v, 4);
  }

  lemma Fixed64RoundTrip(v: uint64)
    ensures DecodeFixed64(Fixed(v, 8)) == v
  {
    assert Pow256(8) == TWO64 by { assert Pow256(4) == TWO32; }
    FixedRoundTrip(v, 8);
  }

  /* ---------- varints ---------- */

  const MAX_VARINT64_LENGTH: nat := 10

  /** The loop of `EncodeVarint64`: seven bits a byte, low group first, the top
      bit set on every byte but the last. */
  function Varint(v: nat): (bs: seq<byte>)
    ensures |bs| >= 1
  {
    if v < 128 then [v] else [v % 128 + 128] + Varint(v / 128)
  }

  /** `EncodeVarint32` spells the loop out by size class. A byte store of `x | 128`
      keeps the low seven bits of `x` and sets the eighth. */
  function EncodeVarint32(v: uint32): seq<byte> {
    if v < 0x80 then
      [v]
    else if v < 0x4000 then
      [Marked(v), v / 0x80]
    else if v < 0x20_0000 then
      [Marked(v), Marked(v / 0x80), v / 0x4000]
    else if v < 0x1000_0000 then
      [Marked(v), Marked(v / 0x80), Marked(v / 0x4000), v / 0x20_0000]
    else
      [Marked(v), Marked(v / 0x80), Marked(v / 0x4000), Marked(v / 0x20_0000), v / 0x1000_0000]
  }

  function Marked(x: nat): byte {
    x % 128 + 128
  }

  lemma EncodeVarint32IsVarint(v: uint32)
    ensures EncodeVarint32(v) == Varint(v)
  {
    assert v / 0x80 / 0x80 == v / 0x4000;
    assert v / 0x4000 / 0x80 == v / 0x20_0000;
    assert v / 0x20_0000 / 0x80 == v / 0x1000_0000;
    if 0x80 <= v {
      assert Varint(v) == [Marked(v)] + Varint(v / 0x80);
      if 0x4000 <= v {
        assert Varint(v / 0x80) == [Marked(v / 0x80)] + Varint(v / 0x4000);
        if 0x20_0000 <= v {
          assert Varint(v / 0x4000) == [Marked(v / 0x4000)] + Varint(v / 0x20_0000);
          if 0x1000_0000 <= v {
            assert Varint(v / 0x20_0000) == [Marked(v / 0x20_0000)] + Varint(v / 0x1000_0000);
          }
        }
      }
    }
  }

  /** Reads at most `groups` seven-bit groups. */
  function GetGroups(input: seq<byte>, groups: nat): (r: Option<(nat, seq<byte>)>)
    ensures r.Some? ==> |r.value.1| < |input|
    decreases |input|
  {
    if groups == 0 || input == [] then
      None
    else if input[0] < 128 then
      Some((input[0], input[1..]))
    else
      match GetGroups(input[1..], groups - 1)
      case None => None
      case Some((v, rest)) => Some((input[0] - 128 + 128 * v, rest))
  }

  function GetVarint32(input: seq<byte>): (r: Option<(uint32, seq<byte>)>)
    ensures r.Some? ==> |r.value.1| < |input|
  {
    match GetGroups(input, 5)
    case None => None
    case Some((v, rest)) => Some((v % TWO32, rest))
  }

  function GetVarint64(input: seq<byte>): (r: Option<(uint64, seq<byte>)>)
    ensures r.Some? ==> |r.value.1| < |input|
  {
    match GetGroups(input, MAX_VARINT64_LENGTH)
    case None => None
    case Some((v, rest)) => Some((v % TWO64, rest))
  }

  function Pow128(n: nat): nat {
    if n == 0 then 1 else 128 * Pow128(n - 1)
  }

  lemma {:induction false} GroupsRoundTrip(v: nat, rest: seq<byte>, groups: nat)
    requires 1 <= groups && v < Pow128(groups)
    ensures GetGroups(Varint(v) + rest, groups) == Some((v, rest))
    decreases groups
  {
    if v >= 128 {
      assert groups - 1 != 0;
      GroupsRoundTrip(v / 128, rest, groups - 1);
      assert (Varint(v) + rest)[1..] == Varint(v / 128) + rest;
    } else {
      assert (Varint(v) + rest)[1..] == rest;
    }
  }

  lemma Varint32RoundTrip(v: uint32, rest: seq<byte>)
    ensures GetVarint32(EncodeVarint32(v) + rest) == Some((v, rest))
  {
    assert Pow128(5) == 0x8_0000_0000 by { assert Pow128(2) == 0x4000; }
    EncodeVarint32IsVarint(v);
    GroupsRoundTrip(v, rest, 5);
  }

  lemma Pow128Ten()
    ensures Pow128(10) == 0x40_0000_0000_0000_0000
  {
    assert Pow128(2) == 0x4000;
    assert Pow128(4) == 0x1000_0000;
    assert Pow128(6) == 0x400_0000_0000;
    assert Pow128(8) == 0x100_0000_0000_0000;
  }

  lemma Varint64Groups(v: uint64, rest: seq<byte>, groups: nat)
    requires groups == MAX_VARINT64_LENGTH
    ensures GetGroups(Varint(v) + rest, groups) == Some((v, rest))
  {
    Pow128Ten();
    GroupsRoundTrip(v, rest, groups);
  }

  lemma Varint64RoundTrip(v: uint64, rest: seq<byte>)
    ensures GetVarint64(Varint(v) + rest) == Some((v, rest))
  {
    Varint64Groups(v, rest, MAX_VARINT64_LENGTH);
  }

  /* ---------- length-prefixed slices ---------- */

  /** The length is narrowed to 32 bits; the bytes themselves are all written. */
  function LengthPrefixed(s: seq<byte>): seq<byte> {
    EncodeVarint32(|s| % TWO32) + s
  }

  function GetLengthPrefixed(input: seq<byte>): (r: Option<(seq<byte>, seq<byte>)>)
    ensures r.Some? ==> |r.value.1| < |input|
  {
    match GetVarint32(input)
    case None => None
    case Some((len, rest)) => if len <= |rest| then Some((rest[..len], rest[len..])) else None
  }

  /** Reading back a slice yields its first `|s| mod 2^32` bytes; the others stay in
      the input. */
  lemma LengthPrefixedReads(s: seq<byte>, rest: seq<byte>)
    ensures var n := |s| % TWO32;
            GetLengthPrefixed(LengthPrefixed(s) + rest) == Some((s[..n], s[n..] + rest))
  {
    var n := |s| % TWO32;
    assert LengthPrefixed(s) + rest == EncodeVarint32(n) + (s + rest);
    Varint32RoundTrip(n, s + rest);
    assert (s + rest)[..n] == s[..n];
    assert (s + rest)[n..] == s[n..] + rest;
  }

  lemma PartIsWhole(s: seq<byte>, rest: seq<byte>, n: nat)
    requires n <= |s|
    ensures (s[..n], s[n..] + rest) == (s, rest) <==> n == |s|
  {
    if n == |s| {
      assert s[..n] == s && s[n..] + rest == rest;
    }
  }

  /** A slice survives the round trip exactly when its length fits 32 bits. */
  lemma LengthPrefixedRoundTrip(s: seq<byte>, rest: seq<byte>)
    ensures GetLengthPrefixed(LengthPrefixed(s) + rest) == Some((s, rest)) <==> |s| < TWO32
  {
    LengthPrefixedReads(s, rest);
    PartIsWhole(s, rest, |s| % TWO32);
  }

  /** A slice of 2^32 bytes reads back as an empty one. */
  lemma LongSliceIsLost(s: seq<byte>, rest: seq<byte>)
    requires |s| == TWO32
    ensures GetLengthPrefixed(LengthPrefixed(s) + rest) == Some(([], s + rest))
  {
    LengthPrefixedReads(s, rest);
    assert s[..0] == [] && s[0..] == s;
  }
}
