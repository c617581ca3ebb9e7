/** Bytes, the integer widths of the format, and their little-endian forms. */
module Bytes {
  type byte = b: int | 0 <= b < 0x100
  type u16 = n: int | 0 <= n < 0x1_0000
  type u32 = n: int | 0 <= n < 0x1_0000_0000
  type u64 = n: int | 0 <= n < 0x1_0000_0000_0000_0000
  type i64 = n: int | -0x8000_0000_0000_0000 <= n < 0x8000_0000_0000_0000
  type Hash = h: seq<byte> | |h| == 16 witness seq(16, _ => 0)
  type Name = n: seq<byte> | |n| == 8 witness seq(8, _ => 0)

  /** One past the largest file offset a signed 64-bit position can hold. */
  const I64_LIMIT := 0x8000_0000_0000_0000
  const U32_LIMIT := 0x1_0000_0000
  const U64_LIMIT := 0x1_0000_0000_0000_0000

  function Pow256(width: nat): (n: nat)
    ensures n > 0
  {
    if width == 0 then 1 else 256 * Pow256(width - 1)
  }

  function Zeros(count: nat): (s: seq<byte>)
    ensures |s| == count && forall k :: 0 <= k < count ==> s[k] == 0
  {
    seq(count, _ => 0)
  }

  /** The low `width` bytes of `n`, least significant first. */
  function ToLE(n: nat, width: nat): (s: seq<byte>)
    ensures |s| == width
  {
    if width == 0 then [] else [n % 256] + ToLE(n / 256, width - 1)
  }

  function FromLE(s: seq<byte>): (n: nat)
    ensures n < Pow256(|s|)
  {
    if s == [] then 0 else s[0] + 256 * FromLE(s[1..])
  }

  lemma {:induction false} FromToLE(n: nat, width: nat)
    requires n < Pow256(width)
    ensures FromLE(ToLE(n, width)) == n
  {
    if width == 0 {
    } else {
      FromToLE(n / 256, width - 1);
      assert ToLE(n, width)[1..] == ToLE(n / 256, width - 1);
    }
  }

  lemma {:induction false} ToFromLE(s: seq<byte>)
    ensures ToLE(FromLE(s), |s|) == s
  {
    if s == [] {
    } else {
      ToFromLE(s[1..]);
      assert s == [s[0]] + s[1..];
    }
  }

  lemma {:induction false} Widths()
    ensures Pow256(2) == 0x1_0000 && Pow256(4) == U32_LIMIT && Pow256(8) == U64_LIMIT
  {
    assert Pow256(3) == 0x100_0000;
    assert Pow256(6) == 0x1_0000_0000_0000;
  }

  /** Two's complement of a signed 64-bit value. */
  function I64Bytes(x: i64): (s: seq<byte>)
    ensures |s| == 8
  {
    ToLE(if x < 0 then x + U64_LIMIT else x, 8)
  }

  function I64From(s: seq<byte>): i64
    requires |s| == 8
  {
    Widths();
    var n := FromLE(s);
    if n < I64_LIMIT then n else n - U64_LIMIT
  }

  lemma {:induction false} I64RoundTrip(x: i64)
    ensures I64From(I64Bytes(x)) == x
  {
    Widths();
    FromToLE(if x < 0 then x + U64_LIMIT else x, 8);
  }

  lemma {:induction false} SliceOfSlice<T>(s: seq<T>, start: nat, end: nat, a: nat, b: nat)
    requires start <= end <= |s| && a <= b <= end - start
    ensures s[start..end][a..b] == s[start + a..start + b]
  {
    var whole, part := s[start..end], s[start + a..start + b];
    assert forall k :: 0 <= k < b - a ==> whole[a..b][k] == whole[a + k] == s[start + a + k] == part[k];
  }

  /** Whether `image` holds `piece` at offset `at`. */
  ghost predicate HoldsAt(image: seq<byte>, at: nat, piece: seq<byte>) {
    at + |piece| <= |image| && image[at..at + |piece|] == piece
  }

  lemma {:induction false} HoldsAtPieces(image: seq<byte>, at: nat, first: seq<byte>, rest: seq<byte>)
    requires HoldsAt(image, at, first + rest)
    ensures HoldsAt(image, at, first)
    ensures HoldsAt(image, at + |first|, rest)
  {
    var both := first + rest;
    assert both[..|first|] == first && both[|first|..] == rest;
    SliceOfSlice(image, at, at + |both|, 0, |first|);
    SliceOfSlice(image, at, at + |both|, |first|, |both|);
  }
}
