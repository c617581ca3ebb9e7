/** The format in numbers: where each field of each structure lies, and what the bytes of an index are. */
module Format {
  import opened Wrappers
  import opened Bytes
  import opened Index
  import Block

  // ----- integers -----

  function Pair(a: int, b: int): int {
    a + 0x100 * b
  }

  function Quad(a: int, b: int, c: int, d: int): int {
    a + 0x100 * b + 0x1_0000 * c + 0x100_0000 * d
  }

  lemma {:induction false} TwoBytes(s: seq<byte>)
    requires |s| == 2
    ensures FromLE(s) == Pair(s[0], s[1])
  {
    assert FromLE(s[1..]) == s[1] + 256 * FromLE(s[1..][1..]);
  }

  lemma {:induction false} FourBytes(s: seq<byte>)
    requires |s| == 4
    ensures FromLE(s) == Quad(s[0], s[1], s[2], s[3])
  {
    var a, b, c := s[1..], s[2..], s[3..];
    assert a[1..] == b && b[1..] == c && c[1..] == [];
    assert FromLE(c) == c[0] && FromLE(b) == b[0] + 256 * FromLE(c) && FromLE(a) == a[0] + 256 * FromLE(b);
  }

  lemma {:induction false} EightBytes(s: seq<byte>)
    requires |s| == 8
    ensures FromLE(s) == FromLE(s[..4]) + 0x1_0000_0000 * FromLE(s[4..])
  {
    FourBytes(s[..4]);
    var a, b, c, d := s[1..], s[2..], s[3..], s[4..];
    assert a[1..] == b && b[1..] == c && c[1..] == d;
    assert FromLE(c) == c[0] + 256 * FromLE(d) && FromLE(b) == b[0] + 256 * FromLE(c);
    assert FromLE(a) == a[0] + 256 * FromLE(b);
  }

  /** The signed value of eight bytes: the top bit counts as minus two to the 63rd. */
  function Signed(s: seq<byte>): int
    requires |s| == 8
  {
    FromLE(s) - if s[7] >= 0x80 then 0x1_0000_0000_0000_0000 else 0
  }

  lemma {:induction false} SignedIs(s: seq<byte>)
    requires |s| == 8
    ensures I64From(s) == Signed(s)
  {
    EightBytes(s);
    FourBytes(s[..4]);
    FourBytes(s[4..]);
    Widths();
  }

  // ----- structures -----

  /** Thirty bytes: position, hash, length, file number. */
  lemma {:induction false} ElementLayout(raw: seq<byte>, e: Element)
    requires |raw| == 30
    ensures ParseElement(raw) == Ok(e)
       <==> && e.position == Signed(raw[0..8]) && e.hash == raw[8..24]
            && e.length == Quad(raw[24], raw[25], raw[26], raw[27])
            && e.fileNumber == Pair(raw[28], raw[29])
    ensures raw == ElementBytes(e) <==> ParseElement(raw) == Ok(e)
  {
    SignedIs(raw[0..8]);
    FourBytes(raw[24..28]);
    TwoBytes(raw[28..30]);
    ElementRoundTrip(e);
    ElementInverse(raw);
  }

  lemma {:induction false} ElementInverse(raw: seq<byte>)
    requires |raw| == 30
    ensures ParseElement(raw).Ok? && ElementBytes(ParseElement(raw).value) == raw
  {
    Widths();
    ToFromLE(raw[0..8]);
    ToFromLE(raw[24..28]);
    ToFromLE(raw[28..30]);
    assert raw == raw[0..8] + raw[8..24] + raw[24..28] + raw[28..30];
  }

  /** Four more for a delta: the position it replaces. */
  lemma {:induction false} DeltaLayout(raw: seq<byte>, d: Delta)
    requires |raw| == 34
    ensures ParseDelta(raw) == Ok(d)
       <==> && ParseElement(raw[..30]) == Ok(d.element)
            && d.blockIndex == Quad(raw[30], raw[31], raw[32], raw[33])
    ensures raw == DeltaBytes(d) <==> ParseDelta(raw) == Ok(d)
  {
    FourBytes(raw[30..34]);
    assert raw[..30][0..8] == raw[0..8] && raw[..30][8..24] == raw[8..24];
    assert raw[..30][24..28] == raw[24..28] && raw[..30][28..30] == raw[28..30];
    DeltaRoundTrip(d);
    ElementInverse(raw[..30]);
    ToFromLE(raw[30..34]);
    Widths();
    assert raw == raw[..30] + raw[30..34];
  }

  /** Thirty-two: name, length, hash, a byte whose low three bits are the flags, and three that are ignored. */
  lemma {:induction false} HeaderLayout(raw: seq<byte>)
    requires |raw| == 32
    ensures var h := Block.Header.Parse(raw);
            && h.name == raw[0..8] && h.hash == raw[12..28]
            && h.blockLength == Quad(raw[8], raw[9], raw[10], raw[11])
            && exists t: nat :: FlagsAre(raw[28], h.flags, t)
  {
    FourBytes(raw[8..12]);
    assert FlagsAre(raw[28], Block.Header.Parse(raw).flags, raw[28] / 8);
  }

  /** The last-block bit counts one, compression two, encryption four, and the rest multiples of eight. */
  ghost predicate FlagsAre(b: byte, flags: Block.Flags, t: nat) {
    b == 8 * t + (if flags.encryption then 4 else 0) + (if flags.compression then 2 else 0)
         + (if flags.lastBlock then 1 else 0)
  }

  /** A written header has no other bit set and three zeros at the end. */
  lemma {:induction false} WrittenHeader(h: Block.Header)
    ensures var s := h.ToBytes();
            |s| == 32 && FlagsAre(s[28], h.flags, 0) && s[29] == s[30] == s[31] == 0
  {
  }

  // ----- the index payload -----

  /** Four bytes that stand for a count: a signed number, and none at all when negative. */
  ghost predicate CountIs(raw: seq<byte>, count: nat)
    requires |raw| == 4
  {
    count == if raw[3] >= 0x80 then 0 else FromLE(raw)
  }

  lemma {:induction false} CountLayout(raw: seq<byte>, at: nat, count: nat)
    ensures ParseCount(raw, at) == Ok(count) <==> at + 4 <= |raw| && CountIs(raw[at..at + 4], count)
  {
    if at + 4 <= |raw| {
      FourBytes(raw[at..at + 4]);
    }
  }

  /** An encoding of fixed width, and its inverse. */
  ghost predicate Inverse<T(!new)>(stride: nat, bytes: T -> seq<byte>, parse: seq<byte> -> Result<T>) {
    && (forall x :: |bytes(x)| == stride)
    && (forall x, r :: |r| == stride ==> (parse(r) == Ok(x) <==> bytes(x) == r))
  }

  lemma {:induction false} ItemsIff<T(!new)>(raw: seq<byte>, items: seq<T>, stride: nat, bytes: T -> seq<byte>,
        parse: seq<byte> -> Result<T>)
    requires |raw| == |items| * stride && Inverse(stride, bytes, parse)
    ensures ParseItems(raw, |items|, stride, parse) == Ok(items) <==> raw == ArrayBytes(items, bytes)
  {
    if items != [] {
      var init, last := items[..|items| - 1], items[|items| - 1];
      StrideStep(|init|, |items|, stride);
      var front, back := raw[..|raw| - stride], raw[|raw| - stride..];
      ItemsIff(front, init, stride, bytes, parse);
      LastItem(raw, front, back, items, init, last, stride, bytes, parse);
    }
  }

  lemma {:induction false} LastItem<T(!new)>(raw: seq<byte>, front: seq<byte>, back: seq<byte>, items: seq<T>,
        init: seq<T>, last: T, stride: nat, bytes: T -> seq<byte>, parse: seq<byte> -> Result<T>)
    requires items == init + [last] && |raw| == |items| * stride && |front| == |init| * stride && |back| == stride
    requires stride <= |raw| && front == raw[..|raw| - stride] && back == raw[|raw| - stride..]
    requires Inverse(stride, bytes, parse)
    requires ParseItems(front, |init|, stride, parse) == Ok(init) <==> front == ArrayBytes(init, bytes)
    ensures ParseItems(raw, |items|, stride, parse) == Ok(items) <==> raw == ArrayBytes(items, bytes)
  {
    assert items[..|items| - 1] == init && raw == front + back;
    var all, one := ParseItems(front, |init|, stride, parse), parse(back);
    assert one == Ok(last) <==> bytes(last) == back;
    ArraySize(init, stride, bytes, parse);
    hide Inverse;
    assert ArrayBytes(items, bytes) == ArrayBytes(init, bytes) + bytes(last);
    if all.Ok? && one.Ok? {
      ParsedItemCount(front, |init|, stride, parse);
      SamePieces(all.value, [one.value], init, [last]);
    }
    SamePieces(front, back, ArrayBytes(init, bytes), bytes(last));
  }

  lemma {:induction false} SamePieces<T>(a: seq<T>, b: seq<T>, c: seq<T>, d: seq<T>)
    requires |a| == |c|
    ensures a + b == c + d <==> a == c && b == d
  {
    if a + b == c + d {
      assert (a + b)[..|a|] == a && (a + b)[|a|..] == b && (c + d)[..|c|] == c && (c + d)[|c|..] == d;
    }
  }

  lemma {:induction false} ElementsInvert()
    ensures Inverse(30, ElementBytes, ParseElement)
  {
    hide ElementBytes, ParseElement;
    forall e: Element, r: seq<byte> | |r| == 30 ensures ParseElement(r) == Ok(e) <==> ElementBytes(e) == r {
      ElementLayout(r, e);
    }
  }

  lemma {:induction false} DeltasInvert()
    ensures Inverse(34, DeltaBytes, ParseDelta)
  {
    hide DeltaBytes, ParseDelta, ParseElement;
    forall d: Delta, r: seq<byte> | |r| == 34 ensures ParseDelta(r) == Ok(d) <==> DeltaBytes(d) == r {
      DeltaLayout(r, d);
    }
  }

  /**
   * The payload of an index: a count, that many elements of 30 bytes, a count, and that many elements of 30 bytes or
   * delta elements of 34, and nothing after them.
   */
  ghost predicate IsPayload(raw: seq<byte>, index: PartitionIndex, deltaIndex: bool) {
    var mid := 4 + |index.reserved| * 30;
    && mid + 4 <= |raw|
    && CountIs(raw[0..4], |index.reserved|) && CountIs(raw[mid..mid + 4], index.blocks.Length())
    && raw[4..mid] == ArrayBytes(index.reserved, ElementBytes)
    && match index.blocks
       case Full(entries) => !deltaIndex && raw[mid + 4..] == ArrayBytes(entries, ElementBytes)
       case Deltas(deltas) => deltaIndex && raw[mid + 4..] == ArrayBytes(deltas, DeltaBytes)
  }

  lemma {:induction false} ArrayIff<T(!new)>(raw: seq<byte>, at: nat, items: seq<T>, stride: nat,
        bytes: T -> seq<byte>, parse: seq<byte> -> Result<T>)
    requires Inverse(stride, bytes, parse)
    ensures ParseArrayAt(raw, at, |items|, stride, parse) == Ok(items)
       <==> at + |items| * stride <= |raw| && raw[at..at + |items| * stride] == ArrayBytes(items, bytes)
    ensures |ArrayBytes(items, bytes)| == |items| * stride
  {
    ArraySize(items, stride, bytes, parse);
    if at + |items| * stride <= |raw| {
      ItemsIff(raw[at..at + |items| * stride], items, stride, bytes, parse);
    }
  }

  lemma {:induction false} ArraySize<T(!new)>(items: seq<T>, stride: nat, bytes: T -> seq<byte>,
        parse: seq<byte> -> Result<T>)
    requires Inverse(stride, bytes, parse)
    ensures |ArrayBytes(items, bytes)| == |items| * stride
  {
    if items != [] {
      StrideStep(|items| - 1, |items|, stride);
      ArraySize(items[..|items| - 1], stride, bytes, parse);
    }
  }

  /** The reserved part, up to the second count. */
  lemma {:induction false} ReservedIff(raw: seq<byte>, reserved: seq<Element>)
    ensures ParseCount(raw, 0) == Ok(|reserved|) && ParseArrayAt(raw, 4, |reserved|, 30, ParseElement) == Ok(reserved)
       <==> && 4 + |reserved| * 30 <= |raw| && CountIs(raw[0..4], |reserved|)
            && raw[4..4 + |reserved| * 30] == ArrayBytes(reserved, ElementBytes)
  {
    hide ElementBytes, ParseElement, ParseArrayAt, ArrayBytes, ParseCount, CountIs, Inverse;
    CountLayout(raw, 0, |reserved|);
    ElementsInvert();
    ArrayIff(raw, 4, reserved, 30, ElementBytes, ParseElement);
  }

  lemma {:induction false} BlocksIff(raw: seq<byte>, at: nat, blocks: Blocks)
    ensures match blocks
            case Full(entries) =>
              ParseArrayAt(raw, at, |entries|, 30, ParseElement) == Ok(entries) && at + |entries| * 30 == |raw|
              <==> at <= |raw| && raw[at..] == ArrayBytes(entries, ElementBytes)
            case Deltas(deltas) =>
              ParseArrayAt(raw, at, |deltas|, 34, ParseDelta) == Ok(deltas) && at + |deltas| * 34 == |raw|
              <==> at <= |raw| && raw[at..] == ArrayBytes(deltas, DeltaBytes)
  {
    hide ElementBytes, ParseElement, DeltaBytes, ParseDelta, ParseArrayAt, ArrayBytes, Inverse;
    ElementsInvert();
    DeltasInvert();
    match blocks
    case Full(entries) => ArrayIff(raw, at, entries, 30, ElementBytes, ParseElement);
    case Deltas(deltas) => ArrayIff(raw, at, deltas, 34, DeltaBytes, ParseDelta);
  }

  /** The parser of the index accepts exactly such payloads, and finds that index. */
  lemma {:induction false} IndexIff(raw: seq<byte>, index: PartitionIndex, deltaIndex: bool)
    ensures ParseIndex(raw, deltaIndex) == Ok(index) <==> IsPayload(raw, index, deltaIndex)
  {
    hide ElementBytes, ParseElement, DeltaBytes, ParseDelta, ParseArrayAt, ArrayBytes, ParseCount, CountIs;
    var mid := 4 + |index.reserved| * 30;
    ReservedIff(raw, index.reserved);
    CountLayout(raw, mid, index.blocks.Length());
    BlocksIff(raw, mid + 4, index.blocks);
    if ParseIndex(raw, deltaIndex) == Ok(index) {
      ParsedCounts(raw, deltaIndex);
    }
  }

  // ----- holes -----

  lemma {:induction false} ZeroBytes(width: nat)
    ensures forall k :: 0 <= k < width ==> ToLE(0, width)[k] == 0
  {
    if width > 0 {
      ZeroBytes(width - 1);
    }
  }

  /** A blank element is thirty zero bytes. */
  lemma {:induction false} BlankBytes(e: Element)
    requires IsBlank(e)
    ensures forall k :: 0 <= k < 30 ==> ElementBytes(e)[k] == 0
  {
    ZeroBytes(8);
    ZeroBytes(4);
    ZeroBytes(2);
  }

  lemma {:induction false} ItemAt<T(!new)>(items: seq<T>, j: nat, stride: nat, bytes: T -> seq<byte>,
        parse: seq<byte> -> Result<T>)
    requires Inverse(stride, bytes, parse) && j < |items|
    ensures HoldsAt(ArrayBytes(items, bytes), j * stride, bytes(items[j]))
  {
    var n := |items| - 1;
    var init := ArrayBytes(items[..n], bytes);
    ArraySize(items[..n], stride, bytes, parse);
    assert ArrayBytes(items, bytes) == init + bytes(items[n]);
    hide ArrayBytes, Inverse;
    if j < n {
      ItemAt(items[..n], j, stride, bytes, parse);
      HeldInPrefix(init, bytes(items[n]), j * stride, bytes(items[j]));
    }
  }

  lemma {:induction false} HeldInPrefix(init: seq<byte>, last: seq<byte>, at: nat, piece: seq<byte>)
    requires HoldsAt(init, at, piece)
    ensures HoldsAt(init + last, at, piece)
  {
    assert (init + last)[at..at + |piece|] == init[at..at + |piece|];
  }

  /** Thirty zero bytes at `at`. */
  ghost predicate ZerosAt(raw: seq<byte>, at: nat) {
    at + 30 <= |raw| && forall k :: at <= k < at + 30 ==> raw[k] == 0
  }

  lemma {:induction false} BlankAt(raw: seq<byte>, start: nat, end: nat, items: seq<Element>, j: nat)
    requires start <= end <= |raw| && raw[start..end] == ArrayBytes(items, ElementBytes)
    requires j < |items| && IsBlank(items[j])
    ensures ZerosAt(raw, start + j * 30)
  {
    hide ElementBytes, ParseElement, ArrayBytes, Inverse;
    ElementsInvert();
    ItemAt(items, j, 30, ElementBytes, ParseElement);
    BlankBytes(items[j]);
    SliceOfSlice(raw, start, end, j * 30, j * 30 + 30);
    ZeroSlice(raw, start + j * 30, ElementBytes(items[j]));
  }

  lemma {:induction false} ZeroSlice(raw: seq<byte>, at: nat, zeros: seq<byte>)
    requires |zeros| == 30 && HoldsAt(raw, at, zeros) && forall k :: 0 <= k < 30 ==> zeros[k] == 0
    ensures ZerosAt(raw, at)
  {
    forall k | at <= k < at + 30 ensures raw[k] == 0 {
      assert raw[at..at + 30][k - at] == zeros[k - at];
    }
  }

  lemma {:induction false} BlankDeltaAt(raw: seq<byte>, start: nat, items: seq<Delta>, j: nat)
    requires start <= |raw| && raw[start..] == ArrayBytes(items, DeltaBytes)
    requires j < |items| && IsBlank(items[j].element)
    ensures ZerosAt(raw, start + j * 34)
  {
    hide ElementBytes, ParseElement, DeltaBytes, ParseDelta, ArrayBytes, Inverse;
    DeltasInvert();
    ItemAt(items, j, 34, DeltaBytes, ParseDelta);
    BlankBytes(items[j].element);
    DeltaStarts(items[j]);
    SliceOfSlice(raw, start, |raw|, j * 34, j * 34 + 34);
    SliceOfSlice(raw, start + j * 34, start + j * 34 + 34, 0, 30);
    assert raw[start + j * 34..start + j * 34 + 34] == DeltaBytes(items[j]);
    ZeroSlice(raw, start + j * 34, ElementBytes(items[j].element));
  }

  lemma {:induction false} DeltaStarts(d: Delta)
    ensures DeltaBytes(d)[..30] == ElementBytes(d.element)
  {
  }

  /** Where the index has a blank entry, its payload has thirty zero bytes, at the place of that entry. */
  lemma {:induction false} BlanksAreZeros(raw: seq<byte>, index: PartitionIndex, deltaIndex: bool)
    requires IsPayload(raw, index, deltaIndex)
    ensures forall j :: 0 <= j < |index.reserved| && IsBlank(index.reserved[j]) ==> ZerosAt(raw, 4 + j * 30)
    ensures var start := 8 + |index.reserved| * 30;
            match index.blocks
            case Full(es) => forall j :: 0 <= j < |es| && IsBlank(es[j]) ==> ZerosAt(raw, start + j * 30)
            case Deltas(ds) => forall j :: 0 <= j < |ds| && IsBlank(ds[j].element) ==> ZerosAt(raw, start + j * 34)
  {
    hide IsBlank, ZerosAt, ArrayBytes, CountIs;
    var mid := 4 + |index.reserved| * 30;
    forall j | 0 <= j < |index.reserved| && IsBlank(index.reserved[j]) ensures ZerosAt(raw, 4 + j * 30) {
      BlankAt(raw, 4, mid, index.reserved, j);
    }
    match index.blocks
    case Full(es) =>
      forall j | 0 <= j < |es| && IsBlank(es[j]) ensures ZerosAt(raw, mid + 4 + j * 30) {
        BlankAt(raw, mid + 4, |raw|, es, j);
      }
    case Deltas(ds) =>
      forall j | 0 <= j < |ds| && IsBlank(ds[j].element) ensures ZerosAt(raw, mid + 4 + j * 34) {
        BlankDeltaAt(raw, mid + 4, ds, j);
      }
  }
}
