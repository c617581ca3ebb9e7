/** The `$INDEX` payload: 30-byte elements, 34-byte delta elements, and the two arrays. */
module Index {
  import opened Wrappers
  import opened Bytes

  const ELEMENT_LEN: nat := 30
  const DELTA_LEN: nat := 34
  const I32_MAX: nat := 0x7FFF_FFFF

  /** One logical block: where its stored bytes live, how long they are, and the plaintext hash. */
  datatype Element = Element(position: i64, hash: Hash, length: u32, fileNumber: u16) {
    /** True when the block was never captured. */
    predicate IsHole(): (hole: bool)
      ensures hole <==> length == 0
    {
      length == 0
    }
  }

  /** Every field is zero. */
  predicate IsBlank(e: Element) {
    e.position == 0 && e.length == 0 && e.fileNumber == 0 && forall k :: 0 <= k < 16 ==> e.hash[k] == 0
  }

  /** The all-zero element, which is how a hole is written. */
  const HOLE: Element := Element(0, Zeros(16), 0, 0)

  /** A changed block and the logical position it replaces. */
  datatype Delta = Delta(element: Element, blockIndex: u32)

  datatype Blocks = Full(entries: seq<Element>) | Deltas(deltas: seq<Delta>) {
    function Length(): nat {
      if Full? then |entries| else |deltas|
    }
  }

  datatype PartitionIndex = PartitionIndex(reserved: seq<Element>, blocks: Blocks)

  // ----- serialized forms -----

  function ElementBytes(e: Element): (s: seq<byte>)
    ensures |s| == ELEMENT_LEN
  {
    I64Bytes(e.position) + e.hash + ToLE(e.length, 4) + ToLE(e.fileNumber, 2)
  }

  function DeltaBytes(d: Delta): (s: seq<byte>)
    ensures |s| == DELTA_LEN
  {
    ElementBytes(d.element) + ToLE(d.blockIndex, 4)
  }

  function ArrayBytes<T>(items: seq<T>, bytes: T -> seq<byte>): seq<byte> {
    if items == [] then []
    else ArrayBytes(items[..|items| - 1], bytes) + bytes(items[|items| - 1])
  }

  /** A count is a signed 32-bit integer and saturates. */
  function CountBytes(count: nat): (s: seq<byte>)
    ensures |s| == 4 && FromLE(s) == if count < 0x8000_0000 then count else 0x7FFF_FFFF
  {
    Widths();
    FromToLE(if count <= I32_MAX then count else I32_MAX, 4);
    ToLE(if count <= I32_MAX then count else I32_MAX, 4)
  }

  function BlocksBytes(blocks: Blocks): seq<byte> {
    match blocks
    case Full(entries) => ArrayBytes(entries, ElementBytes)
    case Deltas(deltas) => ArrayBytes(deltas, DeltaBytes)
  }

  function IndexBytes(index: PartitionIndex): seq<byte> {
    CountBytes(|index.reserved|) + ArrayBytes(index.reserved, ElementBytes)
    + CountBytes(index.blocks.Length()) + BlocksBytes(index.blocks)
  }

  // ----- parsing -----

  function ParseElement(raw: seq<byte>): Result<Element> {
    if |raw| < ELEMENT_LEN then Err("index element is too short")
    else
      Widths();
      Ok(Element(I64From(raw[0..8]), raw[8..24], FromLE(raw[24..28]), FromLE(raw[28..30])))
  }

  function ParseDelta(raw: seq<byte>): Result<Delta> {
    if |raw| < DELTA_LEN then Err("delta index element is too short")
    else
      Widths();
      var element :- ParseElement(raw);
      Ok(Delta(element, FromLE(raw[30..34])))
  }

  /** A count at or below zero means "no array". */
  function ParseCount(raw: seq<byte>, at: nat): (r: Result<nat>)
    ensures r.Ok? ==> at + 4 <= |raw| && r.value <= I32_MAX
  {
    if |raw| < at + 4 then Err("$INDEX payload ends before a count")
    else
      Widths();
      var n := FromLE(raw[at..at + 4]);
      Ok(if n <= I32_MAX then n else 0)
  }

  /** `count` items of `stride` bytes, read one after the other from the front of `raw`. */
  function ParseItems<T>(raw: seq<byte>, count: nat, stride: nat, parse: seq<byte> -> Result<T>): Result<seq<T>>
    requires |raw| == count * stride
  {
    if count == 0 then Ok([])
    else
      assert (count - 1) * stride == count * stride - stride;
      var init :- ParseItems(raw[..|raw| - stride], count - 1, stride, parse);
      var last :- parse(raw[|raw| - stride..]);
      Ok(init + [last])
  }

  /** An array of `count` items at `at`; its length is checked before any item is read. */
  function ParseArrayAt<T>(raw: seq<byte>, at: nat, count: nat, stride: nat,
        parse: seq<byte> -> Result<T>): Result<seq<T>>
  {
    if |raw| < at + count * stride then Err("$INDEX payload is shorter than its array")
    else ParseItems(raw[at..at + count * stride], count, stride, parse)
  }

  lemma {:induction false} ParsedItemCount<T>(raw: seq<byte>, count: nat, stride: nat, parse: seq<byte> -> Result<T>)
    requires |raw| == count * stride
    ensures ParseItems(raw, count, stride, parse).Ok? ==> |ParseItems(raw, count, stride, parse).value| == count
  {
    if count > 0 {
      StrideStep(count - 1, count, stride);
      ParsedItemCount(raw[..|raw| - stride], count - 1, stride, parse);
    }
  }

  lemma {:induction false} ParsedArrayCount<T>(raw: seq<byte>, at: nat, count: nat, stride: nat,
        parse: seq<byte> -> Result<T>)
    ensures ParseArrayAt(raw, at, count, stride, parse).Ok?
           ==> |ParseArrayAt(raw, at, count, stride, parse).value| == count
  {
    if at + count * stride <= |raw| {
      ParsedItemCount(raw[at..at + count * stride], count, stride, parse);
    }
  }

  /** A parsed index is as long as its two count fields say, and of the form it was parsed in. */
  lemma {:induction false} ParsedCounts(raw: seq<byte>, deltaIndex: bool)
    requires ParseIndex(raw, deltaIndex).Ok?
    ensures var index := ParseIndex(raw, deltaIndex).value;
            && index.blocks.Deltas? == deltaIndex
            && ParseCount(raw, 0) == Ok(|index.reserved|)
            && ParseCount(raw, 4 + |index.reserved| * ELEMENT_LEN) == Ok(index.blocks.Length())
            && |index.reserved| <= I32_MAX && index.blocks.Length() <= I32_MAX
  {
    hide ParseArrayAt, ParseCount;
    var reservedCount := ParseCount(raw, 0).value;
    var at := 4 + reservedCount * ELEMENT_LEN;
    var blockCount := ParseCount(raw, at).value;
    ParsedArrayCount(raw, 4, reservedCount, ELEMENT_LEN, ParseElement);
    ParsedArrayCount(raw, at + 4, blockCount, ELEMENT_LEN, ParseElement);
    ParsedArrayCount(raw, at + 4, blockCount, DELTA_LEN, ParseDelta);
  }

  /** The whole payload, which must be consumed exactly. */
  function ParseIndex(raw: seq<byte>, deltaIndex: bool): Result<PartitionIndex> {
    var reservedCount :- ParseCount(raw, 0);
    var reserved :- ParseArrayAt(raw, 4, reservedCount, ELEMENT_LEN, ParseElement);
    var at := 4 + reservedCount * ELEMENT_LEN;
    var blockCount :- ParseCount(raw, at);
    if deltaIndex then
      var deltas :- ParseArrayAt(raw, at + 4, blockCount, DELTA_LEN, ParseDelta);
      if at + 4 + blockCount * DELTA_LEN == |raw| then Ok(PartitionIndex(reserved, Deltas(deltas)))
      else Err("$INDEX payload has trailing bytes")
    else
      var entries :- ParseArrayAt(raw, at + 4, blockCount, ELEMENT_LEN, ParseElement);
      if at + 4 + blockCount * ELEMENT_LEN == |raw| then Ok(PartitionIndex(reserved, Full(entries)))
      else Err("$INDEX payload has trailing bytes")
  }

  // ----- the loops of the source, against those functions -----

  method WriteArray<T>(prefix: seq<byte>, items: seq<T>, bytes: T -> seq<byte>) returns (out: seq<byte>)
    ensures out == prefix + ArrayBytes(items, bytes)
  {
    out := prefix;
    for i := 0 to |items|
      invariant out == prefix + ArrayBytes(items[..i], bytes)
    {
      assert items[..i + 1][..i] == items[..i];
      out := out + bytes(items[i]);
    }
    assert items[..|items|] == items;
  }

  method ToBytes(index: PartitionIndex) returns (out: seq<byte>)
    ensures out == IndexBytes(index)
  {
    out := WriteArray(CountBytes(|index.reserved|), index.reserved, ElementBytes);
    out := out + CountBytes(index.blocks.Length());
    match index.blocks
    case Full(entries) => out := WriteArray(out, entries, ElementBytes);
    case Deltas(deltas) => out := WriteArray(out, deltas, DeltaBytes);
  }

  method ParseArray<T>(raw: seq<byte>, at: nat, count: nat, stride: nat, parse: seq<byte> -> Result<T>)
    returns (r: Result<seq<T>>, end: nat)
    ensures r == ParseArrayAt(raw, at, count, stride, parse)
    ensures r.Ok? ==> end == at + count * stride
  {
    end := at;
    var needed := count * stride;
    if |raw| < at + needed {
      return Err("$INDEX payload is shorter than its array"), end;
    }
    var out: seq<T> := [];
    ghost var body := raw[at..at + needed];
    for i := 0 to count
      invariant i * stride <= count * stride
      invariant ParseItems(body[..i * stride], i, stride, parse) == Ok(out)
    {
      StrideStep(i, count, stride);
      var start := at + i * stride;
      var item := parse(raw[start..start + stride]);
      ghost var grown := body[..(i + 1) * stride];
      assert |grown| - stride == i * stride;
      assert grown[..i * stride] == body[..i * stride];
      assert grown[i * stride..] == raw[start..start + stride];
      if item.Err? {
        assert ParseItems(grown, i + 1, stride, parse) == Err(item.error);
        PrefixFails(body, i + 1, count, stride, parse);
        assert body[..count * stride] == body;
        return Err(item.error), end;
      }
      out := out + [item.value];
    }
    assert body[..count * stride] == body;
    r, end := Ok(out), at + needed;
  }

  lemma {:induction false} StrideStep(i: nat, count: nat, stride: nat)
    requires i < count
    ensures i * stride + stride == (i + 1) * stride <= count * stride
    decreases count - i
  {
    if i + 1 < count {
      StrideStep(i + 1, count, stride);
    }
  }

  lemma {:induction false} PrefixFails<T>(body: seq<byte>, i: nat, count: nat, stride: nat,
        parse: seq<byte> -> Result<T>)
    requires i <= count && |body| == count * stride
    requires i * stride <= |body|
    requires ParseItems(body[..i * stride], i, stride, parse).Err?
    ensures ParseItems(body, count, stride, parse) == ParseItems(body[..i * stride], i, stride, parse)
  {
    if i == count {
      assert body[..i * stride] == body;
    } else {
      StrideStep(count - 1, count, stride);
      var init := body[..|body| - stride];
      StrideStep(i, count, stride);
      assert i * stride <= (count - 1) * stride by { if i < count - 1 { StrideStep(i, count - 1, stride); } }
      assert init[..i * stride] == body[..i * stride];
      PrefixFails(init, i, count - 1, stride, parse);
    }
  }

  method Parse(raw: seq<byte>, deltaIndex: bool) returns (r: Result<PartitionIndex>)
    ensures r == ParseIndex(raw, deltaIndex)
  {
    var at := 0;
    var reservedCount :- ParseCount(raw, at);
    at := at + 4;
    var reserved: seq<Element>;
    reserved, at :- ParseArray(raw, at, reservedCount, ELEMENT_LEN, ParseElement);
    var blockCount :- ParseCount(raw, at);
    at := at + 4;
    var blocks: Blocks;
    if deltaIndex {
      var deltas: seq<Delta>;
      deltas, at :- ParseArray(raw, at, blockCount, DELTA_LEN, ParseDelta);
      blocks := Deltas(deltas);
    } else {
      var entries: seq<Element>;
      entries, at :- ParseArray(raw, at, blockCount, ELEMENT_LEN, ParseElement);
      blocks := Full(entries);
    }
    if at != |raw| {
      return Err("$INDEX payload has trailing bytes");
    }
    return Ok(PartitionIndex(reserved, blocks));
  }

  // ----- what the codec promises -----

  lemma {:induction false} ElementRoundTrip(e: Element)
    ensures ParseElement(ElementBytes(e)) == Ok(e)
  {
    Widths();
    I64RoundTrip(e.position);
    FromToLE(e.length, 4);
    FromToLE(e.fileNumber, 2);
    var raw := ElementBytes(e);
    assert raw[0..8] == I64Bytes(e.position) && raw[8..24] == e.hash;
    assert raw[24..28] == ToLE(e.length, 4) && raw[28..30] == ToLE(e.fileNumber, 2);
  }

  lemma {:induction false} DeltaRoundTrip(d: Delta)
    ensures ParseDelta(DeltaBytes(d)) == Ok(d)
  {
    Widths();
    ElementRoundTrip(d.element);
    FromToLE(d.blockIndex, 4);
    var raw, short := DeltaBytes(d), ElementBytes(d.element);
    assert raw[0..8] == short[0..8] && raw[8..24] == short[8..24];
    assert raw[24..28] == short[24..28] && raw[28..30] == short[28..30];
    assert raw[30..34] == ToLE(d.blockIndex, 4);
  }

  lemma {:induction false} ArrayRoundTrip<T>(items: seq<T>, stride: nat, bytes: T -> seq<byte>,
        parse: seq<byte> -> Result<T>)
    requires forall x :: x in items ==> |bytes(x)| == stride && parse(bytes(x)) == Ok(x)
    ensures |ArrayBytes(items, bytes)| == |items| * stride
    ensures ParseItems(ArrayBytes(items, bytes), |items|, stride, parse) == Ok(items)
  {
    if items == [] {
    } else {
      var init, last := items[..|items| - 1], items[|items| - 1];
      ArrayRoundTrip(init, stride, bytes, parse);
      var raw := ArrayBytes(items, bytes);
      StrideStep(|init|, |items|, stride);
      assert raw[..|raw| - stride] == ArrayBytes(init, bytes);
      assert raw[|raw| - stride..] == bytes(last);
      assert init + [last] == items;
    }
  }

  lemma {:induction false} ElementsRoundTrip(items: seq<Element>)
    ensures |ArrayBytes(items, ElementBytes)| == |items| * ELEMENT_LEN
    ensures ParseItems(ArrayBytes(items, ElementBytes), |items|, ELEMENT_LEN, ParseElement) == Ok(items)
  {
    forall x | x in items ensures ParseElement(ElementBytes(x)) == Ok(x) { ElementRoundTrip(x); }
    ArrayRoundTrip(items, ELEMENT_LEN, ElementBytes, ParseElement);
  }

  lemma {:induction false} DeltasRoundTrip(items: seq<Delta>)
    ensures |ArrayBytes(items, DeltaBytes)| == |items| * DELTA_LEN
    ensures ParseItems(ArrayBytes(items, DeltaBytes), |items|, DELTA_LEN, ParseDelta) == Ok(items)
  {
    forall x | x in items ensures ParseDelta(DeltaBytes(x)) == Ok(x) { DeltaRoundTrip(x); }
    ArrayRoundTrip(items, DELTA_LEN, DeltaBytes, ParseDelta);
  }

  function Stride(blocks: Blocks): nat {
    if blocks.Full? then ELEMENT_LEN else DELTA_LEN
  }

  /** The length of a serialized index, whatever its counts. */
  lemma {:induction false} IndexLength(index: PartitionIndex)
    ensures |IndexBytes(index)| == 8 + |index.reserved| * ELEMENT_LEN + index.blocks.Length() * Stride(index.blocks)
  {
    ElementsRoundTrip(index.reserved);
    match index.blocks
    case Full(entries) => ElementsRoundTrip(entries);
    case Deltas(deltas) => DeltasRoundTrip(deltas);
  }

  lemma {:induction false} FourPieces(a: seq<byte>, b: seq<byte>, c: seq<byte>, d: seq<byte>)
    ensures var s := a + b + c + d;
            && s[..|a|] == a && s[|a|..|a| + |b|] == b
            && s[|a| + |b|..|a| + |b| + |c|] == c && s[|a| + |b| + |c|..] == d
  {
  }

  lemma {:induction false} CountRoundTrip(count: nat, raw: seq<byte>, at: nat)
    requires count <= I32_MAX && HoldsAt(raw, at, CountBytes(count))
    ensures ParseCount(raw, at) == Ok(count)
  {
    Widths();
    FromToLE(count, 4);
  }

  /** The two counts and the first array read back as written when no count saturates. */
  lemma {:induction false} IndexFields(index: PartitionIndex)
    requires |index.reserved| <= I32_MAX && index.blocks.Length() <= I32_MAX
    ensures var raw, at := IndexBytes(index), 4 + |index.reserved| * ELEMENT_LEN;
            && |raw| == at + 4 + index.blocks.Length() * Stride(index.blocks)
            && ParseCount(raw, 0) == Ok(|index.reserved|)
            && ParseArrayAt(raw, 4, |index.reserved|, ELEMENT_LEN, ParseElement) == Ok(index.reserved)
            && ParseCount(raw, at) == Ok(index.blocks.Length())
            && raw[at + 4..] == BlocksBytes(index.blocks)
  {
    var a, b := CountBytes(|index.reserved|), ArrayBytes(index.reserved, ElementBytes);
    var c, d := CountBytes(index.blocks.Length()), BlocksBytes(index.blocks);
    var raw := a + b + c + d;
    assert IndexBytes(index) == raw;
    IndexLength(index);
    hide IndexBytes, ArrayBytes, BlocksBytes, CountBytes, ParseItems, ParseElement, ParseCount, Stride;
    ElementsRoundTrip(index.reserved);
    FourPieces(a, b, c, d);
    CountRoundTrip(|index.reserved|, raw, 0);
    CountRoundTrip(index.blocks.Length(), raw, |a| + |b|);
    assert raw[4..4 + |index.reserved| * ELEMENT_LEN] == b;
  }

  lemma {:induction false} BlocksRoundTrip(raw: seq<byte>, at: nat, blocks: Blocks)
    requires at <= |raw| && raw[at..] == BlocksBytes(blocks)
    ensures |raw| == at + blocks.Length() * Stride(blocks)
    ensures match blocks
            case Full(entries) => ParseArrayAt(raw, at, |entries|, ELEMENT_LEN, ParseElement) == Ok(entries)
            case Deltas(deltas) => ParseArrayAt(raw, at, |deltas|, DELTA_LEN, ParseDelta) == Ok(deltas)
  {
    hide ParseItems, ArrayBytes, ParseElement, ParseDelta;
    match blocks
    case Full(entries) =>
      ElementsRoundTrip(entries);
      assert raw[at..at + |entries| * ELEMENT_LEN] == raw[at..];
    case Deltas(deltas) =>
      DeltasRoundTrip(deltas);
      assert raw[at..at + |deltas| * DELTA_LEN] == raw[at..];
  }

  /** A payload a block header can describe is under 4 GiB, so no count of it can have saturated. */
  lemma {:induction false} CountsFit(index: PartitionIndex)
    requires |IndexBytes(index)| < U32_LIMIT
    ensures |index.reserved| <= I32_MAX && index.blocks.Length() <= I32_MAX
  {
    hide IndexBytes;
    IndexLength(index);
    match index.blocks
    case Full(entries) =>
    case Deltas(deltas) =>
  }

  /** Such a payload reads back as the index it was written from, under its own form. */
  lemma {:induction false} IndexRoundTrip(index: PartitionIndex)
    requires |IndexBytes(index)| < U32_LIMIT
    ensures ParseIndex(IndexBytes(index), index.blocks.Deltas?) == Ok(index)
  {
    hide IndexBytes, ParseCount, ParseArrayAt;
    CountsFit(index);
    IndexFields(index);
    var raw, at := IndexBytes(index), 4 + |index.reserved| * ELEMENT_LEN;
    BlocksRoundTrip(raw, at + 4, index.blocks);
    match index.blocks
    case Full(entries) => assert at + 4 + |entries| * ELEMENT_LEN == |raw|;
    case Deltas(deltas) => assert at + 4 + |deltas| * DELTA_LEN == |raw|;
  }

  /**
   * Reading a payload under the wrong form fails exactly when it holds a block: with no block at
   * all, the two forms are the same eight-plus bytes and both readings succeed.
   */
  lemma {:induction false} WrongFormIsRefused(index: PartitionIndex)
    requires |IndexBytes(index)| < U32_LIMIT
    ensures ParseIndex(IndexBytes(index), !index.blocks.Deltas?).Err? <==> index.blocks.Length() > 0
  {
    CountsFit(index);
    IndexFields(index);
    var raw, at, n := IndexBytes(index), 4 + |index.reserved| * ELEMENT_LEN, index.blocks.Length();
    if n == 0 {
      assert ParseArrayAt(raw, at + 4, 0, DELTA_LEN, ParseDelta) == Ok([]);
      assert ParseArrayAt(raw, at + 4, 0, ELEMENT_LEN, ParseElement) == Ok([]);
    }
  }
}
