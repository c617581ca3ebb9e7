/** Libraries that keep every promise asked of them: a document codec that round-trips, and the simplest of the rest. */
module Encoding {
  import opened Wrappers
  import opened Bytes
  import opened Json

  // ----- encodings that can be told apart whatever follows them -----

  ghost predicate Separates<T(!new)>(e: T -> seq<byte>) {
    forall x, y, r, s :: e(x) + r == e(y) + s ==> x == y && r == s
  }

  function List<T>(e: T -> seq<byte>, xs: seq<T>): seq<byte> {
    if xs == [] then [0] else [1] + e(xs[0]) + List(e, xs[1..])
  }

  lemma {:induction false} Prefix(a: seq<byte>, b: seq<byte>, r: seq<byte>, s: seq<byte>)
    requires |a| == |b| && a + r == b + s
    ensures a == b && r == s
  {
    assert a == (a + r)[..|a|] && b == (b + s)[..|b|];
    assert r == (a + r)[|a|..] && s == (b + s)[|b|..];
  }

  lemma {:induction false} ListSeparates<T(!new)>(e: T -> seq<byte>, xs: seq<T>, ys: seq<T>, r: seq<byte>, s: seq<byte>)
    requires Separates(e) && List(e, xs) + r == List(e, ys) + s
    ensures xs == ys && r == s
  {
    var a, b := List(e, xs) + r, List(e, ys) + s;
    assert a[0] == if xs == [] then 0 else 1;
    assert b[0] == if ys == [] then 0 else 1;
    if xs == [] {
      Prefix([0], [0], r, s);
    } else {
      assert a == [1] + (e(xs[0]) + (List(e, xs[1..]) + r));
      assert b == [1] + (e(ys[0]) + (List(e, ys[1..]) + s));
      Prefix([1], [1], e(xs[0]) + (List(e, xs[1..]) + r), e(ys[0]) + (List(e, ys[1..]) + s));
      ListSeparates(e, xs[1..], ys[1..], r, s);
      assert xs == [xs[0]] + xs[1..] && ys == [ys[0]] + ys[1..];
    }
  }

  lemma {:induction false} ListLength<T>(e: T -> seq<byte>, xs: seq<T>, n: nat)
    requires forall x :: x in xs ==> |e(x)| <= n
    ensures |List(e, xs)| <= 1 + |xs| * (n + 1)
  {
    if xs != [] {
      assert xs[0] in xs;
      ListLength(e, xs[1..], n);
      Distribute(|xs[1..]|, n + 1);
    }
  }

  lemma {:induction false} Distribute(m: nat, n: nat)
    ensures (m + 1) * n == m * n + n
  {
  }

  // ----- the fields of a document -----

  function CharBytes(c: char): (s: seq<byte>)
    ensures |s| == 4
  {
    ToLE(c as int % U32_LIMIT, 4)
  }

  function NumberBytes(n: Option<u16>): (s: seq<byte>)
    ensures |s| == 4
  {
    ToLE(match n case None => 0 case Some(k) => k + 1, 4)
  }

  function DocDiskBytes(d: DocDisk): seq<byte> {
    NumberBytes(d.number) + List(NumberBytes, d.partitions)
  }

  function FixedBytes(h: Header): (s: seq<byte>)
    ensures |s| == 14
  {
    Widths();
    ToLE(h.fileNumber, 2) + ToLE(h.incrementNumber, 2) + ToLE(h.indexFilePosition, 8)
    + [if h.splitFile then 1 else 0] + [if h.deltaIndex then 1 else 0]
  }

  function HeaderBytes(h: Header): seq<byte> {
    FixedBytes(h) + (List(CharBytes, h.imageId) + (List(I64Bytes, h.mergedFiles) + List(CharBytes, h.backupType)))
  }

  function Encode(doc: Doc): seq<byte> {
    HeaderBytes(doc.header) + (List(CharBytes, doc.settings) +
                               (List(CharBytes, doc.rest) + List(DocDiskBytes, doc.disks)))
  }

  lemma {:induction false} CharsSeparate()
    ensures Separates(CharBytes)
  {
    forall x: char, y: char, r, s | CharBytes(x) + r == CharBytes(y) + s ensures x == y && r == s {
      Prefix(CharBytes(x), CharBytes(y), r, s);
      Widths();
      FromToLE(x as int % U32_LIMIT, 4);
      FromToLE(y as int % U32_LIMIT, 4);
    }
  }

  lemma {:induction false} NumbersSeparate()
    ensures Separates(NumberBytes)
  {
    forall x: Option<u16>, y: Option<u16>, r, s | NumberBytes(x) + r == NumberBytes(y) + s ensures x == y && r == s {
      Prefix(NumberBytes(x), NumberBytes(y), r, s);
      Widths();
      FromToLE(match x case None => 0 case Some(k) => k + 1, 4);
      FromToLE(match y case None => 0 case Some(k) => k + 1, 4);
    }
  }

  lemma {:induction false} PositionsSeparate()
    ensures Separates(I64Bytes)
  {
    forall x: i64, y: i64, r, s | I64Bytes(x) + r == I64Bytes(y) + s ensures x == y && r == s {
      Prefix(I64Bytes(x), I64Bytes(y), r, s);
      I64RoundTrip(x);
      I64RoundTrip(y);
    }
  }

  lemma {:induction false} DisksSeparate()
    ensures Separates(DocDiskBytes)
  {
    NumbersSeparate();
    forall x: DocDisk, y: DocDisk, r, s | DocDiskBytes(x) + r == DocDiskBytes(y) + s ensures x == y && r == s {
      var a, b := List(NumberBytes, x.partitions) + r, List(NumberBytes, y.partitions) + s;
      assert DocDiskBytes(x) + r == NumberBytes(x.number) + a && DocDiskBytes(y) + s == NumberBytes(y.number) + b;
      hide *;
      ListSeparates(NumberBytes, x.partitions, y.partitions, r, s);
    }
  }

  lemma {:induction false} FixedSeparates(g: Header, h: Header)
    requires FixedBytes(g) == FixedBytes(h)
    ensures g.fileNumber == h.fileNumber && g.incrementNumber == h.incrementNumber
    ensures g.indexFilePosition == h.indexFilePosition && g.splitFile == h.splitFile && g.deltaIndex == h.deltaIndex
  {
    Widths();
    var a, b := FixedBytes(g), FixedBytes(h);
    assert a[0..2] == ToLE(g.fileNumber, 2) && b[0..2] == ToLE(h.fileNumber, 2);
    assert a[2..4] == ToLE(g.incrementNumber, 2) && b[2..4] == ToLE(h.incrementNumber, 2);
    assert a[4..12] == ToLE(g.indexFilePosition, 8) && b[4..12] == ToLE(h.indexFilePosition, 8);
    FromToLE(g.fileNumber, 2);
    FromToLE(h.fileNumber, 2);
    FromToLE(g.incrementNumber, 2);
    FromToLE(h.incrementNumber, 2);
    FromToLE(g.indexFilePosition, 8);
    FromToLE(h.indexFilePosition, 8);
    assert a[12] == (if g.splitFile then 1 else 0) && b[12] == if h.splitFile then 1 else 0;
    assert a[13] == (if g.deltaIndex then 1 else 0) && b[13] == if h.deltaIndex then 1 else 0;
  }

  lemma {:induction false} HeaderSeparates(g: Header, h: Header, r: seq<byte>, s: seq<byte>)
    requires HeaderBytes(g) + r == HeaderBytes(h) + s
    ensures g == h && r == s
  {
    hide FixedBytes, List;
    var g3, h3 := List(CharBytes, g.backupType) + r, List(CharBytes, h.backupType) + s;
    var g2, h2 := List(I64Bytes, g.mergedFiles) + g3, List(I64Bytes, h.mergedFiles) + h3;
    var g1, h1 := List(CharBytes, g.imageId) + g2, List(CharBytes, h.imageId) + h2;
    assert HeaderBytes(g) + r == FixedBytes(g) + g1 && HeaderBytes(h) + s == FixedBytes(h) + h1;
    Prefix(FixedBytes(g), FixedBytes(h), g1, h1);
    FixedSeparates(g, h);
    CharsSeparate();
    PositionsSeparate();
    ListSeparates(CharBytes, g.imageId, h.imageId, g2, h2);
    ListSeparates(I64Bytes, g.mergedFiles, h.mergedFiles, g3, h3);
    ListSeparates(CharBytes, g.backupType, h.backupType, r, s);
  }

  /** Two documents with one encoding are one document. */
  lemma {:induction false} EncodeIsInjective(a: Doc, b: Doc)
    requires Encode(a) == Encode(b)
    ensures a == b
  {
    hide HeaderBytes, List;
    var a2 := List(CharBytes, a.rest) + List(DocDiskBytes, a.disks);
    var b2 := List(CharBytes, b.rest) + List(DocDiskBytes, b.disks);
    var a1, b1 := List(CharBytes, a.settings) + a2, List(CharBytes, b.settings) + b2;
    HeaderSeparates(a.header, b.header, a1, b1);
    CharsSeparate();
    DisksSeparate();
    ListSeparates(CharBytes, a.settings, b.settings, a2, b2);
    ListSeparates(CharBytes, a.rest, b.rest, List(DocDiskBytes, a.disks), List(DocDiskBytes, b.disks));
    assert List(DocDiskBytes, a.disks) + [] == List(DocDiskBytes, a.disks) && List(DocDiskBytes,
          b.disks) + [] == List(DocDiskBytes, b.disks);
    ListSeparates(DocDiskBytes, a.disks, b.disks, [], []);
  }

  // ----- the libraries -----

  ghost function Decode(raw: seq<byte>): Option<Doc> {
    if exists doc :: Encode(doc) == raw then
      var doc :| Encode(doc) == raw;
      Some(doc)
    else None
  }

  lemma {:induction false} DecodeEncoded(doc: Doc)
    ensures Decode(Encode(doc)) == Some(doc)
  {
    hide Encode;
    var found := Decode(Encode(doc)).value;
    EncodeIsInjective(found, doc);
  }

  /** Every hash is zero, a block is stored as it is, nothing is compressed, and a stamp changes nothing. */
  ghost function Libraries(): Foreign {
    Foreign(_ => Zeros(16), _ => None, Encode, raw => Decode(raw), (rest, _) => Some(rest), (_, _, _,
          stored) => Some(stored))
  }

  lemma {:induction false} LibrariesRoundTrip()
    ensures Libraries().RoundTrips()
  {
    hide Encode, Decode;
    forall doc ensures Libraries().decode(Libraries().encode(doc)) == Some(doc) {
      DecodeEncoded(doc);
    }
  }
}
