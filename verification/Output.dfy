/** The finished file: data region, metadata region, root list and footer. */
module Output {
  import opened Wrappers
  import opened Bytes
  import opened Index
  import Block
  import opened Json
  import opened Reader
  import opened Plan
  import opened Write

  // ----- the bytes of the metadata region -----

  function Span(image: seq<byte>, start: nat, end: nat): seq<byte> {
    if start <= end <= |image| then image[start..end] else []
  }

  /** The header of a fresh `$INDEX`: stored plain, ending its list. */
  function IndexHeader(md5: seq<byte> -> Hash, payload: seq<byte>): Block.Header {
    Block.Header(Block.INDEX, if |payload| < U32_LIMIT then |payload| else 0, md5(payload), Block.Flags.Plain(true))
  }

  predicate Representable(index: PartitionIndex) {
    |IndexBytes(index)| < U32_LIMIT
  }

  /** A partition's list copied up to its `$INDEX`, then a fresh one that ends the list. */
  function PartitionBytes(md5: seq<byte> -> Hash, image: seq<byte>, part: Partition, index: PartitionIndex): seq<byte>
    requires part.blocks.blocks != []
  {
    var blocks, payload := part.blocks.blocks, IndexBytes(index);
    Span(image, blocks[0].offset, blocks[|blocks| - 1].offset) + (IndexHeader(md5, payload).ToBytes() + payload)
  }

  /** A list's blocks lie between its start and its end. */
  ghost predicate Ordered(list: Block.BlockList) {
    && list.blocks != []
    && list.blocks[0].offset <= list.blocks[|list.blocks| - 1].offset <= list.end
  }

  ghost predicate PartitionsOrdered(parts: seq<Partition>) {
    forall p :: 0 <= p < |parts| ==> Ordered(parts[p].blocks)
  }

  ghost predicate DisksOrdered(disks: seq<Disk>) {
    forall d :: 0 <= d < |disks| ==> Ordered(disks[d].blocks) && PartitionsOrdered(disks[d].partitions)
  }

  ghost function PartitionsBytes(md5: seq<byte> -> Hash, image: seq<byte>, parts: seq<Partition>,
        row: seq<WrittenPartition>): seq<byte>
    requires |parts| == |row| && PartitionsOrdered(parts)
  {
    if parts == [] then []
    else PartitionBytes(md5, image, parts[0], row[0].index) + PartitionsBytes(md5, image, parts[1..], row[1..])
  }

  ghost function DiskBytes(md5: seq<byte> -> Hash, image: seq<byte>, disk: Disk, row: seq<WrittenPartition>): seq<byte>
    requires |row| == |disk.partitions| && Ordered(disk.blocks) && PartitionsOrdered(disk.partitions)
  {
    Span(image, disk.blocks.blocks[0].offset, disk.blocks.end) + PartitionsBytes(md5, image, disk.partitions, row)
  }

  /** Every list of the To file with each `$INDEX` replaced, in disk and partition order. */
  ghost function DisksBytes(md5: seq<byte> -> Hash, image: seq<byte>, disks: seq<Disk>,
        written: seq<WrittenPartition>): seq<byte>
    requires |written| == PartitionTotal(disks) && DisksOrdered(disks)
  {
    if disks == [] then []
    else
      var n := |disks[0].partitions|;
      DiskBytes(md5, image, disks[0], written[..n]) + DisksBytes(md5, image, disks[1..], written[n..])
  }

  function PartitionTotal(disks: seq<Disk>): nat {
    if disks == [] then 0 else |disks[0].partitions| + PartitionTotal(disks[1..])
  }

  /** The written partitions of disk `d`, in order, each with an index that fits a block. */
  ghost predicate RowFits(row: seq<WrittenPartition>, d: nat) {
    forall p :: 0 <= p < |row| ==> row[p].disk == d && row[p].partition == p && Representable(row[p].index)
  }

  /** The written partitions are those of the disks from number `d` on, in order. */
  ghost predicate RegionDescribes(disks: seq<Disk>, written: seq<WrittenPartition>, d: nat) {
    if disks == [] then written == []
    else
      var n := |disks[0].partitions|;
      n <= |written| && RowFits(written[..n], d) && RegionDescribes(disks[1..], written[n..], d + 1)
  }

  // ----- copying a range -----

  lemma {:induction false} RangeGrows(image: seq<byte>, start: nat, done: nat, take: nat)
    requires start + done + take <= |image|
    ensures image[start..start + done] + image[start + done..start + done + take] == image[start..start + done + take]
  {
  }

  /** Copy a byte range of one source straight through, at most 4 MiB at a time. */
  method CopyRange(source: Source, number: u16, start: nat, length: nat, before: seq<byte>)
    returns (r: Result<()>, out: seq<byte>)
    ensures r.Ok? ==> length == 0 || (number in source && start + length <= |source[number]|)
    ensures r.Ok? ==> out == before + (if length == 0 then [] else source[number][start..start + length])
    ensures number in source && start + length <= |source[number]| < I64_LIMIT ==> r.Ok?
  {
    out := before;
    var done := 0;
    while done < length
      invariant 0 <= done <= length
      invariant done > 0 ==> number in source && start + done <= |source[number]|
      invariant out == before + (if done == 0 then [] else source[number][start..start + done])
    {
      var take := if length - done < 0x40_0000 then length - done else 0x40_0000;
      if start + done >= I64_LIMIT {
        return Err("metadata offset overflows"), out;
      }
      var bytes := ReadBlock(source, number, start + done, take);
      if bytes.Err? {
        return Err(bytes.error), out;
      }
      RangeGrows(source[number], start, done, take);
      out := out + bytes.value;
      done := done + take;
    }
    r := Ok(());
  }

  // ----- the metadata region -----

  /** The source holds the To file whole. */
  ghost predicate SourceHolds(source: Source, number: u16, image: seq<byte>) {
    number in source && source[number] == image && |image| < I64_LIMIT
  }

  method WritePartitionMetadata(md5: seq<byte> -> Hash, part: Partition, written: WrittenPartition, d: nat, p: nat,
                                source: Source, toNumber: u16, before: seq<byte>, ghost image: seq<byte>)
    returns (r: Result<nat>, out: seq<byte>)
    requires Ordered(part.blocks)
    requires toNumber in source ==> source[toNumber] == image
    ensures r.Ok? ==> out == before + PartitionBytes(md5, image, part, written.index)
    ensures r.Ok? ==> r.value == |out| - |before|
    ensures r.Ok? ==> written.disk == d && written.partition == p && Representable(written.index)
    ensures SourceHolds(source, toNumber, image) && part.blocks.end <= |image| && r.Err? ==>
              !(written.disk == d && written.partition == p && Representable(written.index))
  {
    hide IndexBytes, Block.Header.ToBytes;
    var blocks := part.blocks.blocks;
    var start, indexAt := blocks[0].offset, blocks[|blocks| - 1].offset;
    var copied;
    copied, out := CopyRange(source, toNumber, start, indexAt - start, before);
    if copied.Err? {
      return Err(copied.error), out;
    }
    assert out == before + Span(image, start, indexAt);
    if written.disk != d || written.partition != p {
      return Err("the data region does not describe this partition"), out;
    }
    var payload := ToBytes(written.index);
    var header := Block.Header.ForPayload(md5, Block.INDEX, payload, true);
    if header.Err? {
      return Err(header.error), out;
    }
    out := out + (header.value.ToBytes() + payload);
    assert header.value == IndexHeader(md5, payload);
    Associates(before, Span(image, start, indexAt), header.value.ToBytes() + payload);
    r := Ok(indexAt - start + Block.HEADER_LEN + |payload|);
  }

  method WritePartitionsMetadata(md5: seq<byte> -> Hash, parts: seq<Partition>, row: seq<WrittenPartition>, d: nat,
                                 source: Source, toNumber: u16, before: seq<byte>, ghost image: seq<byte>)
    returns (r: Result<nat>, out: seq<byte>)
    requires PartitionsOrdered(parts) && |row| == |parts|
    requires toNumber in source ==> source[toNumber] == image
    ensures r.Ok? ==> out == before + PartitionsBytes(md5, image, parts, row)
    ensures r.Ok? ==> r.value == |out| - |before| && RowFits(row, d)
    ensures r.Err? && SourceHolds(source, toNumber, image) && PartitionsEndWithin(parts, |image|) ==> !RowFits(row, d)
  {
    hide PartitionBytes, SourceHolds, Representable;
    var at := 0;
    out := before;
    ghost var all := PartitionsBytes(md5, image, parts, row);
    assert parts[0..] == parts && row[0..] == row;
    for p := 0 to |parts|
      invariant out + PartitionsBytes(md5, image, parts[p..], row[p..]) == before + all
      invariant at == |out| - |before|
      invariant RowFits(row[..p], d)
    {
      ghost var soFar := out;
      var piece;
      piece, out := WritePartitionMetadata(md5, parts[p], row[p], d, p, source, toNumber, out, image);
      if piece.Err? {
        return Err(piece.error), out;
      }
      assert parts[p..][1..] == parts[p + 1..] && row[p..][1..] == row[p + 1..];
      Associates(soFar, PartitionBytes(md5, image, parts[p], row[p].index),
                 PartitionsBytes(md5, image, parts[p + 1..], row[p + 1..]));
      at := at + piece.value;
    }
    assert row[..|row|] == row;
    Nothing(out);
    r := Ok(at);
  }

  method WriteDiskMetadata(md5: seq<byte> -> Hash, disk: Disk, row: seq<WrittenPartition>, d: nat,
                           source: Source, toNumber: u16, before: seq<byte>, ghost image: seq<byte>)
    returns (r: Result<nat>, out: seq<byte>)
    requires Ordered(disk.blocks) && PartitionsOrdered(disk.partitions) && |row| == |disk.partitions|
    requires toNumber in source ==> source[toNumber] == image
    ensures r.Ok? ==> out == before + DiskBytes(md5, image, disk, row)
    ensures r.Ok? ==> r.value == |out| - |before| && RowFits(row, d)
    ensures r.Err? && SourceHolds(source, toNumber, image) && DiskEndsWithin(disk, |image|) ==> !RowFits(row, d)
  {
    hide PartitionsBytes, PartitionBytes, RowFits;
    var start := disk.blocks.blocks[0].offset;
    var length := disk.blocks.end - start;
    var copied;
    copied, out := CopyRange(source, toNumber, start, length, before);
    if copied.Err? {
      return Err(copied.error), out;
    }
    assert out == before + Span(image, start, disk.blocks.end);
    Associates(before, Span(image, start, disk.blocks.end), PartitionsBytes(md5, image, disk.partitions, row));
    var rest;
    rest, out := WritePartitionsMetadata(md5, disk.partitions, row, d, source, toNumber, out, image);
    if rest.Err? {
      return Err(rest.error), out;
    }
    r := Ok(length + rest.value);
  }

  lemma {:induction false} Nothing(a: seq<byte>)
    ensures a + [] == a
  {
  }

  lemma {:induction false} Associates(a: seq<byte>, b: seq<byte>, c: seq<byte>)
    ensures (a + b) + c == a + (b + c)
  {
  }

  /** Every list ends within a file of `size` bytes. */
  ghost predicate EndsWithin(disks: seq<Disk>, size: nat) {
    forall d :: 0 <= d < |disks| ==> DiskEndsWithin(disks[d], size)
  }

  /** The per-disk and per-partition lists with a fresh `$INDEX` each; the result is where the root list starts. */
  method WriteMetadataRegion(md5: seq<byte> -> Hash, disks: seq<Disk>, data: DataRegion, source: Source,
                             toNumber: u16, before: seq<byte>, ghost image: seq<byte>)
    returns (r: Result<nat>, out: seq<byte>)
    requires DisksOrdered(disks)
    requires toNumber in source ==> source[toNumber] == image
    ensures r.Ok? ==> |data.partitions| == PartitionTotal(disks) && RegionDescribes(disks, data.partitions, 0)
    ensures r.Ok? ==> out == before + DisksBytes(md5, image, disks, data.partitions)
    ensures r.Ok? ==> r.value == data.end + |out| - |before|
    ensures r.Err? && SourceHolds(source, toNumber, image) && EndsWithin(disks, |image|) ==>
              !RegionDescribes(disks, data.partitions, 0)
  {
    hide DiskBytes, SourceHolds, RowFits, DiskEndsWithin;
    out := before;
    var written := data.partitions;
    DescribedTotal(disks, written, 0);
    if |written| != PartitionTotal(disks) {
      return Err("the data region does not describe the To file's partitions"), out;
    }
    var at, next := data.end, 0;
    ghost var all := DisksBytes(md5, image, disks, written);
    assert disks[0..] == disks && written[0..] == written;
    for d := 0 to |disks|
      invariant next <= |written| && |written[next..]| == PartitionTotal(disks[d..])
      invariant out + DisksBytes(md5, image, disks[d..], written[next..]) == before + all
      invariant at == data.end + |out| - |before|
      invariant RegionDescribes(disks, written, 0) == RegionDescribes(disks[d..], written[next..], d)
    {
      ghost var soFar := out;
      var n := |disks[d].partitions|;
      var row := written[next..][..n];
      assert disks[d..][1..] == disks[d + 1..] && written[next..][n..] == written[next + n..];
      var piece;
      piece, out := WriteDiskMetadata(md5, disks[d], row, d, source, toNumber, out, image);
      if piece.Err? {
        return Err(piece.error), out;
      }
      Associates(soFar, DiskBytes(md5, image, disks[d], row),
                 DisksBytes(md5, image, disks[d + 1..], written[next + n..]));
      at := at + piece.value;
      next := next + n;
    }
    assert out + [] == out;
    r := Ok(at);
  }

  lemma {:induction false} DescribedTotal(disks: seq<Disk>, written: seq<WrittenPartition>, d: nat)
    ensures RegionDescribes(disks, written, d) ==> |written| == PartitionTotal(disks)
  {
    if disks != [] && |disks[0].partitions| <= |written| {
      DescribedTotal(disks[1..], written[|disks[0].partitions|..], d + 1);
    }
  }

  // ----- the document -----

  /** The members of `s` below `n`, ascending. */
  function AscendingNumbers(s: set<u16>, n: nat): (out: seq<i64>)
    requires n <= 0x1_0000
    ensures forall k: u16 :: k in out <==> k in s && k < n
    ensures forall i, j :: 0 <= i < j < |out| ==> out[i] < out[j]
    ensures forall i :: 0 <= i < |out| ==> 0 <= out[i] < n
  {
    if n == 0 then []
    else
      var rest := AscendingNumbers(s, n - 1);
      if n - 1 in s then rest + [n - 1] else rest
  }

  /** What the output is: its number, what it absorbed, and the form of its index. */
  function PatchedHeader(h: Json.Header, plan: MergePlan, position: u64): Json.Header {
    h.(fileNumber := plan.outFileNumber,
       incrementNumber := plan.outIncrementNumber,
       mergedFiles := AscendingNumbers(plan.absorbed - {plan.outFileNumber}, 0x1_0000),
       indexFilePosition := position,
       deltaIndex := plan.kind.DeltaIndex(),
       splitFile := false,
       backupType := if plan.kind.SyntheticFull? then "full" else h.backupType)
  }

  /** The header of an output, field by field: To's identity, From's numbers, the form of the plan. */
  lemma {:induction false} PatchedFields(h: Json.Header, plan: MergePlan, position: u64)
    ensures var p := PatchedHeader(h, plan, position);
            && p.imageId == h.imageId && p.fileNumber == plan.outFileNumber
            && p.incrementNumber == plan.outIncrementNumber && p.indexFilePosition == position && !p.splitFile
            && (forall k: i64 :: k in p.mergedFiles <==> k in plan.absorbed && k != plan.outFileNumber)
            && (forall i, j :: 0 <= i < j < |p.mergedFiles| ==> p.mergedFiles[i] < p.mergedFiles[j])
            && match plan.kind
               case SyntheticFull => !p.deltaIndex && p.backupType == "full"
               case IncrementalMerge => p.deltaIndex && p.backupType == h.backupType
  {
    var merged := AscendingNumbers(plan.absorbed - {plan.outFileNumber}, 0x1_0000);
    forall k: i64 ensures k in merged <==> k in plan.absorbed && k != plan.outFileNumber {
      if k in merged {
        var i :| 0 <= i < |merged| && merged[i] == k;
      }
    }
  }

  /** When a document can be patched, and what it then is: everything but the header and the restamped part stays. */
  lemma {:induction false} PatchedDocument(f: Foreign, to: BackupFile, plan: MergePlan, position: u64, stamp: Stamp,
        doc: Doc)
    ensures PatchedDoc(f, to, plan, position, stamp) == Ok(doc)
       <==> && f.encode(to.doc) == to.jsonRaw
            && doc.header == PatchedHeader(to.doc.header, plan, position)
            && doc.disks == to.doc.disks && doc.settings == to.doc.settings
            && f.restamp(to.doc.rest, Patch(stamp, plan.outFileNumber, plan.absorbed, plan.kind == SyntheticFull))
               == Some(doc.rest)
  {
  }

  /** An output claims exactly what the merge absorbed. */
  lemma {:induction false} PatchedClaims(h: Json.Header, plan: MergePlan, position: u64)
    requires plan.outFileNumber in plan.absorbed
    ensures PatchedHeader(h, plan, position).Claims() == plan.absorbed
  {
    var merged := AscendingNumbers(plan.absorbed - {plan.outFileNumber}, 0x1_0000);
    forall n: u16 ensures n in PatchedHeader(h, plan, position).Claims() <==> n in plan.absorbed {
      assert n in merged <==> n in plan.absorbed - {plan.outFileNumber};
    }
  }

  /** The To file's document, patched; refused when re-encoding the untouched one changes its bytes. */
  function PatchedDoc(f: Foreign, to: BackupFile, plan: MergePlan, position: u64, stamp: Stamp): Result<Doc> {
    if f.encode(to.doc) != to.jsonRaw then Err("JSON canonical form mismatch; refusing to rewrite metadata")
    else
      match f.restamp(to.doc.rest, Patch(stamp, plan.outFileNumber, plan.absorbed, plan.kind.SyntheticFull?))
      case None => Err("the $JSON document lacks an object the patch writes")
      case Some(rest) => Ok(to.doc.(header := PatchedHeader(to.doc.header, plan, position), rest := rest))
  }

  // ----- the whole file -----

  datatype WrittenFile = WrittenFile(data: DataRegion, rootAt: u64, size: nat)

  function AuxOf(to: BackupFile): (aux: Option<Block.Located>)
    ensures aux.Some? ==> aux.value in to.rootList.blocks
    ensures aux.Some? ==> aux.value.header.name == [36, 65, 85, 88, 68, 65, 84, 65]
    ensures aux.None? ==> forall b :: b in to.rootList.blocks ==> b.header.name != [36, 65, 85, 88, 68, 65, 84, 65]
  {
    Block.Find(to.rootList.blocks, Block.AUXDATA)
  }

  function AuxBytes(to: BackupFile): seq<byte> {
    match AuxOf(to)
    case Some(aux) => Span(to.image, aux.offset, aux.End())
    case None => []
  }

  function JsonHeader(f: Foreign, to: BackupFile, document: seq<byte>): Block.Header {
    Block.Header(Block.JSON, if |document| < U32_LIMIT then |document| else 0, f.md5(document),
                 Block.Flags.Plain(AuxOf(to).None?))
  }

  /** The four parts of an output, in file order. */
  ghost predicate OutputWritten(f: Foreign, to: BackupFile, plan: MergePlan, source: Source, stamp: Stamp,
                                w: WrittenFile, out: seq<byte>)
    requires DisksOrdered(to.disks)
  {
    var data := w.data;
    && data.end <= |out| && data.end < U64_LIMIT
    && RegionWritten(plan, source, plan.outFileNumber, data, out[..data.end])
    && |data.partitions| == PartitionTotal(to.disks) && RegionDescribes(to.disks, data.partitions, 0)
    && w.rootAt == data.end + |DisksBytes(f.md5, to.image, to.disks, data.partitions)|
    && var doc := PatchedDoc(f, to, plan, data.end, stamp);
       && doc.Ok?
       && var document := f.encode(doc.value);
          && |document| < U32_LIMIT
          && (AuxOf(to).Some? ==> AuxOf(to).value.End() <= |to.image|)
          && out == out[..data.end] + DisksBytes(f.md5, to.image, to.disks, data.partitions)
                    + (JsonHeader(f, to, document).ToBytes() + document) + AuxBytes(to)
                    + Block.FooterBytes(w.rootAt)
          && w.size == |out|
  }

  lemma {:induction false} RegionFits(plan: MergePlan, source: Source, outNumber: u16, data: DataRegion, out: seq<byte>)
    requires RegionWritten(plan, source, outNumber, data, out)
    ensures |out| == data.end < U64_LIMIT
  {
    PayloadLength(source, Layout(plan));
  }

  /** What a finished output needs of its data region, its document and the To file's `$AUXDATA`. */
  ghost predicate OutputPossible(f: Foreign, to: BackupFile, plan: MergePlan, stamp: Stamp, data: DataRegion)
    requires DisksOrdered(to.disks)
  {
    && |data.partitions| == PartitionTotal(to.disks) && RegionDescribes(to.disks, data.partitions, 0)
    && data.end < U64_LIMIT
    && data.end + |DisksBytes(f.md5, to.image, to.disks, data.partitions)| < U64_LIMIT
    && PatchedDoc(f, to, plan, data.end, stamp).Ok?
    && |f.encode(PatchedDoc(f, to, plan, data.end, stamp).value)| < U32_LIMIT
    && (AuxOf(to).Some? ==> AuxOf(to).value.End() <= |to.image|)
  }

  lemma {:induction false} OutputIsPossible(f: Foreign, to: BackupFile, plan: MergePlan, source: Source, stamp: Stamp,
        w: WrittenFile, out: seq<byte>)
    requires DisksOrdered(to.disks) && OutputWritten(f, to, plan, source, stamp, w, out)
    ensures OutputPossible(f, to, plan, stamp, w.data)
    ensures w.data.end <= |out| && RegionWritten(plan, source, plan.outFileNumber, w.data, out[..w.data.end])
  {
    hide RegionWritten, DisksBytes, RegionDescribes, PatchedDoc, Block.FooterBytes, Block.Header.ToBytes;
  }

  /** The writer may refuse only where no bytes would be a finished output. */
  ghost predicate NoOutput(f: Foreign, to: BackupFile, plan: MergePlan, source: Source, stamp: Stamp)
    requires DisksOrdered(to.disks)
  {
    forall w, out :: !OutputWritten(f, to, plan, source, stamp, w, out)
  }

  lemma {:induction false} NoRegionNoOutput(f: Foreign, to: BackupFile, plan: MergePlan, source: Source, stamp: Stamp)
    requires DisksOrdered(to.disks)
    requires !(Copyable(source, Layout(plan)) && PositionsFit(plan.kind, plan.partitions))
    ensures NoOutput(f, to, plan, source, stamp)
  {
    hide OutputWritten, OutputPossible, Copyable, Layout, PositionsFit, RegionWritten, DisksOrdered;
    forall w, out ensures !OutputWritten(f, to, plan, source, stamp, w, out) {
      if OutputWritten(f, to, plan, source, stamp, w, out) {
        OutputIsPossible(f, to, plan, source, stamp, w, out);
        RegionMeansFit(plan, source, plan.outFileNumber, w.data, out[..w.data.end]);
      }
    }
  }

  lemma {:induction false} ImpossibleNoOutput(f: Foreign, to: BackupFile, plan: MergePlan, source: Source,
        stamp: Stamp, data: DataRegion, first: seq<byte>)
    requires DisksOrdered(to.disks) && RegionWritten(plan, source, plan.outFileNumber, data, first)
    requires !OutputPossible(f, to, plan, stamp, data)
    ensures NoOutput(f, to, plan, source, stamp)
  {
    hide OutputWritten, OutputPossible, RegionWritten, DisksOrdered;
    forall w, out ensures !OutputWritten(f, to, plan, source, stamp, w, out) {
      if OutputWritten(f, to, plan, source, stamp, w, out) {
        OutputIsPossible(f, to, plan, source, stamp, w, out);
        RegionIsUnique(plan, source, plan.outFileNumber, data, first, w.data, out[..w.data.end]);
      }
    }
  }

  /** One To file, one plan, one set of sources: one output. */
  lemma {:induction false} OutputIsUnique(f: Foreign, to: BackupFile, plan: MergePlan, source: Source, stamp: Stamp,
        v: WrittenFile, a: seq<byte>, w: WrittenFile, b: seq<byte>)
    requires DisksOrdered(to.disks)
    requires OutputWritten(f, to, plan, source, stamp, v, a) && OutputWritten(f, to, plan, source, stamp, w, b)
    ensures v == w && a == b
  {
    hide RegionWritten, DisksBytes, RegionDescribes, PatchedDoc, Block.FooterBytes, Block.Header.ToBytes, DisksOrdered;
    RegionIsUnique(plan, source, plan.outFileNumber, v.data, a[..v.data.end], w.data, b[..w.data.end]);
  }

  /**
   * Write a whole consolidated file; nothing here opens the destination. With a sound To file among the sources
   * it is refused only where no output exists.
   */
  method WriteOutput(f: Foreign, to: BackupFile, plan: MergePlan, source: Source, stamp: Stamp)
    returns (r: Result<WrittenFile>, out: seq<byte>)
    requires DisksOrdered(to.disks)
    requires plan.to in source ==> source[plan.to] == to.image
    ensures r.Ok? ==> OutputWritten(f, to, plan, source, stamp, r.value, out)
    ensures r.Err? && SourceHolds(source, plan.to, to.image) && EndsWithin(to.disks, |to.image|) ==>
              NoOutput(f, to, plan, source, stamp)
  {
    hide RegionWritten, DisksBytes, RegionDescribes, Block.FooterBytes, Block.Header.ToBytes, PatchedHeader, NoOutput;
    var region;
    region, out := WriteDataRegion(plan, source, plan.outFileNumber);
    if region.Err? {
      NoRegionNoOutput(f, to, plan, source, stamp);
      return Err(region.error), out;
    }
    var data := region.value;
    ghost var first := out;
    RegionFits(plan, source, plan.outFileNumber, data, out);
    var metadata;
    metadata, out := WriteMetadataRegion(f.md5, to.disks, data, source, plan.to, out, to.image);
    if metadata.Err? {
      if SourceHolds(source, plan.to, to.image) && EndsWithin(to.disks, |to.image|) {
        ImpossibleNoOutput(f, to, plan, source, stamp, data, first);
      }
      return Err(metadata.error), out;
    }
    var rootAt := metadata.value;
    ghost var second := DisksBytes(f.md5, to.image, to.disks, data.partitions);
    if rootAt >= U64_LIMIT {
      ImpossibleNoOutput(f, to, plan, source, stamp, data, first);
      return Err("output offset overflows"), out;
    }
    var doc := PatchedDoc(f, to, plan, data.end, stamp);
    if doc.Err? {
      ImpossibleNoOutput(f, to, plan, source, stamp, data, first);
      return Err(doc.error), out;
    }
    var document := f.encode(doc.value);
    var aux := AuxOf(to);
    var header := Block.Header.ForPayload(f.md5, Block.JSON, document, aux.None?);
    if header.Err? {
      ImpossibleNoOutput(f, to, plan, source, stamp, data, first);
      return Err(header.error), out;
    }
    out := out + (header.value.ToBytes() + document);
    var size := rootAt + Block.HEADER_LEN + |document|;
    ghost var third := out;
    if aux.Some? {
      var length := Block.HEADER_LEN + aux.value.header.blockLength;
      var copied;
      copied, out := CopyRange(source, plan.to, aux.value.offset, length, out);
      if copied.Err? {
        if SourceHolds(source, plan.to, to.image) {
          ImpossibleNoOutput(f, to, plan, source, stamp, data, first);
        }
        return Err(copied.error), out;
      }
      size := size + length;
    } else {
      Nothing(out);
    }
    assert out == third + AuxBytes(to);
    out := out + Block.FooterBytes(rootAt);
    assert out[..data.end] == first;
    r := Ok(WrittenFile(data, rootAt, size + Block.FOOTER_LEN));
  }
}
