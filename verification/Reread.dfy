/** The reader accepts what the writer wrote, and recovers the planned index from it. */
module Reread {
  import opened Wrappers
  import opened Bytes
  import opened Index
  import Block
  import opened Json
  import opened Reader
  import opened Plan
  import opened Write
  import opened Output
  import Format
  import opened Parsed

  // ----- one partition, one disk, every disk -----

  /** The same blocks, header and payload, except possibly the last `except` of them. */
  ghost predicate ListKept(image: seq<byte>, list: Block.BlockList, copy: seq<byte>, kept: Block.BlockList,
        except: nat) {
    && |kept.blocks| == |list.blocks|
    && forall k :: 0 <= k < |list.blocks| - except ==> Block.SameBlock(image, list.blocks[k], copy, kept.blocks[k])
  }

  /**
   * The list ends with a plain `$INDEX` whose header has the hash of the stored bytes, and those bytes are the payload
   * of this index.
   */
  ghost predicate EndsWithFresh(md5: seq<byte> -> Hash, copy: seq<byte>, list: Block.BlockList, index: PartitionIndex) {
    && list.blocks != []
    && var last := list.blocks[|list.blocks| - 1];
       && last.header.name == [36, 73, 78, 68, 69, 88, 32, 32] && last.header.flags.lastBlock
       && !last.header.flags.compression && !last.header.flags.encryption
       && last.offset + 32 + last.header.blockLength <= |copy|
       && last.header.hash == md5(Stored(copy, last))
       && Format.IsPayload(Stored(copy, last), index, index.blocks.Deltas?)
  }

  ghost predicate PartitionReread(md5: seq<byte> -> Hash, image: seq<byte>, part: Partition, written: WrittenPartition,
        copy: seq<byte>, parsed: Partition) {
    && parsed.index == written.index && ListKept(image, part.blocks, copy, parsed.blocks, 1)
    && EndsWithFresh(md5, copy, parsed.blocks, written.index)
  }

  ghost predicate RowReread(md5: seq<byte> -> Hash, image: seq<byte>, parts: seq<Partition>,
        row: seq<WrittenPartition>, copy: seq<byte>, parsed: seq<Partition>) {
    && |parts| == |row| == |parsed|
    && forall p :: 0 <= p < |parts| ==> PartitionReread(md5, image, parts[p], row[p], copy, parsed[p])
  }

  /** Parsed disks hold the written indexes, freshly hashed, and every other metadata block of the To file. */
  ghost predicate DisksReread(md5: seq<byte> -> Hash, image: seq<byte>, disks: seq<Disk>,
        written: seq<WrittenPartition>, copy: seq<byte>, parsed: seq<Disk>) {
    && |parsed| == |disks|
    && (disks != [] ==>
          var n := |disks[0].partitions|;
          && n <= |written|
          && DiskReread(md5, image, disks[0], written[..n], copy, parsed[0])
          && DisksReread(md5, image, disks[1..], written[n..], copy, parsed[1..]))
  }

  lemma {:induction false} ParsedListOrdered(image: seq<byte>, list: Block.BlockList)
    requires list.blocks != [] && Block.IsList(image, list.blocks[0].offset, list)
    ensures Ordered(list) && list.blocks[|list.blocks| - 1].offset <= |image|
  {
    Block.ChainOffsets(image, list.blocks[0].offset, list.blocks, |list.blocks| - 1);
  }

  lemma {:induction false} PartitionRereads(md5: seq<byte> -> Hash, image: seq<byte>, part: Partition, form: bool,
        written: WrittenPartition, copy: seq<byte>, at: nat)
    requires PartitionParsed(image, part, form) && Representable(written.index)
    requires HoldsAt(copy, at, PartitionBytes(md5, image, part, written.index))
    ensures var r := ParsePartition(copy, at, written.index.blocks.Deltas?);
            && r.Ok? && PartitionReread(md5, image, part, written, copy, r.value)
            && r.value.blocks.end == at + |PartitionBytes(md5, image, part, written.index)|
  {
    hide Block.IsList, ParseIndex, IndexBytes, Block.Walk, Block.Header.ToBytes;
    var list, payload := part.blocks, IndexBytes(written.index);
    var n := |list.blocks|;
    var start, indexAt := list.blocks[0].offset, list.blocks[n - 1].offset;
    ParsedListOrdered(image, list);
    var header := IndexHeader(md5, payload);
    HoldsAtPieces(copy, at, image[start..indexAt], header.ToBytes() + payload);
    HoldsAtPieces(copy, at + indexAt - start, header.ToBytes(), payload);
    var moved := Block.ListWithNewLast(image, start, list, copy, at, header);
    IndexRoundTrip(written.index);
    assert Block.ReadPayload(copy, moved.blocks[n - 1]) == Ok(payload);
    assert Stored(copy, moved.blocks[n - 1]) == payload;
    Format.IndexIff(payload, written.index, written.index.blocks.Deltas?);
  }

  lemma {:induction false} NoRowReread(md5: seq<byte> -> Hash, image: seq<byte>, copy: seq<byte>)
    ensures RowReread(md5, image, [], [], copy, [])
  {
  }

  lemma {:induction false} RowRereadCons(md5: seq<byte> -> Hash, image: seq<byte>, parts: seq<Partition>,
        row: seq<WrittenPartition>, copy: seq<byte>, parsed: seq<Partition>)
    requires |parts| == |row| == |parsed| > 0
    requires PartitionReread(md5, image, parts[0], row[0], copy, parsed[0])
    requires RowReread(md5, image, parts[1..], row[1..], copy, parsed[1..])
    ensures RowReread(md5, image, parts, row, copy, parsed)
  {
    hide PartitionReread;
    forall p | 0 < p < |parts| ensures PartitionReread(md5, image, parts[p], row[p], copy, parsed[p]) {
      assert PartitionReread(md5, image, parts[1..][p - 1], row[1..][p - 1], copy, parsed[1..][p - 1]);
    }
  }

  lemma {:induction false} PartitionsReread(md5: seq<byte> -> Hash, image: seq<byte>, parts: seq<Partition>,
        form: bool, row: seq<WrittenPartition>, delta: bool, copy: seq<byte>, at: nat)
    requires |row| == |parts| && PartitionsOrdered(parts)
    requires forall p :: 0 <= p < |parts| ==> PartitionParsed(image, parts[p], form)
    requires forall p :: 0 <= p < |row| ==> Representable(row[p].index) && row[p].index.blocks.Deltas? == delta
    requires HoldsAt(copy, at, PartitionsBytes(md5, image, parts, row))
    ensures var r := ParsePartitions(copy, |parts|, at, delta);
            && r.Ok? && |r.value.0| == |parts| && RowReread(md5, image, parts, row, copy, r.value.0)
            && r.value.1 == at + |PartitionsBytes(md5, image, parts, row)|
  {
    hide ParsePartition, PartitionParsed, PartitionBytes, Representable, PartitionReread, RowReread;
    if parts == [] {
      NoRowReread(md5, image, copy);
    } else {
      var one := PartitionBytes(md5, image, parts[0], row[0].index);
      var rest := PartitionsBytes(md5, image, parts[1..], row[1..]);
      HoldsAtPieces(copy, at, one, rest);
      hide *;
      PartitionRereads(md5, image, parts[0], form, row[0], copy, at);
      TailOrdered(parts);
      PartitionsReread(md5, image, parts[1..], form, row[1..], delta, copy, at + |one|);
      RowRereadStep(md5, image, parts, row, delta, copy, at, at + |one|, at + |one| + |rest|);
    }
  }

  lemma {:induction false} TailOrdered(parts: seq<Partition>)
    requires parts != [] && PartitionsOrdered(parts)
    ensures PartitionsOrdered(parts[1..])
  {
  }

  lemma {:induction false} RowRereadStep(md5: seq<byte> -> Hash, image: seq<byte>, parts: seq<Partition>,
        row: seq<WrittenPartition>, delta: bool, copy: seq<byte>, at: nat, next: nat, end: nat)
    requires |parts| == |row| > 0
    requires var one := ParsePartition(copy, at, delta);
             && one.Ok? && PartitionReread(md5, image, parts[0], row[0], copy, one.value)
             && one.value.blocks.end == next
    requires var rest := ParsePartitions(copy, |parts| - 1, next, delta);
             && rest.Ok? && |rest.value.0| == |parts| - 1
             && RowReread(md5, image, parts[1..], row[1..], copy, rest.value.0) && rest.value.1 == end
    ensures var r := ParsePartitions(copy, |parts|, at, delta);
            && r.Ok? && |r.value.0| == |parts|
            && RowReread(md5, image, parts, row, copy, r.value.0) && r.value.1 == end
  {
    hide ParsePartition, PartitionReread, RowReread;
    var first, rest := ParsePartition(copy, at, delta).value, ParsePartitions(copy, |parts| - 1, next, delta).value;
    assert ([first] + rest.0)[1..] == rest.0;
    RowRereadCons(md5, image, parts, row, copy, [first] + rest.0);
  }

  lemma {:induction false} DiskListRereads(image: seq<byte>, disk: Disk, form: bool, copy: seq<byte>, at: nat)
    requires DiskParsed(image, disk, form) && disk.blocks.end <= |image|
    requires HoldsAt(copy, at, Span(image, disk.blocks.blocks[0].offset, disk.blocks.end))
    ensures var r := Block.Walk(copy, at);
            && r.Ok? && ListKept(image, disk.blocks, copy, r.value, 0)
            && r.value.end == at + |Span(image, disk.blocks.blocks[0].offset, disk.blocks.end)|
  {
    hide Block.Walk, Block.IsList;
    var start := disk.blocks.blocks[0].offset;
    ParsedListOrdered(image, disk.blocks);
    var moved := Block.ListMoves(image, start, disk.blocks, copy, at);
  }

  ghost predicate DiskReread(md5: seq<byte> -> Hash, image: seq<byte>, disk: Disk, row: seq<WrittenPartition>,
        copy: seq<byte>, parsed: Disk) {
    && ListKept(image, disk.blocks, copy, parsed.blocks, 0)
    && RowReread(md5, image, disk.partitions, row, copy, parsed.partitions)
  }

  lemma {:induction false} DiskRereads(md5: seq<byte> -> Hash, image: seq<byte>, disk: Disk, form: bool,
        row: seq<WrittenPartition>, d: nat, delta: bool, copy: seq<byte>, at: nat)
    requires |row| == |disk.partitions| && Ordered(disk.blocks) && PartitionsOrdered(disk.partitions) && RowFits(row, d)
    requires DiskParsed(image, disk, form) && disk.blocks.end <= |image|
    requires forall p :: 0 <= p < |row| ==> row[p].index.blocks.Deltas? == delta
    requires HoldsAt(copy, at, DiskBytes(md5, image, disk, row))
    ensures var list := Block.Walk(copy, at);
            && list.Ok?
            && var parts := ParsePartitions(copy, |disk.partitions|, list.value.end, delta);
               && parts.Ok?
               && DiskReread(md5, image, disk, row, copy, Disk(list.value, parts.value.0))
               && parts.value.1 == at + |DiskBytes(md5, image, disk, row)|
  {
    hide Block.Walk, ParsePartitions, PartitionParsed, PartitionsBytes, ListKept, RowReread, Representable, Span,
      Block.IsList;
    var list := Span(image, disk.blocks.blocks[0].offset, disk.blocks.end);
    HoldsAtPieces(copy, at, list, PartitionsBytes(md5, image, disk.partitions, row));
    DiskListRereads(image, disk, form, copy, at);
    PartitionsReread(md5, image, disk.partitions, form, row, delta, copy, at + |list|);
  }

  lemma {:induction false} DisksRereads(md5: seq<byte> -> Hash, image: seq<byte>, disks: seq<Disk>, form: bool,
        written: seq<WrittenPartition>, d: nat, delta: bool, copy: seq<byte>, at: nat)
    requires |written| == PartitionTotal(disks) && DisksOrdered(disks) && RegionDescribes(disks, written, d)
    requires forall k :: 0 <= k < |disks| ==> DiskParsed(image, disks[k], form) && disks[k].blocks.end <= |image|
    requires forall k :: 0 <= k < |written| ==> written[k].index.blocks.Deltas? == delta
    requires HoldsAt(copy, at, DisksBytes(md5, image, disks, written))
    ensures var r := ParseDisks(copy, ShapeOf(disks), at, delta);
            && r.Ok? && DisksReread(md5, image, disks, written, copy, r.value.0)
            && r.value.1 == at + |DisksBytes(md5, image, disks, written)|
  {
    hide Block.Walk, ParsePartitions, DiskParsed, DiskBytes, DiskReread, RowFits;
    if disks != [] {
      var n := |disks[0].partitions|;
      var one := DiskBytes(md5, image, disks[0], written[..n]);
      HoldsAtPieces(copy, at, one, DisksBytes(md5, image, disks[1..], written[n..]));
      DiskRereads(md5, image, disks[0], form, written[..n], d, delta, copy, at);
      DisksRereads(md5, image, disks[1..], form, written[n..], d + 1, delta, copy, at + |one|);
      assert ShapeOf(disks)[1..] == ShapeOf(disks[1..]);
    }
  }

  lemma {:induction false} SlotBaseShifts(disks: seq<Disk>, d: nat)
    requires 0 < d <= |disks|
    ensures SlotBase(ShapeOf(disks), d) == |disks[0].partitions| + SlotBase(ShapeOf(disks[1..]), d - 1)
  {
    if d > 1 {
      SlotBaseShifts(disks, d - 1);
    }
  }

  /** Reparsed disks have the To file's shape, and hold at each place the index written for its slot. */
  lemma {:induction false} IndexAtSlot(md5: seq<byte> -> Hash, image: seq<byte>, disks: seq<Disk>,
        written: seq<WrittenPartition>, copy: seq<byte>, parsed: seq<Disk>, d: nat, p: nat)
    requires DisksReread(md5, image, disks, written, copy, parsed) && d < |disks|
    ensures |parsed[d].partitions| == |disks[d].partitions|
    ensures p < |disks[d].partitions| ==>
              var k := Slot(ShapeOf(disks), d, p);
              && k < |written| && parsed[d].partitions[p].index == written[k].index
              && EndsWithFresh(md5, copy, parsed[d].partitions[p].blocks, written[k].index)
  {
    hide EndsWithFresh;
    var n := |disks[0].partitions|;
    if d == 0 {
      assert p < n ==>
          PartitionReread(md5, image, disks[0].partitions[p], written[..n][p], copy, parsed[0].partitions[p]);
    } else {
      IndexAtSlot(md5, image, disks[1..], written[n..], copy, parsed[1..], d - 1, p);
      SlotBaseShifts(disks, d);
    }
  }

  lemma {:induction false} SameShape(md5: seq<byte> -> Hash, image: seq<byte>, disks: seq<Disk>,
        written: seq<WrittenPartition>, copy: seq<byte>, parsed: seq<Disk>)
    requires DisksReread(md5, image, disks, written, copy, parsed)
    ensures ShapeOf(parsed) == ShapeOf(disks)
  {
    hide DiskReread;
    forall d | 0 <= d < |disks| ensures |parsed[d].partitions| == |disks[d].partitions| {
      IndexAtSlot(md5, image, disks, written, copy, parsed, d, 0);
    }
  }

  // ----- the root list -----

  /** The writer copies `$AUXDATA` with its own flags and relies on it ending its list. */
  ghost predicate AuxEndsList(to: BackupFile) {
    AuxOf(to).Some? ==> AuxOf(to).value.header.flags.lastBlock
  }

  lemma {:induction false} AuxHeaderMoves(to: BackupFile, copy: seq<byte>, at: nat)
    requires Block.IsList(to.image, to.rootAt, to.rootList)
    requires AuxOf(to).Some? && AuxOf(to).value.End() <= |to.image|
    requires HoldsAt(copy, at, AuxBytes(to))
    ensures |AuxBytes(to)| == Block.HEADER_LEN + AuxOf(to).value.header.blockLength
    ensures Block.HeaderAt(copy, Block.Located(AuxOf(to).value.header, at))
    ensures Block.SameBlock(to.image, AuxOf(to).value, copy, Block.Located(AuxOf(to).value.header, at))
  {
    var aux := AuxOf(to).value;
    var k :| 0 <= k < |to.rootList.blocks| && to.rootList.blocks[k] == aux;
    assert Block.HeaderAt(to.image, aux);
    Block.HeaderMoves(to.image, aux.offset, aux.End(), aux, copy, at);
    Block.BlockMoves(to.image, aux.offset, aux.End(), aux, copy, at);
  }

  /**
   * The root list of an output: a plain `$JSON` with the document, hashed, and To's first `$AUXDATA` with its payload,
   * where there is one.
   */
  ghost predicate RootKept(f: Foreign, to: BackupFile, document: seq<byte>, out: seq<byte>, list: Block.BlockList) {
    && |list.blocks| == (if AuxOf(to).Some? then 2 else 1)
    && var json := list.blocks[0];
       && json.header.name == [36, 74, 83, 79, 78, 32, 32, 32]
       && !json.header.flags.compression && !json.header.flags.encryption
       && (json.header.flags.lastBlock <==> AuxOf(to).None?)
       && json.offset + 32 + json.header.blockLength <= |out|
       && Stored(out, json) == document && json.header.hash == f.md5(document)
       && (AuxOf(to).Some? ==> Block.SameBlock(to.image, AuxOf(to).value, out, list.blocks[1]))
  }

  /** The root list of an output is `$JSON`, then `$AUXDATA` if there is one; it ends only if that ends it. */
  lemma {:induction false} RootRereads(f: Foreign, to: BackupFile, document: seq<byte>, out: seq<byte>, rootAt: nat,
        footer: seq<byte>)
    requires Block.IsList(to.image, to.rootAt, to.rootList) && |document| < U32_LIMIT
    requires AuxOf(to).Some? ==> AuxOf(to).value.End() <= |to.image|
    requires |footer| == Block.FOOTER_LEN
    requires HoldsAt(out, rootAt, (JsonHeader(f, to, document).ToBytes() + document) + (AuxBytes(to) + footer))
    requires |out| == rootAt + Block.HEADER_LEN + |document| + |AuxBytes(to)| + Block.FOOTER_LEN
    ensures var json, r := Block.Located(JsonHeader(f, to, document), rootAt), Block.Walk(out, rootAt);
            && (r.Ok? <==> AuxEndsList(to))
            && (r.Ok? ==> r.value.blocks != [] && r.value.blocks[0] == json && r.value.end + Block.FOOTER_LEN == |out|)
            && (r.Ok? ==> RootKept(f, to, document, out, r.value))
            && Block.ReadPayload(out, json) == Ok(document)
  {
    hide Block.Header.ToBytes, Block.Header.Parse, Block.IsList, AuxBytes, AuxOf, Block.WalkFrom;
    var header := JsonHeader(f, to, document);
    HoldsAtPieces(out, rootAt, header.ToBytes() + document, AuxBytes(to) + footer);
    HoldsAtPieces(out, rootAt, header.ToBytes(), document);
    Block.HeaderRoundTrip(header);
    var json := Block.Located(header, rootAt);
    Block.WalkStep(out, json, []);
    assert [] + [json] == [json];
    if AuxOf(to).Some? {
      HoldsAtPieces(out, json.End(), AuxBytes(to), footer);
      AuxHeaderMoves(to, out, json.End());
      AuxWalk(out, json, Block.Located(AuxOf(to).value.header, json.End()));
    } else {
      NoAux(to);
    }
  }

  lemma {:induction false} NoAux(to: BackupFile)
    requires AuxOf(to).None?
    ensures AuxBytes(to) == [] && AuxEndsList(to)
  {
  }

  /** Past a second header that does not end the list, only the footer is left, which is no header. */
  lemma {:induction false} AuxWalk(out: seq<byte>, json: Block.Located, aux: Block.Located)
    requires Block.HeaderAt(out, aux) && aux.offset == json.End() && aux.End() + Block.FOOTER_LEN == |out|
    ensures var r := Block.WalkFrom(out, json.End(), [json]);
            if aux.header.flags.lastBlock then r == Ok(Block.BlockList([json, aux], aux.End())) else r.Err?
  {
    hide Block.HeaderAt;
    Block.WalkStep(out, aux, [json]);
    assert [json] + [aux] == [json, aux];
  }

  // ----- the whole file -----

  lemma {:induction false} ParsedIsOrdered(f: Foreign, file: BackupFile)
    requires ParseFile(f, file.path, file.image) == Ok(file)
    ensures DisksOrdered(file.disks) && SpansAreOrdered(file)
    ensures forall d :: 0 <= d < |file.disks| ==> DiskEndsWithin(file.disks[d], |file.image|)
  {
    hide Block.IsList;
    ParsedStructure(f, file.path, file.image);
    forall d | 0 <= d < |file.disks|
      ensures Ordered(file.disks[d].blocks) && PartitionsOrdered(file.disks[d].partitions)
      ensures DiskEndsWithin(file.disks[d], |file.image|)
    {
      var disk := file.disks[d];
      assert DiskParsed(file.image, disk, file.Header().deltaIndex);
      ListOrdered(file.image, disk.blocks);
      forall p | 0 <= p < |disk.partitions| ensures Ordered(disk.partitions[p].blocks) {
        assert PartitionParsed(file.image, disk.partitions[p], file.Header().deltaIndex);
        ListOrdered(file.image, disk.partitions[p].blocks);
      }
    }
  }

  lemma {:induction false} ListOrdered(image: seq<byte>, list: Block.BlockList)
    requires list.blocks != [] && Block.IsList(image, list.blocks[0].offset, list)
    ensures Ordered(list)
  {
    ParsedListOrdered(image, list);
  }

  lemma {:induction false} WrittenForms(plan: MergePlan, source: Source, outNumber: u16, data: DataRegion,
        out: seq<byte>)
    requires RegionWritten(plan, source, outNumber, data, out)
    ensures forall k :: 0 <= k < |data.partitions| ==> data.partitions[k].index.blocks.Deltas? == plan.kind.DeltaIndex()
  {
    forall k | 0 <= k < |data.partitions|
      ensures data.partitions[k].index.blocks.Deltas? == plan.kind.DeltaIndex()
    {
      assert PartitionWritten(plan.kind, plan.partitions[k], data.partitions[k], Layout(plan), outNumber);
    }
  }

  lemma {:induction false} PartsOfOutput(a: seq<byte>, b: seq<byte>, c: seq<byte>, d: seq<byte>, e: seq<byte>,
        out: seq<byte>)
    requires out == a + b + c + d + e
    ensures HoldsAt(out, |a|, b) && HoldsAt(out, |a| + |b|, c + (d + e)) && out[|out| - |e|..] == e
  {
    var abc := a + b + c;
    assert out == (a + b) + (c + (d + e));
    assert out == (abc + d) + e;
    assert out[|a|..|a| + |b|] == b;
  }

  /** The region between data and root list reads back; stated apart from the root list. */
  lemma {:induction false} RegionRereads(f: Foreign, to: BackupFile, plan: MergePlan, source: Source, stamp: Stamp,
        w: WrittenFile, out: seq<byte>)
    requires ParseFile(f, to.path, to.image) == Ok(to) && !to.Header().splitFile
    requires DisksOrdered(to.disks) && OutputWritten(f, to, plan, source, stamp, w, out)
    ensures var doc := PatchedDoc(f, to, plan, w.data.end, stamp).value;
            var r := ParseRegion(out, doc, w.rootAt);
            r.Ok? && DisksReread(f.md5, to.image, to.disks, w.data.partitions, out, r.value)
  {
    hide Block.IsList, Block.FooterBytes, Block.Header.ToBytes, DisksBytes, DisksReread, RegionDescribes,
      RegionWritten, PatchedHeader, ParseDisks, JsonHeader, DiskParsed, AuxBytes, PatchedDoc;
    ParsedStructure(f, to.path, to.image);
    var data := w.data;
    var doc := PatchedDoc(f, to, plan, data.end, stamp).value;
    var document := f.encode(doc);
    var metadata := DisksBytes(f.md5, to.image, to.disks, data.partitions);
    PartsOfOutput(out[..data.end], metadata, JsonHeader(f, to, document).ToBytes() + document,
                  AuxBytes(to), Block.FooterBytes(w.rootAt), out);
    WrittenForms(plan, source, plan.outFileNumber, data, out[..data.end]);
    DisksRereads(f.md5, to.image, to.disks, to.Header().deltaIndex, data.partitions, 0, plan.kind.DeltaIndex(), out,
          data.end);
    PatchedDocFields(f, to, plan, data.end, stamp);
    assert doc.Shape() == to.doc.Shape() == ShapeOf(to.disks);
    DisksParsed(out, doc.Shape(), data.end, plan.kind.DeltaIndex());
  }

  /** The footer and root list read back, exactly when `$AUXDATA` ends its list. */
  lemma {:induction false} TailRereads(f: Foreign, to: BackupFile, plan: MergePlan, source: Source, stamp: Stamp,
        w: WrittenFile, out: seq<byte>)
    requires f.RoundTrips()
    requires ParseFile(f, to.path, to.image) == Ok(to)
    requires DisksOrdered(to.disks) && OutputWritten(f, to, plan, source, stamp, w, out)
    ensures Block.ReadFooter(out) == Ok(w.rootAt)
    ensures var doc := PatchedDoc(f, to, plan, w.data.end, stamp).value;
            var list := Block.Walk(out, w.rootAt);
            && (list.Ok? <==> AuxEndsList(to))
            && (list.Ok? ==> && ParseDoc(f, out, list.value) == Ok((f.encode(doc), doc))
                             && list.value.end + Block.FOOTER_LEN == |out|
                             && RootKept(f, to, f.encode(doc), out, list.value))
  {
    hide Block.IsList, Block.FooterBytes, Block.Header.ToBytes, RegionDescribes, OutputWritten, AuxBytes, AuxOf,
      AuxEndsList, RegionWritten, PatchedHeader, PatchedDoc, Block.Walk, ParseDisks, ParseRegion, DisksOrdered,
      Block.ReadFooter;
    ParsedRoot(f, to);
    var doc, footer := TailLayout(f, to, plan, source, stamp, w, out);
    Block.FooterRoundTrip(out, w.rootAt);
    RootRereads(f, to, f.encode(doc), out, w.rootAt, footer);
  }

  lemma {:induction false} ParsedRoot(f: Foreign, to: BackupFile)
    requires ParseFile(f, to.path, to.image) == Ok(to)
    ensures Block.IsList(to.image, to.rootAt, to.rootList)
  {
    hide Block.IsList;
    ParsedStructure(f, to.path, to.image);
  }

  /** Where the root list and the footer of an output lie. */
  lemma {:induction false} TailLayout(f: Foreign, to: BackupFile, plan: MergePlan, source: Source, stamp: Stamp,
        w: WrittenFile, out: seq<byte>)
    returns (doc: Doc, footer: seq<byte>)
    requires DisksOrdered(to.disks) && OutputWritten(f, to, plan, source, stamp, w, out)
    ensures PatchedDoc(f, to, plan, w.data.end, stamp) == Ok(doc) && |f.encode(doc)| < U32_LIMIT
    ensures AuxOf(to).Some? ==> AuxOf(to).value.End() <= |to.image|
    ensures footer == Block.FooterBytes(w.rootAt) && |footer| == Block.FOOTER_LEN <= |out|
    ensures out[|out| - Block.FOOTER_LEN..] == footer
    ensures var document := f.encode(doc);
            && HoldsAt(out, w.rootAt, (JsonHeader(f, to, document).ToBytes() + document) + (AuxBytes(to) + footer))
            && |out| == w.rootAt + Block.HEADER_LEN + |document| + |AuxBytes(to)| + Block.FOOTER_LEN
  {
    hide Block.FooterBytes, Block.Header.ToBytes, DisksBytes, RegionDescribes, RegionWritten, PatchedDoc, AuxBytes,
      AuxOf;
    doc, footer := PatchedDoc(f, to, plan, w.data.end, stamp).value, Block.FooterBytes(w.rootAt);
    var document := f.encode(doc);
    var metadata := DisksBytes(f.md5, to.image, to.disks, w.data.partitions);
    PartsOfOutput(out[..w.data.end], metadata, JsonHeader(f, to, document).ToBytes() + document, AuxBytes(to), footer,
          out);
  }

  /**
   * What is written can be read. The reader accepts an output exactly when `$AUXDATA` is absent or
   * ends its list; it then finds the patched document, the written indexes, every other metadata
   * block of the To file, and the footer right after the root list.
   */
  lemma {:induction false} PrintThenParse(f: Foreign, to: BackupFile, plan: MergePlan, source: Source, stamp: Stamp,
        w: WrittenFile, out: seq<byte>, path: string)
    requires f.RoundTrips()
    requires ParseFile(f, to.path, to.image) == Ok(to) && !to.Header().splitFile
    requires DisksOrdered(to.disks) && OutputWritten(f, to, plan, source, stamp, w, out)
    ensures var r := ParseFile(f, path, out);
            && (r.Ok? <==> AuxEndsList(to))
            && (r.Ok? ==> && r.value.path == path && r.value.image == out && r.value.rootAt == w.rootAt
                          && Ok(r.value.doc) == PatchedDoc(f, to, plan, w.data.end, stamp)
                          && DisksReread(f.md5, to.image, to.disks, w.data.partitions, out, r.value.disks)
                          && RootKept(f, to, f.encode(r.value.doc), out, r.value.rootList)
                          && |out| == r.value.rootList.end + 20)
  {
    hide Block.ReadFooter, Block.Walk, ParseDoc, ParseRegion, DisksReread, RegionDescribes, RegionWritten, DisksBytes,
      PatchedDoc;
    RegionRereads(f, to, plan, source, stamp, w, out);
    TailRereads(f, to, plan, source, stamp, w, out);
  }

  /** Where the plan of a partition has a hole, the written index is blank. */
  lemma {:induction false} HolesAreBlank(kind: MergeKind, part: PartitionPlan, written: WrittenPartition,
        order: seq<Key>, outNumber: u16)
    requires PartitionWritten(kind, part, written, order, outNumber)
    ensures |written.index.reserved| == |part.reserved| && written.index.blocks.Length() == |part.blocks|
    ensures forall j :: 0 <= j < |part.reserved| && part.reserved[j].Hole? ==> IsBlank(written.index.reserved[j])
    ensures match written.index.blocks
            case Full(es) => forall j :: 0 <= j < |es| && part.blocks[j].Hole? ==> IsBlank(es[j])
            case Deltas(ds) => forall j :: 0 <= j < |ds| && part.blocks[j].Hole? ==> IsBlank(ds[j].element)
  {
    forall j | 0 <= j < |part.reserved| && part.reserved[j].Hole? ensures IsBlank(written.index.reserved[j]) {
      assert EntryMatches(part.reserved[j], written.index.reserved[j], order, outNumber);
    }
    match written.index.blocks
    case Full(es) =>
      forall j | 0 <= j < |es| && part.blocks[j].Hole? ensures IsBlank(es[j]) {
        assert EntryMatches(part.blocks[j], es[j], order, outNumber);
      }
    case Deltas(ds) =>
      forall j | 0 <= j < |ds| && part.blocks[j].Hole? ensures IsBlank(ds[j].element) {
        assert EntryMatches(part.blocks[j], DeltaElements(ds)[j], order, outNumber);
      }
  }

  /** The thirty bytes of every planned hole in the `$INDEX` of an output are zero, in either form of the index. */
  lemma {:induction false} HolesAreZeros(f: Foreign, to: BackupFile, plan: MergePlan, source: Source, stamp: Stamp,
        w: WrittenFile, out: seq<byte>, path: string, d: nat, p: nat)
    requires f.RoundTrips() && AuxEndsList(to)
    requires ParseFile(f, to.path, to.image) == Ok(to) && !to.Header().splitFile
    requires DisksOrdered(to.disks) && OutputWritten(f, to, plan, source, stamp, w, out)
    requires d < |to.disks| && p < |to.disks[d].partitions| && |plan.partitions| == SlotBase(to.Shape(), |to.disks|)
    ensures var r, k := ParseFile(f, path, out), Slot(to.Shape(), d, p);
            && r.Ok? && d < |r.value.disks| && p < |r.value.disks[d].partitions| && k < |plan.partitions|
            && var part, blocks := plan.partitions[k], r.value.disks[d].partitions[p].blocks.blocks;
               && blocks != []
               && var at, stride := blocks[|blocks| - 1].offset + 32, if plan.kind == SyntheticFull then 30 else 34;
                  && (forall j :: 0 <= j < |part.reserved| && part.reserved[j].Hole? ==>
                        Format.ZerosAt(out, at + 4 + j * 30))
                  && forall j :: 0 <= j < |part.blocks| && part.blocks[j].Hole? ==>
                       Format.ZerosAt(out, at + 8 + |part.reserved| * 30 + j * stride)
  {
    hide ParseFile, OutputWritten, DisksReread, PartitionWritten, AuxEndsList, RegionWritten, Format.ZerosAt,
      Format.IsPayload, IsBlank, RootKept, DisksOrdered, PatchedDoc;
    PrintThenParse(f, to, plan, source, stamp, w, out, path);
    var parsed, k := ParseFile(f, path, out).value, Slot(to.Shape(), d, p);
    SameShape(f.md5, to.image, to.disks, w.data.partitions, out, parsed.disks);
    IndexAtSlot(f.md5, to.image, to.disks, w.data.partitions, out, parsed.disks, d, p);
    RegionOfOutput(f, to, plan, source, stamp, w, out, k);
    var written := w.data.partitions[k];
    HolesAreBlank(plan.kind, plan.partitions[k], written, Layout(plan), plan.outFileNumber);
    var blocks := parsed.disks[d].partitions[p].blocks.blocks;
    var last := blocks[|blocks| - 1];
    Format.BlanksAreZeros(Stored(out, last), written.index, written.index.blocks.Deltas?);
    ZerosInStored(out, last);
  }

  lemma {:induction false} RegionOfOutput(f: Foreign, to: BackupFile, plan: MergePlan, source: Source, stamp: Stamp,
        w: WrittenFile, out: seq<byte>, k: nat)
    requires DisksOrdered(to.disks) && OutputWritten(f, to, plan, source, stamp, w, out)
    requires k < |w.data.partitions|
    ensures k < |plan.partitions|
    ensures PartitionWritten(plan.kind, plan.partitions[k], w.data.partitions[k], Layout(plan), plan.outFileNumber)
    ensures w.data.partitions[k].index.blocks.Deltas? == (plan.kind != SyntheticFull)
  {
    hide PatchedDoc, RegionDescribes, Block.FooterBytes, Block.Header.ToBytes, DisksBytes, AuxBytes;
    assert RegionWritten(plan, source, plan.outFileNumber, w.data, out[..w.data.end]);
  }

  lemma {:induction false} ZerosInStored(out: seq<byte>, block: Block.Located)
    requires block.offset + 32 + block.header.blockLength <= |out|
    ensures forall at: nat :: Format.ZerosAt(Stored(out, block), at) ==> Format.ZerosAt(out, block.offset + 32 + at)
  {
    forall at: nat | Format.ZerosAt(Stored(out, block), at) ensures Format.ZerosAt(out, block.offset + 32 + at) {
      var start, stored := block.offset + 32, Stored(out, block);
      SliceOfSlice(out, start, start + block.header.blockLength, at, at + 30);
      Format.ZeroSlice(out, start + at, stored[at..at + 30]);
    }
  }

  lemma {:induction false} PatchedDocFields(f: Foreign, to: BackupFile, plan: MergePlan, position: u64, stamp: Stamp)
    requires PatchedDoc(f, to, plan, position, stamp).Ok?
    ensures var doc := PatchedDoc(f, to, plan, position, stamp).value;
            && doc.disks == to.doc.disks && doc.settings == to.doc.settings
            && doc.header == PatchedHeader(to.doc.header, plan, position)
            && !doc.header.splitFile && doc.header.indexFilePosition == position
            && doc.header.deltaIndex == plan.kind.DeltaIndex()
            && doc.header.fileNumber == plan.outFileNumber
  {
  }

  // ----- size -----

  function RowSizes(row: seq<WrittenPartition>): int {
    if row == [] then 0 else Block.HEADER_LEN + |IndexBytes(row[0].index)| + RowSizes(row[1..])
  }

  lemma {:induction false} RowSizesOfConcat(a: seq<WrittenPartition>, b: seq<WrittenPartition>)
    ensures RowSizes(a + b) == RowSizes(a) + RowSizes(b)
  {
    if a == [] {
      assert a + b == b;
    } else {
      assert (a + b)[1..] == a[1..] + b;
      RowSizesOfConcat(a[1..], b);
    }
  }

  lemma {:induction false} NoRowSize()
    ensures RowSizes([]) == 0
  {
  }

  lemma {:induction false} PartitionSize(md5: seq<byte> -> Hash, image: seq<byte>, part: Partition,
        index: PartitionIndex)
    requires Ordered(part.blocks) && part.blocks.end <= |image|
    ensures |PartitionBytes(md5, image, part, index)| == SpanBeforeIndex(part) + Block.HEADER_LEN + |IndexBytes(index)|
  {
  }

  lemma {:induction false} PartitionsSize(md5: seq<byte> -> Hash, image: seq<byte>, parts: seq<Partition>,
        row: seq<WrittenPartition>)
    requires |row| == |parts| && PartitionsOrdered(parts) && PartitionsEndWithin(parts, |image|)
    ensures |PartitionsBytes(md5, image, parts, row)| == PartitionSpans(parts) + RowSizes(row)
  {
    hide PartitionBytes, SpanBeforeIndex, IndexBytes;
    if parts != [] {
      PartitionSize(md5, image, parts[0], row[0].index);
      PartitionsSize(md5, image, parts[1..], row[1..]);
    }
  }

  lemma {:induction false} DisksSize(md5: seq<byte> -> Hash, image: seq<byte>, disks: seq<Disk>,
        written: seq<WrittenPartition>)
    requires |written| == PartitionTotal(disks) && DisksOrdered(disks)
    requires forall d :: 0 <= d < |disks| ==> DiskEndsWithin(disks[d], |image|)
    ensures |DisksBytes(md5, image, disks, written)| == DiskSpans(disks) + RowSizes(written)
  {
    hide PartitionsBytes, PartitionSpans, RowSizes;
    if disks == [] {
      assert written == [];
      NoRowSize();
    } else {
      var n := |disks[0].partitions|;
      PartitionsSize(md5, image, disks[0].partitions, written[..n]);
      DisksSize(md5, image, disks[1..], written[n..]);
      RowSizesOfConcat(written[..n], written[n..]);
      assert written == written[..n] + written[n..];
    }
  }

  lemma {:induction false} IndexSizesAgree(kind: MergeKind, plans: seq<PartitionPlan>, written: seq<WrittenPartition>,
        order: seq<Key>, outNumber: u16)
    requires PartitionsWritten(kind, plans, written, order, outNumber)
    ensures RowSizes(written) == IndexSizes(plans, kind)
  {
    if plans != [] {
      assert PartitionWritten(kind, plans[0], written[0], order, outNumber);
      IndexLength(written[0].index);
      forall k | 0 <= k < |plans| - 1
        ensures PartitionWritten(kind, plans[1..][k], written[1..][k], order, outNumber)
      {
        assert PartitionWritten(kind, plans[k + 1], written[k + 1], order, outNumber);
      }
      IndexSizesAgree(kind, plans[1..], written[1..], order, outNumber);
    }
  }

  /**
   * The announced size is exact but for two terms: the alignment saved by copies the duplicate map
   * avoided, and what the document's patch did not use of its allowance.
   */
  lemma {:induction false} SizeIsAccounted(f: Foreign, to: BackupFile, plan: MergePlan, source: Source, stamp: Stamp,
        w: WrittenFile, out: seq<byte>)
    requires DisksOrdered(to.disks) && OutputWritten(f, to, plan, source, stamp, w, out)
    requires forall d :: 0 <= d < |to.disks| ==> DiskEndsWithin(to.disks[d], |to.image|)
    requires plan.metadataBytes == MetadataEstimate(to, plan.partitions, plan.kind)
    ensures PatchedDoc(f, to, plan, w.data.end, stamp).Ok?
    ensures w.data.payloadBytes + TotalLength(Repeats(PlanKeys(plan.partitions))) == plan.BytesToCopy()
    ensures var saved := Block.AlignUp(plan.BytesToCopy()) - Block.AlignUp(w.data.payloadBytes);
            var unused := |to.jsonRaw| + DOCUMENT_ALLOWANCE - |f.encode(PatchedDoc(f, to, plan, w.data.end,
                  stamp).value)|;
            && saved >= 0
            && w.size == plan.ProjectedSize() - saved - unused
            && (unused >= 0 ==> w.size <= plan.ProjectedSize())
  {
    hide OutputWritten, Block.AlignUp, FirstSeen, Repeats, TotalLength, AllActions, SumBytes, CopyKeys, PatchedDoc,
      DiskSpans, IndexSizes, DisksOrdered, AuxSize;
    OutputSize(f, to, plan, source, stamp, w, out);
    PlannedBytes(AllActions(plan.partitions));
    RepeatsAccount(PlanKeys(plan.partitions));
    AlignIsMonotone(w.data.payloadBytes, plan.BytesToCopy());
  }

  lemma {:induction false} OutputSize(f: Foreign, to: BackupFile, plan: MergePlan, source: Source, stamp: Stamp,
        w: WrittenFile, out: seq<byte>)
    requires DisksOrdered(to.disks) && OutputWritten(f, to, plan, source, stamp, w, out)
    requires forall d :: 0 <= d < |to.disks| ==> DiskEndsWithin(to.disks[d], |to.image|)
    ensures PatchedDoc(f, to, plan, w.data.end, stamp).Ok?
    ensures w.data.payloadBytes == TotalLength(Layout(plan))
    ensures w.size == Block.AlignUp(w.data.payloadBytes) + DiskSpans(to.disks) + IndexSizes(plan.partitions, plan.kind)
                      + Block.HEADER_LEN + |f.encode(PatchedDoc(f, to, plan, w.data.end, stamp).value)|
                      + AuxSize(to) + Block.FOOTER_LEN
  {
    hide DisksBytes, RegionDescribes, PatchedHeader, Block.Header.ToBytes, Block.FooterBytes, PartitionsWritten,
      IndexBytes, Payload, FirstSeen, TotalLength, Copyable, DisksOrdered, DiskEndsWithin, DiskSpans, IndexSizes,
      RowSizes, AuxBytes, AuxSize, AuxOf;
    AuxBytesLength(to);
    DisksSize(f.md5, to.image, to.disks, w.data.partitions);
    IndexSizesAgree(plan.kind, plan.partitions, w.data.partitions, Layout(plan), plan.outFileNumber);
  }

  lemma {:induction false} AuxBytesLength(to: BackupFile)
    requires AuxOf(to).Some? ==> AuxOf(to).value.End() <= |to.image|
    ensures |AuxBytes(to)| == AuxSize(to)
  {
  }

  lemma {:induction false} AlignIsMonotone(a: nat, b: nat)
    requires a <= b
    ensures Block.AlignUp(a) <= Block.AlignUp(b)
  {
  }
}
