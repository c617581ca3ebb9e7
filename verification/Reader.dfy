/** One parsed backup file: the cursor walk over the metadata lists and the index that ends each. */
module Reader {
  import opened Wrappers
  import opened Bytes
  import opened Index
  import Block
  import opened Json

  /** One partition's metadata list, `$INDEX` last, and the index itself. */
  datatype Partition = Partition(blocks: Block.BlockList, index: PartitionIndex)

  datatype Disk = Disk(blocks: Block.BlockList, partitions: seq<Partition>)

  /** A parsed file and the bytes it was parsed from. A split continuation has no disks. */
  datatype BackupFile = BackupFile(
    path: string,
    image: seq<byte>,
    jsonRaw: seq<byte>,
    doc: Doc,
    rootAt: nat,
    rootList: Block.BlockList,
    disks: seq<Disk>)
  {
    function Header(): Json.Header {
      doc.header
    }

    function Shape(): (shape: seq<nat>)
      ensures |shape| == |disks|
    {
      ShapeOf(disks)
    }
  }

  /** The partition count of each disk. */
  function ShapeOf(disks: seq<Disk>): (shape: seq<nat>)
    ensures |shape| == |disks|
    ensures forall d :: 0 <= d < |disks| ==> shape[d] == |disks[d].partitions|
  {
    seq(|disks|, d requires 0 <= d < |disks| => |disks[d].partitions|)
  }

  // ----- the parse, as functions of the bytes -----

  function ParsePartition(image: seq<byte>, at: nat, deltaIndex: bool): (r: Result<Partition>)
    ensures r.Ok? ==> Block.Walk(image, at) == Ok(r.value.blocks)
  {
    var list :- Block.Walk(image, at);
    Block.WalkIffList(image, at, list);
    var last := list.blocks[|list.blocks| - 1];
    if last.header.name != Block.INDEX then Err("partition metadata does not end with $INDEX")
    else if last.header.flags.compression || last.header.flags.encryption then Err("$INDEX is not stored plain")
    else
      var raw :- Block.ReadPayload(image, last);
      var index :- ParseIndex(raw, deltaIndex);
      Ok(Partition(list, index))
  }

  function ParsePartitions(image: seq<byte>, count: nat, at: nat, deltaIndex: bool): Result<(seq<Partition>, nat)> {
    if count == 0 then Ok(([], at))
    else
      var first :- ParsePartition(image, at, deltaIndex);
      var rest :- ParsePartitions(image, count - 1, first.blocks.end, deltaIndex);
      Ok(([first] + rest.0, rest.1))
  }

  function ParseDisks(image: seq<byte>, shape: seq<nat>, at: nat, deltaIndex: bool): Result<(seq<Disk>, nat)> {
    if shape == [] then Ok(([], at))
    else
      var list :- Block.Walk(image, at);
      var parts :- ParsePartitions(image, shape[0], list.end, deltaIndex);
      var rest :- ParseDisks(image, shape[1..], parts.1, deltaIndex);
      Ok(([Disk(list, parts.0)] + rest.0, rest.1))
  }

  function ParseRegion(image: seq<byte>, doc: Doc, rootAt: nat): Result<seq<Disk>> {
    if doc.header.splitFile then Ok([])
    else if doc.header.indexFilePosition >= rootAt then Err("index_file_position is not below the root list")
    else
      var region :- ParseDisks(image, doc.Shape(), doc.header.indexFilePosition, doc.header.deltaIndex);
      if region.1 == rootAt then Ok(region.0) else Err("the block walk drifted")
  }

  function ParseDoc(f: Foreign, image: seq<byte>, rootList: Block.BlockList): Result<(seq<byte>, Doc)> {
    match Block.Find(rootList.blocks, Block.JSON)
    case None => Err("the root block list holds no $JSON block")
    case Some(block) =>
      if block.header.flags.encryption then Err("the $JSON block is marked encrypted")
      else
        var raw :- Block.ReadBlock(f.md5, f.unzip, image, block);
        match f.decode(raw)
        case None => Err("parsing the $JSON block")
        case Some(doc) => Ok((raw, doc))
  }

  function ParseFile(f: Foreign, path: string, image: seq<byte>): Result<BackupFile> {
    var rootAt :- Block.ReadFooter(image);
    var rootList :- Block.Walk(image, rootAt);
    var json :- ParseDoc(f, image, rootList);
    var disks :- ParseRegion(image, json.1, rootAt);
    Ok(BackupFile(path, image, json.0, json.1, rootAt, rootList, disks))
  }

  // ----- the cursor loops of the source, against those functions -----

  function Followed<T>(done: seq<T>, r: Result<(seq<T>, nat)>): Result<(seq<T>, nat)> {
    match r
    case Ok(v) => Ok((done + v.0, v.1))
    case Err(e) => Err(e)
  }

  lemma {:induction false} FollowedNothing<T>(r: Result<(seq<T>, nat)>)
    ensures Followed([], r) == r
  {
    assert r.Ok? ==> [] + r.value.0 == r.value.0;
  }

  lemma {:induction false} FollowedTwice<T>(a: seq<T>, b: seq<T>, r: Result<(seq<T>, nat)>)
    ensures Followed(a, Followed(b, r)) == Followed(a + b, r)
  {
    assert r.Ok? ==> a + (b + r.value.0) == (a + b) + r.value.0;
  }

  method ReadPartition(image: seq<byte>, at: nat, deltaIndex: bool) returns (r: Result<Partition>)
    ensures r == ParsePartition(image, at, deltaIndex)
  {
    var list: Block.BlockList :- Block.WalkList(image, at);
    Block.WalkIffList(image, at, list);
    var last := list.blocks[|list.blocks| - 1];
    if last.header.name != Block.INDEX {
      return Err("partition metadata does not end with $INDEX");
    }
    if last.header.flags.compression || last.header.flags.encryption {
      return Err("$INDEX is not stored plain");
    }
    var raw :- Block.ReadPayload(image, last);
    var index: PartitionIndex :- Index.Parse(raw, deltaIndex);
    return Ok(Partition(list, index));
  }

  method ReadPartitions(image: seq<byte>, count: nat, start: nat, deltaIndex: bool)
    returns (r: Result<(seq<Partition>, nat)>)
    ensures r == ParsePartitions(image, count, start, deltaIndex)
  {
    hide ParsePartition;
    var at: nat := start;
    var partitions: seq<Partition> := [];
    FollowedNothing(ParsePartitions(image, count, at, deltaIndex));
    for p := 0 to count
      invariant ParsePartitions(image, count, start, deltaIndex)
             == Followed(partitions, ParsePartitions(image, count - p, at, deltaIndex))
    {
      ghost var before, left := partitions, ParsePartitions(image, count - p, at, deltaIndex);
      var part := ReadPartition(image, at, deltaIndex);
      if part.Err? {
        return Err(part.error);
      }
      at := part.value.blocks.end;
      partitions := partitions + [part.value];
      ghost var rest := ParsePartitions(image, count - (p + 1), at, deltaIndex);
      assert left == Followed([part.value], rest);
      FollowedTwice(before, [part.value], rest);
    }
    assert partitions + [] == partitions;
    return Ok((partitions, at));
  }

  method ReadDisks(image: seq<byte>, shape: seq<nat>, start: nat, deltaIndex: bool)
    returns (r: Result<(seq<Disk>, nat)>)
    ensures r == ParseDisks(image, shape, start, deltaIndex)
  {
    var at: nat := start;
    var disks: seq<Disk> := [];
    assert shape[0..] == shape;
    FollowedNothing(ParseDisks(image, shape, at, deltaIndex));
    for d := 0 to |shape|
      invariant ParseDisks(image, shape, start, deltaIndex)
             == Followed(disks, ParseDisks(image, shape[d..], at, deltaIndex))
    {
      ghost var before, left := disks, ParseDisks(image, shape[d..], at, deltaIndex);
      var list := Block.WalkList(image, at);
      if list.Err? {
        return Err(list.error);
      }
      var parts := ReadPartitions(image, shape[d], list.value.end, deltaIndex);
      if parts.Err? {
        return Err(parts.error);
      }
      at := parts.value.1;
      var disk := Disk(list.value, parts.value.0);
      disks := disks + [disk];
      assert shape[d..][1..] == shape[d + 1..];
      ghost var rest := ParseDisks(image, shape[d + 1..], at, deltaIndex);
      assert left == Followed([disk], rest);
      FollowedTwice(before, [disk], rest);
    }
    assert disks + [] == disks;
    return Ok((disks, at));
  }

  method Parse(f: Foreign, path: string, image: seq<byte>) returns (r: Result<BackupFile>)
    ensures r == ParseFile(f, path, image)
  {
    var rootAt :- Block.ReadFooter(image);
    var rootList: Block.BlockList :- Block.WalkList(image, rootAt);
    var json :- ParseDoc(f, image, rootList);
    var doc := json.1;
    var disks: seq<Disk> := [];
    if !doc.header.splitFile {
      if doc.header.indexFilePosition >= rootAt {
        return Err("index_file_position is not below the root list");
      }
      var region: (seq<Disk>, nat) :- ReadDisks(image, doc.Shape(), doc.header.indexFilePosition,
            doc.header.deltaIndex);
      if region.1 != rootAt {
        return Err("the block walk drifted");
      }
      disks := region.0;
    }
    return Ok(BackupFile(path, image, json.0, doc, rootAt, rootList, disks));
  }

  /** The root list ends exactly one footer before the end of the file. */
  predicate FramingHolds(file: BackupFile) {
    |file.image| - file.rootList.end == Block.FOOTER_LEN
  }

  // ----- what a successful parse says about the lists -----

  ghost predicate PartitionParsed(image: seq<byte>, part: Partition, deltaIndex: bool) {
    && part.blocks.blocks != []
    && Block.IsList(image, part.blocks.blocks[0].offset, part.blocks)
    && part.blocks.end <= |image|
    && part.index.blocks.Deltas? == deltaIndex
    && |part.index.reserved| <= I32_MAX && part.index.blocks.Length() <= I32_MAX
    && EndsWithIndex(image, part, deltaIndex)
  }

  /** The last block is a plain `$INDEX` whose payload decodes to the index. */
  ghost predicate EndsWithIndex(image: seq<byte>, part: Partition, deltaIndex: bool)
    requires part.blocks.blocks != []
  {
    var last := part.blocks.blocks[|part.blocks.blocks| - 1];
    && last.header.name == Block.INDEX && !last.header.flags.compression && !last.header.flags.encryption
    && Block.ReadPayload(image, last).Ok?
    && ParseIndex(Block.ReadPayload(image, last).value, deltaIndex) == Ok(part.index)
  }

  /** Every list of a disk ends within the first `size` bytes. */
  ghost predicate DiskEndsWithin(disk: Disk, size: nat) {
    disk.blocks.end <= size && PartitionsEndWithin(disk.partitions, size)
  }

  ghost predicate PartitionsEndWithin(parts: seq<Partition>, size: nat) {
    forall p :: 0 <= p < |parts| ==> parts[p].blocks.end <= size
  }

  ghost predicate DiskParsed(image: seq<byte>, disk: Disk, deltaIndex: bool) {
    && disk.blocks.blocks != []
    && Block.IsList(image, disk.blocks.blocks[0].offset, disk.blocks)
    && forall p :: 0 <= p < |disk.partitions| ==> PartitionParsed(image, disk.partitions[p], deltaIndex)
  }

  lemma {:induction false} PartitionParsedAt(image: seq<byte>, at: nat, deltaIndex: bool)
    requires ParsePartition(image, at, deltaIndex).Ok?
    ensures var part := ParsePartition(image, at, deltaIndex).value;
            at <= part.blocks.end && PartitionParsed(image, part, deltaIndex)
  {
    hide ParseIndex, Block.Walk, Block.IsList;
    var part := ParsePartition(image, at, deltaIndex).value;
    ListParsedAt(image, at);
    var last := part.blocks.blocks[|part.blocks.blocks| - 1];
    Block.ListEnd(image, at, part.blocks);
    ParsedCounts(Block.ReadPayload(image, last).value, deltaIndex);
  }

  lemma {:induction false} PartitionsParsed(image: seq<byte>, count: nat, at: nat, deltaIndex: bool)
    requires ParsePartitions(image, count, at, deltaIndex).Ok?
    ensures var r := ParsePartitions(image, count, at, deltaIndex).value;
            && |r.0| == count && at <= r.1
            && PartitionsEndWithin(r.0, r.1)
            && forall p :: 0 <= p < count ==> PartitionParsed(image, r.0[p], deltaIndex)
  {
    hide ParsePartition, EndsWithIndex;
    if count > 0 {
      var first := ParsePartition(image, at, deltaIndex).value;
      PartitionParsedAt(image, at, deltaIndex);
      PartitionsParsed(image, count - 1, first.blocks.end, deltaIndex);
      var rest := ParsePartitions(image, count - 1, first.blocks.end, deltaIndex).value;
      var r := ParsePartitions(image, count, at, deltaIndex).value;
      assert r == ([first] + rest.0, rest.1);
      PartitionsParsedCons(image, first, rest.0, deltaIndex);
    }
  }

  lemma {:induction false} PartitionsParsedCons(image: seq<byte>, first: Partition, rest: seq<Partition>,
        deltaIndex: bool)
    requires PartitionParsed(image, first, deltaIndex)
    requires forall p :: 0 <= p < |rest| ==> PartitionParsed(image, rest[p], deltaIndex)
    ensures forall p :: 0 <= p <= |rest| ==> PartitionParsed(image, ([first] + rest)[p], deltaIndex)
  {
    hide PartitionParsed;
  }

  lemma {:induction false} ListParsedAt(image: seq<byte>, at: nat)
    requires Block.Walk(image, at).Ok?
    ensures var list := Block.Walk(image, at).value;
            list.blocks != [] && list.blocks[0].offset == at < list.end && Block.IsList(image, at, list)
  {
    var list := Block.Walk(image, at).value;
    Block.WalkIffList(image, at, list);
    Block.ChainOffsets(image, at, list.blocks, |list.blocks| - 1);
  }

  lemma {:induction false} DisksParsed(image: seq<byte>, shape: seq<nat>, at: nat, deltaIndex: bool)
    requires ParseDisks(image, shape, at, deltaIndex).Ok?
    ensures var r := ParseDisks(image, shape, at, deltaIndex).value;
            && |r.0| == |shape| && (if shape == [] then at == r.1 else at < r.1)
            && forall d :: 0 <= d < |shape| ==>
                 |r.0[d].partitions| == shape[d] && DiskParsed(image, r.0[d], deltaIndex) && DiskEndsWithin(r.0[d], r.1)
  {
    hide ParsePartitions, Block.Walk, Block.IsList, PartitionParsed;
    if shape != [] {
      var list := Block.Walk(image, at).value;
      ListParsedAt(image, at);
      PartitionsParsed(image, shape[0], list.end, deltaIndex);
      var parts := ParsePartitions(image, shape[0], list.end, deltaIndex).value;
      DisksParsed(image, shape[1..], parts.1, deltaIndex);
      var rest := ParseDisks(image, shape[1..], parts.1, deltaIndex).value;
      var r := ParseDisks(image, shape, at, deltaIndex).value;
      forall d | 0 <= d < |shape|
        ensures |r.0[d].partitions| == shape[d] && DiskParsed(image, r.0[d], deltaIndex) && DiskEndsWithin(r.0[d], r.1)
      {
        assert r.0[d] == if d == 0 then Disk(list, parts.0) else rest.0[d - 1];
      }
    }
  }

  /**
   * Every list of a parsed file is a list of its bytes that ends by the root list, every partition's list ends
   * with the plain `$INDEX` its index was decoded from, and the index form is the one the header names.
   */
  lemma {:induction false} ParsedStructure(f: Foreign, path: string, image: seq<byte>)
    requires ParseFile(f, path, image).Ok?
    ensures var file := ParseFile(f, path, image).value; var h := file.Header();
            && file.path == path && file.image == image
            && Block.IsList(image, file.rootAt, file.rootList)
            && (h.splitFile ==> file.disks == [])
            && (!h.splitFile ==> file.disks != [] && file.Shape() == file.doc.Shape())
            && file.rootAt <= |image|
            && forall d :: 0 <= d < |file.disks| ==>
                 DiskParsed(image, file.disks[d], h.deltaIndex) && DiskEndsWithin(file.disks[d], file.rootAt)
  {
    hide Block.IsList, ParseDisks, ParseDoc, DiskParsed, DiskEndsWithin;
    var file := ParseFile(f, path, image).value;
    ListParsedAt(image, file.rootAt);
    assert Block.Walk(image, file.rootAt) == Ok(file.rootList);
    Block.HeaderFits(image, file.rootAt);
    var h := file.Header();
    if !h.splitFile {
      DisksParsed(image, file.doc.Shape(), h.indexFilePosition, h.deltaIndex);
    }
  }

  // ----- index entries of a file -----

  function DeltaElements(deltas: seq<Delta>): seq<Element> {
    seq(|deltas|, i requires 0 <= i < |deltas| => deltas[i].element)
  }

  /** The reserved entries, then the block entries in stored order. */
  function EntriesOf(index: PartitionIndex): seq<Element> {
    index.reserved + match index.blocks
                     case Full(entries) => entries
                     case Deltas(deltas) => DeltaElements(deltas)
  }

  ghost predicate HasEntry(disks: seq<Disk>, e: Element) {
    exists d, p :: 0 <= d < |disks| && 0 <= p < |disks[d].partitions| && e in EntriesOf(disks[d].partitions[p].index)
  }

  /** One past the last byte of a block, taking a negative position as zero. */
  function Stop(e: Element): (stop: nat)
    ensures stop == if e.position >= 0 then e.position + e.length else e.length
  {
    (if e.position < 0 then 0 else e.position) + e.length
  }

  predicate Own(file: BackupFile, e: Element): (own: bool)
    ensures own <==> e.length > 0 && e.fileNumber == file.doc.header.fileNumber
  {
    !e.IsHole() && e.fileNumber == file.Header().fileNumber
  }

  ghost predicate HighestStop(file: BackupFile, entries: seq<Element>, start: nat, end: nat) {
    && start <= end
    && (forall e :: e in entries && Own(file, e) ==> Stop(e) <= end)
    && (end == start || exists e :: e in entries && Own(file, e) && Stop(e) == end)
  }

  method ConsiderAll(file: BackupFile, entries: seq<Element>, start: nat) returns (end: nat)
    ensures HighestStop(file, entries, start, end)
  {
    end := start;
    for i := 0 to |entries|
      invariant HighestStop(file, entries[..i], start, end)
    {
      var e := entries[i];
      assert entries[..i + 1] == entries[..i] + [e];
      if !e.IsHole() && e.fileNumber == file.Header().fileNumber && Stop(e) > end {
        end := Stop(e);
        assert e in entries[..i + 1];
      }
    }
    assert entries[..|entries|] == entries;
  }

  /** The highest offset one past a block the file stores itself; zero when it stores none. */
  method OwnDataEnd(file: BackupFile) returns (end: nat)
    ensures forall e :: HasEntry(file.disks, e) && Own(file, e) ==> Stop(e) <= end
    ensures end == 0 || exists e :: HasEntry(file.disks, e) && Own(file, e) && Stop(e) == end
  {
    end := 0;
    for d := 0 to |file.disks|
      invariant StopsBounded(file, d, 0, end)
      invariant end == 0 || exists e :: HasEntry(file.disks, e) && Own(file, e) && Stop(e) == end
    {
      var parts := file.disks[d].partitions;
      for p := 0 to |parts|
        invariant StopsBounded(file, d, p, end)
        invariant end == 0 || exists e :: HasEntry(file.disks, e) && Own(file, e) && Stop(e) == end
      {
        var entries := EntriesOf(parts[p].index);
        var start := end;
        end := ConsiderAll(file, entries, start);
        if end != start {
          var e :| e in entries && Own(file, e) && Stop(e) == end;
          assert HasEntry(file.disks, e);
        }
      }
    }
  }

  /** No own entry of the disks before `d`, or of the first `p` partitions of disk `d`, stops above `end`. */
  ghost predicate StopsBounded(file: BackupFile, d: nat, p: nat, end: nat) {
    forall d', p', e ::
      0 <= d' < |file.disks| && 0 <= p' < |file.disks[d'].partitions| && (d' < d || (d' == d && p' < p)) &&
      e in EntriesOf(file.disks[d'].partitions[p'].index) && Own(file, e)
      ==> Stop(e) <= end
  }
}
