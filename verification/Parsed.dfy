/** What a parsed file is, said of its bytes: no walk, no cursor, no helper that reads. */
module Parsed {
  import opened Wrappers
  import opened Bytes
  import opened Index
  import Block
  import opened Json
  import opened Reader
  import Format

  // ----- one stored payload -----

  function Stored(image: seq<byte>, block: Block.Located): seq<byte>
    requires block.offset + 32 + block.header.blockLength <= |image|
  {
    image[block.offset + 32..block.offset + 32 + block.header.blockLength]
  }

  /**
   * The document of a root list: its first `$JSON` block is unencrypted, lies within the file and has the hash its
   * header records; `plain` is what is stored there, or what that decompresses to where the header says so, and
   * `plain` decodes to `doc`.
   */
  ghost predicate HoldsDocument(f: Foreign, image: seq<byte>, list: Block.BlockList, plain: seq<byte>, doc: Doc) {
    exists k: nat ::
      && k < |list.blocks| && list.blocks[k].header.name == [36, 74, 83, 79, 78, 32, 32, 32]
      && (forall j :: 0 <= j < k ==> list.blocks[j].header.name != [36, 74, 83, 79, 78, 32, 32, 32])
      && DocumentIn(f, image, list.blocks[k], plain, doc)
  }

  ghost predicate DocumentIn(f: Foreign, image: seq<byte>, block: Block.Located, plain: seq<byte>, doc: Doc) {
    && !block.header.flags.encryption
    && block.offset + 32 + block.header.blockLength <= |image|
    && f.md5(Stored(image, block)) == block.header.hash
    && (if block.header.flags.compression then f.unzip(Stored(image, block)) == Some(plain)
        else plain == Stored(image, block))
    && f.decode(plain) == Some(doc)
  }

  lemma {:induction false} DocumentInIff(f: Foreign, image: seq<byte>, block: Block.Located, plain: seq<byte>, doc: Doc)
    ensures DocumentIn(f, image, block, plain, doc)
       <==> Block.ReadBlock(f.md5, f.unzip, image, block) == Ok(plain) && f.decode(plain) == Some(doc)
  {
  }

  /** The reader finds a document exactly where the bytes hold one, and that one. */
  lemma {:induction false} DocumentIff(f: Foreign, image: seq<byte>, list: Block.BlockList, plain: seq<byte>, doc: Doc)
    ensures ParseDoc(f, image, list) == Ok((plain, doc)) <==> HoldsDocument(f, image, list, plain, doc)
  {
    hide DocumentIn, Block.ReadBlock;
    Block.FindsFirst(list.blocks, Block.JSON);
    var found := Block.Find(list.blocks, Block.JSON);
    if found.Some? {
      var at: nat :| Block.IsFirst(list.blocks, Block.JSON, at) && list.blocks[at] == found.value;
      forall k: nat | Block.IsFirst(list.blocks, Block.JSON, k) ensures k == at {}
      DocumentInIff(f, image, found.value, plain, doc);
      Encrypted(f, image, found.value, plain, doc);
      assert HoldsDocument(f, image, list, plain, doc) <==> DocumentIn(f, image, list.blocks[at], plain, doc);
    }
  }

  lemma {:induction false} Encrypted(f: Foreign, image: seq<byte>, block: Block.Located, plain: seq<byte>, doc: Doc)
    ensures block.header.flags.encryption ==> !DocumentIn(f, image, block, plain, doc)
  {
  }

  /**
   * Why a document is refused, first cause first: the encryption flag, the end of the file, the hash of the stored
   * bytes, the decompression, the text. The hash is compared before anything is undone.
   */
  lemma {:induction false} DocumentRefusals(f: Foreign, image: seq<byte>, list: Block.BlockList, k: nat)
    requires Block.IsFirst(list.blocks, [36, 74, 83, 79, 78, 32, 32, 32], k)
    ensures var r, block := ParseDoc(f, image, list), list.blocks[k];
            var fits := block.offset + 32 + block.header.blockLength <= |image|;
            if block.header.flags.encryption then r == Err("the $JSON block is marked encrypted")
            else if !fits then r == Err("the payload runs past the end of the file")
            else if f.md5(Stored(image, block)) != block.header.hash then r == Err("Block hash mismatch.")
            else if block.header.flags.compression && f.unzip(Stored(image, block)).None? then
              r == Err("Failed to decompress block.")
            else
              var plain := if block.header.flags.compression then f.unzip(Stored(image, block)).value
                           else Stored(image, block);
              r == if f.decode(plain).Some? then Ok((plain, f.decode(plain).value)) else Err("parsing the $JSON block")
  {
    Block.FindsFirst(list.blocks, Block.JSON);
    var at: nat :| Block.IsFirst(list.blocks, Block.JSON, at)
                && list.blocks[at] == Block.Find(list.blocks, Block.JSON).value;
    assert Block.IsFirst(list.blocks, Block.JSON, k) && at == k;
  }

  // ----- the lists of the metadata region -----

  /** A partition's list at `at`: it ends with a plain `$INDEX` whose payload is its index. */
  ghost predicate PartitionAt(image: seq<byte>, part: Partition, at: nat, deltaIndex: bool) {
    && Block.IsList(image, at, part.blocks)
    && var last := part.blocks.blocks[|part.blocks.blocks| - 1];
       && last.header.name == [36, 73, 78, 68, 69, 88, 32, 32]
       && !last.header.flags.compression && !last.header.flags.encryption
       && last.offset + 32 + last.header.blockLength <= |image|
       && Format.IsPayload(Stored(image, last), part.index, deltaIndex)
  }

  /** Partition lists one after the other from `at` to `end`. */
  ghost predicate PartitionsAt(image: seq<byte>, parts: seq<Partition>, at: nat, end: nat, deltaIndex: bool) {
    if parts == [] then at == end
    else
      && PartitionAt(image, parts[0], at, deltaIndex)
      && PartitionsAt(image, parts[1..], parts[0].blocks.end, end, deltaIndex)
  }

  function EndOf(parts: seq<Partition>, at: nat): nat {
    if parts == [] then at else parts[|parts| - 1].blocks.end
  }

  /** Each disk's list, then those of its partitions, from `at` to `end`. */
  ghost predicate DisksAt(image: seq<byte>, disks: seq<Disk>, at: nat, end: nat, deltaIndex: bool) {
    if disks == [] then at == end
    else
      var mid := EndOf(disks[0].partitions, disks[0].blocks.end);
      && Block.IsList(image, at, disks[0].blocks)
      && PartitionsAt(image, disks[0].partitions, disks[0].blocks.end, mid, deltaIndex)
      && DisksAt(image, disks[1..], mid, end, deltaIndex)
  }

  lemma {:induction false} PartitionIff(image: seq<byte>, part: Partition, at: nat, deltaIndex: bool)
    ensures ParsePartition(image, at, deltaIndex) == Ok(part) <==> PartitionAt(image, part, at, deltaIndex)
  {
    hide Block.Walk, Block.IsList, ParseIndex, Format.IsPayload;
    Block.WalkIffList(image, at, part.blocks);
    if Block.Walk(image, at).Ok? {
      Block.WalkIffList(image, at, Block.Walk(image, at).value);
      IsListFacts(image, at, Block.Walk(image, at).value);
    }
    if Block.IsList(image, at, part.blocks) {
      IsListFacts(image, at, part.blocks);
      var last := part.blocks.blocks[|part.blocks.blocks| - 1];
      if last.offset + 32 + last.header.blockLength <= |image| {
        Format.IndexIff(Stored(image, last), part.index, deltaIndex);
      }
    }
  }

  lemma {:induction false} IsListFacts(image: seq<byte>, at: nat, list: Block.BlockList)
    requires Block.IsList(image, at, list)
    ensures list.blocks != []
  {
  }

  lemma {:induction false} PartitionsIff(image: seq<byte>, parts: seq<Partition>, at: nat, end: nat, deltaIndex: bool)
    ensures ParsePartitions(image, |parts|, at, deltaIndex) == Ok((parts, end))
       <==> PartitionsAt(image, parts, at, end, deltaIndex)
  {
    hide ParsePartition, PartitionAt;
    if parts != [] {
      PartitionIff(image, parts[0], at, deltaIndex);
      PartitionsIff(image, parts[1..], parts[0].blocks.end, end, deltaIndex);
      assert parts == [parts[0]] + parts[1..];
      var first := ParsePartition(image, at, deltaIndex);
      if first.Ok? && first.value == parts[0] {
        var rest := ParsePartitions(image, |parts| - 1, first.value.blocks.end, deltaIndex);
        assert rest.Ok? ==> ([first.value] + rest.value.0 == parts <==> rest.value.0 == parts[1..]);
      }
    }
  }

  lemma {:induction false} PartitionsEndAt(image: seq<byte>, parts: seq<Partition>, at: nat, end: nat, deltaIndex: bool)
    requires PartitionsAt(image, parts, at, end, deltaIndex)
    ensures end == EndOf(parts, at)
  {
    hide PartitionAt;
    if parts != [] {
      PartitionsEndAt(image, parts[1..], parts[0].blocks.end, end, deltaIndex);
    }
  }

  lemma {:induction false} PartitionCount(image: seq<byte>, count: nat, at: nat, deltaIndex: bool)
    ensures var r := ParsePartitions(image, count, at, deltaIndex); r.Ok? ==> |r.value.0| == count
  {
    if ParsePartitions(image, count, at, deltaIndex).Ok? {
      PartitionsParsed(image, count, at, deltaIndex);
    }
  }

  /** One disk and the rest. */
  lemma {:induction false} DisksStep(image: seq<byte>, disks: seq<Disk>, at: nat, end: nat, deltaIndex: bool)
    requires disks != []
    requires var mid := EndOf(disks[0].partitions, disks[0].blocks.end);
             ParseDisks(image, ShapeOf(disks[1..]), mid, deltaIndex) == Ok((disks[1..], end))
             <==> DisksAt(image, disks[1..], mid, end, deltaIndex)
    ensures ParseDisks(image, ShapeOf(disks), at, deltaIndex) == Ok((disks, end))
       <==> DisksAt(image, disks, at, end, deltaIndex)
  {
    hide Block.Walk, Block.IsList, ParsePartitions, PartitionsAt, EndOf;
    var disk := disks[0];
    var count, start := |disk.partitions|, disk.blocks.end;
    var mid := EndOf(disk.partitions, start);
    assert ShapeOf(disks)[1..] == ShapeOf(disks[1..]) && disks == [disk] + disks[1..];
    Block.WalkIffList(image, at, disk.blocks);
    PartitionsIff(image, disk.partitions, start, mid, deltaIndex);
    var list := Block.Walk(image, at);
    if list == Ok(disk.blocks) {
      var parts := ParsePartitions(image, count, start, deltaIndex);
      if parts.Ok? {
        PartitionCount(image, count, start, deltaIndex);
        PartitionsIff(image, parts.value.0, start, parts.value.1, deltaIndex);
        PartitionsEndAt(image, parts.value.0, start, parts.value.1, deltaIndex);
        var rest := ParseDisks(image, ShapeOf(disks[1..]), parts.value.1, deltaIndex);
        if rest.Ok? {
          var all := [Disk(list.value, parts.value.0)] + rest.value.0;
          assert all[0] == Disk(list.value, parts.value.0) && all[1..] == rest.value.0;
        }
      }
    } else if list.Ok? && ParseDisks(image, ShapeOf(disks), at, deltaIndex).Ok? {
      assert ParseDisks(image, ShapeOf(disks), at, deltaIndex).value.0[0].blocks == list.value;
    }
  }

  lemma {:induction false} DisksIff(image: seq<byte>, disks: seq<Disk>, at: nat, end: nat, deltaIndex: bool)
    ensures ParseDisks(image, ShapeOf(disks), at, deltaIndex) == Ok((disks, end))
       <==> DisksAt(image, disks, at, end, deltaIndex)
  {
    hide PartitionsAt, Block.IsList;
    if disks != [] {
      DisksIff(image, disks[1..], EndOf(disks[0].partitions, disks[0].blocks.end), end, deltaIndex);
      DisksStep(image, disks, at, end, deltaIndex);
    }
  }

  lemma {:induction false} ParsedShape(image: seq<byte>, shape: seq<nat>, at: nat, deltaIndex: bool)
    requires ParseDisks(image, shape, at, deltaIndex).Ok?
    ensures ShapeOf(ParseDisks(image, shape, at, deltaIndex).value.0) == shape
  {
    hide DiskParsed, DiskEndsWithin, ParseDisks;
    DisksParsed(image, shape, at, deltaIndex);
  }

  // ----- the footer and the whole file -----

  /** The last twenty bytes: an offset, least significant byte first, and `MACRIUM_FILE`. */
  ghost predicate EndsInFooter(image: seq<byte>, rootAt: nat) {
    && |image| >= 20 && rootAt < 0x1_0000_0000_0000_0000
    && image[|image| - 20..|image| - 12] == ToLE(rootAt, 8)
    && image[|image| - 12..] == [77, 65, 67, 82, 73, 85, 77, 95, 70, 73, 76, 69]
  }

  lemma {:induction false} FooterIff(image: seq<byte>, rootAt: nat)
    ensures Block.ReadFooter(image) == Ok(rootAt) <==> EndsInFooter(image, rootAt)
  {
    Widths();
    if |image| >= 20 {
      ToFromLE(image[|image| - 20..|image| - 12]);
    }
    if rootAt < 0x1_0000_0000_0000_0000 {
      FromToLE(rootAt, 8);
    }
  }

  /**
   * What a parsed file is: a footer, the root list it points to, the document that list holds, and, unless the file is
   * a split part, the lists of each disk and partition in the document's shape from the recorded position up to the
   * root list.
   */
  ghost predicate IsFileOf(f: Foreign, path: string, image: seq<byte>, file: BackupFile) {
    && file.path == path && file.image == image
    && EndsInFooter(image, file.rootAt)
    && Block.IsList(image, file.rootAt, file.rootList)
    && HoldsDocument(f, image, file.rootList, file.jsonRaw, file.doc)
    && if file.doc.header.splitFile then file.disks == []
       else
         && file.doc.header.indexFilePosition < file.rootAt && ShapeOf(file.disks) == file.doc.Shape()
         && DisksAt(image, file.disks, file.doc.header.indexFilePosition, file.rootAt, file.doc.header.deltaIndex)
  }

  lemma {:induction false} RegionIff(image: seq<byte>, doc: Doc, rootAt: nat, disks: seq<Disk>)
    ensures ParseRegion(image, doc, rootAt) == Ok(disks)
       <==> if doc.header.splitFile then disks == []
            else
              && doc.header.indexFilePosition < rootAt && ShapeOf(disks) == doc.Shape()
              && DisksAt(image, disks, doc.header.indexFilePosition, rootAt, doc.header.deltaIndex)
  {
    hide ParseDisks, DisksAt, ShapeOf;
    var at, delta := doc.header.indexFilePosition, doc.header.deltaIndex;
    DisksIff(image, disks, at, rootAt, delta);
    if ParseDisks(image, doc.Shape(), at, delta).Ok? {
      ParsedShape(image, doc.Shape(), at, delta);
    }
  }

  /** The reader accepts exactly the bytes that are such a file, and finds that one. */
  lemma {:induction false} ParseIff(f: Foreign, path: string, image: seq<byte>, file: BackupFile)
    ensures ParseFile(f, path, image) == Ok(file) <==> IsFileOf(f, path, image, file)
  {
    hide Block.ReadFooter, Block.Walk, Block.IsList, ParseDoc, ParseRegion, HoldsDocument, EndsInFooter, DisksAt;
    FooterIff(image, file.rootAt);
    Block.WalkIffList(image, file.rootAt, file.rootList);
    DocumentIff(f, image, file.rootList, file.jsonRaw, file.doc);
    RegionIff(image, file.doc, file.rootAt, file.disks);
  }
}
