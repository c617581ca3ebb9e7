/** Small parsed files with short documents, and sets of them. */
module SmallSets {
  import opened Wrappers
  import opened Bytes
  import opened Index
  import opened Json
  import opened Reader
  import opened Set
  import opened Plan
  import opened Output
  import opened Merge
  import opened Encoding
  import opened Smallest

  // ----- the files -----

  function DocOf(number: u16, increment: u16, backupType: string, delta: bool, size: u64): Doc {
    Doc(Json.Header("set", number, increment, [], false, size, delta, backupType), [DocDisk(None, [None])], "", "")
  }

  function Entries(blocks: Blocks): PartitionIndex {
    PartitionIndex([], blocks)
  }

  /** A document whose encoding fits every field without being computed. */
  predicate IsShort(doc: Doc) {
    && |doc.header.imageId| <= 8 && |doc.header.backupType| <= 8 && |doc.header.mergedFiles| <= 0x1_0000
    && !doc.header.splitFile && doc.settings == "" && doc.rest == ""
    && |doc.disks| == 1 && |doc.disks[0].partitions| == 1
  }

  /** A short document, at most one entry and at most a page of data, agreeing with each other. */
  predicate IsTiny(doc: Doc, data: seq<byte>, blocks: Blocks) {
    && IsShort(doc) && blocks.Length() <= 1 && |data| <= 4096
    && doc.header.indexFilePosition == |data| && doc.header.deltaIndex == blocks.Deltas?
  }

  lemma {:induction false} ShortEncodes(doc: Doc)
    requires IsShort(doc)
    ensures |Encode(doc)| < 0x10_0000
  {
    hide FixedBytes, CharBytes, NumberBytes, List;
    var h := doc.header;
    ListLength(CharBytes, h.imageId, 4);
    ListLength(I64Bytes, h.mergedFiles, 8);
    ListLength(CharBytes, h.backupType, 4);
    ListLength(CharBytes, doc.settings, 4);
    ListLength(CharBytes, doc.rest, 4);
    ListLength(NumberBytes, doc.disks[0].partitions, 4);
    ListLength(DocDiskBytes, doc.disks, 10);
  }

  lemma {:induction false} AscendingLength(s: set<u16>, n: nat)
    requires n <= 0x1_0000
    ensures |AscendingNumbers(s, n)| <= n
  {
    if n > 0 {
      AscendingLength(s, n - 1);
    }
  }

  lemma {:induction false} MergedIsShort(to: Doc, plan: MergePlan, position: u64)
    requires IsShort(to)
    ensures IsShort(MergedDoc(to, plan, position))
  {
    AscendingLength(plan.absorbed - {plan.outFileNumber}, 0x1_0000);
  }

  lemma {:induction false} TinyFits(doc: Doc, data: seq<byte>, blocks: Blocks)
    requires IsTiny(doc, data, blocks)
    ensures Fits(doc, data, Entries(blocks))
    ensures |IndexBytes(Entries(blocks))| == 8 + (if blocks.Deltas? then DELTA_LEN else ELEMENT_LEN) * blocks.Length()
  {
    hide IndexBytes, Encode;
    ShortEncodes(doc);
    IndexLength(Entries(blocks));
  }

  function Tiny(path: string, doc: Doc, data: seq<byte>, blocks: Blocks, aux: bool): BackupFile
    requires IsTiny(doc, data, blocks)
  {
    TinyFits(doc, data, blocks);
    FileOf(path, doc, data, Entries(blocks), aux)
  }

  ghost predicate Bare(m: BackupFile, doc: Doc, blocks: Blocks) {
    && m.doc == doc && m.Header() == doc.header && m.Shape() == [1] == ShapeOf(m.disks)
    && |m.disks| == 1 && |m.disks[0].partitions| == 1 && m.disks[0].partitions[0].index == Entries(blocks)
  }

  lemma {:induction false} TinyIs(path: string, doc: Doc, data: seq<byte>, blocks: Blocks, aux: bool)
    requires IsTiny(doc, data, blocks)
    ensures var m := Tiny(path, doc, data, blocks, aux);
            && Bare(m, doc, blocks) && m.path == path && data <= m.image && |m.image| < I64_LIMIT
            && (doc.header.mergedFiles == [] ==> Claims(m) == {doc.header.fileNumber})
            && IsParsed(Libraries(), m)
  {
    hide IndexBytes, ImageOf, Encode, IsParsed, Decode, Libraries;
    TinyFits(doc, data, blocks);
    ShortEncodes(doc);
    Pieces(Encode(doc), data, Entries(blocks), aux);
    FileParses(path, doc, data, Entries(blocks), aux);
  }

  /** The size estimate of one tiny file as To. */
  function TinyEstimate(doc: Doc, part: PartitionPlan, aux: bool, kind: MergeKind): int {
    104 + |part.blocks| * (if kind.DeltaIndex() then DELTA_LEN else ELEMENT_LEN) + |Encode(doc)|
    + (if aux then 32 else 0) + 532
  }

  lemma {:induction false} TinyMetadata(path: string, doc: Doc, blocks: Blocks, part: PartitionPlan, aux: bool,
        kind: MergeKind)
    requires IsTiny(doc, [], blocks) && part.reserved == []
    ensures MetadataEstimate(Tiny(path, doc, [], blocks, aux), [part], kind) == TinyEstimate(doc, part, aux, kind)
  {
    hide IndexBytes, ImageOf, Encode;
    TinyFits(doc, [], blocks);
    var m := Tiny(path, doc, [], blocks, aux);
    var parts, disks := m.disks[0].partitions, m.disks;
    assert PartitionSpans(parts[1..]) == 0 && DiskSpans(disks[1..]) == 0;
    assert IndexSizes([part][1..], kind) == 0;
    SmallRoot(doc, [], Entries(blocks), aux, path, []);
  }

  // ----- sets of such files -----

  /** What makes a plan of a set whose files have one partition each. */
  lemma {:induction false} GatherPlan(lower: seq<BackupFile>, plan: MergePlan, from: BackupFile)
    requires lower != [] && lower[0].Shape() == [1] && |plan.partitions| == 1
    requires RulesHold(lower, from, lower[0]) && Flattens(lower)
    requires MemberWithNumber(lower, plan.to) == Some(lower[0]) && MemberWithNumber(lower, plan.from) == Some(from)
    requires IsClosure(lower, from.Header().incrementNumber, lower[0].Header().incrementNumber, plan.absorbed)
    requires plan.kind == (if IsFull(from) then SyntheticFull else IncrementalMerge)
    requires PartitionPlanned(lower, lower[0], plan.kind, plan.absorbed, 0, 0, plan.partitions[0])
    requires plan.outFileNumber == from.Header().fileNumber && plan.outIncrementNumber == from.Header().incrementNumber
    requires plan.metadataBytes == MetadataEstimate(lower[0], plan.partitions, plan.kind)
    ensures IsPlan(lower, plan)
  {
    hide RulesHold, Flattens, MemberWithNumber, IsClosure, MetadataEstimate, PartitionPlanned, IsFull, Claims;
    var shape := lower[0].Shape();
    assert SlotBase(shape, 1) == 1;
    assert SlotPlanned(lower, lower[0], plan.kind, plan.absorbed, shape, plan.partitions, 0, 0);
  }

  lemma {:induction false} OwnerFound(members: seq<BackupFile>, m: BackupFile, n: u16)
    requires m in members && n in Claims(m)
    ensures Owner(members, n).Some?
  {
  }
}
