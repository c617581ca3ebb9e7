/** Sets of small files from their specifications, and merges of them that copy nothing. */
module SmallMerges {
  import opened Wrappers
  import opened Bytes
  import opened Index
  import opened Json
  import opened Reader
  import opened Set
  import opened Plan
  import opened Write
  import opened Output
  import opened Merge
  import opened Complete
  import opened Runs
  import opened Encoding
  import opened Smallest
  import opened SmallSets

  /** These bytes are what the writer makes of this plan. */
  ghost predicate IsWritten(lower: seq<BackupFile>, plan: MergePlan, stamp: Stamp, image: seq<byte>) {
    && lower != [] && DisksOrdered(lower[0].disks)
    && exists w :: OutputWritten(Libraries(), lower[0], plan, SourcesOf(lower, plan.absorbed), stamp, w, image)
  }

  // ----- files from specifications -----

  datatype Spec = Spec(path: string, doc: Doc, data: seq<byte>, blocks: Blocks, aux: bool)
  {
    predicate Valid() {
      IsTiny(doc, data, blocks) && doc.header.mergedFiles == [] && doc.header.imageId == "set"
    }

    function File(): BackupFile
      requires Valid()
    {
      Tiny(path, doc, data, blocks, aux)
    }

    function Number(): u16 {
      doc.header.fileNumber
    }

    function Increment(): u16 {
      doc.header.incrementNumber
    }

    function Deltas(): seq<Delta> {
      if blocks.Deltas? then blocks.deltas else []
    }
  }

  /** What such a file is, without its bytes. */
  ghost predicate IsFile(m: BackupFile, s: Spec) {
    && Bare(m, s.doc, s.blocks) && IsParsed(Libraries(), m) && Claims(m) == {s.Number()}
    && s.doc.settings == "" && s.doc.header.imageId == "set" && !s.doc.header.splitFile
    && s.doc.header.deltaIndex == s.blocks.Deltas? && s.data <= m.image && |m.image| < I64_LIMIT && m.path == s.path
  }

  lemma {:induction false} FileIs(s: Spec)
    requires s.Valid()
    ensures IsFile(s.File(), s)
  {
    hide Tiny, Claims, IsParsed, Libraries, Bare;
    TinyIs(s.path, s.doc, s.data, s.blocks, s.aux);
  }

  /** The files of these specifications, newest first. */
  ghost predicate AreFiles(members: seq<BackupFile>, specs: seq<Spec>) {
    && |members| == |specs| > 0
    && (forall i :: 0 <= i < |specs| ==> IsFile(members[i], specs[i]))
    && (forall i, j :: 0 <= i < j < |specs| ==> specs[i].Number() > specs[j].Number())
  }

  lemma {:induction false} FileFacts(m: BackupFile, s: Spec)
    requires IsFile(m, s)
    ensures m.Header() == s.doc.header && m.doc.settings == "" && m.Shape() == [1] == ShapeOf(m.disks)
    ensures |m.disks| == 1 && |m.disks[0].partitions| == 1 && m.disks[0].partitions[0].index == Entries(s.blocks)
    ensures IsFull(m) <==> s.blocks.Full?
    ensures DeltasOf(m, 0, 0) == s.Deltas() && ReservedOf(m, 0, 0) == []
    ensures s.blocks.Full? ==> FullEntriesOf(m, 0, 0) == s.blocks.entries
  {
    hide IsParsed, Claims, Libraries;
  }

  lemma {:induction false} FilesFacts(members: seq<BackupFile>, specs: seq<Spec>)
    requires AreFiles(members, specs)
    ensures |members| == |specs| > 0
    ensures forall i :: 0 <= i < |specs| ==> members[i].Header() == specs[i].doc.header && members[i].doc.settings == ""
    ensures forall i :: 0 <= i < |specs| ==> members[i].Header().imageId == "set" && !members[i].Header().splitFile
    ensures forall i :: 0 <= i < |specs| ==> (IsFull(members[i]) <==> specs[i].blocks.Full?)
    ensures forall i :: 0 <= i < |specs| ==> Claims(members[i]) == {specs[i].Number()}
    ensures forall i :: 0 <= i < |specs| ==> members[i].Shape() == [1]
  {
    hide IsFile, Claims;
    forall i | 0 <= i < |specs|
      ensures members[i].Header() == specs[i].doc.header && members[i].doc.settings == ""
      ensures members[i].Header().imageId == "set" && !members[i].Header().splitFile
      ensures IsFull(members[i]) <==> specs[i].blocks.Full?
      ensures Claims(members[i]) == {specs[i].Number()} && members[i].Shape() == [1]
    {
      FileFacts(members[i], specs[i]);
      FileClaims(members[i], specs[i]);
    }
  }

  lemma {:induction false} FileClaims(m: BackupFile, s: Spec)
    requires IsFile(m, s)
    ensures Claims(m) == {s.Number()} && IsParsed(Libraries(), m)
    ensures m.Header().imageId == "set" && !m.Header().splitFile
  {
    hide IsParsed, Claims, Libraries;
  }

  lemma {:induction false} FilesSuffix(members: seq<BackupFile>, specs: seq<Spec>, k: nat)
    requires AreFiles(members, specs) && k < |specs|
    ensures |members| == |specs| && AreFiles(members[k..], specs[k..])
  {
    hide IsFile;
  }

  lemma {:induction false} FilesAreWellFormed(members: seq<BackupFile>, specs: seq<Spec>)
    requires AreFiles(members, specs)
    ensures members != [] && WellFormed(Libraries(), members) && DisjointClaims(members)
  {
    FilesFacts(members, specs);
    hide IsFile, Claims, IsParsed, Libraries;
    forall m | m in members ensures IsParsed(Libraries(), m) {
      var i :| 0 <= i < |members| && members[i] == m;
      FileClaims(members[i], specs[i]);
    }
  }

  /** Every entry of such a set stands in a specification. */
  lemma {:induction false} EntryInSpec(m: BackupFile, s: Spec, e: Element)
    requires IsFile(m, s) && HasEntry(m.disks, e)
    ensures match s.blocks case Full(entries) => e in entries case Deltas(deltas) => e in DeltaElements(deltas)
  {
    hide IsFile, FullEntriesOf, DeltasOf, ReservedOf, IsFull;
    FileFacts(m, s);
  }

  function ChainOf(specs: seq<Spec>): seq<Element> {
    if specs == [] then []
    else
      match specs[0].blocks
      case Full(entries) => entries
      case Deltas(deltas) => Replay(ChainOf(specs[1..]), deltas)
  }

  lemma {:induction false} FilesChain(members: seq<BackupFile>, specs: seq<Spec>)
    requires |members| == |specs| && forall i :: 0 <= i < |specs| ==> IsFile(members[i], specs[i])
    ensures Chain(members, 0, 0) == ChainOf(specs)
  {
    hide IsFile, IsFull, FullEntriesOf, DeltasOf, Replay;
    if specs != [] {
      FileFacts(members[0], specs[0]);
      FilesChain(members[1..], specs[1..]);
    }
  }

  lemma {:induction false} FilesChainAll(members: seq<BackupFile>, specs: seq<Spec>)
    requires AreFiles(members, specs)
    ensures Chain(members, 0, 0) == ChainOf(specs)
  {
    hide IsFile, Chain, ChainOf;
    FilesChain(members, specs);
  }

  lemma {:induction false} FilesBase(members: seq<BackupFile>, specs: seq<Spec>, b: nat)
    requires AreFiles(members, specs) && b < |specs|
    requires specs[b].blocks.Full? && forall i :: 0 <= i < b ==> specs[i].blocks.Deltas?
    ensures BaseIndex(members) == Some(b) && Flattens(members)
  {
    hide AreFiles, IsFile, IsFull, Claims, ShapeOf, FullEntriesOf, DeltasOf, ReservedOf, BaseIndex;
    FilesFacts(members, specs);
    AreFilesAt(members, specs, b);
    FileFacts(members[b], specs[b]);
    BaseIs(members, b);
    forall m | m in members ensures m.Shape() == [1] {
      var i :| 0 <= i < |members| && members[i] == m;
    }
  }

  lemma {:induction false} AreFilesAt(members: seq<BackupFile>, specs: seq<Spec>, i: nat)
    requires AreFiles(members, specs) && i < |specs|
    ensures i < |members| && IsFile(members[i], specs[i])
  {
    hide IsFile;
  }

  ghost predicate HasNumber(specs: seq<Spec>, n: u16) {
    exists i :: 0 <= i < |specs| && specs[i].Number() == n
  }

  lemma {:induction false} NumberIsOwned(members: seq<BackupFile>, specs: seq<Spec>, n: u16)
    requires AreFiles(members, specs) && HasNumber(specs, n)
    ensures Owner(members, n).Some?
  {
    hide AreFiles, IsFull, Claims, Owner;
    FilesFacts(members, specs);
    var i :| 0 <= i < |specs| && specs[i].Number() == n;
    OwnerFound(members, members[i], n);
  }

  /** Complete: the numbers from the base's to the newest, and those the base names, are there. */
  lemma {:induction false} FilesComplete(members: seq<BackupFile>, specs: seq<Spec>, b: nat)
    requires AreFiles(members, specs) && b < |specs|
    requires specs[b].blocks.Full? && forall i :: 0 <= i < b ==> specs[i].blocks.Deltas?
    requires forall n: u16 :: specs[b].Number() <= n <= specs[0].Number() ==> HasNumber(specs, n)
    requires forall e :: e in specs[b].blocks.entries && !e.IsHole() ==> HasNumber(specs, e.fileNumber)
    ensures IsComplete(members)
  {
    hide AreFiles, IsFile, IsFull, Claims, Owner, BaseIndex, Flattens, HasNumber, FullEntriesOf, DeltasOf, ReservedOf;
    FilesFacts(members, specs);
    FilesBase(members, specs, b);
    AreFilesAt(members, specs, b);
    FileFacts(members[b], specs[b]);
    forall n: u16 | HasNumber(specs, n) ensures Owner(members, n).Some? {
      NumberIsOwned(members, specs, n);
    }
  }

  lemma {:induction false} FilesFind(members: seq<BackupFile>, specs: seq<Spec>, i: nat)
    requires AreFiles(members, specs) && i < |specs|
    ensures MemberWithNumber(members, specs[i].Number()) == Some(members[i])
  {
    FilesFacts(members, specs);
    hide IsFile, Claims;
    FindsFirstMember(members, specs[i].Number());
    assert members[i] in members;
    var at: nat :| IsFirst(members, specs[i].Number(), at)
                && members[at] == MemberWithNumber(members, specs[i].Number()).value;
    assert specs[at].Number() == specs[i].Number();
  }

  predicate SpecInRange(s: Spec, low: u16, high: u16) {
    low <= s.Increment() <= high
  }

  /** The numbers of the specifications in an increment range. */
  ghost predicate IsRange(specs: seq<Spec>, low: u16, high: u16, absorbed: set<u16>) {
    && (forall i :: 0 <= i < |specs| && SpecInRange(specs[i], low, high) ==> specs[i].Number() in absorbed)
    && (forall n :: n in absorbed ==>
          exists i :: 0 <= i < |specs| && specs[i].Number() == n && SpecInRange(specs[i], low, high))
  }

  lemma {:induction false} FilesClosure(members: seq<BackupFile>, specs: seq<Spec>, low: u16, high: u16,
        absorbed: set<u16>)
    requires AreFiles(members, specs) && IsRange(specs, low, high, absorbed)
    ensures IsClosure(members, low, high, absorbed)
  {
    hide AreFiles, IsFile, Claims, IsFull, ShapeOf;
    FilesFacts(members, specs);
    forall n: u16 ensures n in absorbed <==> ClaimedInRange(members, low, high, n) {
      if n in absorbed {
        var i :| 0 <= i < |specs| && specs[i].Number() == n && SpecInRange(specs[i], low, high);
        assert members[i] in members && InRange(members[i], low, high) && n in Claims(members[i]);
      }
      if ClaimedInRange(members, low, high, n) {
        var m :| m in members && InRange(m, low, high) && n in Claims(m);
        var i :| 0 <= i < |members| && members[i] == m;
        assert SpecInRange(specs[i], low, high);
      }
    }
  }

  // ----- plans -----

  function KindOf(from: Spec): MergeKind {
    if from.blocks.Full? then SyntheticFull else IncrementalMerge
  }

  /** The plan of a merge of such files up to the newest one. */
  function PlanOf(specs: seq<Spec>, from: nat, absorbed: set<u16>, part: PartitionPlan): MergePlan
    requires from < |specs|
  {
    var kind := KindOf(specs[from]);
    MergePlan(specs[from].Number(), specs[0].Number(), kind, absorbed, [part], specs[from].Number(),
              specs[from].Increment(), TinyEstimate(specs[0].doc, part, specs[0].aux, kind))
  }

  /** What the pair and the range must be. */
  ghost predicate PairFits(specs: seq<Spec>, from: nat) {
    && 0 < from < |specs| && specs[from].Increment() <= specs[0].Increment()
    && !specs[from].doc.header.IsDifferential() && !specs[0].doc.header.IsDifferential()
    && (specs[from].blocks.Deltas? ==>
          forall i :: 0 <= i < |specs| && SpecInRange(specs[i], specs[from].Increment(), specs[0].Increment()) ==>
            specs[i].blocks.Deltas?)
  }

  lemma {:induction false} FilesDiffer(specs: seq<Spec>, members: seq<BackupFile>, from: nat)
    requires AreFiles(members, specs) && 0 < from < |specs|
    ensures specs[0].Number() > specs[from].Number()
  {
    hide IsFile;
  }

  lemma {:induction false} FilesRules(members: seq<BackupFile>, specs: seq<Spec>, from: nat)
    requires AreFiles(members, specs) && PairFits(specs, from)
    ensures RulesHold(members, members[from], members[0])
  {
    hide AreFiles, IsFile, Claims, IsFull, ShapeOf;
    FilesFacts(members, specs);
    FilesDiffer(specs, members, from);
    var low, high := specs[from].Increment(), specs[0].Increment();
    forall m | m in members
      ensures m.doc.settings == members[0].doc.settings && !m.Header().splitFile
      ensures !IsFull(members[from]) && InRange(m, low, high) ==> !IsFull(m)
    {
      var i :| 0 <= i < |members| && members[i] == m;
      assert SpecInRange(specs[i], low, high) <==> InRange(m, low, high);
    }
  }

  lemma {:induction false} FilesPlan(members: seq<BackupFile>, specs: seq<Spec>, from: nat, absorbed: set<u16>,
        part: PartitionPlan, b: nat)
    requires AreFiles(members, specs) && PairFits(specs, from)
    requires IsRange(specs, specs[from].Increment(), specs[0].Increment(), absorbed)
    requires b < |specs| && specs[b].blocks.Full? && forall i :: 0 <= i < b ==> specs[i].blocks.Deltas?
    requires part.reserved == []
    requires MetadataEstimate(members[0], [part], KindOf(specs[from]))
          == TinyEstimate(specs[0].doc, part, specs[0].aux, KindOf(specs[from]))
    requires PartitionPlanned(members, members[0], KindOf(specs[from]), absorbed, 0, 0, part)
    ensures IsPlan(members, PlanOf(specs, from, absorbed, part))
  {
    FilesFacts(members, specs);
    hide IsFile, RulesHold, Flattens, MemberWithNumber, IsClosure, MetadataEstimate, PartitionPlanned, IsFull, IsPlan,
      Claims, IsRange, AreFiles, PairFits, TinyEstimate;
    FilesRules(members, specs, from);
    FilesBase(members, specs, b);
    FilesFind(members, specs, 0);
    FilesFind(members, specs, from);
    FilesClosure(members, specs, specs[from].Increment(), specs[0].Increment(), absorbed);
    GatherPlan(members, PlanOf(specs, from, absorbed, part), members[from]);
  }

  // ----- outputs that copy nothing -----

  lemma {:induction false} NoKeys(actions: seq<Action>)
    requires forall a :: a in actions ==> !a.Copy?
    ensures CopyKeys(actions) == []
  {
    if actions != [] {
      NoKeys(actions[..|actions| - 1]);
    }
  }

  lemma {:induction false} NothingLaidOut(plan: MergePlan, part: PartitionPlan)
    requires plan.partitions == [part] && part.reserved == [] && forall a :: a in part.blocks ==> !a.Copy?
    ensures PlanKeys(plan.partitions) == [] && Write.Layout(plan) == []
  {
    var parts := plan.partitions;
    assert AllActions(parts[..0]) == [] && AllActions(parts) == part.blocks;
    NoKeys(part.blocks);
  }

  function OutputDoc(to: Doc, plan: MergePlan, blocks: Blocks): (doc: Doc)
    requires IsShort(to) && blocks.Length() <= 1 && blocks.Deltas? == plan.kind.DeltaIndex()
    ensures IsTiny(doc, [], blocks)
  {
    MergedIsShort(to, plan, 0);
    MergedDoc(to, plan, 0)
  }

  /** The output of a merge that copies nothing. */
  function OutputFile(to: Doc, plan: MergePlan, blocks: Blocks): BackupFile
    requires IsShort(to) && blocks.Length() <= 1 && blocks.Deltas? == plan.kind.DeltaIndex()
  {
    Tiny("out", OutputDoc(to, plan, blocks), [], blocks, false)
  }

  /** The plan copies nothing, and these are the blocks it makes. */
  ghost predicate MakesBlocks(plan: MergePlan, blocks: Blocks) {
    && |plan.partitions| == 1 && plan.partitions[0].reserved == []
    && plan.partitions[0].disk == 0 && plan.partitions[0].partition == 0
    && (forall a :: a in plan.partitions[0].blocks ==> !a.Copy?)
    && PartitionWritten(plan.kind, plan.partitions[0], WrittenPartition(0, 0, Entries(blocks)), [], plan.outFileNumber)
    && plan.outFileNumber in plan.absorbed
    && blocks.Length() <= 1 && blocks.Deltas? == plan.kind.DeltaIndex()
  }

  lemma {:induction false} OutputFacts(to: Spec, plan: MergePlan, blocks: Blocks)
    requires to.Valid() && MakesBlocks(plan, blocks)
    ensures var o := OutputFile(to.doc, plan, blocks);
            && Bare(o, OutputDoc(to.doc, plan, blocks), blocks) && IsParsed(Libraries(), o)
            && o.Header() == PatchedHeader(to.doc.header, plan, 0) && Claims(o) == plan.absorbed
            && o.doc.settings == to.doc.settings && o.doc.disks == to.doc.disks
  {
    hide Tiny, IsParsed, Libraries, PartitionWritten, Encode;
    TinyIs("out", OutputDoc(to.doc, plan, blocks), [], blocks, false);
    PatchedClaims(to.doc.header, plan, 0);
  }

  lemma {:induction false} OutputIsMerged(lower: seq<BackupFile>, to: Spec, plan: MergePlan, blocks: Blocks)
    requires to.Valid() && MakesBlocks(plan, blocks) && lower != [] && IsFile(lower[0], to)
    ensures IsMergedFile(lower, plan, OutputFile(to.doc, plan, blocks))
  {
    hide Tiny, IsParsed, Libraries, PartitionWritten, Encode, Claims, PatchedHeader, SourcesOf, OutputDoc, Write.Layout,
      PlanKeys, OutputFile, IsFile, IsFull, FullEntriesOf, DeltasOf, ReservedOf, IsShort, Spec.Valid;
    ValidIsShort(to);
    OutputFacts(to, plan, blocks);
    FileFacts(lower[0], to);
    FileDoc(lower[0], to);
    NothingLaidOut(plan, plan.partitions[0]);
    var o := OutputFile(to.doc, plan, blocks);
    assert SlotBase(ShapeOf(o.disks), 1) == 1;
    assert IndexInSlot(plan, o, Write.Layout(plan), 0, 0);
  }

  lemma {:induction false} ValidIsShort(s: Spec)
    requires s.Valid()
    ensures IsShort(s.doc)
  {
  }

  lemma {:induction false} FileDoc(m: BackupFile, s: Spec)
    requires IsFile(m, s)
    ensures m.doc == s.doc
  {
    hide IsParsed, Claims, Libraries;
  }

  lemma {:induction false} EmptyRegion(source: Source, plan: MergePlan, blocks: Blocks)
    requires MakesBlocks(plan, blocks)
    ensures var region := DataRegion([WrittenPartition(0, 0, Entries(blocks))], 0, 0, 0);
            RegionWritten(plan, source, plan.outFileNumber, region, [])
  {
    hide Write.Layout, PlanKeys, PartitionWritten;
    NothingLaidOut(plan, plan.partitions[0]);
  }

  /** The writer makes exactly these bytes of the plan. */
  lemma {:induction false} OutputIsWritten(lower: seq<BackupFile>, to: Spec, plan: MergePlan, blocks: Blocks,
        stamp: Stamp)
    requires to.Valid() && to.data == [] && !to.aux && MakesBlocks(plan, blocks) && lower != [] && lower[0] == to.File()
    ensures IsWritten(lower, plan, stamp, OutputFile(to.doc, plan, blocks).image)
  {
    hide Encode, SourcesOf, OutputWritten, WrittenImage, ImageOf, Libraries, IndexBytes, DisksOrdered, RegionWritten,
      PartitionWritten, PatchedHeader;
    var source, merged := SourcesOf(lower, plan.absorbed), Entries(blocks);
    var doc := OutputDoc(to.doc, plan, blocks);
    var region := DataRegion([WrittenPartition(0, 0, merged)], 0, 0, 0);
    EmptyRegion(source, plan, blocks);
    TinyFits(to.doc, [], to.blocks);
    TinyFits(doc, [], blocks);
    SmallIsWritten(to.path, to.doc, [], Entries(to.blocks), false, plan, source, stamp, region, [], merged);
    WrittenIsImage(Encode(doc), [], merged);
  }

  // ----- a whole merge -----

  /** Everything the lemmas above ask of a merge of such files up to the newest one. */
  ghost predicate IsSmallMerge(members: seq<BackupFile>, specs: seq<Spec>, from: nat, plan: MergePlan, blocks: Blocks,
        b: nat)
  {
    && AreFiles(members, specs) && PairFits(specs, from) && members != [] && specs != []
    && specs[0].Valid() && specs[0].data == [] && !specs[0].aux && members[0] == specs[0].File()
    && IsRange(specs, specs[from].Increment(), specs[0].Increment(), plan.absorbed)
    && b < |specs| && specs[b].blocks.Full? && (forall i :: 0 <= i < b ==> specs[i].blocks.Deltas?)
    && MakesBlocks(plan, blocks) && plan == PlanOf(specs, from, plan.absorbed, plan.partitions[0])
    && PartitionPlanned(members, members[0], plan.kind, plan.absorbed, 0, 0, plan.partitions[0])
  }

  lemma {:induction false} MergeIsPlan(members: seq<BackupFile>, specs: seq<Spec>, from: nat, plan: MergePlan,
        blocks: Blocks, b: nat)
    requires IsSmallMerge(members, specs, from, plan, blocks, b)
    ensures IsPlan(members, plan)
  {
    hide IsFile, IsPlan, AreFiles, PairFits, IsRange, MetadataEstimate, Tiny, PartitionPlanned, PartitionWritten,
      TinyEstimate, IsTiny;
    var to, part := specs[0], plan.partitions[0];
    TinyMetadata(to.path, to.doc, to.blocks, part, to.aux, plan.kind);
    FilesPlan(members, specs, from, plan.absorbed, part, b);
  }

  /** The merge is one the planner accepts and the writer writes, and its output parses. */
  lemma {:induction false} MergeIsWritten(members: seq<BackupFile>, specs: seq<Spec>, from: nat, plan: MergePlan,
        blocks: Blocks, b: nat, stamp: Stamp)
    requires IsSmallMerge(members, specs, from, plan, blocks, b)
    ensures members != [] && WellFormed(Libraries(), members) && IsPlan(members, plan)
    ensures var o := OutputFile(specs[0].doc, plan, blocks);
            && IsMergedFile(members, plan, o) && IsParsed(Libraries(), o)
            && IsWritten(members, plan, stamp, o.image)
  {
    MergeIsPlan(members, specs, from, plan, blocks, b);
    hide IsFile, IsPlan, AreFiles, PairFits, IsRange, PartitionPlanned, MakesBlocks, PlanOf, WellFormed, IsMergedFile,
      IsParsed, IsWritten, Tiny, IsTiny, Libraries, Bare, Claims, PatchedHeader;
    FilesAreWellFormed(members, specs);
    AreFilesAt(members, specs, 0);
    OutputFacts(specs[0], plan, blocks);
    OutputIsMerged(members, specs[0], plan, blocks);
    OutputIsWritten(members, specs[0], plan, blocks, stamp);
  }

  lemma {:induction false} MergeParts(members: seq<BackupFile>, specs: seq<Spec>, from: nat, plan: MergePlan,
        blocks: Blocks, b: nat)
    requires IsSmallMerge(members, specs, from, plan, blocks, b)
    ensures AreFiles(members, specs) && |members| == |specs| > 0 && members[0..] == members
    ensures IsShort(specs[0].doc) && blocks.Length() <= 1 && blocks.Deltas? == plan.kind.DeltaIndex()
  {
    hide IsFile, PairFits, IsRange, PartitionPlanned, PartitionWritten, PlanOf, Tiny;
  }

  ghost predicate Follow(specs: seq<Spec>) {
    forall i, j :: 0 <= i < j < |specs| ==> specs[i].Increment() >= specs[j].Increment()
  }

  lemma {:induction false} FilesFollow(members: seq<BackupFile>, specs: seq<Spec>)
    requires AreFiles(members, specs) && Follow(specs)
    ensures IncrementsFollow(members)
  {
    hide AreFiles, IsFile, IsFull, Claims, ShapeOf;
    FilesFacts(members, specs);
  }

  /** Where increments follow, it is a step. */
  lemma {:induction false} MergeIsAccepted(members: seq<BackupFile>, specs: seq<Spec>, from: nat, plan: MergePlan,
        blocks: Blocks, b: nat, stamp: Stamp)
    requires IsSmallMerge(members, specs, from, plan, blocks, b) && Follow(specs)
    ensures WellFormed(Libraries(), members) && IncrementsFollow(members)
    ensures var o := OutputFile(specs[0].doc, plan, blocks);
            && AcceptedAt(Libraries(), members, 0, plan, o) && IsWritten(members, plan, stamp, o.image)
  {
    hide *;
    MergeParts(members, specs, from, plan, blocks, b);
    MergeIsWritten(members, specs, from, plan, blocks, b, stamp);
    FilesFollow(members, specs);
    FollowingIsAccepted(Libraries(), members, 0, plan, OutputFile(specs[0].doc, plan, blocks));
  }
}
