/** Reading a finished output back: the check before any deletion, and where its own data ends. */
module Readback {
  import opened Wrappers
  import opened Bytes
  import opened Index
  import Block
  import opened Json
  import opened Reader
  import opened Set
  import opened Plan
  import opened Write
  import opened Output
  import opened Merge

  // ----- the check -----

  /** No entry names an absorbed file but the output itself, and its own blocks lie in the data region. */
  predicate EntryPasses(plan: MergePlan, dataEnd: nat, e: Element) {
    e.IsHole() ||
    (&& (e.fileNumber == plan.outFileNumber || e.fileNumber !in plan.absorbed)
     && (e.fileNumber == plan.outFileNumber ==> 0 <= e.position && e.position + e.length <= dataEnd))
  }

  ghost predicate FilePasses(plan: MergePlan, file: BackupFile) {
    && |file.image| == file.rootList.end + 20
    && file.Header().fileNumber == plan.outFileNumber
    && file.Header().deltaIndex == plan.kind.DeltaIndex()
    && forall e :: HasEntry(file.disks, e) ==> EntryPasses(plan, file.Header().indexFilePosition, e)
  }

  ghost predicate PassesCheck(f: Foreign, plan: MergePlan, path: string, image: seq<byte>) {
    ParseFile(f, path, image).Ok? && FilePasses(plan, ParseFile(f, path, image).value)
  }

  method CheckEntries(plan: MergePlan, dataEnd: nat, entries: seq<Element>) returns (ok: bool)
    ensures ok <==> forall e :: e in entries ==> EntryPasses(plan, dataEnd, e)
  {
    for i := 0 to |entries|
      invariant forall k :: 0 <= k < i ==> EntryPasses(plan, dataEnd, entries[k])
    {
      var entry := entries[i];
      if entry.IsHole() {
        continue;
      }
      if entry.fileNumber != plan.outFileNumber && entry.fileNumber in plan.absorbed {
        assert !EntryPasses(plan, dataEnd, entries[i]);
        return false;
      }
      if entry.fileNumber == plan.outFileNumber && (entry.position < 0 || entry.position + entry.length > dataEnd) {
        assert !EntryPasses(plan, dataEnd, entries[i]);
        return false;
      }
    }
    return true;
  }

  method CheckPartitions(plan: MergePlan, dataEnd: nat, parts: seq<Partition>) returns (ok: bool)
    ensures ok <==> forall p, e :: 0 <= p < |parts| && e in EntriesOf(parts[p].index) ==> EntryPasses(plan, dataEnd, e)
  {
    for p := 0 to |parts|
      invariant forall q, e :: 0 <= q < p && e in EntriesOf(parts[q].index) ==> EntryPasses(plan, dataEnd, e)
    {
      var passed := CheckEntries(plan, dataEnd, EntriesOf(parts[p].index));
      if !passed {
        return false;
      }
    }
    return true;
  }

  method CheckDisks(plan: MergePlan, dataEnd: nat, disks: seq<Disk>) returns (ok: bool)
    ensures ok <==> forall e :: HasEntry(disks, e) ==> EntryPasses(plan, dataEnd, e)
  {
    hide EntriesOf, EntryPasses;
    for d := 0 to |disks|
      invariant forall c, p, e ::
        0 <= c < d && 0 <= p < |disks[c].partitions| && e in EntriesOf(disks[c].partitions[p].index)
        ==> EntryPasses(plan, dataEnd, e)
    {
      var passed := CheckPartitions(plan, dataEnd, disks[d].partitions);
      if !passed {
        ghost var p, e :| 0 <= p < |disks[d].partitions| && e in EntriesOf(disks[d].partitions[p].index)
                       && !EntryPasses(plan, dataEnd, e);
        assert HasEntry(disks, e);
        return false;
      }
    }
    return true;
  }

  /** Read a finished output back; it is accepted exactly when it parses and is what the plan describes. */
  method CheckOutput(f: Foreign, plan: MergePlan, path: string, image: seq<byte>) returns (r: Result<()>)
    ensures r.Ok? <==> PassesCheck(f, plan, path, image)
  {
    hide ParseFile, HasEntry;
    var file: BackupFile :- Reader.Parse(f, path, image);
    if !FramingHolds(file) {
      return Err("bytes follow the root block list");
    }
    if file.Header().fileNumber != plan.outFileNumber {
      return Err("the output claims another file number");
    }
    if file.Header().deltaIndex != plan.kind.DeltaIndex() {
      return Err("the output claims another index form");
    }
    var passed := CheckDisks(plan, file.Header().indexFilePosition, file.disks);
    if !passed {
      return Err("an entry of the output does not check");
    }
    return Ok(());
  }

  // ----- what a merged file's entries are -----

  function BlockElements(blocks: Blocks): seq<Element> {
    match blocks case Full(entries) => entries case Deltas(deltas) => DeltaElements(deltas)
  }

  lemma {:induction false} WrittenBlocks(kind: MergeKind, part: PartitionPlan, index: PartitionIndex, order: seq<Key>,
        outNumber: u16)
    requires IndexWritten(kind, part, index, order, outNumber)
    ensures Written(part.reserved, index.reserved, order, outNumber)
    ensures Written(part.blocks, BlockElements(index.blocks), order, outNumber)
    ensures EntriesOf(index) == index.reserved + BlockElements(index.blocks)
  {
  }

  /** The entry a planned block action was classified from. */
  ghost function SourceOf(members: seq<BackupFile>, plan: MergePlan, part: PartitionPlan, d: nat, p: nat,
        i: nat): Element {
    if plan.kind.SyntheticFull? then Lookup(Chain(members, d, p), i)
    else if i < |part.positions| then Lookup(Chain(members, d, p), part.positions[i])
    else HOLE
  }

  lemma {:induction false} PlannedSource(members: seq<BackupFile>, plan: MergePlan, part: PartitionPlan, d: nat,
        p: nat, i: nat)
    requires members != [] && PartitionPlanned(members, members[0], plan.kind, plan.absorbed, d, p, part)
    requires i < |part.blocks|
    ensures var source := SourceOf(members, plan, part, d, p, i);
            && part.blocks[i] == Classify(source, plan.absorbed)
            && (source == HOLE || source in Chain(members, d, p))
  {
    hide Chain, Classify, ChangedBy;
  }

  /** Every entry of a merged file was written for a resolved or reserved entry of the set. */
  lemma {:induction false} OutputEntry(members: seq<BackupFile>, plan: MergePlan, o: BackupFile, e: Element)
    returns (source: Element, d: nat, p: nat)
    requires Mergeable(members, plan) && IsMergedFile(members, plan, o)
    requires HasEntry(o.disks, e)
    ensures members != [] && d < |members[0].disks| && p < |members[0].disks[d].partitions|
    ensures EntryMatches(Classify(source, plan.absorbed), e, Layout(plan), plan.outFileNumber)
    ensures source == HOLE || source in Chain(members, d, p) || source in ReservedOf(members[0], d, p)
  {
    SameDisks(members, plan, o);
    hide Mergeable, IsMergedFile, EntryMatches, Classify, Chain, Layout, IndexWritten, EntriesOf, PartitionPlanned,
      ReservedOf;
    d, p :| 0 <= d < |o.disks| && 0 <= p < |o.disks[d].partitions| && e in EntriesOf(o.disks[d].partitions[p].index);
    var part := PlanOfPartition(members, plan, o, d, p);
    source := EntrySource(members, plan, part, o.disks[d].partitions[p].index, d, p, e);
  }

  lemma {:induction false} EntrySource(members: seq<BackupFile>, plan: MergePlan, part: PartitionPlan,
        index: PartitionIndex, d: nat, p: nat, e: Element)
    returns (source: Element)
    requires members != [] && PartitionPlanned(members, members[0], plan.kind, plan.absorbed, d, p, part)
    requires IndexWritten(plan.kind, part, index, Layout(plan), plan.outFileNumber) && e in EntriesOf(index)
    ensures EntryMatches(Classify(source, plan.absorbed), e, Layout(plan), plan.outFileNumber)
    ensures source == HOLE || source in Chain(members, d, p) || source in ReservedOf(members[0], d, p)
  {
    hide EntryMatches, Classify, Chain, Layout, IndexWritten, EntriesOf, BlockElements, SourceOf, ChangedBy, ReservedOf;
    WrittenBlocks(plan.kind, part, index, Layout(plan), plan.outFileNumber);
    if e in index.reserved {
      var i :| 0 <= i < |index.reserved| && index.reserved[i] == e;
      assert EntryMatches(part.reserved[i], e, Layout(plan), plan.outFileNumber);
      source := ReservedOf(members[0], d, p)[i];
    } else {
      var i :| 0 <= i < |BlockElements(index.blocks)| && BlockElements(index.blocks)[i] == e;
      assert EntryMatches(part.blocks[i], e, Layout(plan), plan.outFileNumber);
      PlannedSource(members, plan, part, d, p, i);
      source := SourceOf(members, plan, part, d, p, i);
    }
  }

  lemma {:induction false} SameDisks(members: seq<BackupFile>, plan: MergePlan, o: BackupFile)
    requires IsMergedFile(members, plan, o)
    ensures members != [] && |o.disks| == |members[0].disks|
    ensures forall d :: 0 <= d < |o.disks| ==> |o.disks[d].partitions| == |members[0].disks[d].partitions|
  {
    hide Copyable, PatchedHeader, Payload, IndexInSlot;
    forall d | 0 <= d < |o.disks| ensures |o.disks[d].partitions| == |members[0].disks[d].partitions| {
      assert ShapeOf(o.disks)[d] == ShapeOf(members[0].disks)[d];
    }
  }

  lemma {:induction false} DataEnd(members: seq<BackupFile>, plan: MergePlan, o: BackupFile)
    requires IsMergedFile(members, plan, o)
    ensures o.Header().indexFilePosition == Block.AlignUp(TotalLength(Layout(plan)))
  {
  }

  /** A written entry is a hole, names a file that stays, or lies in the output's own payload. */
  lemma {:induction false} MatchedEntry(source: Element, absorbed: set<u16>, e: Element, order: seq<Key>,
        outNumber: u16)
    requires EntryMatches(Classify(source, absorbed), e, order, outNumber)
    ensures || e == HOLE
            || (!e.IsHole() && e == source && e.fileNumber !in absorbed)
            || (!e.IsHole() && e.fileNumber == outNumber && 0 <= e.position && Stop(e) <= TotalLength(order))
  {
    if !source.IsHole() && source.fileNumber in absorbed {
      OffsetBounds(order, KeyOf(source));
    }
  }

  /** The read-back accepts a merged file: in particular none of its entries names a deleted file. */
  lemma {:induction false} MergedFilePasses(members: seq<BackupFile>, plan: MergePlan, o: BackupFile)
    requires Mergeable(members, plan) && IsMergedFile(members, plan, o) && |o.image| == o.rootList.end + 20
    ensures FilePasses(plan, o)
  {
    hide Mergeable, IsMergedFile, HasEntry, EntryPasses;
    MergedForm(members, plan, o);
    forall e | HasEntry(o.disks, e) ensures EntryPasses(plan, o.Header().indexFilePosition, e) {
      MergedEntryPasses(members, plan, o, e);
    }
  }

  lemma {:induction false} MergedEntryPasses(members: seq<BackupFile>, plan: MergePlan, o: BackupFile, e: Element)
    requires Mergeable(members, plan) && IsMergedFile(members, plan, o) && HasEntry(o.disks, e)
    ensures EntryPasses(plan, o.Header().indexFilePosition, e)
  {
    hide Mergeable, IsMergedFile, HasEntry, EntryMatches, Chain, ReservedOf, Classify, Layout, TotalLength;
    DataEnd(members, plan, o);
    var source, d, p := OutputEntry(members, plan, o, e);
    MatchedEntry(source, plan.absorbed, e, Layout(plan), plan.outFileNumber);
    OutIsAbsorbed(members, plan);
  }

  lemma {:induction false} MergedForm(members: seq<BackupFile>, plan: MergePlan, o: BackupFile)
    requires IsMergedFile(members, plan, o)
    ensures o.Header().fileNumber == plan.outFileNumber && o.Header().deltaIndex == plan.kind.DeltaIndex()
  {
  }

  // ----- where the output's own data ends -----

  lemma {:induction false} KeyFromPartition(partitions: seq<PartitionPlan>, key: Key) returns (k: nat)
    requires key in PlanKeys(partitions)
    ensures k < |partitions| && key in CopyKeys(partitions[k].Actions())
  {
    var init, last := partitions[..|partitions| - 1], partitions[|partitions| - 1];
    CopyKeysOfConcat(AllActions(init), last.Actions());
    if key in CopyKeys(last.Actions()) {
      k := |partitions| - 1;
    } else {
      k := KeyFromPartition(init, key);
    }
  }

  lemma {:induction false} KeyFromAction(actions: seq<Action>, key: Key) returns (i: nat)
    requires key in CopyKeys(actions)
    ensures i < |actions| && actions[i].Copy? && KeyOf(actions[i].element) == key
  {
    var last := actions[|actions| - 1];
    if last.Copy? && KeyOf(last.element) == key {
      i := |actions| - 1;
    } else {
      i := KeyFromAction(actions[..|actions| - 1], key);
    }
  }

  lemma {:induction false} SlotOf(shape: seq<nat>, upTo: nat, k: nat) returns (d: nat, p: nat)
    requires upTo <= |shape| && k < SlotBase(shape, upTo)
    ensures d < upTo && p < shape[d] && Slot(shape, d, p) == k
  {
    if k >= SlotBase(shape, upTo - 1) {
      d, p := upTo - 1, k - SlotBase(shape, upTo - 1);
    } else {
      d, p := SlotOf(shape, upTo - 1, k);
    }
  }

  /** Every laid-out key has an entry of the output that points at its copy. */
  lemma {:induction false} KeyHasEntry(members: seq<BackupFile>, plan: MergePlan, o: BackupFile, key: Key)
    returns (e: Element)
    requires Mergeable(members, plan) && IsMergedFile(members, plan, o)
    requires key in Layout(plan)
    ensures HasEntry(o.disks, e) && e.position == Offset(Layout(plan), key) && e.length == key.length
    ensures e.fileNumber == plan.outFileNumber
  {
    hide Mergeable, Copyable, PatchedHeader, Payload, Offset, Slot, IndexWritten, EntryMatches, PlanKeys;
    FirstSeenMeaning(PlanKeys(plan.partitions));
    var k := KeyFromPartition(plan.partitions, key);
    var d, p := SlotOf(ShapeOf(o.disks), |o.disks|, k);
    assert IndexInSlot(plan, o, Layout(plan), d, p);
    e := KeyInIndex(plan.kind, plan.partitions[k], o.disks[d].partitions[p].index, Layout(plan), plan.outFileNumber,
          key);
  }

  lemma {:induction false} KeyInIndex(kind: MergeKind, part: PartitionPlan, index: PartitionIndex, order: seq<Key>,
        outNumber: u16, key: Key)
    returns (e: Element)
    requires IndexWritten(kind, part, index, order, outNumber) && key in CopyKeys(part.Actions()) && key in order
    ensures e in EntriesOf(index) && e.position == Offset(order, key) && e.length == key.length
    ensures e.fileNumber == outNumber
  {
    hide IndexWritten, Offset, EntriesOf, BlockElements;
    var i := KeyFromAction(part.Actions(), key);
    WrittenBlocks(kind, part, index, order, outNumber);
    if i < |part.reserved| {
      e := index.reserved[i];
      assert EntryMatches(part.reserved[i], e, order, outNumber);
    } else {
      e := BlockElements(index.blocks)[i - |part.reserved|];
      assert EntryMatches(part.blocks[i - |part.reserved|], e, order, outNumber);
    }
  }

  /**
   * Writer and reader agree on the layout: rounding up where the reader finds the output's own data
   * to end gives exactly the position the header records for the metadata region.
   */
  lemma {:induction false} LayoutAgrees(members: seq<BackupFile>, plan: MergePlan, o: BackupFile, end: nat)
    requires Mergeable(members, plan) && IsMergedFile(members, plan, o)
    requires forall e :: HasEntry(o.disks, e) && Own(o, e) ==> Stop(e) <= end
    requires end == 0 || exists e :: HasEntry(o.disks, e) && Own(o, e) && Stop(e) == end
    ensures end == TotalLength(Layout(plan))
    ensures o.Header().indexFilePosition == Block.AlignUp(end)
  {
    DataEnd(members, plan, o);
    MergedForm(members, plan, o);
    OutIsAbsorbed(members, plan);
    hide Mergeable, IsMergedFile, HasEntry, EntryMatches, Layout, Offset, Chain, ReservedOf, Classify, TotalLength,
      Block.AlignUp;
    var order := Layout(plan);
    if end > 0 {
      var e :| HasEntry(o.disks, e) && Own(o, e) && Stop(e) == end;
      var source, d, p := OutputEntry(members, plan, o, e);
      MatchedEntry(source, plan.absorbed, e, order, plan.outFileNumber);
    }
    if TotalLength(order) > 0 {
      LastKeyEnds(members, plan, o, end);
    }
  }

  lemma {:induction false} LastKeyEnds(members: seq<BackupFile>, plan: MergePlan, o: BackupFile, end: nat)
    requires Mergeable(members, plan) && IsMergedFile(members, plan, o)
    requires forall e :: HasEntry(o.disks, e) && Own(o, e) ==> Stop(e) <= end
    requires TotalLength(Layout(plan)) > 0
    ensures TotalLength(Layout(plan)) <= end
  {
    hide Mergeable, IsMergedFile, HasEntry, Layout, Offset, TotalLength, Distinct;
    MergedForm(members, plan, o);
    LayoutIsDistinct(plan);
    var key := LastKey(Layout(plan));
    var e := KeyHasEntry(members, plan, o, key);
  }

  lemma {:induction false} LayoutIsDistinct(plan: MergePlan)
    ensures Distinct(Layout(plan))
  {
    FirstSeenMeaning(PlanKeys(plan.partitions));
  }

  /** Some key ends where the payload does. */
  lemma {:induction false} LastKey(order: seq<Key>) returns (key: Key)
    requires Distinct(order) && TotalLength(order) > 0
    ensures key in order && key.length > 0 && Offset(order, key) + key.length == TotalLength(order)
  {
    RangesTile(order, TotalLength(order) - 1);
    key :| key in order && Covers(order, key, TotalLength(order) - 1);
    OffsetBounds(order, key);
  }
}
