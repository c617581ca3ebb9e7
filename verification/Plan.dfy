/** What a merge does, decided before anything is written. */
module Plan {
  import opened Wrappers
  import opened Bytes
  import opened Index
  import Block
  import opened Reader
  import opened Set

  datatype MergeKind = SyntheticFull | IncrementalMerge {
    predicate DeltaIndex() {
      IncrementalMerge?
    }
  }

  datatype Action = Hole | Keep(element: Element) | Copy(element: Element) {
    function BytesToCopy(): nat {
      if Copy? then element.length else 0
    }
  }

  /** The plan for one partition; `positions` is empty for a synthetic Full. */
  datatype PartitionPlan = PartitionPlan(
    disk: nat, partition: nat, reserved: seq<Action>, blocks: seq<Action>, positions: seq<u32>)
  {
    function Actions(): seq<Action> {
      reserved + blocks
    }
  }

  datatype MergePlan = MergePlan(
    from: u16, to: u16, kind: MergeKind, absorbed: set<u16>, partitions: seq<PartitionPlan>,
    outFileNumber: u16, outIncrementNumber: u16, metadataBytes: nat)
  {
    function BlocksToCopy(): nat { CountCopies(AllActions(partitions)) }
    function BlocksKept(): nat { CountKept(AllActions(partitions)) }
    function BytesToCopy(): nat { SumBytes(AllActions(partitions)) }
    function ProjectedSize(): nat { Block.AlignUp(BytesToCopy()) + metadataBytes }
  }

  /** Every action of the plan in the order it is written. */
  function AllActions(partitions: seq<PartitionPlan>): seq<Action> {
    if partitions == [] then []
    else AllActions(partitions[..|partitions| - 1]) + partitions[|partitions| - 1].Actions()
  }

  function CountCopies(actions: seq<Action>): nat {
    if actions == [] then 0
    else CountCopies(actions[..|actions| - 1]) + if actions[|actions| - 1].Copy? then 1 else 0
  }

  function CountKept(actions: seq<Action>): nat {
    if actions == [] then 0
    else CountKept(actions[..|actions| - 1]) + if actions[|actions| - 1].Keep? then 1 else 0
  }

  function SumBytes(actions: seq<Action>): nat {
    if actions == [] then 0
    else SumBytes(actions[..|actions| - 1]) + actions[|actions| - 1].BytesToCopy()
  }

  /** A hole stays a hole, an absorbed owner's block moves, anything else keeps its reference. */
  function Classify(e: Element, absorbed: set<u16>): Action {
    if e.IsHole() then Hole
    else if e.fileNumber in absorbed then Copy(e)
    else Keep(e)
  }

  // ----- the closure -----

  predicate InRange(m: BackupFile, low: u16, high: u16) {
    low <= m.Header().incrementNumber <= high
  }

  ghost predicate ClaimedInRange(members: seq<BackupFile>, low: u16, high: u16, n: u16) {
    exists m :: m in members && InRange(m, low, high) && n in Claims(m)
  }

  /** Every number a member of the increment range claims. */
  method ClosureOver(members: seq<BackupFile>, low: u16, high: u16) returns (out: set<u16>)
    ensures forall n: u16 :: n in out <==> ClaimedInRange(members, low, high, n)
  {
    out := {};
    for i := 0 to |members|
      invariant forall n: u16 :: n in out <==> ClaimedInRange(members[..i], low, high, n)
    {
      assert members[..i + 1] == members[..i] + [members[i]];
      if low <= members[i].Header().incrementNumber <= high {
        out := out + Claims(members[i]);
      }
    }
    assert members[..|members|] == members;
  }

  /** Whether `absorbed` is the closure of an increment range. */
  ghost predicate IsClosure(members: seq<BackupFile>, low: u16, high: u16, absorbed: set<u16>) {
    forall n: u16 :: n in absorbed <==> ClaimedInRange(members, low, high, n)
  }

  /** With disjoint claims, a member is in the range exactly when any number it claims was absorbed. */
  lemma {:induction false} ClosureIsExact(members: seq<BackupFile>, low: u16, high: u16, absorbed: set<u16>,
        m: BackupFile, n: u16)
    requires DisjointClaims(members) && IsClosure(members, low, high, absorbed)
    requires m in members && n in Claims(m)
    ensures n in absorbed <==> InRange(m, low, high)
  {
    var i :| 0 <= i < |members| && members[i] == m;
    OwnerIs(members, i, n);
    if n in absorbed {
      var m' :| m' in members && InRange(m', low, high) && n in Claims(m');
      var j :| 0 <= j < |members| && members[j] == m';
      OwnerIs(members, j, n);
    }
  }

  // ----- the rules -----

  /** `at` is the first member with that number. */
  ghost predicate IsFirst(members: seq<BackupFile>, number: u16, at: nat) {
    && at < |members| && members[at].Header().fileNumber == number
    && forall j :: 0 <= j < at ==> members[j].Header().fileNumber != number
  }

  function MemberWithNumber(members: seq<BackupFile>, number: u16): (m: Option<BackupFile>)
    ensures m.Some? ==> m.value in members && m.value.Header().fileNumber == number
    ensures m.None? ==> forall x :: x in members ==> x.Header().fileNumber != number
  {
    if members == [] then None
    else if members[0].Header().fileNumber == number then Some(members[0])
    else MemberWithNumber(members[1..], number)
  }

  /** What is found is the first member with that number, and nothing only where none has it. */
  lemma {:induction false} FindsFirstMember(members: seq<BackupFile>, number: u16)
    ensures var m := MemberWithNumber(members, number);
            && (m.Some? ==> exists at: nat :: IsFirst(members, number, at) && members[at] == m.value)
            && (m.None? ==> forall x :: x in members ==> x.Header().fileNumber != number)
  {
    if members != [] {
      var m := MemberWithNumber(members, number);
      if members[0].Header().fileNumber == number {
        assert IsFirst(members, number, 0);
      } else if m.Some? {
        FindsFirstMember(members[1..], number);
        var at: nat :| IsFirst(members[1..], number, at) && members[1..][at] == m.value;
        assert IsFirst(members, number, at + 1);
      }
    }
  }

  /** The four rules that look only at the two files, and the rule that they differ. */
  method CheckPair(from: BackupFile, to: BackupFile) returns (r: Result<()>)
    ensures r.Ok? <==> && from.doc.header.imageId == to.doc.header.imageId
                       && from.doc.header.incrementNumber <= to.doc.header.incrementNumber
                       && from.doc.header.backupType != "diff" && to.doc.header.backupType != "diff"
                       && from.doc.header.fileNumber != to.doc.header.fileNumber
  {
    if from.Header().imageId != to.Header().imageId {
      return Err("Error: From and To files are from a different backup set");
    }
    if from.Header().incrementNumber > to.Header().incrementNumber {
      return Err("Error: From file is more recent than the To file");
    }
    if from.Header().IsDifferential() {
      return Err("Error: From file is a Differential");
    }
    if to.Header().IsDifferential() {
      return Err("Error: To file is a Differential");
    }
    if from.Header().fileNumber == to.Header().fileNumber {
      return Err("the From and To files are the same file, so there is nothing to merge");
    }
    return Ok(());
  }

  predicate PairAllowed(from: BackupFile, to: BackupFile) {
    && from.Header().imageId == to.Header().imageId
    && from.Header().incrementNumber <= to.Header().incrementNumber
    && from.Header().backupType != "diff" && to.Header().backupType != "diff"
    && from.Header().fileNumber != to.Header().fileNumber
  }

  function SplitInRange(members: seq<BackupFile>, low: u16, high: u16): (paths: seq<string>)
    ensures paths == [] <==> forall m :: m in members && InRange(m, low, high) ==> !m.Header().splitFile
    ensures forall p :: p in paths <==>
              exists m :: m in members && InRange(m, low, high) && m.Header().splitFile && m.path == p
  {
    if members == [] then []
    else
      var rest := SplitInRange(members[1..], low, high);
      if members[0].Header().splitFile && InRange(members[0], low, high) then [members[0].path] + rest else rest
  }

  /** The lowest file number of an in-range member with a full index of its own. */
  function FullIndexInRange(members: seq<BackupFile>, low: u16, high: u16): (first: Option<u16>)
    ensures first.None? <==> forall m :: m in members && InRange(m, low, high) ==> !IsFull(m)
    ensures first.Some?
           ==> exists m :: m in members && InRange(m, low, high) && IsFull(m) && m.Header().fileNumber == first.value
    ensures first.Some? ==> forall m :: m in members && InRange(m, low, high) && IsFull(m) ==>
                              first.value <= m.Header().fileNumber
  {
    if members == [] then None
    else
      var rest := FullIndexInRange(members[1..], low, high);
      if IsFull(members[0]) && InRange(members[0], low, high)
      then
        var own := members[0].Header().fileNumber;
        if rest.Some? && rest.value < own then rest else Some(own)
      else rest
  }

  /** What a pair must satisfy before a plan means anything. */
  ghost predicate RulesHold(members: seq<BackupFile>, from: BackupFile, to: BackupFile) {
    var low, high := from.Header().incrementNumber, to.Header().incrementNumber;
    && PairAllowed(from, to)
    && (forall m :: m in members ==> m.doc.settings == to.doc.settings)
    && (forall m :: m in members && InRange(m, low, high) ==> !m.Header().splitFile)
    && (!IsFull(from) ==> forall m :: m in members && InRange(m, low, high) ==> !IsFull(m))
  }

  method CheckRules(members: seq<BackupFile>, from: BackupFile, to: BackupFile) returns (r: Result<()>)
    ensures r.Ok? <==> RulesHold(members, from, to)
  {
    var _ :- CheckPair(from, to);
    for i := 0 to |members|
      invariant forall k :: 0 <= k < i ==> members[k].doc.settings == to.doc.settings
    {
      if members[i].doc.settings != to.doc.settings {
        return Err("a member does not match the rest of the set");
      }
    }
    var low, high := from.Header().incrementNumber, to.Header().incrementNumber;
    if SplitInRange(members, low, high) != [] {
      return Err("this range holds a split backup file, which this tool cannot merge yet");
    }
    if !IsFull(from) && FullIndexInRange(members, low, high).Some? {
      return Err("this range holds a Differential");
    }
    return Ok(());
  }

  // ----- changed positions -----

  ghost predicate Ascending(s: seq<u32>) {
    forall i, j :: 0 <= i < j < |s| ==> s[i] < s[j]
  }

  /** Insertion into an ascending sequence without duplicates. */
  function Insert(s: seq<u32>, x: u32): (out: seq<u32>)
    requires Ascending(s)
    ensures Ascending(out)
    ensures forall y :: y in out <==> y == x || y in s
  {
    if s == [] || s[|s| - 1] < x then s + [x]
    else if s[|s| - 1] == x then s
    else
      var last := s[|s| - 1];
      var init := Insert(s[..|s| - 1], x);
      assert s == s[..|s| - 1] + [last];
      assert forall i :: 0 <= i < |init| ==> init[i] in init;
      init + [last]
  }

  ghost predicate ChangedBy(members: seq<BackupFile>, absorbed: set<u16>, d: nat, p: nat, i: int) {
    exists m :: m in members && m.Header().fileNumber in absorbed && Names(DeltasOf(m, d, p), i)
  }

  /** The positions the absorbed members' delta lists name, ascending, each once. */
  method ChangedPositions(members: seq<BackupFile>, absorbed: set<u16>, d: nat, p: nat) returns (out: seq<u32>)
    ensures Ascending(out)
    ensures forall i: u32 :: i in out <==> ChangedBy(members, absorbed, d, p, i)
  {
    out := [];
    for k := 0 to |members|
      invariant Ascending(out)
      invariant forall i: u32 :: i in out <==> ChangedBy(members[..k], absorbed, d, p, i)
    {
      var member := members[k];
      assert members[..k + 1] == members[..k] + [member];
      ghost var before := out;
      if member.Header().fileNumber !in absorbed {
        continue;
      }
      if d >= |member.disks| || p >= |member.disks[d].partitions| {
        continue;
      }
      if member.disks[d].partitions[p].index.blocks.Deltas? {
        var deltas := member.disks[d].partitions[p].index.blocks.deltas;
        for j := 0 to |deltas|
          invariant Ascending(out)
          invariant forall i: u32 :: i in out <==> i in before || Names(deltas[..j], i)
        {
          NamesOfAppend(deltas[..j], deltas[j]);
          assert deltas[..j + 1] == deltas[..j] + [deltas[j]];
          out := Insert(out, deltas[j].blockIndex);
        }
        assert deltas[..|deltas|] == deltas == DeltasOf(member, d, p);
      }
    }
    assert members[..|members|] == members;
  }

  lemma {:induction false} NamesOfAppend(deltas: seq<Delta>, delta: Delta)
    ensures forall i :: Names(deltas + [delta], i) <==> Names(deltas, i) || i == delta.blockIndex
  {
    var all := deltas + [delta];
    forall i | Names(deltas, i) || i == delta.blockIndex ensures Names(all, i) {
      if Names(deltas, i) {
        var k :| 0 <= k < |deltas| && deltas[k].blockIndex == i;
        assert all[k].blockIndex == i;
      } else {
        assert all[|deltas|].blockIndex == i;
      }
    }
  }

  // ----- the plan -----

  /** Where the partitions of disk `d` start in the flat list of partitions. */
  function SlotBase(shape: seq<nat>, d: nat): nat
    requires d <= |shape|
  {
    if d == 0 then 0 else SlotBase(shape, d - 1) + shape[d - 1]
  }

  function Slot(shape: seq<nat>, d: nat, p: nat): nat
    requires d < |shape|
  {
    SlotBase(shape, d) + p
  }

  function Lookup(blocks: seq<Element>, at: nat): Element {
    if at < |blocks| then blocks[at] else HOLE
  }

  ghost predicate Classified(actions: seq<Action>, entries: seq<Element>, absorbed: set<u16>) {
    && |actions| == |entries|
    && forall i :: 0 <= i < |actions| ==> actions[i] == Classify(entries[i], absorbed)
  }

  /** What the plan of one partition must hold, against the resolved chain. */
  ghost predicate PartitionPlanned(members: seq<BackupFile>, to: BackupFile, kind: MergeKind, absorbed: set<u16>,
                                   d: nat, p: nat, plan: PartitionPlan) {
    && plan.disk == d && plan.partition == p
    && Classified(plan.reserved, ReservedOf(to, d, p), absorbed)
    && match kind
       case SyntheticFull => plan.positions == [] && Classified(plan.blocks, Chain(members, d, p), absorbed)
       case IncrementalMerge =>
         && Ascending(plan.positions)
         && (forall i: u32 :: i in plan.positions <==> ChangedBy(members, absorbed, d, p, i))
         && |plan.blocks| == |plan.positions|
         && forall k :: 0 <= k < |plan.blocks| ==>
              plan.blocks[k] == Classify(Lookup(Chain(members, d, p), plan.positions[k]), absorbed)
  }

  ghost predicate PartitionsPlanned(members: seq<BackupFile>, to: BackupFile, kind: MergeKind, absorbed: set<u16>,
                                    partitions: seq<PartitionPlan>) {
    var shape := to.Shape();
    && |partitions| == SlotBase(shape, |shape|)
    && forall d, p :: 0 <= d < |shape| && 0 <= p < shape[d] ==>
         SlotPlanned(members, to, kind, absorbed, shape, partitions, d, p)
  }

  ghost predicate SlotPlanned(members: seq<BackupFile>, to: BackupFile, kind: MergeKind, absorbed: set<u16>,
                              shape: seq<nat>, partitions: seq<PartitionPlan>, d: nat, p: nat)
    requires d < |shape|
  {
    && Slot(shape, d, p) < |partitions|
    && PartitionPlanned(members, to, kind, absorbed, d, p, partitions[Slot(shape, d, p)])
  }

  /** Whether a pair of file numbers is one `Build` accepts for these members. */
  ghost predicate Accepts(members: seq<BackupFile>, fromNumber: u16, toNumber: u16) {
    && members != []
    && var from, to := MemberWithNumber(members, fromNumber), MemberWithNumber(members, toNumber);
       && from.Some? && to.Some?
       && RulesHold(members, from.value, to.value)
       && toNumber == members[0].Header().fileNumber
       && Flattens(members)
  }

  /** What a plan is, said against the members: everything but how it was computed. */
  ghost predicate IsPlan(members: seq<BackupFile>, plan: MergePlan) {
    && Accepts(members, plan.from, plan.to)
    && var from, to := MemberWithNumber(members, plan.from).value, MemberWithNumber(members, plan.to).value;
       && IsClosure(members, from.Header().incrementNumber, to.Header().incrementNumber, plan.absorbed)
       && plan.kind == (if IsFull(from) then SyntheticFull else IncrementalMerge)
       && PartitionsPlanned(members, to, plan.kind, plan.absorbed, plan.partitions)
       && plan.outFileNumber == from.Header().fileNumber
       && plan.outIncrementNumber == from.Header().incrementNumber
       && plan.metadataBytes == MetadataEstimate(to, plan.partitions, plan.kind)
  }

  /** The two ends of an accepted plan: neither is a Differential, and From comes first. */
  lemma {:induction false} AcceptedEnds(members: seq<BackupFile>, fromNumber: u16, toNumber: u16)
    requires Accepts(members, fromNumber, toNumber)
    ensures exists from :: from in members && EndsAllowed(from, members[0], fromNumber, toNumber)
  {
    var from := MemberWithNumber(members, fromNumber).value;
    assert EndsAllowed(from, members[0], fromNumber, toNumber);
  }

  ghost predicate EndsAllowed(from: BackupFile, to: BackupFile, fromNumber: u16, toNumber: u16) {
    var a, b := from.doc.header, to.doc.header;
    && a.fileNumber == fromNumber && b.fileNumber == toNumber && fromNumber != toNumber
    && a.backupType != "diff" && b.backupType != "diff"
    && a.imageId == b.imageId && a.incrementNumber <= b.incrementNumber
    && !b.splitFile && from.doc.settings == to.doc.settings
  }

  method ClassifyAll(entries: seq<Element>, absorbed: set<u16>) returns (actions: seq<Action>)
    ensures Classified(actions, entries, absorbed)
  {
    actions := [];
    for i := 0 to |entries|
      invariant Classified(actions, entries[..i], absorbed)
    {
      actions := actions + [Classify(entries[i], absorbed)];
    }
  }

  method PlanPartition(members: seq<BackupFile>, to: BackupFile, kind: MergeKind, absorbed: set<u16>,
                       d: nat, p: nat, resolved: seq<Element>) returns (plan: PartitionPlan)
    requires d < |to.disks| && p < |to.disks[d].partitions|
    requires resolved == Chain(members, d, p)
    ensures PartitionPlanned(members, to, kind, absorbed, d, p, plan)
  {
    var reserved := ClassifyAll(to.disks[d].partitions[p].index.reserved, absorbed);
    match kind
    case SyntheticFull =>
      var blocks := ClassifyAll(resolved, absorbed);
      plan := PartitionPlan(d, p, reserved, blocks, []);
    case IncrementalMerge =>
      var positions := ChangedPositions(members, absorbed, d, p);
      var blocks: seq<Action> := [];
      for k := 0 to |positions|
        invariant |blocks| == k
        invariant forall j :: 0 <= j < k ==> blocks[j] == Classify(Lookup(resolved, positions[j]), absorbed)
      {
        blocks := blocks + [Classify(Lookup(resolved, positions[k]), absorbed)];
      }
      plan := PartitionPlan(d, p, reserved, blocks, positions);
  }

  method PlanDisk(members: seq<BackupFile>, to: BackupFile, kind: MergeKind, absorbed: set<u16>,
                  d: nat, resolved: seq<seq<Element>>) returns (row: seq<PartitionPlan>)
    requires members != [] && to == members[0] && d < |to.disks| && RowResolved(members, d, resolved)
    ensures |row| == |to.disks[d].partitions|
    ensures forall p :: 0 <= p < |row| ==> PartitionPlanned(members, to, kind, absorbed, d, p, row[p])
  {
    row := [];
    for p := 0 to |to.disks[d].partitions|
      invariant |row| == p
      invariant forall q :: 0 <= q < p ==> PartitionPlanned(members, to, kind, absorbed, d, q, row[q])
    {
      var plan := PlanPartition(members, to, kind, absorbed, d, p, resolved[p]);
      row := row + [plan];
    }
  }

  method PlanPartitions(members: seq<BackupFile>, to: BackupFile, kind: MergeKind, absorbed: set<u16>,
                        flat: seq<seq<seq<Element>>>) returns (partitions: seq<PartitionPlan>)
    requires members != [] && to == members[0] && |flat| == |to.disks|
    requires forall d :: 0 <= d < |flat| ==> RowResolved(members, d, flat[d])
    ensures PartitionsPlanned(members, to, kind, absorbed, partitions)
  {
    hide PartitionPlanned;
    ghost var shape := to.Shape();
    partitions := [];
    for d := 0 to |to.disks|
      invariant |partitions| == SlotBase(shape, d)
      invariant forall d', p :: 0 <= d' < d && 0 <= p < shape[d'] ==>
                  SlotPlanned(members, to, kind, absorbed, shape, partitions, d', p)
    {
      var row := PlanDisk(members, to, kind, absorbed, d, flat[d]);
      forall d', p | 0 <= d' < d + 1 && 0 <= p < shape[d']
        ensures SlotPlanned(members, to, kind, absorbed, shape, partitions + row, d', p)
      {
        if d' < d {
          SlotStays(members, to, kind, absorbed, shape, partitions, row, d', p);
        } else {
          assert (partitions + row)[Slot(shape, d', p)] == row[p];
        }
      }
      partitions := partitions + row;
    }
  }

  lemma {:induction false} SlotStays(members: seq<BackupFile>, to: BackupFile, kind: MergeKind, absorbed: set<u16>,
        shape: seq<nat>, partitions: seq<PartitionPlan>, row: seq<PartitionPlan>, d: nat, p: nat)
    requires d < |shape| && SlotPlanned(members, to, kind, absorbed, shape, partitions, d, p)
    ensures SlotPlanned(members, to, kind, absorbed, shape, partitions + row, d, p)
  {
    hide PartitionPlanned;
  }

  // ----- the size estimate -----

  function ListSpan(list: Block.BlockList): int {
    if list.blocks == [] then 0 else list.end - list.blocks[0].offset
  }

  /** The bytes of a partition's list before its `$INDEX`. */
  function SpanBeforeIndex(part: Partition): int {
    var blocks := part.blocks.blocks;
    if blocks == [] then 0 else blocks[|blocks| - 1].offset - blocks[0].offset
  }

  function PartitionSpans(parts: seq<Partition>): int {
    if parts == [] then 0 else SpanBeforeIndex(parts[0]) + PartitionSpans(parts[1..])
  }

  /** The metadata that is copied verbatim. */
  function DiskSpans(disks: seq<Disk>): int {
    if disks == [] then 0
    else ListSpan(disks[0].blocks) + PartitionSpans(disks[0].partitions) + DiskSpans(disks[1..])
  }

  /** The size of a fresh `$INDEX` with its header. */
  function IndexSize(plan: PartitionPlan, kind: MergeKind): nat {
    Block.HEADER_LEN + 8 + |plan.reserved| * ELEMENT_LEN
    + |plan.blocks| * (if kind.DeltaIndex() then DELTA_LEN else ELEMENT_LEN)
  }

  function IndexSizes(partitions: seq<PartitionPlan>, kind: MergeKind): nat {
    if partitions == [] then 0 else IndexSize(partitions[0], kind) + IndexSizes(partitions[1..], kind)
  }

  function AuxSize(to: BackupFile): nat {
    match Block.Find(to.rootList.blocks, Block.AUXDATA)
    case Some(aux) => Block.HEADER_LEN + aux.header.blockLength
    case None => 0
  }

  const DOCUMENT_ALLOWANCE: nat := 512

  function MetadataEstimate(to: BackupFile, partitions: seq<PartitionPlan>, kind: MergeKind): int {
    DiskSpans(to.disks) + IndexSizes(partitions, kind)
    + Block.HEADER_LEN + |to.jsonRaw| + AuxSize(to) + DOCUMENT_ALLOWANCE + Block.FOOTER_LEN
  }

  method EstimateMetadata(to: BackupFile, partitions: seq<PartitionPlan>, kind: MergeKind) returns (total: int)
    ensures total == MetadataEstimate(to, partitions, kind)
  {
    total := 0;
    assert to.disks[0..] == to.disks && partitions[0..] == partitions;
    for d := 0 to |to.disks|
      invariant total + DiskSpans(to.disks[d..]) == DiskSpans(to.disks)
    {
      var disk := to.disks[d];
      assert to.disks[d..][1..] == to.disks[d + 1..] && disk.partitions[0..] == disk.partitions;
      total := total + ListSpan(disk.blocks);
      for p := 0 to |disk.partitions|
        invariant total + PartitionSpans(disk.partitions[p..]) + DiskSpans(to.disks[d + 1..]) == DiskSpans(to.disks)
      {
        assert disk.partitions[p..][1..] == disk.partitions[p + 1..];
        total := total + SpanBeforeIndex(disk.partitions[p]);
      }
    }
    for k := 0 to |partitions|
      invariant total + IndexSizes(partitions[k..], kind) == DiskSpans(to.disks) + IndexSizes(partitions, kind)
    {
      assert partitions[k..][1..] == partitions[k + 1..];
      total := total + IndexSize(partitions[k], kind);
    }
    total := total + Block.HEADER_LEN + |to.jsonRaw| + AuxSize(to) + DOCUMENT_ALLOWANCE + Block.FOOTER_LEN;
  }

  /** Every list of a parsed file starts at or below where it ends. */
  ghost predicate SpansAreOrdered(file: BackupFile) {
    && (forall d :: 0 <= d < |file.disks| ==> ListSpan(file.disks[d].blocks) >= 0)
    && forall d, p :: 0 <= d < |file.disks| && 0 <= p < |file.disks[d].partitions|
         ==> SpanBeforeIndex(file.disks[d].partitions[p]) >= 0
  }

  lemma {:induction false} PartitionSpansNat(parts: seq<Partition>)
    requires forall p :: 0 <= p < |parts| ==> SpanBeforeIndex(parts[p]) >= 0
    ensures PartitionSpans(parts) >= 0
  {
    if parts != [] { PartitionSpansNat(parts[1..]); }
  }

  lemma {:induction false} DiskSpansNat(disks: seq<Disk>)
    requires forall d :: 0 <= d < |disks| ==> ListSpan(disks[d].blocks) >= 0
    requires forall d, p :: 0 <= d < |disks| && 0 <= p < |disks[d].partitions| ==>
               SpanBeforeIndex(disks[d].partitions[p]) >= 0
    ensures DiskSpans(disks) >= 0
  {
    if disks != [] {
      DiskSpansNat(disks[1..]);
      PartitionSpansNat(disks[0].partitions);
    }
  }

  // ----- build -----

  /**
   * Plan the merge of one pair. It is accepted exactly when both numbers exist, the rules hold, the
   * To file is the newest member, and the chain flattens; the result is then the plan of that pair.
   */
  method Build(members: seq<BackupFile>, fromNumber: u16, toNumber: u16) returns (r: Result<MergePlan>)
    requires members != []
    requires forall m :: m in members && m.Header().splitFile ==> m.disks == []
    requires forall m :: m in members ==> SpansAreOrdered(m)
    requires forall i, j :: 0 <= i < j < |members| ==> members[i].Header().fileNumber != members[j].Header().fileNumber
    ensures r.Ok? <==> Accepts(members, fromNumber, toNumber)
    ensures r.Ok? ==> IsPlan(members, r.value) && r.value.from == fromNumber && r.value.to == toNumber
  {
    var fromMember, toMember := MemberWithNumber(members, fromNumber), MemberWithNumber(members, toNumber);
    if fromMember.None? || toMember.None? {
      return Err("no file of this backup set has that file number");
    }
    var from, to := fromMember.value, toMember.value;
    var _ :- CheckRules(members, from, to);
    if to.Header().fileNumber != members[0].Header().fileNumber {
      return Err("discover the set from the To file");
    }
    var k :| 0 <= k < |members| && members[k] == to;
    assert to == members[0];

    var absorbed := ClosureOver(members, from.Header().incrementNumber, to.Header().incrementNumber);
    var kind := if IsFull(from) then SyntheticFull else IncrementalMerge;
    var flat: seq<seq<seq<Element>>> :- Flatten(members);
    var partitions := PlanPartitions(members, to, kind, absorbed, flat);
    var metadataBytes := EstimateMetadata(to, partitions, kind);
    DiskSpansNat(to.disks);
    return Ok(MergePlan(fromNumber, toNumber, kind, absorbed, partitions,
                        from.Header().fileNumber, from.Header().incrementNumber, metadataBytes));
  }
}
