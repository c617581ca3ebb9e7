/** The merged file of a plan, the files that are left, who owns what among them, and what each entry stands for. */
module Merge {
  import opened Wrappers
  import opened Bytes
  import opened Index
  import Block
  import opened Json
  import opened Reader
  import opened Set
  import opened Plan
  import opened Write
  import opened Output
  import opened Reread
  import opened Restore

  // ----- the range and what survives -----

  /** Newer members have increments at least as high. The program never checks this. */
  ghost predicate IncrementsFollow(members: seq<BackupFile>) {
    forall i, j :: 0 <= i < j < |members| ==> members[i].Header().incrementNumber >= members[j].Header().incrementNumber
  }

  /** The absorbed members are the newest ones: a question to a plan, which the program does not ask. */
  ghost predicate TakesNewest(members: seq<BackupFile>, absorbed: set<u16>) {
    forall i, j :: 0 <= i < j < |members| && members[j].Header().fileNumber in absorbed
      ==> members[i].Header().fileNumber in absorbed
  }

  /** How many members, from the newest on, are absorbed. */
  function Leading(members: seq<BackupFile>, absorbed: set<u16>): (n: nat)
    ensures n <= |members|
    ensures forall i :: 0 <= i < n ==> members[i].Header().fileNumber in absorbed
    ensures n < |members| ==> members[n].Header().fileNumber !in absorbed
  {
    if members == [] || members[0].Header().fileNumber !in absorbed then 0 else 1 + Leading(members[1..], absorbed)
  }

  /** The members whose files stay: those whose number the merge did not absorb. */
  function Survivors(members: seq<BackupFile>, absorbed: set<u16>): seq<BackupFile> {
    if members == [] then []
    else
      var rest := Survivors(members[1..], absorbed);
      if members[0].Header().fileNumber in absorbed then rest else [members[0]] + rest
  }

  lemma {:induction false} SurvivorsAreSuffix(members: seq<BackupFile>, absorbed: set<u16>, n: nat)
    requires n <= |members|
    requires forall i :: 0 <= i < |members| ==> (members[i].Header().fileNumber in absorbed <==> i < n)
    ensures Survivors(members, absorbed) == members[n..]
  {
    if members != [] {
      SurvivorsAreSuffix(members[1..], absorbed, if n == 0 then 0 else n - 1);
      if n > 0 {
        assert members[1..][n - 1..] == members[n..];
      } else {
        assert members == [members[0]] + members[1..];
      }
    }
  }

  /** Members, newest first and down from To, and a plan the program makes of them. */
  ghost predicate Mergeable(members: seq<BackupFile>, plan: MergePlan) {
    && members != []
    && DisjointClaims(members)
    && IsPlan(members, plan)
  }

  /** The number of absorbed members, which are the newest ones. */
  function RangeOf(members: seq<BackupFile>, plan: MergePlan): (n: nat)
    ensures n <= |members|
  {
    Leading(members, plan.absorbed)
  }

  lemma {:induction false} ToIsNewest(members: seq<BackupFile>, plan: MergePlan)
    requires members != [] && IsPlan(members, plan)
    ensures MemberWithNumber(members, plan.to) == Some(members[0])
  {
  }

  lemma {:induction false} OwnNumberIsClaimed(m: BackupFile)
    ensures m.Header().fileNumber in Claims(m)
  {
  }

  /** Of a member's numbers the closure takes all or none, as its increment says. */
  lemma {:induction false} AbsorbedByIncrement(members: seq<BackupFile>, plan: MergePlan, m: BackupFile, k: u16)
    requires DisjointClaims(members) && IsPlan(members, plan) && m in members && k in Claims(m)
    ensures k in plan.absorbed <==> m.Header().fileNumber in plan.absorbed
    ensures members != [] && MemberWithNumber(members, plan.from).Some?
    ensures var low := MemberWithNumber(members, plan.from).value.Header().incrementNumber;
            k in plan.absorbed <==> InRange(m, low, members[0].Header().incrementNumber)
  {
    hide PartitionsPlanned, RulesHold, Flattens, IsClosure, Claims;
    var low := MemberWithNumber(members, plan.from).value.Header().incrementNumber;
    var high := members[0].Header().incrementNumber;
    OwnNumberIsClaimed(m);
    ClosureIsExact(members, low, high, plan.absorbed, m, k);
    ClosureIsExact(members, low, high, plan.absorbed, m, m.Header().fileNumber);
  }

  /** Increments that follow file numbers make every plan take the newest members. */
  lemma {:induction false} FollowingTakesNewest(members: seq<BackupFile>, plan: MergePlan)
    requires DisjointClaims(members) && IsPlan(members, plan) && IncrementsFollow(members)
    ensures TakesNewest(members, plan.absorbed)
  {
    hide IsPlan, Claims, DisjointClaims;
    forall i, j | 0 <= i < j < |members| && members[j].Header().fileNumber in plan.absorbed
      ensures members[i].Header().fileNumber in plan.absorbed
    {
      OwnNumberIsClaimed(members[i]);
      OwnNumberIsClaimed(members[j]);
      AbsorbedByIncrement(members, plan, members[i], members[i].Header().fileNumber);
      AbsorbedByIncrement(members, plan, members[j], members[j].Header().fileNumber);
      assert members[0].Header().incrementNumber >= members[i].Header().incrementNumber
          >= members[j].Header().incrementNumber;
    }
  }

  /** The two ends of a plan are absorbed. */
  lemma {:induction false} EndsAreAbsorbed(members: seq<BackupFile>, plan: MergePlan)
    requires DisjointClaims(members) && IsPlan(members, plan)
    ensures members != [] && members[0].Header().fileNumber in plan.absorbed && plan.outFileNumber in plan.absorbed
  {
    hide PartitionsPlanned, Flattens, IsClosure, Claims;
    var from := MemberWithNumber(members, plan.from).value;
    OwnNumberIsClaimed(members[0]);
    OwnNumberIsClaimed(from);
    AbsorbedByIncrement(members, plan, members[0], members[0].Header().fileNumber);
    AbsorbedByIncrement(members, plan, from, from.Header().fileNumber);
  }

  lemma {:induction false} LeadingIsAll(members: seq<BackupFile>, absorbed: set<u16>)
    requires TakesNewest(members, absorbed)
    ensures forall i :: 0 <= i < |members| ==>
              (members[i].Header().fileNumber in absorbed <==> i < Leading(members, absorbed))
  {
  }

  /** The absorbed members are exactly the newest ones, and what survives is the rest. */
  lemma {:induction false} RangeIsPrefix(members: seq<BackupFile>, plan: MergePlan)
    requires Mergeable(members, plan) && TakesNewest(members, plan.absorbed)
    ensures 0 < RangeOf(members, plan)
    ensures forall i, k :: 0 <= i < |members| && k in Claims(members[i]) ==>
              (k in plan.absorbed <==> i < RangeOf(members, plan))
    ensures Survivors(members, plan.absorbed) == members[RangeOf(members, plan)..]
    ensures plan.outFileNumber in plan.absorbed
  {
    hide IsPlan, Claims, DisjointClaims, Leading, TakesNewest, Survivors;
    EndsAreAbsorbed(members, plan);
    var n := RangeOf(members, plan);
    LeadingIsAll(members, plan.absorbed);
    forall i, k | 0 <= i < |members| && k in Claims(members[i]) ensures k in plan.absorbed <==> i < n {
      AbsorbedByIncrement(members, plan, members[i], k);
    }
    SurvivorsAreSuffix(members, plan.absorbed, n);
  }

  // ----- the merged file -----

  /** An index written for a plan, whatever slot it sits in. */
  ghost predicate IndexWritten(kind: MergeKind, plan: PartitionPlan, index: PartitionIndex, order: seq<Key>,
        outNumber: u16) {
    PartitionWritten(kind, plan, WrittenPartition(plan.disk, plan.partition, index), order, outNumber)
  }

  /** What a merged file is to the set it was made from. */
  ghost predicate IsMergedFile(members: seq<BackupFile>, plan: MergePlan, o: BackupFile) {
    var source, order := SourcesOf(members, plan.absorbed), Layout(plan);
    && members != []
    && Copyable(source, order)
    && Payload(source, order) <= o.image
    && Block.AlignUp(TotalLength(order)) < U64_LIMIT
    && o.Header() == PatchedHeader(members[0].Header(), plan, Block.AlignUp(TotalLength(order)))
    && o.doc.settings == members[0].doc.settings && o.doc.disks == members[0].doc.disks
    && ShapeOf(o.disks) == ShapeOf(members[0].disks)
    && |plan.partitions| == SlotBase(ShapeOf(o.disks), |o.disks|)
    && forall d, p :: 0 <= d < |o.disks| && 0 <= p < |o.disks[d].partitions| ==> IndexInSlot(plan, o, order, d, p)
  }

  ghost predicate IndexInSlot(plan: MergePlan, o: BackupFile, order: seq<Key>, d: nat, p: nat)
    requires d < |o.disks| && p < |o.disks[d].partitions|
  {
    var k := Slot(ShapeOf(o.disks), d, p);
    && k < |plan.partitions|
    && IndexWritten(plan.kind, plan.partitions[k], o.disks[d].partitions[p].index, order, plan.outFileNumber)
  }

  /** A member as the reader makes it from its bytes. */
  ghost predicate IsParsed(f: Foreign, m: BackupFile) {
    ParseFile(f, m.path, m.image) == Ok(m)
  }

  lemma {:induction false} ToIsWhole(f: Foreign, members: seq<BackupFile>, plan: MergePlan)
    requires Mergeable(members, plan)
    ensures members != [] && !members[0].Header().splitFile
    ensures IsParsed(f, members[0]) ==> DisksOrdered(members[0].disks)
  {
    hide PartitionsPlanned, Flattens, ParseFile, DisksOrdered;
    ToIsNewest(members, plan);
    if IsParsed(f, members[0]) {
      ParsedIsOrdered(f, members[0]);
    }
  }

  /**
   * What the writer wrote for a plan parses, when `$AUXDATA` does not get in the way, into a file
   * that is the merged file of that plan.
   */
  lemma {:induction false} WrittenIsMerged(f: Foreign, members: seq<BackupFile>, plan: MergePlan, stamp: Stamp,
        w: WrittenFile, out: seq<byte>, path: string)
    requires f.RoundTrips() && Mergeable(members, plan)
    requires members != [] && IsParsed(f, members[0]) && DisksOrdered(members[0].disks)
    requires OutputWritten(f, members[0], plan, SourcesOf(members, plan.absorbed), stamp, w, out)
    requires AuxEndsList(members[0])
    ensures var r := ParseFile(f, path, out);
            && r.Ok? && r.value.path == path && r.value.image == out
            && IsMergedFile(members, plan, r.value) && |out| == r.value.rootList.end + 20
  {
    hide Mergeable, OutputWritten, RegionWritten, PatchedDoc, PatchedHeader, DisksOrdered, DisksReread, ParseFile,
      AuxEndsList, SourcesOf;
    ToIsWhole(f, members, plan);
    var to, source := members[0], SourcesOf(members, plan.absorbed);
    WrittenRegion(f, to, plan, source, stamp, w, out);
    PrintThenParse(f, to, plan, source, stamp, w, out, path);
    PatchedDocFields(f, to, plan, w.data.end, stamp);
    var o := ParseFile(f, path, out).value;
    PlanSize(members, plan);
    MergedFromParts(f, members, plan, w.data, out, o);
  }

  lemma {:induction false} WrittenRegion(f: Foreign, to: BackupFile, plan: MergePlan, source: Source, stamp: Stamp,
        w: WrittenFile, out: seq<byte>)
    requires DisksOrdered(to.disks) && OutputWritten(f, to, plan, source, stamp, w, out)
    ensures w.data.end <= |out| && w.data.end < U64_LIMIT
    ensures RegionWritten(plan, source, plan.outFileNumber, w.data, out[..w.data.end])
    ensures PatchedDoc(f, to, plan, w.data.end, stamp).Ok?
  {
  }

  lemma {:induction false} PlanSize(members: seq<BackupFile>, plan: MergePlan)
    requires Mergeable(members, plan)
    ensures |plan.partitions| == SlotBase(ShapeOf(members[0].disks), |members[0].disks|)
  {
    hide PartitionPlanned, RulesHold, Flattens;
    ToIsNewest(members, plan);
  }

  lemma {:induction false} MergedFromParts(f: Foreign, members: seq<BackupFile>, plan: MergePlan, data: DataRegion,
        out: seq<byte>, o: BackupFile)
    requires members != [] && |plan.partitions| == SlotBase(ShapeOf(members[0].disks), |members[0].disks|)
    requires data.end <= |out| && o.image == out
    requires RegionWritten(plan, SourcesOf(members, plan.absorbed), plan.outFileNumber, data, out[..data.end])
    requires data.end < U64_LIMIT && o.Header() == PatchedHeader(members[0].Header(), plan, data.end)
    requires o.doc.settings == members[0].doc.settings && o.doc.disks == members[0].doc.disks
    requires DisksReread(f.md5, members[0].image, members[0].disks, data.partitions, out, o.disks)
    ensures IsMergedFile(members, plan, o)
  {
    hide PatchedHeader, Copyable, TotalLength, FirstSeen, DisksReread, PlanKeys, SourcesOf, PartitionWritten;
    var source, order := SourcesOf(members, plan.absorbed), Layout(plan);
    assert Payload(source, order) <= out[..data.end] <= out;
    SameShape(f.md5, members[0].image, members[0].disks, data.partitions, out, o.disks);
    forall d, p | 0 <= d < |o.disks| && 0 <= p < |o.disks[d].partitions|
      ensures IndexInSlot(plan, o, order, d, p)
    {
      IndexAtSlot(f.md5, members[0].image, members[0].disks, data.partitions, out, o.disks, d, p);
      var k := Slot(ShapeOf(o.disks), d, p);
      IndexOfWritten(plan.kind, plan.partitions[k], data.partitions[k], order, plan.outFileNumber);
    }
  }

  lemma {:induction false} IndexOfWritten(kind: MergeKind, plan: PartitionPlan, written: WrittenPartition,
        order: seq<Key>, outNumber: u16)
    requires PartitionWritten(kind, plan, written, order, outNumber)
    ensures IndexWritten(kind, plan, written.index, order, outNumber)
  {
  }

  /** The position of the first member with a number, or the end. */
  function NumberAt(members: seq<BackupFile>, number: u16): (j: nat)
    ensures j <= |members|
    ensures forall i :: 0 <= i < j ==> members[i].Header().fileNumber != number
    ensures j < |members| ==> members[j].Header().fileNumber == number
  {
    if members == [] || members[0].Header().fileNumber == number then 0 else 1 + NumberAt(members[1..], number)
  }

  /** The survivors newer than From, which the output's number puts above it. */
  function Skipped(members: seq<BackupFile>, plan: MergePlan): seq<BackupFile> {
    Survivors(members[..NumberAt(members, plan.from)], plan.absorbed)
  }

  /** The survivors older than From. */
  function Older(members: seq<BackupFile>, plan: MergePlan): seq<BackupFile> {
    Survivors(members[NumberAt(members, plan.from)..], plan.absorbed)
  }

  /** The files after a merge, newest first: those above To, those the merge skipped, the output, and the rest. */
  function After(above: seq<BackupFile>, members: seq<BackupFile>, plan: MergePlan, o: BackupFile): seq<BackupFile> {
    above + Skipped(members, plan) + [o] + Older(members, plan)
  }

  lemma {:induction false} SurvivorsOfConcat(a: seq<BackupFile>, b: seq<BackupFile>, absorbed: set<u16>)
    ensures Survivors(a + b, absorbed) == Survivors(a, absorbed) + Survivors(b, absorbed)
  {
    if a == [] {
      assert a + b == b;
    } else {
      assert (a + b)[1..] == a[1..] + b;
      SurvivorsOfConcat(a[1..], b, absorbed);
    }
  }

  lemma {:induction false} SurvivorsInTwo(members: seq<BackupFile>, plan: MergePlan)
    ensures Survivors(members, plan.absorbed) == Skipped(members, plan) + Older(members, plan)
  {
    hide Survivors;
    var j := NumberAt(members, plan.from);
    assert members == members[..j] + members[j..];
    SurvivorsOfConcat(members[..j], members[j..], plan.absorbed);
  }

  lemma {:induction false} NoSurvivors(members: seq<BackupFile>, absorbed: set<u16>)
    requires forall m :: m in members ==> m.Header().fileNumber in absorbed
    ensures Survivors(members, absorbed) == []
  {
    if members != [] {
      NoSurvivors(members[1..], absorbed);
    }
  }

  /** A plan that takes the newest members skips none. */
  lemma {:induction false} NothingSkipped(members: seq<BackupFile>, plan: MergePlan)
    requires Mergeable(members, plan) && TakesNewest(members, plan.absorbed)
    ensures Skipped(members, plan) == [] && Older(members, plan) == Survivors(members, plan.absorbed)
  {
    hide IsPlan, DisjointClaims, Survivors, TakesNewest;
    EndsAreAbsorbed(members, plan);
    FromIsMember(members, plan);
    UpToFrom(members, plan);
    NoSurvivors(members[..NumberAt(members, plan.from)], plan.absorbed);
    SurvivorsInTwo(members, plan);
  }

  lemma {:induction false} UpToFrom(members: seq<BackupFile>, plan: MergePlan)
    requires TakesNewest(members, plan.absorbed) && plan.from in plan.absorbed
    requires exists m :: m in members && m.Header().fileNumber == plan.from
    ensures forall m :: m in members[..NumberAt(members, plan.from)] ==> m.Header().fileNumber in plan.absorbed
  {
    var j := NumberAt(members, plan.from);
    assert j < |members|;
    forall m | m in members[..j] ensures m.Header().fileNumber in plan.absorbed {
      var i :| 0 <= i < j && members[i] == m;
    }
  }

  lemma {:induction false} FromIsMember(members: seq<BackupFile>, plan: MergePlan)
    requires IsPlan(members, plan)
    ensures exists m :: m in members && m.Header().fileNumber == plan.from == plan.outFileNumber
  {
    hide PartitionsPlanned, RulesHold, Flattens, IsClosure;
  }

  lemma {:induction false} AfterIs(above: seq<BackupFile>, members: seq<BackupFile>, plan: MergePlan, o: BackupFile)
    requires Mergeable(members, plan) && TakesNewest(members, plan.absorbed)
    ensures After(above, members, plan, o) == above + ([o] + Survivors(members, plan.absorbed))
    ensures After(above, members, plan, o) == above + [o] + Survivors(members, plan.absorbed)
  {
    hide Mergeable, Survivors, TakesNewest;
    NothingSkipped(members, plan);
  }

  lemma {:induction false} MergedClaims(members: seq<BackupFile>, plan: MergePlan, o: BackupFile)
    requires Mergeable(members, plan) && IsMergedFile(members, plan, o)
    ensures Claims(o) == plan.absorbed
    ensures IsFull(o) <==> plan.kind.SyntheticFull?
    ensures !o.Header().splitFile
    ensures o.Header().fileNumber == plan.outFileNumber
    ensures o.Header().incrementNumber == plan.outIncrementNumber
  {
    hide PartitionsPlanned;
    EndsAreAbsorbed(members, plan);
    PatchedClaims(members[0].Header(), plan, Block.AlignUp(TotalLength(Layout(plan))));
  }

  // ----- who owns what, before and after -----

  /** What survives owns the numbers that are not absorbed, and no other. */
  lemma {:induction false} OwnerOfSurvivors(members: seq<BackupFile>, absorbed: set<u16>, n: u16)
    requires forall m, k :: m in members && k in Claims(m) ==> (k in absorbed <==> m.Header().fileNumber in absorbed)
    ensures Owner(Survivors(members, absorbed), n) == if n in absorbed then None else Owner(members, n)
  {
    hide Claims;
    if members != [] {
      OwnerOfSurvivors(members[1..], absorbed, n);
      var rest := Survivors(members[1..], absorbed);
      assert ([members[0]] + rest)[1..] == rest;
    }
  }

  lemma {:induction false} AllOrNone(members: seq<BackupFile>, plan: MergePlan)
    requires Mergeable(members, plan)
    ensures forall m, k :: m in members && k in Claims(m) ==>
              (k in plan.absorbed <==> m.Header().fileNumber in plan.absorbed)
  {
    hide IsPlan, Claims, DisjointClaims;
    forall m, k | m in members && k in Claims(m)
      ensures k in plan.absorbed <==> m.Header().fileNumber in plan.absorbed
    {
      AbsorbedByIncrement(members, plan, m, k);
    }
  }

  /** Numbers the merge did not absorb keep their owner; absorbed ones belong to the output. */
  lemma {:induction false} OwnersAfter(above: seq<BackupFile>, members: seq<BackupFile>, plan: MergePlan,
        o: BackupFile, n: u16)
    requires Mergeable(members, plan) && IsMergedFile(members, plan, o)
    requires DisjointClaims(above + members)
    ensures n in plan.absorbed ==> Owner(After(above, members, plan, o), n) == Some(o)
    ensures n in plan.absorbed ==> Owner(above + members, n) == Owner(members, n)
    ensures n !in plan.absorbed ==> Owner(After(above, members, plan, o), n) == Owner(above + members, n)
  {
    hide IsMergedFile, IsPlan, Claims, Survivors;
    MergedClaims(members, plan, o);
    AllOrNone(members, plan);
    var j := NumberAt(members, plan.from);
    var upper, lower := Skipped(members, plan), Older(members, plan);
    assert members == members[..j] + members[j..];
    OwnerOfSurvivors(members[..j], plan.absorbed, n);
    OwnerOfSurvivors(members[j..], plan.absorbed, n);
    OwnerOfConcat(members[..j], members[j..], n);
    OwnerOfConcat(above, members, n);
    OwnerOfConcat(above, upper, n);
    OwnerOfConcat(above + upper, [o], n);
    OwnerOfConcat(above + upper + [o], lower, n);
    assert [o][1..] == [];
    if n in plan.absorbed {
      AbsorbedIsOwned(members, plan, n);
      OwnedBelow(above, members, n);
    }
  }

  /** A number a lower member claims is claimed by no higher one. */
  lemma {:induction false} OwnedBelow(above: seq<BackupFile>, members: seq<BackupFile>, n: u16)
    requires DisjointClaims(above + members) && Owner(members, n).Some?
    ensures Owner(above, n) == None
  {
    var j :| 0 <= j < |members| && members[j] == Owner(members, n).value;
    forall m | m in above ensures n !in Claims(m) {
      var i :| 0 <= i < |above| && above[i] == m;
      assert Claims((above + members)[i]) !! Claims((above + members)[|above| + j]);
    }
  }

  lemma {:induction false} AbsorbedIsOwned(members: seq<BackupFile>, plan: MergePlan, n: u16)
    requires IsPlan(members, plan) && n in plan.absorbed
    ensures Owner(members, n).Some?
  {
  }

  lemma {:induction false} KeptContent(above: seq<BackupFile>, members: seq<BackupFile>, plan: MergePlan,
        o: BackupFile, e: Element)
    requires Mergeable(members, plan) && IsMergedFile(members, plan, o)
    requires DisjointClaims(above + members)
    requires e.IsHole() || e.fileNumber !in plan.absorbed
    ensures ContentOf(After(above, members, plan, o), e) == ContentOf(above + members, e)
  {
    hide Mergeable, IsMergedFile, After;
    OwnersAfter(above, members, plan, o, e.fileNumber);
  }

  /** Whatever the plan decided for an entry, the written entry stands for the same content. */
  lemma {:induction false} WrittenContent(above: seq<BackupFile>, members: seq<BackupFile>, plan: MergePlan,
        o: BackupFile, e: Element, x: Element)
    requires Mergeable(members, plan) && IsMergedFile(members, plan, o)
    requires DisjointClaims(above + members)
    requires EntryMatches(Classify(e, plan.absorbed), x, Layout(plan), plan.outFileNumber)
    ensures ContentOf(After(above, members, plan, o), x) == ContentOf(above + members, e)
  {
    if !e.IsHole() && e.fileNumber in plan.absorbed {
      CopiedContent(above, members, plan, o, e, x);
    } else {
      KeptContent(above, members, plan, o, e);
    }
  }

  lemma {:induction false} CopiedContent(above: seq<BackupFile>, members: seq<BackupFile>, plan: MergePlan,
        o: BackupFile, e: Element, x: Element)
    requires Mergeable(members, plan) && IsMergedFile(members, plan, o)
    requires DisjointClaims(above + members)
    requires !e.IsHole() && e.fileNumber in plan.absorbed
    requires EntryMatches(Copy(e), x, Layout(plan), plan.outFileNumber)
    ensures ContentOf(After(above, members, plan, o), x) == ContentOf(above + members, e)
  {
    hide Mergeable, IsMergedFile, After, Layout, Offset, SourcesOf;
    LandsInOutput(members, plan, o, KeyOf(e));
    OutIsAbsorbed(members, plan);
    OwnersAfter(above, members, plan, o, e.fileNumber);
    OwnersAfter(above, members, plan, o, plan.outFileNumber);
  }

  /** Where the layout puts a key, the output holds the bytes the key's owner held. */
  lemma {:induction false} LandsInOutput(members: seq<BackupFile>, plan: MergePlan, o: BackupFile, key: Key)
    requires Mergeable(members, plan) && IsMergedFile(members, plan, o)
    requires key in Layout(plan)
    ensures var at, owner := Offset(Layout(plan), key), Owner(members, key.fileNumber);
            && owner.Some? && 0 <= key.position && key.position + key.length <= |owner.value.image|
            && HoldsAt(o.image, at, owner.value.image[key.position..key.position + key.length])
  {
    hide Mergeable, IsMergedFile, Layout, Payload, Offset, Copyable;
    var source, order := SourcesOf(members, plan.absorbed), Layout(plan);
    MergedPayload(members, plan, o);
    PayloadHolds(source, order, key);
    HoldsAtPrefix(Payload(source, order), Offset(order, key), SourceBytes(source, key), o.image);
  }

  lemma {:induction false} MergedPayload(members: seq<BackupFile>, plan: MergePlan, o: BackupFile)
    requires IsMergedFile(members, plan, o)
    ensures Copyable(SourcesOf(members, plan.absorbed), Layout(plan))
    ensures Payload(SourcesOf(members, plan.absorbed), Layout(plan)) <= o.image
  {
  }

  lemma {:induction false} OutIsAbsorbed(members: seq<BackupFile>, plan: MergePlan)
    requires Mergeable(members, plan)
    ensures plan.outFileNumber in plan.absorbed
  {
    EndsAreAbsorbed(members, plan);
  }

  lemma {:induction false} HoldsAtPrefix(image: seq<byte>, at: nat, piece: seq<byte>, longer: seq<byte>)
    requires HoldsAt(image, at, piece) && image <= longer
    ensures HoldsAt(longer, at, piece)
  {
    assert longer[at..at + |piece|] == image[at..at + |piece|];
  }

  // ----- one partition of the output, against its plan -----

  /** The plan a partition of the output was written from. */
  lemma {:induction false} PlanOfPartition(members: seq<BackupFile>, plan: MergePlan, o: BackupFile, d: nat, p: nat)
    returns (part: PartitionPlan)
    requires Mergeable(members, plan) && IsMergedFile(members, plan, o)
    requires d < |members[0].disks| && p < |members[0].disks[d].partitions|
    ensures d < |o.disks| && p < |o.disks[d].partitions|
    ensures PartitionPlanned(members, members[0], plan.kind, plan.absorbed, d, p, part)
    ensures IndexWritten(plan.kind, part, o.disks[d].partitions[p].index, Layout(plan), plan.outFileNumber)
  {
    hide PartitionPlanned, IndexWritten, PatchedHeader, Copyable, Layout, RulesHold, Flattens, IsClosure;
    ToIsNewest(members, plan);
    var shape := members[0].Shape();
    assert shape[d] == |members[0].disks[d].partitions| && ShapeOf(o.disks)[d] == |o.disks[d].partitions|;
    assert SlotPlanned(members, members[0], plan.kind, plan.absorbed, shape, plan.partitions, d, p);
    assert IndexInSlot(plan, o, Layout(plan), d, p);
    part := plan.partitions[Slot(shape, d, p)];
  }

  /** Entries written for classified ones stand for the same contents. */
  lemma {:induction false} WrittenContents(above: seq<BackupFile>, members: seq<BackupFile>, plan: MergePlan,
        o: BackupFile, actions: seq<Action>, xs: seq<Element>, ys: seq<Element>)
    requires Mergeable(members, plan) && IsMergedFile(members, plan, o)
    requires DisjointClaims(above + members)
    requires Classified(actions, xs, plan.absorbed) && Written(actions, ys, Layout(plan), plan.outFileNumber)
    ensures SameContents(above + members, xs, After(above, members, plan, o), ys)
  {
    hide Mergeable, IsMergedFile, After, EntryMatches, ContentOf, Classify;
    forall i | 0 <= i < |xs|
      ensures ContentOf(above + members, xs[i]) == ContentOf(After(above, members, plan, o), ys[i])
    {
      assert EntryMatches(actions[i], ys[i], Layout(plan), plan.outFileNumber);
      WrittenContent(above, members, plan, o, xs[i], ys[i]);
    }
  }
}
