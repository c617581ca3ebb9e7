/** The claim of the program: when, after a merge, the remaining files restore to the same image. */
module Preserve {
  import opened Wrappers
  import opened Bytes
  import opened Index
  import opened Reader
  import opened Set
  import opened Plan
  import opened Write
  import opened Restore
  import opened Merge

  // ----- synthetic Full -----

  lemma {:induction false} SyntheticChain(above: seq<BackupFile>, members: seq<BackupFile>, plan: MergePlan,
        o: BackupFile, d: nat, p: nat)
    requires Mergeable(members, plan) && IsMergedFile(members, plan, o) && plan.kind.SyntheticFull?
    requires DisjointClaims(above + members)
    requires d < |members[0].disks| && p < |members[0].disks[d].partitions|
    ensures SameContents(above + members, Chain(members, d, p), After(above, members, plan, o),
                         Chain([o] + Older(members, plan), d, p))
  {
    hide Mergeable, IsMergedFile, After, SameContents, Chain, Older;
    var part := PlanOfPartition(members, plan, o, d, p);
    MergedClaims(members, plan, o);
    WrittenContents(above, members, plan, o, part.blocks, Chain(members, d, p), FullEntriesOf(o, d, p));
    ChainOfFull(o, Older(members, plan), d, p);
  }

  lemma {:induction false} ChainOfFull(o: BackupFile, older: seq<BackupFile>, d: nat, p: nat)
    requires IsFull(o)
    ensures Chain([o] + older, d, p) == FullEntriesOf(o, d, p)
  {
  }

  // ----- incremental merge -----

  lemma {:induction false} HistoryNames(members: seq<BackupFile>, d: nat, p: nat, i: int)
    ensures Names(History(members, d, p), i) <==> exists m :: m in members && Names(DeltasOf(m, d, p), i)
  {
    if members != [] {
      HistoryNames(members[1..], d, p, i);
      NamesOfConcat(History(members[1..], d, p), DeltasOf(members[0], d, p), i);
    }
  }

  lemma {:induction false} NamesOfConcat(a: seq<Delta>, b: seq<Delta>, i: int)
    ensures Names(a + b, i) <==> Names(a, i) || Names(b, i)
  {
    if Names(a, i) {
      var k :| 0 <= k < |a| && a[k].blockIndex == i;
      assert (a + b)[k].blockIndex == i;
    }
    if Names(b, i) {
      var k :| 0 <= k < |b| && b[k].blockIndex == i;
      assert (a + b)[|a| + k].blockIndex == i;
    }
  }

  /** Lists that name the same positions grow an array to the same length. */
  lemma {:induction false} SameNamesSameLength(length: nat, a: seq<Delta>, b: seq<Delta>)
    requires forall i :: Names(a, i) <==> Names(b, i)
    ensures GrownLength(length, a) == GrownLength(length, b)
  {
    GrownLengthMeaning(length, a);
    GrownLengthMeaning(length, b);
  }

  /** What the absorbed members changed is what the in-range history names. */
  lemma {:induction false} ChangedIsNamed(members: seq<BackupFile>, plan: MergePlan, d: nat, p: nat, i: int)
    requires Mergeable(members, plan) && TakesNewest(members, plan.absorbed)
    ensures ChangedBy(members, plan.absorbed, d, p, i) <==> Names(History(members[..RangeOf(members, plan)], d, p), i)
  {
    hide Mergeable, History, DeltasOf, Names, IsPlan;
    var n := RangeOf(members, plan);
    HistoryNames(members[..n], d, p, i);
    AbsorbedMembers(members, plan);
    if ChangedBy(members, plan.absorbed, d, p, i) {
      var m :| m in members && m.Header().fileNumber in plan.absorbed && Names(DeltasOf(m, d, p), i);
      assert m in members[..n];
    }
    if exists m :: m in members[..n] && Names(DeltasOf(m, d, p), i) {
      var m :| m in members[..n] && Names(DeltasOf(m, d, p), i);
      assert m in members && m.Header().fileNumber in plan.absorbed;
    }
  }

  /** Selecting members by absorbed number is selecting them by increment. */
  lemma {:induction false} AbsorbedMembers(members: seq<BackupFile>, plan: MergePlan)
    requires Mergeable(members, plan) && TakesNewest(members, plan.absorbed)
    ensures forall m :: m in members && m.Header().fileNumber in plan.absorbed <==>
              m in members[..RangeOf(members, plan)]
  {
    hide Mergeable, Survivors, RangeOf, Claims;
    RangeIsPrefix(members, plan);
    var n := RangeOf(members, plan);
    forall m | m in members && m.Header().fileNumber in plan.absorbed ensures m in members[..n] {
      var k :| 0 <= k < |members| && members[k] == m;
      OwnNumberIsClaimed(m);
      assert members[..n][k] == m;
    }
    forall m | m in members[..n] ensures m in members && m.Header().fileNumber in plan.absorbed {
      var j :| 0 <= j < n && members[j] == m;
      OwnNumberIsClaimed(m);
    }
  }

  /** In an ascending delta list every entry is the last writer of its position. */
  lemma {:induction false} AscendingWriter(deltas: seq<Delta>, k: nat)
    requires k < |deltas| && forall i, j :: 0 <= i < j < |deltas| ==> deltas[i].blockIndex < deltas[j].blockIndex
    ensures LastWriter(deltas, deltas[k].blockIndex) == Some(deltas[k].element)
  {
    if k < |deltas| - 1 {
      AscendingWriter(deltas[..|deltas| - 1], k);
    }
  }

  /** Whether the output's deltas record, for exactly the changed positions, the written form of the resolved entry. */
  ghost predicate DeltasDescribe(members: seq<BackupFile>, plan: MergePlan, d: nat, p: nat, deltas: seq<Delta>) {
    && (forall i :: Names(deltas, i) <==> ChangedBy(members, plan.absorbed, d, p, i))
    && forall i: nat :: Names(deltas, i) ==>
         && LastWriter(deltas, i).Some?
         && EntryMatches(Classify(Lookup(Chain(members, d, p), i), plan.absorbed), LastWriter(deltas, i).value,
                         Layout(plan), plan.outFileNumber)
  }

  lemma {:induction false} NamedIsChanged(members: seq<BackupFile>, absorbed: set<u16>, d: nat, p: nat,
        positions: seq<u32>, deltas: seq<Delta>)
    requires |deltas| == |positions|
    requires forall k :: 0 <= k < |deltas| ==> deltas[k].blockIndex == positions[k]
    requires forall i: u32 :: i in positions <==> ChangedBy(members, absorbed, d, p, i)
    ensures forall i :: Names(deltas, i) <==> ChangedBy(members, absorbed, d, p, i)
  {
    hide ChangedBy;
    forall i ensures Names(deltas, i) <==> ChangedBy(members, absorbed, d, p, i) {
      ChangedIsU32(members, absorbed, d, p, i);
      if Names(deltas, i) {
        var k :| 0 <= k < |deltas| && deltas[k].blockIndex == i;
        assert positions[k] == i;
      }
      if ChangedBy(members, absorbed, d, p, i) {
        var k :| 0 <= k < |positions| && positions[k] == i;
        assert deltas[k].blockIndex == i;
      }
    }
  }

  lemma {:induction false} OutputDeltas(members: seq<BackupFile>, plan: MergePlan, o: BackupFile, d: nat, p: nat)
    requires Mergeable(members, plan) && IsMergedFile(members, plan, o) && plan.kind.IncrementalMerge?
    requires d < |members[0].disks| && p < |members[0].disks[d].partitions|
    ensures DeltasDescribe(members, plan, d, p, DeltasOf(o, d, p))
  {
    hide Mergeable, IsMergedFile, Chain, EntryMatches, ChangedBy, Lookup, Classify, Layout, LastWriter, Classified,
      ReservedOf;
    var part := PlanOfPartition(members, plan, o, d, p);
    var deltas := DeltasOf(o, d, p);
    assert deltas == o.disks[d].partitions[p].index.blocks.deltas;
    NamedIsChanged(members, plan.absorbed, d, p, part.positions, deltas);
    forall i: nat | Names(deltas, i)
      ensures LastWriter(deltas, i).Some?
      ensures EntryMatches(Classify(Lookup(Chain(members, d, p), i), plan.absorbed), LastWriter(deltas, i).value,
                           Layout(plan), plan.outFileNumber)
    {
      var k :| 0 <= k < |deltas| && deltas[k].blockIndex == i;
      assert forall a, b :: 0 <= a < b < |deltas| ==> part.positions[a] < part.positions[b];
      AscendingWriter(deltas, k);
      assert EntryMatches(part.blocks[k], DeltaElements(deltas)[k], Layout(plan), plan.outFileNumber);
    }
  }

  lemma {:induction false} ChangedIsU32(members: seq<BackupFile>, absorbed: set<u16>, d: nat, p: nat, i: int)
    ensures ChangedBy(members, absorbed, d, p, i) ==> 0 <= i < U32_LIMIT
  {
  }

  lemma {:induction false} RangeHasNoFull(members: seq<BackupFile>, plan: MergePlan)
    requires Mergeable(members, plan) && plan.kind.IncrementalMerge?
    ensures forall m :: m in members[..RangeOf(members, plan)] ==> !IsFull(m)
  {
    forall m | m in members[..RangeOf(members, plan)] ensures !IsFull(m) {
      var i :| 0 <= i < RangeOf(members, plan) && members[i] == m;
      AbsorbedIsDelta(members, plan, i);
    }
  }

  /** An incremental merge absorbs no member with a full index. */
  lemma {:induction false} AbsorbedIsDelta(members: seq<BackupFile>, plan: MergePlan, i: nat)
    requires DisjointClaims(members) && IsPlan(members, plan) && plan.kind.IncrementalMerge?
    requires i < |members| && members[i].Header().fileNumber in plan.absorbed
    ensures !IsFull(members[i])
  {
    hide PartitionsPlanned, Flattens, IsClosure, Claims;
    OwnNumberIsClaimed(members[i]);
    AbsorbedByIncrement(members, plan, members[i], members[i].Header().fileNumber);
  }

  lemma {:induction false} SurvivorsBelowRange(members: seq<BackupFile>, plan: MergePlan)
    requires Mergeable(members, plan) && TakesNewest(members, plan.absorbed)
    ensures Survivors(members, plan.absorbed) == members[RangeOf(members, plan)..]
  {
    RangeIsPrefix(members, plan);
  }

  /** Both chains of an incremental merge replay a history over the same older part. */
  lemma {:induction false} ChainsOverOlder(members: seq<BackupFile>, plan: MergePlan, o: BackupFile, d: nat, p: nat)
    requires Mergeable(members, plan) && IsMergedFile(members, plan, o) && plan.kind.IncrementalMerge?
    requires TakesNewest(members, plan.absorbed)
    ensures var n := RangeOf(members, plan);
            && Chain(members, d, p) == Replay(Chain(members[n..], d, p), History(members[..n], d, p))
            && Chain([o] + members[n..], d, p) == Replay(Chain(members[n..], d, p), DeltasOf(o, d, p))
  {
    hide Mergeable, IsMergedFile, Replay, IsPlan, RangeOf, DeltasOf, History, Chain;
    MergedClaims(members, plan, o);
    RangeHasNoFull(members, plan);
    var n := RangeOf(members, plan);
    assert members == members[..n] + members[n..];
    ChainOverDeltas(members[..n], members[n..], d, p);
    ChainOfDelta(o, members[n..], d, p);
  }

  /** An incremental merge swaps one history over the older part for another that names the same positions. */
  lemma {:induction false} SwappedHistory(members: seq<BackupFile>, plan: MergePlan, o: BackupFile, d: nat, p: nat)
    returns (history: seq<Delta>, deltas: seq<Delta>)
    requires Mergeable(members, plan) && IsMergedFile(members, plan, o) && plan.kind.IncrementalMerge?
    requires TakesNewest(members, plan.absorbed)
    requires d < |members[0].disks| && p < |members[0].disks[d].partitions|
    ensures var older := Chain(Survivors(members, plan.absorbed), d, p);
            && Chain(members, d, p) == Replay(older, history)
            && Chain([o] + Survivors(members, plan.absorbed), d, p) == Replay(older, deltas)
    ensures forall k :: Names(history, k) <==> Names(deltas, k)
    ensures DeltasDescribe(members, plan, d, p, deltas)
  {
    hide Mergeable, IsMergedFile, Replay, IsPlan, RangeOf, DeltasOf, History, DeltasDescribe, Names, Survivors, Chain;
    SurvivorsBelowRange(members, plan);
    ChainsOverOlder(members, plan, o, d, p);
    OutputDeltas(members, plan, o, d, p);
    var n := RangeOf(members, plan);
    history, deltas := History(members[..n], d, p), DeltasOf(o, d, p);
    forall i ensures Names(history, i) <==> Names(deltas, i) {
      ChangedIsNamed(members, plan, d, p, i);
      DescribedNames(members, plan, d, p, deltas, i);
    }
  }

  lemma {:induction false} DescribedNames(members: seq<BackupFile>, plan: MergePlan, d: nat, p: nat,
        deltas: seq<Delta>, i: int)
    requires DeltasDescribe(members, plan, d, p, deltas)
    ensures Names(deltas, i) <==> ChangedBy(members, plan.absorbed, d, p, i)
  {
  }

  lemma {:induction false} ChainOfDelta(o: BackupFile, older: seq<BackupFile>, d: nat, p: nat)
    requires !IsFull(o)
    ensures Chain([o] + older, d, p) == Replay(Chain(older, d, p), DeltasOf(o, d, p))
  {
    assert ([o] + older)[1..] == older;
  }

  // ----- entries the merge leaves as they are -----

  /** The entry the newer files fix at position `i`: that of their newest full index, unless a later delta names `i`. */
  function Decided(above: seq<BackupFile>, d: nat, p: nat, i: nat): Option<Element> {
    if above == [] then None
    else if IsFull(above[0]) then Some(Lookup(FullEntriesOf(above[0], d, p), i))
    else
      match LastWriter(DeltasOf(above[0], d, p), i)
      case Some(e) => Some(e)
      case None => Decided(above[1..], d, p, i)
  }

  lemma {:induction false} LookupReplayed(blocks: seq<Element>, deltas: seq<Delta>, i: nat)
    ensures Lookup(Replay(blocks, deltas), i)
         == match LastWriter(deltas, i) case Some(e) => e case None => Lookup(blocks, i)
  {
    if i >= GrownLength(|blocks|, deltas) {
      UnnamedBeyond(|blocks|, deltas, i);
    }
  }

  /** The newer files fix what they decide, and show what lies below everywhere else. */
  lemma {:induction false} LookupAbove(above: seq<BackupFile>, lower: seq<BackupFile>, d: nat, p: nat, i: nat)
    ensures Lookup(Chain(above + lower, d, p), i)
         == match Decided(above, d, p, i) case Some(e) => e case None => Lookup(Chain(lower, d, p), i)
  {
    hide Replay, Lookup, DeltasOf, FullEntriesOf, IsFull;
    if above == [] {
      assert above + lower == lower;
    } else {
      assert (above + lower)[1..] == above[1..] + lower;
      if !IsFull(above[0]) {
        LookupAbove(above[1..], lower, d, p, i);
        LookupReplayed(Chain(above[1..] + lower, d, p), DeltasOf(above[0], d, p), i);
      }
    }
  }

  lemma {:induction false} LengthAbove(above: seq<BackupFile>, lower: seq<BackupFile>, merged: seq<BackupFile>, d: nat,
        p: nat)
    requires |Chain(lower, d, p)| == |Chain(merged, d, p)|
    ensures |Chain(above + lower, d, p)| == |Chain(above + merged, d, p)|
  {
    hide DeltasOf, FullEntriesOf, IsFull;
    if above == [] {
      assert above + lower == lower && above + merged == merged;
    } else {
      assert (above + lower)[1..] == above[1..] + lower && (above + merged)[1..] == above[1..] + merged;
      LengthAbove(above[1..], lower, merged, d, p);
    }
  }

  /** A non-hole entry the newer files decide was recorded by one of them. */
  lemma {:induction false} DecidedEntries(above: seq<BackupFile>, d: nat, p: nat, i: nat)
    requires Decided(above, d, p, i).Some?
    ensures var e := Decided(above, d, p, i).value; e == HOLE || exists m :: m in above && HasEntry(m.disks, e)
  {
    hide HasEntry, DeltasOf, FullEntriesOf;
    var e := Decided(above, d, p, i).value;
    if IsFull(above[0]) {
      if i < |FullEntriesOf(above[0], d, p)| {
        EntryOfMember(above[0], d, p, e);
      }
    } else if LastWriter(DeltasOf(above[0], d, p), i).Some? {
      WriterIsDelta(DeltasOf(above[0], d, p), i);
      assert Delta(e, i) in DeltasOf(above[0], d, p);
      EntryOfMember(above[0], d, p, e);
    } else {
      DecidedEntries(above[1..], d, p, i);
    }
  }

  // ----- what the merge moves under them -----

  /** The entry names a file the merge takes away. */
  predicate IsMoved(plan: MergePlan, e: Element) {
    !e.IsHole() && e.fileNumber in plan.absorbed
  }

  predicate InFile(image: seq<byte>, e: Element) {
    0 <= e.position && e.position + e.length <= |image|
  }

  /**
   * Whether an entry that names an absorbed number reads the same from the output: at the entry's own offset
   * the output holds the bytes the owner held there, or both end before it.
   */
  ghost predicate Stays(members: seq<BackupFile>, o: BackupFile, e: Element) {
    match Owner(members, e.fileNumber)
    case None => false
    case Some(m) =>
      if InFile(m.image, e) then HoldsAt(o.image, e.position, m.image[e.position..e.position + e.length])
      else !InFile(o.image, e)
  }

  lemma {:induction false} StaysMeans(above: seq<BackupFile>, members: seq<BackupFile>, plan: MergePlan, o: BackupFile,
        e: Element)
    requires Mergeable(members, plan) && IsMergedFile(members, plan, o) && DisjointClaims(above + members)
    requires IsMoved(plan, e)
    ensures ContentOf(above + members, e) == ContentOf(After(above, members, plan, o), e) <==> Stays(members, o, e)
  {
    hide Mergeable, IsMergedFile, After, DisjointClaims, ContentOf, Stays;
    OwnersAfter(above, members, plan, o, e.fileNumber);
    AbsorbedHasOwner(members, plan, e.fileNumber);
    StaysMeansIn(above + members, members, After(above, members, plan, o), o, e);
  }

  lemma {:induction false} StaysMeansIn(before: seq<BackupFile>, members: seq<BackupFile>, after: seq<BackupFile>,
        o: BackupFile, e: Element)
    requires !e.IsHole() && Owner(before, e.fileNumber).Some?
    requires Owner(before, e.fileNumber) == Owner(members, e.fileNumber) && Owner(after, e.fileNumber) == Some(o)
    ensures ContentOf(before, e) == ContentOf(after, e) <==> Stays(members, o, e)
  {
    hide Owner;
  }

  lemma {:induction false} AbsorbedHasOwner(members: seq<BackupFile>, plan: MergePlan, n: u16)
    requires Mergeable(members, plan) && n in plan.absorbed
    ensures Owner(members, n).Some?
  {
    AbsorbedIsOwned(members, plan, n);
  }

  /**
   * The entry older than From that stays in use at position `i`. Only a delta output leaves any, and only where
   * the absorbed members changed nothing.
   */
  ghost function Uncovered(members: seq<BackupFile>, plan: MergePlan, d: nat, p: nat, i: nat): Option<Element> {
    if plan.kind.IncrementalMerge? && !ChangedBy(members, plan.absorbed, d, p, i)
    then Some(Lookup(Chain(Older(members, plan), d, p), i))
    else None
  }

  /** The entry in use at position `i` that no merge rewrites: one of a newer file, or one left uncovered. */
  ghost function Unwritten(above: seq<BackupFile>, members: seq<BackupFile>, plan: MergePlan, d: nat, p: nat, i: nat)
    : Option<Element>
  {
    if Decided(above, d, p, i).Some? then Decided(above, d, p, i) else Uncovered(members, plan, d, p, i)
  }

  ghost predicate NoneOrStays(members: seq<BackupFile>, plan: MergePlan, o: BackupFile, e: Option<Element>) {
    e.Some? && IsMoved(plan, e.value) ==> Stays(members, o, e.value)
  }

  /** Every unwritten entry that the merge moves reads the same from the output. */
  ghost predicate BlocksStay(above: seq<BackupFile>, members: seq<BackupFile>, plan: MergePlan, o: BackupFile,
        d: nat, p: nat) {
    forall i: nat :: NoneOrStays(members, plan, o, Unwritten(above, members, plan, d, p, i))
  }

  /** The same of those the newer files decide. */
  ghost predicate DecidedStay(above: seq<BackupFile>, members: seq<BackupFile>, plan: MergePlan, o: BackupFile,
        d: nat, p: nat) {
    forall i: nat :: NoneOrStays(members, plan, o, Decided(above, d, p, i))
  }

  /** The same of the reserved sectors of the newest file, unless that is the output. */
  ghost predicate ReservedStay(above: seq<BackupFile>, members: seq<BackupFile>, plan: MergePlan, o: BackupFile,
        d: nat, p: nat) {
    above != [] ==> forall e :: e in ReservedOf(above[0], d, p) && IsMoved(plan, e) ==> Stays(members, o, e)
  }

  /** What a partition needs to restore as before; a question to the plan and the files. */
  ghost predicate EntriesStay(above: seq<BackupFile>, members: seq<BackupFile>, plan: MergePlan, o: BackupFile,
        d: nat, p: nat) {
    BlocksStay(above, members, plan, o, d, p) && ReservedStay(above, members, plan, o, d, p)
  }

  /** What of it concerns the newer files. */
  ghost predicate NewerStay(above: seq<BackupFile>, members: seq<BackupFile>, plan: MergePlan, o: BackupFile, d: nat,
        p: nat) {
    DecidedStay(above, members, plan, o, d, p) && ReservedStay(above, members, plan, o, d, p)
  }

  /** The older files that stay name no absorbed number, or the output leaves none of them in use. */
  ghost predicate OlderNameNone(members: seq<BackupFile>, plan: MergePlan) {
    plan.kind.IncrementalMerge? ==> NamesNone(Older(members, plan), plan.absorbed)
  }

  // ----- the theorem -----

  /** The output's reserved sectors stand for those of the To file. */
  lemma {:induction false} ReservedWritten(members: seq<BackupFile>, plan: MergePlan, o: BackupFile, d: nat, p: nat)
    requires Mergeable(members, plan) && IsMergedFile(members, plan, o)
    requires d < |members[0].disks| && p < |members[0].disks[d].partitions|
    ensures SameContents([] + members, ReservedOf(members[0], d, p), After([], members, plan, o), ReservedOf(o, d, p))
  {
    assert [] + members == members;
    hide Mergeable, IsMergedFile, ContentOf, After, SameContents;
    var part := PlanOfPartition(members, plan, o, d, p);
    WrittenContents([], members, plan, o, part.reserved, ReservedOf(members[0], d, p), ReservedOf(o, d, p));
  }

  /** An entry that is not rewritten stands for the same content unless the merge moves it and it does not stay. */
  lemma {:induction false} EntryKeptIff(above: seq<BackupFile>, members: seq<BackupFile>, plan: MergePlan,
        o: BackupFile, e: Element)
    requires Mergeable(members, plan) && IsMergedFile(members, plan, o) && DisjointClaims(above + members)
    ensures ContentOf(above + members, e) == ContentOf(After(above, members, plan, o), e)
       <==> (IsMoved(plan, e) ==> Stays(members, o, e))
  {
    hide Mergeable, IsMergedFile, ContentOf, After, Stays, DisjointClaims;
    if IsMoved(plan, e) {
      StaysMeans(above, members, plan, o, e);
    } else {
      KeptContent(above, members, plan, o, e);
    }
  }

  lemma {:induction false} SameByLookup(before: seq<BackupFile>, xs: seq<Element>, after: seq<BackupFile>,
        ys: seq<Element>)
    requires |xs| == |ys|
    ensures SameContents(before, xs, after, ys)
       <==> forall i: nat :: ContentOf(before, Lookup(xs, i)) == ContentOf(after, Lookup(ys, i))
  {
    hide ContentOf;
    HoleIsAbsent(before);
    HoleIsAbsent(after);
    if forall i: nat :: ContentOf(before, Lookup(xs, i)) == ContentOf(after, Lookup(ys, i)) {
      forall i | 0 <= i < |xs| ensures ContentOf(before, xs[i]) == ContentOf(after, ys[i]) {
        assert Lookup(xs, i) == xs[i] && Lookup(ys, i) == ys[i];
      }
    }
  }

  /** Taking members that are neither full nor name a position out of a chain does not change that position. */
  lemma {:induction false} UnnamedDropOut(members: seq<BackupFile>, absorbed: set<u16>, d: nat, p: nat, i: nat)
    requires forall m :: m in members && m.Header().fileNumber in absorbed ==>
               !IsFull(m) && !Names(DeltasOf(m, d, p), i)
    ensures Lookup(Chain(members, d, p), i) == Lookup(Chain(Survivors(members, absorbed), d, p), i)
  {
    hide IsFull, DeltasOf, FullEntriesOf, Lookup, Replay;
    if members != [] {
      var m, rest := members[0], members[1..];
      UnnamedDropOut(rest, absorbed, d, p, i);
      var kept := Survivors(rest, absorbed);
      assert ([m] + kept)[1..] == kept;
      if !IsFull(m) {
        LastWriterMeaning(DeltasOf(m, d, p), i);
        LookupReplayed(Chain(rest, d, p), DeltasOf(m, d, p), i);
        LookupReplayed(Chain(kept, d, p), DeltasOf(m, d, p), i);
      }
    }
  }

  /** Where an incremental merge changes nothing and no skipped file has a say, the older files do. */
  lemma {:induction false} OlderDecide(members: seq<BackupFile>, plan: MergePlan, d: nat, p: nat, i: nat)
    requires Mergeable(members, plan) && plan.kind.IncrementalMerge?
    requires !ChangedBy(members, plan.absorbed, d, p, i) && Decided(Skipped(members, plan), d, p, i).None?
    ensures Lookup(Chain(members, d, p), i) == Lookup(Chain(Older(members, plan), d, p), i)
  {
    hide IsPlan, DisjointClaims, Chain, Lookup, Survivors, Decided, Skipped, Older, IsFull, DeltasOf, Names;
    forall m | m in members && m.Header().fileNumber in plan.absorbed
      ensures !IsFull(m) && !Names(DeltasOf(m, d, p), i)
    {
      var k :| 0 <= k < |members| && members[k] == m;
      AbsorbedIsDelta(members, plan, k);
    }
    UnnamedDropOut(members, plan.absorbed, d, p, i);
    SurvivorsInTwo(members, plan);
    LookupAbove(Skipped(members, plan), Older(members, plan), d, p, i);
  }

  /** What an incremental merge makes of one position, where no skipped file has a say. */
  lemma {:induction false} IncrementalPosition(above: seq<BackupFile>, members: seq<BackupFile>, plan: MergePlan,
        o: BackupFile, d: nat, p: nat, i: nat)
    requires Mergeable(members, plan) && IsMergedFile(members, plan, o) && plan.kind.IncrementalMerge?
    requires DisjointClaims(above + members) && Decided(Skipped(members, plan), d, p, i).None?
    requires d < |members[0].disks| && p < |members[0].disks[d].partitions|
    ensures ContentOf(above + members, Lookup(Chain(members, d, p), i))
         == ContentOf(After(above, members, plan, o), Lookup(Chain([o] + Older(members, plan), d, p), i))
       <==> NoneOrStays(members, plan, o, Uncovered(members, plan, d, p, i))
  {
    hide *;
    var older, deltas := Chain(Older(members, plan), d, p), DeltasOf(o, d, p);
    DeltaOverOlder(members, plan, o, d, p);
    DescribedAt(members, plan, o, d, p, i);
    LookupReplayed(older, deltas, i);
    UncoveredIs(members, plan, o, d, p, i);
    if ChangedBy(members, plan.absorbed, d, p, i) {
      WrittenContent(above, members, plan, o, Lookup(Chain(members, d, p), i), LastWriter(deltas, i).value);
    } else {
      OlderDecide(members, plan, d, p, i);
      EntryKeptIff(above, members, plan, o, Lookup(older, i));
    }
  }

  lemma {:induction false} DeltaOverOlder(members: seq<BackupFile>, plan: MergePlan, o: BackupFile, d: nat, p: nat)
    requires Mergeable(members, plan) && IsMergedFile(members, plan, o) && plan.kind.IncrementalMerge?
    ensures Chain([o] + Older(members, plan), d, p) == Replay(Chain(Older(members, plan), d, p), DeltasOf(o, d, p))
  {
    hide Mergeable, IsMergedFile, Older, Chain, Replay, DeltasOf;
    MergedClaims(members, plan, o);
    ChainOfDelta(o, Older(members, plan), d, p);
  }

  /** The output's last word on a position. */
  lemma {:induction false} DescribedAt(members: seq<BackupFile>, plan: MergePlan, o: BackupFile, d: nat, p: nat, i: nat)
    requires Mergeable(members, plan) && IsMergedFile(members, plan, o) && plan.kind.IncrementalMerge?
    requires d < |members[0].disks| && p < |members[0].disks[d].partitions|
    ensures ChangedBy(members, plan.absorbed, d, p, i) <==> LastWriter(DeltasOf(o, d, p), i).Some?
    ensures ChangedBy(members, plan.absorbed, d, p, i) ==>
              EntryMatches(Classify(Lookup(Chain(members, d, p), i), plan.absorbed),
                           LastWriter(DeltasOf(o, d, p), i).value, Layout(plan), plan.outFileNumber)
  {
    hide Mergeable, IsMergedFile, ChangedBy, DeltasOf, EntryMatches, Classify, Lookup, Chain, Layout;
    OutputDeltas(members, plan, o, d, p);
    LastWriterMeaning(DeltasOf(o, d, p), i);
  }

  lemma {:induction false} UncoveredIs(members: seq<BackupFile>, plan: MergePlan, o: BackupFile, d: nat, p: nat, i: nat)
    requires plan.kind.IncrementalMerge?
    ensures var e := Lookup(Chain(Older(members, plan), d, p), i);
            NoneOrStays(members, plan, o, Uncovered(members, plan, d, p, i))
            <==> ChangedBy(members, plan.absorbed, d, p, i) || (IsMoved(plan, e) ==> Stays(members, o, e))
  {
    hide Chain, Older, Lookup, ChangedBy, IsMoved, Stays;
  }

  /** What any merge makes of one position below the newer files, where no skipped file has a say. */
  lemma {:induction false} LowerPositionIff(above: seq<BackupFile>, members: seq<BackupFile>, plan: MergePlan,
        o: BackupFile, d: nat, p: nat, i: nat)
    requires Mergeable(members, plan) && IsMergedFile(members, plan, o) && DisjointClaims(above + members)
    requires Decided(Skipped(members, plan), d, p, i).None?
    requires d < |members[0].disks| && p < |members[0].disks[d].partitions|
    ensures ContentOf(above + members, Lookup(Chain(members, d, p), i))
         == ContentOf(After(above, members, plan, o), Lookup(Chain([o] + Older(members, plan), d, p), i))
       <==> NoneOrStays(members, plan, o, Uncovered(members, plan, d, p, i))
  {
    match plan.kind {
      case SyntheticFull =>
        hide Mergeable, IsMergedFile, After, ContentOf, Chain, DisjointClaims, Older, Skipped, Lookup, Decided;
        SyntheticChain(above, members, plan, o, d, p);
        SameByLookup(above + members, Chain(members, d, p), After(above, members, plan, o),
              Chain([o] + Older(members, plan), d, p));
      case IncrementalMerge =>
        hide *;
        IncrementalPosition(above, members, plan, o, d, p, i);
    }
  }

  // ----- one position of the whole chain -----

  /**
   * What a position needs. Where a newer file decides, that its entry is not moved or reads the same; where a
   * skipped file now has the last word, that its entry, read from the new set, stands for what was resolved
   * before; elsewhere that the entry the output leaves uncovered, if any, is not moved or reads the same.
   */
  ghost predicate PositionKept(above: seq<BackupFile>, members: seq<BackupFile>, plan: MergePlan, o: BackupFile,
        d: nat, p: nat, i: nat)
  {
    var newer, skipped := Decided(above, d, p, i), Decided(Skipped(members, plan), d, p, i);
    if newer.Some? then NoneOrStays(members, plan, o, newer)
    else if skipped.Some? then
      ContentOf(above + members, Lookup(Chain(members, d, p), i))
      == ContentOf(After(above, members, plan, o), skipped.value)
    else NoneOrStays(members, plan, o, Uncovered(members, plan, d, p, i))
  }

  lemma {:induction false} PositionKeptIff(above: seq<BackupFile>, members: seq<BackupFile>, plan: MergePlan,
        o: BackupFile, d: nat, p: nat, i: nat)
    requires Mergeable(members, plan) && IsMergedFile(members, plan, o) && DisjointClaims(above + members)
    requires d < |members[0].disks| && p < |members[0].disks[d].partitions|
    ensures var before, after := above + members, After(above, members, plan, o);
            ContentOf(before, Lookup(Chain(before, d, p), i)) == ContentOf(after, Lookup(Chain(after, d, p), i))
            <==> PositionKept(above, members, plan, o, d, p, i)
  {
    hide *;
    var before, after := above + members, After(above, members, plan, o);
    var rest := [o] + Older(members, plan);
    AfterParts(above, members, plan, o);
    LookupAbove(above, members, d, p, i);
    LookupAbove(above, Skipped(members, plan) + rest, d, p, i);
    LookupAbove(Skipped(members, plan), rest, d, p, i);
    PositionKeptIs(above, members, plan, o, d, p, i);
    if Decided(above, d, p, i).Some? {
      EntryKeptIff(above, members, plan, o, Decided(above, d, p, i).value);
    } else if Decided(Skipped(members, plan), d, p, i).None? {
      LowerPositionIff(above, members, plan, o, d, p, i);
    }
  }

  lemma {:induction false} AfterParts(above: seq<BackupFile>, members: seq<BackupFile>, plan: MergePlan, o: BackupFile)
    ensures After(above, members, plan, o) == above + (Skipped(members, plan) + ([o] + Older(members, plan)))
  {
    hide Skipped, Older;
  }

  lemma {:induction false} PositionKeptIs(above: seq<BackupFile>, members: seq<BackupFile>, plan: MergePlan,
        o: BackupFile, d: nat, p: nat, i: nat)
    ensures var newer, skipped := Decided(above, d, p, i), Decided(Skipped(members, plan), d, p, i);
            PositionKept(above, members, plan, o, d, p, i)
            <==> if newer.Some? then IsMoved(plan, newer.value) ==> Stays(members, o, newer.value)
                 else if skipped.Some? then
                   ContentOf(above + members, Lookup(Chain(members, d, p), i))
                   == ContentOf(After(above, members, plan, o), skipped.value)
                 else NoneOrStays(members, plan, o, Uncovered(members, plan, d, p, i))
  {
    hide Decided, Skipped, ContentOf, Lookup, Chain, After, Uncovered, IsMoved, Stays;
  }

  /** The resolved array keeps its length, and every position its content. */
  ghost predicate BlocksKept(above: seq<BackupFile>, members: seq<BackupFile>, plan: MergePlan, o: BackupFile,
        d: nat, p: nat) {
    && |Chain(above + members, d, p)| == |Chain(After(above, members, plan, o), d, p)|
    && forall i: nat :: PositionKept(above, members, plan, o, d, p, i)
  }

  lemma {:induction false} BlocksKeptIff(above: seq<BackupFile>, members: seq<BackupFile>, plan: MergePlan,
        o: BackupFile, d: nat, p: nat)
    requires Mergeable(members, plan) && IsMergedFile(members, plan, o) && DisjointClaims(above + members)
    requires d < |members[0].disks| && p < |members[0].disks[d].partitions|
    ensures var after := After(above, members, plan, o);
            SameContents(above + members, Chain(above + members, d, p), after, Chain(after, d, p))
            <==> BlocksKept(above, members, plan, o, d, p)
  {
    hide Mergeable, IsMergedFile, ContentOf, Chain, DisjointClaims, After, Lookup, PositionKept;
    var before, after := above + members, After(above, members, plan, o);
    if |Chain(before, d, p)| == |Chain(after, d, p)| {
      SameByLookup(before, Chain(before, d, p), after, Chain(after, d, p));
      forall i: nat
        ensures ContentOf(before, Lookup(Chain(before, d, p), i)) == ContentOf(after, Lookup(Chain(after, d, p), i))
           <==> PositionKept(above, members, plan, o, d, p, i)
      {
        PositionKeptIff(above, members, plan, o, d, p, i);
      }
    }
  }

  /** The reserved sectors of the newest file: one above To, else a skipped one, else the output. */
  ghost predicate ReservedKept(above: seq<BackupFile>, members: seq<BackupFile>, plan: MergePlan, o: BackupFile,
        d: nat, p: nat)
    requires members != []
  {
    if above == [] && Skipped(members, plan) != [] then
      SameContents(members, ReservedOf(members[0], d, p), After([], members, plan, o),
                   ReservedOf(Skipped(members, plan)[0], d, p))
    else ReservedStay(above, members, plan, o, d, p)
  }

  lemma {:induction false} ToIsThere(members: seq<BackupFile>, plan: MergePlan)
    requires Mergeable(members, plan)
    ensures members != []
  {
    hide IsPlan, DisjointClaims;
  }

  /** Which file is the newest, before and after. */
  lemma {:induction false} NewestIs(above: seq<BackupFile>, members: seq<BackupFile>, plan: MergePlan, o: BackupFile)
    requires members != []
    ensures var before, after, skipped := above + members, After(above, members, plan, o), Skipped(members, plan);
            && before != [] && after != []
            && before[0] == (if above != [] then above[0] else members[0])
            && after[0] == (if above != [] then above[0] else if skipped != [] then skipped[0] else o)
  {
    hide Skipped, Older;
  }

  lemma {:induction false} ReservedKeptIff(above: seq<BackupFile>, members: seq<BackupFile>, plan: MergePlan,
        o: BackupFile, d: nat, p: nat)
    requires Mergeable(members, plan) && IsMergedFile(members, plan, o) && DisjointClaims(above + members)
    requires d < |members[0].disks| && p < |members[0].disks[d].partitions|
    ensures var before, after := above + members, After(above, members, plan, o);
            before != [] && after != [] &&
            (SameContents(before, ReservedOf(before[0], d, p), after, ReservedOf(after[0], d, p))
             <==> ReservedKept(above, members, plan, o, d, p))
  {
    hide Mergeable, IsMergedFile, ContentOf, Skipped, After, Stays, IsMoved, DisjointClaims, ReservedOf;
    ToIsThere(members, plan);
    assert [] + members == members;
    NewestIs(above, members, plan, o);
    if above != [] {
      forall e ensures ContentOf(above + members, e) == ContentOf(After(above, members, plan, o), e)
                 <==> (IsMoved(plan, e) ==> Stays(members, o, e))
      {
        EntryKeptIff(above, members, plan, o, e);
      }
    } else if Skipped(members, plan) == [] {
      ReservedWritten(members, plan, o, d, p);
    }
  }

  lemma {:induction false} SameContentsMeans(before: seq<BackupFile>, xs: seq<Element>, after: seq<BackupFile>,
        ys: seq<Element>)
    ensures SameContents(before, xs, after, ys) <==> Contents(before, xs) == Contents(after, ys)
  {
    hide ContentOf;
    if Contents(before, xs) == Contents(after, ys) {
      forall i | 0 <= i < |xs| ensures ContentOf(before, xs[i]) == ContentOf(after, ys[i]) {
        assert Contents(before, xs)[i] == Contents(after, ys)[i];
      }
    }
  }

  /**
   * When a merge preserves meaning. For every chain with disjoint claims, every accepted plan, and any newer files
   * above To: resolving as of the newest file, a partition of To has the same reserved sectors and the same blocks
   * (hole, or stored bytes with their hash) before and after the absorbed files are replaced, if and only if the
   * resolved array keeps its length, each position meets `PositionKept`, and so does what is reserved.
   */
  lemma {:induction false} MergePreservesImageIff(above: seq<BackupFile>, members: seq<BackupFile>, plan: MergePlan,
        o: BackupFile, d: nat, p: nat)
    requires Mergeable(members, plan) && IsMergedFile(members, plan, o) && DisjointClaims(above + members)
    requires d < |members[0].disks| && p < |members[0].disks[d].partitions|
    ensures RestoredPartition(above + members, d, p) == RestoredPartition(After(above, members, plan, o), d, p)
       <==> BlocksKept(above, members, plan, o, d, p) && ReservedKept(above, members, plan, o, d, p)
  {
    hide Mergeable, IsMergedFile, ContentOf, Chain, Contents, SameContents, Skipped, Older, DisjointClaims, BlocksKept,
      ReservedKept;
    var before, after := above + members, After(above, members, plan, o);
    BlocksKeptIff(above, members, plan, o, d, p);
    SameContentsMeans(before, Chain(before, d, p), after, Chain(after, d, p));
    ReservedKeptIff(above, members, plan, o, d, p);
    SameContentsMeans(before, ReservedOf(before[0], d, p), after, ReservedOf(after[0], d, p));
  }

  // ----- plans that take the newest members -----

  /** Such a merge keeps the length of the array. */
  lemma {:induction false} LengthKept(above: seq<BackupFile>, members: seq<BackupFile>, plan: MergePlan,
        o: BackupFile, d: nat, p: nat)
    requires Mergeable(members, plan) && IsMergedFile(members, plan, o) && DisjointClaims(above + members)
    requires TakesNewest(members, plan.absorbed)
    requires d < |members[0].disks| && p < |members[0].disks[d].partitions|
    ensures |Chain(above + members, d, p)| == |Chain(After(above, members, plan, o), d, p)|
  {
    hide Mergeable, IsMergedFile, ContentOf, Chain, DisjointClaims, After, Survivors, Older, Skipped, Names,
      DeltasDescribe;
    var merged := [o] + Survivors(members, plan.absorbed);
    AfterIs(above, members, plan, o);
    NothingSkipped(members, plan);
    match plan.kind {
      case SyntheticFull => SyntheticChain(above, members, plan, o, d, p);
      case IncrementalMerge =>
        var history, deltas := SwappedHistory(members, plan, o, d, p);
        SameNamesSameLength(|Chain(Survivors(members, plan.absorbed), d, p)|, history, deltas);
    }
    LengthAbove(above, members, merged, d, p);
  }

  /** And nothing has a say that had none before: it is all a matter of the entries that stay in use. */
  lemma {:induction false} TakingNewestStays(above: seq<BackupFile>, members: seq<BackupFile>, plan: MergePlan,
        o: BackupFile, d: nat, p: nat)
    requires Mergeable(members, plan) && IsMergedFile(members, plan, o) && DisjointClaims(above + members)
    requires TakesNewest(members, plan.absorbed)
    requires d < |members[0].disks| && p < |members[0].disks[d].partitions|
    ensures BlocksKept(above, members, plan, o, d, p) && ReservedKept(above, members, plan, o, d, p)
       <==> EntriesStay(above, members, plan, o, d, p)
  {
    hide Mergeable, IsMergedFile, ContentOf, Chain, DisjointClaims, After, Survivors, Older, Skipped, Uncovered,
      ReservedStay, NoneOrStays, Lookup;
    LengthKept(above, members, plan, o, d, p);
    NothingSkipped(members, plan);
    assert forall i: nat :: PositionKept(above, members, plan, o, d, p, i)
                       <==> NoneOrStays(members, plan, o, Unwritten(above, members, plan, d, p, i));
  }

  /**
   * So a plan that takes the newest members preserves a partition if and only if every moved entry that the merge
   * leaves in use, in a newer file or in an older one that the output does not cover, reads the same from the output.
   */
  lemma {:induction false} NewestMergePreservesImageIff(above: seq<BackupFile>, members: seq<BackupFile>,
        plan: MergePlan, o: BackupFile, d: nat, p: nat)
    requires Mergeable(members, plan) && IsMergedFile(members, plan, o) && DisjointClaims(above + members)
    requires TakesNewest(members, plan.absorbed)
    requires d < |members[0].disks| && p < |members[0].disks[d].partitions|
    ensures RestoredPartition(above + members, d, p) == RestoredPartition(After(above, members, plan, o), d, p)
       <==> EntriesStay(above, members, plan, o, d, p)
  {
    hide *;
    MergePreservesImageIff(above, members, plan, o, d, p);
    TakingNewestStays(above, members, plan, o, d, p);
  }

  // ----- where nothing moves -----

  /** Newer files that name no absorbed number have nothing that could move under them. */
  lemma {:induction false} NamingNoneStays(above: seq<BackupFile>, members: seq<BackupFile>, plan: MergePlan,
        o: BackupFile, d: nat, p: nat)
    requires NamesNone(above, plan.absorbed)
    ensures NewerStay(above, members, plan, o, d, p)
  {
    hide HasEntry, Stays, Decided, ReservedOf;
    forall i: nat | Decided(above, d, p, i).Some? ensures !IsMoved(plan, Decided(above, d, p, i).value) {
      DecidedEntries(above, d, p, i);
    }
    if above != [] {
      forall e | e in ReservedOf(above[0], d, p) ensures !IsMoved(plan, e) {
        EntryOfMember(above[0], d, p, e);
      }
    }
  }

  /** With older files that name none either, only the newer files' entries are in question. */
  lemma {:induction false} OnlyNewerMatter(above: seq<BackupFile>, members: seq<BackupFile>, plan: MergePlan,
        o: BackupFile, d: nat, p: nat)
    requires OlderNameNone(members, plan)
    ensures EntriesStay(above, members, plan, o, d, p) <==> NewerStay(above, members, plan, o, d, p)
  {
    hide NamesNone, Stays, Chain, ChangedBy, ReservedStay, Older, Decided;
    forall i: nat ensures NoneOrStays(members, plan, o, Uncovered(members, plan, d, p, i)) {
      if Uncovered(members, plan, d, p, i).Some? {
        var older := Older(members, plan);
        ChainNamesNone(older, plan.absorbed, d, p);
        assert Lookup(Chain(older, d, p), i) == HOLE || Lookup(Chain(older, d, p), i) in Chain(older, d, p);
      }
    }
    forall i: nat
      ensures NoneOrStays(members, plan, o, Unwritten(above, members, plan, d, p, i))
         <==> NoneOrStays(members, plan, o, Decided(above, d, p, i))
    {
    }
  }

  /** So where neither name an absorbed number, every accepted merge preserves every partition. */
  lemma {:induction false} MergePreservesImage(above: seq<BackupFile>, members: seq<BackupFile>, plan: MergePlan,
        o: BackupFile, d: nat, p: nat)
    requires Mergeable(members, plan) && IsMergedFile(members, plan, o) && DisjointClaims(above + members)
    requires TakesNewest(members, plan.absorbed)
    requires NamesNone(above, plan.absorbed) && OlderNameNone(members, plan)
    requires d < |members[0].disks| && p < |members[0].disks[d].partitions|
    ensures RestoredPartition(above + members, d, p) == RestoredPartition(After(above, members, plan, o), d, p)
  {
    hide *;
    NamingNoneStays(above, members, plan, o, d, p);
    OnlyNewerMatter(above, members, plan, o, d, p);
    NewestMergePreservesImageIff(above, members, plan, o, d, p);
  }
}
