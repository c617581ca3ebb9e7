/**
 * Plain sets: a Full and its incrementals, where every file names only blocks it holds itself. Here no
 * merge needs a condition beyond the program's own rules, at any place in the chain.
 */
module Plain {
  import opened Wrappers
  import opened Bytes
  import opened Index
  import opened Json
  import opened Reader
  import opened Set
  import opened Plan
  import opened Write
  import opened Restore
  import opened Merge
  import opened Preserve
  import opened Readback
  import opened Runs
  import opened Complete

  ghost predicate NamesOwn(m: BackupFile) {
    forall e :: HasEntry(m.disks, e) && !e.IsHole() ==> e.fileNumber in Claims(m)
  }

  /** Every file names only its own numbers, and only the oldest carries a full index. */
  ghost predicate IsPlain(members: seq<BackupFile>) {
    && (forall i :: 0 <= i < |members| ==> NamesOwn(members[i]))
    && (forall i :: 0 <= i < |members| - 1 ==> !IsFull(members[i]))
  }

  // ----- the files above To -----

  /** In a plain set no file above To names an absorbed number. */
  lemma {:induction false} AboveNamesNone(members: seq<BackupFile>, k: nat, absorbed: set<u16>)
    requires IsPlain(members) && DisjointClaims(members) && k <= |members|
    requires forall c :: c in absorbed ==> exists i :: k <= i < |members| && c in Claims(members[i])
    ensures NamesNone(members[..k], absorbed)
  {
    hide HasEntry, Claims, IsFull;
    var upper := members[..k];
    forall m, e | m in upper && HasEntry(m.disks, e) && !e.IsHole() ensures e.fileNumber !in absorbed {
      var j :| 0 <= j < k && members[j] == m;
      assert NamesOwn(members[j]);
      forall c | c in absorbed ensures c != e.fileNumber {
        var i :| k <= i < |members| && c in Claims(members[i]);
        assert Claims(members[j]) !! Claims(members[i]);
      }
    }
  }

  lemma {:induction false} AbsorbedFromBelow(members: seq<BackupFile>, k: nat, plan: MergePlan)
    requires k <= |members| && IsPlan(members[k..], plan)
    ensures forall c :: c in plan.absorbed ==> exists i :: k <= i < |members| && c in Claims(members[i])
  {
    hide IsPlan, Claims;
    var lower := members[k..];
    forall c | c in plan.absorbed ensures exists i :: k <= i < |members| && c in Claims(members[i]) {
      AbsorbedIsOwned(lower, plan, c);
      var j :| 0 <= j < |lower| && lower[j] == Owner(lower, c).value;
      assert members[k + j] == lower[j];
    }
  }

  /** So every accepted merge of a plain set leaves the newer files their meaning. */
  lemma {:induction false} AcceptedIsStep(f: Foreign, members: seq<BackupFile>, k: nat, plan: MergePlan, o: BackupFile)
    requires k < |members| && WellFormed(f, members) && IsPlain(members) && AcceptedAt(f, members, k, plan, o)
    ensures NamesNone(members[..k], plan.absorbed) && NoForward(members) && AllStay(members, k, plan, o)
  {
    hide IsPlan, IsMergedFile, IsParsed, WellFormed, NamesNone, IsPlain, NewerStay, AllStay, NoForward, SeenFrom,
      TakesNewest, DisjointClaims, Causal;
    WellFormedIsDisjoint(f, members);
    AbsorbedFromBelow(members, k, plan);
    AboveNamesNone(members, k, plan.absorbed);
    PlainIsCausal(members);
    CausalIsNoForward(members);
    forall d: nat, p: nat ensures NewerStay(members[..k], members[k..], plan, o, d, p) {
      NamingNoneStays(members[..k], members[k..], plan, o, d, p);
    }
    BackwardStepKeepsImageIff(f, members, k, plan, o);
  }

  lemma {:induction false} PlainIsCausal(members: seq<BackupFile>)
    requires IsPlain(members)
    ensures Causal(members)
  {
    hide HasEntry, Claims, IsFull;
    forall j, e | 0 <= j < |members| && HasEntry(members[j].disks, e) && !e.IsHole()
      ensures ClaimedFrom(members, j, e.fileNumber)
    {
      assert NamesOwn(members[j]) && e.fileNumber in Claims(members[j]);
    }
  }

  // ----- the output is plain -----

  /** Where a written entry came from, with its position when it is a block. */
  lemma {:induction false} WrittenSource(members: seq<BackupFile>, plan: MergePlan, part: PartitionPlan,
        index: PartitionIndex, d: nat, p: nat, e: Element)
    returns (source: Element, at: nat)
    requires members != [] && PartitionPlanned(members, members[0], plan.kind, plan.absorbed, d, p, part)
    requires IndexWritten(plan.kind, part, index, Layout(plan), plan.outFileNumber) && e in EntriesOf(index)
    requires plan.kind.IncrementalMerge?
    ensures EntryMatches(Classify(source, plan.absorbed), e, Layout(plan), plan.outFileNumber)
    ensures source in ReservedOf(members[0], d, p)
         || (source == Lookup(Chain(members, d, p), at) && ChangedBy(members, plan.absorbed, d, p, at))
  {
    hide EntryMatches, Classify, Chain, Layout, EntriesOf, BlockElements, ChangedBy, ReservedOf, Lookup, IndexWritten;
    WrittenBlocks(plan.kind, part, index, Layout(plan), plan.outFileNumber);
    if e in index.reserved {
      var i :| 0 <= i < |index.reserved| && index.reserved[i] == e;
      assert EntryMatches(part.reserved[i], e, Layout(plan), plan.outFileNumber);
      source, at := ReservedOf(members[0], d, p)[i], 0;
    } else {
      var i :| 0 <= i < |BlockElements(index.blocks)| && BlockElements(index.blocks)[i] == e;
      assert EntryMatches(part.blocks[i], e, Layout(plan), plan.outFileNumber);
      at := part.positions[i];
      assert part.positions[i] in part.positions;
      source := Lookup(Chain(members, d, p), at);
    }
  }

  lemma {:induction false} HistoryIsRecorded(members: seq<BackupFile>, d: nat, p: nat, delta: Delta)
    requires delta in History(members, d, p)
    ensures exists i :: 0 <= i < |members| && delta in DeltasOf(members[i], d, p)
  {
    hide DeltasOf;
    if delta in DeltasOf(members[0], d, p) {
    } else {
      HistoryIsRecorded(members[1..], d, p, delta);
      var i :| 0 <= i < |members[1..]| && delta in DeltasOf(members[1..][i], d, p);
      assert members[i + 1] == members[1..][i];
    }
  }

  /** What an incremental merge finds at a changed position was recorded by an absorbed file. */
  lemma {:induction false} ChangedIsRecorded(members: seq<BackupFile>, plan: MergePlan, o: BackupFile, d: nat, p: nat,
        at: nat)
    returns (i: nat)
    requires Mergeable(members, plan) && IsMergedFile(members, plan, o) && plan.kind.IncrementalMerge?
    requires TakesNewest(members, plan.absorbed) && ChangedBy(members, plan.absorbed, d, p, at)
    ensures i < RangeOf(members, plan) && HasEntry(members[i].disks, Lookup(Chain(members, d, p), at))
  {
    hide Mergeable, IsMergedFile, ChangedBy, RangeOf, DeltasOf, HasEntry, Chain;
    var n := RangeOf(members, plan);
    ChangedIsNamed(members, plan, d, p, at);
    ChainsOverOlder(members, plan, o, d, p);
    var older, history := Chain(members[n..], d, p), History(members[..n], d, p);
    LastWriterMeaning(history, at);
    GrownLengthMeaning(|older|, history);
    WriterIsDelta(history, at);
    var delta :| delta in history && delta.blockIndex == at && delta.element == LastWriter(history, at).value;
    assert Lookup(Chain(members, d, p), at) == delta.element;
    HistoryIsRecorded(members[..n], d, p, delta);
    i :| 0 <= i < n && delta in DeltasOf(members[..n][i], d, p);
    DeltaIsEntry(members[i], d, p, delta);
  }

  lemma {:induction false} DeltaIsEntry(m: BackupFile, d: nat, p: nat, delta: Delta)
    requires delta in DeltasOf(m, d, p)
    ensures HasEntry(m.disks, delta.element)
  {
    hide DeltasOf, HasEntry;
    assert Delta(delta.element, delta.blockIndex) in DeltasOf(m, d, p);
    EntryOfMember(m, d, p, delta.element);
  }

  /** An entry written for a block of an absorbed file, or for a hole, names a number the output claims. */
  lemma {:induction false} CopiedNamesOwn(lower: seq<BackupFile>, plan: MergePlan, o: BackupFile, i: nat,
        source: Element, e: Element)
    requires Mergeable(lower, plan) && IsMergedFile(lower, plan, o) && TakesNewest(lower, plan.absorbed)
    requires i < RangeOf(lower, plan)
    requires NamesOwn(lower[i]) && (source.IsHole() || HasEntry(lower[i].disks, source))
    requires EntryMatches(Classify(source, plan.absorbed), e, Layout(plan), plan.outFileNumber)
    ensures !e.IsHole() ==> e.fileNumber in Claims(o)
  {
    hide Mergeable, IsMergedFile, RangeOf, Layout, Claims, HasEntry;
    MergedClaims(lower, plan, o);
    RangeIsPrefix(lower, plan);
    if !source.IsHole() {
      assert source.fileNumber in Claims(lower[i]);
    }
  }

  lemma {:induction false} IncrementalNamesOwn(lower: seq<BackupFile>, plan: MergePlan, o: BackupFile)
    requires Mergeable(lower, plan) && IsMergedFile(lower, plan, o) && plan.kind.IncrementalMerge?
    requires TakesNewest(lower, plan.absorbed)
    requires forall i :: 0 <= i < |lower| ==> NamesOwn(lower[i])
    ensures NamesOwn(o)
  {
    hide Mergeable, IsMergedFile, RangeOf, EntriesOf, EntryMatches, Classify, Layout, Chain, ChangedBy, ReservedOf,
      Claims, NamesOwn, PartitionPlanned, IndexWritten, Lookup;
    SameDisks(lower, plan, o);
    RangeIsPrefix(lower, plan);
    forall e | HasEntry(o.disks, e) && !e.IsHole() ensures e.fileNumber in Claims(o) {
      var d, p :| 0 <= d < |o.disks| && 0 <= p < |o.disks[d].partitions|
             && e in EntriesOf(o.disks[d].partitions[p].index);
      var part := PlanOfPartition(lower, plan, o, d, p);
      var source, at := WrittenSource(lower, plan, part, o.disks[d].partitions[p].index, d, p, e);
      var i := 0;
      if source in ReservedOf(lower[0], d, p) {
        EntryOfMember(lower[0], d, p, source);
      } else {
        i := ChangedIsRecorded(lower, plan, o, d, p, at);
      }
      CopiedNamesOwn(lower, plan, o, i, source, e);
    }
    GatherNamesOwn(o);
  }

  lemma {:induction false} GatherNamesOwn(m: BackupFile)
    requires forall e :: HasEntry(m.disks, e) && !e.IsHole() ==> e.fileNumber in Claims(m)
    ensures NamesOwn(m)
  {
  }

  /** A synthetic Full that absorbs every file names only itself. */
  lemma {:induction false} SyntheticNamesOwn(lower: seq<BackupFile>, plan: MergePlan, o: BackupFile)
    requires Mergeable(lower, plan) && IsMergedFile(lower, plan, o) && RangeOf(lower, plan) == |lower|
    requires TakesNewest(lower, plan.absorbed)
    requires forall i :: 0 <= i < |lower| ==> NamesOwn(lower[i])
    ensures NamesOwn(o)
  {
    hide Mergeable, IsMergedFile, RangeOf, EntryMatches, Classify, Layout, Chain, ReservedOf, Claims, HasEntry,
      NamesOwn;
    RangeIsPrefix(lower, plan);
    forall e | HasEntry(o.disks, e) && !e.IsHole() ensures e.fileNumber in Claims(o) {
      var source, d, p := OutputEntry(lower, plan, o, e);
      var i := 0;
      if !source.IsHole() {
        var m := RecordedBy(lower, source, d, p);
        i :| 0 <= i < |lower| && lower[i] == m;
      }
      CopiedNamesOwn(lower, plan, o, i, source, e);
    }
    GatherNamesOwn(o);
  }

  // ----- a step -----

  lemma {:induction false} PlainSuffix(members: seq<BackupFile>, k: nat)
    requires IsPlain(members) && k <= |members|
    ensures forall i :: 0 <= i < |members| - k ==> NamesOwn(members[k..][i])
  {
    hide NamesOwn, IsFull;
    forall i | 0 <= i < |members| - k ensures NamesOwn(members[k..][i]) {
      assert members[k..][i] == members[k + i];
    }
  }

  /** A range that takes every file is the whole of what lies below To. */
  lemma {:induction false} WholeRange(members: seq<BackupFile>, k: nat, plan: MergePlan)
    requires k < |members| && Mergeable(members[k..], plan) && TakesNewest(members[k..], plan.absorbed)
    requires forall x, y :: k <= x < |members| && y in Claims(members[x]) ==> y in plan.absorbed
    ensures RangeOf(members[k..], plan) == |members| - k
  {
    var lower := members[k..];
    RangeIsPrefix(lower, plan);
    hide *;
    var last := |lower| - 1;
    var number := lower[last].Header().fileNumber;
    assert lower[last] == members[k + last];
    OwnNumberIsClaimed(lower[last]);
    assert number in Claims(members[k + last]) && number in plan.absorbed;
    assert last < RangeOf(lower, plan) <= |lower|;
  }

  lemma {:induction false} OutputNamesOwn(members: seq<BackupFile>, k: nat, n: nat, plan: MergePlan, o: BackupFile)
    requires IsPlain(members) && k + n <= |members| && 0 < n
    requires Mergeable(members[k..], plan) && IsMergedFile(members[k..], plan, o)
    requires TakesNewest(members[k..], plan.absorbed)
    requires forall x, y :: k <= x < |members| && y in Claims(members[x]) ==> (y in plan.absorbed <==> x < k + n)
    requires plan.kind.SyntheticFull? ==> k + n == |members|
    ensures NamesOwn(o)
  {
    hide *;
    PlainSuffix(members, k);
    if plan.kind.SyntheticFull? {
      WholeRange(members, k, plan);
      SyntheticNamesOwn(members[k..], plan, o);
    } else {
      IncrementalNamesOwn(members[k..], plan, o);
    }
  }

  lemma {:induction false} SplicedIsPlain(members: seq<BackupFile>, k: nat, n: nat, o: BackupFile,
        next: seq<BackupFile>, kind: MergeKind)
    requires Spliced(members, k, n, o, next) && IsPlain(members) && NamesOwn(o)
    requires IsFull(o) == kind.SyntheticFull? && (kind.SyntheticFull? ==> k + n == |members|)
    ensures IsPlain(next)
  {
    hide NamesOwn, IsFull;
    forall i | 0 <= i < |next| ensures NamesOwn(next[i]) && (i < |next| - 1 ==> !IsFull(next[i])) {
      SplicedAt(members, k, n, o, next, i);
    }
  }

  /** The only full index of a plain set is the oldest one. */
  lemma {:induction false} FullIsOldest(members: seq<BackupFile>, j: nat)
    requires IsPlain(members) && j < |members| && IsFull(members[j])
    ensures j == |members| - 1 && BaseIndex(members) == Some(j)
  {
    hide NamesOwn, IsFull;
    BaseIs(members, j);
  }

  lemma {:induction false} PlainHasNoGap(members: seq<BackupFile>, k: nat, plan: MergePlan, j: nat)
    requires k < |members| && IsPlain(members) && IsComplete(members) && j < |members|
    requires IsFull(members[j]) == plan.kind.SyntheticFull? && members[j].Header().fileNumber == plan.outFileNumber
    ensures NoGap(members, k, plan)
  {
    hide NamesOwn, IsFull, Owner, References, IsPlain;
    if plan.kind.SyntheticFull? {
      FullIsOldest(members, j);
    }
  }

  /** Any accepted merge keeps a plain, complete set plain and complete, and restoring the same image. */
  lemma {:induction false} AcceptedStepIsSafe(f: Foreign, members: seq<BackupFile>, k: nat, plan: MergePlan,
        o: BackupFile)
    requires k < |members| && WellFormed(f, members) && IsPlain(members) && IsComplete(members)
    requires AcceptedAt(f, members, k, plan, o)
    ensures var next := NextSet(members, k, plan, o);
            && WellFormed(f, next) && IsPlain(next) && IsComplete(next)
            && SameImage(members, next)
  {
    hide *;
    var next := NextSet(members, k, plan, o);
    AcceptedIsStep(f, members, k, plan, o);
    var n, j := StepParts(f, members, k, plan, o);
    SpliceBounds(members, k, n, o, next);
    StepIsMergeable(f, members, k, plan, o);
    if plan.kind.SyntheticFull? {
      FullIsOldest(members, j);
    }
    OutputNamesOwn(members, k, n, plan, o);
    SplicedIsPlain(members, k, n, o, next, plan.kind);
    MergedClaims(members[k..], plan, o);
    PlainHasNoGap(members, k, plan, j);
    PlainIsCausal(members);
    CausalAfterIff(f, members, k, plan, o);
    StepKeepsWellFormed(f, members, k, plan, o);
    StepKeepsImageIff(f, members, k, plan, o);
  }

  // ----- runs -----

  ghost predicate PlainStep(f: Foreign, before: seq<BackupFile>, after: seq<BackupFile>) {
    exists k: nat, plan, o :: k < |before| && AcceptedAt(f, before, k, plan, o) && after == NextSet(before, k, plan, o)
  }

  ghost predicate IsPlainRun(f: Foreign, run: seq<seq<BackupFile>>) {
    run != [] && forall i :: 0 <= i < |run| - 1 ==> PlainStep(f, run[i], run[i + 1])
  }

  /**
   * The claim of the program, for the sets it is written for. From a complete set of a Full and its
   * incrementals, whatever accepted merges are made, at the newest file or anywhere below it, each deleting
   * what it absorbed, the set stays complete and restores the image it held.
   */
  lemma {:induction false} PlainRunsAreSafe(f: Foreign, run: seq<seq<BackupFile>>)
    requires IsPlainRun(f, run) && WellFormed(f, run[0]) && IsPlain(run[0]) && IsComplete(run[0])
    ensures var last := run[|run| - 1];
            WellFormed(f, last) && IsPlain(last) && IsComplete(last) && SameImage(run[0], last)
  {
    hide WellFormed, IsPlain, IsComplete, SameImage, PlainStep;
    var n := |run| - 1;
    if n == 0 {
      WellFormedIsDisjoint(f, run[0]);
      SameImageRefl(run[0]);
    } else {
      assert PlainStep(f, run[n - 1], run[n]);
      PlainRunsAreSafe(f, run[..n]);
      PlainStepIsSafe(f, run[n - 1], run[n]);
      SameImageTrans(run[0], run[n - 1], run[n]);
    }
  }

  lemma {:induction false} PlainStepIsSafe(f: Foreign, before: seq<BackupFile>, after: seq<BackupFile>)
    requires WellFormed(f, before) && IsPlain(before) && IsComplete(before) && PlainStep(f, before, after)
    ensures WellFormed(f, after) && IsPlain(after) && IsComplete(after) && SameImage(before, after)
  {
    hide WellFormed, IsPlain, IsComplete, SameImage, AcceptedAt, NextSet;
    var k: nat, plan, o :| k < |before| && AcceptedAt(f, before, k, plan, o) && after == NextSet(before, k, plan, o);
    AcceptedStepIsSafe(f, before, k, plan, o);
  }
}
