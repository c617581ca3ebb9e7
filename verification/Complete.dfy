/** When the chain is still complete after a merge, and what the condition is when it is not. */
module Complete {
  import opened Wrappers
  import opened Bytes
  import opened Index
  import opened Json
  import opened Reader
  import opened Set
  import opened Plan
  import opened Write
  import opened Merge
  import opened Preserve
  import opened Readback
  import opened Runs

  // ----- files that name only what is claimed -----

  ghost predicate ClaimedFrom(members: seq<BackupFile>, j: nat, n: u16) {
    exists i :: j <= i < |members| && n in Claims(members[i])
  }

  /** A member's entries name only numbers that it or an older member claims. */
  ghost predicate Causal(members: seq<BackupFile>) {
    forall j, e :: 0 <= j < |members| && HasEntry(members[j].disks, e) && !e.IsHole()
           ==> ClaimedFrom(members, j, e.fileNumber)
  }

  /** With disjoint claims such files name nothing newer. */
  lemma {:induction false} CausalIsNoForward(members: seq<BackupFile>)
    requires Causal(members) && DisjointClaims(members)
    ensures NoForward(members)
  {
    hide Claims, HasEntry;
    forall j, e | 0 <= j < |members| && HasEntry(members[j].disks, e) && !e.IsHole()
      ensures !ClaimedAbove(members, j, e.fileNumber)
    {
      var x :| j <= x < |members| && e.fileNumber in Claims(members[x]);
      forall i | 0 <= i < j ensures e.fileNumber !in Claims(members[i]) {
        assert Claims(members[i]) !! Claims(members[x]);
      }
    }
  }

  lemma {:induction false} ClaimMoves(members: seq<BackupFile>, k: nat, n: nat, o: BackupFile, next: seq<BackupFile>,
        i: nat, c: u16)
    requires Spliced(members, k, n, o, next) && ClaimedFrom(members, OldPosition(k, n, i), c) && i < |next|
    requires forall x, y :: k <= x < |members| && y in Claims(members[x]) ==> (y in Claims(o) <==> x < k + n)
    ensures ClaimedFrom(next, i, c)
  {
    hide Claims;
    var x :| OldPosition(k, n, i) <= x < |members| && c in Claims(members[x]);
    var y := if x < k then x else if x < k + n then k else x - n + 1;
    SplicedAt(members, k, n, o, next, y);
    assert c in Claims(next[y]);
  }

  /** The output's own entries name what it claims or what an older file claims. */
  lemma {:induction false} OutputIsCausal(members: seq<BackupFile>, k: nat, n: nat, plan: MergePlan, o: BackupFile,
        next: seq<BackupFile>, e: Element)
    requires Spliced(members, k, n, o, next) && Causal(members)
    requires Mergeable(members[k..], plan) && IsMergedFile(members[k..], plan, o) && Claims(o) == plan.absorbed
    requires forall x, y :: k <= x < |members| && y in Claims(members[x]) ==> (y in Claims(o) <==> x < k + n)
    requires HasEntry(o.disks, e) && !e.IsHole()
    ensures ClaimedFrom(next, k, e.fileNumber)
  {
    var lower := members[k..];
    hide *;
    var source, d, p := OutputEntry(lower, plan, o, e);
    MatchedEntry(source, plan.absorbed, e, Layout(plan), plan.outFileNumber);
    OutIsAbsorbed(lower, plan);
    if e.fileNumber in plan.absorbed {
      OutputClaims(members, k, n, o, next, e.fileNumber);
    } else {
      var m := RecordedBy(lower, source, d, p);
      EntryClaimMoves(members, k, n, o, next, lower, m, source);
    }
  }

  lemma {:induction false} OutputClaims(members: seq<BackupFile>, k: nat, n: nat, o: BackupFile, next: seq<BackupFile>,
        c: u16)
    requires Spliced(members, k, n, o, next) && c in Claims(o)
    ensures ClaimedFrom(next, k, c)
  {
    SplicedAt(members, k, n, o, next, k);
  }

  lemma {:induction false} EntryClaimMoves(members: seq<BackupFile>, k: nat, n: nat, o: BackupFile,
        next: seq<BackupFile>, lower: seq<BackupFile>, m: BackupFile, e: Element)
    requires Spliced(members, k, n, o, next) && Causal(members) && lower == members[k..] && m in lower
    requires HasEntry(m.disks, e) && !e.IsHole() && e.fileNumber !in Claims(o)
    requires forall x, y :: k <= x < |members| && y in Claims(members[x]) ==> (y in Claims(o) <==> x < k + n)
    ensures ClaimedFrom(next, k, e.fileNumber)
  {
    hide Claims, HasEntry;
    var j :| 0 <= j < |lower| && lower[j] == m;
    assert members[k + j] == m && ClaimedFrom(members, k + j, e.fileNumber);
    var x :| k + j <= x < |members| && e.fileNumber in Claims(members[x]);
    SplicedAt(members, k, n, o, next, x - n + 1);
    assert e.fileNumber in Claims(next[x - n + 1]);
  }

  lemma {:induction false} StaysCausal(members: seq<BackupFile>, k: nat, n: nat, plan: MergePlan, o: BackupFile,
        next: seq<BackupFile>)
    requires Spliced(members, k, n, o, next) && Causal(members)
    requires Mergeable(members[k..], plan) && IsMergedFile(members[k..], plan, o) && Claims(o) == plan.absorbed
    requires forall x, y :: k <= x < |members| && y in Claims(members[x]) ==> (y in Claims(o) <==> x < k + n)
    ensures Causal(next)
  {
    hide Mergeable, IsMergedFile, Claims, HasEntry, ClaimedFrom;
    forall i, e | 0 <= i < |next| && HasEntry(next[i].disks, e) && !e.IsHole()
      ensures ClaimedFrom(next, i, e.fileNumber)
    {
      SplicedAt(members, k, n, o, next, i);
      if i == k {
        OutputIsCausal(members, k, n, plan, o, next, e);
      } else {
        ClaimMoves(members, k, n, o, next, i, e.fileNumber);
      }
    }
  }

  // ----- what a step does to owners and to the base -----

  lemma {:induction false} OwnerSomeIff(members: seq<BackupFile>, c: u16)
    ensures Owner(members, c).Some? <==> ClaimedFrom(members, 0, c)
  {
    hide Claims;
    if Owner(members, c).Some? {
      var i :| 0 <= i < |members| && members[i] == Owner(members, c).value;
      assert c in Claims(members[i]);
    }
  }

  /** A merge neither drops a claimed number nor adds one. */
  lemma {:induction false} SameNumbersClaimed(members: seq<BackupFile>, k: nat, n: nat, o: BackupFile,
        next: seq<BackupFile>, c: u16)
    requires Spliced(members, k, n, o, next)
    requires forall x, y :: k <= x < |members| && y in Claims(members[x]) ==> (y in Claims(o) <==> x < k + n)
    requires forall y :: y in Claims(o) ==> exists i :: k <= i < k + n && y in Claims(members[i])
    ensures Owner(next, c).Some? <==> Owner(members, c).Some?
  {
    hide Claims, Owner;
    OwnerSomeIff(members, c);
    OwnerSomeIff(next, c);
    if ClaimedFrom(members, 0, c) {
      var i :| 0 <= i < |members| && c in Claims(members[i]);
      var at := if i < k then i else if i < k + n then k else i - n + 1;
      SplicedAt(members, k, n, o, next, at);
      assert c in Claims(next[at]);
    }
    if ClaimedFrom(next, 0, c) {
      var i :| 0 <= i < |next| && c in Claims(next[i]);
      SplicedAt(members, k, n, o, next, i);
      if i == k {
        var x :| k <= x < k + n && c in Claims(members[x]);
        assert c in Claims(members[x]);
      } else {
        assert c in Claims(members[OldPosition(k, n, i)]);
      }
    }
  }

  /** The base is the one position whose member is full with no full one before it. */
  lemma {:induction false} BaseIs(members: seq<BackupFile>, b: nat)
    requires b < |members| && IsFull(members[b]) && forall i :: 0 <= i < b ==> !IsFull(members[i])
    ensures BaseIndex(members) == Some(b)
  {
    hide IsFull;
    if b > 0 {
      BaseIs(members[1..], b - 1);
    }
  }

  /**
   * After a synthetic Full with no full index above it the output is the base; otherwise the base stays what it
   * was.
   */
  lemma {:induction false} NextBaseIs(members: seq<BackupFile>, k: nat, n: nat, kind: MergeKind, o: BackupFile,
        next: seq<BackupFile>)
    requires Spliced(members, k, n, o, next) && IsFull(o) == kind.SyntheticFull?
    requires kind.IncrementalMerge? ==> forall i :: k <= i < k + n ==> !IsFull(members[i])
    requires BaseIndex(members).Some?
    ensures BaseIndex(next).Some?
    ensures BaseIndex(next).value == k <==> kind.SyntheticFull? && BaseIndex(members[..k]).None?
    ensures BaseIndex(next).value != k ==> next[BaseIndex(next).value] == members[BaseIndex(members).value]
  {
    hide IsFull;
    var above := BaseIndex(members[..k]);
    if above.Some? {
      BaseIs(members, above.value);
      BaseIs(next, above.value);
    } else {
      assert forall i :: 0 <= i < k ==> members[..k][i] == members[i] == next[i];
      if kind.SyntheticFull? {
        BaseIs(next, k);
      } else {
        var b := BaseIndex(members).value;
        assert b >= k + n;
        forall i | 0 <= i < b - n + 1 ensures !IsFull(next[i]) {
          SplicedAt(members, k, n, o, next, i);
        }
        BaseIs(next, b - n + 1);
      }
    }
  }

  lemma {:induction false} RangeIsDelta(members: seq<BackupFile>, k: nat, n: nat, plan: MergePlan, o: BackupFile)
    requires k + n <= |members| && Mergeable(members[k..], plan) && plan.kind.IncrementalMerge?
    requires forall x, y :: k <= x < |members| && y in Claims(members[x]) ==> (y in plan.absorbed <==> x < k + n)
    ensures forall i :: k <= i < k + n ==> !IsFull(members[i])
  {
    hide IsPlan, DisjointClaims, TakesNewest, Claims, IsFull;
    forall i | k <= i < k + n ensures !IsFull(members[i]) {
      OwnNumberIsClaimed(members[i]);
      assert members[k..][i - k] == members[i];
      AbsorbedIsDelta(members[k..], plan, i - k);
    }
  }

  // ----- the condition -----

  ghost predicate AllOwned(members: seq<BackupFile>, low: u16, high: u16) {
    forall n: u16 :: low <= n <= high ==> Owner(members, n).Some?
  }

  /**
   * What a merge must meet for the chain to stay complete. It says something only of a synthetic Full
   * with files left above it and no newer full index: the output then becomes the base, and every number
   * from its own up to the newest must be claimed, also those the old base made irrelevant.
   */
  ghost predicate NoGap(members: seq<BackupFile>, k: nat, plan: MergePlan)
    requires k < |members|
  {
    plan.kind.SyntheticFull? && k > 0 && BaseIndex(members[..k]).None?
    ==> AllOwned(members, plan.outFileNumber, members[0].Header().fileNumber)
  }

  /** An entry of To's reserved sectors or of the chain up to it. */
  ghost predicate IsResolved(lower: seq<BackupFile>, d: nat, p: nat, e: Element)
    requires lower != []
  {
    && d < |lower[0].disks| && p < |lower[0].disks[d].partitions|
    && (e in Chain(lower, d, p) || e in ReservedOf(lower[0], d, p))
  }

  /** The output will name the number of a file that is not absorbed. */
  ghost predicate KeepsNumber(lower: seq<BackupFile>, plan: MergePlan, n: u16)
    requires lower != []
  {
    n !in plan.absorbed && exists d, p, e :: IsResolved(lower, d, p, e) && !e.IsHole() && e.fileNumber == n
  }

  /**
   * The other half: when the output becomes the base, the numbers it keeps must be claimed. The check asks this of
   * the old base's entries only, not of the deltas above it.
   */
  ghost predicate KeptAreOwned(members: seq<BackupFile>, k: nat, plan: MergePlan)
    requires k < |members|
  {
    plan.kind.SyntheticFull? && BaseIndex(members[..k]).None?
    ==> forall n: u16 :: KeepsNumber(members[k..], plan, n) ==> Owner(members, n).Some?
  }

  ghost predicate StaysComplete(members: seq<BackupFile>, k: nat, plan: MergePlan)
    requires k < |members|
  {
    NoGap(members, k, plan) && KeptAreOwned(members, k, plan)
  }

  /** A merged file's entries name its own number and those it keeps. */
  lemma {:induction false} OutputReferences(lower: seq<BackupFile>, plan: MergePlan, o: BackupFile, n: u16)
    requires Mergeable(lower, plan) && IsMergedFile(lower, plan, o) && References(o, n)
    ensures n == plan.outFileNumber || KeepsNumber(lower, plan, n)
  {
    hide Mergeable, IsMergedFile, EntryMatches, Classify, Layout, Chain, ReservedOf;
    var d, p, e :| 0 <= d < |o.disks| && 0 <= p < |o.disks[d].partitions|
                && e in BaseEntries(o.disks[d].partitions[p].index) && !e.IsHole() && e.fileNumber == n;
    assert e in EntriesOf(o.disks[d].partitions[p].index);
    var source, d', p' := OutputEntry(lower, plan, o, e);
    MatchedEntry(source, plan.absorbed, e, Layout(plan), plan.outFileNumber);
    if n != plan.outFileNumber {
      assert e == source && IsResolved(lower, d', p', e);
    }
  }

  lemma {:induction false} KeptIsWritten(actions: seq<Action>, xs: seq<Element>, ys: seq<Element>, absorbed: set<u16>,
        order: seq<Key>, outNumber: u16, e: Element)
    requires Classified(actions, xs, absorbed) && Written(actions, ys, order, outNumber)
    requires e in xs && !e.IsHole() && e.fileNumber !in absorbed
    ensures e in ys
  {
    var i :| 0 <= i < |xs| && xs[i] == e;
    assert EntryMatches(actions[i], ys[i], order, outNumber);
  }

  /** An entry a synthetic Full keeps is in its index as it was. */
  lemma {:induction false} KeptIsInOutput(lower: seq<BackupFile>, plan: MergePlan, o: BackupFile, d: nat, p: nat,
        e: Element)
    requires Mergeable(lower, plan) && IsMergedFile(lower, plan, o) && plan.kind.SyntheticFull?
    requires lower != [] && IsResolved(lower, d, p, e) && !e.IsHole() && e.fileNumber !in plan.absorbed
    ensures d < |o.disks| && p < |o.disks[d].partitions| && e in BaseEntries(o.disks[d].partitions[p].index)
  {
    hide Mergeable, IsMergedFile, Layout, Chain, ReservedOf, Classified, Written;
    var part := PlanOfPartition(lower, plan, o, d, p);
    var index := o.disks[d].partitions[p].index;
    if e in Chain(lower, d, p) {
      KeptIsWritten(part.blocks, Chain(lower, d, p), index.blocks.entries, plan.absorbed, Layout(plan),
            plan.outFileNumber, e);
    } else {
      KeptIsWritten(part.reserved, ReservedOf(lower[0], d, p), index.reserved, plan.absorbed, Layout(plan),
            plan.outFileNumber, e);
    }
  }

  /** So it does name each number it keeps. */
  lemma {:induction false} KeptIsReferenced(lower: seq<BackupFile>, plan: MergePlan, o: BackupFile, n: u16)
    requires lower != [] && Mergeable(lower, plan) && IsMergedFile(lower, plan, o) && plan.kind.SyntheticFull?
    requires KeepsNumber(lower, plan, n)
    ensures References(o, n)
  {
    hide Mergeable, IsMergedFile, IsResolved, BaseEntries;
    var d, p, e :| IsResolved(lower, d, p, e) && !e.IsHole() && e.fileNumber == n;
    KeptIsInOutput(lower, plan, o, d, p, e);
  }

  /** Where every file names claimed numbers, every resolved entry does. */
  lemma {:induction false} CausalKeptAreOwned(members: seq<BackupFile>, k: nat, plan: MergePlan)
    requires k < |members| && Causal(members)
    ensures KeptAreOwned(members, k, plan)
  {
    hide Claims, HasEntry, Chain, ReservedOf, Owner, BaseIndex;
    var lower := members[k..];
    forall n: u16 | KeepsNumber(lower, plan, n) ensures Owner(members, n).Some? {
      var d, p, e :| IsResolved(lower, d, p, e) && !e.IsHole() && e.fileNumber == n;
      var m := RecordedBy(lower, e, d, p);
      var j :| 0 <= j < |lower| && lower[j] == m;
      assert members[k + j] == m && ClaimedFrom(members, k + j, n);
      OwnerSomeIff(members, n);
    }
  }

  /** A step as a splice, with what completeness needs of it. */
  lemma {:induction false} StepSplice(f: Foreign, members: seq<BackupFile>, k: nat, plan: MergePlan, o: BackupFile)
    returns (n: nat)
    requires k < |members| && WellFormed(f, members) && AcceptedAt(f, members, k, plan, o)
    ensures Spliced(members, k, n, o, NextSet(members, k, plan, o))
    ensures forall c :: Owner(NextSet(members, k, plan, o), c).Some? <==> Owner(members, c).Some?
    ensures IsFull(o) == plan.kind.SyntheticFull? && o.Header().fileNumber == plan.outFileNumber
    ensures plan.kind.IncrementalMerge? ==> forall i :: k <= i < k + n ==> !IsFull(members[i])
    ensures Causal(members) ==> Causal(NextSet(members, k, plan, o))
    ensures Owner(members, plan.outFileNumber).Some? && plan.outFileNumber <= members[k].Header().fileNumber
  {
    hide *;
    var j;
    var next := NextSet(members, k, plan, o);
    n, j := StepParts(f, members, k, plan, o);
    StepIsMergeable(f, members, k, plan, o);
    MergedClaims(members[k..], plan, o);
    if Causal(members) {
      StaysCausal(members, k, n, plan, o, next);
    }
    SpliceBounds(members, k, n, o, next);
    NewestIsHighest(f, members, k, j);
    forall c ensures Owner(next, c).Some? <==> Owner(members, c).Some? {
      SameNumbersClaimed(members, k, n, o, next, c);
    }
    if plan.kind.IncrementalMerge? {
      RangeIsDelta(members, k, n, plan, o);
    }
    OwnNumberIsClaimed(o);
    OutputClaims(members, k, n, o, next, plan.outFileNumber);
    ClaimedFromStart(next, k, plan.outFileNumber);
    OwnerSomeIff(next, plan.outFileNumber);
  }

  lemma {:induction false} NewestIsHighest(f: Foreign, members: seq<BackupFile>, k: nat, j: nat)
    requires k <= j < |members| && WellFormed(f, members)
    ensures members[j].Header().fileNumber <= members[k].Header().fileNumber
  {
    hide OneSet, DisjointClaims, ShapesAgree;
  }

  lemma {:induction false} SpliceBounds(members: seq<BackupFile>, k: nat, n: nat, o: BackupFile, next: seq<BackupFile>)
    requires Spliced(members, k, n, o, next)
    ensures k + n <= |members| && k < |next| && next[k] == o && (k > 0 ==> next[0] == members[0])
  {
  }

  lemma {:induction false} ClaimedFromStart(members: seq<BackupFile>, k: nat, c: u16)
    requires ClaimedFrom(members, k, c)
    ensures ClaimedFrom(members, 0, c)
  {
    hide Claims;
  }

  /** What the check finds when the output is the base. */
  lemma {:induction false} OutputAsBase(members: seq<BackupFile>, k: nat, plan: MergePlan, o: BackupFile,
        next: seq<BackupFile>)
    requires k < |members| && Mergeable(members[k..], plan) && IsMergedFile(members[k..], plan, o)
    requires plan.kind.SyntheticFull? && BaseIndex(members[..k]).None? && k < |next| && next[k] == o
    requires BaseIndex(next) == Some(k) && o.Header().fileNumber == plan.outFileNumber
    requires next[0] == if k == 0 then o else members[0]
    requires forall c :: Owner(next, c).Some? <==> Owner(members, c).Some?
    requires Owner(members, plan.outFileNumber).Some?
    ensures IsComplete(next) <==> StaysComplete(members, k, plan)
  {
    hide Mergeable, IsMergedFile, Owner, References, BaseIndex, KeepsNumber;
    forall n: u16 ensures References(o, n) ==> n == plan.outFileNumber || KeepsNumber(members[k..], plan, n) {
      if References(o, n) {
        OutputReferences(members[k..], plan, o, n);
      }
    }
    forall n: u16 | KeepsNumber(members[k..], plan, n) ensures References(o, n) {
      KeptIsReferenced(members[k..], plan, o, n);
    }
  }

  lemma {:induction false} HasBase(members: seq<BackupFile>)
    requires members != [] && IsComplete(members)
    ensures BaseIndex(members).Some?
  {
    hide BaseIndex;
  }

  /** Where the output is not the base, an older or newer full file still is, and nothing it needs is lost. */
  lemma {:induction false} OldBaseStays(members: seq<BackupFile>, k: nat, plan: MergePlan, o: BackupFile,
        next: seq<BackupFile>)
    requires k < |members| && k < |next| && next[k] == o && (k > 0 ==> next[0] == members[0])
    requires o.Header().fileNumber == plan.outFileNumber <= members[k].Header().fileNumber && IsComplete(members)
    requires BaseIndex(next).Some? && next[BaseIndex(next).value] == members[BaseIndex(members).value]
    requires forall c :: Owner(next, c).Some? <==> Owner(members, c).Some?
    requires plan.kind.IncrementalMerge? || BaseIndex(members[..k]).Some?
    ensures IsComplete(next) && StaysComplete(members, k, plan)
  {
    hide Owner, References, BaseIndex, KeepsNumber;
    assert next[0].Header().fileNumber <= members[0].Header().fileNumber;
  }

  /**
   * After any accepted merge of a complete set, the completeness check accepts exactly when the merge leaves no gap
   * and a new base keeps claimed numbers only. For every incremental merge both hold.
   */
  lemma {:induction false} CompleteAfterIff(f: Foreign, members: seq<BackupFile>, k: nat, plan: MergePlan,
        o: BackupFile)
    requires k < |members| && WellFormed(f, members) && IsComplete(members)
    requires AcceptedAt(f, members, k, plan, o)
    ensures IsComplete(NextSet(members, k, plan, o)) <==> StaysComplete(members, k, plan)
  {
    hide *;
    HasBase(members);
    var next := NextSet(members, k, plan, o);
    var n := StepSplice(f, members, k, plan, o);
    SpliceBounds(members, k, n, o, next);
    NextBaseIs(members, k, n, plan.kind, o, next);
    StepIsMergeable(f, members, k, plan, o);
    if BaseIndex(next).value == k {
      OutputAsBase(members, k, plan, o, next);
    } else {
      OldBaseStays(members, k, plan, o, next);
    }
  }

  /** A set whose files name claimed numbers keeps that, and then only a gap can make it incomplete. */
  lemma {:induction false} CausalAfterIff(f: Foreign, members: seq<BackupFile>, k: nat, plan: MergePlan, o: BackupFile)
    requires k < |members| && WellFormed(f, members) && Causal(members) && IsComplete(members)
    requires AcceptedAt(f, members, k, plan, o)
    ensures Causal(NextSet(members, k, plan, o))
    ensures IsComplete(NextSet(members, k, plan, o)) <==> NoGap(members, k, plan)
  {
    hide *;
    var n := StepSplice(f, members, k, plan, o);
    CompleteAfterIff(f, members, k, plan, o);
    CausalKeptAreOwned(members, k, plan);
    StaysCompleteMeans(members, k, plan);
  }

  lemma {:induction false} StaysCompleteMeans(members: seq<BackupFile>, k: nat, plan: MergePlan)
    requires k < |members|
    ensures StaysComplete(members, k, plan) <==> NoGap(members, k, plan) && KeptAreOwned(members, k, plan)
  {
    hide NoGap, KeptAreOwned;
  }

  // ----- runs -----

  /** A step after which the chain is complete. Every incremental merge under which nothing moves is one. */
  ghost predicate CompleteStep(f: Foreign, before: seq<BackupFile>, after: seq<BackupFile>) {
    exists k: nat, plan, o ::
      && k < |before| && StepAt(f, before, k, plan, o) && StaysComplete(before, k, plan)
      && after == NextSet(before, k, plan, o)
  }

  ghost predicate IsCompleteRun(f: Foreign, run: seq<seq<BackupFile>>) {
    run != [] && forall i :: 0 <= i < |run| - 1 ==> CompleteStep(f, run[i], run[i + 1])
  }

  lemma {:induction false} CompleteStepIsSafe(f: Foreign, before: seq<BackupFile>, after: seq<BackupFile>)
    requires WellFormed(f, before) && IsComplete(before) && CompleteStep(f, before, after)
    ensures WellFormed(f, after) && IsComplete(after) && SameImage(before, after)
  {
    hide WellFormed, IsComplete, SameImage, AcceptedAt, AllStay, NextSet, StaysComplete;
    var k: nat, plan, o :| k < |before| && StepAt(f, before, k, plan, o) && StaysComplete(before, k, plan)
                        && after == NextSet(before, k, plan, o);
    CompleteAfterIff(f, before, k, plan, o);
    StepKeepsWellFormed(f, before, k, plan, o);
    StepKeepsImageIff(f, before, k, plan, o);
  }

  /** A run of such merges keeps a complete set complete, well-formed and restoring the same image. */
  lemma {:induction false} CompleteRunsAreSafe(f: Foreign, run: seq<seq<BackupFile>>)
    requires IsCompleteRun(f, run) && WellFormed(f, run[0]) && IsComplete(run[0])
    ensures WellFormed(f, run[|run| - 1]) && IsComplete(run[|run| - 1])
    ensures SameImage(run[0], run[|run| - 1])
  {
    hide WellFormed, IsComplete, SameImage, CompleteStep;
    var n := |run| - 1;
    if n == 0 {
      WellFormedIsDisjoint(f, run[0]);
      SameImageRefl(run[0]);
    } else {
      assert CompleteStep(f, run[n - 1], run[n]);
      CompleteRunsAreSafe(f, run[..n]);
      CompleteStepIsSafe(f, run[n - 1], run[n]);
      SameImageTrans(run[0], run[n - 1], run[n]);
    }
  }
}
