/** Merging again and again: what every merge keeps of a set, and when the result is complete. */
module Runs {
  import opened Bytes
  import opened Index
  import opened Json
  import opened Reader
  import opened Set
  import opened Plan
  import opened Write
  import opened Restore
  import opened Merge
  import opened Preserve
  import opened Readback

  // ----- well-formed sets -----

  ghost predicate StrictlyNewestFirst(members: seq<BackupFile>) {
    forall i, j :: 0 <= i < j < |members| ==> members[i].Header().fileNumber > members[j].Header().fileNumber
  }

  /** A file newer than the one at `j` claims the number. */
  ghost predicate ClaimedAbove(members: seq<BackupFile>, j: nat, n: u16) {
    exists i :: 0 <= i < j && i < |members| && n in Claims(members[i])
  }

  /** No entry names a number that a newer file claims. It may name one that nobody claims. */
  ghost predicate NoForward(members: seq<BackupFile>) {
    forall j, e :: 0 <= j < |members| && HasEntry(members[j].disks, e) && !e.IsHole()
      ==> !ClaimedAbove(members, j, e.fileNumber)
  }

  ghost predicate OneSet(f: Foreign, members: seq<BackupFile>) {
    forall m :: m in members ==> IsParsed(f, m) && m.Header().imageId == members[0].Header().imageId
  }

  /** A set the program works on; it checks or establishes every part of this. */
  ghost predicate WellFormed(f: Foreign, members: seq<BackupFile>) {
    && members != []
    && OneSet(f, members)
    && StrictlyNewestFirst(members)
    && DisjointClaims(members)
    && ShapesAgree(members)
  }

  /** Discovery as of the file at `k` leaves out the newer files, by their increments, and no other. */
  ghost predicate SeenFrom(members: seq<BackupFile>, k: nat) {
    && k < |members|
    && (forall j :: 0 <= j < k ==> members[j].Header().incrementNumber > members[k].Header().incrementNumber)
    && (forall j :: k <= j < |members| ==> members[j].Header().incrementNumber <= members[k].Header().incrementNumber)
  }

  /**
   * An accepted merge of the set whose newest file is `members[k]`, with the newer files left alone, whose plan
   * takes the newest files from there down.
   */
  ghost predicate AcceptedAt(f: Foreign, members: seq<BackupFile>, k: nat, plan: MergePlan, o: BackupFile) {
    && SeenFrom(members, k)
    && IsPlan(members[k..], plan) && TakesNewest(members[k..], plan.absorbed)
    && IsMergedFile(members[k..], plan, o) && IsParsed(f, o)
  }

  /** In every partition, every moved entry that the merge leaves in use reads the same from the output. */
  ghost predicate AllStay(members: seq<BackupFile>, k: nat, plan: MergePlan, o: BackupFile)
    requires k < |members|
  {
    forall d, p :: 0 <= d < |members[k].disks| && 0 <= p < |members[k].disks[d].partitions|
      ==> EntriesStay(members[..k], members[k..], plan, o, d, p)
  }

  /** The same of the entries the files above `k` decide. */
  ghost predicate NewestStays(members: seq<BackupFile>, k: nat, plan: MergePlan, o: BackupFile)
    requires k < |members|
  {
    forall d, p :: 0 <= d < |members[k].disks| && 0 <= p < |members[k].disks[d].partitions|
      ==> NewerStay(members[..k], members[k..], plan, o, d, p)
  }

  /** An accepted merge under which what stays in use does not change its meaning. */
  ghost predicate StepAt(f: Foreign, members: seq<BackupFile>, k: nat, plan: MergePlan, o: BackupFile) {
    AcceptedAt(f, members, k, plan, o) && AllStay(members, k, plan, o)
  }

  function NextSet(members: seq<BackupFile>, k: nat, plan: MergePlan, o: BackupFile): seq<BackupFile>
    requires k <= |members|
  {
    After(members[..k], members[k..], plan, o)
  }

  // ----- the parts of a step -----

  lemma {:induction false} WellFormedIsDisjoint(f: Foreign, members: seq<BackupFile>)
    requires WellFormed(f, members)
    ensures members != [] && DisjointClaims(members)
  {
    hide OneSet, StrictlyNewestFirst, DisjointClaims, ShapesAgree;
  }

  lemma {:induction false} StepIsMergeable(f: Foreign, members: seq<BackupFile>, k: nat, plan: MergePlan, o: BackupFile)
    requires WellFormed(f, members) && AcceptedAt(f, members, k, plan, o)
    ensures Mergeable(members[k..], plan) && IsMergedFile(members[k..], plan, o)
    ensures TakesNewest(members[k..], plan.absorbed)
    ensures members[..k] + members[k..] == members
  {
    hide IsPlan, IsMergedFile, OneSet, StrictlyNewestFirst, ShapesAgree, DisjointClaims, TakesNewest;
    SuffixDisjoint(members, k);
  }

  lemma {:induction false} SuffixDisjoint(members: seq<BackupFile>, t: nat)
    requires DisjointClaims(members) && t <= |members|
    ensures DisjointClaims(members[t..])
  {
    hide Claims;
    forall i, j | 0 <= i < j < |members| - t ensures Claims(members[t..][i]) !! Claims(members[t..][j]) {
      assert members[t..][i] == members[t + i] && members[t..][j] == members[t + j];
    }
  }

  /** Where increments follow file numbers, every plan of a part of the set takes the newest files. */
  lemma {:induction false} FollowingIsAccepted(f: Foreign, members: seq<BackupFile>, k: nat, plan: MergePlan,
        o: BackupFile)
    requires k < |members| && WellFormed(f, members) && IncrementsFollow(members)
    requires forall j :: 0 <= j < k ==> members[j].Header().incrementNumber > members[k].Header().incrementNumber
    requires IsPlan(members[k..], plan) && IsMergedFile(members[k..], plan, o) && IsParsed(f, o)
    ensures AcceptedAt(f, members, k, plan, o)
  {
    hide IsPlan, IsMergedFile, IsParsed, OneSet, StrictlyNewestFirst, ShapesAgree, DisjointClaims, TakesNewest;
    SuffixDisjoint(members, k);
    var lower := members[k..];
    forall i, j | 0 <= i < j < |lower| ensures lower[i].Header().incrementNumber >= lower[j].Header().incrementNumber {
      assert lower[i] == members[k + i] && lower[j] == members[k + j];
    }
    FollowingTakesNewest(lower, plan);
  }

  /** The merged range and what its numbers became, in terms of the members from To down. */
  ghost predicate RangeParts(lower: seq<BackupFile>, plan: MergePlan, o: BackupFile, n: nat) {
    && 0 < n <= |lower|
    && Skipped(lower, plan) == [] && Older(lower, plan) == lower[n..]
    && Claims(o) == plan.absorbed
    && (forall i, c :: 0 <= i < |lower| && c in Claims(lower[i]) ==> (c in plan.absorbed <==> i < n))
    && (forall c :: c in plan.absorbed ==> exists i :: 0 <= i < n && c in Claims(lower[i]))
  }

  lemma {:induction false} RangePartsHold(lower: seq<BackupFile>, plan: MergePlan, o: BackupFile) returns (n: nat)
    requires Mergeable(lower, plan) && IsMergedFile(lower, plan, o) && TakesNewest(lower, plan.absorbed)
    ensures RangeParts(lower, plan, o, n)
  {
    hide IsMergedFile, Mergeable, Claims, IsFull, RangeOf, Survivors, Skipped, Older;
    RangeIsPrefix(lower, plan);
    NothingSkipped(lower, plan);
    MergedClaims(lower, plan, o);
    n := RangeOf(lower, plan);
    forall c | c in plan.absorbed ensures exists i :: 0 <= i < n && c in Claims(lower[i]) {
      AbsorbedHasOwner(lower, plan, c);
      var j :| 0 <= j < |lower| && lower[j] == Owner(lower, c).value;
      assert c in Claims(lower[j]);
    }
  }

  /** Where each file of the next set comes from, with `n` the length of the merged range. */
  lemma {:induction false} NextParts(f: Foreign, members: seq<BackupFile>, k: nat, plan: MergePlan, o: BackupFile)
    returns (n: nat)
    requires WellFormed(f, members) && AcceptedAt(f, members, k, plan, o)
    ensures 0 < n <= |members| - k
    ensures NextSet(members, k, plan, o) == members[..k] + [o] + members[k + n..]
    ensures Skipped(members[k..], plan) == [] && Older(members[k..], plan) == members[k + n..]
    ensures Claims(o) == plan.absorbed
    ensures forall i, c :: k <= i < |members| && c in Claims(members[i]) ==> (c in plan.absorbed <==> i < k + n)
    ensures forall c :: c in plan.absorbed ==> exists i :: k <= i < k + n && c in Claims(members[i])
  {
    StepIsMergeable(f, members, k, plan, o);
    var lower := members[k..];
    hide *;
    n := RangePartsHold(lower, plan, o);
    PartsShift(members, k, lower, plan, o, n);
  }

  lemma {:induction false} PartsShift(members: seq<BackupFile>, k: nat, lower: seq<BackupFile>, plan: MergePlan,
        o: BackupFile, n: nat)
    requires k <= |members| && lower == members[k..] && RangeParts(lower, plan, o, n)
    ensures 0 < n <= |members| - k
    ensures NextSet(members, k, plan, o) == members[..k] + [o] + members[k + n..]
    ensures Skipped(lower, plan) == [] && Older(lower, plan) == members[k + n..]
    ensures Claims(o) == plan.absorbed
    ensures forall i, c :: k <= i < |members| && c in Claims(members[i]) ==> (c in plan.absorbed <==> i < k + n)
    ensures forall c :: c in plan.absorbed ==> exists i :: k <= i < k + n && c in Claims(members[i])
  {
    hide Claims, Skipped, Older;
    assert lower[n..] == members[k + n..];
    forall i, c | k <= i < |members| && c in Claims(members[i]) ensures c in plan.absorbed <==> i < k + n {
      assert lower[i - k] == members[i];
    }
    forall c | c in plan.absorbed ensures exists i :: k <= i < k + n && c in Claims(members[i]) {
      var i :| 0 <= i < n && c in Claims(lower[i]);
      assert members[k + i] == lower[i];
    }
  }

  /** The From file of a plan is a member whose numbers the output takes. */
  lemma {:induction false} FromOfPlan(lower: seq<BackupFile>, plan: MergePlan) returns (i: nat)
    requires Mergeable(lower, plan)
    ensures i < |lower| && IsFull(lower[i]) == plan.kind.SyntheticFull?
    ensures lower[i].Header().fileNumber == plan.outFileNumber
    ensures lower[i].Header().incrementNumber == plan.outIncrementNumber
  {
    hide PartitionsPlanned, RulesHold, Flattens, IsClosure, IsFull;
    var from := MemberWithNumber(lower, plan.from).value;
    i :| 0 <= i < |lower| && lower[i] == from;
  }

  /** The From file is in the range. */
  lemma {:induction false} FromInRange(f: Foreign, members: seq<BackupFile>, k: nat, plan: MergePlan, o: BackupFile,
        n: nat)
    returns (j: nat)
    requires k + n <= |members| && WellFormed(f, members) && AcceptedAt(f, members, k, plan, o)
    requires forall i, c :: k <= i < |members| && c in Claims(members[i]) ==> (c in plan.absorbed <==> i < k + n)
    ensures k <= j < k + n && IsFull(members[j]) == plan.kind.SyntheticFull?
    ensures members[j].Header().fileNumber == plan.outFileNumber
    ensures members[j].Header().incrementNumber == plan.outIncrementNumber
  {
    hide *;
    StepIsMergeable(f, members, k, plan, o);
    var lower := members[k..];
    OutIsAbsorbed(lower, plan);
    var i := FromOfPlan(lower, plan);
    j := k + i;
    assert members[j] == lower[i];
    OwnNumberIsClaimed(members[j]);
    assert j < k + n;
  }

  // ----- what a step keeps -----

  /** `next` is `members` with `n` files from position `k` on replaced by `o`. */
  ghost predicate Spliced(members: seq<BackupFile>, k: nat, n: nat, o: BackupFile, next: seq<BackupFile>) {
    0 < n && k + n <= |members| && next == members[..k] + [o] + members[k + n..]
  }

  /** The position in the old set of a file that stays. */
  function OldPosition(k: nat, n: nat, i: nat): nat
    requires n > 0
  {
    if i < k then i else i + n - 1
  }

  lemma {:induction false} SplicedAt(members: seq<BackupFile>, k: nat, n: nat, o: BackupFile, next: seq<BackupFile>,
        i: nat)
    requires Spliced(members, k, n, o, next) && i < |next|
    ensures |next| == |members| - n + 1
    ensures i == k ==> next[i] == o
    ensures i != k ==> OldPosition(k, n, i) < |members| && next[i] == members[OldPosition(k, n, i)]
  {
  }

  lemma {:induction false} OrderKept(members: seq<BackupFile>, k: nat, n: nat, o: BackupFile, next: seq<BackupFile>,
        j: nat)
    requires Spliced(members, k, n, o, next) && k <= j < k + n
    requires o.Header().fileNumber == members[j].Header().fileNumber
    requires o.Header().incrementNumber == members[j].Header().incrementNumber
    ensures StrictlyNewestFirst(members) ==> StrictlyNewestFirst(next)
    ensures IncrementsFollow(members) ==> IncrementsFollow(next)
  {
    forall a, b | 0 <= a < b < |next|
      ensures StrictlyNewestFirst(members) ==> next[a].Header().fileNumber > next[b].Header().fileNumber
      ensures IncrementsFollow(members) ==> next[a].Header().incrementNumber >= next[b].Header().incrementNumber
    {
      SplicedAt(members, k, n, o, next, a);
      SplicedAt(members, k, n, o, next, b);
      var x := if a == k then j else OldPosition(k, n, a);
      var y := if b == k then j else OldPosition(k, n, b);
      assert x < y && next[a].Header().fileNumber == members[x].Header().fileNumber;
      assert next[b].Header().fileNumber == members[y].Header().fileNumber;
    }
  }

  lemma {:induction false} ClaimsStayDisjoint(members: seq<BackupFile>, k: nat, n: nat, o: BackupFile,
        next: seq<BackupFile>)
    requires Spliced(members, k, n, o, next) && DisjointClaims(members)
    requires forall i, c :: k <= i < |members| && c in Claims(members[i]) ==> (c in Claims(o) <==> i < k + n)
    requires forall c :: c in Claims(o) ==> exists i :: k <= i < k + n && c in Claims(members[i])
    ensures DisjointClaims(next)
  {
    hide Claims;
    forall i | 0 <= i < |members| && !(k <= i < k + n) ensures Claims(members[i]) !! Claims(o) {
      forall c | c in Claims(o) ensures c !in Claims(members[i]) {
        var x :| k <= x < k + n && c in Claims(members[x]);
        assert if i < x then Claims(members[i]) !! Claims(members[x]) else Claims(members[x]) !! Claims(members[i]);
      }
    }
    forall a, b | 0 <= a < b < |next| ensures Claims(next[a]) !! Claims(next[b]) {
      SplicedAt(members, k, n, o, next, a);
      SplicedAt(members, k, n, o, next, b);
    }
  }

  lemma {:induction false} ShapesStay(members: seq<BackupFile>, k: nat, n: nat, o: BackupFile, next: seq<BackupFile>)
    requires Spliced(members, k, n, o, next) && ShapesAgree(members)
    requires o.Shape() == members[k].Shape() && !members[k].Header().splitFile
    ensures ShapesAgree(next) && next[0].Shape() == members[0].Shape()
  {
    hide ShapeOf;
    assert members[k] in members;
    forall m | m in next && !m.Header().splitFile ensures m.Shape() == members[0].Shape() {
      var i :| 0 <= i < |next| && next[i] == m;
      SplicedAt(members, k, n, o, next, i);
    }
    SplicedAt(members, k, n, o, next, 0);
  }

  /** A resolved or reserved entry was recorded by some member. */
  lemma {:induction false} RecordedBy(lower: seq<BackupFile>, source: Element, d: nat, p: nat) returns (m: BackupFile)
    requires lower != [] && !source.IsHole()
    requires source == HOLE || source in Chain(lower, d, p) || source in ReservedOf(lower[0], d, p)
    ensures m in lower && HasEntry(m.disks, source)
  {
    hide Chain, HasEntry;
    if source in ReservedOf(lower[0], d, p) {
      EntryOfMember(lower[0], d, p, source);
      m := lower[0];
    } else {
      ChainEntries(lower, d, p, source);
      m :| m in lower && HasEntry(m.disks, source);
    }
  }

  lemma {:induction false} ClaimAboveWas(members: seq<BackupFile>, k: nat, n: nat, o: BackupFile,
        next: seq<BackupFile>, j: nat, c: u16)
    requires Spliced(members, k, n, o, next) && j < |next| && j != k && ClaimedAbove(next, j, c)
    requires forall y :: y in Claims(o) ==> exists i :: k <= i < k + n && y in Claims(members[i])
    ensures ClaimedAbove(members, OldPosition(k, n, j), c)
  {
    hide Claims;
    var i :| 0 <= i < j && i < |next| && c in Claims(next[i]);
    SplicedAt(members, k, n, o, next, i);
    if i == k {
      var x :| k <= x < k + n && c in Claims(members[x]);
    }
  }

  /** The output names no number of a newer file: what it keeps was recorded below To, and the rest it claims itself. */
  lemma {:induction false} OutputNamesNoNewer(members: seq<BackupFile>, k: nat, n: nat, plan: MergePlan, o: BackupFile,
        next: seq<BackupFile>, e: Element)
    requires Spliced(members, k, n, o, next) && NoForward(members) && DisjointClaims(next)
    requires Mergeable(members[k..], plan) && IsMergedFile(members[k..], plan, o) && Claims(o) == plan.absorbed
    requires HasEntry(o.disks, e) && !e.IsHole()
    ensures !ClaimedAbove(next, k, e.fileNumber)
  {
    var lower := members[k..];
    hide *;
    var source, d, p := OutputEntry(lower, plan, o, e);
    MatchedEntry(source, plan.absorbed, e, Layout(plan), plan.outFileNumber);
    OutIsAbsorbed(lower, plan);
    if e.fileNumber in plan.absorbed {
      OwnIsNotAbove(members, k, n, o, next, e.fileNumber);
    } else {
      var m := RecordedBy(lower, source, d, p);
      KeptIsNotAbove(members, k, n, o, next, lower, m, source);
    }
  }

  lemma {:induction false} OwnIsNotAbove(members: seq<BackupFile>, k: nat, n: nat, o: BackupFile,
        next: seq<BackupFile>, c: u16)
    requires Spliced(members, k, n, o, next) && DisjointClaims(next) && c in Claims(o)
    ensures !ClaimedAbove(next, k, c)
  {
    hide Claims;
    SplicedAt(members, k, n, o, next, k);
    forall i | 0 <= i < k ensures c !in Claims(next[i]) {
      assert Claims(next[i]) !! Claims(next[k]);
    }
  }

  lemma {:induction false} KeptIsNotAbove(members: seq<BackupFile>, k: nat, n: nat, o: BackupFile,
        next: seq<BackupFile>, lower: seq<BackupFile>, m: BackupFile, e: Element)
    requires Spliced(members, k, n, o, next) && NoForward(members) && lower == members[k..] && m in lower
    requires HasEntry(m.disks, e) && !e.IsHole()
    ensures !ClaimedAbove(next, k, e.fileNumber)
  {
    hide Claims, HasEntry;
    var j :| 0 <= j < |lower| && lower[j] == m;
    assert members[k + j] == m && !ClaimedAbove(members, k + j, e.fileNumber);
    forall i | 0 <= i < k ensures e.fileNumber !in Claims(next[i]) {
      SplicedAt(members, k, n, o, next, i);
    }
  }

  lemma {:induction false} StaysNoForward(members: seq<BackupFile>, k: nat, n: nat, plan: MergePlan, o: BackupFile,
        next: seq<BackupFile>)
    requires Spliced(members, k, n, o, next) && NoForward(members) && DisjointClaims(next)
    requires Mergeable(members[k..], plan) && IsMergedFile(members[k..], plan, o) && Claims(o) == plan.absorbed
    requires forall y :: y in Claims(o) ==> exists i :: k <= i < k + n && y in Claims(members[i])
    ensures NoForward(next)
  {
    hide Mergeable, IsMergedFile, Claims, HasEntry, ClaimedAbove, DisjointClaims;
    forall j, e | 0 <= j < |next| && HasEntry(next[j].disks, e) && !e.IsHole()
      ensures !ClaimedAbove(next, j, e.fileNumber)
    {
      SplicedAt(members, k, n, o, next, j);
      if j == k {
        OutputNamesNoNewer(members, k, n, plan, o, next, e);
      } else if ClaimedAbove(next, j, e.fileNumber) {
        ClaimAboveWas(members, k, n, o, next, j, e.fileNumber);
      }
    }
  }

  lemma {:induction false} StaysOneSet(f: Foreign, members: seq<BackupFile>, k: nat, n: nat, o: BackupFile,
        next: seq<BackupFile>)
    requires Spliced(members, k, n, o, next) && OneSet(f, members) && IsParsed(f, o)
    requires o.Header().imageId == members[k].Header().imageId
    ensures OneSet(f, next)
  {
    hide IsParsed;
    assert members[k] in members;
    forall m | m in next ensures IsParsed(f, m) && m.Header().imageId == members[0].Header().imageId {
      var i :| 0 <= i < |next| && next[i] == m;
      SplicedAt(members, k, n, o, next, i);
    }
    SplicedAt(members, k, n, o, next, 0);
    assert next[0] in next;
  }

  /** What a step's output is to the old set, gathered for the lemmas above. */
  lemma {:induction false} StepParts(f: Foreign, members: seq<BackupFile>, k: nat, plan: MergePlan, o: BackupFile)
    returns (n: nat, j: nat)
    requires WellFormed(f, members) && AcceptedAt(f, members, k, plan, o)
    ensures Spliced(members, k, n, o, NextSet(members, k, plan, o))
    ensures Claims(o) == plan.absorbed
    ensures forall x, y :: k <= x < |members| && y in Claims(members[x]) ==> (y in Claims(o) <==> x < k + n)
    ensures forall c :: c in Claims(o) ==> exists i :: k <= i < k + n && c in Claims(members[i])
    ensures k <= j < k + n && IsFull(members[j]) == IsFull(o) == plan.kind.SyntheticFull?
    ensures o.Header().fileNumber == members[j].Header().fileNumber
    ensures o.Header().incrementNumber == members[j].Header().incrementNumber
  {
    StepIsMergeable(f, members, k, plan, o);
    var lower := members[k..];
    n := NextParts(f, members, k, plan, o);
    j := FromInRange(f, members, k, plan, o, n);
    hide *;
    MergedClaims(lower, plan, o);
    SplicedHolds(members, k, n, o, NextSet(members, k, plan, o));
  }

  lemma {:induction false} SplicedHolds(members: seq<BackupFile>, k: nat, n: nat, o: BackupFile, next: seq<BackupFile>)
    requires 0 < n <= |members| - k && next == members[..k] + [o] + members[k + n..]
    ensures Spliced(members, k, n, o, next)
  {
  }

  lemma {:induction false} OutputShape(f: Foreign, lower: seq<BackupFile>, plan: MergePlan, o: BackupFile)
    requires Mergeable(lower, plan) && IsMergedFile(lower, plan, o)
    ensures o.Shape() == lower[0].Shape() && !lower[0].Header().splitFile
    ensures o.Header().imageId == lower[0].Header().imageId
  {
    ToIsWhole(f, lower, plan);
  }

  /** A merge keeps a set well-formed: claims stay disjoint, the order and the shape hold. */
  lemma {:induction false} StepKeepsWellFormed(f: Foreign, members: seq<BackupFile>, k: nat, plan: MergePlan,
        o: BackupFile)
    requires WellFormed(f, members) && AcceptedAt(f, members, k, plan, o)
    ensures WellFormed(f, NextSet(members, k, plan, o))
    ensures ShapeOf(NextSet(members, k, plan, o)[0].disks) == ShapeOf(members[0].disks)
  {
    var lower, next := members[k..], NextSet(members, k, plan, o);
    assert lower[0] == members[k] && IsParsed(f, o);
    var n, j := StepParts(f, members, k, plan, o);
    StepIsMergeable(f, members, k, plan, o);
    assert OneSet(f, members) && StrictlyNewestFirst(members) && DisjointClaims(members) && ShapesAgree(members);
    hide *;
    OutputShape(f, lower, plan, o);
    OrderKept(members, k, n, o, next, j);
    ClaimsStayDisjoint(members, k, n, o, next);
    ShapesStay(members, k, n, o, next);
    StaysOneSet(f, members, k, n, o, next);
    GatherWellFormed(f, members, k, n, o, next);
  }

  lemma {:induction false} GatherWellFormed(f: Foreign, members: seq<BackupFile>, k: nat, n: nat, o: BackupFile,
        next: seq<BackupFile>)
    requires Spliced(members, k, n, o, next)
    requires OneSet(f, next) && StrictlyNewestFirst(next) && DisjointClaims(next) && ShapesAgree(next)
    ensures WellFormed(f, next)
  {
    hide OneSet, StrictlyNewestFirst, DisjointClaims, ShapesAgree;
  }

  /** It also keeps what no merge needs and many sets have: increments that follow, and no reference to a newer file. */
  lemma {:induction false} StepKeepsOrder(f: Foreign, members: seq<BackupFile>, k: nat, plan: MergePlan, o: BackupFile)
    requires k < |members| && WellFormed(f, members) && AcceptedAt(f, members, k, plan, o)
    ensures IncrementsFollow(members) ==> IncrementsFollow(NextSet(members, k, plan, o))
    ensures NoForward(members) ==> NoForward(NextSet(members, k, plan, o))
  {
    hide *;
    var next := NextSet(members, k, plan, o);
    var n, j := StepParts(f, members, k, plan, o);
    StepIsMergeable(f, members, k, plan, o);
    OrderKept(members, k, n, o, next, j);
    StepKeepsWellFormed(f, members, k, plan, o);
    WellFormedIsDisjoint(f, next);
    if NoForward(members) {
      StaysNoForward(members, k, n, plan, o, next);
    }
  }

  // ----- the image -----

  /** Both sets restore, as of their newest file, every partition to the same reserved sectors and blocks. */
  ghost predicate SameImage(before: seq<BackupFile>, after: seq<BackupFile>) {
    && before != [] && after != []
    && ShapeOf(before[0].disks) == ShapeOf(after[0].disks)
    && forall d, p :: 0 <= d < |before[0].disks| && 0 <= p < |before[0].disks[d].partitions|
         ==> RestoredPartition(before, d, p) == RestoredPartition(after, d, p)
  }

  lemma {:induction false} BelowNamesNone(members: seq<BackupFile>, k: nat, n: nat, absorbed: set<u16>)
    requires k + n <= |members| && NoForward(members)
    requires forall c :: c in absorbed ==> exists i :: k <= i < k + n && c in Claims(members[i])
    ensures NamesNone(members[k + n..], absorbed)
  {
    hide Claims, HasEntry;
    var older := members[k + n..];
    forall m, e | m in older && HasEntry(m.disks, e) && !e.IsHole() ensures e.fileNumber !in absorbed {
      var j :| 0 <= j < |older| && older[j] == m;
      assert members[k + n + j] == m && !ClaimedAbove(members, k + n + j, e.fileNumber);
      forall c | c in absorbed ensures c != e.fileNumber {
        var i :| k <= i < k + n && c in Claims(members[i]);
        assert ClaimedAbove(members, k + n + j, c);
      }
    }
  }

  /** What `NewestMergePreservesImageIff` asks for, as of the file at position `t`. */
  lemma {:induction false} PointParts(f: Foreign, members: seq<BackupFile>, k: nat, plan: MergePlan, o: BackupFile,
        t: nat)
    returns (n: nat)
    requires t <= k < |members|
    requires WellFormed(f, members) && AcceptedAt(f, members, k, plan, o)
    ensures 0 < n <= |members| - k
    ensures NextSet(members, k, plan, o) == members[..k] + [o] + members[k + n..]
    ensures Skipped(members[k..], plan) == [] && Older(members[k..], plan) == members[k + n..]
    ensures Mergeable(members[k..], plan) && IsMergedFile(members[k..], plan, o)
    ensures TakesNewest(members[k..], plan.absorbed)
    ensures DisjointClaims(members[t..k] + members[k..])
  {
    hide *;
    n := NextParts(f, members, k, plan, o);
    StepIsMergeable(f, members, k, plan, o);
    WellFormedIsDisjoint(f, members);
    SuffixDisjoint(members, t);
    assert members[t..] == members[t..k] + members[k..];
  }

  /** Without references to newer files nothing below To can be moved, and only the newer files are in question. */
  lemma {:induction false} BackwardNamesNone(f: Foreign, members: seq<BackupFile>, k: nat, plan: MergePlan,
        o: BackupFile)
    requires k < |members| && WellFormed(f, members) && NoForward(members) && AcceptedAt(f, members, k, plan, o)
    ensures OlderNameNone(members[k..], plan)
  {
    hide *;
    var n := NextParts(f, members, k, plan, o);
    BelowNamesNone(members, k, n, plan.absorbed);
    GatherOlder(members[k..], plan);
  }

  lemma {:induction false} GatherOlder(lower: seq<BackupFile>, plan: MergePlan)
    requires NamesNone(Older(lower, plan), plan.absorbed)
    ensures OlderNameNone(lower, plan)
  {
    hide NamesNone, Older;
  }

  lemma {:induction false} AfterSuffix(members: seq<BackupFile>, k: nat, lower: seq<BackupFile>, plan: MergePlan,
        o: BackupFile, n: nat, t: nat)
    requires t <= k < |members| && lower == members[k..] && 0 < n <= |members| - k
    requires NextSet(members, k, plan, o) == members[..k] + [o] + members[k + n..]
    requires Skipped(lower, plan) == [] && Older(lower, plan) == members[k + n..]
    ensures t < |NextSet(members, k, plan, o)|
    ensures NextSet(members, k, plan, o)[t..] == After(members[t..k], lower, plan, o)
  {
    hide Skipped, Older;
  }

  /**
   * When a restore point from To upwards survives an accepted merge. Resolving a partition as of the file at
   * position `t`, at or above To, gives the same contents before and after if and only if every moved entry that
   * stays in use as of that file reads the same from the output.
   */
  lemma {:induction false} NewerPointSurvivesIff(f: Foreign, members: seq<BackupFile>, k: nat, plan: MergePlan,
        o: BackupFile, t: nat, d: nat, p: nat)
    requires t <= k < |members|
    requires d < |members[k].disks| && p < |members[k].disks[d].partitions|
    requires WellFormed(f, members) && AcceptedAt(f, members, k, plan, o)
    ensures t < |NextSet(members, k, plan, o)|
    ensures RestoredPartition(members[t..], d, p) == RestoredPartition(NextSet(members, k, plan, o)[t..], d, p)
       <==> EntriesStay(members[t..k], members[k..], plan, o, d, p)
  {
    hide *;
    var n := PointParts(f, members, k, plan, o, t);
    var lower := members[k..];
    assert members[t..] == members[t..k] + lower;
    NewestMergePreservesImageIff(members[t..k], lower, plan, o, d, p);
    AfterSuffix(members, k, lower, plan, o, n, t);
  }

  /** In particular every one survives when no file names a number of a newer one, and none above To an absorbed one. */
  lemma {:induction false} EveryNewerPointSurvives(f: Foreign, members: seq<BackupFile>, k: nat, plan: MergePlan,
        o: BackupFile, t: nat, d: nat, p: nat)
    requires t <= k < |members|
    requires d < |members[k].disks| && p < |members[k].disks[d].partitions|
    requires WellFormed(f, members) && AcceptedAt(f, members, k, plan, o)
    requires NoForward(members) && NamesNone(members[..k], plan.absorbed)
    ensures t < |NextSet(members, k, plan, o)|
    ensures RestoredPartition(members[t..], d, p) == RestoredPartition(NextSet(members, k, plan, o)[t..], d, p)
  {
    hide *;
    NamesNoneFrom(members, k, t, plan.absorbed);
    NamingNoneStays(members[t..k], members[k..], plan, o, d, p);
    BackwardNamesNone(f, members, k, plan, o);
    OnlyNewerMatter(members[t..k], members[k..], plan, o, d, p);
    NewerPointSurvivesIff(f, members, k, plan, o, t, d, p);
  }

  lemma {:induction false} NamesNoneFrom(members: seq<BackupFile>, k: nat, t: nat, absorbed: set<u16>)
    requires t <= k <= |members| && NamesNone(members[..k], absorbed)
    ensures NamesNone(members[t..k], absorbed)
  {
    hide HasEntry;
    forall m | m in members[t..k] ensures m in members[..k] {
      var i :| t <= i < k && members[i] == m;
      assert members[..k][i] == m;
    }
  }

  /** An accepted merge keeps the image as of the newest file exactly when all that stays in use keeps its meaning. */
  lemma {:induction false} StepKeepsImageIff(f: Foreign, members: seq<BackupFile>, k: nat, plan: MergePlan,
        o: BackupFile)
    requires k < |members| && WellFormed(f, members) && AcceptedAt(f, members, k, plan, o)
    ensures SameImage(members, NextSet(members, k, plan, o)) <==> AllStay(members, k, plan, o)
  {
    hide WellFormed, AcceptedAt, NextSet, RestoredPartition, ShapeOf, EntriesStay;
    var next := NextSet(members, k, plan, o);
    StepKeepsWellFormed(f, members, k, plan, o);
    NewestHasToShape(f, members, k, plan, o);
    WellFormedIsDisjoint(f, next);
    forall d: nat, p: nat | d < |members[0].disks| && p < |members[0].disks[d].partitions|
      ensures RestoredPartition(members, d, p) == RestoredPartition(next, d, p)
         <==> EntriesStay(members[..k], members[k..], plan, o, d, p)
    {
      NewerPointSurvivesIff(f, members, k, plan, o, 0, d, p);
      assert members[0..] == members && next[0..] == next && members[0..k] == members[..k];
    }
  }

  /** Without references to newer files, it does exactly when the newer files keep their meaning. */
  lemma {:induction false} BackwardStepKeepsImageIff(f: Foreign, members: seq<BackupFile>, k: nat, plan: MergePlan,
        o: BackupFile)
    requires k < |members| && WellFormed(f, members) && NoForward(members) && AcceptedAt(f, members, k, plan, o)
    ensures AllStay(members, k, plan, o) <==> NewestStays(members, k, plan, o)
    ensures SameImage(members, NextSet(members, k, plan, o)) <==> NewestStays(members, k, plan, o)
  {
    hide *;
    StepKeepsImageIff(f, members, k, plan, o);
    BackwardNamesNone(f, members, k, plan, o);
    StayTogether(members, k, plan, o);
  }

  lemma {:induction false} StayTogether(members: seq<BackupFile>, k: nat, plan: MergePlan, o: BackupFile)
    requires k < |members| && OlderNameNone(members[k..], plan)
    ensures AllStay(members, k, plan, o) <==> NewestStays(members, k, plan, o)
  {
    hide OlderNameNone, EntriesStay, NewerStay;
    forall d: nat, p: nat
      ensures EntriesStay(members[..k], members[k..], plan, o, d, p)
         <==> NewerStay(members[..k], members[k..], plan, o, d, p)
    {
      OnlyNewerMatter(members[..k], members[k..], plan, o, d, p);
    }
  }

  lemma {:induction false} NewestHasToShape(f: Foreign, members: seq<BackupFile>, k: nat, plan: MergePlan,
        o: BackupFile)
    requires WellFormed(f, members) && AcceptedAt(f, members, k, plan, o)
    ensures |members[0].disks| == |members[k].disks|
    ensures forall d :: 0 <= d < |members[0].disks| ==>
              |members[0].disks[d].partitions| == |members[k].disks[d].partitions|
  {
    StepIsMergeable(f, members, k, plan, o);
    assert ShapesAgree(members) && members[k] in members && members[k..][0] == members[k];
    hide *;
    OutputShape(f, members[k..], plan, o);
    ShapesAgreeAt(members, members[k]);
  }

  // ----- any plan -----

  lemma {:induction false} SurvivorsAreSorted(members: seq<BackupFile>, absorbed: set<u16>)
    requires StrictlyNewestFirst(members)
    ensures StrictlyNewestFirst(Survivors(members, absorbed))
    ensures forall m :: m in Survivors(members, absorbed) ==> m in members && m.Header().fileNumber !in absorbed
  {
    if members != [] {
      var rest := members[1..];
      assert forall i :: 0 <= i < |rest| ==> rest[i] == members[i + 1];
      SurvivorsAreSorted(rest, absorbed);
      assert forall m :: m in rest ==> m.Header().fileNumber < members[0].Header().fileNumber;
    }
  }

  lemma {:induction false} SortedConcat(a: seq<BackupFile>, b: seq<BackupFile>)
    requires StrictlyNewestFirst(a) && StrictlyNewestFirst(b)
    requires forall x, y :: x in a && y in b ==> x.Header().fileNumber > y.Header().fileNumber
    ensures StrictlyNewestFirst(a + b)
  {
  }

  lemma {:induction false} SortedParts(a: seq<BackupFile>, b: seq<BackupFile>)
    requires StrictlyNewestFirst(a + b)
    ensures StrictlyNewestFirst(a) && StrictlyNewestFirst(b)
    ensures forall x, y :: x in a && y in b ==> x.Header().fileNumber > y.Header().fileNumber
  {
    var all := a + b;
    assert forall i :: 0 <= i < |a| ==> a[i] == all[i];
    assert forall i :: 0 <= i < |b| ==> b[i] == all[|a| + i];
  }

  lemma {:induction false} RestIsSorted(lower: seq<BackupFile>, plan: MergePlan, o: BackupFile)
    requires Mergeable(lower, plan) && IsMergedFile(lower, plan, o) && StrictlyNewestFirst(lower)
    ensures var rest := Skipped(lower, plan) + ([o] + Older(lower, plan));
            && StrictlyNewestFirst(rest)
            && forall m :: m in rest ==> exists x :: x in lower && x.Header().fileNumber == m.Header().fileNumber
  {
    hide *;
    var j := NumberAt(lower, plan.from);
    FromSplits(lower, plan, o);
    assert lower == lower[..j] + lower[j..] && lower[j] in lower && lower[j..][0] == lower[j];
    SortedParts(lower[..j], lower[j..]);
    SurvivorsAreSorted(lower[..j], plan.absorbed);
    SurvivorsAreSorted(lower[j..], plan.absorbed);
    FromIsHighest(lower[j..], o);
    OneIsSorted(o);
    SkippedIs(lower, plan);
    SortedConcat([o], Older(lower, plan));
    SortedConcat(Skipped(lower, plan), [o] + Older(lower, plan));
  }

  lemma {:induction false} SkippedIs(lower: seq<BackupFile>, plan: MergePlan)
    ensures Skipped(lower, plan) == Survivors(lower[..NumberAt(lower, plan.from)], plan.absorbed)
    ensures Older(lower, plan) == Survivors(lower[NumberAt(lower, plan.from)..], plan.absorbed)
  {
    hide Survivors;
  }

  /** `After` lists what is left as the sort by file number does, whatever the plan takes. */
  lemma {:induction false} AfterIsSorted(above: seq<BackupFile>, lower: seq<BackupFile>, plan: MergePlan,
        o: BackupFile)
    requires Mergeable(lower, plan) && IsMergedFile(lower, plan, o) && StrictlyNewestFirst(above + lower)
    ensures StrictlyNewestFirst(After(above, lower, plan, o))
  {
    hide *;
    SortedParts(above, lower);
    RestIsSorted(lower, plan, o);
    SortedConcat(above, Skipped(lower, plan) + ([o] + Older(lower, plan)));
    AfterParts(above, lower, plan, o);
  }

  lemma {:induction false} OneIsSorted(o: BackupFile)
    ensures StrictlyNewestFirst([o])
  {
  }

  /** The output's number is that of the member at the split, which is absorbed. */
  lemma {:induction false} FromSplits(lower: seq<BackupFile>, plan: MergePlan, o: BackupFile)
    requires Mergeable(lower, plan) && IsMergedFile(lower, plan, o)
    ensures var j := NumberAt(lower, plan.from);
            && j < |lower| && lower[j].Header().fileNumber == o.Header().fileNumber
            && o.Header().fileNumber in plan.absorbed
  {
    EndsAreAbsorbed(lower, plan);
    FromIsMember(lower, plan);
    hide IsPlan, DisjointClaims, IsMergedFile;
    MergedClaims(lower, plan, o);
    var m :| m in lower && m.Header().fileNumber == plan.from == plan.outFileNumber;
    var i :| 0 <= i < |lower| && lower[i] == m;
  }

  lemma {:induction false} FromIsHighest(rest: seq<BackupFile>, o: BackupFile)
    requires StrictlyNewestFirst(rest) && rest != [] && rest[0].Header().fileNumber == o.Header().fileNumber
    ensures forall m :: m in rest && m.Header().fileNumber != o.Header().fileNumber ==>
              m.Header().fileNumber < o.Header().fileNumber
  {
  }

  /** What one accepted merge asks of a whole image, whatever its plan takes. */
  ghost predicate ImageKept(above: seq<BackupFile>, lower: seq<BackupFile>, plan: MergePlan, o: BackupFile)
    requires lower != []
  {
    var after := After(above, lower, plan, o);
    && after != [] && ShapeOf(after[0].disks) == ShapeOf(lower[0].disks)
    && forall d, p :: 0 <= d < |lower[0].disks| && 0 <= p < |lower[0].disks[d].partitions|
         ==> BlocksKept(above, lower, plan, o, d, p) && ReservedKept(above, lower, plan, o, d, p)
  }

  /** For any newer files and any chain below them, a merge keeps the image exactly when it keeps each partition. */
  lemma {:induction false} MergeKeepsImageIff(f: Foreign, above: seq<BackupFile>, lower: seq<BackupFile>,
        plan: MergePlan, o: BackupFile)
    requires Mergeable(lower, plan) && IsMergedFile(lower, plan, o)
    requires DisjointClaims(above + lower) && ShapesAgree(above + lower)
    ensures lower != []
    ensures SameImage(above + lower, After(above, lower, plan, o)) <==> ImageKept(above, lower, plan, o)
  {
    hide *;
    ToIsThere(lower, plan);
    NewestIs(above, lower, plan, o);
    BeforeHasToShape(f, above, lower, plan, o);
    forall d: nat, p: nat | d < |lower[0].disks| && p < |lower[0].disks[d].partitions|
      ensures RestoredPartition(above + lower, d, p) == RestoredPartition(After(above, lower, plan, o), d, p)
             <==> BlocksKept(above, lower, plan, o, d, p) && ReservedKept(above, lower, plan, o, d, p)
    {
      MergePreservesImageIff(above, lower, plan, o, d, p);
    }
    GatherImage(above, lower, plan, o);
  }

  lemma {:induction false} GatherImage(above: seq<BackupFile>, lower: seq<BackupFile>, plan: MergePlan, o: BackupFile)
    requires lower != [] && above + lower != [] && After(above, lower, plan, o) != []
    requires var before := above + lower;
             && ShapeOf(before[0].disks) == ShapeOf(lower[0].disks) && |before[0].disks| == |lower[0].disks|
             && forall d :: 0 <= d < |lower[0].disks|
                    ==> |before[0].disks[d].partitions| == |lower[0].disks[d].partitions|
    requires forall d: nat, p: nat :: d < |lower[0].disks| && p < |lower[0].disks[d].partitions| ==>
               (RestoredPartition(above + lower, d, p) == RestoredPartition(After(above, lower, plan, o), d, p)
                <==> BlocksKept(above, lower, plan, o, d, p) && ReservedKept(above, lower, plan, o, d, p))
    ensures SameImage(above + lower, After(above, lower, plan, o)) <==> ImageKept(above, lower, plan, o)
  {
    hide RestoredPartition, BlocksKept, ReservedKept, After, ShapeOf;
  }

  /** The newest file before and To have one shape. */
  lemma {:induction false} BeforeHasToShape(f: Foreign, above: seq<BackupFile>, lower: seq<BackupFile>,
        plan: MergePlan, o: BackupFile)
    requires Mergeable(lower, plan) && IsMergedFile(lower, plan, o) && ShapesAgree(above + lower)
    ensures lower != [] && above + lower != []
    ensures var before := above + lower;
            && ShapeOf(before[0].disks) == ShapeOf(lower[0].disks) && |before[0].disks| == |lower[0].disks|
            && forall d :: 0 <= d < |lower[0].disks|
                   ==> |before[0].disks[d].partitions| == |lower[0].disks[d].partitions|
  {
    ToIsThere(lower, plan);
    hide Mergeable, IsMergedFile;
    OutputShape(f, lower, plan, o);
    assert lower[0] in above + lower;
    ShapesAgreeAt(above + lower, lower[0]);
  }

  /** With a plan that takes the newest files, it is a matter of the entries that stay in use. */
  lemma {:induction false} ImageKeptMeans(f: Foreign, above: seq<BackupFile>, lower: seq<BackupFile>,
        plan: MergePlan, o: BackupFile)
    requires Mergeable(lower, plan) && IsMergedFile(lower, plan, o) && TakesNewest(lower, plan.absorbed)
    requires DisjointClaims(above + lower) && ShapesAgree(above + lower)
    ensures lower != []
    ensures ImageKept(above, lower, plan, o)
       <==> forall d, p :: 0 <= d < |lower[0].disks| && 0 <= p < |lower[0].disks[d].partitions|
              ==> EntriesStay(above, lower, plan, o, d, p)
  {
    hide *;
    ToIsThere(lower, plan);
    OutputHasShape(f, lower, plan, o);
    NewestIs(above, lower, plan, o);
    NothingSkipped(lower, plan);
    BeforeHasToShape(f, above, lower, plan, o);
    forall d: nat, p: nat | d < |lower[0].disks| && p < |lower[0].disks[d].partitions|
      ensures EntriesStay(above, lower, plan, o, d, p)
         <==> BlocksKept(above, lower, plan, o, d, p) && ReservedKept(above, lower, plan, o, d, p)
    {
      TakingNewestStays(above, lower, plan, o, d, p);
    }
    ImageKeptIs(above, lower, plan, o);
  }

  lemma {:induction false} OutputHasShape(f: Foreign, lower: seq<BackupFile>, plan: MergePlan, o: BackupFile)
    requires Mergeable(lower, plan) && IsMergedFile(lower, plan, o)
    ensures lower != [] && ShapeOf(o.disks) == ShapeOf(lower[0].disks)
  {
    ToIsThere(lower, plan);
    hide Mergeable, IsMergedFile;
    OutputShape(f, lower, plan, o);
  }

  lemma {:induction false} ImageKeptIs(above: seq<BackupFile>, lower: seq<BackupFile>, plan: MergePlan, o: BackupFile)
    requires lower != []
    ensures var after := After(above, lower, plan, o);
            ImageKept(above, lower, plan, o)
            <==> && after != [] && ShapeOf(after[0].disks) == ShapeOf(lower[0].disks)
                 && forall d, p :: 0 <= d < |lower[0].disks| && 0 <= p < |lower[0].disks[d].partitions|
                      ==> BlocksKept(above, lower, plan, o, d, p) && ReservedKept(above, lower, plan, o, d, p)
  {
    hide BlocksKept, ReservedKept, After, ShapeOf;
  }

  // ----- runs -----

  /** Some merge of `before` under which what stays in use keeps its meaning makes it `after`. */
  ghost predicate Step(f: Foreign, before: seq<BackupFile>, after: seq<BackupFile>) {
    exists k: nat, plan, o :: k < |before| && StepAt(f, before, k, plan, o) && after == NextSet(before, k, plan, o)
  }

  ghost predicate IsRun(f: Foreign, run: seq<seq<BackupFile>>) {
    run != [] && forall i :: 0 <= i < |run| - 1 ==> Step(f, run[i], run[i + 1])
  }

  lemma {:induction false} SameImageTrans(a: seq<BackupFile>, b: seq<BackupFile>, c: seq<BackupFile>)
    requires SameImage(a, b) && SameImage(b, c)
    ensures SameImage(a, c)
  {
    hide RestoredPartition;
    forall d | 0 <= d < |a[0].disks| ensures |a[0].disks[d].partitions| == |b[0].disks[d].partitions| {
      assert ShapeOf(a[0].disks)[d] == ShapeOf(b[0].disks)[d];
    }
  }

  lemma {:induction false} SameImageRefl(a: seq<BackupFile>)
    requires a != []
    ensures SameImage(a, a)
  {
  }

  lemma {:induction false} StepIsSafe(f: Foreign, before: seq<BackupFile>, after: seq<BackupFile>)
    requires WellFormed(f, before) && Step(f, before, after)
    ensures WellFormed(f, after) && SameImage(before, after)
  {
    hide WellFormed, SameImage, AcceptedAt, NextSet, AllStay;
    var k: nat, plan, o :| k < |before| && StepAt(f, before, k, plan, o) && after == NextSet(before, k, plan, o);
    StepKeepsWellFormed(f, before, k, plan, o);
    StepKeepsImageIff(f, before, k, plan, o);
  }

  /**
   * Every run of such merges is safe. From a well-formed set, however many follow, each deleting what it
   * absorbed, the set stays well-formed and the newest image stays what it was.
   */
  lemma {:induction false} RunsAreSafe(f: Foreign, run: seq<seq<BackupFile>>)
    requires IsRun(f, run) && WellFormed(f, run[0])
    ensures WellFormed(f, run[|run| - 1])
    ensures SameImage(run[0], run[|run| - 1])
  {
    var n := |run| - 1;
    hide WellFormed, SameImage, StepAt, NextSet;
    if n == 0 {
      WellFormedIsDisjoint(f, run[0]);
      SameImageRefl(run[0]);
    } else {
      assert Step(f, run[n - 1], run[n]);
      RunsAreSafe(f, run[..n]);
      StepIsSafe(f, run[n - 1], run[n]);
      SameImageTrans(run[0], run[n - 1], run[n]);
    }
  }

  // ----- runs of sets without references to newer files -----

  ghost predicate BackwardStep(f: Foreign, before: seq<BackupFile>, after: seq<BackupFile>) {
    exists k: nat, plan, o ::
      k < |before| && AcceptedAt(f, before, k, plan, o) && NewestStays(before, k, plan, o)
      && after == NextSet(before, k, plan, o)
  }

  lemma {:induction false} BackwardStepIsStep(f: Foreign, before: seq<BackupFile>, after: seq<BackupFile>)
    requires WellFormed(f, before) && NoForward(before) && BackwardStep(f, before, after)
    ensures Step(f, before, after) && NoForward(after)
  {
    hide WellFormed, NoForward, AcceptedAt, NextSet, NewestStays, AllStay;
    var k: nat, plan, o :| k < |before| && AcceptedAt(f, before, k, plan, o) && NewestStays(before, k, plan, o)
                        && after == NextSet(before, k, plan, o);
    BackwardStepKeepsImageIff(f, before, k, plan, o);
    StepKeepsOrder(f, before, k, plan, o);
    assert StepAt(f, before, k, plan, o);
  }

  /** From such a set it is enough that each merge leaves the newer files their meaning; nothing else can move. */
  lemma {:induction false} BackwardRunsAreSafe(f: Foreign, run: seq<seq<BackupFile>>)
    requires run != [] && WellFormed(f, run[0]) && NoForward(run[0])
    requires forall i :: 0 <= i < |run| - 1 ==> BackwardStep(f, run[i], run[i + 1])
    ensures IsRun(f, run) && NoForward(run[|run| - 1]) && WellFormed(f, run[|run| - 1])
    ensures SameImage(run[0], run[|run| - 1])
  {
    hide WellFormed, NoForward, SameImage, BackwardStep, Step;
    var n := |run| - 1;
    if n == 0 {
      WellFormedIsDisjoint(f, run[0]);
      SameImageRefl(run[0]);
    } else {
      assert BackwardStep(f, run[n - 1], run[n]);
      BackwardRunsAreSafe(f, run[..n]);
      BackwardStepIsStep(f, run[n - 1], run[n]);
      StepIsSafe(f, run[n - 1], run[n]);
      SameImageTrans(run[0], run[n - 1], run[n]);
      forall i | 0 <= i < n ensures Step(f, run[i], run[i + 1]) {
        assert i < n - 1 ==> run[..n][i] == run[i] && run[..n][i + 1] == run[i + 1];
      }
    }
  }
}
