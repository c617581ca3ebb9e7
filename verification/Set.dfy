/** A backup set: its members newest first, who owns which file number, and the flattened chain. */
module Set {
  import opened Wrappers
  import opened Bytes
  import opened Index
  import opened Json
  import opened Reader

  // ----- ownership -----

  function Claims(m: BackupFile): set<u16> {
    m.Header().Claims()
  }

  /** The newest member that claims `n`. */
  function Owner(members: seq<BackupFile>, n: u16): (owner: Option<BackupFile>)
    ensures owner.Some? ==> owner.value in members && n in Claims(owner.value)
    ensures owner.None? ==> forall m :: m in members ==> n !in Claims(m)
  {
    if members == [] then None
    else if n in Claims(members[0]) then Some(members[0])
    else Owner(members[1..], n)
  }

  /** No two members claim one number. */
  ghost predicate DisjointClaims(members: seq<BackupFile>) {
    forall i, j :: 0 <= i < j < |members| ==> Claims(members[i]) !! Claims(members[j])
  }

  ghost predicate NewestFirst(members: seq<BackupFile>) {
    forall i, j :: 0 <= i < j < |members| ==> members[i].Header().fileNumber >= members[j].Header().fileNumber
  }

  lemma {:induction false} OwnerIs(members: seq<BackupFile>, i: nat, n: u16)
    requires DisjointClaims(members) && i < |members| && n in Claims(members[i])
    ensures Owner(members, n) == Some(members[i])
  {
    if i > 0 {
      assert Claims(members[0]) !! Claims(members[i]);
      OwnerIs(members[1..], i - 1, n);
    }
  }

  lemma {:induction false} OwnerOfConcat(a: seq<BackupFile>, b: seq<BackupFile>, n: u16)
    ensures Owner(a + b, n) == if Owner(a, n).Some? then Owner(a, n) else Owner(b, n)
  {
    if a == [] {
      assert a + b == b;
    } else {
      assert (a + b)[1..] == a[1..] + b;
      OwnerOfConcat(a[1..], b, n);
    }
  }

  // ----- what flattening means -----

  /** The element of the last delta that names `i`. */
  function LastWriter(deltas: seq<Delta>, i: nat): Option<Element> {
    if deltas == [] then None
    else
      var last := deltas[|deltas| - 1];
      if last.blockIndex == i then Some(last.element) else LastWriter(deltas[..|deltas| - 1], i)
  }

  /** The array length once every named position exists. */
  function GrownLength(length: nat, deltas: seq<Delta>): (n: nat)
    ensures n >= length
  {
    if deltas == [] then length
    else
      var before := GrownLength(length, deltas[..|deltas| - 1]);
      var named := deltas[|deltas| - 1].blockIndex + 1;
      if named > before then named else before
  }

  /** Position `i` of the replayed array: its last writer, else the seed entry, else a hole. */
  function ReplayedAt(blocks: seq<Element>, deltas: seq<Delta>, i: nat): Element {
    match LastWriter(deltas, i)
    case Some(e) => e
    case None => if i < |blocks| then blocks[i] else HOLE
  }

  function Replay(blocks: seq<Element>, deltas: seq<Delta>): (out: seq<Element>)
    ensures |out| == GrownLength(|blocks|, deltas)
    ensures forall i :: 0 <= i < |out| ==> out[i] == ReplayedAt(blocks, deltas, i)
  {
    seq(GrownLength(|blocks|, deltas), i requires 0 <= i => ReplayedAt(blocks, deltas, i))
  }

  /** The deltas a member records for one partition; none for a split part or a full index. */
  function DeltasOf(m: BackupFile, d: nat, p: nat): seq<Delta> {
    if d < |m.disks| && p < |m.disks[d].partitions| && m.disks[d].partitions[p].index.blocks.Deltas?
    then m.disks[d].partitions[p].index.blocks.deltas else []
  }

  function FullEntriesOf(m: BackupFile, d: nat, p: nat): seq<Element> {
    if d < |m.disks| && p < |m.disks[d].partitions| && m.disks[d].partitions[p].index.blocks.Full?
    then m.disks[d].partitions[p].index.blocks.entries else []
  }

  function ReservedOf(m: BackupFile, d: nat, p: nat): seq<Element> {
    if d < |m.disks| && p < |m.disks[d].partitions| then m.disks[d].partitions[p].index.reserved else []
  }

  predicate IsFull(m: BackupFile) {
    m.Header().IsFullIndex()
  }

  /** One partition resolved as of the newest member: from the newest full index, later deltas replayed. */
  function Chain(members: seq<BackupFile>, d: nat, p: nat): seq<Element> {
    if members == [] then []
    else if IsFull(members[0]) then FullEntriesOf(members[0], d, p)
    else Replay(Chain(members[1..], d, p), DeltasOf(members[0], d, p))
  }

  /** Position of the newest member with a full index, which is the base. */
  function BaseIndex(members: seq<BackupFile>): (base: Option<nat>)
    ensures base.Some? ==> base.value < |members| && IsFull(members[base.value])
    ensures base.Some? ==> forall k :: 0 <= k < base.value ==> !IsFull(members[k])
    ensures base.None? ==> forall k :: 0 <= k < |members| ==> !IsFull(members[k])
  {
    if members == [] then None
    else if IsFull(members[0]) then Some(0)
    else
      match BaseIndex(members[1..])
      case Some(b) => Some(b + 1)
      case None => None
  }

  /** Every delta the members record for a partition, oldest first. */
  function History(members: seq<BackupFile>, d: nat, p: nat): seq<Delta> {
    if members == [] then [] else History(members[1..], d, p) + DeltasOf(members[0], d, p)
  }

  // ----- replay laws -----

  ghost predicate Names(deltas: seq<Delta>, i: int) {
    exists k :: 0 <= k < |deltas| && deltas[k].blockIndex == i
  }

  /** The last writer, said without recursion. */
  lemma {:induction false} LastWriterMeaning(deltas: seq<Delta>, i: nat)
    ensures LastWriter(deltas, i).Some? <==> Names(deltas, i)
    ensures forall e :: LastWriter(deltas, i) == Some(e) ==>
              exists k :: 0 <= k < |deltas| && deltas[k] == Delta(e, i)
                       && forall j :: k < j < |deltas| ==> deltas[j].blockIndex != i
  {
    if deltas != [] {
      var n := |deltas| - 1;
      LastWriterMeaning(deltas[..n], i);
      if deltas[n].blockIndex == i {
        assert deltas[n] == Delta(deltas[n].element, i);
      } else if LastWriter(deltas[..n], i).Some? {
        var e := LastWriter(deltas[..n], i).value;
        var k :| 0 <= k < n && deltas[..n][k] == Delta(e, i)
                 && forall j :: k < j < n ==> deltas[..n][j].blockIndex != i;
        assert deltas[k] == Delta(e, i);
        assert forall j :: k < j < n ==> deltas[j] == deltas[..n][j];
      }
      assert forall k :: 0 <= k < n ==> deltas[..n][k] == deltas[k];
    }
  }

  /** The grown length is the least length that covers the seed and every named position. */
  lemma {:induction false} GrownLengthMeaning(length: nat, deltas: seq<Delta>)
    ensures var n := GrownLength(length, deltas);
            && (forall i :: Names(deltas, i) ==> i < n)
            && (n == length || Names(deltas, n - 1))
  {
    if deltas != [] {
      var k := |deltas| - 1;
      GrownLengthMeaning(length, deltas[..k]);
      var before := GrownLength(length, deltas[..k]);
      forall i | Names(deltas, i) ensures i < GrownLength(length, deltas) {
        var j :| 0 <= j < |deltas| && deltas[j].blockIndex == i;
        if j < k { assert deltas[..k][j].blockIndex == i; assert Names(deltas[..k], i); }
      }
      if before != length {
        var j :| 0 <= j < k && deltas[..k][j].blockIndex == before - 1;
        assert deltas[j].blockIndex == before - 1;
      }
      assert deltas[k].blockIndex == deltas[k].blockIndex;
    }
  }

  lemma {:induction false} WriterOfConcat(a: seq<Delta>, b: seq<Delta>, i: nat)
    ensures LastWriter(a + b, i) == if LastWriter(b, i).Some? then LastWriter(b, i) else LastWriter(a, i)
  {
    if b == [] {
      assert a + b == a;
    } else {
      assert (a + b)[..|a + b| - 1] == a + b[..|b| - 1];
      WriterOfConcat(a, b[..|b| - 1], i);
    }
  }

  lemma {:induction false} GrownOfConcat(length: nat, a: seq<Delta>, b: seq<Delta>)
    ensures GrownLength(length, a + b) == GrownLength(GrownLength(length, a), b)
  {
    if b == [] {
      assert a + b == a;
    } else {
      assert (a + b)[..|a + b| - 1] == a + b[..|b| - 1];
      GrownOfConcat(length, a, b[..|b| - 1]);
    }
  }

  lemma {:induction false} UnnamedBeyond(length: nat, deltas: seq<Delta>, i: nat)
    requires i >= GrownLength(length, deltas)
    ensures LastWriter(deltas, i) == None
  {
    if deltas != [] {
      UnnamedBeyond(length, deltas[..|deltas| - 1], i);
    }
  }

  /** Replaying two lists in turn is replaying their concatenation. */
  lemma {:induction false} ReplayOfConcat(blocks: seq<Element>, a: seq<Delta>, b: seq<Delta>)
    ensures Replay(Replay(blocks, a), b) == Replay(blocks, a + b)
  {
    GrownOfConcat(|blocks|, a, b);
    var mid := Replay(blocks, a);
    forall i | 0 <= i < GrownLength(|blocks|, a + b)
      ensures ReplayedAt(mid, b, i) == ReplayedAt(blocks, a + b, i)
    {
      WriterOfConcat(a, b, i);
      if i >= |mid| { UnnamedBeyond(|blocks|, a, i); }
    }
  }

  lemma {:induction false} ReplayOfNothing(blocks: seq<Element>)
    ensures Replay(blocks, []) == blocks
  {
  }

  /** Chain resolution is last-writer-wins over the whole history since the base. */
  lemma {:induction false} ChainIsLastWriterWins(members: seq<BackupFile>, d: nat, p: nat)
    requires BaseIndex(members).Some?
    ensures var b := BaseIndex(members).value;
            Chain(members, d, p) == Replay(FullEntriesOf(members[b], d, p), History(members[..b], d, p))
  {
    hide Replay, IsFull, DeltasOf, FullEntriesOf;
    var b := BaseIndex(members).value;
    if b == 0 {
      ReplayOfNothing(FullEntriesOf(members[0], d, p));
    } else {
      var newer := members[..b];
      ChainIsLastWriterWins(members[1..], d, p);
      assert members[1..][b - 1] == members[b] && members[1..][..b - 1] == newer[1..];
      assert History(newer, d, p) == History(newer[1..], d, p) + DeltasOf(members[0], d, p);
      ReplayOfConcat(FullEntriesOf(members[b], d, p), History(newer[1..], d, p), DeltasOf(members[0], d, p));
    }
  }

  /** Members with no full index among them replay their history over what lies below. */
  lemma {:induction false} ChainOverDeltas(newer: seq<BackupFile>, older: seq<BackupFile>, d: nat, p: nat)
    requires forall m :: m in newer ==> !IsFull(m)
    ensures Chain(newer + older, d, p) == Replay(Chain(older, d, p), History(newer, d, p))
  {
    if newer == [] {
      assert newer + older == older;
      ReplayOfNothing(Chain(older, d, p));
    } else {
      assert (newer + older)[1..] == newer[1..] + older;
      ChainOverDeltas(newer[1..], older, d, p);
      ReplayOfConcat(Chain(older, d, p), History(newer[1..], d, p), DeltasOf(newer[0], d, p));
    }
  }

  // ----- completeness -----

  function BaseEntries(index: PartitionIndex): (entries: seq<Element>)
    ensures forall e :: e in entries <==> e in index.reserved || (index.blocks.Full? && e in index.blocks.entries)
  {
    index.reserved + if index.blocks.Full? then index.blocks.entries else []
  }

  /** The file numbers a file's full index and reserved arrays name. */
  ghost predicate References(m: BackupFile, n: u16) {
    exists d, p, e :: 0 <= d < |m.disks| && 0 <= p < |m.disks[d].partitions|
                   && e in BaseEntries(m.disks[d].partitions[p].index) && !e.IsHole() && e.fileNumber == n
  }

  /** Everything a restore of the newest member reads is claimed by some member. */
  ghost predicate IsComplete(members: seq<BackupFile>) {
    && BaseIndex(members).Some?
    && var base := members[BaseIndex(members).value];
       && (forall n: u16 :: base.Header().fileNumber <= n <= members[0].Header().fileNumber ==> Owner(members, n).Some?)
       && (forall n: u16 :: References(base, n) ==> Owner(members, n).Some?)
  }

  // ----- the set and its operations -----

  datatype BackupSet = BackupSet(members: seq<BackupFile>, owners: map<u16, nat>) {
    /** The owner map names, for each claimed number, the one member that claims it. */
    ghost predicate Valid() {
      && members != []
      && NewestFirst(members)
      && DisjointClaims(members)
      && (forall n :: n in owners ==> owners[n] < |members| && n in Claims(members[owners[n]]))
      && (forall i, n :: 0 <= i < |members| && n in Claims(members[i]) ==> n in owners)
    }

    function OwnerOf(n: u16): (owner: Option<BackupFile>)
      requires Valid()
      ensures owner == Owner(members, n)
    {
      if n in owners then
        OwnerIs(members, owners[n], n);
        Some(members[owners[n]])
      else None
    }
  }

  method MissingFileNumbers(owned: set<u16>, base: u16, newest: u16, referenced: set<u16>) returns (missing: seq<u16>)
    ensures forall n: u16 :: n in missing <==> (base <= n <= newest || n in referenced) && n !in owned
    ensures forall i, j :: 0 <= i < j < |missing| ==> missing[i] < missing[j]
  {
    missing := [];
    for n := 0 to 0x1_0000
      invariant forall k: u16 :: k in missing <==> k < n && (base <= k <= newest || k in referenced) && k !in owned
      invariant forall i :: 0 <= i < |missing| ==> missing[i] < n
      invariant forall i, j :: 0 <= i < j < |missing| ==> missing[i] < missing[j]
    {
      if (base <= n <= newest || n in referenced) && n !in owned {
        missing := missing + [n];
      }
    }
  }

  method ReferencedNumbers(m: BackupFile) returns (referenced: set<u16>)
    ensures forall n: u16 :: n in referenced <==> References(m, n)
  {
    referenced := {};
    for d := 0 to |m.disks|
      invariant forall n: u16 :: n in referenced <==> ReferencesBefore(m, d, 0, n)
    {
      var parts := m.disks[d].partitions;
      for p := 0 to |parts|
        invariant forall n: u16 :: n in referenced <==> ReferencesBefore(m, d, p, n)
      {
        var entries := BaseEntries(parts[p].index);
        var named := set e | e in entries && !e.IsHole() :: e.fileNumber;
        forall n: u16 ensures ReferencesBefore(m, d, p + 1, n) <==> ReferencesBefore(m, d, p, n) || n in named {
          if n in named {
            var e :| e in entries && !e.IsHole() && e.fileNumber == n;
            assert e in BaseEntries(m.disks[d].partitions[p].index);
          }
        }
        referenced := referenced + named;
      }
      forall n: u16 ensures ReferencesBefore(m, d, |parts|, n) <==> ReferencesBefore(m, d + 1, 0, n) {}
    }
  }

  ghost predicate ReferencesBefore(m: BackupFile, d: nat, p: nat, n: u16) {
    exists d', p', e ::
      && 0 <= d' < |m.disks| && 0 <= p' < |m.disks[d'].partitions| && (d' < d || (d' == d && p' < p))
      && e in BaseEntries(m.disks[d'].partitions[p'].index) && !e.IsHole() && e.fileNumber == n
  }

  method CheckComplete(backupSet: BackupSet) returns (r: Result<()>)
    requires backupSet.Valid()
    ensures r.Ok? <==> IsComplete(backupSet.members)
  {
    var members := backupSet.members;
    var at := BaseIndex(members);
    if at.None? {
      return Err("no file of this backup set carries a full block index");
    }
    var base := members[at.value];
    var referenced := ReferencedNumbers(base);
    var missing := MissingFileNumbers(backupSet.owners.Keys, base.Header().fileNumber,
                                      members[0].Header().fileNumber, referenced);
    forall n: u16 ensures n in backupSet.owners <==> Owner(members, n).Some? {
      assert backupSet.OwnerOf(n) == Owner(members, n);
    }
    if missing != [] {
      assert missing[0] in missing;
      return Err("Backup set is not complete. At least one file may be missing.");
    }
    return Ok(());
  }

  // ----- discovery -----

  /** The candidates of the target's set at or below its increment. */
  function Kept(candidates: seq<BackupFile>, target: Json.Header): seq<BackupFile> {
    if candidates == [] then []
    else
      var c := candidates[|candidates| - 1];
      var rest := Kept(candidates[..|candidates| - 1], target);
      if c.Header().imageId == target.imageId && c.Header().incrementNumber <= target.incrementNumber
      then rest + [c] else rest
  }

  function InsertNewest(sorted: seq<BackupFile>, m: BackupFile): seq<BackupFile> {
    if sorted != [] && sorted[|sorted| - 1].Header().fileNumber < m.Header().fileNumber
    then InsertNewest(sorted[..|sorted| - 1], m) + [sorted[|sorted| - 1]]
    else sorted + [m]
  }

  function SortNewest(members: seq<BackupFile>): seq<BackupFile> {
    if members == [] then []
    else InsertNewest(SortNewest(members[..|members| - 1]), members[|members| - 1])
  }

  lemma {:induction false} InsertNewestSorts(sorted: seq<BackupFile>, m: BackupFile)
    requires NewestFirst(sorted)
    ensures NewestFirst(InsertNewest(sorted, m))
    ensures multiset(InsertNewest(sorted, m)) == multiset(sorted) + multiset{m}
    ensures forall x :: x in InsertNewest(sorted, m) ==> x in sorted || x == m
  {
    if sorted != [] && sorted[|sorted| - 1].Header().fileNumber < m.Header().fileNumber {
      var init, last := sorted[..|sorted| - 1], sorted[|sorted| - 1];
      InsertNewestSorts(init, m);
      assert sorted == init + [last];
      var grown := InsertNewest(init, m);
      forall x | x in grown ensures x.Header().fileNumber >= last.Header().fileNumber {
        if x in init { var k :| 0 <= k < |init| && init[k] == x; assert sorted[k] == x; }
      }
      NewestFirstAppend(grown, last);
    } else {
      forall x | x in sorted ensures x.Header().fileNumber >= m.Header().fileNumber {
        var k :| 0 <= k < |sorted| && sorted[k] == x;
        assert sorted[|sorted| - 1].Header().fileNumber <= sorted[k].Header().fileNumber;
      }
      NewestFirstAppend(sorted, m);
    }
  }

  lemma {:induction false} NewestFirstAppend(sorted: seq<BackupFile>, m: BackupFile)
    requires NewestFirst(sorted)
    requires forall x :: x in sorted ==> x.Header().fileNumber >= m.Header().fileNumber
    ensures NewestFirst(sorted + [m])
  {
    forall i | 0 <= i < |sorted| ensures sorted[i].Header().fileNumber >= m.Header().fileNumber {
      assert sorted[i] in sorted;
    }
  }

  /** The sort keeps every member and puts the highest file numbers first. */
  lemma {:induction false} SortNewestSorts(members: seq<BackupFile>)
    ensures NewestFirst(SortNewest(members))
    ensures multiset(SortNewest(members)) == multiset(members)
  {
    if members != [] {
      var init, last := members[..|members| - 1], members[|members| - 1];
      SortNewestSorts(init);
      InsertNewestSorts(SortNewest(init), last);
      assert members == init + [last];
    }
  }

  method ClaimAll(owners: map<u16, nat>, numbers: seq<u16>, i: nat) returns (r: Result<map<u16, nat>>)
    requires forall j, k :: 0 <= j < k < |numbers| ==> numbers[j] != numbers[k]
    ensures r.Ok? <==> forall n :: n in numbers ==> n !in owners
    ensures r.Ok? ==> forall n :: n in r.value <==> n in owners || n in numbers
    ensures r.Ok? ==> forall n :: n in r.value ==> r.value[n] == if n in numbers then i else owners[n]
  {
    var out := owners;
    for k := 0 to |numbers|
      invariant forall n :: n in out <==> n in owners || n in numbers[..k]
      invariant forall n :: n in numbers[..k] ==> n !in owners
      invariant forall n :: n in out ==> out[n] == if n in numbers[..k] then i else owners[n]
    {
      var number := numbers[k];
      assert numbers[..k + 1] == numbers[..k] + [number];
      if number in out {
        assert number in owners;
        return Err("two files both claim one file number");
      }
      out := out[number := i];
    }
    assert numbers[..|numbers|] == numbers;
    return Ok(out);
  }

  method NumbersOf(m: BackupFile) returns (numbers: seq<u16>)
    ensures forall n: u16 :: n in numbers <==> n in Claims(m)
    ensures forall i, j :: 0 <= i < j < |numbers| ==> numbers[i] != numbers[j]
  {
    numbers := OwnedFileNumbers(m.Header());
  }

  /** Which member claims each number, or a refusal where two claim one: which holds the bytes is then a guess. */
  method MapOwners(members: seq<BackupFile>) returns (r: Result<map<u16, nat>>)
    ensures r.Ok? <==> DisjointClaims(members)
    ensures r.Ok? ==> forall n :: n in r.value ==> r.value[n] < |members| && n in Claims(members[r.value[n]])
    ensures r.Ok? ==> forall i, n :: 0 <= i < |members| && n in Claims(members[i]) ==> n in r.value
  {
    hide Claims;
    var owners: map<u16, nat> := map[];
    for i := 0 to |members|
      invariant DisjointClaims(members[..i])
      invariant forall n :: n in owners ==> owners[n] < i && n in Claims(members[owners[n]])
      invariant forall j, n :: 0 <= j < i && n in Claims(members[j]) ==> n in owners
    {
      var numbers := NumbersOf(members[i]);
      var claimed := ClaimAll(owners, numbers, i);
      if claimed.Err? {
        var n :| n in numbers && n in owners;
        assert n in Claims(members[i]) && n in Claims(members[owners[n]]);
        return Err(claimed.error);
      }
      owners := claimed.value;
    }
    assert members[..|members|] == members;
    return Ok(owners);
  }

  /**
   * Resolve the set of a target among parsed candidates. It is refused exactly when nothing of the
   * set was found, two files claim one number, or the chain is not complete.
   */
  method Discover(candidates: seq<BackupFile>, target: Json.Header) returns (r: Result<BackupSet>)
    ensures r.Ok? <==> var members := SortNewest(Kept(candidates, target));
                       members != [] && DisjointClaims(members) && IsComplete(members)
    ensures r.Ok? ==> r.value.Valid() && r.value.members == SortNewest(Kept(candidates, target))
  {
    var kept: seq<BackupFile> := [];
    for i := 0 to |candidates|
      invariant kept == Kept(candidates[..i], target)
    {
      var c := candidates[i];
      assert candidates[..i + 1][..i] == candidates[..i];
      if c.Header().imageId == target.imageId && c.Header().incrementNumber <= target.incrementNumber {
        kept := kept + [c];
      }
    }
    assert candidates[..|candidates|] == candidates;
    var members := SortNewest(kept);
    SortNewestSorts(kept);
    if members == [] {
      return Err("no readable files of the backup set were found");
    }

    var owners: map<u16, nat> :- MapOwners(members);
    var found := BackupSet(members, owners);
    var complete := CheckComplete(found);
    if complete.Err? {
      return Err(complete.error);
    }
    return Ok(found);
  }

  // ----- flatten: the in-place replay -----

  ghost predicate ShapesAgree(members: seq<BackupFile>) {
    members != [] ==> forall m :: m in members && !m.Header().splitFile ==> m.Shape() == members[0].Shape()
  }

  method CheckShape(members: seq<BackupFile>) returns (r: Result<seq<nat>>)
    requires members != []
    ensures r.Ok? <==> ShapesAgree(members)
    ensures r.Ok? ==> r.value == members[0].Shape()
  {
    var expected := members[0].Shape();
    for i := 0 to |members|
      invariant forall k :: 0 <= k < i && !members[k].Header().splitFile ==> members[k].Shape() == expected
    {
      if !members[i].Header().splitFile && members[i].Shape() != expected {
        return Err("the shape of the set changes mid-chain");
      }
    }
    return Ok(expected);
  }

  /** The array with a hole at every position up to and including `at` that it did not have. */
  function GrowTo(blocks: seq<Element>, at: nat): (grown: seq<Element>)
    ensures at < |grown| && |blocks| <= |grown|
    ensures forall i :: 0 <= i < |grown| ==> grown[i] == if i < |blocks| then blocks[i] else HOLE
  {
    if at < |blocks| then blocks else blocks + seq(at + 1 - |blocks|, _ => HOLE)
  }

  lemma {:induction false} ReplayStep(seed: seq<Element>, deltas: seq<Delta>, delta: Delta)
    ensures var at := delta.blockIndex;
            Replay(seed, deltas + [delta]) == GrowTo(Replay(seed, deltas), at)[at := delta.element]
  {
    hide Replay;
    var at, blocks := delta.blockIndex, Replay(seed, deltas);
    var all := deltas + [delta];
    assert all[..|all| - 1] == deltas;
    forall i | |blocks| <= i ensures LastWriter(deltas, i) == None {
      UnnamedBeyond(|seed|, deltas, i);
    }
    forall i | 0 <= i < |GrowTo(blocks, at)|
      ensures ReplayedAt(seed, all, i) == GrowTo(blocks, at)[at := delta.element][i]
    {
      assert LastWriter(all, i) == if i == at then Some(delta.element) else LastWriter(deltas, i);
    }
  }

  /** Overwrite `blocks` with each delta in order, growing it with holes where a delta lies past the end. */
  method ReplayInPlace(seed: seq<Element>, deltas: seq<Delta>) returns (blocks: seq<Element>)
    ensures blocks == Replay(seed, deltas)
    ensures forall i :: |seed| <= i < |blocks| && !Names(deltas, i) ==> IsBlank(blocks[i])
  {
    blocks := seed;
    ReplayOfNothing(seed);
    for k := 0 to |deltas|
      invariant blocks == Replay(seed, deltas[..k])
    {
      var at := deltas[k].blockIndex;
      ReplayStep(seed, deltas[..k], deltas[k]);
      assert deltas[..k + 1] == deltas[..k] + [deltas[k]];
      ghost var grown := GrowTo(blocks, at);
      if at >= |blocks| {
        blocks := blocks + seq(at + 1 - |blocks|, _ => HOLE);
      }
      assert blocks == grown;
      blocks := blocks[at := deltas[k].element];
    }
    assert deltas[..|deltas|] == deltas;
    forall i | |seed| <= i < |blocks| && !Names(deltas, i) ensures IsBlank(blocks[i]) {
      LastWriterMeaning(deltas, i);
    }
  }

  ghost predicate RowIsFull(base: BackupFile, d: nat)
    requires d < |base.disks|
  {
    forall p :: 0 <= p < |base.disks[d].partitions| ==> base.disks[d].partitions[p].index.blocks.Full?
  }

  /** What flattening demands: a base, one shape, and a full index in every partition of the base. */
  ghost predicate Flattens(members: seq<BackupFile>) {
    && BaseIndex(members).Some?
    && ShapesAgree(members)
    && var base := members[BaseIndex(members).value];
       forall d :: 0 <= d < |base.disks| ==> RowIsFull(base, d)
  }

  method FlattenPartition(members: seq<BackupFile>, base: nat, d: nat, p: nat) returns (blocks: seq<Element>)
    requires BaseIndex(members) == Some(base)
    requires d < |members[base].disks| && p < |members[base].disks[d].partitions|
    requires members[base].disks[d].partitions[p].index.blocks.Full?
    requires forall m :: m in members && m.Header().splitFile ==> m.disks == []
    requires forall m :: m in members && !m.Header().splitFile ==> d < |m.disks| && p < |m.disks[d].partitions|
    ensures blocks == Chain(members, d, p)
  {
    blocks := members[base].disks[d].partitions[p].index.blocks.entries;
    var i := base;
    while i > 0
      invariant 0 <= i <= base
      invariant blocks == Chain(members[i..], d, p)
    {
      i := i - 1;
      var member := members[i];
      assert members[i..][1..] == members[i + 1..];
      ReplayOfNothing(blocks);
      if member.Header().splitFile {
        continue;
      }
      if member.disks[d].partitions[p].index.blocks.Full? {
        continue;
      }
      blocks := ReplayInPlace(blocks, member.disks[d].partitions[p].index.blocks.deltas);
    }
    assert members[0..] == members;
  }

  /** One dense array per disk and partition, resolved as of the newest member. */
  method Flatten(members: seq<BackupFile>) returns (r: Result<seq<seq<seq<Element>>>>)
    requires members != []
    requires forall m :: m in members && m.Header().splitFile ==> m.disks == []
    ensures r.Ok? <==> Flattens(members)
    ensures r.Ok? ==> |r.value| == |members[0].disks|
    ensures r.Ok? ==> forall d :: 0 <= d < |r.value| ==> RowResolved(members, d, r.value[d])
  {
    var base := BaseIndex(members);
    if base.None? {
      return Err("no file of this backup set carries a full block index");
    }
    var shape :- CheckShape(members);
    ghost var b := members[base.value];
    ShapesAgreeAt(members, b);
    var disks: seq<seq<seq<Element>>> := [];
    for d := 0 to |shape|
      invariant |disks| == d
      invariant forall d' :: 0 <= d' < d ==> RowResolved(members, d', disks[d']) && RowIsFull(b, d')
    {
      var partitions: seq<seq<Element>> :- FlattenDisk(members, base.value, d);
      disks := disks + [partitions];
    }
    return Ok(disks);
  }

  ghost predicate RowResolved(members: seq<BackupFile>, d: nat, row: seq<seq<Element>>)
    requires members != [] && d < |members[0].disks|
  {
    && |row| == |members[0].disks[d].partitions|
    && forall p :: 0 <= p < |row| ==> row[p] == Chain(members, d, p)
  }

  lemma {:induction false} ShapesAgreeAt(members: seq<BackupFile>, m: BackupFile)
    requires members != [] && ShapesAgree(members) && m in members && !m.Header().splitFile
    ensures |m.disks| == |members[0].disks|
    ensures forall d :: 0 <= d < |m.disks| ==> |m.disks[d].partitions| == |members[0].disks[d].partitions|
  {
    forall d | 0 <= d < |m.disks| ensures |m.disks[d].partitions| == |members[0].disks[d].partitions| {
      assert m.Shape()[d] == members[0].Shape()[d];
    }
  }

  method FlattenDisk(members: seq<BackupFile>, base: nat, d: nat) returns (r: Result<seq<seq<Element>>>)
    requires BaseIndex(members) == Some(base) && ShapesAgree(members)
    requires forall m :: m in members && m.Header().splitFile ==> m.disks == []
    requires d < |members[0].disks| && d < |members[base].disks|
    ensures r.Ok? <==> RowIsFull(members[base], d)
    ensures r.Ok? ==> RowResolved(members, d, r.value)
  {
    hide Chain, BaseIndex, IsFull;
    ShapesAgreeAt(members, members[base]);
    forall m | m in members && !m.Header().splitFile
      ensures d < |m.disks| && |m.disks[d].partitions| == |members[0].disks[d].partitions|
    {
      ShapesAgreeAt(members, m);
    }
    var partitions: seq<seq<Element>> := [];
    for p := 0 to |members[0].disks[d].partitions|
      invariant |partitions| == p
      invariant forall p' :: 0 <= p' < p ==> partitions[p'] == Chain(members, d, p')
      invariant forall p' :: 0 <= p' < p ==> members[base].disks[d].partitions[p'].index.blocks.Full?
    {
      if members[base].disks[d].partitions[p].index.blocks.Deltas? {
        return Err("the base file of the set carries a delta index");
      }
      var blocks := FlattenPartition(members, base, d, p);
      partitions := partitions + [blocks];
    }
    return Ok(partitions);
  }
}
