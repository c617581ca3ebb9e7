/** What discovery makes of a directory before, during and after a merge. */
module Discovery {
  import opened Json
  import opened Reader
  import opened Set
  import opened Plan
  import opened Merge
  import opened Runs

  predicate PassesFilter(m: BackupFile, target: Json.Header) {
    m.Header().imageId == target.imageId && m.Header().incrementNumber <= target.incrementNumber
  }

  lemma {:induction false} KeptCounts(candidates: seq<BackupFile>, target: Json.Header, x: BackupFile)
    ensures multiset(Kept(candidates, target))[x] == if PassesFilter(x, target) then multiset(candidates)[x] else 0
  {
    if candidates != [] {
      var init, last := candidates[..|candidates| - 1], candidates[|candidates| - 1];
      KeptCounts(init, target, x);
      assert candidates == init + [last];
    }
  }

  /** A strict order leaves the sort no choice. */
  lemma {:induction false} SortedIsUnique(a: seq<BackupFile>, b: seq<BackupFile>)
    requires NewestFirst(a) && StrictlyNewestFirst(b) && multiset(a) == multiset(b)
    ensures a == b
  {
    if a == [] {
      assert multiset(b) == multiset{};
      assert forall x :: x in b ==> x in multiset(b);
      assert b == [];
    } else {
      SameHead(a, b);
      TailsMatch(a, b);
      SortedIsUnique(a[1..], b[1..]);
    }
  }

  lemma {:induction false} TailsMatch(a: seq<BackupFile>, b: seq<BackupFile>)
    requires a != [] && b != [] && a[0] == b[0] && multiset(a) == multiset(b)
    ensures multiset(a[1..]) == multiset(b[1..]) && a == [a[0]] + a[1..] && b == [b[0]] + b[1..]
  {
    assert a == [a[0]] + a[1..] && b == [b[0]] + b[1..];
    assert multiset(a) == multiset{a[0]} + multiset(a[1..]) && multiset(b) == multiset{b[0]} + multiset(b[1..]);
    assert multiset(a[1..]) == multiset(a) - multiset{a[0]};
    assert multiset(b[1..]) == multiset(b) - multiset{b[0]};
  }

  lemma {:induction false} SameHead(a: seq<BackupFile>, b: seq<BackupFile>)
    requires a != [] && NewestFirst(a) && StrictlyNewestFirst(b) && multiset(a) == multiset(b)
    ensures b != [] && a[0] == b[0]
  {
    assert a[0] in multiset(a) && a[0] in multiset(b);
    assert b != [] && b[0] in multiset(b) && b[0] in multiset(a);
    var i :| 0 <= i < |a| && a[i] == b[0];
    assert a[0].Header().fileNumber >= a[i].Header().fileNumber;
    forall j | 0 < j < |b| ensures b[j] != a[0] {
      assert b[0].Header().fileNumber > b[j].Header().fileNumber;
    }
    var j :| 0 <= j < |b| && b[j] == a[0];
  }

  /** The files of the set from To down, in the terms of the filter discovery applies. */
  ghost predicate SplitsAt(members: seq<BackupFile>, k: nat) {
    && k < |members|
    && (forall i :: 0 <= i < k ==> !PassesFilter(members[i], members[k].Header()))
    && (forall i :: k <= i < |members| ==> PassesFilter(members[i], members[k].Header()))
  }

  lemma {:induction false} SuffixCounts(members: seq<BackupFile>, k: nat, x: BackupFile)
    requires SplitsAt(members, k)
    ensures multiset(members[k..])[x] == if PassesFilter(x, members[k].Header()) then multiset(members)[x] else 0
  {
    var upper, lower := members[..k], members[k..];
    assert members == upper + lower;
    if PassesFilter(x, members[k].Header()) {
      assert x !in upper;
    } else {
      forall i | 0 <= i < |lower| ensures lower[i] != x {
        assert lower[i] == members[k + i];
      }
      assert x !in lower;
    }
  }

  lemma {:induction false} StrictSuffix(members: seq<BackupFile>, k: nat)
    requires StrictlyNewestFirst(members) && k <= |members|
    ensures StrictlyNewestFirst(members[k..])
  {
    var lower := members[k..];
    forall i, j | 0 <= i < j < |lower| ensures lower[i].Header().fileNumber > lower[j].Header().fileNumber {
      assert lower[i] == members[k + i] && lower[j] == members[k + j];
    }
  }

  lemma {:induction false} SameSet(f: Foreign, members: seq<BackupFile>, i: nat, k: nat)
    requires OneSet(f, members) && i < |members| && k < |members|
    ensures members[i].Header().imageId == members[k].Header().imageId
  {
    hide IsParsed;
    assert members[i] in members && members[k] in members;
  }

  lemma {:induction false} SeenSplits(f: Foreign, members: seq<BackupFile>, k: nat)
    requires OneSet(f, members) && SeenFrom(members, k)
    ensures SplitsAt(members, k)
  {
    hide OneSet;
    forall i | 0 <= i < |members| ensures members[i].Header().imageId == members[k].Header().imageId {
      SameSet(f, members, i, k);
    }
  }

  lemma {:induction false} WellFormedParts(f: Foreign, members: seq<BackupFile>)
    requires WellFormed(f, members)
    ensures OneSet(f, members) && StrictlyNewestFirst(members)
  {
    hide OneSet, StrictlyNewestFirst, DisjointClaims, ShapesAgree;
  }

  /** These candidates are, of the one set, exactly its files, in any order; files of other sets may be among them. */
  ghost predicate ListsSet(candidates: seq<BackupFile>, members: seq<BackupFile>)
    requires members != []
  {
    forall x: BackupFile :: x.Header().imageId == members[0].Header().imageId ==>
      multiset(candidates)[x] == multiset(members)[x]
  }

  /**
   * Discovery as of a file of a well-formed set, from a directory that holds the set's files in any order among
   * others, resolves exactly the files from that one down. This is what a step of a run hands to the planner.
   */
  lemma {:induction false} DiscoveryFindsSuffix(f: Foreign, members: seq<BackupFile>, k: nat,
        candidates: seq<BackupFile>)
    requires members != [] && WellFormed(f, members) && SeenFrom(members, k) && ListsSet(candidates, members)
    ensures SortNewest(Kept(candidates, members[k].Header())) == members[k..]
  {
    hide WellFormed, Kept, SortNewest, OneSet;
    WellFormedParts(f, members);
    SeenSplits(f, members, k);
    StrictSuffix(members, k);
    SameSet(f, members, 0, k);
    var kept := Kept(candidates, members[k].Header());
    forall x ensures multiset(kept)[x] == multiset(members[k..])[x] {
      KeptCounts(candidates, members[k].Header(), x);
      SuffixCounts(members, k, x);
    }
    assert multiset(kept) == multiset(members[k..]);
    SortNewestSorts(kept);
    SortedIsUnique(SortNewest(kept), members[k..]);
  }

  /**
   * While an output and a file it absorbed are both there, discovery refuses to resolve the set rather than
   * guess which of them holds a block.
   */
  lemma {:induction false} OutputBesideSourceIsRefused(lower: seq<BackupFile>, plan: MergePlan, o: BackupFile,
        found: seq<BackupFile>, m: BackupFile)
    requires Mergeable(lower, plan) && IsMergedFile(lower, plan, o)
    requires m in lower && m.Header().fileNumber in plan.absorbed && m != o
    requires o in found && m in found
    ensures !DisjointClaims(found)
  {
    hide Mergeable, IsMergedFile, Claims;
    MergedClaims(lower, plan, o);
    OwnNumberIsClaimed(m);
    var i :| 0 <= i < |found| && found[i] == o;
    var j :| 0 <= j < |found| && found[j] == m;
    var n := m.Header().fileNumber;
    assert n in Claims(found[i]) && n in Claims(found[j]);
    assert if i < j then !(Claims(found[i]) !! Claims(found[j])) else !(Claims(found[j]) !! Claims(found[i]));
  }
}
