/** What the next run finds: discovery over the disk that a successful, deleting run leaves. */
module Outcome {
  import opened Wrappers
  import opened Bytes
  import opened Json
  import opened Reader
  import opened Set
  import opened Plan
  import opened Merge
  import opened Runs
  import opened Complete
  import opened Readback
  import opened Discovery
  import opened Commit
  import opened Cli

  // ----- the disk and its listing -----

  /** This file is on the disk, as parsed. */
  ghost predicate Parses(f: Foreign, files: Files, m: BackupFile) {
    m.path in files && ParseFile(f, m.path, files[m.path]) == Ok(m)
  }

  /** The files of the one set on this disk are exactly these. */
  ghost predicate HoldsSet(f: Foreign, files: Files, members: seq<BackupFile>)
    requires members != []
  {
    forall m: BackupFile :: m.Header().imageId == members[0].Header().imageId ==>
      (Parses(f, files, m) <==> m in members)
  }

  /** The candidates a scan of the whole disk yields: every file that parses, once, in any order. */
  ghost predicate IsListing(f: Foreign, files: Files, candidates: seq<BackupFile>) {
    forall m :: multiset(candidates)[m] == if Parses(f, files, m) then 1 else 0
  }

  lemma {:induction false} CountOnce(members: seq<BackupFile>, x: BackupFile)
    requires StrictlyNewestFirst(members)
    ensures multiset(members)[x] == if x in members then 1 else 0
  {
    if members != [] {
      var rest := members[1..];
      assert members == [members[0]] + rest;
      forall i, j | 0 <= i < j < |rest| ensures rest[i].Header().fileNumber > rest[j].Header().fileNumber {
        assert rest[i] == members[i + 1] && rest[j] == members[j + 1];
      }
      CountOnce(rest, x);
      forall i | 0 <= i < |rest| ensures rest[i] != members[0] {
        assert rest[i] == members[i + 1];
      }
    }
  }

  lemma {:induction false} ListingHasSet(f: Foreign, files: Files, members: seq<BackupFile>,
        candidates: seq<BackupFile>)
    requires members != [] && HoldsSet(f, files, members) && IsListing(f, files, candidates)
    requires StrictlyNewestFirst(members)
    ensures ListsSet(candidates, members)
  {
    hide Parses, StrictlyNewestFirst;
    forall x: BackupFile | x.Header().imageId == members[0].Header().imageId
      ensures multiset(candidates)[x] == multiset(members)[x]
    {
      CountOnce(members, x);
    }
  }

  // ----- what a finished run leaves -----

  /** Every name but the output and the absorbed ones is as it was. */
  lemma {:induction false} FinishedFiles(run: Run, files: Files)
    requires run.members != [] && run.Apart() && IsFinished(run, true, files) && run.LockPath() !in files
    ensures forall p :: p in files <==> p == run.Out() || (p in run.before && p !in run.Absorbed())
    ensures forall p :: p in files && p != run.Out() ==> files[p] == run.before[p]
  {
    hide Run.IsOutput, Run.Accepts, AbsorbedPaths, Join;
    var left := (run.before - run.Absorbed())[run.Out() := files[run.Out()]];
    assert files - {run.LockPath()} == left;
    forall p ensures p in files <==> p == run.Out() || (p in run.before && p !in run.Absorbed()) {
      assert p in files <==> p in files - {run.LockPath()};
      assert p in left <==> p == run.Out() || (p in run.before && p !in run.Absorbed());
    }
    forall p | p in files && p != run.Out() ensures files[p] == run.before[p] {
      assert (files - {run.LockPath()})[p] == files[p] && left[p] == run.before[p];
    }
  }

  /** A member stays on the disk exactly when it is not absorbed. */
  lemma {:induction false} MemberStays(run: Run, m: BackupFile)
    requires run.Valid() && m in run.members
    ensures m.path in run.Absorbed() <==> m.Header().fileNumber in run.plan.absorbed
  {
    hide IsPlan, DisjointClaims, IsParsed, Join, Run.SourcesThere;
    var i :| 0 <= i < |run.members| && run.members[i] == m;
    forall x | x in run.members && x.path == m.path ensures x == m {
      var j :| 0 <= j < |run.members| && run.members[j] == x;
    }
  }

  lemma {:induction false} SurvivorsAre(members: seq<BackupFile>, absorbed: set<u16>, m: BackupFile)
    ensures m in Survivors(members, absorbed) <==> m in members && m.Header().fileNumber !in absorbed
  {
    if members != [] {
      SurvivorsAre(members[1..], absorbed, m);
    }
  }

  /** The set on the disk is what the merge makes of it. */
  lemma {:induction false} FinishedHoldsSet(run: Run, above: seq<BackupFile>, files: Files, o: BackupFile)
    requires run.members != [] && run.Valid() && run.Apart() && LeftAlone(run, above)
    requires IsFinished(run, true, files) && run.LockPath() !in files
    requires HoldsSet(run.f, run.before, above + run.members)
    requires o.path == run.Out() && Parses(run.f, files, o)
    requires o.Header().imageId == (above + run.members)[0].Header().imageId
    requires After(above, run.members, run.plan, o)[0].Header().imageId == o.Header().imageId
    ensures HoldsSet(run.f, files, After(above, run.members, run.plan, o))
  {
    hide Run.Valid, IsFinished, ParseFile, AbsorbedPaths, Join, Survivors, Skipped, Older;
    FinishedFiles(run, files);
    SurvivorsInTwo(run.members, run.plan);
    var after := After(above, run.members, run.plan, o);
    forall m: BackupFile | m.Header().imageId == o.Header().imageId ensures Parses(run.f, files, m) <==> m in after {
      SurvivorsAre(run.members, run.plan.absorbed, m);
      if m in run.members {
        MemberStays(run, m);
        SourcesApart(run);
      }
    }
  }

  // ----- the increments of what is left -----

  /** A member of the range down to To that the merge does not take has a lower increment than From. */
  lemma {:induction false} BelowRange(lower: seq<BackupFile>, plan: MergePlan, m: BackupFile)
    requires DisjointClaims(lower) && IsPlan(lower, plan) && m in lower && m.Header().fileNumber !in plan.absorbed
    requires lower != [] && m.Header().incrementNumber <= lower[0].Header().incrementNumber
    ensures m.Header().incrementNumber < plan.outIncrementNumber
  {
    hide PartitionsPlanned, RulesHold, Flattens, IsClosure, Claims;
    OwnNumberIsClaimed(m);
    AbsorbedByIncrement(lower, plan, m, m.Header().fileNumber);
  }

  lemma {:induction false} SplicedStaysBelow(members: seq<BackupFile>, k: nat, n: nat, o: BackupFile,
        next: seq<BackupFile>, j: nat)
    requires Spliced(members, k, n, o, next) && k <= j < k + n
    requires o.Header().incrementNumber == members[j].Header().incrementNumber
    requires forall i :: 0 <= i < |members| ==>
               members[i].Header().incrementNumber <= members[0].Header().incrementNumber
    requires k == 0 ==> forall i :: n <= i < |members| ==>
               members[i].Header().incrementNumber <= o.Header().incrementNumber
    ensures next != [] && SeenFrom(next, 0)
  {
    forall i | 0 <= i < |next| ensures next[i].Header().incrementNumber <= next[0].Header().incrementNumber {
      SplicedAt(members, k, n, o, next, i);
      SplicedAt(members, k, n, o, next, 0);
    }
  }

  lemma {:induction false} AllBelowRange(members: seq<BackupFile>, plan: MergePlan, o: BackupFile, n: nat)
    requires members != [] && DisjointClaims(members) && IsPlan(members, plan) && Claims(o) == plan.absorbed
    requires o.Header().incrementNumber == plan.outIncrementNumber
    requires forall x, y :: 0 <= x < |members| && y in Claims(members[x]) ==> (y in Claims(o) <==> x < n)
    requires forall i :: 0 <= i < |members| ==>
               members[i].Header().incrementNumber <= members[0].Header().incrementNumber
    ensures forall i :: n <= i < |members| ==> members[i].Header().incrementNumber <= o.Header().incrementNumber
  {
    hide *;
    forall i | n <= i < |members| ensures members[i].Header().incrementNumber <= o.Header().incrementNumber {
      OwnNumberIsClaimed(members[i]);
      assert members[i] in members && members[i].Header().fileNumber !in plan.absorbed;
      BelowRange(members, plan, members[i]);
    }
  }

  /** Seen from the newest file, the set is still seen whole. */
  lemma {:induction false} StillSeen(f: Foreign, members: seq<BackupFile>, k: nat, plan: MergePlan, o: BackupFile)
    requires k < |members| && WellFormed(f, members) && AcceptedAt(f, members, k, plan, o) && SeenFrom(members, 0)
    ensures SeenFrom(NextSet(members, k, plan, o), 0)
  {
    hide *;
    SeenParts(f, members, k, plan, o);
    var n, j := StepParts(f, members, k, plan, o);
    StepIsMergeable(f, members, k, plan, o);
    OutputHeader(members[k..], plan, o);
    SpliceBounds(members, k, n, o, NextSet(members, k, plan, o));
    if k == 0 {
      assert members[k..] == members;
      AllBelowRange(members, plan, o, n);
    }
    SplicedStaysBelow(members, k, n, o, NextSet(members, k, plan, o), j);
  }

  lemma {:induction false} OutputHeader(lower: seq<BackupFile>, plan: MergePlan, o: BackupFile)
    requires Mergeable(lower, plan) && IsMergedFile(lower, plan, o)
    ensures o.Header().incrementNumber == plan.outIncrementNumber && Claims(o) == plan.absorbed
    ensures DisjointClaims(lower) && IsPlan(lower, plan)
  {
    MergedClaims(lower, plan, o);
  }

  lemma {:induction false} SeenParts(f: Foreign, members: seq<BackupFile>, k: nat, plan: MergePlan, o: BackupFile)
    requires k < |members| && AcceptedAt(f, members, k, plan, o) && SeenFrom(members, 0)
    ensures forall i :: 0 <= i < |members| ==>
              members[i].Header().incrementNumber <= members[0].Header().incrementNumber
  {
    hide IsPlan, IsMergedFile, IsParsed, TakesNewest;
  }

  // ----- the theorem -----

  /** The run merges the files from To down of a set that is on the disk, and that a scan from its newest file sees. */
  ghost predicate MergesOn(run: Run, above: seq<BackupFile>)
    requires run.members != []
  {
    var all := above + run.members;
    && run.Valid() && run.Apart() && run.f.RoundTrips() && LeftAlone(run, above)
    && WellFormed(run.f, all) && SeenFrom(all, 0) && SeenFrom(all, |above|)
    && TakesNewest(run.members, run.plan.absorbed) && HoldsSet(run.f, run.before, all)
  }

  lemma {:induction false} FinishedIsStep(run: Run, above: seq<BackupFile>, files: Files) returns (o: BackupFile)
    requires run.members != [] && MergesOn(run, above) && IsFinished(run, true, files)
    ensures AcceptedAt(run.f, above + run.members, |above|, run.plan, o)
    ensures |above| < |above + run.members|
    ensures NextSet(above + run.members, |above|, run.plan, o) == After(above, run.members, run.plan, o)
    ensures o.path == run.Out() && Parses(run.f, files, o)
  {
    hide WellFormed, IsFinished, HoldsSet, IsPlan, IsMergedFile, Run.IsOutput, Run.Accepts, SeenFrom, Join,
      TakesNewest, LeftAlone, ParseFile, Survivors;
    var all, k := above + run.members, |above|;
    assert all[..k] == above && all[k..] == run.members;
    FinishedOutput(run, files);
    ReadBackIsMerged(run, files[run.Out()]);
    o := ParseFile(run.f, run.Out(), files[run.Out()]).value;
  }

  lemma {:induction false} FinishedOutput(run: Run, files: Files)
    requires run.members != [] && run.Valid() && IsFinished(run, true, files)
    requires TakesNewest(run.members, run.plan.absorbed)
    ensures run.Out() in files && run.IsOutput(files[run.Out()])
    ensures PassesCheck(run.f, run.plan, run.Out(), files[run.Out()])
    ensures Mergeable(run.members, run.plan) && IsParsed(run.f, run.members[0])
  {
    hide Run.IsOutput, PassesCheck, IsPlan, TakesNewest, DisjointClaims, Join, AbsorbedPaths, IsParsed, Run.Verifies;
    assert run.members[0] in run.members;
  }

  /**
   * After a run that succeeded and deleted what it absorbed, a scan as of the newest file finds exactly the set the
   * theorems speak of: the newer files, the output, the survivors. It is well-formed, it restores the old image if
   * and only if all that stays in use keeps its meaning, and discovery accepts it if and only if it stays complete.
   */
  lemma {:induction false} NextRunFinds(run: Run, above: seq<BackupFile>, files: Files, candidates: seq<BackupFile>)
    returns (o: BackupFile)
    requires run.members != [] && MergesOn(run, above) && IsFinished(run, true, files) && run.LockPath() !in files
    requires IsListing(run.f, files, candidates)
    ensures var all, after := above + run.members, After(above, run.members, run.plan, o);
            && |above| < |all| && after != [] && WellFormed(run.f, after)
            && SortNewest(Kept(candidates, after[0].Header())) == after
            && (SameImage(all, after) <==> AllStay(all, |above|, run.plan, o))
            && (IsComplete(all) ==> (IsComplete(after) <==> StaysComplete(all, |above|, run.plan)))
  {
    hide *;
    o := FinishedIsStep(run, above, files);
    var all, k, after := above + run.members, |above|, After(above, run.members, run.plan, o);
    RunParts(run, above);
    StepKeepsWellFormed(run.f, all, k, run.plan, o);
    StillSeen(run.f, all, k, run.plan, o);
    WellFormedIsDisjoint(run.f, after);
    SameId(run, above, o);
    FinishedHoldsSet(run, above, files, o);
    WellFormedParts(run.f, after);
    ListingHasSet(run.f, files, after, candidates);
    DiscoveryFindsSuffix(run.f, after, 0, candidates);
    assert after[0..] == after;
    StepKeepsImageIff(run.f, all, k, run.plan, o);
    if IsComplete(all) {
      CompleteAfterIff(run.f, all, k, run.plan, o);
    }
  }

  lemma {:induction false} RunParts(run: Run, above: seq<BackupFile>)
    requires run.members != [] && MergesOn(run, above)
    ensures run.Valid() && run.Apart() && LeftAlone(run, above) && WellFormed(run.f, above + run.members)
    ensures SeenFrom(above + run.members, 0) && HoldsSet(run.f, run.before, above + run.members)
  {
    hide Run.Valid, Run.Apart, LeftAlone, WellFormed, SeenFrom, TakesNewest, HoldsSet;
  }

  /** The output belongs to the set. */
  lemma {:induction false} SameId(run: Run, above: seq<BackupFile>, o: BackupFile)
    requires run.members != [] && |above| < |above + run.members|
    requires WellFormed(run.f, above + run.members)
    requires AcceptedAt(run.f, above + run.members, |above|, run.plan, o)
    requires NextSet(above + run.members, |above|, run.plan, o) == After(above, run.members, run.plan, o)
    ensures o.Header().imageId == (above + run.members)[0].Header().imageId
    ensures After(above, run.members, run.plan, o) != []
    ensures After(above, run.members, run.plan, o)[0].Header().imageId == o.Header().imageId
  {
    hide *;
    var all, k, after := above + run.members, |above|, After(above, run.members, run.plan, o);
    StepKeepsWellFormed(run.f, all, k, run.plan, o);
    StepIsMergeable(run.f, all, k, run.plan, o);
    OutputShape(run.f, all[k..], run.plan, o);
    WellFormedIsDisjoint(run.f, after);
    WellFormedIsDisjoint(run.f, all);
    WellFormedParts(run.f, all);
    SameSet(run.f, all, 0, k);
    assert all[k..] == run.members;
    OutputInAfter(above, run.members, run.plan, o);
    WellFormedParts(run.f, after);
    SameSet(run.f, after, 0, k);
  }

  lemma {:induction false} OutputInAfter(above: seq<BackupFile>, members: seq<BackupFile>, plan: MergePlan,
        o: BackupFile)
    requires Mergeable(members, plan) && TakesNewest(members, plan.absorbed)
    ensures |above| < |After(above, members, plan, o)| && After(above, members, plan, o)[|above|] == o
  {
    hide Skipped, Older, Mergeable, TakesNewest;
    NothingSkipped(members, plan);
  }
}
