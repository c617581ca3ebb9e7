/** A run that goes well in every respect, under any output name, the lock's own included. */
module LockName {
  import opened Wrappers
  import opened Reader
  import opened Set
  import opened Plan
  import opened Write
  import opened Output
  import opened Reread
  import opened Merge
  import opened Runs
  import opened Readback
  import opened Commit
  import opened Cli
  import opened Encoding
  import opened SmallMerges
  import opened Hazards

  /** The merge of the Full 0 and the incremental 1, which lie at the paths "0" and "1", into a directory of its own. */
  ghost function RunOf(name: string): Run {
    Run(Libraries(), PairSet(false), PairPlan(false), "d", name, false, "temp",
        map["1" := PairSet(false)[0].image, "0" := PairSet(false)[1].image])
  }

  /** A local disk with just enough room where nothing goes wrong. */
  function Smooth(): World {
    var moved := RenameReply(true, None);
    World(true, NoFault, true, true, true, false, |PairImage(false)|, true, Flushed, Local,
          [moved, moved, moved, moved], true, {})
  }

  lemma {:induction false} NamesDiffer(name: string)
    ensures Join("d", name) != "0" && Join("d", name) != "1" && Join("d", name) != "temp"
  {
    assert Join("d", name)[1] == '/' && "temp"[1] == 'e';
  }

  lemma {:induction false} RunIsValid(name: string)
    ensures RunOf(name).members != [] && RunOf(name).Valid()
    ensures RunOf(name).Out() !in RunOf(name).before && RunOf(name).LockPath() !in RunOf(name).before
  {
    hide PairSet, PairSpecs, PairPlan, IsParsed, Libraries, Join, IsPlan, Claims, AreFiles, WellFormed, DisjointClaims,
      TakesNewest, IncrementsFollow;
    PairFiles(false);
    PairHeaders(false);
    PairIsMergeable(false);
    NamesDiffer(name);
    NamesDiffer(LOCK_NAME);
  }

  lemma {:induction false} RunHasOutput(name: string)
    ensures RunOf(name).members != [] && RunOf(name).IsOutput(PairImage(false))
  {
    hide PairSet, PairSpecs, PairPlan, Libraries, OutputWritten, DisksOrdered, PairImage, SourcesOf, IsParsed, Claims;
    PairHeaders(false);
    PairIsWritten(false, RunOf(name).Stamp());
  }

  lemma {:induction false} OutputIsAccepted(name: string)
    ensures RunOf(name).Accepts(PairImage(false))
  {
    hide PairSet, PairSpecs, PairPlan, Libraries, PassesCheck, PairImage, IsParsed, Mergeable, Run.IsOutput,
      AuxEndsList, Claims, WellFormed, IncrementsFollow;
    NoAuxiliary();
    PairHeaders(false);
    LibrariesRoundTrip();
    PairIsMergeable(false);
    RunHasOutput(name);
    ReadBackAccepts(RunOf(name), PairImage(false));
  }

  /** With such a disk the run succeeds under every name; its sources are deleted. */
  lemma {:induction false} RunSucceeds(name: string)
    ensures RunOf(name).members != [] && RunOf(name).Valid() && Succeeds(RunOf(name), true, Smooth())
  {
    RunIsValid(name);
    RunHasOutput(name);
    OutputIsAccepted(name);
    hide PairSet, PairPlan, Libraries, PairImage, Run.Accepts, Run.IsOutput, Run.Valid, Run.Out, Run.LockPath;
    assert Reached(Smooth().replies, 0) && Smooth().replies[0].performed;
    assert Lands(Smooth().mount, Smooth().replies);
    assert Commits(RunOf(name), Smooth(), |PairImage(false)|);
  }

  /**
   * A run whose output is to be named like the lock: it succeeds, and by the contract of `WriteMerge` leaves
   * neither the output nor the files it absorbed.
   */
  lemma {:induction false} LockNameLosesOutput()
    ensures var run := RunOf(LOCK_NAME);
            && run.members != [] && run.Valid() && run.Out() == run.LockPath()
            && Succeeds(run, true, Smooth()) && run.LockPath() !in Smooth().stuck
            && run.Absorbed() == {"0", "1"}
  {
    hide *;
    RunSucceeds(LOCK_NAME);
    LockIsOutput();
    SmoothDeletes();
    PairFiles(false);
    PairHeaders(false);
    PairSpecFacts(false);
    BothAbsorbed(PairSet(false));
  }

  lemma {:induction false} BothAbsorbed(members: seq<BackupFile>)
    requires |members| == 2 && members[0].path == "1" && members[1].path == "0"
    requires members[0].Header().fileNumber == 1 && members[1].Header().fileNumber == 0
    ensures AbsorbedPaths(members, {0, 1}) == {"0", "1"}
  {
    assert members[0] in members && members[1] in members;
  }

  lemma {:induction false} LockIsOutput()
    ensures RunOf(LOCK_NAME).Out() == RunOf(LOCK_NAME).LockPath() && RunOf(LOCK_NAME).members == PairSet(false)
    ensures RunOf(LOCK_NAME).Absorbed() == AbsorbedPaths(PairSet(false), PairPlan(false).absorbed)
  {
    hide PairSet, PairPlan, AbsorbedPaths, Libraries, Join;
  }

  lemma {:induction false} SmoothDeletes()
    ensures RunOf(LOCK_NAME).LockPath() !in Smooth().stuck
  {
    hide PairSet, PairPlan, Libraries, PairImage;
  }
}
