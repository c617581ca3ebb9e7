/** Sets whose entries name a number of a newer file, or one that no file claims: the check accepts them. */
module NumberHazards {
  import opened Wrappers
  import opened Bytes
  import opened Index
  import Block
  import opened Json
  import opened Reader
  import opened Set
  import opened Plan
  import opened Merge
  import opened Preserve
  import opened Complete
  import opened Runs
  import Plain
  import opened Encoding
  import opened Smallest
  import opened SmallSets
  import opened SmallMerges

  // ----- a Full that names its own block, or one of the incremental above it -----

  /** The second byte of file `n`. */
  function SecondByte(n: u16): Element {
    Element(1, Zeros(16), 1, n)
  }

  /** Full 0 and the incrementals 1 and 2, which change nothing. Files 0 and 1 store the same two bytes. */
  function OldSpecs(n: u16): (specs: seq<Spec>)
    ensures |specs| == 3 && forall i :: 0 <= i < 3 ==> specs[i].Valid()
  {
    [Spec("2", DocOf(2, 2, "inc", true, 0), [], Deltas([]), false),
     Spec("1", DocOf(1, 1, "inc", true, 2), [10, 20], Deltas([]), false),
     Spec("0", DocOf(0, 0, "full", false, 2), [10, 20], Full([SecondByte(n)]), false)]
  }

  function OldSet(n: u16): seq<BackupFile> {
    hide *;
    [OldSpecs(n)[0].File(), OldSpecs(n)[1].File(), OldSpecs(n)[2].File()]
  }

  /** The incremental merge of 1 and 2. */
  function OldPlan(): MergePlan {
    PlanOf(OldSpecs(0), 1, {1, 2}, PartitionPlan(0, 0, [], [], []))
  }

  function OldOutput(): BackupFile {
    OutputFile(OldSpecs(0)[0].doc, OldPlan(), Deltas([]))
  }

  lemma {:induction false} OldFiles(n: u16)
    ensures AreFiles(OldSet(n), OldSpecs(n)) && |OldSet(n)| == |OldSpecs(n)| == 3
    ensures OldSpecs(n)[0].Valid() && OldSet(n)[0] == OldSpecs(n)[0].File()
  {
    hide IsFile, Tiny;
    var specs := OldSpecs(n);
    FileIs(specs[0]);
    FileIs(specs[1]);
    FileIs(specs[2]);
  }

  lemma {:induction false} OldMakes()
    ensures MakesBlocks(OldPlan(), Deltas([])) && OldPlan().kind.IncrementalMerge? && OldPlan().absorbed == {1, 2}
  {
    hide Encode;
    assert DeltaElements([]) == [];
  }

  lemma {:induction false} OldPartition(n: u16)
    ensures |OldSet(n)| == 3
    ensures PartitionPlanned(OldSet(n), OldSet(n)[0], IncrementalMerge, {1, 2}, 0, 0, PartitionPlan(0, 0, [], [], []))
    ensures forall i :: !ChangedBy(OldSet(n), {1, 2}, 0, 0, i)
  {
    OldFiles(n);
    hide OldSet, IsFile, Chain;
    var members, specs := OldSet(n), OldSpecs(n);
    FileFacts(members[0], specs[0]);
    FileFacts(members[1], specs[1]);
    FileFacts(members[2], specs[2]);
    forall i ensures !ChangedBy(members, {1, 2}, 0, 0, i) {
      assert forall m :: m in members && m.Header().fileNumber in {1, 2} ==> DeltasOf(m, 0, 0) == [];
    }
  }

  /** What the specifications say, once and for all. */
  lemma {:induction false} OldSpecFacts(n: u16)
    ensures |OldSpecs(n)| == 3 && PairFits(OldSpecs(n), 1) && IsRange(OldSpecs(n), 1, 2, {1, 2})
    ensures OldSpecs(n)[1].Increment() == 1 && OldSpecs(n)[0].Increment() == 2
    ensures OldSpecs(n)[0].blocks == OldSpecs(n)[1].blocks == Deltas([])
    ensures OldSpecs(n)[2].blocks == Full([SecondByte(n)])
    ensures OldSpecs(n)[0].Number() == 2 && OldSpecs(n)[1].Number() == 1 && OldSpecs(n)[2].Number() == 0
    ensures Follow(OldSpecs(n))
    ensures OldSpecs(n)[1].data == [10, 20]
    ensures OldPlan() == PlanOf(OldSpecs(n), 1, {1, 2}, PartitionPlan(0, 0, [], [], []))
  {
    hide TinyEstimate;
    var specs := OldSpecs(n);
    assert specs[0].Number() == 2 && specs[1].Number() == 1;
  }

  lemma {:induction false} OldIsSmallMerge(n: u16)
    ensures |OldSpecs(n)| == 3 && IsShort(OldSpecs(n)[0].doc) && OldPlan().kind.DeltaIndex()
    ensures OldOutput() == OutputFile(OldSpecs(n)[0].doc, OldPlan(), Deltas([]))
    ensures IsSmallMerge(OldSet(n), OldSpecs(n), 1, OldPlan(), Deltas([]), 2)
  {
    hide IsFile, AreFiles, PairFits, IsRange, PartitionPlanned, MakesBlocks, OldSet, TinyEstimate, Tiny, ChangedBy,
      Encode, OutputFile;
    OldFiles(n);
    OldMakes();
    OldPartition(n);
    OldSpecFacts(n);
  }

  lemma {:induction false} OldIsAccepted(n: u16, stamp: Stamp)
    ensures WellFormed(Libraries(), OldSet(n)) && IncrementsFollow(OldSet(n))
    ensures AcceptedAt(Libraries(), OldSet(n), 0, OldPlan(), OldOutput())
    ensures IsWritten(OldSet(n), OldPlan(), stamp, OldOutput().image)
  {
    hide *;
    OldIsSmallMerge(n);
    OldSpecFacts(n);
    MergeIsAccepted(OldSet(n), OldSpecs(n), 1, OldPlan(), Deltas([]), 2, stamp);
  }

  lemma {:induction false} OldOwner(n: u16)
    ensures |OldSet(n)| == 3 && Owner(OldSet(n), 1) == Some(OldSet(n)[1])
  {
    hide OldSet, OldSpecs, AreFiles, IsFull, Claims, PairFits, IsRange, PlanOf, WellFormed, Owner;
    OldFiles(n);
    OldSpecFacts(n);
    FilesFacts(OldSet(n), OldSpecs(n));
    FilesAreWellFormed(OldSet(n), OldSpecs(n));
    OwnerIs(OldSet(n), 1, 1);
  }

  lemma {:induction false} OldWasComplete(n: u16)
    requires n <= 1
    ensures IsComplete(OldSet(n))
  {
    hide OldSet, OldSpecs, AreFiles, PairFits, IsRange, PlanOf, Follow, IsComplete;
    OldFiles(n);
    OldSpecFacts(n);
    forall c: u16 | c <= 2 ensures HasNumber(OldSpecs(n), c) {
      assert OldSpecs(n)[2 - c].Number() == c;
    }
    FilesComplete(OldSet(n), OldSpecs(n), 2);
  }

  /** The output holds no block; at the offset of file 1's block lies a byte of its own first header. */
  lemma {:induction false} OldOutputByte()
    ensures |OldOutput().image| > 2 && OldOutput().image[1] == 0
  {
    hide Encode, Block.Header.ToBytes, IndexBytes, ImageOf;
    OldMakes();
    var doc := OutputDoc(OldSpecs(0)[0].doc, OldPlan(), Deltas([]));
    TinyFits(doc, [], Deltas([]));
    Pieces(Encode(doc), [], Entries(Deltas([])), false);
    ListByte();
    assert OldOutput().image[0..|LIST.ToBytes()|][1] == LIST.ToBytes()[1];
  }

  lemma {:induction false} ListByte()
    ensures LIST.ToBytes()[1] == 0
  {
  }

  lemma {:induction false} OldSurvivor()
    ensures Chain(Older(OldSet(1), OldPlan()), 0, 0) == [SecondByte(1)]
  {
    hide OldSet, OldSpecs, AreFiles, IsFile, IsFull, PairFits, IsRange, PlanOf, Survivors, Chain, OldPlan, Older,
      Skipped, IsPlan, IncrementsFollow, DisjointClaims, WellFormed, TakesNewest;
    OldFiles(1);
    OldSpecFacts(1);
    OldMakes();
    OldTakesNewest();
    var members := OldSet(1);
    FilesFacts(members, OldSpecs(1));
    NothingSkipped(members, OldPlan());
    SurvivorsAreSuffix(members, {1, 2}, 2);
    assert members[2..] == [members[2]];
    AreFilesAt(members, OldSpecs(1), 2);
    FilesChain([members[2]], [OldSpecs(1)[2]]);
  }

  lemma {:induction false} OldTakesNewest()
    ensures Mergeable(OldSet(1), OldPlan()) && TakesNewest(OldSet(1), OldPlan().absorbed)
  {
    hide *;
    OldIsSmallMerge(1);
    OldFiles(1);
    FilesAreWellFormed(OldSet(1), OldSpecs(1));
    MergeIsPlan(OldSet(1), OldSpecs(1), 1, OldPlan(), Deltas([]), 2);
    OldSpecFacts(1);
    FilesFollow(OldSet(1), OldSpecs(1));
    FollowingTakesNewest(OldSet(1), OldPlan());
    GatherMergeable(OldSet(1), OldPlan());
  }

  lemma {:induction false} GatherMergeable(members: seq<BackupFile>, plan: MergePlan)
    requires members != [] && DisjointClaims(members) && IsPlan(members, plan)
    ensures Mergeable(members, plan)
  {
    hide IsPlan, DisjointClaims;
  }

  /** The Full's entry is in use as of file 2, and is moved. */
  lemma {:induction false} OldInUse()
    ensures Unwritten([], OldSet(1), OldPlan(), 0, 0, 0) == Some(SecondByte(1)) && IsMoved(OldPlan(), SecondByte(1))
  {
    hide OldSet, OldPlan, ChangedBy, Older, Chain;
    OldMakes();
    OldPartition(1);
    OldSurvivor();
  }

  /** Its byte was a 20 and is a zero in the output. */
  lemma {:induction false} OldChanges()
    ensures !Stays(OldSet(1), OldOutput(), SecondByte(1))
  {
    hide OldSet, OldSpecs, OldOutput, AreFiles, IsFull, Owner, PairFits, IsRange, PlanOf, Bare, IsParsed, Claims;
    OldFiles(1);
    OldSpecFacts(1);
    OldOwner(1);
    OldOutputByte();
    var members, o := OldSet(1), OldOutput();
    AreFilesAt(members, OldSpecs(1), 1);
    assert members[1].image[1] == [10, 20][1] && members[1].image[1..2][0] == 20 && o.image[1..2][0] == 0;
  }

  lemma {:induction false} OldMoves()
    ensures |OldSet(1)| == 3 && !AllStay(OldSet(1), 0, OldPlan(), OldOutput())
  {
    hide OldSet, OldSpecs, OldPlan, OldOutput, AreFiles, IsFull, PairFits, IsRange, PlanOf, IsFile, Stays, IsMoved,
      Unwritten, ReservedStay;
    OldFiles(1);
    OldInUse();
    OldChanges();
    var members := OldSet(1);
    AreFilesAt(members, OldSpecs(1), 0);
    FileFacts(members[0], OldSpecs(1)[0]);
    assert members[0..] == members && members[..0] == [];
    assert !EntriesStay([], members, OldPlan(), OldOutput(), 0, 0);
  }

  /**
   * A merge at the newest file, with nothing above it, that changes the image. The Full's entry names number 1,
   * the check is content because file 1 claims it, the incremental merge takes 1 and 2 and leaves the Full as it is.
   */
  lemma {:induction false} OlderEntryChangesImage(stamp: Stamp)
    ensures WellFormed(Libraries(), OldSet(1)) && IncrementsFollow(OldSet(1)) && IsComplete(OldSet(1))
    ensures Libraries().RoundTrips() && AcceptedAt(Libraries(), OldSet(1), 0, OldPlan(), OldOutput())
    ensures IsWritten(OldSet(1), OldPlan(), stamp, OldOutput().image)
    ensures OldSet(1) != [] && !SameImage(OldSet(1), NextSet(OldSet(1), 0, OldPlan(), OldOutput()))
  {
    hide *;
    LibrariesRoundTrip();
    OldIsAccepted(1, stamp);
    OldWasComplete(1);
    OldMoves();
    StepKeepsImageIff(Libraries(), OldSet(1), 0, OldPlan(), OldOutput());
  }

  /** With the entry naming the Full itself, the same merge meets every hypothesis of the theorems on plain sets. */
  lemma {:induction false} IncrementalMergeExists(stamp: Stamp)
    ensures Libraries().RoundTrips() && OldPlan().kind.IncrementalMerge?
    ensures WellFormed(Libraries(), OldSet(0)) && Plain.IsPlain(OldSet(0)) && IsComplete(OldSet(0))
    ensures AcceptedAt(Libraries(), OldSet(0), 0, OldPlan(), OldOutput())
    ensures IsWritten(OldSet(0), OldPlan(), stamp, OldOutput().image)
  {
    hide *;
    LibrariesRoundTrip();
    OldMakes();
    OldIsAccepted(0, stamp);
    OldWasComplete(0);
    OldIsPlain();
  }

  lemma {:induction false} OldIsPlain()
    ensures Plain.IsPlain(OldSet(0))
  {
    hide OldSet, OldSpecs, AreFiles, IsFile, IsFull, Claims, HasEntry, PairFits, IsRange, PlanOf;
    OldFiles(0);
    OldSpecFacts(0);
    var members, specs := OldSet(0), OldSpecs(0);
    FilesFacts(members, specs);
    forall i, e | 0 <= i < |members| && HasEntry(members[i].disks, e) ensures e.fileNumber in Claims(members[i]) {
      AreFilesAt(members, specs, i);
      EntryInSpec(members[i], specs[i], e);
      assert DeltaElements([]) == [];
    }
  }

  // ----- a delta that names a number nobody claims -----

  /** An empty Full 0, and an incremental 1 whose one delta names the number 9. */
  function LooseSpecs(): (specs: seq<Spec>)
    ensures |specs| == 2 && forall i :: 0 <= i < 2 ==> specs[i].Valid()
  {
    [Spec("1", DocOf(1, 1, "inc", true, 0), [], Deltas([Delta(SecondByte(9), 0)]), false),
     Spec("0", DocOf(0, 0, "full", false, 0), [], Full([]), false)]
  }

  function LooseSet(): seq<BackupFile> {
    hide *;
    [LooseSpecs()[0].File(), LooseSpecs()[1].File()]
  }

  function LoosePart(): PartitionPlan {
    PartitionPlan(0, 0, [], [Keep(SecondByte(9))], [])
  }

  function LoosePlan(): MergePlan {
    PlanOf(LooseSpecs(), 1, {0, 1}, LoosePart())
  }

  function LooseOutput(): BackupFile {
    OutputFile(LooseSpecs()[0].doc, LoosePlan(), Full([SecondByte(9)]))
  }

  lemma {:induction false} LooseFiles()
    ensures AreFiles(LooseSet(), LooseSpecs()) && |LooseSet()| == |LooseSpecs()| == 2
    ensures LooseSpecs()[0].Valid() && LooseSet()[0] == LooseSpecs()[0].File()
  {
    hide IsFile, Tiny;
    FileIs(LooseSpecs()[0]);
    FileIs(LooseSpecs()[1]);
  }

  lemma {:induction false} LooseMakes()
    ensures MakesBlocks(LoosePlan(), Full([SecondByte(9)]))
    ensures LoosePlan().kind.SyntheticFull? && LoosePlan().absorbed == {0, 1} && LoosePlan().outFileNumber == 0
  {
    hide Encode;
  }

  lemma {:induction false} LooseChain()
    ensures |LooseSet()| == 2 && Chain(LooseSet(), 0, 0) == [SecondByte(9)] && ReservedOf(LooseSet()[0], 0, 0) == []
  {
    LooseFiles();
    hide LooseSet, AreFiles, IsFile, IsFull;
    AreFilesAt(LooseSet(), LooseSpecs(), 0);
    AreFilesAt(LooseSet(), LooseSpecs(), 1);
    FilesChain(LooseSet(), LooseSpecs());
    FileFacts(LooseSet()[0], LooseSpecs()[0]);
    OneDelta([], SecondByte(9));
    assert LooseSpecs()[1..] == [LooseSpecs()[1]];
  }

  /** One delta at the first position replaces or adds the first entry. */
  lemma {:induction false} OneDelta(blocks: seq<Element>, e: Element)
    requires |blocks| <= 1
    ensures Replay(blocks, [Delta(e, 0)]) == [e]
  {
    var deltas := [Delta(e, 0)];
    assert deltas[..0] == [] && GrownLength(|blocks|, deltas[..0]) == |blocks|;
    assert GrownLength(|blocks|, deltas) == 1 && LastWriter(deltas, 0) == Some(e);
  }

  lemma {:induction false} LooseSpecFacts()
    ensures |LooseSpecs()| == 2 && PairFits(LooseSpecs(), 1) && IsRange(LooseSpecs(), 0, 1, {0, 1})
    ensures LooseSpecs()[1].Increment() == 0 == LooseSpecs()[1].Number()
    ensures LooseSpecs()[0].Increment() == 1 == LooseSpecs()[0].Number()
    ensures LooseSpecs()[0].blocks == Deltas([Delta(SecondByte(9), 0)]) && LooseSpecs()[1].blocks == Full([])
    ensures Follow(LooseSpecs())
    ensures LoosePlan() == PlanOf(LooseSpecs(), 1, {0, 1}, LoosePart())
  {
    hide TinyEstimate;
    var specs := LooseSpecs();
    assert specs[0].Number() == 1 && specs[1].Number() == 0;
  }

  lemma {:induction false} LoosePartition()
    ensures |LooseSet()| == 2
    ensures PartitionPlanned(LooseSet(), LooseSet()[0], SyntheticFull, {0, 1}, 0, 0, LoosePart())
  {
    hide LooseSet, Chain, ReservedOf;
    LooseChain();
  }

  lemma {:induction false} LooseIsSmallMerge()
    ensures |LooseSpecs()| == 2 && IsShort(LooseSpecs()[0].doc) && !LoosePlan().kind.DeltaIndex()
    ensures LooseOutput() == OutputFile(LooseSpecs()[0].doc, LoosePlan(), Full([SecondByte(9)]))
    ensures IsSmallMerge(LooseSet(), LooseSpecs(), 1, LoosePlan(), Full([SecondByte(9)]), 1)
  {
    hide IsFile, AreFiles, PairFits, IsRange, PartitionPlanned, MakesBlocks, LooseSet, TinyEstimate, Tiny, Encode,
      OutputFile;
    LooseFiles();
    LooseMakes();
    LoosePartition();
    LooseSpecFacts();
  }

  lemma {:induction false} LooseIsAccepted(stamp: Stamp)
    ensures WellFormed(Libraries(), LooseSet())
    ensures AcceptedAt(Libraries(), LooseSet(), 0, LoosePlan(), LooseOutput())
    ensures IsWritten(LooseSet(), LoosePlan(), stamp, LooseOutput().image)
  {
    hide *;
    LooseIsSmallMerge();
    LooseSpecFacts();
    MergeIsAccepted(LooseSet(), LooseSpecs(), 1, LoosePlan(), Full([SecondByte(9)]), 1, stamp);
  }

  lemma {:induction false} LooseUnclaimed()
    ensures Owner(LooseSet(), 9) == None
  {
    hide LooseSet, LooseSpecs, AreFiles, IsFull, Claims, PairFits, IsRange, PlanOf, Follow;
    LooseFiles();
    LooseSpecFacts();
    FilesFacts(LooseSet(), LooseSpecs());
  }

  lemma {:induction false} LooseWasComplete()
    ensures IsComplete(LooseSet())
  {
    hide LooseSet, LooseSpecs, AreFiles, PairFits, IsRange, PlanOf, Follow, IsComplete;
    LooseFiles();
    LooseSpecFacts();
    forall c: u16 | c <= 1 ensures HasNumber(LooseSpecs(), c) {
      assert LooseSpecs()[1 - c].Number() == c;
    }
    FilesComplete(LooseSet(), LooseSpecs(), 1);
  }

  /** The entry becomes part of the base, where the check looks for the first time. */
  lemma {:induction false} LooseIsKept()
    ensures |LooseSet()| == 2 && !KeptAreOwned(LooseSet(), 0, LoosePlan())
  {
    hide LooseSet, LooseSpecs, LoosePlan, AreFiles, IsFull, Claims, Chain, Owner, IsFile;
    LooseFiles();
    LooseChain();
    LooseUnclaimed();
    LooseMakes();
    var members := LooseSet();
    AreFilesAt(members, LooseSpecs(), 0);
    FileFacts(members[0], LooseSpecs()[0]);
    assert members[0..] == members && members[..0] == [];
    assert IsResolved(members, 0, 0, SecondByte(9));
    assert KeepsNumber(members, LoosePlan(), 9);
  }

  /**
   * A merge at the newest file of a complete set after which the set is refused: the delta's entry, which no check
   * looked at, is an entry of the new base. Nothing it restored is lost.
   */
  lemma {:induction false} LooseEntryBreaksCompleteness(stamp: Stamp)
    ensures WellFormed(Libraries(), LooseSet()) && IsComplete(LooseSet()) && Libraries().RoundTrips()
    ensures StepAt(Libraries(), LooseSet(), 0, LoosePlan(), LooseOutput())
    ensures IsWritten(LooseSet(), LoosePlan(), stamp, LooseOutput().image)
    ensures LooseSet() != [] && !IsComplete(NextSet(LooseSet(), 0, LoosePlan(), LooseOutput()))
  {
    LooseIsKept();
    hide *;
    LibrariesRoundTrip();
    LooseIsAccepted(stamp);
    LooseWasComplete();
    LooseIsKept();
    StaysCompleteMeans(LooseSet(), 0, LoosePlan());
    CompleteAfterIff(Libraries(), LooseSet(), 0, LoosePlan(), LooseOutput());
    LooseStays();
    GatherStep();
  }

  lemma {:induction false} GatherStep()
    requires AcceptedAt(Libraries(), LooseSet(), 0, LoosePlan(), LooseOutput())
    requires LooseSet() != [] && AllStay(LooseSet(), 0, LoosePlan(), LooseOutput())
    ensures StepAt(Libraries(), LooseSet(), 0, LoosePlan(), LooseOutput())
  {
    hide AcceptedAt, AllStay, Libraries, LooseSet, LoosePlan, LooseOutput;
  }

  lemma {:induction false} LooseStays()
    ensures LooseSet() != [] && AllStay(LooseSet(), 0, LoosePlan(), LooseOutput())
  {
    LooseFiles();
    LooseMakes();
    hide LooseSet, LoosePlan, LooseOutput, AreFiles, Decided, ReservedOf;
    assert LooseSet()[..0] == [];
    assert forall d, p, i: nat :: Decided([], d, p, i) == None by { DecidedByNone(); }
  }

  lemma {:induction false} DecidedByNone()
    ensures forall d: nat, p: nat, i: nat :: Decided([], d, p, i) == None
  {
  }
}
