/** A set whose increments do not follow its file numbers, and an accepted merge that loses a file's last word. */
module OrderHazards {
  import opened Bytes
  import opened Index
  import opened Json
  import opened Reader
  import opened Set
  import opened Plan
  import opened Restore
  import opened Merge
  import opened Runs
  import opened Encoding
  import opened SmallSets
  import opened SmallMerges
  import opened NumberHazards

  /**
   * Full 0 with increment 1, an incremental 1 with increment 0 that stores a block at position 0, and an
   * incremental 2 that empties that position. The merge of 0 and 2 takes increments 1 and 2, and leaves file 1.
   */
  function OrderSpecs(): (specs: seq<Spec>)
    ensures |specs| == 3 && forall i :: 0 <= i < 3 ==> specs[i].Valid()
  {
    [Spec("2", DocOf(2, 2, "inc", true, 0), [], Deltas([Delta(HOLE, 0)]), false),
     Spec("1", DocOf(1, 0, "inc", true, 2), [10, 20], Deltas([Delta(SecondByte(1), 0)]), false),
     Spec("0", DocOf(0, 1, "full", false, 0), [], Full([]), false)]
  }

  function OrderSet(): seq<BackupFile> {
    hide *;
    [OrderSpecs()[0].File(), OrderSpecs()[1].File(), OrderSpecs()[2].File()]
  }

  const EMPTIED: PartitionPlan := PartitionPlan(0, 0, [], [Hole], [])

  function OrderPlan(): MergePlan {
    PlanOf(OrderSpecs(), 2, {0, 2}, EMPTIED)
  }

  function OrderOutput(): BackupFile {
    OutputFile(OrderSpecs()[0].doc, OrderPlan(), Full([HOLE]))
  }

  /** What is left: by its number the output is now older than file 1. */
  function OrderAfter(): seq<BackupFile> {
    [OrderSpecs()[1].File(), OrderOutput()]
  }

  lemma {:induction false} OrderFiles()
    ensures AreFiles(OrderSet(), OrderSpecs()) && |OrderSet()| == |OrderSpecs()| == 3
    ensures OrderSpecs()[0].Valid() && OrderSet()[0] == OrderSpecs()[0].File()
  {
    hide IsFile, Tiny;
    FileIs(OrderSpecs()[0]);
    FileIs(OrderSpecs()[1]);
    FileIs(OrderSpecs()[2]);
  }

  lemma {:induction false} OrderSpecFacts()
    ensures |OrderSpecs()| == 3 && PairFits(OrderSpecs(), 2) && IsRange(OrderSpecs(), 1, 2, {0, 2})
    ensures OrderSpecs()[0].Number() == 2 && OrderSpecs()[1].Number() == 1 && OrderSpecs()[2].Number() == 0
    ensures OrderSpecs()[0].Increment() == 2 && OrderSpecs()[1].Increment() == 0 && OrderSpecs()[2].Increment() == 1
    ensures OrderSpecs()[0].blocks == Deltas([Delta(HOLE, 0)]) && OrderSpecs()[2].blocks == Full([])
    ensures OrderSpecs()[1].blocks == Deltas([Delta(SecondByte(1), 0)]) && OrderSpecs()[1].data == [10, 20]
    ensures OrderPlan() == PlanOf(OrderSpecs(), 2, {0, 2}, EMPTIED)
    ensures OrderPlan().kind.SyntheticFull? && OrderPlan().absorbed == {0, 2} && OrderPlan().outFileNumber == 0
    ensures OrderPlan().from == 0
  {
    hide TinyEstimate;
    var specs := OrderSpecs();
    assert specs[0].Number() == 2 && specs[2].Number() == 0;
  }

  lemma {:induction false} OrderChain()
    ensures |OrderSet()| == 3 && Chain(OrderSet(), 0, 0) == [HOLE] && ReservedOf(OrderSet()[0], 0, 0) == []
  {
    hide OrderSet, OrderSpecs, AreFiles, IsFile, IsFull, PairFits, IsRange, PlanOf, Chain, OrderPlan, FullEntriesOf,
      DeltasOf, ReservedOf;
    OrderFiles();
    OrderSpecFacts();
    var specs := OrderSpecs();
    AreFilesAt(OrderSet(), specs, 0);
    FileFacts(OrderSet()[0], specs[0]);
    FilesChainAll(OrderSet(), specs);
    OneDelta([], SecondByte(1));
    OneDelta([SecondByte(1)], HOLE);
    assert specs[1..][0] == specs[1] && specs[1..][1..][0] == specs[2];
    assert ChainOf(specs[1..][1..]) == [] && ChainOf(specs[1..]) == [SecondByte(1)];
  }

  lemma {:induction false} OrderIsSmallMerge()
    ensures |OrderSpecs()| == 3 && IsShort(OrderSpecs()[0].doc)
    ensures OrderOutput() == OutputFile(OrderSpecs()[0].doc, OrderPlan(), Full([HOLE]))
    ensures IsSmallMerge(OrderSet(), OrderSpecs(), 2, OrderPlan(), Full([HOLE]), 2)
  {
    hide IsFile, AreFiles, PairFits, IsRange, OrderSet, TinyEstimate, Tiny, OutputFile, Chain, ReservedOf;
    OrderFiles();
    OrderSpecFacts();
    OrderChain();
  }

  lemma {:induction false} OrderIsWritten(stamp: Stamp)
    ensures WellFormed(Libraries(), OrderSet()) && IsPlan(OrderSet(), OrderPlan())
    ensures IsMergedFile(OrderSet(), OrderPlan(), OrderOutput()) && IsParsed(Libraries(), OrderOutput())
    ensures IsWritten(OrderSet(), OrderPlan(), stamp, OrderOutput().image)
  {
    hide *;
    OrderIsSmallMerge();
    MergeIsWritten(OrderSet(), OrderSpecs(), 2, OrderPlan(), Full([HOLE]), 2, stamp);
  }

  lemma {:induction false} OrderHeaders()
    ensures |OrderSet()| == 3 && SeenFrom(OrderSet(), 0) && !TakesNewest(OrderSet(), {0, 2})
    ensures OrderAfter()[0] == OrderSet()[1] && IsFile(OrderAfter()[0], OrderSpecs()[1])
    ensures forall i :: 0 <= i < 3 ==> Claims(OrderSet()[i]) == {OrderSpecs()[i].Number()}
  {
    hide OrderSet, OrderAfter, OrderSpecs, AreFiles, IsFile, IsFull, PairFits, IsRange, PlanOf, OrderPlan, Claims;
    OrderFiles();
    OrderSpecFacts();
    OrderRest();
    FilesFacts(OrderSet(), OrderSpecs());
    AreFilesAt(OrderSet(), OrderSpecs(), 1);
  }

  lemma {:induction false} OrderRest()
    ensures |OrderSpecs()| == 3 && OrderAfter() == [OrderSet()[1], OrderOutput()]
  {
    hide Tiny, OutputFile;
  }

  lemma {:induction false} OrderWasComplete()
    ensures IsComplete(OrderSet())
  {
    hide OrderSet, OrderSpecs, AreFiles, PairFits, IsRange, PlanOf, OrderPlan, IsComplete;
    OrderFiles();
    OrderSpecFacts();
    forall n: u16 | n <= 2 ensures HasNumber(OrderSpecs(), n) {
      assert OrderSpecs()[2 - n].Number() == n;
    }
    FilesComplete(OrderSet(), OrderSpecs(), 2);
  }

  /** What the output is, without its bytes. */
  lemma {:induction false} OrderOutputFacts()
    ensures OrderOutput().Header().fileNumber == 0 && OrderOutput().Header().imageId == "set" && IsFull(OrderOutput())
    ensures FullEntriesOf(OrderOutput(), 0, 0) == [HOLE] && Claims(OrderOutput()) == {0, 2}
    ensures OrderOutput().Shape() == [1]
  {
    OrderIsSmallMerge();
    OrderSpecFacts();
    hide IsFile, AreFiles, PairFits, IsRange, OrderSet, TinyEstimate, Tiny, OutputFile, PartitionPlanned, Claims,
      PlanOf, OrderPlan, IsParsed, Libraries, OrderOutput, OutputDoc;
    OutputFacts(OrderSpecs()[0], OrderPlan(), Full([HOLE]));
  }

  lemma {:induction false} OrderAfterIsWellFormed(stamp: Stamp)
    ensures WellFormed(Libraries(), OrderAfter())
  {
    hide OrderSet, OrderAfter, OrderSpecs, OrderPlan, OrderOutput, AreFiles, PairFits, IsRange, PlanOf, Claims,
      SeenFrom, TakesNewest, IsPlan, IsMergedFile, Libraries, IsParsed, IsWritten, ShapeOf, IsFull, FullEntriesOf;
    OrderIsWritten(stamp);
    OrderSpecFacts();
    OrderHeaders();
    OrderRest();
    OrderOutputFacts();
    var m := OrderAfter()[0];
    FileFacts(m, OrderSpecs()[1]);
    FileClaims(m, OrderSpecs()[1]);
    GatherTwo(m, OrderOutput());
  }

  lemma {:induction false} GatherTwo(a: BackupFile, b: BackupFile)
    requires IsParsed(Libraries(), a) && IsParsed(Libraries(), b) && a.Header().imageId == b.Header().imageId
    requires a.Header().fileNumber > b.Header().fileNumber && Claims(a) !! Claims(b) && a.Shape() == b.Shape()
    ensures WellFormed(Libraries(), [a, b])
  {
    hide IsParsed, Libraries, Claims;
  }

  /** Before, the position is a hole; afterwards it holds the block of file 1. */
  lemma {:induction false} OrderChanges()
    ensures OrderSet() != [] && RestoredPartition(OrderSet(), 0, 0) != RestoredPartition(OrderAfter(), 0, 0)
  {
    hide OrderSet, OrderSpecs, OrderPlan, OrderOutput, AreFiles, IsFile, IsFull, PairFits, IsRange, PlanOf, Claims,
      SeenFrom, TakesNewest, FullEntriesOf, DeltasOf, ReservedOf, OrderAfter;
    OrderChain();
    OrderHeaders();
    OrderRest();
    OrderSpecFacts();
    OrderOutputFacts();
    var after, o := OrderAfter(), OrderOutput();
    FileFacts(after[0], OrderSpecs()[1]);
    assert after[1..] == [o] && Chain([o], 0, 0) == [HOLE];
    OneDelta([HOLE], SecondByte(1));
    assert Chain(after, 0, 0) == [SecondByte(1)];
    NotAbsent(after, SecondByte(1));
    assert RestoredPartition(OrderSet(), 0, 0).blocks[0] == Absent;
    assert RestoredPartition(after, 0, 0).blocks[0] == ContentOf(after, SecondByte(1));
  }

  lemma {:induction false} NotAbsent(members: seq<BackupFile>, e: Element)
    requires !e.IsHole()
    ensures ContentOf(members, e) != Absent
  {
  }

  /**
   * Without increments that follow file numbers an accepted merge can leave a file in the middle of its range. That
   * file is then newer than the output, by number, and what a newer file said is lost. Everything the program
   * checks holds, before and after; the plan does not take the newest files.
   */
  lemma {:induction false} SkippedFileChangesImage(stamp: Stamp)
    ensures WellFormed(Libraries(), OrderSet()) && IsComplete(OrderSet()) && Libraries().RoundTrips()
    ensures SeenFrom(OrderSet(), 0) && IsPlan(OrderSet(), OrderPlan())
    ensures IsMergedFile(OrderSet(), OrderPlan(), OrderOutput()) && IsParsed(Libraries(), OrderOutput())
    ensures IsWritten(OrderSet(), OrderPlan(), stamp, OrderOutput().image)
    ensures !TakesNewest(OrderSet(), OrderPlan().absorbed) && WellFormed(Libraries(), OrderAfter())
    ensures OrderAfter() == After([], OrderSet(), OrderPlan(), OrderOutput())
    ensures OrderSet() != [] && RestoredPartition(OrderSet(), 0, 0) != RestoredPartition(OrderAfter(), 0, 0)
  {
    hide *;
    LibrariesRoundTrip();
    OrderIsWritten(stamp);
    OrderWasComplete();
    OrderSpecFacts();
    OrderHeaders();
    OrderAfterIsWellFormed(stamp);
    OrderRest();
    OrderSurvivor();
    OrderChanges();
  }

  lemma {:induction false} OrderSurvivor()
    ensures OrderAfter() == After([], OrderSet(), OrderPlan(), OrderOutput())
  {
    hide OrderSet, OrderSpecs, OrderPlan, OrderAfter, OrderOutput, AreFiles, IsFile, IsFull, PairFits, IsRange, PlanOf,
      Claims;
    OrderFiles();
    OrderSpecFacts();
    OrderRest();
    FilesFacts(OrderSet(), OrderSpecs());
    var members := OrderSet();
    assert NumberAt(members, 0) == 2;
    assert members[..2] == [members[0], members[1]] && members[2..] == [members[2]];
    assert members[..2][1..] == [members[1]] && members[1..][1..] == [members[2]];
  }
}
