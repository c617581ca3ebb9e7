/** Concrete sets, down to their bytes, that the program accepts and that show why the theorems have conditions. */
module Hazards {
  import opened Wrappers
  import opened Bytes
  import opened Index
  import opened Json
  import opened Reader
  import opened Set
  import opened Plan
  import opened Write
  import opened Output
  import opened Reread
  import opened Restore
  import opened Merge
  import opened Preserve
  import opened Complete
  import opened Runs
  import Plain
  import opened Encoding
  import opened Smallest
  import opened SmallSets
  import opened SmallMerges

  // ----- a gap that only matters once the base is older -----

  /**
   * Full 0, a Differential 2 that made number 1 unneeded, and the incrementals 3 and 4. File 1 has been
   * deleted. The merge takes 0 to 3, with 4 left above it.
   */
  function GapSpecs(): (specs: seq<Spec>)
    ensures |specs| == 4 && forall i :: 0 <= i < 4 ==> specs[i].Valid()
  {
    [Spec("4", DocOf(4, 4, "inc", true, 0), [], Deltas([]), false),
     Spec("3", DocOf(3, 3, "inc", true, 0), [], Deltas([]), false),
     Spec("2", DocOf(2, 2, "diff", false, 0), [], Full([]), false),
     Spec("0", DocOf(0, 0, "full", false, 0), [], Full([]), false)]
  }

  function GapSet(): seq<BackupFile> {
    hide *;
    [GapSpecs()[0].File(), GapSpecs()[1].File(), GapSpecs()[2].File(), GapSpecs()[3].File()]
  }

  function GapPlan(): MergePlan {
    PlanOf(GapSpecs()[1..], 2, {0, 2, 3}, PartitionPlan(0, 0, [], [], []))
  }

  function GapOutput(): BackupFile {
    OutputFile(GapSpecs()[1].doc, GapPlan(), Full([]))
  }

  lemma {:induction false} GapFiles()
    ensures AreFiles(GapSet(), GapSpecs()) && |GapSet()| == |GapSpecs()| == 4
    ensures GapSpecs()[1].Valid() && GapSet()[1] == GapSpecs()[1].File()
  {
    hide IsFile, Tiny;
    FileIs(GapSpecs()[0]);
    FileIs(GapSpecs()[1]);
    FileIs(GapSpecs()[2]);
    FileIs(GapSpecs()[3]);
  }

  lemma {:induction false} GapSpecFacts()
    ensures |GapSpecs()| == 4 && Follow(GapSpecs())
    ensures forall i :: 0 <= i < 4 ==> GapSpecs()[i].Number() == GapSpecs()[i].Increment()
    ensures GapSpecs()[0].Number() == 4 && GapSpecs()[1].Number() == 3 && GapSpecs()[2].Number() == 2
    ensures GapSpecs()[3].Number() == 0 && GapSpecs()[1].data == [] && !GapSpecs()[1].aux
    ensures GapSpecs()[0].blocks == GapSpecs()[1].blocks == Deltas([])
    ensures GapSpecs()[2].blocks == GapSpecs()[3].blocks == Full([])
    ensures PairFits(GapSpecs()[1..], 2) && IsRange(GapSpecs()[1..], 0, 3, {0, 2, 3})
    ensures GapPlan() == PlanOf(GapSpecs()[1..], 2, {0, 2, 3}, PartitionPlan(0, 0, [], [], []))
    ensures GapPlan().kind.SyntheticFull? && GapPlan().absorbed == {0, 2, 3} && GapPlan().outFileNumber == 0
    ensures IsShort(GapSpecs()[1].doc)
  {
    hide TinyEstimate;
    var lower := GapSpecs()[1..];
    assert lower[0].Number() == 3 && lower[1].Number() == 2 && lower[2].Number() == 0;
  }

  lemma {:induction false} GapChain()
    ensures |GapSet()| == 4 && Chain(GapSet()[1..], 0, 0) == [] && ReservedOf(GapSet()[1], 0, 0) == []
  {
    hide GapSet, GapSpecs, GapPlan, AreFiles, IsFile, IsFull, PairFits, IsRange, PlanOf, Chain, Follow;
    GapFiles();
    GapSpecFacts();
    var lower := GapSpecs()[1..];
    FilesSuffix(GapSet(), GapSpecs(), 1);
    AreFilesAt(GapSet(), GapSpecs(), 1);
    FileFacts(GapSet()[1], GapSpecs()[1]);
    FilesChainAll(GapSet()[1..], lower);
    assert ChainOf(lower[1..]) == [];
    ReplayOfNothing([]);
  }

  lemma {:induction false} GapIsSmallMerge()
    ensures |GapSet()| == |GapSpecs()| == 4
    ensures IsShort(GapSpecs()[1].doc) && GapOutput() == OutputFile(GapSpecs()[1].doc, GapPlan(), Full([]))
    ensures IsSmallMerge(GapSet()[1..], GapSpecs()[1..], 2, GapPlan(), Full([]), 1)
  {
    hide GapSet, GapSpecs, AreFiles, IsFile, PairFits, IsRange, Chain, ReservedOf, TinyEstimate, Tiny, Follow;
    GapFiles();
    GapSpecFacts();
    GapChain();
    FilesSuffix(GapSet(), GapSpecs(), 1);
    assert MakesBlocks(GapPlan(), Full([]));
  }

  lemma {:induction false} GapIsAccepted(stamp: Stamp)
    ensures |GapSet()| == 4 && WellFormed(Libraries(), GapSet())
    ensures AcceptedAt(Libraries(), GapSet(), 1, GapPlan(), GapOutput())
    ensures IsWritten(GapSet()[1..], GapPlan(), stamp, GapOutput().image)
  {
    hide *;
    GapFiles();
    GapSpecFacts();
    GapIsSmallMerge();
    FilesAreWellFormed(GapSet(), GapSpecs());
    FilesFollow(GapSet(), GapSpecs());
    GapIncrements();
    assert GapSpecs()[1..][0] == GapSpecs()[1];
    MergeIsWritten(GapSet()[1..], GapSpecs()[1..], 2, GapPlan(), Full([]), 1, stamp);
    FollowingIsAccepted(Libraries(), GapSet(), 1, GapPlan(), GapOutput());
  }

  lemma {:induction false} GapIncrements()
    ensures |GapSet()| == 4 && GapSet()[0].Header().incrementNumber > GapSet()[1].Header().incrementNumber
    ensures GapSet()[0].Header().fileNumber == 4 && GapSet()[1].Header().fileNumber == 3
    ensures GapSet()[2].Header().fileNumber == 2 && forall i :: 0 <= i < 4 ==> 1 !in Claims(GapSet()[i])
    ensures 4 in Claims(GapSet()[0]) && 3 in Claims(GapSet()[1]) && 2 in Claims(GapSet()[2])
  {
    hide GapSet, GapSpecs, GapPlan, AreFiles, IsFull, PairFits, IsRange, PlanOf, Claims, Follow;
    GapFiles();
    GapSpecFacts();
    FilesFacts(GapSet(), GapSpecs());
  }

  lemma {:induction false} GapNamesNothing()
    ensures |GapSet()| == 4 && Causal(GapSet()) && Causal(GapSet()[1..]) && NamesNone(GapSet()[..1], GapPlan().absorbed)
  {
    hide GapSet, GapPlan, Claims, HasEntry;
    forall i: nat, e | i < 4 ensures |GapSet()| == 4 && !HasEntry(GapSet()[i].disks, e) {
      GapHasNoEntry(i, e);
    }
    GapHasNoEntry(0, HOLE);
  }

  lemma {:induction false} GapHasNoEntry(i: nat, e: Element)
    requires i < 4
    ensures |GapSet()| == 4 && !HasEntry(GapSet()[i].disks, e)
  {
    hide *;
    GapFiles();
    GapSpecFacts();
    NoElements();
    AreFilesAt(GapSet(), GapSpecs(), i);
    if HasEntry(GapSet()[i].disks, e) {
      EntryInSpec(GapSet()[i], GapSpecs()[i], e);
    }
  }

  lemma {:induction false} NoElements()
    ensures DeltaElements([]) == []
  {
  }

  lemma {:induction false} GapIsStep(stamp: Stamp)
    ensures StepAt(Libraries(), GapSet(), 1, GapPlan(), GapOutput())
  {
    hide Libraries, GapSet, GapSpecs, GapPlan, GapOutput, AcceptedAt, WellFormed, Causal, NamesNone, NewerStay, AllStay,
      NoForward, IsWritten;
    GapIsAccepted(stamp);
    GapNamesNothing();
    WellFormedIsDisjoint(Libraries(), GapSet());
    CausalIsNoForward(GapSet());
    forall d: nat, p: nat ensures NewerStay(GapSet()[..1], GapSet()[1..], GapPlan(), GapOutput(), d, p) {
      NamingNoneStays(GapSet()[..1], GapSet()[1..], GapPlan(), GapOutput(), d, p);
    }
    BackwardStepKeepsImageIff(Libraries(), GapSet(), 1, GapPlan(), GapOutput());
  }

  lemma {:induction false} GapWasComplete()
    ensures |GapSet()| == 4 && IsComplete(GapSet()) && IsComplete(GapSet()[1..])
  {
    hide GapSet, GapSpecs, GapPlan, AreFiles, PairFits, IsRange, PlanOf, Follow, IsComplete;
    GapFiles();
    GapSpecFacts();
    FilesSuffix(GapSet(), GapSpecs(), 1);
    forall n: u16 | 2 <= n <= 4 ensures HasNumber(GapSpecs(), n) {
      assert GapSpecs()[4 - n].Number() == n;
    }
    var lower := GapSpecs()[1..];
    forall n: u16 | 2 <= n <= 3 ensures HasNumber(lower, n) {
      assert lower[3 - n].Number() == n;
    }
    FilesComplete(GapSet(), GapSpecs(), 2);
    FilesComplete(GapSet()[1..], lower, 1);
  }

  /** The number 1, between the output's and the newest, has no owner, and the condition says so beforehand. */
  lemma {:induction false} GapIsThere()
    ensures |GapSet()| == 4 && !NoGap(GapSet(), 1, GapPlan())
  {
    hide GapSet, GapSpecs, GapPlan, AreFiles, PairFits, IsRange, PlanOf, Claims, IsFile, Follow;
    GapFiles();
    GapSpecFacts();
    GapIncrements();
    FilesFacts(GapSet(), GapSpecs());
    var all := GapSet();
    assert all[..1] == [all[0]] && !IsFull(all[..1][0]);
    assert BaseIndex(all[..1]) == None;
    assert Owner(all, 1) == None;
  }

  /**
   * The merge of a complete chain that leaves an incomplete one: the output's number 0 makes the base older,
   * and the number 1 between it and the newest file has no owner. The plan is accepted and its output written,
   * and the image is kept; only the completeness check will refuse what is left.
   */
  lemma {:induction false} GapBreaksCompleteness(stamp: Stamp)
    ensures |GapSet()| == 4 && WellFormed(Libraries(), GapSet()) && Libraries().RoundTrips()
    ensures IsComplete(GapSet()) && IsComplete(GapSet()[1..])
    ensures StepAt(Libraries(), GapSet(), 1, GapPlan(), GapOutput())
    ensures IsWritten(GapSet()[1..], GapPlan(), stamp, GapOutput().image)
    ensures !IsComplete(NextSet(GapSet(), 1, GapPlan(), GapOutput()))
  {
    hide *;
    LibrariesRoundTrip();
    GapIsAccepted(stamp);
    GapIsStep(stamp);
    GapWasComplete();
    GapNamesNothing();
    GapIsThere();
    CausalAfterIff(Libraries(), GapSet(), 1, GapPlan(), GapOutput());
  }

  // ----- a Full and an incremental -----

  /** The one stored block: the second byte of file 0. */
  const STORED: Element := Element(1, Zeros(16), 1, 0)

  /** Where the merge puts it: at the start of the output, which takes number 0. */
  const MOVED: Element := Element(0, Zeros(16), 1, 0)

  const PADDED: seq<byte> := [20] + Zeros(4095)

  /** The empty incremental 1, with an `$AUXDATA` block ahead of its document or without, and the Full 0. */
  function PairSpecs(aux: bool): (specs: seq<Spec>)
    ensures |specs| == 2 && forall i :: 0 <= i < 2 ==> specs[i].Valid()
  {
    [Spec("1", DocOf(1, 1, "inc", true, 0), [], Deltas([]), aux),
     Spec("0", DocOf(0, 0, "full", false, 2), [10, 20], Full([STORED]), false)]
  }

  function PairSet(aux: bool): seq<BackupFile> {
    hide *;
    [PairSpecs(aux)[0].File(), PairSpecs(aux)[1].File()]
  }

  const PAIR: PartitionPlan := PartitionPlan(0, 0, [], [Copy(STORED)], [])

  /** The merge of 0 and 1. */
  function PairPlan(aux: bool): MergePlan {
    PlanOf(PairSpecs(aux), 1, {0, 1}, PAIR)
  }

  function PairMergedDoc(aux: bool): (doc: Doc)
    ensures IsTiny(doc, PADDED, Full([MOVED]))
  {
    MergedIsShort(PairSpecs(aux)[0].doc, PairPlan(aux), 4096);
    MergedDoc(PairSpecs(aux)[0].doc, PairPlan(aux), 4096)
  }

  function PairOutput(): BackupFile {
    Tiny("out", PairMergedDoc(false), PADDED, Full([MOVED]), false)
  }

  lemma {:induction false} PairFiles(aux: bool)
    ensures AreFiles(PairSet(aux), PairSpecs(aux)) && |PairSet(aux)| == |PairSpecs(aux)| == 2
    ensures PairSpecs(aux)[0].Valid() && PairSet(aux)[0] == PairSpecs(aux)[0].File()
    ensures PairSet(aux)[0].path == "1" && PairSet(aux)[1].path == "0" && |PairSet(aux)[0].image| < I64_LIMIT
  {
    hide Bare, IsParsed, Claims, Tiny;
    FileIs(PairSpecs(aux)[0]);
    FileIs(PairSpecs(aux)[1]);
  }

  lemma {:induction false} PairSpecFacts(aux: bool)
    ensures |PairSpecs(aux)| == 2 && Follow(PairSpecs(aux))
    ensures PairFits(PairSpecs(aux), 1) && IsRange(PairSpecs(aux), 0, 1, {0, 1})
    ensures PairSpecs(aux)[0].Number() == 1 == PairSpecs(aux)[0].Increment()
    ensures PairSpecs(aux)[1].Number() == 0 == PairSpecs(aux)[1].Increment()
    ensures PairSpecs(aux)[0].blocks == Deltas([]) && PairSpecs(aux)[1].blocks == Full([STORED])
    ensures PairSpecs(aux)[0].data == [] && PairSpecs(aux)[1].data == [10, 20] && PairSpecs(aux)[0].aux == aux
    ensures PairPlan(aux) == PlanOf(PairSpecs(aux), 1, {0, 1}, PAIR) && KindOf(PairSpecs(aux)[1]).SyntheticFull?
    ensures PairPlan(aux).kind.SyntheticFull? && PairPlan(aux).absorbed == {0, 1} && PairPlan(aux).outFileNumber == 0
  {
    hide TinyEstimate;
    var specs := PairSpecs(aux);
    assert specs[0].Number() == 1 && specs[1].Number() == 0;
  }

  lemma {:induction false} PairHeaders(aux: bool)
    ensures |PairSet(aux)| == 2 && PairSet(aux)[0].Header().fileNumber == 1 && PairSet(aux)[1].Header().fileNumber == 0
    ensures |PairSet(aux)[0].disks| == 1 && |PairSet(aux)[0].disks[0].partitions| == 1
    ensures Claims(PairSet(aux)[0]) == {1} && Claims(PairSet(aux)[1]) == {0} && [10, 20] <= PairSet(aux)[1].image
    ensures IsParsed(Libraries(), PairSet(aux)[0]) && IsParsed(Libraries(), PairSet(aux)[1])
  {
    hide PairSet, PairSpecs, PairPlan, AreFiles, IsFull, Claims, PairFits, IsRange, PlanOf, Follow, IsParsed, Libraries;
    PairFiles(aux);
    PairSpecFacts(aux);
    FilesFacts(PairSet(aux), PairSpecs(aux));
    AreFilesAt(PairSet(aux), PairSpecs(aux), 0);
    AreFilesAt(PairSet(aux), PairSpecs(aux), 1);
    FileFacts(PairSet(aux)[0], PairSpecs(aux)[0]);
  }

  lemma {:induction false} PairOutputFacts()
    ensures Bare(PairOutput(), PairMergedDoc(false), Full([MOVED])) && IsParsed(Libraries(), PairOutput())
    ensures PairMergedDoc(false).header == PatchedHeader(PairSpecs(false)[0].doc.header, PairPlan(false), 4096)
    ensures PairMergedDoc(false).settings == PairSpecs(false)[0].doc.settings
    ensures PairMergedDoc(false).disks == PairSpecs(false)[0].doc.disks
    ensures PADDED <= PairOutput().image && Claims(PairOutput()) == {0, 1}
  {
    hide Tiny, Claims, IsParsed, Libraries, Encode;
    TinyIs("out", PairMergedDoc(false), PADDED, Full([MOVED]), false);
    PairOutputClaims();
  }

  lemma {:induction false} PairOutputClaims()
    ensures Claims(PairOutput()) == {0, 1}
  {
    hide Encode, ImageOf;
    PatchedClaims(PairSpecs(false)[0].doc.header, PairPlan(false), 4096);
  }

  lemma {:induction false} PairEntries(aux: bool, i: nat, e: Element)
    requires |PairSet(aux)| == 2 && i < 2 && HasEntry(PairSet(aux)[i].disks, e)
    ensures i == 1 && e == STORED
  {
    hide PairSet, PairSpecs, PairPlan, AreFiles, IsFile, PairFits, IsRange, PlanOf, Follow, HasEntry;
    PairFiles(aux);
    PairSpecFacts(aux);
    AreFilesAt(PairSet(aux), PairSpecs(aux), i);
    EntryInSpec(PairSet(aux)[i], PairSpecs(aux)[i], e);
    assert DeltaElements([]) == [];
  }

  lemma {:induction false} PairIsPlain()
    ensures Plain.IsPlain(PairSet(false))
  {
    hide PairSet, PairSpecs, PairPlan, AreFiles, IsFull, Claims, HasEntry, PairFits, IsRange, PlanOf, Follow, IsParsed;
    PairFiles(false);
    PairSpecFacts(false);
    PairHeaders(false);
    FilesFacts(PairSet(false), PairSpecs(false));
    forall i, e | 0 <= i < 2 && HasEntry(PairSet(false)[i].disks, e) ensures e.fileNumber in Claims(PairSet(false)[i]) {
      PairEntries(false, i, e);
    }
  }

  lemma {:induction false} PairWasComplete()
    ensures IsComplete(PairSet(false))
  {
    hide PairSet, PairSpecs, PairPlan, AreFiles, PairFits, IsRange, PlanOf, Follow, IsComplete;
    PairFiles(false);
    PairSpecFacts(false);
    forall n: u16 | n <= 1 ensures HasNumber(PairSpecs(false), n) {
      assert PairSpecs(false)[1 - n].Number() == n;
    }
    FilesComplete(PairSet(false), PairSpecs(false), 1);
  }

  lemma {:induction false} PairPartition(aux: bool)
    ensures |PairSet(aux)| == 2 && PartitionPlanned(PairSet(aux), PairSet(aux)[0], SyntheticFull, {0, 1}, 0, 0, PAIR)
  {
    hide PairSet, PairSpecs, PairPlan, AreFiles, IsFile, IsFull, PairFits, IsRange, PlanOf, Follow, Chain;
    PairFiles(aux);
    PairSpecFacts(aux);
    AreFilesAt(PairSet(aux), PairSpecs(aux), 0);
    FileFacts(PairSet(aux)[0], PairSpecs(aux)[0]);
    FilesChainAll(PairSet(aux), PairSpecs(aux));
    ReplayOfNothing([STORED]);
    assert ChainOf(PairSpecs(aux)[1..]) == [STORED];
  }

  lemma {:induction false} PairEstimate(aux: bool)
    ensures |PairSet(aux)| == |PairSpecs(aux)| == 2
    ensures MetadataEstimate(PairSet(aux)[0], [PAIR], SyntheticFull)
         == TinyEstimate(PairSpecs(aux)[0].doc, PAIR, aux, SyntheticFull)
  {
    hide TinyEstimate, MetadataEstimate, Tiny;
    TinyMetadata("1", PairSpecs(aux)[0].doc, Deltas([]), PAIR, aux, SyntheticFull);
  }

  lemma {:induction false} PairIsPlan(aux: bool)
    ensures IsPlan(PairSet(aux), PairPlan(aux))
  {
    hide *;
    PairFiles(aux);
    PairSpecFacts(aux);
    PairPartition(aux);
    PairEstimate(aux);
    assert PAIR.reserved == [] by { ThePair(); }
    FilesPlan(PairSet(aux), PairSpecs(aux), 1, {0, 1}, PAIR, 1);
  }

  lemma {:induction false} ThePair()
    ensures PAIR == PartitionPlan(0, 0, [], [Copy(STORED)], [])
  {
  }

  lemma {:induction false} PairIsMergeable(aux: bool)
    ensures Mergeable(PairSet(aux), PairPlan(aux)) && WellFormed(Libraries(), PairSet(aux))
    ensures IncrementsFollow(PairSet(aux))
  {
    hide PairSet, PairSpecs, PairPlan, AreFiles, PairFits, IsRange, PlanOf, Follow, IsPlan, WellFormed, DisjointClaims,
      TakesNewest, IncrementsFollow;
    PairFiles(aux);
    PairSpecFacts(aux);
    PairIsPlan(aux);
    FilesAreWellFormed(PairSet(aux), PairSpecs(aux));
    FilesFollow(PairSet(aux), PairSpecs(aux));
    FollowingTakesNewest(PairSet(aux), PairPlan(aux));
  }

  lemma {:induction false} PairLayout(aux: bool)
    ensures PlanKeys(PairPlan(aux).partitions) == [Key(0, 1, 1)] && Write.Layout(PairPlan(aux)) == [Key(0, 1, 1)]
    ensures Repeats([Key(0, 1, 1)]) == []
  {
    hide TinyEstimate;
    var parts := PairPlan(aux).partitions;
    assert AllActions(parts[..0]) == [] && AllActions(parts) == [Copy(STORED)];
    assert CopyKeys([Copy(STORED)][..0]) == [];
    assert CopyKeys([Copy(STORED)]) == [Key(0, 1, 1)];
    assert FirstSeen([Key(0, 1, 1)][..0]) == [] && Repeats([Key(0, 1, 1)][..0]) == [];
  }

  lemma {:induction false} PairSource(aux: bool)
    ensures var source := SourcesOf(PairSet(aux), {0, 1}); 0 in source && [10, 20] <= source[0]
    ensures |PairSet(aux)| == 2 && Owner(PairSet(aux), 0) == Some(PairSet(aux)[1])
  {
    hide PairSet, Claims, IsParsed, Libraries;
    PairHeaders(aux);
    var lower := PairSet(aux);
    assert lower[1..] == [lower[1]];
  }

  lemma {:induction false} OneByte(source: Source, image: seq<byte>)
    requires 0 in source && source[0] == image && [10, 20] <= image
    ensures Copyable(source, [Key(0, 1, 1)]) && Payload(source, [Key(0, 1, 1)]) == [20]
    ensures TotalLength([Key(0, 1, 1)]) == 1 && Offset([Key(0, 1, 1)], Key(0, 1, 1)) == 0
  {
    var order := [Key(0, 1, 1)];
    assert order[..0] == [];
    assert image[1..2] == [20];
  }

  lemma {:induction false} PairIsMerged()
    ensures IsMergedFile(PairSet(false), PairPlan(false), PairOutput())
  {
    PairFiles(false);
    PairOutputFacts();
    PairLayout(false);
    PairSource(false);
    hide Tiny, IsParsed, Libraries, PatchedHeader, SourcesOf, Write.Layout, Copyable, Payload, TotalLength, Offset,
      PairMergedDoc, PairOutput, PairSet, IsFile, IsFull, FullEntriesOf, DeltasOf, ReservedOf, TinyEstimate, Claims,
      AreFiles, Spec.Valid;
    var lower, plan, o := PairSet(false), PairPlan(false), PairOutput();
    AreFilesAt(lower, PairSpecs(false), 0);
    FileFacts(lower[0], PairSpecs(false)[0]);
    FileDoc(lower[0], PairSpecs(false)[0]);
    var source := SourcesOf(lower, plan.absorbed);
    OneByte(source, source[0]);
    assert SlotBase(ShapeOf(o.disks), 1) == 1;
    assert IndexInSlot(plan, o, Write.Layout(plan), 0, 0);
  }

  function PairRegion(): DataRegion {
    DataRegion([WrittenPartition(0, 0, Entries(Full([MOVED])))], 1, 4096, 0)
  }

  lemma {:induction false} PairRegionIs(aux: bool)
    ensures RegionWritten(PairPlan(aux), SourcesOf(PairSet(aux), PairPlan(aux).absorbed), 0, PairRegion(), PADDED)
  {
    PairLayout(aux);
    PairSource(aux);
    hide Tiny, SourcesOf, Write.Layout, PlanKeys, Copyable, Payload, TotalLength, Offset, PairSet, TinyEstimate;
    var source := SourcesOf(PairSet(aux), PairPlan(aux).absorbed);
    OneByte(source, source[0]);
  }

  /** The output's bytes, with To's `$AUXDATA` behind the document where there is one. */
  function PairImage(aux: bool): seq<byte> {
    TinyFits(PairMergedDoc(aux), PADDED, Full([MOVED]));
    WrittenImage(Encode(PairMergedDoc(aux)), PADDED, Entries(Full([MOVED])), aux)
  }

  lemma {:induction false} PairIsWritten(aux: bool, stamp: Stamp)
    ensures IsWritten(PairSet(aux), PairPlan(aux), stamp, PairImage(aux))
    ensures PairImage(false) == PairOutput().image
  {
    PairRegionIs(aux);
    hide Encode, SourcesOf, OutputWritten, WrittenImage, ImageOf, Libraries, IndexBytes, DisksOrdered, RegionWritten,
      TinyEstimate, PatchedHeader;
    var to, merged := PairSpecs(aux)[0].doc, Entries(Full([MOVED]));
    var plan, source := PairPlan(aux), SourcesOf(PairSet(aux), PairPlan(aux).absorbed);
    TinyFits(to, [], Deltas([]));
    TinyFits(PairMergedDoc(aux), PADDED, Full([MOVED]));
    TinyFits(PairMergedDoc(false), PADDED, Full([MOVED]));
    SmallIsWritten("1", to, [], Entries(Deltas([])), aux, plan, source, stamp, PairRegion(), PADDED, merged);
    WrittenIsImage(Encode(PairMergedDoc(false)), PADDED, merged);
  }

  /**
   * A Full and an incremental, down to their bytes, that meet every hypothesis: libraries that round-trip, a
   * plain, complete, well-formed set, an accepted merge, and the output the writer makes of it.
   */
  lemma {:induction false} PlainMergeExists(stamp: Stamp)
    ensures Libraries().RoundTrips()
    ensures WellFormed(Libraries(), PairSet(false)) && Plain.IsPlain(PairSet(false)) && IsComplete(PairSet(false))
    ensures AcceptedAt(Libraries(), PairSet(false), 0, PairPlan(false), PairOutput())
    ensures IsWritten(PairSet(false), PairPlan(false), stamp, PairOutput().image)
  {
    hide *;
    LibrariesRoundTrip();
    PairIsMergeable(false);
    PairIsPlain();
    PairWasComplete();
    PairIsPlan(false);
    PairIsMerged();
    PairIsWritten(false, stamp);
    PairOutputFacts();
    PairHeaders(false);
    assert PairSet(false)[0..] == PairSet(false);
    FollowingIsAccepted(Libraries(), PairSet(false), 0, PairPlan(false), PairOutput());
  }

  // ----- a Differential above To -----

  /** The same two files under a Differential 2, whose full index names the block in file 0. */
  function DiffSpecs(): (specs: seq<Spec>)
    ensures |specs| == 3 && forall i :: 0 <= i < 3 ==> specs[i].Valid()
  {
    [Spec("2", DocOf(2, 2, "diff", false, 0), [], Full([STORED]), false)] + PairSpecs(false)
  }

  function DiffSet(): seq<BackupFile> {
    hide *;
    [DiffSpecs()[0].File()] + PairSet(false)
  }

  lemma {:induction false} DiffFiles()
    ensures AreFiles(DiffSet(), DiffSpecs()) && |DiffSet()| == |DiffSpecs()| == 3
    ensures DiffSet()[1..] == PairSet(false) && DiffSet()[..1] == [DiffSet()[0]] && DiffSet()[1] == PairSet(false)[0]
    ensures Follow(DiffSpecs()) && DiffSpecs()[0].blocks == Full([STORED]) && DiffSpecs()[0].Number() == 2
    ensures DiffSpecs()[1..] == PairSpecs(false) && DiffSpecs()[0].Increment() == 2
  {
    hide AreFiles, IsFile, Tiny, PairSet, PairSpecs, PairPlan, PairFits, IsRange, PlanOf;
    PairFiles(false);
    PairSpecFacts(false);
    FileIs(DiffSpecs()[0]);
    OneMoreFile(DiffSet()[0], DiffSpecs()[0], PairSet(false), PairSpecs(false));
  }

  /** A newer file on top of a set of files. */
  lemma {:induction false} OneMoreFile(m: BackupFile, s: Spec, members: seq<BackupFile>, specs: seq<Spec>)
    requires IsFile(m, s) && AreFiles(members, specs) && s.Number() > specs[0].Number()
    ensures AreFiles([m] + members, [s] + specs)
  {
    hide IsFile;
    var all := [s] + specs;
    assert specs[0] == all[1] && forall i :: 0 < i < |all| ==> all[i] == specs[i - 1];
    assert forall i :: 0 < i < |specs| ==> specs[0].Number() > specs[i].Number();
  }

  lemma {:induction false} DiffHeaders()
    ensures |DiffSet()| == 3 && DiffSet()[0].Header().fileNumber == 2 && DiffSet()[0].Header().incrementNumber == 2
    ensures DiffSet()[1].Header().incrementNumber == 1 && Claims(DiffSet()[0]) == {2} && Claims(DiffSet()[2]) == {0}
    ensures IsFull(DiffSet()[0]) && FullEntriesOf(DiffSet()[0], 0, 0) == [STORED]
    ensures |DiffSet()[1].disks| == 1 && |DiffSet()[1].disks[0].partitions| == 1
  {
    hide DiffSet, DiffSpecs, PairSet, PairSpecs, AreFiles, IsFull, Claims, Follow, FullEntriesOf, IsFile, IsParsed,
      PairPlan, PairFits, IsRange, PlanOf;
    DiffFiles();
    PairHeaders(false);
    PairSpecFacts(false);
    FilesFacts(DiffSet(), DiffSpecs());
    AreFilesAt(DiffSet(), DiffSpecs(), 0);
    FileFacts(DiffSet()[0], DiffSpecs()[0]);
    assert DiffSet()[2] == PairSet(false)[1] && DiffSpecs()[1] == PairSpecs(false)[0];
  }

  lemma {:induction false} DiffWasComplete()
    ensures IsComplete(DiffSet())
  {
    hide DiffSet, DiffSpecs, AreFiles, PairSpecs, PairPlan, PairFits, IsRange, PlanOf, Follow, IsComplete;
    DiffFiles();
    PairSpecFacts(false);
    assert DiffSpecs()[2] == PairSpecs(false)[1] && DiffSpecs()[0].Number() == 2;
    FilesComplete(DiffSet(), DiffSpecs(), 0);
  }

  lemma {:induction false} DiffIsAccepted()
    ensures |DiffSet()| == 3 && WellFormed(Libraries(), DiffSet())
    ensures AcceptedAt(Libraries(), DiffSet(), 1, PairPlan(false), PairOutput())
  {
    hide *;
    DiffFiles();
    DiffHeaders();
    PairIsPlan(false);
    PairIsMerged();
    PairOutputFacts();
    FilesAreWellFormed(DiffSet(), DiffSpecs());
    FilesFollow(DiffSet(), DiffSpecs());
    FollowingIsAccepted(Libraries(), DiffSet(), 1, PairPlan(false), PairOutput());
  }

  /** The Differential's entry keeps its offset 1, where the output has a zero and the old file had the block. */
  lemma {:induction false} DiffMoves()
    ensures |DiffSet()| == 3 && !EntriesStay(DiffSet()[..1], DiffSet()[1..], PairPlan(false), PairOutput(), 0, 0)
  {
    hide DiffSet, DiffSpecs, AreFiles, Follow, Claims, IsFile, IsFull, FullEntriesOf, PairSet, PairSpecs, PairMergedDoc,
      PairOutput, Owner, Bare, IsParsed, PairPlan, PlanOf, PairFits, IsRange, PatchedHeader;
    DiffFiles();
    DiffHeaders();
    PairSpecFacts(false);
    PairHeaders(false);
    PairOutputFacts();
    PairSource(false);
    var above, o := DiffSet()[..1], PairOutput();
    assert Decided(above, 0, 0, 0) == Some(STORED) && IsMoved(PairPlan(false), STORED);
    assert o.image[1] == PADDED[1] == 0 && PairSet(false)[1].image[1] == [10, 20][1];
    assert o.image[1..2][0] == 0 && PairSet(false)[1].image[1..2][0] == 20;
    assert !Stays(PairSet(false), o, STORED);
    assert Unwritten(above, DiffSet()[1..], PairPlan(false), 0, 0, 0) == Some(STORED);
  }

  /**
   * A Differential above To is not rewritten, so where its full index names an absorbed file it restores, after
   * the merge, the bytes that happen to lie at the old offset of the new file. The set is well-formed and complete,
   * the plan is accepted and its output written; the exact condition of `StepKeepsImageIff` fails.
   */
  lemma {:induction false} DifferentialAboveChangesImage(stamp: Stamp)
    ensures |DiffSet()| == 3 && WellFormed(Libraries(), DiffSet()) && IsComplete(DiffSet()) && Libraries().RoundTrips()
    ensures AcceptedAt(Libraries(), DiffSet(), 1, PairPlan(false), PairOutput())
    ensures IsWritten(DiffSet()[1..], PairPlan(false), stamp, PairOutput().image)
    ensures !AllStay(DiffSet(), 1, PairPlan(false), PairOutput())
    ensures !SameImage(DiffSet(), NextSet(DiffSet(), 1, PairPlan(false), PairOutput()))
  {
    hide *;
    LibrariesRoundTrip();
    DiffFiles();
    DiffWasComplete();
    DiffIsAccepted();
    PairIsWritten(false, stamp);
    DiffDoesNotStay();
    StepKeepsImageIff(Libraries(), DiffSet(), 1, PairPlan(false), PairOutput());
  }

  lemma {:induction false} DiffDoesNotStay()
    ensures |DiffSet()| == 3 && !AllStay(DiffSet(), 1, PairPlan(false), PairOutput())
  {
    hide DiffSet, EntriesStay, PairPlan, PairOutput, Claims, IsFull, FullEntriesOf;
    DiffHeaders();
    DiffMoves();
  }

  // ----- `$AUXDATA` that does not end its list -----

  /**
   * A To file whose root list starts with an `$AUXDATA` block. The parser reads it, the merge is accepted and the
   * output written, and the parser refuses that output: the copied block, last now, still lacks the end flag.
   */
  lemma {:induction false} AuxiliaryFirstBreaksOutput(stamp: Stamp, path: string)
    ensures Libraries().RoundTrips() && |PairSet(true)| == 2
    ensures IsParsed(Libraries(), PairSet(true)[0]) && IsParsed(Libraries(), PairSet(true)[1])
    ensures Mergeable(PairSet(true), PairPlan(true))
    ensures IsWritten(PairSet(true), PairPlan(true), stamp, PairImage(true))
    ensures ParseFile(Libraries(), path, PairImage(true)).Err?
  {
    hide Libraries, IsPlan, Mergeable, PairImage, PairSet, PairPlan, OutputWritten, ParseFile, AuxEndsList, SourcesOf,
      IncrementsFollow, WellFormed, Claims, DisksOrdered;
    AuxiliaryFirst();
    PairHeaders(true);
    LibrariesRoundTrip();
    PairIsMergeable(true);
    PairIsWritten(true, stamp);
    var to, source := PairSet(true)[0], SourcesOf(PairSet(true), PairPlan(true).absorbed);
    var w :| OutputWritten(Libraries(), to, PairPlan(true), source, stamp, w, PairImage(true));
    PrintThenParse(Libraries(), to, PairPlan(true), source, stamp, w, PairImage(true), path);
  }

  lemma {:induction false} AuxiliaryFirst()
    ensures |PairSet(true)| == 2 && !AuxEndsList(PairSet(true)[0]) && !PairSet(true)[0].Header().splitFile
  {
    hide ImageOf, Encode, IndexBytes;
    TinyFits(PairSpecs(true)[0].doc, [], Deltas([]));
    SmallRoot(PairSpecs(true)[0].doc, [], Entries(Deltas([])), true, "1", []);
  }

  lemma {:induction false} NoAuxiliary()
    ensures |PairSet(false)| == 2 && AuxEndsList(PairSet(false)[0])
  {
    hide ImageOf, Encode, IndexBytes;
    TinyFits(PairSpecs(false)[0].doc, [], Deltas([]));
    SmallRoot(PairSpecs(false)[0].doc, [], Entries(Deltas([])), false, "1", []);
  }
}
