/** Hash verification survives a merge: what decoded in its source decodes in the output. */
module VerifyMerged {
  import opened Bytes
  import opened Index
  import opened Json
  import opened Reader
  import opened Set
  import opened Plan
  import opened Write
  import opened Output
  import opened Restore
  import opened Merge
  import opened Readback
  import opened Verify

  /** A stored block decodes, under the numbers of its place, to the hash its entry records. */
  ghost predicate Decodes(f: Foreign, members: seq<BackupFile>, dn: u16, pn: u16, i: nat, e: Element) {
    i < U32_LIMIT && ContentOf(members, e).Stored? ==>
      var content := ContentOf(members, e);
      var plain := f.plaintext(dn, pn, i, content.bytes);
      plain.Some? && f.md5(plain.value) == content.hash
  }

  ghost predicate EntriesDecode(f: Foreign, members: seq<BackupFile>, dn: u16, pn: u16, entries: seq<Element>) {
    forall i :: 0 <= i < |entries| ==> Decodes(f, members, dn, pn, i, entries[i])
  }

  ghost predicate PartitionDecodes(f: Foreign, members: seq<BackupFile>, d: nat, p: nat)
    requires members != []
  {
    var doc := members[0].doc;
    && d < |doc.disks| && doc.disks[d].number.Some?
    && p < |doc.disks[d].partitions| && doc.disks[d].partitions[p].Some?
    && var dn, pn := doc.disks[d].number.value, doc.disks[d].partitions[p].value;
       && EntriesDecode(f, members, dn, pn, ReservedOf(members[0], d, p))
       && EntriesDecode(f, members, dn, pn, Chain(members, d, p))
  }

  /** Every resolved block of the set decodes where it is, and every disk and partition has a number. */
  ghost predicate SetDecodes(f: Foreign, members: seq<BackupFile>)
    requires members != []
  {
    forall d, p :: 0 <= d < |members[0].disks| && 0 <= p < |members[0].disks[d].partitions|
           ==> PartitionDecodes(f, members, d, p)
  }

  // ----- one entry -----

  /** What a written entry is to the verify pass follows from what its action was. */
  lemma {:induction false} WrittenKind(source: Element, plan: MergePlan, e: Element, order: seq<Key>)
    requires plan.outFileNumber in plan.absorbed
    requires EntryMatches(Classify(source, plan.absorbed), e, order, plan.outFileNumber)
    ensures IsOwn(plan.outFileNumber, e) <==> Classify(source, plan.absorbed).Copy?
    ensures IsElsewhere(plan.outFileNumber, e) <==> Classify(source, plan.absorbed).Keep?
  {
  }

  /** A copied block decodes in the output as its source did, because the copy is byte for byte. */
  lemma {:induction false} CopyPasses(f: Foreign, members: seq<BackupFile>, plan: MergePlan, o: BackupFile,
        source: Element, e: Element, dn: u16, pn: u16, i: nat)
    requires Mergeable(members, plan) && IsMergedFile(members, plan, o)
    requires EntryMatches(Classify(source, plan.absorbed), e, Layout(plan), plan.outFileNumber)
    requires i < U32_LIMIT && Decodes(f, members, dn, pn, i, source)
    ensures Passes(f, o.image, plan.outFileNumber, Check(dn, pn, i, e))
  {
    hide Mergeable, IsMergedFile, Layout, Offset, Owner;
    OutIsAbsorbed(members, plan);
    WrittenKind(source, plan, e, Layout(plan));
    if IsOwn(plan.outFileNumber, e) {
      LandsInOutput(members, plan, o, KeyOf(source));
    }
  }

  // ----- one partition -----

  ghost predicate ChecksMatch(f: Foreign, image: seq<byte>, own: u16, actions: seq<Action>, checks: seq<Check>) {
    && |checks| == |actions|
    && forall i :: 0 <= i < |checks| ==>
         && Passes(f, image, own, checks[i])
         && (IsOwn(own, checks[i].entry) <==> actions[i].Copy?)
         && (IsElsewhere(own, checks[i].entry) <==> actions[i].Keep?)
  }

  lemma {:induction false} ChecksMatchConcat(f: Foreign, image: seq<byte>, own: u16, a: seq<Action>, x: seq<Check>,
        b: seq<Action>, y: seq<Check>)
    requires ChecksMatch(f, image, own, a, x) && ChecksMatch(f, image, own, b, y)
    ensures ChecksMatch(f, image, own, a + b, x + y)
  {
    hide Passes, IsOwn, IsElsewhere;
  }

  /** Matching checks all pass, and count what the plan counts. */
  lemma {:induction false} MatchCounts(f: Foreign, image: seq<byte>, own: u16, actions: seq<Action>, checks: seq<Check>)
    requires ChecksMatch(f, image, own, actions, checks)
    ensures AllPass(f, image, own, checks)
    ensures CountOwn(own, checks) == CountCopies(actions) && CountElsewhere(own, checks) == CountKept(actions)
  {
    hide Passes, IsOwn, IsElsewhere;
    if actions != [] {
      MatchCounts(f, image, own, actions[..|actions| - 1], checks[..|checks| - 1]);
    }
  }

  lemma {:induction false} EntryChecks(f: Foreign, members: seq<BackupFile>, plan: MergePlan, o: BackupFile, dn: u16,
        pn: u16, sources: seq<Element>, actions: seq<Action>, checks: seq<Check>)
    requires Mergeable(members, plan) && IsMergedFile(members, plan, o)
    requires |sources| == |actions| == |checks|
    requires forall i :: 0 <= i < |actions| ==>
               && checks[i].disk == dn && checks[i].partition == pn && checks[i].blockIndex < U32_LIMIT
               && actions[i] == Classify(sources[i], plan.absorbed)
               && EntryMatches(actions[i], checks[i].entry, Layout(plan), plan.outFileNumber)
               && Decodes(f, members, dn, pn, checks[i].blockIndex, sources[i])
    ensures ChecksMatch(f, o.image, plan.outFileNumber, actions, checks)
  {
    hide Mergeable, IsMergedFile, EntryMatches, Classify, Decodes, Passes, IsOwn, IsElsewhere, Layout;
    OutIsAbsorbed(members, plan);
    forall i | 0 <= i < |checks|
      ensures Passes(f, o.image, plan.outFileNumber, checks[i])
      ensures IsOwn(plan.outFileNumber, checks[i].entry) <==> actions[i].Copy?
      ensures IsElsewhere(plan.outFileNumber, checks[i].entry) <==> actions[i].Keep?
    {
      WrittenKind(sources[i], plan, checks[i].entry, Layout(plan));
      CopyPasses(f, members, plan, o, sources[i], checks[i].entry, dn, pn, checks[i].blockIndex);
    }
  }

  lemma {:induction false} HoleDecodes(f: Foreign, members: seq<BackupFile>, dn: u16, pn: u16, i: nat)
    ensures Decodes(f, members, dn, pn, i, HOLE)
  {
  }

  /** The blocks of one partition of the output check against their planned actions. */
  lemma {:induction false} BlocksCheck(f: Foreign, members: seq<BackupFile>, plan: MergePlan, o: BackupFile, d: nat,
        p: nat, part: PartitionPlan, index: PartitionIndex, dn: u16, pn: u16)
    requires Mergeable(members, plan) && IsMergedFile(members, plan, o)
    requires PartitionPlanned(members, members[0], plan.kind, plan.absorbed, d, p, part)
    requires IndexWritten(plan.kind, part, index, Layout(plan), plan.outFileNumber)
    requires index.blocks.Length() <= I32_MAX && EntriesDecode(f, members, dn, pn, Chain(members, d, p))
    ensures ChecksMatch(f, o.image, plan.outFileNumber, part.blocks, BlockChecks(dn, pn, index.blocks))
  {
    hide Mergeable, IsMergedFile, Chain, Classify, Decodes, EntryMatches, Layout, ChangedBy, Lookup;
    WrittenBlocks(plan.kind, part, index, Layout(plan), plan.outFileNumber);
    var checks := BlockChecks(dn, pn, index.blocks);
    var resolved := Chain(members, d, p);
    var sources := seq(|part.blocks|, i requires 0 <= i < |part.blocks| =>
                       Lookup(resolved, if plan.kind.SyntheticFull? then i else part.positions[i]));
    forall i | 0 <= i < |checks|
      ensures checks[i].disk == dn && checks[i].partition == pn && checks[i].blockIndex < U32_LIMIT
      ensures part.blocks[i] == Classify(sources[i], plan.absorbed)
      ensures EntryMatches(part.blocks[i], checks[i].entry, Layout(plan), plan.outFileNumber)
      ensures Decodes(f, members, dn, pn, checks[i].blockIndex, sources[i])
    {
      assert EntryMatches(part.blocks[i], BlockElements(index.blocks)[i], Layout(plan), plan.outFileNumber);
      LookupDecodes(f, members, dn, pn, resolved, checks[i].blockIndex);
      if plan.kind.SyntheticFull? { LookupInside(resolved, i); }
    }
    EntryChecks(f, members, plan, o, dn, pn, sources, part.blocks, checks);
  }

  lemma {:induction false} LookupInside(entries: seq<Element>, i: nat)
    ensures i < |entries| ==> Lookup(entries, i) == entries[i]
  {
  }

  lemma {:induction false} LookupDecodes(f: Foreign, members: seq<BackupFile>, dn: u16, pn: u16, entries: seq<Element>,
        i: nat)
    requires EntriesDecode(f, members, dn, pn, entries)
    ensures Decodes(f, members, dn, pn, i, Lookup(entries, i))
  {
    HoleDecodes(f, members, dn, pn, i);
  }

  lemma {:induction false} ReservedCheck(f: Foreign, members: seq<BackupFile>, plan: MergePlan, o: BackupFile, d: nat,
        p: nat, part: PartitionPlan, index: PartitionIndex, dn: u16, pn: u16)
    requires Mergeable(members, plan) && IsMergedFile(members, plan, o)
    requires PartitionPlanned(members, members[0], plan.kind, plan.absorbed, d, p, part)
    requires IndexWritten(plan.kind, part, index, Layout(plan), plan.outFileNumber)
    requires |index.reserved| <= I32_MAX && EntriesDecode(f, members, dn, pn, ReservedOf(members[0], d, p))
    ensures ChecksMatch(f, o.image, plan.outFileNumber, part.reserved, Numbered(dn, pn, index.reserved))
  {
    assert members != [];
    hide Mergeable, IsMergedFile, Chain, Classify, Decodes, EntryMatches, Layout, ReservedOf, ChangedBy;
    WrittenBlocks(plan.kind, part, index, Layout(plan), plan.outFileNumber);
    EntryChecks(f, members, plan, o, dn, pn, ReservedOf(members[0], d, p), part.reserved, Numbered(dn, pn,
          index.reserved));
  }

  /** The checks of one partition of the output match the actions of its slot. */
  ghost predicate SlotChecks(f: Foreign, plan: MergePlan, o: BackupFile, d: nat, p: nat)
    requires d < |o.disks| && p < |o.disks[d].partitions|
  {
    var k := Slot(ShapeOf(o.disks), d, p);
    && DiskNumber(o.doc, d).Some? && PartitionNumber(o.doc, d, p).Some?
    && k < |plan.partitions|
    && ChecksMatch(f, o.image, plan.outFileNumber, plan.partitions[k].Actions(),
                   PartitionChecks(OrZero(DiskNumber(o.doc, d)), OrZero(PartitionNumber(o.doc, d, p)),
                         o.disks[d].partitions[p].index))
  }

  /** One partition of the output checks against its plan. */
  lemma {:induction false} PartitionCheck(f: Foreign, members: seq<BackupFile>, plan: MergePlan, o: BackupFile, d: nat,
        p: nat)
    requires Mergeable(members, plan) && IsMergedFile(members, plan, o) && IsParsed(f, o)
    requires d < |o.disks| && p < |o.disks[d].partitions| && d < |members[0].disks|
    requires p < |members[0].disks[d].partitions|
    requires PartitionDecodes(f, members, d, p)
    ensures SlotChecks(f, plan, o, d, p)
  {
    var dn, pn := OrZero(DiskNumber(o.doc, d)), OrZero(PartitionNumber(o.doc, d, p));
    SlotOfOutput(members, plan, o, d, p);
    ParsedPartition(f, o, d, p);
    assert o.doc.disks == members[0].doc.disks;
    hide Mergeable, IsMergedFile, Chain, EntriesDecode, PartitionPlanned, IndexWritten, ChecksMatch, Layout, IsParsed;
    var part, index := plan.partitions[Slot(ShapeOf(o.disks), d, p)], o.disks[d].partitions[p].index;
    ReservedCheck(f, members, plan, o, d, p, part, index, dn, pn);
    BlocksCheck(f, members, plan, o, d, p, part, index, dn, pn);
    ChecksMatchConcat(f, o.image, plan.outFileNumber, part.reserved, Numbered(dn, pn, index.reserved),
                      part.blocks, BlockChecks(dn, pn, index.blocks));
    assert PartitionChecks(dn, pn, index) == Numbered(dn, pn, index.reserved) + BlockChecks(dn, pn, index.blocks);
  }

  lemma {:induction false} ParsedPartition(f: Foreign, o: BackupFile, d: nat, p: nat)
    requires IsParsed(f, o) && d < |o.disks| && p < |o.disks[d].partitions|
    ensures var index := o.disks[d].partitions[p].index;
            |index.reserved| <= I32_MAX && index.blocks.Length() <= I32_MAX
  {
    hide Block.IsList;
    ParsedStructure(f, o.path, o.image);
    assert DiskParsed(o.image, o.disks[d], o.Header().deltaIndex);
    assert PartitionParsed(o.image, o.disks[d].partitions[p], o.Header().deltaIndex);
  }

  /** The slot of a partition holds its plan. */
  lemma {:induction false} SlotOfOutput(members: seq<BackupFile>, plan: MergePlan, o: BackupFile, d: nat, p: nat)
    requires Mergeable(members, plan) && IsMergedFile(members, plan, o)
    requires d < |o.disks| && p < |o.disks[d].partitions|
    ensures var k := Slot(ShapeOf(o.disks), d, p);
            && k < |plan.partitions|
            && PartitionPlanned(members, members[0], plan.kind, plan.absorbed, d, p, plan.partitions[k])
            && IndexWritten(plan.kind, plan.partitions[k], o.disks[d].partitions[p].index, Layout(plan),
                  plan.outFileNumber)
  {
    hide PartitionPlanned, IndexWritten, PatchedHeader, Copyable, Layout, RulesHold, Flattens, IsClosure;
    ToIsNewest(members, plan);
    assert IndexInSlot(plan, o, Layout(plan), d, p);
    assert ShapeOf(o.disks)[d] == |o.disks[d].partitions|;
    assert SlotPlanned(members, members[0], plan.kind, plan.absorbed, ShapeOf(o.disks), plan.partitions, d, p);
  }

  // ----- the whole file -----

  ghost predicate PlanPrefixMatches(f: Foreign, plan: MergePlan, o: BackupFile, n: nat, checks: seq<Check>) {
    n <= |plan.partitions| && ChecksMatch(f, o.image, plan.outFileNumber, AllActions(plan.partitions[..n]), checks)
  }

  lemma {:induction false} PrefixGrows(f: Foreign, plan: MergePlan, o: BackupFile, n: nat, checks: seq<Check>,
        more: seq<Check>)
    requires PlanPrefixMatches(f, plan, o, n, checks) && n < |plan.partitions|
    requires ChecksMatch(f, o.image, plan.outFileNumber, plan.partitions[n].Actions(), more)
    ensures PlanPrefixMatches(f, plan, o, n + 1, checks + more)
  {
    hide ChecksMatch;
    assert plan.partitions[..n + 1][..n] == plan.partitions[..n];
    ChecksMatchConcat(f, o.image, plan.outFileNumber, AllActions(plan.partitions[..n]), checks,
          plan.partitions[n].Actions(), more);
  }

  ghost predicate AllSlotsCheck(f: Foreign, plan: MergePlan, o: BackupFile) {
    forall d, p :: 0 <= d < |o.disks| && 0 <= p < |o.disks[d].partitions| ==> SlotChecks(f, plan, o, d, p)
  }

  lemma {:induction false} RowStep(f: Foreign, plan: MergePlan, o: BackupFile, d: nat, p: nat, before: seq<Check>)
    requires d < |o.disks| && p < |o.disks[d].partitions| && SlotChecks(f, plan, o, d, p)
    requires PlanPrefixMatches(f, plan, o, Slot(ShapeOf(o.disks), d, p), before + RowChecks(o.doc, d,
          o.disks[d].partitions[..p]))
    ensures PlanPrefixMatches(f, plan, o, Slot(ShapeOf(o.disks), d, p) + 1, before + RowChecks(o.doc, d,
          o.disks[d].partitions[..p + 1]))
  {
    hide PlanPrefixMatches, ChecksMatch, PartitionChecks, ShapeOf, Slot;
    var parts := o.disks[d].partitions;
    var soFar := RowChecks(o.doc, d, parts[..p]);
    var more := PartitionChecks(OrZero(DiskNumber(o.doc, d)), OrZero(PartitionNumber(o.doc, d, p)), parts[p].index);
    assert parts[..p + 1][..p] == parts[..p];
    assert before + (soFar + more) == (before + soFar) + more;
    PrefixGrows(f, plan, o, Slot(ShapeOf(o.disks), d, p), before + soFar, more);
  }

  lemma {:induction false} RowMatches(f: Foreign, plan: MergePlan, o: BackupFile, d: nat, p: nat, before: seq<Check>)
    requires AllSlotsCheck(f, plan, o) && d < |o.disks| && p <= |o.disks[d].partitions|
    requires PlanPrefixMatches(f, plan, o, SlotBase(ShapeOf(o.disks), d), before)
    ensures PlanPrefixMatches(f, plan, o, SlotBase(ShapeOf(o.disks), d) + p, before + RowChecks(o.doc, d,
          o.disks[d].partitions[..p]))
    ensures RowNumbersPresent(o.doc, d, p)
  {
    hide PlanPrefixMatches, ChecksMatch, PartitionChecks, ShapeOf, SlotBase;
    if p == 0 {
      assert before + RowChecks(o.doc, d, o.disks[d].partitions[..0]) == before;
    } else {
      assert SlotChecks(f, plan, o, d, p - 1);
      hide RowChecks;
      RowMatches(f, plan, o, d, p - 1, before);
      RowStep(f, plan, o, d, p - 1, before);
    }
  }

  lemma {:induction false} DiskStep(o: BackupFile, d: nat)
    requires 0 < d <= |o.disks|
    ensures var parts := o.disks[d - 1].partitions;
            && SlotBase(ShapeOf(o.disks), d) == SlotBase(ShapeOf(o.disks), d - 1) + |parts|
            && FileChecks(o.doc, o.disks[..d]) == FileChecks(o.doc, o.disks[..d - 1]) + RowChecks(o.doc, d - 1, parts)
  {
    hide RowChecks;
    assert o.disks[..d][..d - 1] == o.disks[..d - 1];
  }

  lemma {:induction false} NoneMatch(f: Foreign, plan: MergePlan, o: BackupFile)
    ensures PlanPrefixMatches(f, plan, o, SlotBase(ShapeOf(o.disks), 0), FileChecks(o.doc, o.disks[..0]))
  {
  }

  lemma {:induction false} DisksMatch(f: Foreign, plan: MergePlan, o: BackupFile, d: nat)
    requires AllSlotsCheck(f, plan, o) && d <= |o.disks|
    ensures PlanPrefixMatches(f, plan, o, SlotBase(ShapeOf(o.disks), d), FileChecks(o.doc, o.disks[..d]))
    ensures forall c :: 0 <= c < d ==> RowNumbersPresent(o.doc, c, |o.disks[c].partitions|)
  {
    hide *;
    if d == 0 {
      NoneMatch(f, plan, o);
    } else {
      DisksMatch(f, plan, o, d - 1);
      var parts := o.disks[d - 1].partitions;
      RowMatches(f, plan, o, d - 1, |parts|, FileChecks(o.doc, o.disks[..d - 1]));
      assert parts[..|parts|] == parts;
      DiskStep(o, d);
    }
  }

  /**
   * Hash verification survives a merge. If every resolved block of the set decodes, under its disk,
   * partition and logical index, to its recorded hash, then verifying the output succeeds exactly when
   * the merge copied at least one block, and it reports as many blocks as the plan copies and as many
   * elsewhere as the plan keeps.
   */
  lemma {:induction false} HashesSurvive(f: Foreign, members: seq<BackupFile>, plan: MergePlan, o: BackupFile)
    requires Mergeable(members, plan) && IsMergedFile(members, plan, o) && IsParsed(f, o)
    requires SetDecodes(f, members)
    ensures FileVerifies(f, o) <==> plan.BlocksToCopy() > 0
    ensures var report := ReportOf(f, o.image, o.Header().fileNumber, FileChecks(o.doc, o.disks));
            report.blocks == plan.BlocksToCopy() && report.elsewhere == plan.BlocksKept()
  {
    hide Mergeable, IsMergedFile, RowNumbersPresent, ChecksMatch, SlotChecks, PartitionDecodes, IsParsed, ShapeOf,
      AllActions, PlainBytes;
    SameDisks(members, plan, o);
    MergedForm(members, plan, o);
    OutputPlanSize(members, plan, o);
    forall d, p | 0 <= d < |o.disks| && 0 <= p < |o.disks[d].partitions| ensures SlotChecks(f, plan, o, d, p) {
      PartitionCheck(f, members, plan, o, d, p);
    }
    DisksMatch(f, plan, o, |o.disks|);
    assert o.disks[..|o.disks|] == o.disks && plan.partitions[..|plan.partitions|] == plan.partitions;
    MatchCounts(f, o.image, plan.outFileNumber, AllActions(plan.partitions), FileChecks(o.doc, o.disks));
  }

  lemma {:induction false} OutputPlanSize(members: seq<BackupFile>, plan: MergePlan, o: BackupFile)
    requires IsMergedFile(members, plan, o)
    ensures |plan.partitions| == SlotBase(ShapeOf(o.disks), |o.disks|)
  {
  }
}
