/** The end-to-end test of one file: undo every block it holds itself and compare the plaintext hash. */
module Verify {
  import opened Wrappers
  import opened Bytes
  import opened Index
  import opened Json
  import opened Reader

  datatype Verified = Verified(blocks: nat, bytes: nat, elsewhere: nat)

  /** One entry with the numbers its block is decoded under. */
  datatype Check = Check(disk: u16, partition: u16, blockIndex: nat, entry: Element)

  function DiskNumber(doc: Doc, d: nat): Option<u16> {
    if d < |doc.disks| then doc.disks[d].number else None
  }

  function PartitionNumber(doc: Doc, d: nat, p: nat): Option<u16> {
    if d < |doc.disks| && p < |doc.disks[d].partitions| then doc.disks[d].partitions[p] else None
  }

  function OrZero(n: Option<u16>): u16 {
    if n.Some? then n.value else 0
  }

  function Numbered(dn: u16, pn: u16, entries: seq<Element>): (checks: seq<Check>)
    ensures |checks| == |entries|
  {
    seq(|entries|, i requires 0 <= i < |entries| => Check(dn, pn, i, entries[i]))
  }

  function Tagged(dn: u16, pn: u16, deltas: seq<Delta>): (checks: seq<Check>)
    ensures |checks| == |deltas|
  {
    seq(|deltas|, i requires 0 <= i < |deltas| => Check(dn, pn, deltas[i].blockIndex, deltas[i].element))
  }

  /** Reserved sectors count from zero in their own array; delta blocks carry their logical position. */
  function PartitionChecks(dn: u16, pn: u16, index: PartitionIndex): seq<Check> {
    Numbered(dn, pn, index.reserved) + BlockChecks(dn, pn, index.blocks)
  }

  /** The checks an index's block array gives rise to. */
  function BlockChecks(dn: u16, pn: u16, blocks: Blocks): seq<Check> {
    match blocks
    case Full(entries) => Numbered(dn, pn, entries)
    case Deltas(deltas) => Tagged(dn, pn, deltas)
  }

  function RowChecks(doc: Doc, d: nat, parts: seq<Partition>): seq<Check> {
    if parts == [] then []
    else
      var p := |parts| - 1;
      RowChecks(doc, d, parts[..p])
      + PartitionChecks(OrZero(DiskNumber(doc, d)), OrZero(PartitionNumber(doc, d, p)), parts[p].index)
  }

  function FileChecks(doc: Doc, disks: seq<Disk>): seq<Check> {
    if disks == [] then []
    else
      var d := |disks| - 1;
      FileChecks(doc, disks[..d]) + RowChecks(doc, d, disks[d].partitions)
  }

  // ----- one entry -----

  function StoredBytes(image: seq<byte>, e: Element): Option<seq<byte>> {
    var start := if e.position < 0 then 0 else e.position;
    if start + e.length <= |image| then Some(image[start..start + e.length]) else None
  }

  function Plain(f: Foreign, image: seq<byte>, c: Check): Option<seq<byte>> {
    if c.blockIndex >= U32_LIMIT then None
    else
      match StoredBytes(image, c.entry)
      case Some(stored) => f.plaintext(c.disk, c.partition, c.blockIndex, stored)
      case None => None
  }

  predicate IsOwn(own: u16, e: Element) {
    !e.IsHole() && e.fileNumber == own
  }

  predicate IsElsewhere(own: u16, e: Element) {
    !e.IsHole() && e.fileNumber != own
  }

  /** An own block must decode to its recorded hash; any entry's position must fit 32 bits. */
  predicate Passes(f: Foreign, image: seq<byte>, own: u16, c: Check) {
    && c.blockIndex < U32_LIMIT
    && (IsOwn(own, c.entry) ==>
          Plain(f, image, c).Some? && f.md5(Plain(f, image, c).value) == c.entry.hash)
  }

  function CountOwn(own: u16, checks: seq<Check>): nat {
    if checks == [] then 0
    else CountOwn(own, checks[..|checks| - 1]) + if IsOwn(own, checks[|checks| - 1].entry) then 1 else 0
  }

  function CountElsewhere(own: u16, checks: seq<Check>): nat {
    if checks == [] then 0
    else CountElsewhere(own, checks[..|checks| - 1]) + if IsElsewhere(own, checks[|checks| - 1].entry) then 1 else 0
  }

  function PlainBytes(f: Foreign, image: seq<byte>, own: u16, checks: seq<Check>): nat {
    if checks == [] then 0
    else
      var last := checks[|checks| - 1];
      var rest := PlainBytes(f, image, own, checks[..|checks| - 1]);
      if IsOwn(own, last.entry) && Plain(f, image, last).Some? then rest + |Plain(f, image, last).value| else rest
  }

  /** What a pass over `checks` reports. */
  function ReportOf(f: Foreign, image: seq<byte>, own: u16, checks: seq<Check>): Verified {
    Verified(CountOwn(own, checks), PlainBytes(f, image, own, checks), CountElsewhere(own, checks))
  }

  ghost predicate AllPass(f: Foreign, image: seq<byte>, own: u16, checks: seq<Check>) {
    forall i :: 0 <= i < |checks| ==> Passes(f, image, own, checks[i])
  }

  lemma {:induction false} ReportOfAppend(f: Foreign, image: seq<byte>, own: u16, checks: seq<Check>, c: Check)
    ensures var before, after := ReportOf(f, image, own, checks), ReportOf(f, image, own, checks + [c]);
            && after.blocks == before.blocks + (if IsOwn(own, c.entry) then 1 else 0)
            && after.elsewhere == before.elsewhere + (if IsElsewhere(own, c.entry) then 1 else 0)
            && after.bytes == before.bytes + (if IsOwn(own, c.entry) && Plain(f, image, c).Some? then |Plain(f, image,
                  c).value| else 0)
  {
    assert (checks + [c])[..|checks|] == checks;
  }

  // ----- the loops -----

  /** Read, undo and hash one list of entries, adding to the report. */
  method CheckAll(f: Foreign, image: seq<byte>, own: u16, checks: seq<Check>, start: Verified, ghost before: seq<Check>)
    returns (r: Result<Verified>)
    requires start == ReportOf(f, image, own, before)
    ensures r.Ok? <==> AllPass(f, image, own, checks)
    ensures r.Ok? ==> r.value == ReportOf(f, image, own, before + checks)
  {
    hide Plain, ReportOf;
    var report := start;
    assert before + checks[..0] == before;
    for i := 0 to |checks|
      invariant AllPass(f, image, own, checks[..i])
      invariant report == ReportOf(f, image, own, before + checks[..i])
    {
      var c := checks[i];
      assert before + checks[..i + 1] == (before + checks[..i]) + [c];
      ReportOfAppend(f, image, own, before + checks[..i], c);
      if c.blockIndex >= U32_LIMIT {
        assert !Passes(f, image, own, checks[i]);
        return Err("block index does not fit in 32 bits");
      }
      if c.entry.IsHole() {
        continue;
      }
      if c.entry.fileNumber != own {
        report := report.(elsewhere := report.elsewhere + 1);
        continue;
      }
      var plain := Plain(f, image, c);
      if plain.None? {
        assert !Passes(f, image, own, checks[i]);
        return Err("reading or undoing a block");
      }
      if f.md5(plain.value) != c.entry.hash {
        assert !Passes(f, image, own, checks[i]);
        return Err("a block does not match the hash the index records for it");
      }
      report := Verified(report.blocks + 1, report.bytes + |plain.value|, report.elsewhere);
    }
    assert checks[..|checks|] == checks;
    return Ok(report);
  }

  ghost predicate RowNumbersPresent(doc: Doc, d: nat, count: nat) {
    && (count > 0 ==> DiskNumber(doc, d).Some?)
    && forall p :: 0 <= p < count ==> PartitionNumber(doc, d, p).Some?
  }

  ghost predicate NumbersPresent(doc: Doc, disks: seq<Disk>) {
    forall d :: 0 <= d < |disks| ==> RowNumbersPresent(doc, d, |disks[d].partitions|)
  }

  lemma {:induction false} AllPassConcat(f: Foreign, image: seq<byte>, own: u16, a: seq<Check>, b: seq<Check>)
    ensures AllPass(f, image, own, a + b) <==> AllPass(f, image, own, a) && AllPass(f, image, own, b)
  {
    hide Passes;
    if AllPass(f, image, own, a + b) {
      forall i | 0 <= i < |a| ensures Passes(f, image, own, a[i]) { assert (a + b)[i] == a[i]; }
      forall i | 0 <= i < |b| ensures Passes(f, image, own, b[i]) { assert (a + b)[|a| + i] == b[i]; }
    }
  }

  method VerifyRow(f: Foreign, image: seq<byte>, doc: Doc, d: nat, parts: seq<Partition>, start: Verified,
        ghost before: seq<Check>)
    returns (r: Result<Verified>)
    requires start == ReportOf(f, image, doc.header.fileNumber, before)
    ensures r.Ok?
           <==> RowNumbersPresent(doc, d, |parts|) && AllPass(f, image, doc.header.fileNumber, RowChecks(doc, d, parts))
    ensures r.Ok? ==> r.value == ReportOf(f, image, doc.header.fileNumber, before + RowChecks(doc, d, parts))
  {
    hide ReportOf, Passes, AllPass, PartitionChecks;
    var own, report := doc.header.fileNumber, start;
    NothingPasses(f, image, own);
    assert before + RowChecks(doc, d, parts[..0]) == before;
    for p := 0 to |parts|
      invariant RowNumbersPresent(doc, d, p) && AllPass(f, image, own, RowChecks(doc, d, parts[..p]))
      invariant report == ReportOf(f, image, own, before + RowChecks(doc, d, parts[..p]))
    {
      ghost var soFar := RowChecks(doc, d, parts[..p]);
      var dn, pn := DiskNumber(doc, d), PartitionNumber(doc, d, p);
      if dn.None? || pn.None? {
        return Err("a disk or partition number is missing");
      }
      var checks := PartitionChecks(dn.value, pn.value, parts[p].index);
      assert parts[..p + 1][..p] == parts[..p];
      assert RowChecks(doc, d, parts[..p + 1]) == soFar + checks;
      AllPassConcat(f, image, own, soFar, checks);
      assert before + (soFar + checks) == (before + soFar) + checks;
      var next := CheckAll(f, image, own, checks, report, before + soFar);
      if next.Err? {
        RowFails(f, image, own, doc, d, parts, p + 1);
        return Err(next.error);
      }
      report := next.value;
    }
    assert parts[..|parts|] == parts;
    return Ok(report);
  }

  lemma {:induction false} NothingPasses(f: Foreign, image: seq<byte>, own: u16)
    ensures AllPass(f, image, own, [])
  {
  }

  lemma {:induction false} RowFails(f: Foreign, image: seq<byte>, own: u16, doc: Doc, d: nat, parts: seq<Partition>,
        n: nat)
    requires n <= |parts| && !AllPass(f, image, own, RowChecks(doc, d, parts[..n]))
    ensures !AllPass(f, image, own, RowChecks(doc, d, parts))
  {
    hide AllPass, PartitionChecks;
    if n == |parts| {
      assert parts[..n] == parts;
    } else {
      var p := |parts| - 1;
      assert parts[..p][..n] == parts[..n];
      RowFails(f, image, own, doc, d, parts[..p], n);
      AllPassConcat(f, image, own, RowChecks(doc, d, parts[..p]),
                    PartitionChecks(OrZero(DiskNumber(doc, d)), OrZero(PartitionNumber(doc, d, p)), parts[p].index));
    }
  }

  lemma {:induction false} FileFails(f: Foreign, image: seq<byte>, own: u16, doc: Doc, disks: seq<Disk>, n: nat)
    requires n <= |disks| && !AllPass(f, image, own, FileChecks(doc, disks[..n]))
    ensures !AllPass(f, image, own, FileChecks(doc, disks))
  {
    hide AllPass, RowChecks;
    if n == |disks| {
      assert disks[..n] == disks;
    } else {
      var d := |disks| - 1;
      assert disks[..d][..n] == disks[..n];
      FileFails(f, image, own, doc, disks[..d], n);
      AllPassConcat(f, image, own, FileChecks(doc, disks[..d]), RowChecks(doc, d, disks[d].partitions));
    }
  }

  // ----- the same, of the places of the file -----

  /** An own block is stored within the file and decodes, under the numbers of its place, to the hash recorded. */
  ghost predicate EntryVerifies(f: Foreign, image: seq<byte>, own: u16, dn: u16, pn: u16, i: nat, e: Element) {
    var start := if e.position < 0 then 0 else e.position;
    && i < 0x1_0000_0000
    && (e.length > 0 && e.fileNumber == own ==>
          && start + e.length <= |image|
          && var plain := f.plaintext(dn, pn, i, image[start..start + e.length]);
             plain.Some? && f.md5(plain.value) == e.hash)
  }

  /** Reserved sectors and full blocks count from zero, each in their own array; deltas carry their position. */
  ghost predicate IndexVerifies(f: Foreign, image: seq<byte>, own: u16, dn: u16, pn: u16, index: PartitionIndex) {
    && (forall i :: 0 <= i < |index.reserved| ==> EntryVerifies(f, image, own, dn, pn, i, index.reserved[i]))
    && match index.blocks
       case Full(es) => forall i :: 0 <= i < |es| ==> EntryVerifies(f, image, own, dn, pn, i, es[i])
       case Deltas(ds) =>
         forall i :: 0 <= i < |ds| ==> EntryVerifies(f, image, own, dn, pn, ds[i].blockIndex, ds[i].element)
  }

  /** The document records a number for the disk and the partition, and the blocks decode under those. */
  ghost predicate PlaceVerifies(f: Foreign, file: BackupFile, d: nat, p: nat)
    requires d < |file.disks| && p < |file.disks[d].partitions|
  {
    && d < |file.doc.disks| && file.doc.disks[d].number.Some?
    && p < |file.doc.disks[d].partitions| && file.doc.disks[d].partitions[p].Some?
    && IndexVerifies(f, file.image, file.doc.header.fileNumber, file.doc.disks[d].number.value,
                     file.doc.disks[d].partitions[p].value, file.disks[d].partitions[p].index)
  }

  /** Every place of the file verifies, and some entry is of a block the file holds itself. */
  ghost predicate EveryBlockVerifies(f: Foreign, file: BackupFile) {
    && (forall d :: 0 <= d < |file.disks| ==> RowVerifies(f, file, d))
    && exists e :: HasEntry(file.disks, e) && e.length > 0 && e.fileNumber == file.doc.header.fileNumber
  }

  lemma {:induction false} PassesIff(f: Foreign, image: seq<byte>, own: u16, c: Check)
    ensures Passes(f, image, own, c) <==> EntryVerifies(f, image, own, c.disk, c.partition, c.blockIndex, c.entry)
  {
  }

  lemma {:induction false} PartitionPassIff(f: Foreign, image: seq<byte>, own: u16, dn: u16, pn: u16,
        index: PartitionIndex)
    ensures AllPass(f, image, own, PartitionChecks(dn, pn, index)) <==> IndexVerifies(f, image, own, dn, pn, index)
  {
    hide Passes, EntryVerifies;
    AllPassConcat(f, image, own, Numbered(dn, pn, index.reserved), BlockChecks(dn, pn, index.blocks));
    forall c ensures Passes(f, image, own, c)
                <==> EntryVerifies(f, image, own, c.disk, c.partition, c.blockIndex, c.entry)
    {
      PassesIff(f, image, own, c);
    }
    NumberedPass(f, image, own, dn, pn, index.reserved);
    match index.blocks
    case Full(es) => NumberedPass(f, image, own, dn, pn, es);
    case Deltas(ds) =>
      forall i | 0 <= i < |ds| ensures Tagged(dn, pn, ds)[i] == Check(dn, pn, ds[i].blockIndex, ds[i].element) {}
  }

  lemma {:induction false} NumberedPass(f: Foreign, image: seq<byte>, own: u16, dn: u16, pn: u16, es: seq<Element>)
    ensures AllPass(f, image, own, Numbered(dn, pn, es))
       <==> forall i :: 0 <= i < |es| ==> EntryVerifies(f, image, own, dn, pn, i, es[i])
  {
    hide Passes, EntryVerifies;
    forall i | 0 <= i < |es|
      ensures Passes(f, image, own, Numbered(dn, pn, es)[i]) <==> EntryVerifies(f, image, own, dn, pn, i, es[i])
    {
      PassesIff(f, image, own, Numbered(dn, pn, es)[i]);
    }
  }

  lemma {:induction false} RowPassIff(f: Foreign, image: seq<byte>, own: u16, doc: Doc, d: nat, parts: seq<Partition>)
    ensures AllPass(f, image, own, RowChecks(doc, d, parts))
       <==> forall p :: 0 <= p < |parts| ==>
              IndexVerifies(f, image, own, OrZero(DiskNumber(doc, d)), OrZero(PartitionNumber(doc, d, p)),
                            parts[p].index)
  {
    hide AllPass, PartitionChecks, IndexVerifies;
    if parts == [] {
      NothingPasses(f, image, own);
    } else {
      var n := |parts| - 1;
      var dn, pn := OrZero(DiskNumber(doc, d)), OrZero(PartitionNumber(doc, d, n));
      RowPassIff(f, image, own, doc, d, parts[..n]);
      PartitionPassIff(f, image, own, dn, pn, parts[n].index);
      AllPassConcat(f, image, own, RowChecks(doc, d, parts[..n]), PartitionChecks(dn, pn, parts[n].index));
    }
  }

  lemma {:induction false} FilePassIff(f: Foreign, image: seq<byte>, own: u16, doc: Doc, disks: seq<Disk>)
    ensures AllPass(f, image, own, FileChecks(doc, disks))
       <==> forall d :: 0 <= d < |disks| ==> AllPass(f, image, own, RowChecks(doc, d, disks[d].partitions))
  {
    hide AllPass, RowChecks;
    if disks == [] {
      NothingPasses(f, image, own);
    } else {
      var n := |disks| - 1;
      FilePassIff(f, image, own, doc, disks[..n]);
      AllPassConcat(f, image, own, FileChecks(doc, disks[..n]), RowChecks(doc, n, disks[n].partitions));
    }
  }

  lemma {:induction false} CountsOwn(own: u16, checks: seq<Check>)
    ensures CountOwn(own, checks) > 0 <==> exists c :: c in checks && IsOwn(own, c.entry)
  {
    if checks != [] {
      CountsOwn(own, checks[..|checks| - 1]);
      assert checks == checks[..|checks| - 1] + [checks[|checks| - 1]];
    }
  }

  lemma {:induction false} ChecksOfPartition(dn: u16, pn: u16, index: PartitionIndex, e: Element)
    ensures (exists c :: c in PartitionChecks(dn, pn, index) && c.entry == e) <==> e in EntriesOf(index)
  {
    var checks, entries := PartitionChecks(dn, pn, index), EntriesOf(index);
    assert |checks| == |entries| && forall i :: 0 <= i < |entries| ==> checks[i].entry == entries[i];
    if e in entries {
      var i :| 0 <= i < |entries| && entries[i] == e;
      assert checks[i] in checks;
    }
  }

  lemma {:induction false} ChecksOfRow(doc: Doc, d: nat, parts: seq<Partition>, e: Element)
    ensures (exists c :: c in RowChecks(doc, d, parts) && c.entry == e)
       <==> exists p :: 0 <= p < |parts| && e in EntriesOf(parts[p].index)
  {
    hide PartitionChecks, EntriesOf;
    if parts != [] {
      var n := |parts| - 1;
      ChecksOfRow(doc, d, parts[..n], e);
      ChecksOfPartition(OrZero(DiskNumber(doc, d)), OrZero(PartitionNumber(doc, d, n)), parts[n].index, e);
    }
  }

  lemma {:induction false} ChecksOfFile(doc: Doc, disks: seq<Disk>, e: Element)
    ensures (exists c :: c in FileChecks(doc, disks) && c.entry == e) <==> HasEntry(disks, e)
  {
    hide RowChecks, EntriesOf;
    if disks != [] {
      var n := |disks| - 1;
      ChecksOfFile(doc, disks[..n], e);
      ChecksOfRow(doc, n, disks[n].partitions, e);
      if HasEntry(disks[..n], e) {
        var d, p :| 0 <= d < n && 0 <= p < |disks[d].partitions| && e in EntriesOf(disks[d].partitions[p].index);
        assert HasEntry(disks, e);
      }
    }
  }

  lemma {:induction false} PlaceIff(f: Foreign, file: BackupFile, d: nat, p: nat)
    requires d < |file.disks| && p < |file.disks[d].partitions|
    ensures var dn, pn := DiskNumber(file.doc, d), PartitionNumber(file.doc, d, p);
            PlaceVerifies(f, file, d, p)
            <==> && dn.Some? && pn.Some?
                 && IndexVerifies(f, file.image, file.doc.header.fileNumber, OrZero(dn), OrZero(pn),
                                  file.disks[d].partitions[p].index)
  {
    hide IndexVerifies;
  }

  ghost predicate RowVerifies(f: Foreign, file: BackupFile, d: nat)
    requires d < |file.disks|
  {
    forall p :: 0 <= p < |file.disks[d].partitions| ==> PlaceVerifies(f, file, d, p)
  }

  lemma {:induction false} RowPlacesIff(f: Foreign, file: BackupFile, d: nat)
    requires d < |file.disks|
    ensures var parts := file.disks[d].partitions;
            RowVerifies(f, file, d)
            <==> && RowNumbersPresent(file.doc, d, |parts|)
                 && AllPass(f, file.image, file.doc.header.fileNumber, RowChecks(file.doc, d, parts))
  {
    hide AllPass, RowChecks, IndexVerifies, PlaceVerifies, DiskNumber, PartitionNumber, OrZero;
    var parts, own := file.disks[d].partitions, file.doc.header.fileNumber;
    RowPassIff(f, file.image, own, file.doc, d, parts);
    forall p: nat | p < |parts|
      ensures var dn, pn := DiskNumber(file.doc, d), PartitionNumber(file.doc, d, p);
              PlaceVerifies(f, file, d, p)
              <==> && dn.Some? && pn.Some?
                   && IndexVerifies(f, file.image, own, OrZero(dn), OrZero(pn), parts[p].index)
    {
      PlaceIff(f, file, d, p);
    }
    if RowVerifies(f, file, d) {
      assert |parts| > 0 ==> PlaceVerifies(f, file, d, 0);
      forall p: nat | p < |parts| ensures PartitionNumber(file.doc, d, p).Some? {
        assert PlaceVerifies(f, file, d, p);
      }
      forall p: nat | p < |parts|
        ensures IndexVerifies(f, file.image, own, OrZero(DiskNumber(file.doc, d)),
                              OrZero(PartitionNumber(file.doc, d, p)), parts[p].index)
      {
        assert PlaceVerifies(f, file, d, p);
      }
    }
  }

  /** Every place verifies exactly where all numbers are recorded and all checks pass. */
  lemma {:induction false} PlacesIff(f: Foreign, file: BackupFile)
    ensures (forall d :: 0 <= d < |file.disks| ==> RowVerifies(f, file, d))
       <==> && NumbersPresent(file.doc, file.disks)
            && AllPass(f, file.image, file.doc.header.fileNumber, FileChecks(file.doc, file.disks))
  {
    hide AllPass, FileChecks, RowChecks, RowVerifies, RowNumbersPresent;
    FilePassIff(f, file.image, file.doc.header.fileNumber, file.doc, file.disks);
    forall d: nat | d < |file.disks|
      ensures RowVerifies(f, file, d)
         <==> && RowNumbersPresent(file.doc, d, |file.disks[d].partitions|)
              && AllPass(f, file.image, file.doc.header.fileNumber, RowChecks(file.doc, d, file.disks[d].partitions))
    {
      RowPlacesIff(f, file, d);
    }
  }

  /** A verify pass says exactly this of a file, in terms of the numbers its document records. */
  lemma {:induction false} VerifiesIff(f: Foreign, file: BackupFile)
    ensures FileVerifies(f, file) <==> EveryBlockVerifies(f, file)
  {
    var own, checks := file.Header().fileNumber, FileChecks(file.doc, file.disks);
    hide AllPass, FileChecks, NumbersPresent, PlaceVerifies, HasEntry, CountOwn;
    CountsOwn(own, checks);
    forall e ensures (exists c :: c in checks && c.entry == e) <==> HasEntry(file.disks, e) {
      ChecksOfFile(file.doc, file.disks, e);
    }
    PlacesIff(f, file);
  }

  /** What a verify pass accepts: every own block decodes to its hash, and there is at least one. */
  ghost predicate FileVerifies(f: Foreign, file: BackupFile) {
    var own, checks := file.Header().fileNumber, FileChecks(file.doc, file.disks);
    && NumbersPresent(file.doc, file.disks)
    && AllPass(f, file.image, own, checks)
    && CountOwn(own, checks) > 0
  }

  /** Verify one file; blocks of other files are counted and skipped. */
  method VerifyFile(f: Foreign, path: string, image: seq<byte>) returns (r: Result<Verified>)
    ensures r.Ok? <==> ParseFile(f, path, image).Ok? && FileVerifies(f, ParseFile(f, path, image).value)
    ensures r.Ok? <==> ParseFile(f, path, image).Ok? && EveryBlockVerifies(f, ParseFile(f, path, image).value)
    ensures r.Ok? ==> var file := ParseFile(f, path, image).value;
                      r.value == ReportOf(f, image, file.Header().fileNumber, FileChecks(file.doc, file.disks))
  {
    hide Passes, AllPass, RowChecks, RowNumbersPresent, PlainBytes, ParseFile, EveryBlockVerifies;
    var file: BackupFile :- Reader.Parse(f, path, image);
    VerifiesIff(f, file);
    ParsedImage(f, path, image);
    var own := file.Header().fileNumber;
    var report := Verified(0, 0, 0);
    NothingReported(f, image, own);
    NothingPasses(f, image, own);
    for d := 0 to |file.disks|
      invariant forall c :: 0 <= c < d ==> RowNumbersPresent(file.doc, c, |file.disks[c].partitions|)
      invariant AllPass(f, image, own, FileChecks(file.doc, file.disks[..d]))
      invariant report == ReportOf(f, image, own, FileChecks(file.doc, file.disks[..d]))
    {
      ghost var soFar := FileChecks(file.doc, file.disks[..d]);
      assert file.disks[..d + 1][..d] == file.disks[..d];
      AllPassConcat(f, image, own, soFar, RowChecks(file.doc, d, file.disks[d].partitions));
      var next := VerifyRow(f, image, file.doc, d, file.disks[d].partitions, report, soFar);
      if next.Err? {
        if RowNumbersPresent(file.doc, d, |file.disks[d].partitions|) {
          FileFails(f, image, own, file.doc, file.disks, d + 1);
        }
        return Err(next.error);
      }
      report := next.value;
    }
    assert file.disks[..|file.disks|] == file.disks;
    if report.blocks == 0 {
      return Err("the file holds no block of its own to test");
    }
    return Ok(report);
  }

  lemma {:induction false} ParsedImage(f: Foreign, path: string, image: seq<byte>)
    ensures ParseFile(f, path, image).Ok? ==> ParseFile(f, path, image).value.image == image
  {
    if ParseFile(f, path, image).Ok? {
      ParsedStructure(f, path, image);
    }
  }

  lemma {:induction false} NothingReported(f: Foreign, image: seq<byte>, own: u16)
    ensures ReportOf(f, image, own, []) == Verified(0, 0, 0)
  {
  }
}
