/** What a set restores to: the content behind each resolved entry. */
module Restore {
  import opened Bytes
  import opened Index
  import opened Reader
  import opened Set

  /** What a restore writes for one entry: nothing, stored bytes with their hash, or a failure. */
  datatype Content = Absent | Stored(bytes: seq<byte>, hash: Hash) | Unreadable

  function ContentOf(members: seq<BackupFile>, e: Element): Content {
    if e.IsHole() then Absent
    else
      match Owner(members, e.fileNumber)
      case None => Unreadable
      case Some(m) =>
        if 0 <= e.position && e.position + e.length <= |m.image|
        then Stored(m.image[e.position..e.position + e.length], e.hash)
        else Unreadable
  }

  function Contents(members: seq<BackupFile>, entries: seq<Element>): seq<Content> {
    seq(|entries|, i requires 0 <= i < |entries| => ContentOf(members, entries[i]))
  }

  /** One restored partition as of the newest member: its reserved sectors and its blocks. */
  datatype Restored = Restored(reserved: seq<Content>, blocks: seq<Content>)

  function RestoredPartition(members: seq<BackupFile>, d: nat, p: nat): Restored
    requires members != []
  {
    Restored(Contents(members, ReservedOf(members[0], d, p)), Contents(members, Chain(members, d, p)))
  }

  /** Two entry lists of two sets stand for the same contents, position by position. */
  ghost predicate SameContents(before: seq<BackupFile>, xs: seq<Element>, after: seq<BackupFile>, ys: seq<Element>) {
    && |xs| == |ys|
    && forall i :: 0 <= i < |xs| ==> ContentOf(before, xs[i]) == ContentOf(after, ys[i])
  }

  /** No entry of these members names a number of `s`. */
  ghost predicate NamesNone(members: seq<BackupFile>, s: set<u16>) {
    forall m, e :: m in members && HasEntry(m.disks, e) && !e.IsHole() ==> e.fileNumber !in s
  }

  lemma {:induction false} EntryOfMember(m: BackupFile, d: nat, p: nat, e: Element)
    requires e in FullEntriesOf(m, d, p) || e in ReservedOf(m, d, p) || exists i :: Delta(e, i) in DeltasOf(m, d, p)
    ensures HasEntry(m.disks, e)
  {
    var index := m.disks[d].partitions[p].index;
    if e !in FullEntriesOf(m, d, p) && e !in ReservedOf(m, d, p) {
      var i :| Delta(e, i) in DeltasOf(m, d, p);
      var k :| 0 <= k < |index.blocks.deltas| && index.blocks.deltas[k] == Delta(e, i);
      assert DeltaElements(index.blocks.deltas)[k] == e;
    }
    assert e in EntriesOf(index);
  }

  lemma {:induction false} WriterIsDelta(deltas: seq<Delta>, i: nat)
    requires LastWriter(deltas, i).Some?
    ensures exists d :: d in deltas && d.blockIndex == i && d.element == LastWriter(deltas, i).value
  {
    LastWriterMeaning(deltas, i);
  }

  /** Every resolved entry is a hole or was recorded by some member. */
  lemma {:induction false} ChainEntries(members: seq<BackupFile>, d: nat, p: nat, e: Element)
    requires e in Chain(members, d, p)
    ensures e == HOLE || exists m :: m in members && HasEntry(m.disks, e)
  {
    if IsFull(members[0]) {
      EntryOfMember(members[0], d, p, e);
    } else {
      var older, deltas := Chain(members[1..], d, p), DeltasOf(members[0], d, p);
      var i :| 0 <= i < |Replay(older, deltas)| && Replay(older, deltas)[i] == e;
      if LastWriter(deltas, i).Some? {
        WriterIsDelta(deltas, i);
        EntryOfMember(members[0], d, p, e);
      } else if i < |older| {
        ChainEntries(members[1..], d, p, e);
      }
    }
  }

  lemma {:induction false} ChainNamesNone(members: seq<BackupFile>, s: set<u16>, d: nat, p: nat)
    requires NamesNone(members, s)
    ensures forall e :: e in Chain(members, d, p) && !e.IsHole() ==> e.fileNumber !in s
  {
    forall e | e in Chain(members, d, p) && !e.IsHole() ensures e.fileNumber !in s {
      ChainEntries(members, d, p, e);
    }
  }

  lemma {:induction false} HoleIsAbsent(members: seq<BackupFile>)
    ensures ContentOf(members, HOLE) == Absent
  {
  }
}
