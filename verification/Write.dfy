/** The data region: every block that moves is copied once, and every entry is rewritten to where it landed. */
module Write {
  import opened Wrappers
  import opened Bytes
  import opened Index
  import Block
  import opened Reader
  import opened Set
  import opened Plan

  // ----- sources -----

  /** The open source files, keyed by every file number they answer for. */
  type Source = map<u16, seq<byte>>

  function ReadBlock(source: Source, number: u16, position: int, length: nat): (r: Result<seq<byte>>)
    ensures r.Ok? <==> number in source && 0 <= position && position + length <= |source[number]|
    ensures r.Ok? ==> r.value == source[number][position..position + length]
  {
    if number !in source then Err("no open handle for that file number")
    else if position < 0 then Err("block position is negative")
    else if position + length > |source[number]| then Err("reading past the end of a source file")
    else Ok(source[number][position..position + length])
  }

  /** One handle for each absorbed number; a number nobody owns is an error. */
  method OpenSources(backupSet: BackupSet, absorbed: set<u16>) returns (r: Result<Source>)
    requires backupSet.Valid()
    ensures r.Ok? <==> forall n :: n in absorbed ==> Owner(backupSet.members, n).Some?
    ensures r.Ok? ==> r.value == SourcesOf(backupSet.members, absorbed)
  {
    hide Claims, DisjointClaims;
    var handles: Source := map[];
    var left := absorbed;
    while left != {}
      invariant left <= absorbed
      invariant handles.Keys == absorbed - left
      invariant forall n :: n in handles ==>
                  Owner(backupSet.members, n).Some? && handles[n] == Owner(backupSet.members, n).value.image
      decreases |left|
    {
      var n :| n in left;
      var owner := backupSet.OwnerOf(n);
      if owner.None? {
        return Err("no member of the set owns that file number");
      }
      handles := handles[n := owner.value.image];
      left := left - {n};
    }
    return Ok(handles);
  }

  function SourcesOf(members: seq<BackupFile>, absorbed: set<u16>): Source {
    map n | n in absorbed && Owner(members, n).Some? :: Owner(members, n).value.image
  }

  // ----- the layout of the region -----

  /** What makes two copies the same copy. */
  datatype Key = Key(fileNumber: u16, position: i64, length: u32)

  function KeyOf(e: Element): Key {
    Key(e.fileNumber, e.position, e.length)
  }

  /** The keys of the actions that copy, in order. */
  function CopyKeys(actions: seq<Action>): seq<Key> {
    if actions == [] then []
    else
      var init, last := CopyKeys(actions[..|actions| - 1]), actions[|actions| - 1];
      if last.Copy? then init + [KeyOf(last.element)] else init
  }

  /** Each key once, in the order of its first occurrence. */
  function FirstSeen(keys: seq<Key>): seq<Key> {
    if keys == [] then []
    else
      var init, last := FirstSeen(keys[..|keys| - 1]), keys[|keys| - 1];
      if last in init then init else init + [last]
  }

  function TotalLength(keys: seq<Key>): nat {
    if keys == [] then 0 else TotalLength(keys[..|keys| - 1]) + keys[|keys| - 1].length
  }

  /** Where a key's copy starts: after everything laid out before it. */
  function Offset(order: seq<Key>, key: Key): nat
    requires key in order
  {
    var init := order[..|order| - 1];
    assert order == init + [order[|order| - 1]];
    if key in init then Offset(init, key) else TotalLength(init)
  }

  predicate Readable(source: Source, key: Key) {
    ReadBlock(source, key.fileNumber, key.position, key.length).Ok?
  }

  function SourceBytes(source: Source, key: Key): (bytes: seq<byte>)
    ensures Readable(source, key) ==> |bytes| == key.length
  {
    match ReadBlock(source, key.fileNumber, key.position, key.length)
    case Ok(bytes) => bytes
    case Err(_) => []
  }

  /** The source bytes of every key, one after the other. */
  function Payload(source: Source, order: seq<Key>): seq<byte> {
    if order == [] then []
    else Payload(source, order[..|order| - 1]) + SourceBytes(source, order[|order| - 1])
  }

  /** Every key can be read, and starts at an offset a signed 64-bit position can hold. */
  ghost predicate Copyable(source: Source, order: seq<Key>) {
    forall j :: 0 <= j < |order| ==> Readable(source, order[j]) && TotalLength(order[..j]) < I64_LIMIT
  }

  // ----- one key at a time -----

  lemma {:induction false} LayoutOfAppend(source: Source, order: seq<Key>, key: Key)
    ensures TotalLength(order + [key]) == TotalLength(order) + key.length
    ensures Payload(source, order + [key]) == Payload(source, order) + SourceBytes(source, key)
    ensures Offset(order + [key], key) == if key in order then Offset(order, key) else TotalLength(order)
  {
    assert (order + [key])[..|order|] == order;
  }

  lemma {:induction false} FirstSeenOfAppend(keys: seq<Key>, key: Key)
    ensures FirstSeen(keys + [key]) == if key in FirstSeen(keys) then FirstSeen(keys) else FirstSeen(keys) + [key]
    ensures Repeats(keys + [key]) == if key in keys then Repeats(keys) + [key] else Repeats(keys)
  {
    assert (keys + [key])[..|keys|] == keys;
  }

  lemma {:induction false} CopyKeysOfAppend(actions: seq<Action>, action: Action)
    ensures CopyKeys(actions + [action])
         == if action.Copy? then CopyKeys(actions) + [KeyOf(action.element)] else CopyKeys(actions)
  {
    assert (actions + [action])[..|actions|] == actions;
  }

  // ----- what the region promises -----

  lemma {:induction false} PayloadLength(source: Source, order: seq<Key>)
    requires Copyable(source, order)
    ensures |Payload(source, order)| == TotalLength(order) < U64_LIMIT - Block.DATA_ALIGNMENT
  {
    if order != [] {
      var init := order[..|order| - 1];
      CopyablePrefix(source, order, |order| - 1);
      PayloadLength(source, init);
    }
  }

  lemma {:induction false} CopyablePrefix(source: Source, order: seq<Key>, n: nat)
    requires Copyable(source, order) && n <= |order|
    ensures Copyable(source, order[..n])
  {
    forall j | 0 <= j < n ensures Readable(source, order[..n][j]) && TotalLength(order[..n][..j]) < I64_LIMIT {
      assert order[..n][..j] == order[..j];
    }
  }

  lemma {:induction false} HoldsAtGrown(piece: seq<byte>, at: nat, image: seq<byte>, more: seq<byte>)
    requires HoldsAt(image, at, piece)
    ensures HoldsAt(image + more, at, piece)
  {
    assert (image + more)[at..at + |piece|] == image[at..at + |piece|];
  }

  /** Each key's range of the region holds exactly its source bytes. */
  lemma {:induction false} PayloadHolds(source: Source, order: seq<Key>, key: Key)
    requires Copyable(source, order) && key in order
    ensures Readable(source, key) && Offset(order, key) < I64_LIMIT
    ensures HoldsAt(Payload(source, order), Offset(order, key), SourceBytes(source, key))
  {
    hide ReadBlock, SourceBytes, Payload, TotalLength, Offset, HoldsAt;
    var n := |order| - 1;
    var init, last := order[..n], order[n];
    assert order == init + [last];
    CopyablePrefix(source, order, n);
    PayloadLength(source, init);
    LayoutOfAppend(source, init, last);
    assert Readable(source, order[n]) && TotalLength(order[..n]) < I64_LIMIT;
    if key in init {
      PayloadHolds(source, init, key);
      OffsetIsStable(init, order, key);
      HoldsAtGrown(SourceBytes(source, key), Offset(init, key), Payload(source, init), SourceBytes(source, last));
    } else {
      HoldsAtEnd(Payload(source, init), SourceBytes(source, last));
    }
  }

  lemma {:induction false} HoldsAtEnd(image: seq<byte>, piece: seq<byte>)
    ensures HoldsAt(image + piece, |image|, piece)
  {
  }

  lemma {:induction false} OffsetBounds(order: seq<Key>, key: Key)
    requires key in order
    ensures Offset(order, key) + key.length <= TotalLength(order)
  {
    var init := order[..|order| - 1];
    if key in init {
      OffsetBounds(init, key);
    }
  }

  ghost predicate Covers(order: seq<Key>, key: Key, x: int)
    requires key in order
  {
    Offset(order, key) <= x < Offset(order, key) + key.length
  }

  /** The ranges of distinct keys do not overlap. */
  lemma {:induction false} RangesAreDisjoint(order: seq<Key>, a: Key, b: Key, x: int)
    requires a in order && b in order && Covers(order, a, x) && Covers(order, b, x)
    ensures a == b
  {
    var init, last := order[..|order| - 1], order[|order| - 1];
    assert order == init + [last];
    if a in init && b in init {
      RangesAreDisjoint(init, a, b, x);
    } else if a in init {
      OffsetBounds(init, a);
    } else if b in init {
      OffsetBounds(init, b);
    }
  }

  ghost predicate Distinct(keys: seq<Key>) {
    forall i, j :: 0 <= i < j < |keys| ==> keys[i] != keys[j]
  }

  /** The ranges leave no gap: every byte of the payload belongs to some key. */
  lemma {:induction false} RangesTile(order: seq<Key>, x: nat)
    requires Distinct(order) && x < TotalLength(order)
    ensures exists key :: key in order && Covers(order, key, x)
  {
    var init, last := order[..|order| - 1], order[|order| - 1];
    assert order == init + [last];
    if x < TotalLength(init) {
      RangesTile(init, x);
      var key :| key in init && Covers(init, key, x);
      assert key in order && Covers(order, key, x);
    } else {
      assert last in order && Covers(order, last, x);
    }
  }

  lemma {:induction false} FirstSeenMeaning(keys: seq<Key>)
    ensures Distinct(FirstSeen(keys))
    ensures forall k :: k in FirstSeen(keys) <==> k in keys
  {
    if keys != [] {
      var init, last := keys[..|keys| - 1], keys[|keys| - 1];
      assert keys == init + [last];
      FirstSeenMeaning(init);
    }
  }

  lemma {:induction false} FirstSeenGrows(a: seq<Key>, b: seq<Key>)
    ensures FirstSeen(a) <= FirstSeen(a + b)
  {
    if b == [] {
      assert a + b == a;
    } else {
      assert (a + b)[..|a + b| - 1] == a + b[..|b| - 1];
      FirstSeenGrows(a, b[..|b| - 1]);
    }
  }

  /** A copy never moves once it is laid out. */
  lemma {:induction false} OffsetIsStable(order: seq<Key>, longer: seq<Key>, key: Key)
    requires order <= longer && key in order
    ensures key in longer && Offset(longer, key) == Offset(order, key)
  {
    if |longer| > |order| {
      OffsetIsStable(order, longer[..|longer| - 1], key);
    } else {
      assert order == longer;
    }
  }

  lemma {:induction false} CopyKeysOfConcat(a: seq<Action>, b: seq<Action>)
    ensures CopyKeys(a + b) == CopyKeys(a) + CopyKeys(b)
  {
    if b == [] {
      assert a + b == a;
    } else {
      assert (a + b)[..|a + b| - 1] == a + b[..|b| - 1];
      CopyKeysOfConcat(a, b[..|b| - 1]);
    }
  }

  /** The bytes the plan announces are the lengths of all copies, duplicates included. */
  lemma {:induction false} PlannedBytes(actions: seq<Action>)
    ensures SumBytes(actions) == TotalLength(CopyKeys(actions))
    ensures CountCopies(actions) == |CopyKeys(actions)|
  {
    if actions != [] {
      var init, last := actions[..|actions| - 1], actions[|actions| - 1];
      PlannedBytes(init);
      if last.Copy? {
        LayoutOfAppend(map[], CopyKeys(init), KeyOf(last.element));
      }
    }
  }

  /** The copies that repeat an earlier key, which are the ones the duplicate map avoids. */
  function Repeats(keys: seq<Key>): seq<Key> {
    if keys == [] then []
    else
      var init, last := keys[..|keys| - 1], keys[|keys| - 1];
      if last in init then Repeats(init) + [last] else Repeats(init)
  }

  /** Nothing is lost or counted twice: what is laid out and what is avoided make up what was planned. */
  lemma {:induction false} RepeatsAccount(keys: seq<Key>)
    ensures |FirstSeen(keys)| + |Repeats(keys)| == |keys|
    ensures TotalLength(FirstSeen(keys)) + TotalLength(Repeats(keys)) == TotalLength(keys)
  {
    if keys != [] {
      var init, last := keys[..|keys| - 1], keys[|keys| - 1];
      RepeatsAccount(init);
      FirstSeenMeaning(init);
      LayoutOfAppend(map[], Repeats(init), last);
      LayoutOfAppend(map[], FirstSeen(init), last);
    }
  }

  // ----- the copy loop -----

  /** What a written entry must be for its action, given where the copies were laid out. */
  ghost predicate EntryMatches(action: Action, e: Element, order: seq<Key>, outNumber: u16) {
    match action
    case Hole => e == HOLE
    case Keep(kept) => e == kept
    case Copy(source) =>
      && KeyOf(source) in order
      && e.position == Offset(order, KeyOf(source))
      && e.hash == source.hash && e.length == source.length && e.fileNumber == outNumber
  }

  ghost predicate Written(actions: seq<Action>, entries: seq<Element>, order: seq<Key>, outNumber: u16) {
    && |entries| == |actions|
    && forall i :: 0 <= i < |actions| ==> EntryMatches(actions[i], entries[i], order, outNumber)
  }

  lemma {:induction false} WrittenLength(actions: seq<Action>, entries: seq<Element>, order: seq<Key>, outNumber: u16)
    requires Written(actions, entries, order, outNumber)
    ensures |entries| == |actions|
  {
  }

  lemma {:induction false} WrittenIsStable(actions: seq<Action>, entries: seq<Element>, order: seq<Key>,
        longer: seq<Key>, outNumber: u16)
    requires Written(actions, entries, order, outNumber) && order <= longer
    ensures Written(actions, entries, longer, outNumber)
  {
    forall i | 0 <= i < |actions| ensures EntryMatches(actions[i], entries[i], longer, outNumber) {
      assert EntryMatches(actions[i], entries[i], order, outNumber);
      if actions[i].Copy? {
        OffsetIsStable(order, longer, KeyOf(actions[i].element));
      }
    }
  }

  /** The state of the copy after the keys `done`: the output, its length, the duplicate map, the counter. */
  datatype CopyState = CopyState(out: seq<byte>, at: nat, seen: map<Key, nat>, duplicatesAvoided: nat) {
    ghost predicate Tracks(source: Source, done: seq<Key>) {
      var order := FirstSeen(done);
      && Copyable(source, order)
      && out == Payload(source, order)
      && at == TotalLength(order)
      && (forall k :: k in seen <==> k in order)
      && (forall k :: k in order ==> seen[k] == Offset(order, k))
      && duplicatesAvoided == |Repeats(done)|
    }
  }

  lemma {:induction false} TracksDuplicate(source: Source, done: seq<Key>, state: CopyState, key: Key)
    requires state.Tracks(source, done) && key in state.seen
    ensures FirstSeen(done + [key]) == FirstSeen(done)
    ensures state.(duplicatesAvoided := state.duplicatesAvoided + 1).Tracks(source, done + [key])
  {
    hide Copyable, Payload, TotalLength, Offset, FirstSeen, Repeats;
    FirstSeenOfAppend(done, key);
    FirstSeenMeaning(done);
  }

  lemma {:induction false} CopyableGrows(source: Source, order: seq<Key>, key: Key)
    requires Copyable(source, order) && Readable(source, key) && TotalLength(order) < I64_LIMIT
    ensures Copyable(source, order + [key])
  {
    var grown := order + [key];
    forall j | 0 <= j < |grown| ensures Readable(source, grown[j]) && TotalLength(grown[..j]) < I64_LIMIT {
      assert grown[..j] == order[..j];
      assert order[..|order|] == order;
    }
  }

  lemma {:induction false} TracksNew(source: Source, done: seq<Key>, state: CopyState, key: Key)
    requires state.Tracks(source, done) && key !in state.seen
    requires Readable(source, key) && state.at < I64_LIMIT
    ensures FirstSeen(done + [key]) == FirstSeen(done) + [key]
    ensures CopyState(state.out + SourceBytes(source, key), state.at + key.length,
                      state.seen[key := state.at], state.duplicatesAvoided).Tracks(source, done + [key])
  {
    hide Copyable, Payload, TotalLength, Offset, FirstSeen, Repeats;
    FirstSeenOfAppend(done, key);
    FirstSeenMeaning(done);
    var order := FirstSeen(done);
    CopyableGrows(source, order, key);
    LayoutOfAppend(source, order, key);
    forall k | k in order ensures Offset(order + [key], k) == Offset(order, k) {
      OffsetIsStable(order, order + [key], k);
    }
  }

  lemma {:induction false} StuckCopy(source: Source, done: seq<Key>, key: Key, rest: seq<Key>)
    requires key !in FirstSeen(done)
    requires !Readable(source, key) || TotalLength(FirstSeen(done)) >= I64_LIMIT
    ensures !Copyable(source, FirstSeen(done + [key] + rest))
  {
    var order := FirstSeen(done);
    FirstSeenOfAppend(done, key);
    FirstSeenGrows(done + [key], rest);
    var all := FirstSeen(done + [key] + rest);
    assert order + [key] <= all;
    assert all[|order|] == key && all[..|order|] == order;
  }

  /** Copy one block, or find that it was copied before. */
  method CopyOne(e: Element, source: Source, outNumber: u16, start: CopyState, ghost done: seq<Key>)
    returns (r: Result<Element>, state: CopyState)
    requires start.Tracks(source, done)
    ensures r.Err? ==> forall rest :: !Copyable(source, FirstSeen(done + [KeyOf(e)] + rest))
    ensures r.Ok? ==> state.Tracks(source, done + [KeyOf(e)])
    ensures r.Ok? ==> EntryMatches(Copy(e), r.value, FirstSeen(done + [KeyOf(e)]), outNumber)
  {
    hide Copyable, FirstSeen, Repeats, Payload, TotalLength, Offset;
    var key := KeyOf(e);
    state := start;
    FirstSeenMeaning(done + [key]);
    if key in state.seen {
      TracksDuplicate(source, done, state, key);
      PayloadHolds(source, FirstSeen(done), key);
      r := Ok(Element(state.seen[key], e.hash, e.length, outNumber));
      state := state.(duplicatesAvoided := state.duplicatesAvoided + 1);
      return;
    }
    var bytes := ReadBlock(source, e.fileNumber, e.position, e.length);
    if bytes.Err? || state.at >= I64_LIMIT {
      forall rest ensures !Copyable(source, FirstSeen(done + [key] + rest)) {
        StuckCopy(source, done, key, rest);
      }
      return Err("copying a block"), state;
    }
    TracksNew(source, done, state, key);
    LayoutOfAppend(source, FirstSeen(done), key);
    r := Ok(Element(state.at, e.hash, e.length, outNumber));
    state := CopyState(state.out + bytes.value, state.at + e.length, state.seen[key := state.at],
                       state.duplicatesAvoided);
  }

  /**
   * Copy one array of actions. It succeeds exactly when every key laid out so far can be read and
   * placed; the entries then say where each copy landed, and kept entries and holes are untouched.
   */
  method CopyActions(actions: seq<Action>, source: Source, outNumber: u16, start: CopyState, ghost done: seq<Key>)
    returns (r: Result<seq<Element>>, state: CopyState)
    requires start.Tracks(source, done)
    ensures r.Ok? <==> Copyable(source, FirstSeen(done + CopyKeys(actions)))
    ensures r.Ok? ==> state.Tracks(source, done + CopyKeys(actions))
    ensures r.Ok? ==> Written(actions, r.value, FirstSeen(done + CopyKeys(actions)), outNumber)
    ensures r.Ok? ==> |r.value| == |actions|
    ensures r.Ok? ==> forall i :: 0 <= i < |actions| && actions[i].Hole? ==> IsBlank(r.value[i])
  {
    hide Copyable, FirstSeen, Repeats, Payload, TotalLength, Offset, EntryMatches;
    state := start;
    var entries: seq<Element> := [];
    assert done + CopyKeys(actions[..0]) == done;
    for i := 0 to |actions|
      invariant state.Tracks(source, done + CopyKeys(actions[..i]))
      invariant Written(actions[..i], entries, FirstSeen(done + CopyKeys(actions[..i])), outNumber)
      invariant |entries| == i && forall k :: 0 <= k < i && actions[k].Hole? ==> IsBlank(entries[k])
    {
      ghost var before := done + CopyKeys(actions[..i]);
      assert actions[..i + 1] == actions[..i] + [actions[i]];
      CopyKeysOfAppend(actions[..i], actions[i]);
      match actions[i] {
        case Hole =>
          UncopiedMatches(actions[i], HOLE, FirstSeen(before), outNumber);
          entries := entries + [HOLE];
        case Keep(e) =>
          UncopiedMatches(actions[i], e, FirstSeen(before), outNumber);
          entries := entries + [e];
        case Copy(e) =>
          assert done + CopyKeys(actions[..i + 1]) == before + [KeyOf(e)];
          FirstSeenGrows(before, [KeyOf(e)]);
          WrittenIsStable(actions[..i], entries, FirstSeen(before), FirstSeen(before + [KeyOf(e)]), outNumber);
          var entry;
          entry, state := CopyOne(e, source, outNumber, state, before);
          if entry.Err? {
            CopyKeysSplit(actions, i);
            assert done + CopyKeys(actions) == before + [KeyOf(e)] + CopyKeys(actions[i + 1..]);
            return Err(entry.error), state;
          }
          entries := entries + [entry.value];
      }
    }
    assert actions[..|actions|] == actions;
    r := Ok(entries);
  }

  lemma {:induction false} UncopiedMatches(action: Action, e: Element, order: seq<Key>, outNumber: u16)
    requires action == (if e == HOLE && action.Hole? then Hole else Keep(e))
    ensures EntryMatches(action, e, order, outNumber)
  {
  }

  lemma {:induction false} CopyKeysSplit(actions: seq<Action>, i: nat)
    requires i < |actions| && actions[i].Copy?
    ensures CopyKeys(actions) == CopyKeys(actions[..i]) + [KeyOf(actions[i].element)] + CopyKeys(actions[i + 1..])
  {
    var front, rest := actions[..i], actions[i + 1..];
    assert actions == (front + [actions[i]]) + rest;
    CopyKeysOfConcat(front + [actions[i]], rest);
    CopyKeysOfAppend(front, actions[i]);
  }

  // ----- the whole region -----

  datatype WrittenPartition = WrittenPartition(disk: nat, partition: nat, index: PartitionIndex)

  datatype DataRegion = DataRegion(
    partitions: seq<WrittenPartition>, payloadBytes: nat, end: nat, duplicatesAvoided: nat)

  /** Put the entries into the form the output's index uses. */
  function ShapeBlocks(kind: MergeKind, positions: seq<u32>, entries: seq<Element>): Result<Blocks> {
    if !kind.DeltaIndex() then Ok(Full(entries))
    else if |positions| != |entries| then Err("delta entries and positions differ in number")
    else Ok(Deltas(seq(|entries|, i requires 0 <= i < |entries| => Delta(entries[i], positions[i]))))
  }

  ghost predicate PartitionWritten(kind: MergeKind, plan: PartitionPlan, written: WrittenPartition,
                                   order: seq<Key>, outNumber: u16) {
    && written.disk == plan.disk && written.partition == plan.partition
    && Written(plan.reserved, written.index.reserved, order, outNumber)
    && match written.index.blocks
       case Full(entries) => kind.SyntheticFull? && Written(plan.blocks, entries, order, outNumber)
       case Deltas(deltas) =>
         && kind.IncrementalMerge?
         && Written(plan.blocks, DeltaElements(deltas), order, outNumber)
         && |plan.positions| == |deltas|
         && forall i :: 0 <= i < |deltas| ==> deltas[i].blockIndex == plan.positions[i]
  }

  function PlanKeys(partitions: seq<PartitionPlan>): seq<Key> {
    CopyKeys(AllActions(partitions))
  }

  /** The order in which a plan's copies are laid out. */
  function Layout(plan: MergePlan): seq<Key> {
    FirstSeen(PlanKeys(plan.partitions))
  }

  /** What the data region is: the laid-out payload, zeros to the boundary, and the entries that describe it. */
  ghost predicate RegionWritten(plan: MergePlan, source: Source, outNumber: u16, region: DataRegion, out: seq<byte>) {
    var order := Layout(plan);
    && Copyable(source, order)
    && region.payloadBytes == TotalLength(order)
    && region.end == Block.AlignUp(region.payloadBytes)
    && out == Payload(source, order) + Zeros(region.end - region.payloadBytes)
    && region.duplicatesAvoided == |Repeats(PlanKeys(plan.partitions))|
    && PartitionsWritten(plan.kind, plan.partitions, region.partitions, order, outNumber)
  }

  method WriteZeros(start: seq<byte>, count: nat) returns (out: seq<byte>)
    ensures out == start + Zeros(count)
  {
    var left := count;
    out := start;
    while left > 0
      invariant 0 <= left <= count
      invariant out == start + Zeros(count - left)
    {
      var n := if left < 8192 then left else 8192;
      out := out + Zeros(n);
      left := left - n;
    }
  }

  lemma {:induction false} AllActionsGrows(partitions: seq<PartitionPlan>, n: nat)
    requires n <= |partitions|
    ensures AllActions(partitions[..n]) <= AllActions(partitions)
  {
    if n == |partitions| {
      assert partitions[..n] == partitions;
    } else {
      var init := partitions[..|partitions| - 1];
      assert init[..n] == partitions[..n];
      AllActionsGrows(init, n);
    }
  }

  lemma {:induction false} KeysOfPrefix(actions: seq<Action>, all: seq<Action>)
    requires actions <= all
    ensures exists rest :: CopyKeys(all) == CopyKeys(actions) + rest
  {
    assert all == actions + all[|actions|..];
    CopyKeysOfConcat(actions, all[|actions|..]);
  }

  /** A layout that cannot be copied makes every longer layout one that cannot be copied. */
  lemma {:induction false} StuckPrefix(source: Source, actions: seq<Action>, all: seq<Action>)
    requires actions <= all && !Copyable(source, FirstSeen(CopyKeys(actions)))
    ensures !Copyable(source, FirstSeen(CopyKeys(all)))
  {
    KeysOfPrefix(actions, all);
    var rest :| CopyKeys(all) == CopyKeys(actions) + rest;
    FirstSeenGrows(CopyKeys(actions), rest);
    StuckOrder(source, FirstSeen(CopyKeys(actions)), FirstSeen(CopyKeys(all)));
  }

  lemma {:induction false} StuckOrder(source: Source, order: seq<Key>, longer: seq<Key>)
    requires order <= longer && !Copyable(source, order)
    ensures !Copyable(source, longer)
  {
    var j :| 0 <= j < |order| && !(Readable(source, order[j]) && TotalLength(order[..j]) < I64_LIMIT);
    assert longer[j] == order[j] && longer[..j] == order[..j];
  }

  lemma {:induction false} PartitionWrittenIsStable(kind: MergeKind, plan: PartitionPlan, written: WrittenPartition,
        order: seq<Key>, longer: seq<Key>, outNumber: u16)
    requires PartitionWritten(kind, plan, written, order, outNumber) && order <= longer
    ensures PartitionWritten(kind, plan, written, longer, outNumber)
  {
    WrittenIsStable(plan.reserved, written.index.reserved, order, longer, outNumber);
    match written.index.blocks
    case Full(entries) => WrittenIsStable(plan.blocks, entries, order, longer, outNumber);
    case Deltas(deltas) => WrittenIsStable(plan.blocks, DeltaElements(deltas), order, longer, outNumber);
  }

  /** One partition of the region: its reserved sectors, then its blocks, then the form of its index. */
  method WritePartition(kind: MergeKind, part: PartitionPlan, source: Source, outNumber: u16,
                        start: CopyState, ghost done: seq<Key>)
    returns (r: Result<WrittenPartition>, state: CopyState)
    requires start.Tracks(source, done)
    ensures r.Ok? <==> && Copyable(source, FirstSeen(done + CopyKeys(part.Actions())))
                       && (kind.DeltaIndex() ==> |part.positions| == |part.blocks|)
    ensures r.Ok? ==> state.Tracks(source, done + CopyKeys(part.Actions()))
    ensures r.Ok? ==> PartitionWritten(kind, part, r.value, FirstSeen(done + CopyKeys(part.Actions())), outNumber)
  {
    hide Copyable, Written, CopyKeys, FirstSeen, CopyState.Tracks;
    state := start;
    CopyKeysOfConcat(part.reserved, part.blocks);
    ghost var mid, all := done + CopyKeys(part.reserved), done + CopyKeys(part.Actions());
    assert all == mid + CopyKeys(part.blocks);
    FirstSeenGrows(mid, CopyKeys(part.blocks));
    var reserved, blocks;
    reserved, state := CopyActions(part.reserved, source, outNumber, state, done);
    if reserved.Err? {
      StuckOrder(source, FirstSeen(mid), FirstSeen(all));
      return Err(reserved.error), state;
    }
    blocks, state := CopyActions(part.blocks, source, outNumber, state, mid);
    if blocks.Err? {
      return Err(blocks.error), state;
    }
    WrittenIsStable(part.reserved, reserved.value, FirstSeen(mid), FirstSeen(all), outNumber);
    WrittenLength(part.blocks, blocks.value, FirstSeen(all), outNumber);
    var shaped := ShapeBlocks(kind, part.positions, blocks.value);
    if shaped.Err? {
      return Err(shaped.error), state;
    }
    assert shaped.value.Deltas? ==> DeltaElements(shaped.value.deltas) == blocks.value;
    r := Ok(WrittenPartition(part.disk, part.partition, PartitionIndex(reserved.value, shaped.value)));
  }

  lemma {:induction false} NothingIsTracked(source: Source)
    ensures CopyState([], 0, map[], 0).Tracks(source, [])
  {
  }

  /** Every partition of a plan is written, given one layout. */
  ghost predicate PartitionsWritten(kind: MergeKind, plans: seq<PartitionPlan>, written: seq<WrittenPartition>,
                                    order: seq<Key>, outNumber: u16) {
    && |written| == |plans|
    && forall k :: 0 <= k < |plans| ==> PartitionWritten(kind, plans[k], written[k], order, outNumber)
  }

  lemma {:induction false} PartitionsWrittenGrow(kind: MergeKind, plans: seq<PartitionPlan>,
        written: seq<WrittenPartition>, plan: PartitionPlan, next: WrittenPartition, order: seq<Key>, longer: seq<Key>,
        outNumber: u16)
    requires PartitionsWritten(kind, plans, written, order, outNumber) && order <= longer
    requires PartitionWritten(kind, plan, next, longer, outNumber)
    ensures PartitionsWritten(kind, plans + [plan], written + [next], longer, outNumber)
  {
    forall k | 0 <= k < |plans| ensures PartitionWritten(kind, plans[k], written[k], longer, outNumber) {
      PartitionWrittenIsStable(kind, plans[k], written[k], order, longer, outNumber);
    }
  }

  lemma {:induction false} PlanKeysOfAppend(partitions: seq<PartitionPlan>, part: PartitionPlan)
    ensures PlanKeys(partitions + [part]) == PlanKeys(partitions) + CopyKeys(part.Actions())
  {
    assert (partitions + [part])[..|partitions|] == partitions;
    CopyKeysOfConcat(AllActions(partitions), part.Actions());
  }

  ghost predicate PositionsFit(kind: MergeKind, partitions: seq<PartitionPlan>) {
    kind.DeltaIndex() ==> forall k :: 0 <= k < |partitions| ==> |partitions[k].positions| == |partitions[k].blocks|
  }

  /**
   * Write the data region. It succeeds exactly when every planned copy can be read and placed and
   * every delta partition has one position per block.
   */
  method WriteDataRegion(plan: MergePlan, source: Source, outNumber: u16)
    returns (r: Result<DataRegion>, out: seq<byte>)
    ensures r.Ok? <==> Copyable(source, Layout(plan)) && PositionsFit(plan.kind, plan.partitions)
    ensures r.Ok? ==> RegionWritten(plan, source, outNumber, r.value, out)
  {
    hide Copyable, PartitionsWritten, PlanKeys, FirstSeen, Repeats, Payload, TotalLength, Offset;
    var state := CopyState([], 0, map[], 0);
    NothingIsTracked(source);
    var partitions: seq<WrittenPartition> := [];
    ghost var parts := plan.partitions;
    NothingIsWritten(plan.kind, outNumber);
    for k := 0 to |plan.partitions|
      invariant state.Tracks(source, PlanKeys(parts[..k]))
      invariant PartitionsWritten(plan.kind, parts[..k], partitions, FirstSeen(PlanKeys(parts[..k])), outNumber)
      invariant PositionsFit(plan.kind, parts[..k])
    {
      var part := plan.partitions[k];
      ghost var done, more := PlanKeys(parts[..k]), CopyKeys(part.Actions());
      assert parts[..k + 1] == parts[..k] + [part];
      PlanKeysOfAppend(parts[..k], part);
      var written;
      written, state := WritePartition(plan.kind, part, source, outNumber, state, done);
      out := state.out;
      if written.Err? {
        if !Copyable(source, FirstSeen(done + more)) {
          StuckPlan(source, parts, k + 1);
        }
        return Err(written.error), out;
      }
      FirstSeenGrows(done, more);
      PartitionsWrittenGrow(plan.kind, parts[..k], partitions, part, written.value,
                            FirstSeen(done), FirstSeen(done + more), outNumber);
      partitions := partitions + [written.value];
    }
    assert parts[..|parts|] == parts;
    var end := Block.AlignUp(state.at);
    out := WriteZeros(state.out, end - state.at);
    r := Ok(DataRegion(partitions, state.at, end, state.duplicatesAvoided));
  }

  lemma {:induction false} StuckPlan(source: Source, parts: seq<PartitionPlan>, n: nat)
    requires n <= |parts| && !Copyable(source, FirstSeen(PlanKeys(parts[..n])))
    ensures !Copyable(source, FirstSeen(PlanKeys(parts)))
  {
    AllActionsGrows(parts, n);
    StuckPrefix(source, AllActions(parts[..n]), AllActions(parts));
  }

  lemma {:induction false} NothingIsWritten(kind: MergeKind, outNumber: u16)
    ensures PlanKeys([]) == [] && PartitionsWritten(kind, [], [], FirstSeen([]), outNumber)
  {
  }

  // ----- the region is determined -----

  lemma {:induction false} EntriesAreUnique(actions: seq<Action>, xs: seq<Element>, ys: seq<Element>, order: seq<Key>,
        outNumber: u16)
    requires Written(actions, xs, order, outNumber) && Written(actions, ys, order, outNumber)
    ensures xs == ys
  {
    hide Offset;
    forall i | 0 <= i < |xs| ensures xs[i] == ys[i] {
      assert EntryMatches(actions[i], xs[i], order, outNumber) && EntryMatches(actions[i], ys[i], order, outNumber);
    }
  }

  lemma {:induction false} PartitionIsUnique(kind: MergeKind, plan: PartitionPlan, a: WrittenPartition,
        b: WrittenPartition, order: seq<Key>, outNumber: u16)
    requires PartitionWritten(kind, plan, a, order, outNumber) && PartitionWritten(kind, plan, b, order, outNumber)
    ensures a == b
  {
    hide Written;
    EntriesAreUnique(plan.reserved, a.index.reserved, b.index.reserved, order, outNumber);
    match (a.index.blocks, b.index.blocks) {
      case (Full(xs), Full(ys)) => EntriesAreUnique(plan.blocks, xs, ys, order, outNumber);
      case (Deltas(xs), Deltas(ys)) =>
        EntriesAreUnique(plan.blocks, DeltaElements(xs), DeltaElements(ys), order, outNumber);
        forall i | 0 <= i < |xs| ensures xs[i] == ys[i] {
          assert DeltaElements(xs)[i] == DeltaElements(ys)[i];
        }
        assert xs == ys;
      case _ =>
    }
  }

  /** A plan over given sources has one data region: nothing about it is left to choice. */
  lemma {:induction false} RegionIsUnique(plan: MergePlan, source: Source, outNumber: u16, a: DataRegion, x: seq<byte>,
        b: DataRegion, y: seq<byte>)
    requires RegionWritten(plan, source, outNumber, a, x) && RegionWritten(plan, source, outNumber, b, y)
    ensures a == b && x == y
  {
    hide Copyable, TotalLength, Payload, Repeats, PlanKeys, FirstSeen, PartitionWritten;
    var order := Layout(plan);
    forall k | 0 <= k < |plan.partitions| ensures a.partitions[k] == b.partitions[k] {
      PartitionIsUnique(plan.kind, plan.partitions[k], a.partitions[k], b.partitions[k], order, outNumber);
    }
    assert a.partitions == b.partitions;
  }

  lemma {:induction false} RegionMeansFit(plan: MergePlan, source: Source, outNumber: u16, region: DataRegion,
        out: seq<byte>)
    requires RegionWritten(plan, source, outNumber, region, out)
    ensures Copyable(source, Layout(plan)) && PositionsFit(plan.kind, plan.partitions)
  {
    hide Copyable, Layout, TotalLength, Payload, Written;
    forall k | 0 <= k < |plan.partitions| && plan.kind.DeltaIndex()
      ensures |plan.partitions[k].positions| == |plan.partitions[k].blocks|
    {
      var part, written := plan.partitions[k], region.partitions[k];
      assert PartitionWritten(plan.kind, part, written, Layout(plan), outNumber);
      WrittenLength(part.blocks, DeltaElements(written.index.blocks.deltas), Layout(plan), outNumber);
    }
  }
}
