/** The whole run of a merge: its steps in order, and what every state a kill could leave still holds. */
module Cli {
  import opened Wrappers
  import opened Bytes
  import opened Json
  import opened Reader
  import opened Set
  import opened Plan
  import opened Write
  import opened Output
  import opened Reread
  import opened Restore
  import opened Merge
  import opened Preserve
  import opened Readback
  import opened Runs
  import opened Commit
  import Verify

  // ----- which files the output makes redundant -----

  /** `path` is the file of the owner of an absorbed number below `n`. */
  ghost predicate OwnedUpTo(members: seq<BackupFile>, absorbed: set<u16>, path: string, n: nat) {
    exists k: u16 :: k < n && k in absorbed && Owner(members, k).Some? && Owner(members, k).value.path == path
  }

  /** The first absorbed number that belongs to `a` is lower than every one that belongs to `b`. */
  ghost predicate FoundBefore(members: seq<BackupFile>, absorbed: set<u16>, a: string, b: string) {
    exists n: nat :: OwnedUpTo(members, absorbed, a, n) && !OwnedUpTo(members, absorbed, b, n)
  }

  ghost predicate InOrder(members: seq<BackupFile>, absorbed: set<u16>, paths: seq<string>) {
    forall i, j :: 0 <= i < j < |paths| ==> FoundBefore(members, absorbed, paths[i], paths[j])
  }

  /** The paths to delete: those of the absorbed members, each once, by their lowest absorbed number. */
  method RedundantPaths(backupSet: BackupSet, absorbed: set<u16>) returns (paths: seq<string>)
    requires backupSet.Valid()
    ensures forall p :: p in paths <==> OwnedUpTo(backupSet.members, absorbed, p, 0x1_0000)
    ensures forall i, j :: 0 <= i < j < |paths| ==> paths[i] != paths[j]
    ensures InOrder(backupSet.members, absorbed, paths)
  {
    hide Claims, Owner;
    paths := [];
    for n := 0 to 0x1_0000
      invariant forall p :: p in paths <==> OwnedUpTo(backupSet.members, absorbed, p, n)
      invariant forall i, j :: 0 <= i < j < |paths| ==> paths[i] != paths[j]
      invariant InOrder(backupSet.members, absorbed, paths)
    {
      if n in absorbed {
        var owner := backupSet.OwnerOf(n);
        if owner.Some? && owner.value.path !in paths {
          forall i | 0 <= i < |paths|
            ensures FoundBefore(backupSet.members, absorbed, paths[i], owner.value.path)
          {
            assert paths[i] in paths;
          }
          paths := paths + [owner.value.path];
        }
      }
      OneMoreNumber(backupSet.members, absorbed, n);
    }
  }

  lemma {:induction false} OneMoreNumber(members: seq<BackupFile>, absorbed: set<u16>, n: u16)
    ensures forall p :: OwnedUpTo(members, absorbed, p, n + 1) <==>
              OwnedUpTo(members, absorbed, p, n)
              || (n in absorbed && Owner(members, n).Some? && Owner(members, n).value.path == p)
  {
    hide Owner;
    forall p | OwnedUpTo(members, absorbed, p, n) ensures OwnedUpTo(members, absorbed, p, n + 1) {
      var k: u16 :| k < n && k in absorbed && Owner(members, k).Some? && Owner(members, k).value.path == p;
      assert k < n + 1;
    }
  }

  /** The redundant paths are exactly those of the members whose numbers the merge absorbed. */
  lemma {:induction false} RedundantAreAbsorbed(members: seq<BackupFile>, plan: MergePlan, path: string)
    requires DisjointClaims(members) && IsPlan(members, plan)
    ensures OwnedUpTo(members, plan.absorbed, path, 0x1_0000) <==> path in AbsorbedPaths(members, plan.absorbed)
  {
    hide IsPlan, Claims;
    if OwnedUpTo(members, plan.absorbed, path, 0x1_0000) {
      var k: u16 :| k in plan.absorbed && Owner(members, k).Some? && Owner(members, k).value.path == path;
      AbsorbedByIncrement(members, plan, Owner(members, k).value, k);
    }
    if path in AbsorbedPaths(members, plan.absorbed) {
      var m :| m in members && m.Header().fileNumber in plan.absorbed && m.path == path;
      var i :| 0 <= i < |members| && members[i] == m;
      OwnNumberIsClaimed(m);
      OwnerIs(members, i, m.Header().fileNumber);
    }
  }

  function AbsorbedPaths(members: seq<BackupFile>, absorbed: set<u16>): set<string> {
    set m | m in members && m.Header().fileNumber in absorbed :: m.path
  }

  // ----- one run -----

  /** Everything one run cannot decide: what the disk, the lock and the rename come to. */
  datatype World = World(
    fits: bool, lockFault: LockFault, opens: bool, creates: bool, permissions: bool,
    reserves: bool, room: nat, cuts: bool, flush: Flush, mount: Mount, replies: seq<RenameReply>,
    rereads: bool, stuck: set<string>)

  predicate HoldsFullIndex(m: BackupFile) {
    !m.doc.header.deltaIndex && !m.doc.header.splitFile
  }

  /** The newest member with a full index of its own. */
  ghost predicate IsBaseAt(members: seq<BackupFile>, b: nat) {
    && b < |members| && HoldsFullIndex(members[b])
    && forall i :: 0 <= i < b ==> !HoldsFullIndex(members[i])
  }

  /** What one run is asked to do, and the files it finds. */
  datatype Run = Run(f: Foreign, members: seq<BackupFile>, plan: MergePlan, directory: string, name: string,
                     verify: bool, temp: string, before: Files)
  {
    function Out(): (path: string)
      ensures path == directory + "/" + name
    {
      Join(directory, name)
    }

    /** The output's name and the base's document, from which a synthetic Full takes the disk sizes. */
    function Stamp(): (stamp: Stamp)
      ensures stamp.name == name
      ensures forall b: nat :: IsBaseAt(members, b) ==> stamp.base == members[b].doc.rest
    {
      assert forall b: nat :: IsBaseAt(members, b) ==> BaseIndex(members) == Some(b);
      Json.Stamp(name, match BaseIndex(members) case Some(b) => members[b].doc.rest case None => "")
    }

    function LockPath(): (path: string)
      ensures path == directory + "/merge_running"
    {
      Join(directory, LOCK_NAME)
    }

    function Absorbed(): set<string> {
      AbsorbedPaths(members, plan.absorbed)
    }

    /** The set is parsed from files that are there, each under a path of its own, and the temporary name is free. */
    ghost predicate Valid() {
      && members != [] && DisjointClaims(members) && IsPlan(members, plan)
      && (forall m :: m in members ==> IsParsed(f, m))
      && (forall i, j :: 0 <= i < j < |members| ==> members[i].path != members[j].path)
      && SourcesThere(before) && |members[0].image| < I64_LIMIT
      && temp !in before && temp != Out() && temp != LockPath()
    }

    /** The source handle of the To file answers for it, and its lists end within it. */
    ghost predicate Sound(source: Source)
      requires members != []
    {
      && source == SourcesOf(members, plan.absorbed)
      && DisksOrdered(members[0].disks)
      && SourceHolds(source, plan.to, members[0].image) && EndsWithin(members[0].disks, |members[0].image|)
    }

    ghost predicate SourcesThere(files: Files) {
      forall m :: m in members ==> m.path in files && files[m.path] == m.image
    }

    /** The bytes of a finished output. */
    ghost predicate IsOutput(bytes: seq<byte>)
      requires members != []
    {
      && DisksOrdered(members[0].disks)
      && exists w :: OutputWritten(f, members[0], plan, SourcesOf(members, plan.absorbed), Stamp(), w, bytes)
    }

    /**
     * What the run asks of a finished output before it deletes anything: the read-back and, where asked, the
     * hashes.
     */
    ghost predicate Accepts(bytes: seq<byte>) {
      && PassesCheck(f, plan, Out(), bytes)
      && (verify ==> Verifies(bytes))
    }

    ghost predicate Verifies(bytes: seq<byte>) {
      var parsed := ParseFile(f, Out(), bytes);
      parsed.Ok? && Verify.FileVerifies(f, parsed.value)
    }

    /**
     * What a kill may leave: the destination name holds a finished output or nothing, no file but the lock,
     * the temporary, the output and the absorbed ones has changed, either every source is there unchanged
     * or the output there has passed what the run asks of it, and the deleted ones are the first in order.
     */
    ghost predicate IsSafe(files: Files)
      requires members != []
    {
      && (Out() in files ==> IsOutput(files[Out()]))
      && Others(files) == Others(before)
      && (SourcesThere(files) || (Out() in files && Accepts(files[Out()])))
      && DeletedInOrder(files)
    }

    /** Where an absorbed file is still there, so is every one that is to be deleted after it. */
    ghost predicate DeletedInOrder(files: Files) {
      forall a, b :: a in Absorbed() && b in Absorbed() && FoundBefore(members, plan.absorbed, a, b) && a in files
        ==> b in files
    }

    ghost function Others(files: Files): Files {
      files - ({Out(), LockPath(), temp} + Absorbed())
    }

    // The three stretches of a run, each up to the lock and the temporary file.

    ghost predicate Early(files: Files) {
      files - {LockPath(), temp} == before - {LockPath(), temp}
    }

    ghost predicate Placed(files: Files, bytes: seq<byte>) {
      files - {LockPath(), temp} == before[Out() := bytes] - {LockPath(), temp}
    }

    ghost predicate Deleting(files: Files, bytes: seq<byte>) {
      files - {LockPath(), temp} - Absorbed() == before[Out() := bytes] - {LockPath(), temp} - Absorbed()
    }

    /** Neither the destination nor the lock exists yet, and they are not one name. */
    ghost predicate Apart() {
      Out() !in before && LockPath() !in before && Out() != LockPath()
    }
  }

  lemma {:induction false} Agree(a: Files, b: Files, names: set<string>)
    requires a - names == b - names
    ensures forall p :: p !in names ==> (p in a <==> p in b)
    ensures forall p :: p !in names && p in a ==> a[p] == b[p]
  {
    forall p | p !in names ensures p in a <==> p in b {
      assert p in a - names <==> p in b - names;
    }
    forall p | p !in names && p in a ensures a[p] == b[p] {
      assert (a - names)[p] == (b - names)[p];
    }
  }

  /** No source has one of the names a run writes under. */
  lemma {:induction false} SourcesApart(run: Run)
    requires run.Valid() && run.Apart()
    ensures run.SourcesThere(run.before) && run.temp !in run.before && run.temp != run.Out()
    ensures run.temp != run.LockPath()
    ensures forall m :: m in run.members ==> m.path !in {run.Out(), run.LockPath(), run.temp}
    ensures run.Out() !in run.Absorbed() && run.LockPath() !in run.Absorbed() && run.temp !in run.Absorbed()
  {
    hide IsPlan, DisjointClaims, IsParsed, Join;
  }

  lemma {:induction false} NoneDeleted(run: Run, files: Files)
    requires run.SourcesThere(files)
    ensures run.DeletedInOrder(files)
  {
    hide FoundBefore;
  }

  lemma {:induction false} EarlyIsSafe(run: Run, files: Files)
    requires run.members != [] && run.Valid() && run.Apart() && run.Early(files)
    ensures run.IsSafe(files) && run.SourcesThere(files)
  {
    hide Run.Valid, AbsorbedPaths, Run.IsOutput, Run.Accepts, Join, Run.DeletedInOrder;
    SourcesApart(run);
    Agree(files, run.before, {run.LockPath(), run.temp});
    assert run.Others(files) == run.Others(run.before);
    NoneDeleted(run, files);
  }

  lemma {:induction false} PlacedKeepsSources(run: Run, files: Files, bytes: seq<byte>)
    requires run.Valid() && run.Out() !in run.before && run.LockPath() !in run.before && run.Placed(files, bytes)
    ensures run.SourcesThere(files)
  {
    hide IsPlan, DisjointClaims, IsParsed, Join;
    Agree(files, run.before[run.Out() := bytes], {run.LockPath(), run.temp});
  }

  lemma {:induction false} PlacedIsSafe(run: Run, files: Files, bytes: seq<byte>)
    requires run.members != [] && run.Valid() && run.Apart() && run.Placed(files, bytes) && run.IsOutput(bytes)
    ensures run.IsSafe(files) && run.SourcesThere(files) && run.Out() in files && files[run.Out()] == bytes
  {
    hide Run.Valid, AbsorbedPaths, Run.IsOutput, Run.Accepts, Join, Run.DeletedInOrder;
    SourcesApart(run);
    Agree(files, run.before[run.Out() := bytes], {run.LockPath(), run.temp});
    assert run.Others(files) == run.Others(run.before);
    NoneDeleted(run, files);
  }

  lemma {:induction false} DeletingIsSafe(run: Run, files: Files, bytes: seq<byte>)
    requires run.members != [] && run.Valid() && run.Apart() && run.Deleting(files, bytes) && run.IsOutput(bytes)
    requires run.Accepts(bytes) && run.DeletedInOrder(files)
    ensures run.IsSafe(files) && run.Out() in files && files[run.Out()] == bytes
  {
    hide Run.Valid, AbsorbedPaths, Run.IsOutput, Run.Accepts, Join, Run.SourcesThere, Run.DeletedInOrder;
    SourcesApart(run);
    var target := run.before[run.Out() := bytes];
    assert files - ({run.LockPath(), run.temp} + run.Absorbed()) == files - {run.LockPath(), run.temp} - run.Absorbed();
    assert target - ({run.LockPath(), run.temp} + run.Absorbed()) == target - {run.LockPath(),
          run.temp} - run.Absorbed();
    Agree(files, target, {run.LockPath(), run.temp} + run.Absorbed());
    assert run.Others(files) == run.Others(run.before);
  }

  /** Every state from the `n`-th on is safe. */
  ghost predicate AllSafe(run: Run, trace: seq<Files>, n: nat)
    requires run.members != []
  {
    forall i :: n <= i < |trace| ==> run.IsSafe(trace[i])
  }

  // ----- the steps -----

  /** Fill the temporary file: permissions, a reservation, the output. `bytes` is what the writer produced. */
  method Fill(fs: FileSystem, run: Run, source: Source, temp: TempOutput, w: World)
    returns (r: Result<WrittenFile>, ghost bytes: seq<byte>)
    requires run.members != [] && run.Sound(source)
    requires temp.Writable(fs) && temp.at == 0 && fs.files[temp.temp] == []
    modifies fs, temp`at
    ensures temp.Writable(fs)
    ensures r.Ok? <==> w.permissions && run.IsOutput(bytes) && |bytes| <= w.room
    ensures r.Err? && w.permissions ==> run.IsOutput(bytes) || forall b :: !run.IsOutput(b)
    ensures r.Ok? ==> r.value.size == |bytes| && bytes <= fs.files[temp.temp]
    ensures r.Ok? ==> var size, want := |fs.files[temp.temp]|, run.plan.ProjectedSize();
                      size == if w.reserves && want > |bytes| then want else |bytes|
    ensures fs.files - {temp.temp} == old(fs.files) - {temp.temp}
    ensures old(fs.trace) <= fs.trace && OnlyTouched(fs.trace, |old(fs.trace)|, old(fs.files), {temp.temp})
  {
    hide OutputWritten, DisksOrdered, EndsWithin, NoOutput, Run.IsOutput;
    if !w.permissions {
      return Err("setting the permissions of the temporary output"), [];
    }
    temp.Reserve(fs, run.plan.ProjectedSize(), w.reserves);
    var written, out := WriteOutput(run.f, run.members[0], run.plan, source, run.Stamp());
    bytes := out;
    WriterVerdict(run, source, written, out);
    var wrote := temp.Write(fs, out, w.room);
    if !wrote {
      return Err("writing the temporary output"), bytes;
    }
    return written, bytes;
  }

  /** The writer's answer, said of the output it wrote. */
  lemma {:induction false} WriterVerdict(run: Run, source: Source, written: Result<WrittenFile>, out: seq<byte>)
    requires run.members != [] && run.Sound(source)
    requires written.Ok? ==> OutputWritten(run.f, run.members[0], run.plan, source, run.Stamp(), written.value, out)
    requires written.Err? ==> NoOutput(run.f, run.members[0], run.plan, source, run.Stamp())
    ensures written.Ok? ==> run.IsOutput(out) && written.value.size == |out|
    ensures written.Err? ==> forall b :: !run.IsOutput(b)
  {
    hide OutputWritten, DisksOrdered, EndsWithin, NoOutput;
    if written.Err? {
      NothingToWrite(run);
    } else {
      SizeOfWritten(run.f, run.members[0], run.plan, source, run.Stamp(), written.value, out);
    }
  }

  lemma {:induction false} NothingToWrite(run: Run)
    requires run.members != [] && DisksOrdered(run.members[0].disks)
    requires NoOutput(run.f, run.members[0], run.plan, SourcesOf(run.members, run.plan.absorbed), run.Stamp())
    ensures forall b :: !run.IsOutput(b)
  {
    hide OutputWritten, DisksOrdered;
  }

  lemma {:induction false} SizeOfWritten(f: Foreign, to: BackupFile, plan: MergePlan, source: Source, stamp: Stamp,
        w: WrittenFile, out: seq<byte>)
    requires DisksOrdered(to.disks) && OutputWritten(f, to, plan, source, stamp, w, out)
    ensures w.size == |out|
  {
  }

  /** A state before the rename, or one with the whole output in place. */
  ghost predicate AtStage(run: Run, files: Files, bytes: seq<byte>)
    requires run.members != []
  {
    run.Early(files) || (run.Placed(files, bytes) && run.IsOutput(bytes))
  }

  ghost predicate AllAtStage(run: Run, trace: seq<Files>, n: nat, bytes: seq<byte>)
    requires run.members != []
  {
    forall i :: n <= i < |trace| ==> AtStage(run, trace[i], bytes)
  }

  lemma {:induction false} EarlyIsAtStage(run: Run, files: Files, bytes: seq<byte>)
    requires run.members != [] && run.Early(files)
    ensures AtStage(run, files, bytes)
  {
  }

  lemma {:induction false} TouchedIsEarly(run: Run, base: Files, trace: seq<Files>, n: nat, bytes: seq<byte>)
    requires run.members != [] && run.Early(base) && OnlyTouched(trace, n, base, {run.temp})
    ensures AllAtStage(run, trace, n, bytes)
  {
    hide Run.IsOutput;
    forall i | n <= i < |trace| ensures run.Early(trace[i]) {
      StillEarly(run, base, trace[i]);
    }
  }

  lemma {:induction false} StillEarly(run: Run, base: Files, files: Files)
    requires run.Early(base) && files - {run.temp} == base - {run.temp}
    ensures run.Early(files)
  {
    assert files - {run.LockPath(), run.temp} == files - {run.temp} - {run.LockPath()};
    assert base - {run.LockPath(), run.temp} == base - {run.temp} - {run.LockPath()};
  }

  lemma {:induction false} StillAtStage(run: Run, base: Files, files: Files, bytes: seq<byte>)
    requires run.members != [] && AtStage(run, base, bytes) && files - {run.temp} == base - {run.temp}
    ensures AtStage(run, files, bytes)
    ensures run.Placed(base, bytes) ==> run.Placed(files, bytes)
  {
    hide Run.IsOutput;
    assert files - {run.LockPath(), run.temp} == files - {run.temp} - {run.LockPath()};
    assert base - {run.LockPath(), run.temp} == base - {run.temp} - {run.LockPath()};
  }

  lemma {:induction false} TraceStaysAtStage(run: Run, base: Files, trace: seq<Files>, n: nat, bytes: seq<byte>)
    requires run.members != [] && AtStage(run, base, bytes) && OnlyTouched(trace, n, base, {run.temp})
    ensures AllAtStage(run, trace, n, bytes)
  {
    hide AtStage;
    forall i | n <= i < |trace| ensures AtStage(run, trace[i], bytes) {
      StillAtStage(run, base, trace[i], bytes);
    }
  }

  /** A commit leaves the state it found, up to the temporary file, or the whole output in place. */
  ghost predicate Committed(run: Run, base: Files, bytes: seq<byte>, files: Files) {
    files - {run.temp} == base - {run.temp} || files == Moved(base[run.temp := bytes], run.temp, run.Out())
  }

  lemma {:induction false} CommittedAtStage(run: Run, base: Files, trace: seq<Files>, n: nat, bytes: seq<byte>)
    requires run.members != [] && run.Early(base) && run.temp != run.Out() && run.IsOutput(bytes)
    requires forall i :: n <= i < |trace| ==> Committed(run, base, bytes, trace[i])
    ensures AllAtStage(run, trace, n, bytes)
  {
    hide Run.IsOutput;
    MovedIsPlaced(run, base, bytes);
    forall i | n <= i < |trace| ensures AtStage(run, trace[i], bytes) {
      assert Committed(run, base, bytes, trace[i]);
      if trace[i] - {run.temp} == base - {run.temp} {
        StillEarly(run, base, trace[i]);
      }
    }
  }

  /** Commit a filled temporary file and drop it. */
  method CommitAndDrop(fs: FileSystem, run: Run, temp: TempOutput, w: World, written: WrittenFile,
        ghost bytes: seq<byte>)
    returns (r: Result<Report>)
    requires run.members != [] && run.IsOutput(bytes) && run.Early(fs.files) && run.temp != run.Out()
    requires temp.Writable(fs) && temp.temp == run.temp && temp.destination == run.Out()
    requires |bytes| == written.size && bytes <= fs.files[temp.temp]
    requires |w.replies| == ATTEMPTS && forall k :: 0 <= k < ATTEMPTS ==> w.replies[k].Possible()
    modifies fs, temp
    ensures r.Ok? ==> run.Placed(fs.files, bytes) && run.temp !in fs.files
    ensures r.Ok? ==> run.Out() in fs.files && fs.files[run.Out()] == bytes
    ensures r.Ok? <==> (|old(fs.files[temp.temp])| > |bytes| ==> w.cuts) && w.flush.Works() && Lands(w.mount, w.replies)
    ensures r.Err? && w.mount.IsRemote() && run.Out() !in old(fs.files) ==> run.Out() !in fs.files
    ensures AtStage(run, fs.files, bytes)
    ensures run.temp !in w.stuck ==> run.temp !in fs.files
    ensures old(fs.trace) <= fs.trace && AllAtStage(run, fs.trace, |old(fs.trace)|, bytes)
  {
    hide Run.IsOutput, AtStage;
    ghost var base, n := fs.files, |fs.trace|;
    assert fs.files[temp.temp][..written.size] == bytes;
    r := temp.Commit(fs, w.mount, written.size, w.cuts, w.flush, w.replies);
    assert forall i :: n <= i < |fs.trace| ==> Committed(run, base, bytes, fs.trace[i]);
    assert Committed(run, base, bytes, fs.files);
    CommittedAtStage(run, base, fs.trace, n, bytes);
    CommittedAtStage(run, base, [fs.files], 0, bytes);
    MovedIsPlaced(run, base, bytes);
    ghost var after, m := fs.files, |fs.trace|;
    assert AtStage(run, [after][0], bytes);
    temp.Drop(fs, run.temp !in w.stuck);
    if w.mount.IsRemote() && r.Err? {
      RemoteMovesLand(w.mount, w.replies);
      Agree(fs.files, base, {run.temp});
    }
    TraceStaysAtStage(run, after, fs.trace, m, bytes);
    StillAtStage(run, after, fs.files, bytes);
  }

  lemma {:induction false} MovedIsPlaced(run: Run, base: Files, bytes: seq<byte>)
    requires run.Early(base) && run.temp != run.Out()
    ensures run.Placed(Moved(base[run.temp := bytes], run.temp, run.Out()), bytes)
  {
    var names, files := {run.LockPath(), run.temp}, Moved(base[run.temp := bytes], run.temp, run.Out());
    Agree(base, run.before, names);
    assert files - names == run.before[run.Out() := bytes] - names;
  }

  /** What the disk must do for an output of `size` bytes to come into place. */
  ghost predicate Commits(run: Run, w: World, size: nat) {
    && w.creates && w.permissions && size <= w.room
    && (w.reserves && run.plan.ProjectedSize() > size ==> w.cuts)
    && w.flush.Works() && Lands(w.mount, w.replies)
  }

  /**
   * Create the temporary file, fill it, commit it, and drop it. Anything that fails leaves the destination
   * alone, or the whole output there.
   */
  method WriteAndCommit(fs: FileSystem, run: Run, source: Source, w: World)
    returns (r: Result<(WrittenFile, Report)>, ghost bytes: seq<byte>)
    requires run.members != [] && run.Sound(source)
    requires run.temp !in fs.files && run.temp != run.Out() && run.Early(fs.files)
    requires |w.replies| == ATTEMPTS && forall k :: 0 <= k < ATTEMPTS ==> w.replies[k].Possible()
    modifies fs
    ensures r.Ok? <==> run.IsOutput(bytes) && Commits(run, w, |bytes|)
    ensures r.Ok? ==> w.creates && w.permissions
    ensures r.Err? && w.mount.IsRemote() && run.Out() !in old(fs.files) ==> run.Out() !in fs.files
    ensures r.Err? && w.creates && w.permissions ==> run.IsOutput(bytes) || forall b :: !run.IsOutput(b)
    ensures r.Ok? ==> run.Placed(fs.files, bytes) && run.IsOutput(bytes) && run.temp !in fs.files
    ensures r.Ok? ==> run.Out() in fs.files && fs.files[run.Out()] == bytes
    ensures AtStage(run, fs.files, bytes)
    ensures run.temp !in w.stuck ==> run.temp !in fs.files
    ensures old(fs.trace) <= fs.trace && AllAtStage(run, fs.trace, |old(fs.trace)|, bytes)
  {
    hide Run.IsOutput, Run.Sound, AtStage;
    bytes := [];
    ghost var start := fs.files;
    var created := CreateTemp(fs, run.temp, run.Out(), w.creates);
    TouchedIsEarly(run, start, fs.trace, |old(fs.trace)|, bytes);
    EarlyIsAtStage(run, start, bytes);
    if created.Err? {
      return Err(created.error), bytes;
    }
    var temp := created.value;
    StillEarly(run, start, fs.files);
    var filled;
    filled, bytes := Fill(fs, run, source, temp, w);
    StillEarly(run, start, fs.files);
    TouchedIsEarly(run, start, fs.trace, |old(fs.trace)|, bytes);
    if filled.Err? {
      temp.Drop(fs, run.temp !in w.stuck);
      StillEarly(run, start, fs.files);
      EarlyIsAtStage(run, fs.files, bytes);
      TouchedIsEarly(run, start, fs.trace, |old(fs.trace)|, bytes);
      Agree(fs.files, start, {run.temp});
      return Err(filled.error), bytes;
    }
    assert run.IsOutput(bytes);
    Agree(fs.files, start, {run.temp});
    var committed := CommitAndDrop(fs, run, temp, w, filled.value, bytes);
    if committed.Err? {
      return Err(committed.error), bytes;
    }
    return Ok((filled.value, committed.value)), bytes;
  }

  lemma {:induction false} AcceptsMeans(run: Run, bytes: seq<byte>)
    ensures run.Accepts(bytes) <==>
              && PassesCheck(run.f, run.plan, run.Out(), bytes)
              && (run.verify ==> run.Verifies(bytes))
    ensures run.Verifies(bytes) <==>
              && ParseFile(run.f, run.Out(), bytes).Ok?
              && Verify.FileVerifies(run.f, ParseFile(run.f, run.Out(), bytes).value)
  {
    hide PassesCheck, ParseFile, Verify.FileVerifies;
  }

  lemma {:induction false} NothingTouched(trace: seq<Files>, base: Files, names: set<string>)
    ensures OnlyTouched(trace, |trace|, base, names)
  {
  }

  // ----- the order of deletions -----

  /** `files` is `base` without the first few of these paths. */
  ghost predicate GonePrefix(base: Files, paths: seq<string>, files: Files) {
    exists n: nat :: n <= |paths| && files == base - Gone(paths, n)
  }

  function Gone(paths: seq<string>, n: nat): set<string>
    requires n <= |paths|
  {
    set p | p in paths[..n]
  }

  ghost predicate AllGonePrefix(trace: seq<Files>, n: nat, base: Files, paths: seq<string>) {
    forall i :: n <= i < |trace| ==> GonePrefix(base, paths, trace[i])
  }

  lemma {:induction false} OwnedLater(members: seq<BackupFile>, absorbed: set<u16>, path: string, n: nat, m: nat)
    requires OwnedUpTo(members, absorbed, path, n) && n <= m
    ensures OwnedUpTo(members, absorbed, path, m)
  {
    hide Owner;
    var k: u16 :| k < n && k in absorbed && Owner(members, k).Some? && Owner(members, k).value.path == path;
    assert k < m;
  }

  lemma {:induction false} FoundBeforeIsStrict(members: seq<BackupFile>, absorbed: set<u16>, a: string, b: string)
    requires FoundBefore(members, absorbed, a, b)
    ensures !FoundBefore(members, absorbed, b, a)
  {
    hide OwnedUpTo;
    var n: nat :| OwnedUpTo(members, absorbed, a, n) && !OwnedUpTo(members, absorbed, b, n);
    forall m: nat ensures OwnedUpTo(members, absorbed, b, m) ==> OwnedUpTo(members, absorbed, a, m) {
      if OwnedUpTo(members, absorbed, b, m) {
        if m <= n {
          OwnedLater(members, absorbed, b, m, n);
        } else {
          OwnedLater(members, absorbed, a, n, m);
        }
      }
    }
  }

  lemma {:induction false} OrderedIndex(members: seq<BackupFile>, absorbed: set<u16>, paths: seq<string>, i: nat,
        j: nat)
    requires InOrder(members, absorbed, paths) && i < |paths| && j < |paths|
    requires FoundBefore(members, absorbed, paths[i], paths[j])
    ensures i < j
  {
    hide FoundBefore;
    FoundBeforeIsStrict(members, absorbed, paths[i], paths[j]);
  }

  lemma {:induction false} GoneMeans(paths: seq<string>, n: nat)
    requires n <= |paths|
    ensures forall p :: p in Gone(paths, n) <==> exists k :: 0 <= k < n && paths[k] == p
  {
    forall p ensures p in Gone(paths, n) <==> exists k :: 0 <= k < n && paths[k] == p {
      if k :| 0 <= k < n && paths[k] == p {
        assert paths[..n][k] == p;
      }
    }
  }

  /** Deleting the paths in turn keeps to the order. */
  lemma {:induction false} PrefixIsOrdered(run: Run, base: Files, paths: seq<string>, files: Files)
    requires run.SourcesThere(base) && GonePrefix(base, paths, files)
    requires InOrder(run.members, run.plan.absorbed, paths)
    requires forall p :: p in paths <==> p in run.Absorbed()
    ensures run.DeletedInOrder(files)
  {
    AbsorbedAreThere(run, base);
    hide AbsorbedPaths, FoundBefore, Run.SourcesThere, Gone, InOrder;
    var members, absorbed := run.members, run.plan.absorbed;
    var n: nat :| n <= |paths| && files == base - Gone(paths, n);
    GoneMeans(paths, n);
    forall a, b | a in run.Absorbed() && b in run.Absorbed() && FoundBefore(members, absorbed, a, b) && a in files
      ensures b in files
    {
      var i :| 0 <= i < |paths| && paths[i] == a;
      forall j | 0 <= j < |paths| && paths[j] == b ensures n <= i < j {
        OrderedIndex(members, absorbed, paths, i, j);
      }
    }
  }

  /** Only once the output was read back is a source removed, that with the lowest absorbed number first. */
  method ReadBackAndDelete(fs: FileSystem, backupSet: BackupSet, run: Run, delete: bool, w: World)
    returns (r: Result<()>)
    requires backupSet.Valid() && run.members == backupSet.members && IsPlan(run.members, run.plan)
    modifies fs
    ensures fs.files - run.Absorbed() == old(fs.files) - run.Absorbed()
    ensures r.Ok? ==> fs.files == if delete then old(fs.files) - run.Absorbed() else old(fs.files)
    ensures r.Ok? <==> && w.rereads && run.Out() in old(fs.files) && run.Accepts(old(fs.files)[run.Out()])
                       && (delete ==> run.Absorbed() !! w.stuck && run.Absorbed() <= old(fs.files).Keys)
    ensures r.Ok? || fs.files != old(fs.files) || |fs.trace| > |old(fs.trace)| ==>
              run.Out() in old(fs.files) && run.Accepts(old(fs.files)[run.Out()])
    ensures old(fs.trace) <= fs.trace && OnlyTouched(fs.trace, |old(fs.trace)|, old(fs.files), run.Absorbed())
    ensures run.SourcesThere(old(fs.files)) ==> run.DeletedInOrder(fs.files)
    ensures run.SourcesThere(old(fs.files)) ==> AllInOrder(run, fs.trace, |old(fs.trace)|)
  {
    NothingTouched(fs.trace, fs.files, run.Absorbed());
    NothingDeleted(run, fs.trace, fs.files);
    hide *;
    ghost var base, n := fs.files, |fs.trace|;
    if !w.rereads || run.Out() !in fs.files {
      return Err("opening the output");
    }
    var checked := CheckOutput(run.f, run.plan, run.Out(), fs.files[run.Out()]);
    AcceptsMeans(run, fs.files[run.Out()]);
    if checked.Err? {
      return Err(checked.error);
    }
    if run.verify {
      var verified := Verify.VerifyFile(run.f, run.Out(), fs.files[run.Out()]);
      if verified.Err? {
        return Err(verified.error);
      }
    }
    var paths := RedundantPaths(backupSet, run.plan.absorbed);
    PathsAreAbsorbed(backupSet, run, paths);
    if delete {
      r := DeleteAll(fs, paths, run.Absorbed(), w.stuck);
      if run.SourcesThere(base) {
        DeletionsInOrder(run, base, paths, fs.trace, n, fs.files);
      }
    } else {
      r := Ok(());
    }
  }

  ghost predicate AllInOrder(run: Run, trace: seq<Files>, n: nat) {
    forall i :: n <= i < |trace| ==> run.DeletedInOrder(trace[i])
  }

  lemma {:induction false} NothingDeleted(run: Run, trace: seq<Files>, files: Files)
    ensures AllInOrder(run, trace, |trace|)
    ensures run.SourcesThere(files) ==> run.DeletedInOrder(files)
  {
    if run.SourcesThere(files) {
      NoneDeleted(run, files);
    }
  }

  lemma {:induction false} DeletionsInOrder(run: Run, base: Files, paths: seq<string>, trace: seq<Files>, n: nat,
        last: Files)
    requires run.SourcesThere(base) && InOrder(run.members, run.plan.absorbed, paths)
    requires forall p :: p in paths <==> p in run.Absorbed()
    requires AllGonePrefix(trace, n, base, paths) && GonePrefix(base, paths, last)
    ensures AllInOrder(run, trace, n) && run.DeletedInOrder(last)
  {
    hide AbsorbedPaths, InOrder, GonePrefix, Run.SourcesThere, Run.DeletedInOrder;
    PrefixIsOrdered(run, base, paths, last);
    forall i | n <= i < |trace| ensures run.DeletedInOrder(trace[i]) {
      PrefixIsOrdered(run, base, paths, trace[i]);
    }
  }

  lemma {:induction false} PathsAreAbsorbed(backupSet: BackupSet, run: Run, paths: seq<string>)
    requires backupSet.Valid() && run.members == backupSet.members && IsPlan(run.members, run.plan)
    requires forall p :: p in paths <==> OwnedUpTo(run.members, run.plan.absorbed, p, 0x1_0000)
    ensures forall p :: p in paths <==> p in run.Absorbed()
  {
    hide IsPlan, OwnedUpTo, AbsorbedPaths;
    forall p ensures p in paths <==> p in run.Absorbed() {
      RedundantAreAbsorbed(run.members, run.plan, p);
    }
  }

  /** Delete each path in turn; the first that cannot be deleted ends the run. */
  method DeleteAll(fs: FileSystem, paths: seq<string>, ghost all: set<string>, stuck: set<string>)
    returns (r: Result<()>)
    requires forall p :: p in paths <==> p in all
    requires forall i, j :: 0 <= i < j < |paths| ==> paths[i] != paths[j]
    modifies fs
    ensures r.Ok? <==> all !! stuck && all <= old(fs.files).Keys
    ensures r.Ok? ==> fs.files == old(fs.files) - all
    ensures fs.files - all == old(fs.files) - all
    ensures old(fs.trace) <= fs.trace && OnlyTouched(fs.trace, |old(fs.trace)|, old(fs.files), all)
    ensures AllGonePrefix(fs.trace, |old(fs.trace)|, old(fs.files), paths) && GonePrefix(old(fs.files), paths, fs.files)
  {
    for i := 0 to |paths|
      invariant fs.files == old(fs.files) - Gone(paths, i)
      invariant AllGonePrefix(fs.trace, |old(fs.trace)|, old(fs.files), paths)
      invariant forall k :: 0 <= k < i ==> paths[k] !in stuck && paths[k] in old(fs.files)
      invariant old(fs.trace) <= fs.trace && OnlyTouched(fs.trace, |old(fs.trace)|, old(fs.files), all)
    {
      assert paths[..i + 1] == paths[..i] + [paths[i]];
      var ok := fs.Remove(paths[i], paths[i] !in stuck);
      if !ok {
        return Err("deleting an absorbed file");
      }
    }
    assert paths[..|paths|] == paths;
    return Ok(());
  }

  // ----- the run -----

  lemma {:induction false} AtStageIsSafe(run: Run, files: Files, bytes: seq<byte>)
    requires run.members != [] && run.Valid() && run.Apart() && AtStage(run, files, bytes)
    ensures run.IsSafe(files)
  {
    hide Run.Valid, Run.Apart, Run.IsSafe, Run.IsOutput, Run.SourcesThere, Run.Early, Run.Placed;
    if run.Early(files) {
      EarlyIsSafe(run, files);
    } else {
      PlacedIsSafe(run, files, bytes);
    }
  }

  lemma {:induction false} StagesAreSafe(run: Run, trace: seq<Files>, n: nat, bytes: seq<byte>)
    requires run.members != [] && run.Valid() && run.Apart() && AllAtStage(run, trace, n, bytes)
    ensures AllSafe(run, trace, n)
  {
    hide Run.Valid, Run.Apart, Run.IsSafe, AtStage;
    forall i | n <= i < |trace| ensures run.IsSafe(trace[i]) {
      AtStageIsSafe(run, trace[i], bytes);
    }
  }

  lemma {:induction false} StillDeleting(run: Run, base: Files, files: Files, bytes: seq<byte>)
    requires run.Placed(base, bytes) && files - run.Absorbed() == base - run.Absorbed()
    ensures run.Deleting(files, bytes)
  {
    hide AbsorbedPaths, Join;
    var names := {run.LockPath(), run.temp};
    assert files - names - run.Absorbed() == files - run.Absorbed() - names;
    assert base - names - run.Absorbed() == base - run.Absorbed() - names;
  }

  lemma {:induction false} DeletionsAreSafe(run: Run, base: Files, trace: seq<Files>, n: nat, bytes: seq<byte>)
    requires run.members != [] && run.Valid() && run.Apart() && run.Placed(base, bytes) && run.IsOutput(bytes)
    requires run.Accepts(bytes) && OnlyTouched(trace, n, base, run.Absorbed()) && AllInOrder(run, trace, n)
    ensures AllSafe(run, trace, n)
  {
    hide Run.Valid, Run.Apart, Run.IsSafe, Run.IsOutput, Run.Accepts, Run.Placed, Run.Deleting, Run.Absorbed, Run.Out,
      Run.DeletedInOrder;
    forall i | n <= i < |trace| ensures run.IsSafe(trace[i]) {
      StillDeleting(run, base, trace[i], bytes);
      DeletingIsSafe(run, trace[i], bytes);
    }
  }

  lemma {:induction false} SourceIsSound(run: Run, source: Source)
    requires run.members != [] && run.Valid() && source == SourcesOf(run.members, run.plan.absorbed)
    ensures run.Sound(source)
  {
    assert run.members[0] in run.members;
    ParsedIsOrdered(run.f, run.members[0]);
    hide IsPlan, DisksOrdered, ParseFile, Run.SourcesThere, DiskEndsWithin, DisjointClaims, SourcesOf, IsParsed;
    ToIsAbsorbed(run.members, run.plan);
    OwnNumberIsClaimed(run.members[0]);
    OwnerIs(run.members, 0, run.members[0].Header().fileNumber);
    SourceOfOwner(run.members, run.plan.absorbed, run.plan.to);
  }

  lemma {:induction false} SourceOfOwner(members: seq<BackupFile>, absorbed: set<u16>, n: u16)
    requires n in absorbed && Owner(members, n).Some?
    ensures n in SourcesOf(members, absorbed) && SourcesOf(members, absorbed)[n] == Owner(members, n).value.image
  {
  }

  lemma {:induction false} ToIsAbsorbed(members: seq<BackupFile>, plan: MergePlan)
    requires members != [] && DisjointClaims(members) && IsPlan(members, plan)
    ensures plan.to == members[0].Header().fileNumber && plan.to in plan.absorbed
    ensures forall n :: n in plan.absorbed ==> Owner(members, n).Some?
  {
    hide PartitionsPlanned, Flattens;
    var low := MemberWithNumber(members, plan.from).value.Header().incrementNumber;
    var to := MemberWithNumber(members, plan.to).value;
    OwnNumberIsClaimed(to);
    ClosureIsExact(members, low, to.Header().incrementNumber, plan.absorbed, to, plan.to);
  }

  lemma {:induction false} AbsorbedHaveOwners(run: Run)
    requires run.Valid()
    ensures forall n :: n in run.plan.absorbed ==> Owner(run.members, n).Some?
  {
    hide IsPlan, IsParsed, Run.SourcesThere, DisjointClaims;
    ToIsAbsorbed(run.members, run.plan);
  }

  /** Everything but the output itself that a run under the lock needs to go well. */
  ghost predicate Goes(run: Run, delete: bool, w: World) {
    w.opens && w.creates && w.permissions && w.rereads && (delete ==> run.Absorbed() !! w.stuck)
  }

  lemma {:induction false} GoesMeans(run: Run, delete: bool, w: World)
    ensures Goes(run, delete, w) <==>
              w.opens && w.creates && w.permissions && w.rereads && (delete ==> run.Absorbed() !! w.stuck)
  {
  }

  lemma {:induction false} AbsorbedAreThere(run: Run, files: Files)
    requires run.SourcesThere(files)
    ensures run.Absorbed() <= files.Keys
  {
  }

  /** The run under the lock. `placed` is what the commit left. */
  method WriteLocked(fs: FileSystem, backupSet: BackupSet, run: Run, delete: bool, w: World)
    returns (r: Result<Report>, ghost bytes: seq<byte>, ghost placed: Files)
    requires run.members != [] && backupSet.Valid() && run.Valid() && run.members == backupSet.members
    requires run.Early(fs.files) && run.temp !in fs.files && run.temp != run.Out()
    requires run.Out() !in run.before && run.LockPath() !in run.before
    requires |w.replies| == ATTEMPTS && forall k :: 0 <= k < ATTEMPTS ==> w.replies[k].Possible()
    modifies fs
    ensures old(fs.trace) <= fs.trace
    ensures run.Apart() ==> AllSafe(run, fs.trace, |old(fs.trace)|)
    ensures AtStage(run, placed, bytes) && fs.files - run.Absorbed() == placed - run.Absorbed()
    ensures fs.files != placed ==> run.Placed(placed, bytes) && run.IsOutput(bytes) && run.DeletedInOrder(fs.files)
    ensures r.Ok? ==> run.Placed(placed, bytes) && run.IsOutput(bytes) && run.temp !in placed
    ensures r.Ok? ==> fs.files == if delete then placed - run.Absorbed() else placed
    ensures r.Ok? || fs.files != placed ==> run.Accepts(bytes)
    ensures r.Ok? <==> Goes(run, delete, w) && run.IsOutput(bytes) && Commits(run, w, |bytes|) && run.Accepts(bytes)
    ensures Goes(run, delete, w) ==> run.IsOutput(bytes) || forall b :: !run.IsOutput(b)
  {
    GoesMeans(run, delete, w);
    hide *;
    bytes, placed := [], fs.files;
    EarlyIsAtStage(run, placed, bytes);
    if !w.opens {
      NoneSafe(run, fs.trace);
      return Err("opening the sources"), bytes, placed;
    }
    var handles := OpenSources(backupSet, run.plan.absorbed);
    if handles.Err? {
      AbsorbedHaveOwners(run);
      assert false;
    }
    SourceIsSound(run, handles.value);
    ghost var n := |fs.trace|;
    var written;
    written, bytes := WriteAndCommit(fs, run, handles.value, w);
    placed := fs.files;
    ghost var m := |fs.trace|;
    ghost var trace := fs.trace;
    if run.Apart() {
      StagesAreSafe(run, trace, n, bytes);
    }
    if written.Err? {
      return Err(written.error), bytes, placed;
    }
    PlanOfRun(run);
    PlacedKeepsSources(run, placed, bytes);
    AbsorbedAreThere(run, placed);
    var finished := ReadBackAndDelete(fs, backupSet, run, delete, w);
    if run.Apart() {
      if finished.Ok? || fs.files != placed || |fs.trace| > |trace| {
        DeletionsAreSafe(run, placed, fs.trace, |trace|, bytes);
      }
      SafeBoth(run, trace, fs.trace, n);
    }
    if finished.Err? {
      return Err(finished.error), bytes, placed;
    }
    return Ok(written.value.1), bytes, placed;
  }

  lemma {:induction false} SafeBoth(run: Run, first: seq<Files>, trace: seq<Files>, n: nat)
    requires run.members != [] && AllSafe(run, first, n) && first <= trace
    requires |first| < |trace| ==> AllSafe(run, trace, |first|)
    ensures AllSafe(run, trace, n)
  {
    hide Run.IsSafe;
  }

  lemma {:induction false} NoneSafe(run: Run, trace: seq<Files>)
    requires run.members != []
    ensures AllSafe(run, trace, |trace|)
  {
  }

  lemma {:induction false} PlanOfRun(run: Run)
    requires run.Valid()
    ensures IsPlan(run.members, run.plan)
  {
    hide IsPlan, IsParsed, DisjointClaims;
  }

  lemma {:induction false} WithoutLock(run: Run, a: Files, b: Files, bytes: seq<byte>)
    requires run.members != [] && a - {run.LockPath()} == b - {run.LockPath()}
    ensures AtStage(run, a, bytes) ==> AtStage(run, b, bytes)
    ensures run.Early(a) ==> run.Early(b)
    ensures run.Deleting(a, bytes) ==> run.Deleting(b, bytes)
  {
    hide Run.IsOutput, Join, AbsorbedPaths;
    assert a - {run.LockPath(), run.temp} == a - {run.LockPath()} - {run.temp};
    assert b - {run.LockPath(), run.temp} == b - {run.LockPath()} - {run.temp};
  }

  /** The end of a run is safe, with or without the lock. */
  lemma {:induction false} EndIsSafe(run: Run, placed: Files, end: Files, last: Files, bytes: seq<byte>)
    requires run.members != [] && run.Valid() && run.Apart()
    requires AtStage(run, placed, bytes) && end - run.Absorbed() == placed - run.Absorbed()
    requires end != placed ==> run.Placed(placed, bytes) && run.IsOutput(bytes) && run.Accepts(bytes)
    requires end != placed ==> run.DeletedInOrder(end)
    requires last - {run.LockPath()} == end - {run.LockPath()}
    ensures run.IsSafe(last)
  {
    hide *;
    if end == placed {
      WithoutLock(run, end, last, bytes);
      AtStageIsSafe(run, last, bytes);
    } else {
      StillDeleting(run, placed, end, bytes);
      WithoutLock(run, end, last, bytes);
      StillInOrder(run, end, last);
      DeletingIsSafe(run, last, bytes);
    }
  }

  lemma {:induction false} StillInOrder(run: Run, end: Files, last: Files)
    requires run.Valid() && run.Apart() && run.DeletedInOrder(end) && last - {run.LockPath()} == end - {run.LockPath()}
    ensures run.DeletedInOrder(last)
  {
    hide Run.Valid, Run.Apart, AbsorbedPaths, FoundBefore, Join;
    SourcesApart(run);
    Agree(last, end, {run.LockPath()});
  }

  lemma {:induction false} EndIsGone(run: Run, placed: Files, end: Files, last: Files)
    requires last == end || last == end - {run.LockPath()}
    ensures run.name == LOCK_NAME ==> run.Out() == run.LockPath()
    ensures end == placed - run.Absorbed() ==>
              forall m :: m in run.members && m.Header().fileNumber in run.plan.absorbed ==> m.path !in last
  {
    hide Join;
    forall m | m in run.members && m.Header().fileNumber in run.plan.absorbed ensures m.path in run.Absorbed() {}
  }

  /** What a run that reports success leaves. */
  ghost predicate IsFinished(run: Run, delete: bool, files: Files)
    requires run.members != []
  {
    && run.Out() in files && run.IsOutput(files[run.Out()])
    && run.Accepts(files[run.Out()])
    && files - {run.LockPath()}
           == (if delete then run.before - run.Absorbed() else run.before)[run.Out() := files[run.Out()]]
  }

  lemma {:induction false} EndIsFinished(run: Run, delete: bool, placed: Files, end: Files, last: Files,
        bytes: seq<byte>)
    requires run.members != [] && run.Valid() && run.Apart()
    requires run.Placed(placed, bytes) && run.IsOutput(bytes) && run.temp !in placed
    requires end == if delete then placed - run.Absorbed() else placed
    requires run.Accepts(bytes) && last - {run.LockPath()} == end - {run.LockPath()}
    ensures IsFinished(run, delete, last)
  {
    hide Run.Valid, Run.IsOutput, Run.Accepts, AbsorbedPaths, Join, Run.SourcesThere;
    SourcesApart(run);
    var lock, target := {run.LockPath()}, run.before[run.Out() := bytes];
    Agree(placed, target, {run.LockPath(), run.temp});
    Agree(last, end, lock);
    assert placed - lock == target;
    assert end - lock == (if delete then run.before - run.Absorbed() else run.before)[run.Out() := bytes];
  }

  /** Whether a member sits at the output path. */
  method IsSourcePath(members: seq<BackupFile>, out: string) returns (found: bool)
    ensures found <==> exists m :: m in members && m.path == out
  {
    for i := 0 to |members|
      invariant forall k :: 0 <= k < i ==> members[k].path != out
    {
      if members[i].path == out {
        return true;
      }
    }
    return false;
  }

  lemma {:induction false} LockedIsEarly(run: Run, trace: seq<Files>, n: nat, files: Files, bytes: seq<byte>)
    requires run.members != [] && OnlyTouched(trace, n, run.before, {run.LockPath()})
    requires files - {run.LockPath()} == run.before - {run.LockPath()}
    ensures AllAtStage(run, trace, n, bytes) && run.Early(files)
  {
    hide Run.IsOutput, Join;
    assert run.Early(run.before);
    assert AtStage(run, run.before, bytes);
    WithoutLock(run, run.before, files, bytes);
    forall i | n <= i < |trace| ensures AtStage(run, trace[i], bytes) {
      WithoutLock(run, run.before, trace[i], bytes);
    }
  }

  lemma {:induction false} ApartByName(run: Run)
    requires run.Out() !in run.before && run.LockPath() !in run.before
    ensures run.Apart() <==> run.name != LOCK_NAME
  {
    JoinInjective(run.directory, run.name, LOCK_NAME);
  }

  /**
   * When a run succeeds: the names are free, the disk goes along with every step, and the one output there is
   * fits, passes the read-back and, where asked, verifies.
   */
  ghost predicate Succeeds(run: Run, delete: bool, w: World)
    requires run.members != []
  {
    && run.Out() !in run.before && run.LockPath() !in run.before
    && w.fits && w.lockFault.NoFault? && Goes(run, delete, w)
    && exists b :: run.IsOutput(b) && Commits(run, w, |b|) && run.Accepts(b)
  }

  lemma {:induction false} SucceedsMeans(run: Run, delete: bool, w: World)
    requires run.members != []
    ensures Succeeds(run, delete, w) ==>
              && run.Out() !in run.before && run.LockPath() !in run.before && w.fits && w.lockFault.NoFault?
  {
  }

  /** A source that sits at the output path is there already. */
  lemma {:induction false} TakenIsThere(run: Run)
    requires run.Valid() && ((exists m :: m in run.members && m.path == run.Out()) || run.Out() in run.before)
    ensures run.Out() in run.before
  {
    hide IsPlan, IsParsed, DisjointClaims, Join;
  }

  lemma {:induction false} LockedSucceeds(run: Run, delete: bool, w: World, bytes: seq<byte>, ok: bool)
    requires run.members != [] && run.Out() !in run.before && run.LockPath() !in run.before
    requires w.fits && w.lockFault.NoFault?
    requires ok <==> Goes(run, delete, w) && run.IsOutput(bytes) && Commits(run, w, |bytes|) && run.Accepts(bytes)
    requires Goes(run, delete, w) ==> run.IsOutput(bytes) || forall b :: !run.IsOutput(b)
    ensures ok <==> Succeeds(run, delete, w)
  {
    hide Goes, Commits, Run.Accepts, Run.IsOutput;
    if Succeeds(run, delete, w) {
      var b :| run.IsOutput(b) && Commits(run, w, |b|) && run.Accepts(b);
      OneOutput(run, bytes, b);
    }
  }

  lemma {:induction false} OneOutput(run: Run, a: seq<byte>, b: seq<byte>)
    requires run.members != [] && run.IsOutput(a) && run.IsOutput(b)
    ensures a == b
  {
    hide OutputWritten, DisksOrdered;
    var source := SourcesOf(run.members, run.plan.absorbed);
    var v :| OutputWritten(run.f, run.members[0], run.plan, source, run.Stamp(), v, a);
    var w :| OutputWritten(run.f, run.members[0], run.plan, source, run.Stamp(), w, b);
    OutputIsUnique(run.f, run.members[0], run.plan, source, run.Stamp(), v, a, w, b);
  }

  /**
   * Write the merge, commit it, read it back, and only then delete what it absorbed. Unless the output is to
   * have the name of the lock, every state a kill could leave is safe, and a success leaves the finished
   * output, the files the run does not own, and nothing else.
   */
  method WriteMerge(fs: FileSystem, backupSet: BackupSet, run: Run, note: seq<byte>, delete: bool, w: World)
    returns (r: Result<Report>)
    requires run.members != [] && backupSet.Valid() && run.Valid()
    requires run.members == backupSet.members && run.before == fs.files
    requires |w.replies| == ATTEMPTS && forall k :: 0 <= k < ATTEMPTS ==> w.replies[k].Possible()
    modifies fs
    ensures old(fs.trace) <= fs.trace
    ensures run.name != LOCK_NAME ==> AllSafe(run, fs.trace, |old(fs.trace)|)
    ensures run.name != LOCK_NAME && r.Ok? ==> IsFinished(run, delete, fs.files)
    ensures r.Ok? <==> Succeeds(run, delete, w)
    ensures r.Ok? && run.LockPath() !in w.stuck ==> run.LockPath() !in fs.files
    ensures r.Ok? && run.LockPath() !in w.stuck && run.name == LOCK_NAME ==> run.Out() !in fs.files
    ensures r.Ok? && delete ==> forall m :: m in run.members && m.Header().fileNumber in run.plan.absorbed ==>
                                  m.path !in fs.files
  {
    hide *;
    NoneSafe(run, fs.trace);
    var taken := IsSourcePath(run.members, run.Out());
    SucceedsMeans(run, delete, w);
    if taken || run.Out() in fs.files {
      TakenIsThere(run);
      return Err("the output path is taken");
    }
    if !w.fits {
      return Err("the destination cannot hold the output");
    }
    ghost var n := |fs.trace|;
    LockPathIs(run);
    var lock := TakeLock(fs, run.directory, note, w.lockFault);
    ghost var trace := fs.trace;
    LockedIsEarly(run, trace, n, fs.files, []);
    if run.LockPath() !in run.before {
      ApartByName(run);
      if run.name != LOCK_NAME {
        StagesAreSafe(run, trace, n, []);
      }
    }
    if lock.Err? {
      return Err(lock.error);
    }
    TempIsFree(run);
    ghost var bytes, placed;
    r, bytes, placed := WriteLocked(fs, backupSet, run, delete, w);
    ghost var end, before := fs.files, fs.trace;
    lock.value.Drop(fs, run.LockPath() !in w.stuck);
    LockedSucceeds(run, delete, w, bytes, r.Ok?);
    EndIsGone(run, placed, end, fs.files);
    if run.name != LOCK_NAME {
      EndIsSafe(run, placed, end, fs.files, bytes);
      OneMoreSafe(run, trace, before, fs.trace, n);
      if r.Ok? {
        EndIsFinished(run, delete, placed, end, fs.files, bytes);
      }
    }
  }

  lemma {:induction false} LockPathIs(run: Run)
    ensures run.LockPath() == Join(run.directory, LOCK_NAME)
  {
  }

  lemma {:induction false} TempIsFree(run: Run)
    requires run.Valid()
    ensures run.temp !in run.before && run.temp != run.Out() && run.temp != run.LockPath()
  {
    hide IsPlan, IsParsed, DisjointClaims, Run.SourcesThere;
  }

  lemma {:induction false} OneMoreSafe(run: Run, first: seq<Files>, second: seq<Files>, trace: seq<Files>, n: nat)
    requires run.members != [] && AllSafe(run, first, n) && first <= second && AllSafe(run, second, |first|)
    requires trace != [] && second == trace[..|trace| - 1] && run.IsSafe(trace[|trace| - 1])
    ensures AllSafe(run, trace, n)
  {
    hide Run.IsSafe;
    forall i | n <= i < |trace| ensures run.IsSafe(trace[i]) {
      if i < |trace| - 1 {
        assert trace[i] == second[i];
      }
    }
  }

  // ----- what every state restores to -----

  /** These files are on the disk, as parsed. */
  ghost predicate OnDisk(f: Foreign, files: Files, members: seq<BackupFile>) {
    forall m :: m in members ==> m.path in files && ParseFile(f, m.path, files[m.path]) == Ok(m)
  }

  /** The newer files, which the run does not touch. */
  ghost predicate LeftAlone(run: Run, above: seq<BackupFile>) {
    && OnDisk(run.f, run.before, above)
    && forall m :: m in above ==> m.path !in {run.Out(), run.LockPath(), run.temp} + run.Absorbed()
  }

  lemma {:induction false} OthersKept(run: Run, files: Files, path: string)
    requires run.Others(files) == run.Others(run.before) && path in run.before
    requires path !in {run.Out(), run.LockPath(), run.temp} + run.Absorbed()
    ensures path in files && files[path] == run.before[path]
  {
    hide Join, AbsorbedPaths;
    assert path in run.Others(run.before) && run.Others(files)[path] == run.Others(run.before)[path];
  }

  lemma {:induction false} SurvivorIs(members: seq<BackupFile>, absorbed: set<u16>, m: BackupFile)
    requires m in Survivors(members, absorbed)
    ensures m in members && m.Header().fileNumber !in absorbed
  {
    if m in Survivors(members[1..], absorbed) {
      SurvivorIs(members[1..], absorbed, m);
    }
  }

  /** A file that survives is not one the run writes or deletes. */
  lemma {:induction false} SurvivorLeftAlone(run: Run, m: BackupFile)
    requires run.members != [] && run.Valid() && run.Apart() && m in Survivors(run.members, run.plan.absorbed)
    ensures m.path in run.before && run.before[m.path] == m.image && IsParsed(run.f, m)
    ensures m.path !in {run.Out(), run.LockPath(), run.temp} + run.Absorbed()
  {
    hide IsPlan, DisjointClaims, IsParsed, Join, Survivors;
    SourcesApart(run);
    SurvivorIs(run.members, run.plan.absorbed, m);
    var i :| 0 <= i < |run.members| && run.members[i] == m;
    forall x | x in run.members && x.Header().fileNumber in run.plan.absorbed ensures x.path != m.path {
      var j :| 0 <= j < |run.members| && run.members[j] == x;
      assert i != j;
    }
  }

  /** An output that was read back is the merged file of the plan. */
  lemma {:induction false} ReadBackIsMerged(run: Run, bytes: seq<byte>)
    requires run.f.RoundTrips() && run.members != [] && Mergeable(run.members, run.plan)
    requires IsParsed(run.f, run.members[0])
    requires run.IsOutput(bytes) && PassesCheck(run.f, run.plan, run.Out(), bytes)
    ensures var o := ParseFile(run.f, run.Out(), bytes);
            o.Ok? && o.value.path == run.Out() && o.value.image == bytes && IsMergedFile(run.members, run.plan, o.value)
  {
    hide Mergeable, IsMergedFile, OutputWritten, FilePasses, DisksOrdered, AuxEndsList, Join;
    var source := SourcesOf(run.members, run.plan.absorbed);
    var w :| OutputWritten(run.f, run.members[0], run.plan, source, run.Stamp(), w, bytes);
    ToIsWhole(run.f, run.members, run.plan);
    PrintThenParse(run.f, run.members[0], run.plan, source, run.Stamp(), w, bytes, run.Out());
    WrittenIsMerged(run.f, run.members, run.plan, run.Stamp(), w, bytes, run.Out());
  }

  /** The read-back accepts a finished output exactly when the To file's `$AUXDATA`, if any, ends its list. */
  lemma {:induction false} ReadBackAccepts(run: Run, bytes: seq<byte>)
    requires run.f.RoundTrips() && run.members != [] && Mergeable(run.members, run.plan)
    requires IsParsed(run.f, run.members[0])
    requires run.IsOutput(bytes)
    ensures PassesCheck(run.f, run.plan, run.Out(), bytes) <==> AuxEndsList(run.members[0])
  {
    hide Mergeable, IsMergedFile, OutputWritten, FilePasses, DisksOrdered, AuxEndsList, Join;
    var source := SourcesOf(run.members, run.plan.absorbed);
    var w :| OutputWritten(run.f, run.members[0], run.plan, source, run.Stamp(), w, bytes);
    ToIsWhole(run.f, run.members, run.plan);
    PrintThenParse(run.f, run.members[0], run.plan, source, run.Stamp(), w, bytes, run.Out());
    if AuxEndsList(run.members[0]) {
      WrittenIsMerged(run.f, run.members, run.plan, run.Stamp(), w, bytes, run.Out());
      MergedFilePasses(run.members, run.plan, ParseFile(run.f, run.Out(), bytes).value);
    }
  }

  lemma {:induction false} SourcesOnDisk(run: Run, files: Files)
    requires run.Valid() && run.SourcesThere(files)
    ensures OnDisk(run.f, files, run.members)
  {
    hide IsPlan, DisjointClaims, ParseFile;
    forall m | m in run.members ensures m.path in files && ParseFile(run.f, m.path, files[m.path]) == Ok(m) {
      assert IsParsed(run.f, m);
    }
  }

  lemma {:induction false} AboveOnDisk(run: Run, above: seq<BackupFile>, files: Files)
    requires LeftAlone(run, above) && run.Others(files) == run.Others(run.before)
    ensures OnDisk(run.f, files, above)
  {
    hide Run.Others, ParseFile, Join, AbsorbedPaths;
    forall m | m in above ensures m.path in files && ParseFile(run.f, m.path, files[m.path]) == Ok(m) {
      OthersKept(run, files, m.path);
    }
  }

  /** A survivor is on the disk whatever part of the set it is of. */
  lemma {:induction false} SurvivorsOnDisk(run: Run, files: Files)
    requires run.members != [] && run.Valid() && run.Apart() && run.Others(files) == run.Others(run.before)
    ensures OnDisk(run.f, files, Skipped(run.members, run.plan)) && OnDisk(run.f, files, Older(run.members, run.plan))
  {
    hide Run.Others, Run.Valid, Run.Apart, ParseFile, Join, Survivors, AbsorbedPaths, Skipped, Older;
    SurvivorsInTwo(run.members, run.plan);
    forall m | m in Skipped(run.members, run.plan) || m in Older(run.members, run.plan)
      ensures m.path in files && ParseFile(run.f, m.path, files[m.path]) == Ok(m)
    {
      assert m in Survivors(run.members, run.plan.absorbed);
      SurvivorLeftAlone(run, m);
      OthersKept(run, files, m.path);
    }
  }

  /**
   * The files a kill leaves to restore from: those the run started with, or the output in place of the absorbed
   * ones.
   */
  ghost predicate IsKept(run: Run, above: seq<BackupFile>, files: Files, kept: seq<BackupFile>, o: BackupFile) {
    if run.SourcesThere(files) then kept == above + run.members
    else
      && run.Out() in files && ParseFile(run.f, run.Out(), files[run.Out()]) == Ok(o)
      && kept == After(above, run.members, run.plan, o)
  }

  /**
   * Whatever state a kill leaves, the disk holds the files of the set as it was, or the newer files with the output
   * and the survivors. The first restore the whole image; the second do exactly when the merge keeps it.
   */
  lemma {:induction false} EveryStateRestoresIff(run: Run, above: seq<BackupFile>, files: Files)
    returns (kept: seq<BackupFile>, o: BackupFile)
    requires run.members != [] && run.Valid() && run.Apart() && run.IsSafe(files) && run.f.RoundTrips()
    requires DisjointClaims(above + run.members) && ShapesAgree(above + run.members) && LeftAlone(run, above)
    ensures IsKept(run, above, files, kept, o) && OnDisk(run.f, files, kept)
    ensures SameImage(above + run.members, kept)
       <==> run.SourcesThere(files) || ImageKept(above, run.members, run.plan, o)
    ensures !run.SourcesThere(files) ==> IsMergedFile(run.members, run.plan, o)
  {
    hide Run.Valid, Run.Apart, Mergeable, DisjointClaims, ShapesAgree, LeftAlone, Run.IsOutput, PassesCheck, OnDisk,
      SameImage, IsMergedFile, Run.SourcesThere, Skipped, Older, Run.Others, Join, IsParsed, Run.Verifies, ImageKept,
      Run.DeletedInOrder;
    RunIsMergeable(run);
    AboveOnDisk(run, above, files);
    if run.SourcesThere(files) {
      SourcesOnDisk(run, files);
      kept, o := above + run.members, run.members[0];
      BothOnDisk(run.f, files, above, run.members);
      SameImageRefl(kept);
    } else {
      ToIsParsed(run);
      ReadBackIsMerged(run, files[run.Out()]);
      o := ParseFile(run.f, run.Out(), files[run.Out()]).value;
      kept := After(above, run.members, run.plan, o);
      SurvivorsOnDisk(run, files);
      OutputOnDisk(run.f, files, o);
      BothOnDisk(run.f, files, above, Skipped(run.members, run.plan));
      BothOnDisk(run.f, files, above + Skipped(run.members, run.plan), [o]);
      BothOnDisk(run.f, files, above + Skipped(run.members, run.plan) + [o], Older(run.members, run.plan));
      MergeKeepsImageIff(run.f, above, run.members, run.plan, o);
    }
  }

  lemma {:induction false} RunIsMergeable(run: Run)
    requires run.Valid()
    ensures Mergeable(run.members, run.plan)
  {
    hide IsPlan, IsParsed, DisjointClaims, Run.SourcesThere;
  }

  /**
   * With a plan that takes the newest files, and no file that stays naming an absorbed number, every state restores
   * the whole image.
   */
  lemma {:induction false} EveryStateRestores(run: Run, above: seq<BackupFile>, files: Files)
    returns (kept: seq<BackupFile>, o: BackupFile)
    requires run.members != [] && run.Valid() && run.Apart() && run.IsSafe(files) && run.f.RoundTrips()
    requires DisjointClaims(above + run.members) && ShapesAgree(above + run.members) && LeftAlone(run, above)
    requires TakesNewest(run.members, run.plan.absorbed)
    requires NamesNone(above, run.plan.absorbed) && OlderNameNone(run.members, run.plan)
    ensures IsKept(run, above, files, kept, o) && OnDisk(run.f, files, kept)
    ensures SameImage(above + run.members, kept)
  {
    RunIsMergeable(run);
    hide *;
    kept, o := EveryStateRestoresIff(run, above, files);
    if !run.SourcesThere(files) {
      ImageKeptMeans(run.f, above, run.members, run.plan, o);
      forall d: nat, p: nat ensures EntriesStay(above, run.members, run.plan, o, d, p) {
        NamingNoneStays(above, run.members, run.plan, o, d, p);
        OnlyNewerMatter(above, run.members, run.plan, o, d, p);
      }
    }
  }

  lemma {:induction false} ToIsParsed(run: Run)
    requires run.members != [] && run.Valid()
    ensures IsParsed(run.f, run.members[0])
  {
    hide IsPlan, DisjointClaims, IsParsed, Run.SourcesThere;
  }

  lemma {:induction false} OutputOnDisk(f: Foreign, files: Files, o: BackupFile)
    requires o.path in files && ParseFile(f, o.path, files[o.path]) == Ok(o)
    ensures OnDisk(f, files, [o])
  {
    hide ParseFile;
  }

  lemma {:induction false} BothOnDisk(f: Foreign, files: Files, a: seq<BackupFile>, b: seq<BackupFile>)
    requires OnDisk(f, files, a) && OnDisk(f, files, b)
    ensures OnDisk(f, files, a + b)
  {
    hide ParseFile;
  }
}
