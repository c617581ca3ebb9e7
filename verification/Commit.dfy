/**
 * The lock, the temporary output and the rename into place, on a file system that records every state a
 * kill could leave behind. A rename over a network may report an error for work it did.
 */
module Commit {
  import opened Wrappers
  import opened Bytes

  type Files = map<string, seq<byte>>

  datatype ErrorKind = PermissionDenied | ResourceBusy | Interrupted | OtherError {
    predicate WorthRetrying(): (worth: bool)
      ensures worth <==> PermissionDenied? || ResourceBusy? || Interrupted?
    {
      !OtherError?
    }
  }

  /** What one rename did and what it said. It never says it worked when it did not. */
  datatype RenameReply = RenameReply(performed: bool, error: Option<ErrorKind>) {
    predicate Possible() {
      error.None? ==> performed
    }
  }

  datatype Mount = Local | Remote | Unknown {
    /** Whether the careful path applies: a file system that cannot be named counts as remote. */
    predicate IsRemote(): (remote: bool)
      ensures remote <==> Remote? || Unknown?
    {
      !Local?
    }
  }

  // ----- the file system -----

  class FileSystem {
    var files: Files
    /** Every state since the start, the present one last. */
    ghost var trace: seq<Files>

    constructor (initial: Files)
      ensures files == initial && trace == [initial]
    {
      files := initial;
      trace := [initial];
    }

    method Put(path: string, bytes: seq<byte>)
      modifies this
      ensures files == old(files)[path := bytes] && trace == old(trace) + [files]
    {
      files := files[path := bytes];
      trace := trace + [files];
    }

    method Remove(path: string, works: bool) returns (ok: bool)
      modifies this
      ensures ok <==> works && path in old(files)
      ensures files == (if ok then old(files) - {path} else old(files)) && trace == old(trace) + [files]
    {
      ok := works && path in files;
      if ok {
        files := files - {path};
      }
      trace := trace + [files];
    }

    /** Renaming a file that is gone is an error, whatever the reply would have been. */
    method Rename(from: string, to: string, reply: RenameReply) returns (error: Option<ErrorKind>)
      requires from != to
      modifies this
      ensures error == if from in old(files) then reply.error else Some(OtherError)
      ensures files == if from in old(files) && reply.performed then Moved(old(files), from, to) else old(files)
      ensures trace == old(trace) + [files]
    {
      if from !in files {
        error := Some(OtherError);
      } else {
        error := reply.error;
        if reply.performed {
          files := Moved(files, from, to);
        }
      }
      trace := trace + [files];
    }
  }

  function Moved(files: Files, from: string, to: string): Files
    requires from in files
  {
    files[to := files[from]] - {from}
  }

  /** Every state from the `n`-th on agrees with `base` on all names but `names`. */
  ghost predicate OnlyTouched(trace: seq<Files>, n: nat, base: Files, names: set<string>) {
    forall i :: n <= i < |trace| ==> trace[i] - names == base - names
  }

  // ----- names -----

  const LOCK_NAME: string := "merge_running"
  const TEMP_PREFIX: string := "macrium_consolidation_temp-"

  function Join(directory: string, name: string): string {
    directory + "/" + name
  }

  lemma {:induction false} JoinInjective(directory: string, a: string, b: string)
    ensures Join(directory, a) == Join(directory, b) <==> a == b
  {
    assert Join(directory, a)[|directory| + 1..] == a;
    assert Join(directory, b)[|directory| + 1..] == b;
  }

  function IsLeftover(name: string): (leftover: bool)
    ensures leftover <==> name == "merge_running" || "macrium_consolidation_temp-" <= name
  {
    name == LOCK_NAME || TEMP_PREFIX <= name
  }

  // ----- the lock -----

  /** What can go wrong when the lock is taken. */
  datatype LockFault = NoFault | CannotCreate | CannotWrite

  class Lock {
    const path: string

    constructor (path: string)
      ensures this.path == path
    {
      this.path := path;
    }

    /** Dropping the lock removes its file; a failure to do so is ignored. */
    method Drop(fs: FileSystem, works: bool)
      modifies fs
      ensures fs.files == (if works then old(fs.files) - {path} else old(fs.files))
      ensures fs.trace == old(fs.trace) + [fs.files]
    {
      var _ := fs.Remove(path, works);
    }
  }

  /**
   * Take the lock of a directory. It is refused while the file exists. Where the file was created but its
   * note could not be written, the file stays behind, because nothing holds it yet that could remove it.
   */
  method TakeLock(fs: FileSystem, directory: string, note: seq<byte>, fault: LockFault) returns (r: Result<Lock>)
    modifies fs
    ensures r.Ok? <==> Join(directory, LOCK_NAME) !in old(fs.files) && fault.NoFault?
    ensures r.Ok? ==> fresh(r.value) && r.value.path == Join(directory, LOCK_NAME)
    ensures r.Ok? ==> fs.files == old(fs.files)[Join(directory, LOCK_NAME) := note]
    ensures r.Err? ==> fs.files == if Join(directory, LOCK_NAME) !in old(fs.files) && fault.CannotWrite?
                                   then old(fs.files)[Join(directory, LOCK_NAME) := []] else old(fs.files)
    ensures old(fs.trace) <= fs.trace && (Join(directory, LOCK_NAME) in old(fs.files) ==> fs.trace == old(fs.trace))
    ensures OnlyTouched(fs.trace, |old(fs.trace)|, old(fs.files), {Join(directory, LOCK_NAME)})
  {
    var path := Join(directory, LOCK_NAME);
    if path in fs.files {
      return Err("another merge holds the lock");
    }
    if fault.CannotCreate? {
      return Err("creating the lock");
    }
    fs.Put(path, []);
    if fault.CannotWrite? {
      return Err("writing the lock");
    }
    fs.Put(path, note);
    var lock := new Lock(path);
    return Ok(lock);
  }

  // ----- the temporary output -----

  /** `content` with `data` written over it from `at` on. */
  function Overwrite(content: seq<byte>, at: nat, data: seq<byte>): (out: seq<byte>)
    requires at <= |content|
    ensures |out| >= at + |data| && out[..at + |data|] == content[..at] + data
    ensures |out| >= |content| && forall k :: at + |data| <= k < |out| ==> k < |content| && out[k] == content[k]
  {
    content[..at] + data + if at + |data| <= |content| then content[at + |data|..] else []
  }

  lemma {:induction false} OverwriteMore(content: seq<byte>, at: nat, data: seq<byte>, x: byte)
    requires at <= |content|
    ensures Overwrite(Overwrite(content, at, data), at + |data|, [x]) == Overwrite(content, at, data + [x])
  {
  }

  /** How a flush can come back. */
  datatype Flush = Flushed | StrongUnsupported(weakWorks: bool) | FlushFailed {
    predicate Works(): (works: bool)
      ensures works <==> this == Flushed || this == StrongUnsupported(true)
    {
      Flushed? || (StrongUnsupported? && weakWorks)
    }
  }

  /** What a commit had to do beyond the happy path. */
  datatype Report = Report(flushDowngraded: bool, renameRetries: nat, renameErrorWasWrong: bool)

  const ATTEMPTS: nat := 4

  /** Attempt `k` is made: every earlier one did nothing and failed in a way worth retrying. */
  ghost predicate Reached(replies: seq<RenameReply>, k: nat) {
    && k < 4 && k < |replies|
    && forall j :: 0 <= j < k
           ==> !replies[j].performed && replies[j].error.Some? && replies[j].error.value.WorthRetrying()
  }

  /** A rename that was made moved the file. */
  ghost predicate Moves(replies: seq<RenameReply>) {
    exists k: nat :: Reached(replies, k) && replies[k].performed
  }

  /** Some rename that was made moved the file and, on a local disk, said so. */
  ghost predicate Lands(mount: Mount, replies: seq<RenameReply>) {
    exists k: nat :: Reached(replies, k) && replies[k].performed && (mount.IsRemote() || replies[k].error.None?)
  }

  /** The attempt that moves the file is the only one that does, and settles what is reported. */
  lemma {:induction false} OneMoveDecides(mount: Mount, replies: seq<RenameReply>, k: nat)
    requires Reached(replies, k) && replies[k].performed
    ensures Moves(replies) && (Lands(mount, replies) <==> mount.IsRemote() || replies[k].error.None?)
    ensures forall j: nat :: Reached(replies, j) && replies[j].performed ==> j == k
  {
  }

  /** Over a network a rename that moved the file is reported as done. */
  lemma {:induction false} RemoteMovesLand(mount: Mount, replies: seq<RenameReply>)
    requires mount.IsRemote()
    ensures Moves(replies) <==> Lands(mount, replies)
  {
  }

  /** A failure that is not retried is the last word. */
  lemma {:induction false} Stuck(replies: seq<RenameReply>, k: nat)
    requires Reached(replies, k) && !replies[k].performed
    requires k + 1 == ATTEMPTS || (replies[k].error.Some? && !replies[k].error.value.WorthRetrying())
    ensures !Moves(replies)
  {
  }

  class TempOutput {
    var open: bool
    var committed: bool
    /** How far the writer has come. */
    var at: nat
    const temp: string
    const destination: string

    ghost predicate Writable(fs: FileSystem)
      reads this, fs
    {
      open && !committed && temp != destination && temp in fs.files && at <= |fs.files[temp]|
    }

    constructor (temp: string, destination: string)
      ensures this.temp == temp && this.destination == destination
      ensures open && !committed && at == 0
    {
      this.temp := temp;
      this.destination := destination;
      open, committed, at := true, false, 0;
    }

    /** Set `bytes` aside where the file system can; the file then reads as zeros up to there. */
    method Reserve(fs: FileSystem, bytes: nat, supported: bool)
      requires Writable(fs)
      modifies fs
      ensures Writable(fs)
      ensures var was := old(fs.files[temp]);
              fs.files[temp] == was + if supported && bytes > |was| then Zeros(bytes - |was|) else []
      ensures fs.files - {temp} == old(fs.files) - {temp}
      ensures old(fs.trace) <= fs.trace && OnlyTouched(fs.trace, |old(fs.trace)|, old(fs.files), {temp})
    {
      if supported && bytes > |fs.files[temp]| {
        fs.Put(temp, fs.files[temp] + Zeros(bytes - |fs.files[temp]|));
      }
    }

    /** Write `data` a byte at a time, as far as the disk lets it. */
    method Write(fs: FileSystem, data: seq<byte>, room: nat) returns (ok: bool)
      requires Writable(fs)
      modifies fs, this`at
      ensures Writable(fs)
      ensures ok <==> |data| <= room
      ensures ok ==> at == old(at) + |data| && fs.files[temp] == Overwrite(old(fs.files[temp]), old(at), data)
      ensures fs.files - {temp} == old(fs.files) - {temp}
      ensures old(fs.trace) <= fs.trace && OnlyTouched(fs.trace, |old(fs.trace)|, old(fs.files), {temp})
    {
      ghost var content, start, base := fs.files[temp], at, fs.files;
      for n := 0 to |data|
        invariant Writable(fs) && at == start + n
        invariant fs.files[temp] == Overwrite(content, start, data[..n])
        invariant fs.files - {temp} == base - {temp}
        invariant n <= room
        invariant old(fs.trace) <= fs.trace && OnlyTouched(fs.trace, |old(fs.trace)|, base, {temp})
      {
        if n == room {
          return false;
        }
        OverwriteMore(content, start, data[..n], data[n]);
        assert data[..n + 1] == data[..n] + [data[n]];
        fs.Put(temp, Overwrite(fs.files[temp], at, [data[n]]));
        at := at + 1;
      }
      assert data[..|data|] == data;
      return true;
    }

    /**
     * Rename into place, at most four times. Over a network an error proves nothing, so both names are read:
     * success is reported exactly when the file has moved. A local error is believed.
     */
    method RenameIntoPlace(fs: FileSystem, mount: Mount, replies: seq<RenameReply>) returns (r: Result<(nat, bool)>)
      requires temp != destination && temp in fs.files
      requires |replies| == ATTEMPTS && forall k :: 0 <= k < ATTEMPTS ==> replies[k].Possible()
      modifies fs
      ensures fs.files == if Moves(replies) then Moved(old(fs.files), temp, destination) else old(fs.files)
      ensures r.Ok? <==> Lands(mount, replies)
      ensures mount == Remote || mount == Unknown ==> (r.Ok? <==> temp !in fs.files)
      ensures mount == Local ==> (r.Ok? <==> exists k: nat :: Reached(replies, k) && replies[k].error.None?)
      ensures r.Ok? ==> r.value.0 < ATTEMPTS && Reached(replies, r.value.0) && replies[r.value.0].performed
      ensures r.Ok? ==> r.value.1 == replies[r.value.0].error.Some?
      ensures old(fs.trace) <= fs.trace
      ensures forall i :: |old(fs.trace)| <= i < |fs.trace| ==>
                fs.trace[i] == old(fs.files) || fs.trace[i] == Moved(old(fs.files), temp, destination)
    {
      ghost var base := fs.files;
      ghost var moved := false;
      for attempt := 0 to ATTEMPTS
        invariant fs.files == if moved then Moved(base, temp, destination) else base
        invariant !moved ==> Reached(replies, attempt)
        invariant moved ==> attempt > 0 && Reached(replies, attempt - 1) && replies[attempt - 1].performed
        invariant moved ==> !mount.IsRemote() && replies[attempt - 1].error.Some?
        invariant attempt < ATTEMPTS
        invariant old(fs.trace) <= fs.trace
        invariant forall i :: |old(fs.trace)| <= i < |fs.trace| ==>
                    fs.trace[i] == base || fs.trace[i] == Moved(base, temp, destination)
      {
        var error := fs.Rename(temp, destination, replies[attempt]);
        if moved {
          OneMoveDecides(mount, replies, attempt - 1);
        } else if replies[attempt].performed {
          moved := true;
          OneMoveDecides(mount, replies, attempt);
        }
        if error.None? {
          return Ok((attempt, false));
        }
        if mount.IsRemote() && destination in fs.files && temp !in fs.files {
          return Ok((attempt, true));
        }
        if !error.value.WorthRetrying() || attempt + 1 == ATTEMPTS {
          if !moved {
            Stuck(replies, attempt);
          }
          return Err("renaming into place");
        }
      }
    }

    /** Whether a commit gets as far as the rename. */
    ghost predicate Ready(content: seq<byte>, finalSize: nat, cuts: bool, flush: Flush) {
      |content| >= finalSize && (|content| > finalSize ==> cuts) && flush.Works()
    }

    /**
     * Cut the file back to what was written, flush it, close it and rename it into place. A file shorter
     * than the writer reported, or a flush that failed, is never renamed.
     */
    method Commit(fs: FileSystem, mount: Mount, finalSize: nat, cuts: bool, flush: Flush, replies: seq<RenameReply>)
      returns (r: Result<Report>)
      requires Writable(fs)
      requires |replies| == ATTEMPTS && forall k :: 0 <= k < ATTEMPTS ==> replies[k].Possible()
      modifies fs, this
      ensures !open && committed == r.Ok?
      ensures var content := old(fs.files[temp]);
              && (r.Ok? <==> Ready(content, finalSize, cuts, flush) && Lands(mount, replies))
              && (if Ready(content, finalSize, cuts, flush) && Moves(replies)
                  then fs.files == Moved(old(fs.files)[temp := content[..finalSize]], temp, destination)
                  else temp in fs.files && fs.files - {temp} == old(fs.files) - {temp})
      ensures r.Ok? ==> Reached(replies, r.value.renameRetries) && replies[r.value.renameRetries].performed
      ensures r.Ok? ==> r.value.renameErrorWasWrong == replies[r.value.renameRetries].error.Some?
      ensures r.Ok? ==> r.value.flushDowngraded == flush.StrongUnsupported?
      ensures old(fs.trace) <= fs.trace
      ensures forall i :: |old(fs.trace)| <= i < |fs.trace| ==>
                || fs.trace[i] - {temp} == old(fs.files) - {temp}
                || (&& |old(fs.files[temp])| >= finalSize
                    && fs.trace[i] == Moved(old(fs.files)[temp := old(fs.files[temp])[..finalSize]], temp, destination))
    {
      open := false;
      var length := |fs.files[temp]|;
      if length > finalSize {
        if !cuts {
          return Err("cutting the temporary output back");
        }
        fs.Put(temp, fs.files[temp][..finalSize]);
      }
      if length < finalSize {
        return Err("the write was cut short, so nothing is renamed into place");
      }
      if !flush.Works() {
        return Err("flushing the temporary output");
      }
      assert length == finalSize ==> old(fs.files[temp])[..finalSize] == old(fs.files[temp]);
      assert fs.files == old(fs.files)[temp := old(fs.files[temp])[..finalSize]];
      var renamed: (nat, bool) :- RenameIntoPlace(fs, mount, replies);
      committed := true;
      return Ok(Report(flush.StrongUnsupported?, renamed.0, renamed.1));
    }

    /** Dropping an output that was not committed removes its file; a failure to do so is ignored. */
    method Drop(fs: FileSystem, works: bool)
      modifies fs, this
      ensures !open && committed == old(committed)
      ensures fs.files == if !committed && works then old(fs.files) - {temp} else old(fs.files)
      ensures old(fs.trace) <= fs.trace && OnlyTouched(fs.trace, |old(fs.trace)|, old(fs.files), {temp})
    {
      open := false;
      if !committed {
        var _ := fs.Remove(temp, works);
      }
    }
  }

  /** Create a temporary output beside its destination, under a name no file has. */
  method CreateTemp(fs: FileSystem, temp: string, destination: string, works: bool) returns (r: Result<TempOutput>)
    requires temp !in fs.files && temp != destination
    modifies fs
    ensures r.Ok? <==> works
    ensures r.Ok? ==> fresh(r.value) && r.value.Writable(fs) && r.value.at == 0
    ensures r.Ok? ==> r.value.temp == temp && r.value.destination == destination
    ensures fs.files == if works then old(fs.files)[temp := []] else old(fs.files)
    ensures old(fs.trace) <= fs.trace && OnlyTouched(fs.trace, |old(fs.trace)|, old(fs.files), {temp})
  {
    if !works {
      return Err("creating a temporary file");
    }
    fs.Put(temp, []);
    var output := new TempOutput(temp, destination);
    return Ok(output);
  }

  // ----- recovery -----

  /** The paths of a directory that a killed run may have left. */
  function Leftovers(directory: string, names: seq<string>): set<string> {
    set n | n in names && IsLeftover(n) :: Join(directory, n)
  }

  /**
   * Remove what a killed run left: the lock and every temporary output. Nothing else is touched, and a
   * success means that none of them is left. `names` lists the directory.
   */
  method ClearLeftovers(fs: FileSystem, directory: string, names: seq<string>, stuck: set<string>)
    returns (r: Result<()>, removed: seq<string>)
    requires forall n :: n in names <==> Join(directory, n) in fs.files
    requires forall i, j :: 0 <= i < j < |names| ==> names[i] != names[j]
    modifies fs
    ensures r.Ok? <==> Leftovers(directory, names) !! stuck
    ensures r.Ok? ==> fs.files == old(fs.files) - Leftovers(directory, names)
    ensures r.Ok? ==> forall p :: p in removed <==> p in Leftovers(directory, names)
    ensures fs.files - Leftovers(directory, names) == old(fs.files) - Leftovers(directory, names)
  {
    removed := [];
    var lock := Join(directory, LOCK_NAME);
    if lock in fs.files {
      var ok := fs.Remove(lock, lock !in stuck);
      if !ok {
        assert LOCK_NAME in names;
        return Err("removing the lock"), removed;
      }
      removed := [lock];
    }
    ghost var afterLock := fs.files;
    for i := 0 to |names|
      invariant fs.files == old(fs.files) - Leftovers(directory, names[..i]) - {lock}
      invariant Leftovers(directory, names[..i]) !! stuck
      invariant forall p :: p in removed <==> p in Leftovers(directory, names[..i]) || (p == lock && p in old(fs.files))
    {
      LeftoversGrow(directory, names, i);
      var name := names[i];
      if TEMP_PREFIX <= name {
        var path := Join(directory, name);
        NotRemovedYet(directory, names, i);
        var ok := fs.Remove(path, path !in stuck);
        if !ok {
          assert path in Leftovers(directory, names) && path in stuck;
          return Err("removing a temporary output"), removed;
        }
        removed := removed + [path];
      }
    }
    return Ok(()), removed;
  }

  lemma {:induction false} NotRemovedYet(directory: string, names: seq<string>, i: nat)
    requires i < |names| && TEMP_PREFIX <= names[i]
    requires forall a, b :: 0 <= a < b < |names| ==> names[a] != names[b]
    ensures Join(directory, names[i]) !in Leftovers(directory, names[..i])
    ensures Join(directory, names[i]) != Join(directory, LOCK_NAME)
  {
    hide Join;
    JoinInjective(directory, names[i], LOCK_NAME);
    assert TEMP_PREFIX[1] != LOCK_NAME[1];
    forall n | n in names[..i] ensures Join(directory, n) != Join(directory, names[i]) {
      JoinInjective(directory, n, names[i]);
    }
  }

  lemma {:induction false} LeftoversGrow(directory: string, names: seq<string>, i: nat)
    requires i < |names|
    ensures Leftovers(directory, names[..i + 1])
         == Leftovers(directory, names[..i]) + if IsLeftover(names[i]) then {Join(directory, names[i])} else {}
  {
    assert names[..i + 1] == names[..i] + [names[i]];
  }
}
