/** Publishing a receipt: complete bytes under a temporary name, then one link.

    Each system call is one step of the file system, any of them may fail, and a
    crash leaves the state between two of them. */
module Publication {
  import opened ByteOrder
  import opened Outcomes

  type Name = nat
  type Inode = nat

  datatype Fs = Fs(names: map<Name, Inode>, data: map<Inode, Bytes>)

  /** The calls that may fail, each made at most once; writes have their own script. */
  datatype Call =
    | StatDevices | Mkstemp | Fstat | Fsync | Close | Link | Lstat | SyncParent
    | RemoveTemporary | SyncRemoval
    | UndoLink | SyncUndoLink | UndoTemporary | SyncUndoTemporary

  /** The calls made only to clean up after a failure. */
  predicate Undoes(call: Call) {
    call.UndoLink? || call.SyncUndoLink? || call.UndoTemporary? || call.SyncUndoTemporary?
  }

  datatype PublishError = CallFailed(call: Call) | NoProgress | Exists | ForeignNode

  /** What one attempt works with: the final name, and the fresh name and inode
      that the exclusive creation of its temporary file gave it. */
  datatype Job = Job(path: Name, temporary: Name, inode: Inode, payload: Bytes)

  predicate WellFormed(fs: Fs) {
    forall n :: n in fs.names ==> fs.names[n] in fs.data
  }

  predicate Fresh(fs: Fs, job: Job) {
    job.temporary !in fs.names && job.inode !in fs.data && job.temporary != job.path
  }

  /** The state of the receipt path: untouched, or linked to the whole payload
      where nothing was before. */
  predicate PathSound(start: Fs, job: Job, fs: Fs) {
    || (job.path in start.names && job.path in fs.names && fs.names[job.path] == start.names[job.path])
    || (job.path !in start.names && job.path !in fs.names)
    || (&& job.path !in start.names && job.path in fs.names && fs.names[job.path] == job.inode
        && job.inode in fs.data && fs.data[job.inode] == job.payload)
  }

  /** Nothing that is not this attempt's own has changed. */
  ghost predicate OthersSound(start: Fs, job: Job, fs: Fs) {
    && (forall n :: n != job.path && n != job.temporary ==>
          (n in start.names <==> n in fs.names) && (n in start.names ==> fs.names[n] == start.names[n]))
    && (forall i :: i in start.data ==> i in fs.data && fs.data[i] == start.data[i])
    && (job.temporary in fs.names ==> fs.names[job.temporary] == job.inode)
  }

  ghost predicate Sound(start: Fs, job: Job, fs: Fs) {
    PathSound(start, job, fs) && OthersSound(start, job, fs)
  }

  ghost predicate AllSound(start: Fs, job: Job, states: seq<Fs>) {
    forall i :: 0 <= i < |states| ==> Sound(start, job, states[i])
  }

  /** The temporary file exists and the receipt path is untouched. */
  predicate Staging(start: Fs, job: Job, fs: Fs) {
    && job.temporary in fs.names && job.inode in fs.data
    && (job.path in fs.names <==> job.path in start.names)
  }

  /** Every write makes some progress, however little. */
  ghost predicate Progresses(writes: nat -> int) {
    forall k: nat :: writes(k) > 0
  }

  function Content(fs: Fs, name: Name): Option<Bytes> {
    if name in fs.names && fs.names[name] in fs.data then Some(fs.data[fs.names[name]]) else None
  }

  /** What a reader of the receipt path can see in any state of an attempt: what
      was there before, or the whole payload where nothing was. */
  lemma ReceiptWhole(start: Fs, job: Job, states: seq<Fs>, i: nat)
    requires WellFormed(start) && Fresh(start, job) && AllSound(start, job, states) && i < |states|
    ensures Content(states[i], job.path) == Content(start, job.path)
            || (Content(start, job.path) == None && Content(states[i], job.path) == Some(job.payload))
    ensures forall n :: n != job.path && n != job.temporary ==> Content(states[i], n) == Content(start, n)
  {
    assert Sound(start, job, states[i]);
  }

  function Linked(fs: Fs, from: Name, to: Name): Fs
    requires from in fs.names
  {
    fs.(names := fs.names[to := fs.names[from]])
  }

  function Unlinked(fs: Fs, name: Name): Fs {
    fs.(names := fs.names - {name})
  }

  class Publisher {
    var fs: Fs
    const fails: set<Call>
    /** Every state since the attempt began. */
    ghost var states: seq<Fs>

    constructor (fs: Fs, fails: set<Call>)
      ensures this.fs == fs && this.fails == fails && states == [fs]
    {
      this.fs, this.fails, states := fs, fails, [fs];
    }

    ghost predicate Valid(start: Fs, job: Job)
      reads this
    {
      && WellFormed(start) && Fresh(start, job)
      && states != [] && fs == states[|states| - 1] && AllSound(start, job, states)
    }

    method Step(ghost start: Fs, ghost job: Job, next: Fs)
      requires Valid(start, job) && Sound(start, job, next)
      modifies this
      ensures Valid(start, job) && fs == next && states == old(states) + [next]
    {
      fs := next;
      states := states + [next];
    }

    /** `_remove_owned_receipt`: removes the name only if it is this inode's, then
        flushes its directory; when that fails the name is gone all the same. */
    method RemoveOwned(ghost start: Fs, ghost job: Job, name: Name, identity: Inode, call: Call, sync: Call) returns (r: Result<(), PublishError>)
      requires Valid(start, job) && identity == job.inode
      requires name == job.temporary || name == job.path
      modifies this
      ensures Valid(start, job)
      ensures r == if call in fails then Err(CallFailed(call))
                   else if name in old(fs).names && old(fs).names[name] != identity then Err(ForeignNode)
                   else if name in old(fs).names && sync in fails then Err(CallFailed(sync))
                   else Ok(())
      ensures fs == if call in fails || (name in old(fs).names && old(fs).names[name] != identity) then old(fs) else Unlinked(old(fs), name)
    {
      if call in fails {
        return Err(CallFailed(call));
      }
      if name !in fs.names {
        assert fs.names - {name} == fs.names;
        return Ok(());
      }
      if fs.names[name] != identity {
        return Err(ForeignNode);
      }
      Step(start, job, Unlinked(fs, name));
      r := if sync in fails then Err(CallFailed(sync)) else Ok(());
    }

    /** The write loop: any pattern of short writes, or an error when one makes no progress. */
    method WriteAll(ghost start: Fs, job: Job, writes: nat -> int) returns (r: Result<(), PublishError>)
      requires Valid(start, job) && Staging(start, job, fs) && fs.data[job.inode] == []
      modifies this
      ensures Valid(start, job)
      ensures fs.names == old(fs).names && job.inode in fs.data
      ensures r.Ok? ==> fs.data[job.inode] == job.payload
      ensures r.Err? ==> r.error == NoProgress
      ensures Progresses(writes) ==> r.Ok?
    {
      var offset, turn := 0, 0;
      while offset < |job.payload|
        invariant 0 <= offset <= |job.payload|
        invariant Valid(start, job) && fs.names == old(fs).names
        invariant job.inode in fs.data && fs.data[job.inode] == job.payload[..offset]
        decreases |job.payload| - offset
      {
        var remaining := |job.payload| - offset;
        var written := if writes(turn) < remaining then writes(turn) else remaining;
        turn := turn + 1;
        if written <= 0 {
          return Err(NoProgress);
        }
        var content := fs.data[job.inode] + job.payload[offset..offset + written];
        assert content == job.payload[..offset + written];
        Step(start, job, fs.(data := fs.data[job.inode := content]));
        offset := offset + written;
      }
      assert job.payload[..offset] == job.payload;
      r := Ok(());
    }

    /** Everything up to the link: the identity, the bytes, and their flush. */
    method Stage(ghost start: Fs, job: Job, writes: nat -> int) returns (identified: bool, r: Result<(), PublishError>)
      requires Valid(start, job) && Staging(start, job, fs) && fs.data[job.inode] == []
      modifies this
      ensures Valid(start, job) && Staging(start, job, fs) && fs.names == old(fs).names
      ensures r.Ok? ==> identified && fs.data[job.inode] == job.payload
      ensures Progresses(writes) ==> (r.Ok? <==> fails !! {Fstat, Fsync, Close})
    {
      if Fstat in fails {
        return false, Err(CallFailed(Fstat));
      }
      identified := true;
      r := WriteAll(start, job, writes);
      if r.Ok? && Fsync in fails {
        r := Err(CallFailed(Fsync));
      } else if r.Ok? && Close in fails {
        r := Err(CallFailed(Close));
      }
    }

    /** The cleanup of a handled failure, newest name first. It removes only
        names of the inode this attempt created. */
    method Undo(ghost start: Fs, job: Job, linked: bool, identified: bool)
      requires Valid(start, job)
      requires linked ==> identified && job.path !in start.names
      requires !linked ==> (job.path in fs.names <==> job.path in start.names)
      modifies this
      ensures Valid(start, job) && fs.data == old(fs).data
      ensures fails !! {UndoLink, SyncUndoLink, UndoTemporary} ==> fs.names == start.names
    {
      if linked {
        var undone := RemoveOwned(start, job, job.path, job.inode, UndoLink, SyncUndoLink);
        if undone.Err? {
          return;
        }
      }
      if identified {
        var undone := RemoveOwned(start, job, job.temporary, job.inode, UndoTemporary, SyncUndoTemporary);
      } else if UndoTemporary !in fails {
        Step(start, job, Unlinked(fs, job.temporary));
      }
      if fails !! {UndoLink, SyncUndoLink, UndoTemporary} {
        assert forall n :: n in fs.names <==> n in start.names;
        assert forall n :: n in start.names ==> fs.names[n] == start.names[n];
      }
    }

    /** From the link on: the receipt appears whole, and the temporary name goes. */
    method LinkReceipt(ghost start: Fs, job: Job) returns (linked: bool, r: Result<(), PublishError>)
      requires Valid(start, job) && Staging(start, job, fs) && fs.data[job.inode] == job.payload
      modifies this
      ensures Valid(start, job) && fs.data == old(fs).data
      ensures linked ==> job.path !in start.names
      ensures !linked ==> r.Err? && fs.names == old(fs).names
      ensures job.path in start.names && Link !in fails ==> r == Err(Exists)
      ensures r.Ok? <==> job.path !in start.names && fails !! {Link, Lstat, SyncParent, RemoveTemporary, SyncRemoval}
      ensures r.Ok? ==> linked && fs.names == old(fs).names[job.path := job.inode] - {job.temporary}
    {
      if Link in fails {
        return false, Err(CallFailed(Link));
      }
      if job.path in fs.names {
        return false, Err(Exists);
      }
      Step(start, job, Linked(fs, job.temporary, job.path));
      linked := true;
      if Lstat in fails {
        return true, Err(CallFailed(Lstat));
      }
      if SyncParent in fails {
        return true, Err(CallFailed(SyncParent));
      }
      r := RemoveOwned(start, job, job.temporary, job.inode, RemoveTemporary, SyncRemoval);
    }

    /** `_publish_receipt_bytes`: in every state the receipt path is as it was or
        holds the whole payload where nothing was; an existing receipt is never
        replaced; and a failure whose cleanup works leaves every name as it was. */
    method Publish(job: Job, writes: nat -> int) returns (r: Result<Inode, PublishError>)
      requires WellFormed(fs) && Fresh(fs, job) && states == [fs]
      modifies this
      ensures Valid(old(fs), job)
      ensures r.Ok? ==>
                && r.value == job.inode && job.path !in old(fs).names
                && fs.names == old(fs).names[job.path := job.inode]
                && job.inode in fs.data && fs.data[job.inode] == job.payload
      ensures Progresses(writes) ==>
                (r.Ok? <==> job.path !in old(fs).names && forall call :: call in fails ==> Undoes(call))
      ensures r.Err? && fails !! {UndoLink, SyncUndoLink, UndoTemporary} ==> fs.names == old(fs).names
    {
      ghost var start := fs;
      if StatDevices in fails {
        return Err(CallFailed(StatDevices));
      }
      if Mkstemp in fails {
        return Err(CallFailed(Mkstemp));
      }
      Step(start, job, Fs(fs.names[job.temporary := job.inode], fs.data[job.inode := []]));
      var identified, staged := Stage(start, job, writes);
      if staged.Err? {
        Undo(start, job, false, identified);
        return Err(staged.error);
      }
      var linked, published := LinkReceipt(start, job);
      if published.Err? {
        Undo(start, job, linked, true);
        return Err(published.error);
      }
      assert fs.names == start.names[job.path := job.inode];
      r := Ok(job.inode);
    }
  }
}
