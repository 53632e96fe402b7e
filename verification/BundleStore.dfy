/**
 The transactional save of a music bundle (src/music_state_bundle_store.h) over a small file
 system whose operations may fail, and which may be left as it is after any of them.
 */
module BundleStore {
  import opened Bytes
  import opened Integers
  import opened MusicBundle
  import opened Options

  type Path = string
  type Disk = map<Path, seq<byte>>

  /** The disk while n bytes are being written: truncated first, then byte by byte. */
  function Writing(disk: Disk, path: Path, bytes: seq<byte>): seq<Disk> {
    seq(|bytes| + 1, i requires 0 <= i <= |bytes| => disk[path := bytes[..i]])
  }

  class FileSystem {
    var files: Disk
    /** Every state the disk goes through: where a stop can leave it. */
    var history: seq<Disk>

    constructor (files: Disk)
      ensures this.files == files && history == [files]
    {
      this.files, history := files, [files];
    }

    /** A failed write leaves only the first `reached` bytes. */
    method Write(path: Path, bytes: seq<byte>, ok: bool, reached: nat)
      modifies this
      ensures ok ==> files == old(files)[path := bytes] && history == old(history) + Writing(old(files), path, bytes)
      ensures !ok ==> exists n :: 0 <= n <= |bytes| && files == old(files)[path := bytes[..n]]
                        && history == old(history) + Writing(old(files), path, bytes[..n])
    {
      var n := if ok || reached > |bytes| then |bytes| else reached;
      history := history + Writing(files, path, bytes[..n]);
      files := files[path := bytes[..n]];
      assert bytes[..|bytes|] == bytes;
    }

    method Remove(path: Path, ok: bool)
      modifies this
      ensures files == if ok then old(files) - {path} else old(files)
      ensures history == old(history) + [files]
    {
      if ok { files := files - {path}; }
      history := history + [files];
    }

    /** Replaces the target atomically. */
    method Rename(from: Path, to: Path, ok: bool)
      requires from in files
      modifies this
      ensures files == if ok then old(files)[to := old(files)[from]] - {from} else old(files)
      ensures history == old(history) + [files]
    {
      if ok { files := files[to := files[from]] - {from}; }
      history := history + [files];
    }

    /** The machine stops: the disk stays as it was k states after the first `since`. */
    method Stop(since: nat, k: nat)
      modifies this`files
      ensures files == if since + k < |history| then history[since + k] else old(files)
    {
      if since + k < |history| { files := history[since + k]; }
    }
  }

  datatype InjectedFault = NoFault | DiskFull | BeforePublish

  datatype Status = Saved | InvalidBundle | IoError

  /** Which operations of one save succeed. */
  datatype Answers = Answers(
    directories: bool, write: bool, reached: nat, readBack: bool,
    removeBackup: bool, moveAside: bool, publish: bool, rollback: bool, cleanUp: bool, dropBackup: bool)

  function Temporary(path: Path): Path { path + ".tmp" }
  function Backup(path: Path): Path { path + ".bak" }

  lemma DistinctPaths(path: Path)
    ensures path != Temporary(path) && path != Backup(path) && Temporary(path) != Backup(path)
  {
    assert Temporary(path)[|path| + 1] == 't' && Backup(path)[|path| + 1] == 'b';
  }

  function At(disk: Disk, path: Path): Option<seq<byte>> {
    if path in disk then Some(disk[path]) else None
  }

  /** The bundle a disk still holds: the one at the path, or else the one in the backup. */
  function Newest(disk: Disk, path: Path): Option<seq<byte>> {
    if path in disk then Some(disk[path]) else At(disk, Backup(path))
  }

  /** What every stop must leave: the old or the new file complete at the path, or the path empty
      and the old one complete in the backup. */
  predicate Recoverable(disk: Disk, path: Path, before: Option<seq<byte>>, new': seq<byte>) {
    Newest(disk, path) == before || Newest(disk, path) == Some(new')
  }

  /** Every state the disk went through since `earlier` is recoverable. */
  ghost predicate SafeSince(
    earlier: seq<Disk>, now: seq<Disk>, path: Path, before: Option<seq<byte>>, new': seq<byte>)
  {
    && earlier <= now
    && forall k :: |earlier| <= k < |now| ==> Recoverable(now[k], path, before, new')
  }

  lemma OneMoreState(
    earlier: seq<Disk>, now: seq<Disk>, disk: Disk, path: Path, before: Option<seq<byte>>, new': seq<byte>)
    requires earlier <= now
    ensures SafeSince(earlier, now + [disk], path, before, new') <==>
            SafeSince(earlier, now, path, before, new') && Recoverable(disk, path, before, new')
  {
    var later := now + [disk];
    if SafeSince(earlier, later, path, before, new') {
      assert Recoverable(later[|now|], path, before, new');
      forall k | |earlier| <= k < |now| ensures Recoverable(now[k], path, before, new') {
        assert Recoverable(later[k], path, before, new');
      }
    }
  }

  lemma SafeJoin(a: seq<Disk>, b: seq<Disk>, c: seq<Disk>, path: Path, before: Option<seq<byte>>, new': seq<byte>)
    requires a <= b <= c
    ensures SafeSince(a, c, path, before, new') <==>
            SafeSince(a, b, path, before, new') && SafeSince(b, c, path, before, new')
  {
    if SafeSince(a, b, path, before, new') && SafeSince(b, c, path, before, new') {
      forall k | |a| <= k < |c| ensures Recoverable(c[k], path, before, new') {
        if k < |b| { assert Recoverable(b[k], path, before, new'); }
      }
    }
    if SafeSince(a, c, path, before, new') {
      forall k | |a| <= k < |b| ensures Recoverable(b[k], path, before, new') {
        assert Recoverable(c[k], path, before, new');
      }
    }
  }

  /** Writing the temporary leaves what the disk holds as it is. */
  lemma WritingIsSafe(history: seq<Disk>, disk: Disk, path: Path, bytes: seq<byte>, new': seq<byte>)
    ensures SafeSince(history, history + Writing(disk, Temporary(path), bytes), path, Newest(disk, path), new')
  {
    DistinctPaths(path);
  }

  /** Only the file itself, its temporary and its backup are touched. */
  ghost predicate OthersKept(before: Disk, after: Disk, path: Path) {
    forall p :: p != path && p != Temporary(path) && p != Backup(path) ==> At(before, p) == At(after, p)
  }

  /** After a save that failed: the path is as it was, or the publish and its rollback both
      failed and the old file is in the backup. */
  predicate Undone(before: Disk, after: Disk, path: Path, answers: Answers) {
    || At(after, path) == At(before, path)
    || (path !in after && At(after, Backup(path)) == At(before, path) && !answers.publish && !answers.rollback)
  }

  class MusicStateBundleStore {
    const fault: InjectedFault

    constructor (fault: InjectedFault)
      ensures this.fault == fault
    {
      this.fault := fault;
    }

    /** Whether a save gets as far as touching the path. */
    predicate Ready(bundle: Bundle, answers: Answers) {
      && fault.NoFault? && bundle.game != [] && bundle.hd != [] && bundle.pack != [] && |bundle.pack| < TWO_32
      && answers.directories && answers.write && answers.readBack
    }

    /** The save removes the backup while it is all there is: an earlier stop left the path empty. */
    predicate Exposes(disk: Disk, path: Path, bundle: Bundle, answers: Answers) {
      path !in disk && Backup(path) in disk && Ready(bundle, answers) && answers.removeBackup
    }

    /** Removes the temporary; nothing else changes. */
    method CleanUp(fs: FileSystem, path: Path, ok: bool, ghost before: Option<seq<byte>>, ghost new': seq<byte>)
      requires Recoverable(fs.files, path, before, new')
      modifies fs
      ensures SafeSince(old(fs.history), fs.history, path, before, new')
      ensures At(fs.files, path) == At(old(fs.files), path)
      ensures At(fs.files, Backup(path)) == At(old(fs.files), Backup(path))
      ensures OthersKept(old(fs.files), fs.files, path)
    {
      DistinctPaths(path);
      fs.Remove(Temporary(path), ok);
      OneMoreState(old(fs.history), old(fs.history), fs.files, path, before, new');
    }

    method WriteTemporary(fs: FileSystem, path: Path, bytes: seq<byte>, answers: Answers)
      modifies fs
      ensures SafeSince(old(fs.history), fs.history, path, Newest(old(fs.files), path), bytes)
      ensures answers.write ==> fs.files == old(fs.files)[Temporary(path) := bytes]
      ensures At(fs.files, path) == At(old(fs.files), path)
      ensures At(fs.files, Backup(path)) == At(old(fs.files), Backup(path))
      ensures OthersKept(old(fs.files), fs.files, path)
    {
      DistinctPaths(path);
      fs.Write(Temporary(path), bytes, answers.write, answers.reached);
      if answers.write {
        WritingIsSafe(old(fs.history), old(fs.files), path, bytes, bytes);
      } else {
        ghost var n :| 0 <= n <= |bytes| && fs.files == old(fs.files)[Temporary(path) := bytes[..n]]
                       && fs.history == old(fs.history) + Writing(old(fs.files), Temporary(path), bytes[..n]);
        WritingIsSafe(old(fs.history), old(fs.files), path, bytes[..n], bytes);
      }
    }

    /** Writes the temporary and reads it back. */
    method Prepare(fs: FileSystem, path: Path, bundle: Bundle, answers: Answers) returns (ready: bool)
      requires Holdable(bundle)
      modifies fs
      ensures SafeSince(old(fs.history), fs.history, path, Newest(old(fs.files), path), Encode(bundle))
      ensures ready <==> answers.write && answers.readBack && !fault.BeforePublish? && |bundle.pack| < TWO_32
      ensures ready ==> fs.files == old(fs.files)[Temporary(path) := Encode(bundle)]
      ensures At(fs.files, path) == At(old(fs.files), path) && OthersKept(old(fs.files), fs.files, path)
      ensures At(fs.files, Backup(path)) == At(old(fs.files), Backup(path))
    {
      ghost var before := Newest(fs.files, path);
      var bytes := EncodeBundle(bundle);
      WriteTemporary(fs, path, bytes, answers);
      ghost var written := fs.history;
      ready := false;
      if answers.write {
        RoundTrip(bundle);
        var decoded := DecodeBundle(if answers.readBack then fs.files[Temporary(path)] else []);
        ready := !fault.BeforePublish? && decoded.Loaded?;
      }
      if !ready {
        CleanUp(fs, path, answers.cleanUp, before, Encode(bundle));
        SafeJoin(old(fs.history), written, fs.history, path, before, Encode(bundle));
      }
    }

    /** Removes the backup there was and moves the file there was, if any, to the backup. All
        that was kept is safe exactly unless the backup was all. */
    method MoveAside(fs: FileSystem, path: Path, answers: Answers, ghost new': seq<byte>) returns (ok: bool)
      modifies fs
      ensures old(fs.history) <= fs.history
      ensures SafeSince(old(fs.history), fs.history, path, Newest(old(fs.files), path), new') <==>
              !(path !in old(fs.files) && Backup(path) in old(fs.files) && answers.removeBackup)
      ensures ok <==> (path in old(fs.files) ==> answers.moveAside)
      ensures At(fs.files, Temporary(path)) == At(old(fs.files), Temporary(path))
      ensures OthersKept(old(fs.files), fs.files, path)
      ensures ok ==> path !in fs.files
      ensures ok && path in old(fs.files) ==> At(fs.files, Backup(path)) == At(old(fs.files), path)
      ensures path !in old(fs.files) ==>
                At(fs.files, Backup(path)) == if answers.removeBackup then None else At(old(fs.files), Backup(path))
      ensures !ok ==> At(fs.files, path) == At(old(fs.files), path)
    {
      DistinctPaths(path);
      ghost var before := Newest(fs.files, path);
      fs.Remove(Backup(path), answers.removeBackup);
      OneMoreState(old(fs.history), old(fs.history), fs.files, path, before, new');
      ok := true;
      if path in fs.files {
        ghost var history := fs.history;
        ok := answers.moveAside;
        fs.Rename(path, Backup(path), answers.moveAside);
        OneMoreState(old(fs.history), history, fs.files, path, before, new');
      }
    }

    /** Moves the temporary to the path; if that fails, the backup goes back. */
    method Install(fs: FileSystem, path: Path, hadPrevious: bool, answers: Answers)
      requires Temporary(path) in fs.files && path !in fs.files && (hadPrevious ==> Backup(path) in fs.files)
      modifies fs
      ensures SafeSince(old(fs.history), fs.history, path, At(old(fs.files), Backup(path)),
                        old(fs.files)[Temporary(path)])
      ensures answers.publish ==> At(fs.files, path) == Some(old(fs.files)[Temporary(path)])
      ensures answers.publish ==> Temporary(path) !in fs.files
      ensures !answers.publish && hadPrevious && answers.rollback ==>
                At(fs.files, path) == At(old(fs.files), Backup(path))
      ensures !answers.publish && !(hadPrevious && answers.rollback) ==>
                path !in fs.files && At(fs.files, Backup(path)) == At(old(fs.files), Backup(path))
      ensures OthersKept(old(fs.files), fs.files, path)
    {
      DistinctPaths(path);
      ghost var before, new' := At(fs.files, Backup(path)), fs.files[Temporary(path)];
      fs.Rename(Temporary(path), path, answers.publish);
      OneMoreState(old(fs.history), old(fs.history), fs.files, path, before, new');
      ghost var history := fs.history;
      if !answers.publish && hadPrevious {
        fs.Rename(Backup(path), path, answers.rollback);
        OneMoreState(old(fs.history), history, fs.files, path, before, new');
      }
    }

    /** The end of a save: the backup is dropped, or the temporary. */
    method Finish(fs: FileSystem, path: Path, ok: bool, answers: Answers,
                  ghost before: Option<seq<byte>>, ghost new': seq<byte>)
      requires Recoverable(fs.files, path, before, new') && (ok ==> At(fs.files, path) == Some(new'))
      modifies fs
      ensures SafeSince(old(fs.history), fs.history, path, before, new')
      ensures At(fs.files, path) == At(old(fs.files), path) && OthersKept(old(fs.files), fs.files, path)
      ensures ok ==> At(fs.files, Temporary(path)) == At(old(fs.files), Temporary(path))
      ensures !ok ==> At(fs.files, Backup(path)) == At(old(fs.files), Backup(path))
    {
      DistinctPaths(path);
      if ok {
        fs.Remove(Backup(path), answers.dropBackup);
        OneMoreState(old(fs.history), old(fs.history), fs.files, path, before, new');
      } else {
        CleanUp(fs, path, answers.cleanUp, before, new');
      }
    }

    /** Moves the old file aside and the new one in its place; a failed publish is rolled back. */
    method Publish(fs: FileSystem, path: Path, answers: Answers) returns (ok: bool)
      requires Temporary(path) in fs.files
      modifies fs
      ensures old(fs.history) <= fs.history
      ensures SafeSince(old(fs.history), fs.history, path, Newest(old(fs.files), path),
                        old(fs.files)[Temporary(path)]) <==>
              !(path !in old(fs.files) && Backup(path) in old(fs.files) && answers.removeBackup)
      ensures ok <==> answers.publish && (path in old(fs.files) ==> answers.moveAside)
      ensures ok ==> At(fs.files, path) == Some(old(fs.files)[Temporary(path)]) && Temporary(path) !in fs.files
      ensures !ok ==> Undone(old(fs.files), fs.files, path, answers)
      ensures !ok && !(path !in old(fs.files) && Backup(path) in old(fs.files) && answers.removeBackup) ==>
                Newest(fs.files, path) == Newest(old(fs.files), path)
      ensures OthersKept(old(fs.files), fs.files, path)
    {
      DistinctPaths(path);
      ghost var before, new' := Newest(fs.files, path), fs.files[Temporary(path)];
      var hadPrevious := path in fs.files;
      ok := MoveAside(fs, path, answers, new');
      ghost var aside, left := fs.history, Newest(fs.files, path);
      if ok {
        Install(fs, path, hadPrevious, answers);
        ok := answers.publish;
      }
      ghost var installed := fs.history;
      Finish(fs, path, ok, answers, left, new');
      SafeJoin(aside, installed, fs.history, path, left, new');
      SafeJoin(old(fs.history), aside, fs.history, path, before, new');
    }

    /** For every pattern of failing operations and a stop after any step, what was there can be
        recovered, exactly unless an earlier stop left it in the backup alone and this save
        removes it; `Saved` means the new bundle is at the path and loads from it. */
    method Save(fs: FileSystem, path: Path, bundle: Bundle, answers: Answers) returns (status: Status)
      requires Holdable(bundle)
      modifies fs
      ensures old(fs.history) <= fs.history
      ensures SafeSince(old(fs.history), fs.history, path, Newest(old(fs.files), path), Encode(bundle)) <==>
              !Exposes(old(fs.files), path, bundle, answers)
      ensures status.Saved? ==> At(fs.files, path) == Some(Encode(bundle)) && Decode(Encode(bundle)) == Loaded(bundle)
                                && Temporary(path) !in fs.files
      ensures !status.Saved? ==> Undone(old(fs.files), fs.files, path, answers)
      ensures !status.Saved? && !Exposes(old(fs.files), path, bundle, answers) ==>
                Newest(fs.files, path) == Newest(old(fs.files), path)
      ensures status.Saved? <==>
                Ready(bundle, answers) && answers.publish && (path in old(fs.files) ==> answers.moveAside)
      ensures OthersKept(old(fs.files), fs.files, path)
    {
      if fault.DiskFull? || bundle.game == [] || bundle.hd == [] || bundle.pack == [] {
        return if fault.DiskFull? then IoError else InvalidBundle;
      }
      if !answers.directories { return IoError; }
      RoundTrip(bundle);
      var ok := Replace(fs, path, bundle, answers);
      return if ok then Saved else IoError;
    }

    /** Prepares the new file and publishes it. */
    method Replace(fs: FileSystem, path: Path, bundle: Bundle, answers: Answers) returns (ok: bool)
      requires Holdable(bundle) && answers.directories && !fault.DiskFull?
      requires bundle.game != [] && bundle.hd != [] && bundle.pack != []
      modifies fs
      ensures old(fs.history) <= fs.history
      ensures SafeSince(old(fs.history), fs.history, path, Newest(old(fs.files), path), Encode(bundle)) <==>
              !Exposes(old(fs.files), path, bundle, answers)
      ensures ok ==> At(fs.files, path) == Some(Encode(bundle)) && Temporary(path) !in fs.files
      ensures !ok ==> Undone(old(fs.files), fs.files, path, answers)
      ensures !ok && !Exposes(old(fs.files), path, bundle, answers) ==>
                Newest(fs.files, path) == Newest(old(fs.files), path)
      ensures ok <==> Ready(bundle, answers) && answers.publish && (path in old(fs.files) ==> answers.moveAside)
      ensures OthersKept(old(fs.files), fs.files, path)
    {
      DistinctPaths(path);
      ok := Prepare(fs, path, bundle, answers);
      if ok {
        ghost var prepared := fs.history;
        ok := Publish(fs, path, answers);
        SafeJoin(old(fs.history), prepared, fs.history, path, Newest(old(fs.files), path), Encode(bundle));
      }
    }

    /** Over every run of saves, each stopped anywhere or nowhere: as long as none of them exposes
        the backup, the disk holds the bundle it held at first or one of those saved since. */
    method Run(fs: FileSystem, path: Path, jobs: seq<Job>) returns (exposed: bool)
      requires forall i :: 0 <= i < |jobs| ==> Holdable(jobs[i].bundle)
      modifies fs
      ensures !exposed ==> OneOf(Newest(fs.files, path), Newest(old(fs.files), path), jobs)
    {
      exposed := false;
      for i := 0 to |jobs|
        invariant !exposed ==> OneOf(Newest(fs.files, path), Newest(old(fs.files), path), jobs)
      {
        var job := jobs[i];
        exposed := exposed || Exposes(fs.files, path, job.bundle, job.answers);
        SaveAndStop(fs, path, job);
      }
    }

    method SaveAndStop(fs: FileSystem, path: Path, job: Job)
      requires Holdable(job.bundle)
      modifies fs
      ensures !Exposes(old(fs.files), path, job.bundle, job.answers) ==>
                Recoverable(fs.files, path, Newest(old(fs.files), path), Encode(job.bundle))
    {
      var since := |fs.history|;
      var status := Save(fs, path, job.bundle, job.answers);
      fs.Stop(since, job.stop);
    }
  }

  /** One save and the state it is stopped in, counted from its start. */
  datatype Job = Job(bundle: Bundle, answers: Answers, stop: nat)

  ghost predicate OneOf(newest: Option<seq<byte>>, first: Option<seq<byte>>, jobs: seq<Job>) {
    newest == first || exists i :: 0 <= i < |jobs| && newest == Some(Encode(jobs[i].bundle))
  }
}
