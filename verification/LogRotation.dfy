/**
  FileLogger (logger/log.go:33-384): a log file that is rotated through numbered backups. The file
  system is a map from file names to contents. Whether the operating system opens, measures, reads or
  takes all bytes is a parameter of each operation, and so are the files it fails to rename.
 */
module LogRotation {

  /** name, name.1, name.2, ... */
  datatype FileName = Current | Backup(n: int)

  type Files = map<FileName, string>

  /** What the logger depends on: the files and its own idea of the size of the current one. */
  datatype Log = Log(files: Files, fileSize: int)

  function Content(files: Files, f: FileName): string {
    if f in files then files[f] else ""
  }

  /** os.Rename: an existing destination is replaced, a missing source leaves everything alone. */
  function Rename(files: Files, src: FileName, dst: FileName): Files {
    if src in files then (files - {src})[dst := files[src]] else files
  }

  /** A rename that fails for the files in stuck; its error is ignored. */
  function Moved(files: Files, src: FileName, dst: FileName, stuck: set<FileName>): Files {
    if src in stuck then files else Rename(files, src, dst)
  }

  /** The renaming loop of backupFiles for the indices from i down to 1 (logger/log.go:202-208). */
  function Shift(files: Files, i: int, stuck: set<FileName>): Files
    decreases i
  {
    if i <= 0 then files else Shift(Moved(files, Backup(i), Backup(i + 1), stuck), i - 1, stuck)
  }

  /** backupFiles (logger/log.go:201-211) */
  function BackedUp(files: Files, backups: int, stuck: set<FileName>): Files {
    Moved(Shift(files, backups - 1, stuck), Current, Backup(1), stuck)
  }

  /** backupFiles followed by openFile(true). */
  function RotatedBut(files: Files, backups: int, stuck: set<FileName>): Files {
    BackedUp(files, backups, stuck)[Current := ""]
  }

  /** The same when all renames succeed. */
  function Rotated(files: Files, backups: int): Files {
    RotatedBut(files, backups, {})
  }

  /** The test of lines 359-368: the recorded size first, and then the real one. */
  predicate Rotates(maxSize: int, log: Log, p: string) {
    log.fileSize + |p| >= maxSize && |Content(log.files, Current)| + |p| >= maxSize
  }

  /** The file after p was appended to it. */
  function Grown(files: Files, p: string): Files {
    files[Current := Content(files, Current) + p]
  }

  /** A write that the operating system takes in full (logger/log.go:349-374). */
  function AppendedBut(maxSize: int, backups: int, stuck: set<FileName>, log: Log, p: string): Log {
    var files := Grown(log.files, p);
    var size := if log.fileSize + |p| >= maxSize then |files[Current]| else log.fileSize + |p|;
    Log(if Rotates(maxSize, log, p) then RotatedBut(files, backups, stuck) else files, size)
  }

  /** The same when all renames succeed. */
  function Appended(maxSize: int, backups: int, log: Log, p: string): Log {
    AppendedBut(maxSize, backups, {}, log, p)
  }

  /** A write of which only a part is taken: the error returns before the size is recorded. */
  function CutShort(log: Log, taken: string): Log {
    Log(Grown(log.files, taken), log.fileSize)
  }

  /** A full write after which the size cannot be measured although the recorded one reaches the limit. */
  function Unmeasured(log: Log, p: string): Log {
    Log(Grown(log.files, p), log.fileSize + |p|)
  }

  /** A full write after whose rotation the file cannot be opened again. */
  function NotReopened(backups: int, stuck: set<FileName>, log: Log, p: string): Log {
    var files := Grown(log.files, p);
    Log(BackedUp(files, backups, stuck), |files[Current]|)
  }

  function Min(a: int, b: int): int {
    if a < b then a else b
  }

  datatype TailResult = TailResult(data: string, next: int, eof: bool, failed: bool)

  /** ReadTailLog on a file with the given content (logger/log.go:303-346). */
  function Tail(content: string, offset: int, length: int): TailResult {
    if offset < 0 || length < 0 then TailResult("", offset, false, true)
    else if offset >= |content| then TailResult("", |content|, true, false)
    else
      var n := if offset + length > |content| then |content| - offset else length;
      TailResult(content[offset..offset + n], offset + n, false, false)
  }

  class FileLogger {
    const maxSize: int
    const backups: int
    var files: Files
    var fileSize: int
    var isOpen: bool

    /** An open file exists; nobody else removes it. */
    predicate Valid()
      reads this
    {
      isOpen ==> Current in files
    }

    function View(): Log
      reads this
    {
      Log(files, fileSize)
    }

    constructor (files: Files, maxSize: int, backups: int, stats: bool, opens: bool)
      ensures Valid() && isOpen == opens && this.maxSize == maxSize && this.backups == backups
      ensures !opens ==> this.files == files
      ensures opens ==> this.files == if stats && Current in files then files else files[Current := ""]
      ensures fileSize == if stats then |Content(files, Current)| else 0
    {
      this.files, this.maxSize, this.backups := files, maxSize, backups;
      fileSize, isOpen := 0, false;
      new;
      OpenFile(false, stats, opens);
    }

    /** `stats`: asking for the size of the file succeeds if there is one. If it fails, the file is truncated. */
    method OpenFile(trunc: bool, stats: bool, opens: bool)
      modifies this
      ensures Valid() && isOpen == opens
      ensures !opens ==> files == old(files)
      ensures opens && (trunc || !stats || Current !in old(files)) ==> files == old(files)[Current := ""]
      ensures opens && !trunc && stats && Current in old(files) ==> files == old(files)
      ensures fileSize == if trunc || !stats || Current !in old(files) then old(fileSize) else |old(files)[Current]|
    {
      if trunc || !stats || Current !in files {
        if opens {
          files := files[Current := ""];
        }
      } else {
        fileSize := |files[Current]|;
      }
      isOpen := opens;
    }

    method BackupFiles(stuck: set<FileName>)
      modifies `files
      ensures files == BackedUp(old(files), backups, stuck)
    {
      var i := backups - 1;
      while i > 0
        invariant Shift(files, i, stuck) == Shift(old(files), backups - 1, stuck)
      {
        var src, dest := Backup(i), Backup(i + 1);
        if src in files && src !in stuck {
          files := Rename(files, src, dest);
        }
        i := i - 1;
      }
      if Current !in stuck {
        files := Rename(files, Current, Backup(1));
      }
    }

    method Close()
      modifies `isOpen
      ensures !isOpen
    {
      isOpen := false;
    }

    /**
      `taken` is how many bytes the operating system accepts; fewer than all is an error, and so is a
      size that cannot be measured. A file that is not opened again after a rotation stays closed.
      `stuck` are the files that cannot be renamed.
     */
    method Write(p: string, taken: nat, measures: bool, stuck: set<FileName>, opens: bool) returns (n: int, ok: bool)
      requires Valid() && taken <= |p|
      modifies this
      ensures Valid()
      ensures n == (if old(isOpen) then taken else 0)
      ensures ok <==> old(isOpen) && taken == |p| && (old(fileSize) + |p| >= maxSize ==> measures)
      ensures !old(isOpen) ==> View() == old(View()) && !isOpen
      ensures old(isOpen) && taken < |p| ==> View() == CutShort(old(View()), p[..taken]) && isOpen
      ensures old(isOpen) && taken == |p| && !ok ==> View() == Unmeasured(old(View()), p) && isOpen
      ensures ok && (opens || !Rotates(maxSize, old(View()), p)) ==> 
                View() == AppendedBut(maxSize, backups, stuck, old(View()), p) && isOpen
      ensures ok && !opens && Rotates(maxSize, old(View()), p) ==>
                View() == NotReopened(backups, stuck, old(View()), p) && !isOpen
    {
      if !isOpen {
        return 0, false;
      }
      n := taken;
      files := Grown(files, p[..taken]);
      if taken < |p| {
        return n, false;
      }
      assert p[..taken] == p;
      fileSize := fileSize + n;
      if fileSize >= maxSize {
        if !measures {
          return n, false;
        }
        fileSize := |files[Current]|;
      }
      if fileSize >= maxSize {
        Close();
        BackupFiles(stuck);
        OpenFile(true, true, opens);
      }
      ok := true;
    }

    method ClearCurLogFile(opens: bool)
      modifies this
      ensures Valid() && isOpen == opens
      ensures View() == if opens then Log(old(files)[Current := ""], old(fileSize)) else old(View())
    {
      OpenFile(true, true, opens);
    }

    /** `opens`: the file can be opened and measured; `readable`: the bytes asked for can be read. */
    method ReadTailLog(offset: int, length: int, opens: bool, readable: bool) returns (r: TailResult)
      ensures offset < 0 || length < 0 ==> r == TailResult("", offset, false, true)
      ensures offset >= 0 && length >= 0 && !(opens && Current in files) ==> r == TailResult("", 0, false, true)
      ensures offset >= 0 && length >= 0 && opens && Current in files ==>
                r == if readable || offset >= |files[Current]| then Tail(files[Current], offset, length)
                     else TailResult("", offset, false, true)
      ensures !r.failed ==> opens && Current in files && 0 <= r.next <= |files[Current]| && (r.eof <==> offset >= |files[Current]|)
      ensures !r.failed ==> r.data == files[Current][Min(offset, |files[Current]|)..r.next]
      ensures !r.failed ==> |r.data| == Min(length, |files[Current]| - Min(offset, |files[Current]|))
    {
      if offset < 0 {
        return TailResult("", offset, false, true);
      }
      if length < 0 {
        return TailResult("", offset, false, true);
      }
      if !opens || Current !in files {
        return TailResult("", 0, false, true);
      }
      var fileLen := |files[Current]|;
      if offset >= fileLen {
        return TailResult("", fileLen, true, false);
      }
      var count := length;
      if offset + count > fileLen {
        count := fileLen - offset;
      }
      if !readable {
        return TailResult("", offset, false, true);
      }
      r := TailResult(files[Current][offset..offset + count], offset + count, false, false);
    }
  }
}
