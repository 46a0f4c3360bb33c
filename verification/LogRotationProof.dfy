/**
  The log files are a bounded window over everything written: nothing is lost but whole oldest
  backups, and those only when every slot is full.
 */
module LogRotationProof {
  import opened LogRotation

  /** The number of backups kept; the source keeps one even when told to keep none. */
  function Slots(backups: int): nat {
    if backups < 1 then 1 else backups
  }

  /** The contents of the backups k, ..., 1: oldest first. */
  function Older(files: Files, k: nat): string {
    if k == 0 then "" else Content(files, Backup(k)) + Older(files, k - 1)
  }

  /** Everything still on disk, oldest first. */
  function Retained(files: Files, backups: int): string {
    Older(files, Slots(backups)) + Content(files, Current)
  }

  /** What a rotation destroys: the oldest backup, when another file takes its place. */
  function Evicted(files: Files, backups: int): string {
    var top := Slots(backups);
    if top == 1 || Backup(top - 1) in files then Content(files, Backup(top)) else ""
  }

  // ---------------------------------------------------------------- one rotation

  /** File f of one state is file g of the other: both are missing, or their contents agree. */
  predicate Same(after: Files, f: FileName, files: Files, g: FileName) {
    (f in after <==> g in files) && (g in files && f in after ==> after[f] == files[g])
  }

  /** The renaming loop gives file k the next number. */
  predicate Advances(files: Files, stuck: set<FileName>, k: int) {
    Backup(k) in files && Backup(k) !in stuck
  }

  /**
    Where every file is after the renaming loop, also when there are gaps or renames fail: it takes the
    place of the next one, it has left its own place free, or it is where it was.
   */
  lemma {:induction false} ShiftSlot(files: Files, i: int, stuck: set<FileName>, f: FileName)
    requires i >= 0
    ensures var after := Shift(files, i, stuck);
            if f == Current || f.n < 1 || f.n > i + 1 then Same(after, f, files, f)
            else if f.n > 1 && Advances(files, stuck, f.n - 1) then Same(after, f, files, Backup(f.n - 1))
            else if f.n <= i && Advances(files, stuck, f.n) then f !in after
            else Same(after, f, files, f)
    decreases i
  {
    if i > 0 {
      ShiftSlot(Moved(files, Backup(i), Backup(i + 1), stuck), i - 1, stuck, f);
    }
  }

  /** How often the renaming loop runs. */
  function Shifts(backups: int): nat {
    Slots(backups) - 1
  }

  lemma RotatedIsShifted(files: Files, backups: int, stuck: set<FileName>)
    ensures RotatedBut(files, backups, stuck) == Moved(Shift(files, Shifts(backups), stuck), Current, Backup(1), stuck)[Current := ""]
  {
  }

  /** The files by age: the current one, and then the backups. */
  function Aged(k: nat): FileName {
    if k == 0 then Current else Backup(k)
  }

  /**
    What a failing rename costs in a rotation: the current file is emptied, and a backup is replaced by
    the next younger file if that one is renamed. The next older slot does not get its contents.
   */
  lemma StuckLoses(files: Files, backups: int, stuck: set<FileName>, k: nat)
    requires k < Slots(backups) && Aged(k) in files && Aged(k) in stuck
    ensures Content(RotatedBut(files, backups, stuck), Aged(k)) ==
            if k == 0 then ""
            else if Aged(k - 1) in files && Aged(k - 1) !in stuck then files[Aged(k - 1)]
            else files[Aged(k)]
    ensures Content(RotatedBut(files, backups, stuck), Aged(k + 1)) ==
            if Aged(k + 1) in files && (k + 1 == Slots(backups) || Aged(k + 1) in stuck) then files[Aged(k + 1)] else ""
  {
    RotatedIsShifted(files, backups, stuck);
    ShiftSlot(files, Shifts(backups), stuck, Current);
    ShiftSlot(files, Shifts(backups), stuck, Aged(k));
    ShiftSlot(files, Shifts(backups), stuck, Aged(k + 1));
  }

  lemma ShiftedSlot(files: Files, backups: int, k: int)
    requires Current in files && 1 <= k <= Slots(backups)
    ensures Content(Rotated(files, backups), Backup(k)) ==
              if k == 1 then files[Current]
              else if k == Slots(backups) && Backup(k - 1) !in files then Content(files, Backup(k))
              else Content(files, Backup(k - 1))
    ensures k == 1 || Backup(k - 1) in files ==> Backup(k) in Rotated(files, backups)
  {
    RotatedIsShifted(files, backups, {});
    ShiftSlot(files, Shifts(backups), {}, Current);
    ShiftSlot(files, Shifts(backups), {}, Backup(k));
  }

  /** A rotation makes no file but the first free slot. */
  lemma NoNewFile(files: Files, backups: int, f: FileName)
    requires f in Rotated(files, backups)
    ensures f in files || f == Current || f == Backup(1) || (2 <= f.n <= Slots(backups) && Backup(f.n - 1) in files)
  {
    RotatedIsShifted(files, backups, {});
    ShiftSlot(files, Shifts(backups), {}, f);
  }

  lemma {:induction false} OlderAfterRotation(files: Files, backups: int, k: nat)
    requires Current in files && 1 <= k < Slots(backups)
    ensures Older(Rotated(files, backups), k) == Older(files, k - 1) + files[Current]
    decreases k
  {
    ShiftedSlot(files, backups, k);
    if k > 1 {
      OlderAfterRotation(files, backups, k - 1);
    }
  }

  lemma Regroup(a: string, b: string, o: string, c: string)
    ensures a + ((b + (o + c)) + "") == (a + (b + o)) + c
    ensures "" + ((a + (o + c)) + "") == (a + ("" + o)) + c
  {
  }

  /** A rotation keeps every byte but the evicted ones, in order. */
  lemma RotationConserves(files: Files, backups: int)
    requires Current in files
    ensures Evicted(files, backups) + Retained(Rotated(files, backups), backups) == Retained(files, backups)
  {
    var top, after, cur := Slots(backups), Rotated(files, backups), files[Current];
    ShiftedSlot(files, backups, top);
    if top == 1 {
      Regroup(Content(files, Backup(1)), "", "", cur);
      assert Older(after, 1) == cur + "" && Older(files, 1) == Content(files, Backup(1)) + "";
    } else {
      OlderAfterRotation(files, backups, top - 1);
      Regroup(Content(files, Backup(top)), Content(files, Backup(top - 1)), Older(files, top - 2), cur);
      assert Older(files, top) == Content(files, Backup(top)) + Older(files, top - 1);
      assert Older(files, top - 1) == Content(files, Backup(top - 1)) + Older(files, top - 2);
      assert Older(after, top) == Content(after, Backup(top)) + Older(after, top - 1);
    }
  }

  // ---------------------------------------------------------------- writes

  /** The recorded size is never below the real one. */
  predicate SizeTracked(log: Log) {
    Current in log.files && log.fileSize >= |log.files[Current]|
  }

  function LostBy(maxSize: int, backups: int, log: Log, p: string): string {
    if Rotates(maxSize, log, p) then Evicted(Grown(log.files, p), backups) else ""
  }

  lemma {:induction false} OlderGrown(files: Files, p: string, k: nat)
    ensures Older(Grown(files, p), k) == Older(files, k)
    decreases k
  {
    if k > 0 {
      OlderGrown(files, p, k - 1);
    }
  }

  /** Conservation, for every state of the files and every write. */
  lemma WriteConserves(maxSize: int, backups: int, log: Log, p: string)
    ensures LostBy(maxSize, backups, log, p) + Retained(Appended(maxSize, backups, log, p).files, backups)
            == Retained(log.files, backups) + p
  {
    var files := Grown(log.files, p);
    OlderGrown(log.files, p, Slots(backups));
    assert Retained(files, backups) == Retained(log.files, backups) + p;
    if Rotates(maxSize, log, p) {
      RotationConserves(files, backups);
    }
  }

  /** So it is when a write is cut short, its size cannot be measured, or the file cannot be opened again after the rotation. */
  lemma FailingWritesConserve(backups: int, log: Log, p: string)
    ensures Retained(CutShort(log, p).files, backups) == Retained(log.files, backups) + p
    ensures Retained(Unmeasured(log, p).files, backups) == Retained(log.files, backups) + p
    ensures Evicted(Grown(log.files, p), backups) + Retained(NotReopened(backups, {}, log, p).files, backups)
            == Retained(log.files, backups) + p
  {
    var files := Grown(log.files, p);
    OlderGrown(log.files, p, Slots(backups));
    assert Retained(files, backups) == Retained(log.files, backups) + p;
    RotationConserves(files, backups);
    ShutAway(files, backups);
  }

  /** After the renaming the current file is gone, which is as good as an empty one. */
  lemma ShutAway(files: Files, backups: int)
    requires Current in files
    ensures Retained(BackedUp(files, backups, {}), backups) == Retained(Rotated(files, backups), backups)
  {
    var shut := BackedUp(files, backups, {});
    RotatedIsShifted(files, backups, {});
    OlderEmptied(shut, Slots(backups));
  }

  lemma {:induction false} OlderEmptied(files: Files, k: nat)
    ensures Older(files[Current := ""], k) == Older(files, k)
    decreases k
  {
    if k > 0 {
      OlderEmptied(files, k - 1);
    }
  }

  /** A full write keeps the size tracked, also across a rotation that leaves it stale. */
  lemma WriteKeepsTrack(maxSize: int, backups: int, log: Log, p: string)
    requires SizeTracked(log)
    ensures SizeTracked(Appended(maxSize, backups, log, p))
    ensures Rotates(maxSize, log, p) <==> |log.files[Current]| + |p| >= maxSize
    ensures maxSize > 0 ==> |Appended(maxSize, backups, log, p).files[Current]| < maxSize
  {
  }

  function Filler(n: nat): (s: string)
    ensures |s| == n
  {
    seq(n, i => 'x')
  }

  /** Writes rotate exactly at the limit if and only if the recorded size is not too small. */
  lemma RotationExactIff(maxSize: int, log: Log)
    requires Current in log.files
    ensures (forall p :: Rotates(maxSize, log, p) <==> |log.files[Current]| + |p| >= maxSize)
            <==> log.fileSize >= |log.files[Current]| || log.fileSize >= maxSize
  {
    var size := |log.files[Current]|;
    if log.fileSize < size && log.fileSize < maxSize {
      var p := Filler(if size >= maxSize then 0 else maxSize - size);
      assert !Rotates(maxSize, log, p);
    }
  }

  // ---------------------------------------------------------------- histories of writes

  /** A write of which the operating system takes everything, or only the bytes given. */
  datatype WriteOp = Full(p: string) | Cut(taken: string)

  function Perform(maxSize: int, backups: int, log: Log, op: WriteOp): Log {
    match op
    case Full(p) => Appended(maxSize, backups, log, p)
    case Cut(taken) => CutShort(log, taken)
  }

  function Taken(op: WriteOp): string {
    match op
    case Full(p) => p
    case Cut(taken) => taken
  }

  function Lost(maxSize: int, backups: int, log: Log, op: WriteOp): string {
    match op
    case Full(p) => LostBy(maxSize, backups, log, p)
    case Cut(_) => ""
  }

  function WriteAll(maxSize: int, backups: int, log: Log, ops: seq<WriteOp>): Log
    decreases |ops|
  {
    if ops == [] then log else WriteAll(maxSize, backups, Perform(maxSize, backups, log, ops[0]), ops[1..])
  }

  function Dropped(maxSize: int, backups: int, log: Log, ops: seq<WriteOp>): string
    decreases |ops|
  {
    if ops == [] then ""
    else Lost(maxSize, backups, log, ops[0]) + Dropped(maxSize, backups, Perform(maxSize, backups, log, ops[0]), ops[1..])
  }

  /** All bytes taken, in order. */
  function Joined(ops: seq<WriteOp>): string {
    if ops == [] then "" else Taken(ops[0]) + Joined(ops[1..])
  }

  lemma OpConserves(maxSize: int, backups: int, log: Log, op: WriteOp)
    ensures Lost(maxSize, backups, log, op) + Retained(Perform(maxSize, backups, log, op).files, backups)
            == Retained(log.files, backups) + Taken(op)
  {
    match op
    case Full(p) => WriteConserves(maxSize, backups, log, p);
    case Cut(taken) =>
      OlderGrown(log.files, taken, Slots(backups));
      assert Retained(Grown(log.files, taken), backups) == Retained(log.files, backups) + taken;
  }

  /** The backups are 1, ..., m, and each of them was at least maxSize long when it was made. */
  ghost predicate Stacked(maxSize: int, log: Log, m: nat) {
    && Current in log.files
    && (forall f :: f in log.files ==> f == Current || 1 <= f.n <= m)
    && (forall k | 1 <= k <= m :: Backup(k) in log.files && |log.files[Backup(k)]| >= maxSize)
  }

  lemma RotationStacks(maxSize: int, backups: int, files: Files, m: nat)
    requires Stacked(maxSize, Log(files, 0), m) && m <= Slots(backups) && |files[Current]| >= maxSize
    ensures Stacked(maxSize, Log(Rotated(files, backups), 0), Min(m + 1, Slots(backups)))
    ensures Evicted(files, backups) != "" ==> m == Slots(backups)
  {
    var after := Rotated(files, backups);
    forall k | 1 <= k <= Min(m + 1, Slots(backups))
      ensures Backup(k) in after && |after[Backup(k)]| >= maxSize
    {
      ShiftedSlot(files, backups, k);
    }
    forall f | f in after
      ensures f == Current || 1 <= f.n <= Min(m + 1, Slots(backups))
    {
      NoNewFile(files, backups, f);
    }
  }

  lemma OpStacks(maxSize: int, backups: int, log: Log, op: WriteOp, m: nat) returns (n: nat)
    requires Stacked(maxSize, log, m) && m <= Slots(backups)
    ensures Stacked(maxSize, Perform(maxSize, backups, log, op), n) && m <= n <= Slots(backups)
    ensures Lost(maxSize, backups, log, op) != "" ==> m == Slots(backups)
  {
    n := m;
    if op.Full? && Rotates(maxSize, log, op.p) {
      RotationStacks(maxSize, backups, Grown(log.files, op.p), m);
      n := Min(m + 1, Slots(backups));
    }
  }

  lemma {:induction false} StackIsLong(maxSize: int, log: Log, m: nat, k: nat)
    requires maxSize >= 0 && Stacked(maxSize, log, m) && k <= m
    ensures |Older(log.files, k)| >= k * maxSize
    decreases k
  {
    if k > 0 {
      StackIsLong(maxSize, log, m, k - 1);
    }
  }

  lemma {:induction false} HistoryConserves(maxSize: int, backups: int, log: Log, ops: seq<WriteOp>)
    ensures Retained(log.files, backups) + Joined(ops)
            == Dropped(maxSize, backups, log, ops) + Retained(WriteAll(maxSize, backups, log, ops).files, backups)
    decreases |ops|
  {
    if ops == [] {
      assert Retained(log.files, backups) + "" == "" + Retained(log.files, backups);
    } else {
      var next := Perform(maxSize, backups, log, ops[0]);
      OpConserves(maxSize, backups, log, ops[0]);
      HistoryConserves(maxSize, backups, next, ops[1..]);
      Chain(Retained(log.files, backups), Taken(ops[0]), Joined(ops[1..]), Lost(maxSize, backups, log, ops[0]),
            Retained(next.files, backups), Dropped(maxSize, backups, next, ops[1..]),
            Retained(WriteAll(maxSize, backups, log, ops).files, backups));
    }
  }

  lemma Chain(r: string, p: string, more: string, lost: string, mid: string, dropped: string, after: string)
    requires lost + mid == r + p && mid + more == dropped + after
    ensures r + (p + more) == (lost + dropped) + after
  {
    assert r + (p + more) == (r + p) + more;
    assert (lost + mid) + more == lost + (mid + more);
    assert lost + (dropped + after) == (lost + dropped) + after;
  }

  lemma {:induction false} HistoryStacks(maxSize: int, backups: int, log: Log, ops: seq<WriteOp>, m: nat) returns (n: nat)
    requires Stacked(maxSize, log, m) && m <= Slots(backups)
    ensures Stacked(maxSize, WriteAll(maxSize, backups, log, ops), n) && m <= n <= Slots(backups)
    ensures Dropped(maxSize, backups, log, ops) != "" ==> n == Slots(backups)
    decreases |ops|
  {
    n := m;
    if ops != [] {
      n := OpStacks(maxSize, backups, log, ops[0], m);
      n := HistoryStacks(maxSize, backups, Perform(maxSize, backups, log, ops[0]), ops[1..], n);
    }
  }

  /** A logger that starts with an empty file and no backups. */
  const EMPTY := Log(map[Current := ""], 0)

  /**
    For every history of writes from an empty log, some of them cut short: the bytes taken are a
    dropped prefix, then the backups from oldest to newest, then the current file; at most
    max(1, backups) backups exist; and bytes are dropped only when every slot is full, so that
    Slots * maxSize bytes remain.
   */
  lemma BoundedWindow(maxSize: int, backups: int, ops: seq<WriteOp>)
    ensures var after := WriteAll(maxSize, backups, EMPTY, ops);
            var dropped := Dropped(maxSize, backups, EMPTY, ops);
            && Joined(ops) == dropped + Retained(after.files, backups)
            && (forall f :: f in after.files ==> f == Current || 1 <= f.n <= Slots(backups))
            && (dropped != "" ==> forall k | 1 <= k <= Slots(backups) :: Backup(k) in after.files)
            && (dropped != "" && maxSize > 0 ==> |Retained(after.files, backups)| >= Slots(backups) * maxSize)
  {
    var n := HistoryStacks(maxSize, backups, EMPTY, ops, 0);
    HistoryConserves(maxSize, backups, EMPTY, ops);
    NothingBeforeEmpty(backups, Slots(backups));
    var after := WriteAll(maxSize, backups, EMPTY, ops);
    if maxSize > 0 && n == Slots(backups) {
      StackIsLong(maxSize, after, n, n);
    }
  }

  lemma {:induction false} NothingBeforeEmpty(backups: int, k: nat)
    ensures Older(EMPTY.files, k) == ""
    decreases k
  {
    if k > 0 {
      NothingBeforeEmpty(backups, k - 1);
    }
  }

  // ---------------------------------------------------------------- bytes that nobody counted

  /** The bytes that writes cut short have added since the size was last measured. */
  function UncountedAfter(maxSize: int, log: Log, uncounted: nat, op: WriteOp): nat {
    match op
    case Full(p) => if log.fileSize + |p| >= maxSize then 0 else uncounted
    case Cut(taken) => uncounted + |taken|
  }

  /**
    The real size exceeds the recorded one by no more than the uncounted bytes; below the limit, where
    a rotation has not left the recorded size stale, by exactly these.
   */
  predicate Accounted(maxSize: int, log: Log, uncounted: nat) {
    && Current in log.files
    && |log.files[Current]| <= log.fileSize + uncounted
    && (log.fileSize < maxSize ==> |log.files[Current]| == log.fileSize + uncounted)
  }

  lemma OpAccounted(maxSize: int, backups: int, log: Log, uncounted: nat, op: WriteOp)
    requires Accounted(maxSize, log, uncounted)
    ensures Accounted(maxSize, Perform(maxSize, backups, log, op), UncountedAfter(maxSize, log, uncounted, op))
  {
  }

  /** The recorded size does not reach the limit with the bytes of this write, but the real one does. */
  predicate Overlooked(maxSize: int, log: Log, uncounted: nat, op: WriteOp) {
    op.Full? && log.fileSize + |op.p| < maxSize <= log.fileSize + uncounted + |op.p|
  }

  predicate NoneOverlooked(maxSize: int, backups: int, log: Log, uncounted: nat, ops: seq<WriteOp>)
    decreases |ops|
  {
    ops == [] ||
    (&& !Overlooked(maxSize, log, uncounted, ops[0])
     && NoneOverlooked(maxSize, backups, Perform(maxSize, backups, log, ops[0]),
                       UncountedAfter(maxSize, log, uncounted, ops[0]), ops[1..]))
  }

  /** After each full write the current file is shorter than the limit. */
  predicate StaysBelow(maxSize: int, backups: int, log: Log, ops: seq<WriteOp>)
    decreases |ops|
  {
    ops == [] ||
    (var next := Perform(maxSize, backups, log, ops[0]);
     && (ops[0].Full? ==> |Content(next.files, Current)| < maxSize)
     && StaysBelow(maxSize, backups, next, ops[1..]))
  }

  lemma BelowUnlessOverlooked(maxSize: int, backups: int, log: Log, uncounted: nat, op: WriteOp)
    requires maxSize > 0 && Accounted(maxSize, log, uncounted) && op.Full?
    ensures |Content(Perform(maxSize, backups, log, op).files, Current)| < maxSize <==> !Overlooked(maxSize, log, uncounted, op)
  {
  }

  lemma {:induction false} BelowIff(maxSize: int, backups: int, log: Log, uncounted: nat, ops: seq<WriteOp>)
    requires maxSize > 0 && Accounted(maxSize, log, uncounted)
    ensures StaysBelow(maxSize, backups, log, ops) <==> NoneOverlooked(maxSize, backups, log, uncounted, ops)
    decreases |ops|
  {
    if ops != [] {
      if ops[0].Full? {
        BelowUnlessOverlooked(maxSize, backups, log, uncounted, ops[0]);
      }
      OpAccounted(maxSize, backups, log, uncounted, ops[0]);
      BelowIff(maxSize, backups, Perform(maxSize, backups, log, ops[0]), UncountedAfter(maxSize, log, uncounted, ops[0]), ops[1..]);
    }
  }

  /**
    In a history of writes from an empty log every full write leaves the current file shorter than the
    limit if and only if none of them stays below the limit by the recorded size and passes it by the
    bytes that writes cut short have added uncounted.
   */
  lemma StaysBelowIff(maxSize: int, backups: int, ops: seq<WriteOp>)
    requires maxSize > 0
    ensures StaysBelow(maxSize, backups, EMPTY, ops) <==> NoneOverlooked(maxSize, backups, EMPTY, 0, ops)
    ensures (forall op | op in ops :: op.Full?) ==> StaysBelow(maxSize, backups, EMPTY, ops)
  {
    BelowIff(maxSize, backups, EMPTY, 0, ops);
    if forall op | op in ops :: op.Full? {
      FullIsNeverOverlooked(maxSize, backups, EMPTY, ops);
    }
  }

  lemma {:induction false} FullIsNeverOverlooked(maxSize: int, backups: int, log: Log, ops: seq<WriteOp>)
    requires forall op | op in ops :: op.Full?
    ensures NoneOverlooked(maxSize, backups, log, 0, ops)
    decreases |ops|
  {
    if ops != [] {
      assert ops[0] in ops && forall op | op in ops[1..] :: op in ops;
      FullIsNeverOverlooked(maxSize, backups, Perform(maxSize, backups, log, ops[0]), ops[1..]);
    }
  }

  /** A write cut short one byte below the limit, and one more byte: the limit is reached and nothing rotates. */
  lemma ShortWriteOvershoots(maxSize: int, backups: int) returns (ops: seq<WriteOp>)
    requires maxSize > 1
    ensures var after := WriteAll(maxSize, backups, EMPTY, ops);
            |Content(after.files, Current)| == maxSize && Backup(1) !in after.files && !StaysBelow(maxSize, backups, EMPTY, ops)
  {
    ops := [Cut(Filler(maxSize - 1)), Full("x")];
    var half := CutShort(EMPTY, Filler(maxSize - 1));
    assert half.files[Current] == Filler(maxSize - 1) by {
      assert "" + Filler(maxSize - 1) == Filler(maxSize - 1);
    }
    assert ops[1..] == [Full("x")] && ops[1..][1..] == [];
    assert WriteAll(maxSize, backups, EMPTY, ops) == WriteAll(maxSize, backups, half, [Full("x")]);
    assert WriteAll(maxSize, backups, half, [Full("x")]) == Appended(maxSize, backups, half, "x");
    BelowIff(maxSize, backups, EMPTY, 0, ops);
  }

  // ---------------------------------------------------------------- reading the tail

  /** What happens to the current file: it grows, a rotation puts an empty one in its place, or someone reads its tail. */
  datatype TailOp = Grow(p: string) | Rotate | Read(length: int)

  predicate WithoutRotation(ops: seq<TailOp>) {
    forall op | op in ops :: op != Rotate
  }

  /** A reader that passes back the offset it was given last, and all the data it has got. */
  datatype Reader = Reader(file: string, offset: int, seen: string)

  function TailStep(r: Reader, op: TailOp): Reader {
    match op
    case Grow(p) => r.(file := r.file + p)
    case Rotate => r.(file := "")
    case Read(length) =>
      var t := Tail(r.file, r.offset, length);
      r.(offset := t.next, seen := r.seen + t.data)
  }

  function TailAll(r: Reader, ops: seq<TailOp>): Reader
    decreases |ops|
  {
    if ops == [] then r else TailAll(TailStep(r, ops[0]), ops[1..])
  }

  predicate InStep(r: Reader) {
    0 <= r.offset <= |r.file| && r.seen == r.file[..r.offset]
  }

  lemma TailStepInStep(r: Reader, op: TailOp)
    requires InStep(r) && op != Rotate
    ensures InStep(TailStep(r, op))
  {
    var t := TailStep(r, op);
    assert t.seen == t.file[..t.offset];
  }

  /** Under every interleaving of appends and tail reads between two rotations the reader has seen exactly the prefix up to its offset. */
  lemma {:induction false} ReaderSeesPrefix(r: Reader, ops: seq<TailOp>)
    requires InStep(r) && WithoutRotation(ops)
    ensures InStep(TailAll(r, ops))
    decreases |ops|
  {
    if ops != [] {
      assert ops[0] in ops && forall op | op in ops[1..] :: op in ops;
      TailStepInStep(r, ops[0]);
      ReaderSeesPrefix(TailStep(r, ops[0]), ops[1..]);
    }
  }

  /** A read of any offset and length gives the bytes of the file from there on, and an offset within the file. */
  lemma TailIsSlice(file: string, offset: int, length: int)
    requires offset >= 0 && length >= 0
    ensures var t, from := Tail(file, offset, length), Min(offset, |file|);
            && !t.failed && from <= t.next <= |file| && t.data == file[from..t.next]
            && t.next - from == Min(length, |file| - from) && (t.eof <==> offset >= |file|)
  {
  }

  /** What the reader has got since it was at an offset is the file from there on. */
  predicate GotSince(r: Reader, from: nat, seen: string) {
    from <= r.offset <= |r.file| && r.seen == seen + r.file[from..r.offset]
  }

  lemma StepGot(r: Reader, op: TailOp, from: nat, seen: string)
    requires GotSince(r, from, seen) && op != Rotate
    ensures GotSince(TailStep(r, op), from, seen)
  {
    var t := TailStep(r, op);
    assert t.file[..|r.file|] == r.file;
    assert t.file[from..t.offset] == r.file[from..r.offset] + t.file[r.offset..t.offset];
  }

  lemma {:induction false} AllGot(r: Reader, ops: seq<TailOp>, from: nat, seen: string)
    requires GotSince(r, from, seen) && WithoutRotation(ops)
    ensures GotSince(TailAll(r, ops), from, seen)
    decreases |ops|
  {
    if ops != [] {
      assert ops[0] in ops && forall op | op in ops[1..] :: op in ops;
      StepGot(r, ops[0], from, seen);
      AllGot(TailStep(r, ops[0]), ops[1..], from, seen);
    }
  }

  /**
    After a rotation, or with any other offset: from the first read on the reader gets the new file from
    its old offset on, or from the end that this read finds if the file is shorter. What lies in front of
    that it never gets.
   */
  lemma FollowsNewFile(r: Reader, length: int, ops: seq<TailOp>)
    requires r.offset >= 0 && length >= 0 && WithoutRotation(ops)
    ensures var from, t := Min(r.offset, |r.file|), TailAll(TailStep(r, Read(length)), ops);
            from <= t.offset <= |t.file| && t.seen == r.seen + t.file[from..t.offset]
  {
    TailIsSlice(r.file, r.offset, length);
    AllGot(TailStep(r, Read(length)), ops, Min(r.offset, |r.file|), r.seen);
  }

  /** A reader in step with the file loses nothing by a rotation if and only if it has read nothing, or the first read finds the new file empty. */
  lemma RotationUnnoticedIff(r: Reader, grown: string, length: int, ops: seq<TailOp>)
    requires InStep(r) && length >= 0 && WithoutRotation(ops)
    ensures var t := TailAll(TailStep(TailStep(TailStep(r, Rotate), Grow(grown)), Read(length)), ops);
            0 <= t.offset <= |t.file| && (t.seen == r.seen + t.file[..t.offset] <==> r.offset == 0 || grown == "")
  {
    var u := TailStep(TailStep(r, Rotate), Grow(grown));
    var t := TailAll(TailStep(u, Read(length)), ops);
    assert u.file == grown;
    FollowsNewFile(u, length, ops);
    var from := Min(r.offset, |grown|);
    assert |t.file[from..t.offset]| == t.offset - from && |t.file[..t.offset]| == t.offset;
    assert from == 0 ==> t.file[from..t.offset] == t.file[..t.offset];
  }

  /** The data of tail reads of a positive length, each from the offset the last one returned, up to the end of file. */
  function ReadOn(file: string, offset: nat, length: int): string
    requires offset <= |file| && length > 0
    decreases |file| - offset
  {
    var t := Tail(file, offset, length);
    if t.eof then "" else t.data + ReadOn(file, t.next, length)
  }

  /** Such reads end, and yield exactly the rest of the file. */
  lemma {:induction false} ReadOnIsRest(file: string, offset: nat, length: int)
    requires offset <= |file| && length > 0
    ensures ReadOn(file, offset, length) == file[offset..]
    decreases |file| - offset
  {
    var t := Tail(file, offset, length);
    if !t.eof {
      ReadOnIsRest(file, t.next, length);
      assert file[offset..t.next] + file[t.next..] == file[offset..];
    }
  }
}
