/** The whole way: emit, drain at arbitrary moments, close, and read the files back. */
module ReadingBack {
  import opened Records
  import opened Sequences
  import opened TraceFiles
  import opened Reader
  import opened Ring
  import opened Tracer
  import opened Control
  import opened BoundedLog
  import opened Accounting
  import opened Sessions

  ghost predicate AllReadable(fs: seq<Image>) {
    forall i :: 0 <= i < |fs| ==> Readable(fs[i])
  }

  /** What prbt prints of several files, one after the other. */
  ghost function ReadAll(fs: seq<Image>): seq<Record>
    requires AllReadable(fs)
  {
    if fs == [] then [] else ReadAll(fs[..|fs| - 1]) + Parsed(fs[|fs| - 1])
  }

  lemma {:induction false} ChopConcat(a: seq<byte>, b: seq<byte>)
    requires |a| % E == 0 && |b| % E == 0
    ensures |a + b| % E == 0 && Chop(a + b) == Chop(a) + Chop(b)
  {
    if b == [] {
      assert a + b == a;
    } else {
      var b', r := b[..|b| - E], b[|b| - E..];
      ChopConcat(a, b');
      ChopAppend(a + b', r);
      assert a + b' + r == a + b;
    }
  }

  /** Files that never wrapped read back as their data areas, joined. */
  lemma {:induction false} ReadJoined(fs: seq<Image>)
    requires AllReadable(fs) && forall i :: 0 <= i < |fs| ==> fs[i].wrapPos == 0
    ensures |Joined(fs)| % E == 0 && ReadAll(fs) == Chop(Joined(fs))
  {
    if fs != [] {
      ReadJoined(fs[..|fs| - 1]);
      ChopConcat(Joined(fs[..|fs| - 1]), fs[|fs| - 1].data);
    }
  }

  lemma SealedReads(fs: seq<Image>, n: nat, cap: nat)
    requires n > 0 && cap % E == 0 && Sealed(fs, n, cap)
    ensures AllReadable(fs) && |Joined(fs)| % E == 0 && ReadAll(fs) == Chop(Joined(fs))
  {
    forall i | 0 <= i < |fs| ensures Readable(fs[i]) && fs[i].wrapPos == 0 {
      assert fs[i] in fs;
    }
    ReadJoined(fs);
  }

  lemma ReadAppend(fs: seq<Image>, f: Image)
    requires AllReadable(fs) && Readable(f)
    ensures AllReadable(fs + [f]) && ReadAll(fs + [f]) == ReadAll(fs) + Parsed(f)
  {
    var all := fs + [f];
    assert all[..|all| - 1] == fs;
  }

  lemma {:induction false} TailAligned(a: seq<byte>, b: seq<byte>, c: seq<byte>)
    requires |a| % E == 0 && |c| % E == 0 && a + b == c
    ensures |b| % E == 0 && Chop(c) == Chop(a) + Chop(b)
  {
    ChopConcat(a, b);
  }

  lemma UnrolledReads(s: State)
    requires Unrolled(s)
    ensures AllReadable(SessionFiles(s)) && ReadAll(SessionFiles(s)) == s.hist.stream
  {
    WholeRecords(Cap(s), s.ring.n);
    SealedReads(Earlier(s), s.ring.n, Cap(s));
    TailAligned(Joined(Earlier(s)), s.File().data, Flatten(s.hist.stream));
    ReadAppend(Earlier(s), s.File());
    EarlierAndLast(s);
    ChopFlatten(s.hist.stream);
  }

  // ---------- before the close operation ----------

  /** How many records fit in a file before it wraps, rotates or stops. */
  function FileRecords(s: State): nat
    requires s.ring.n > 0
  {
    Cap(s) / E
  }

  /** The only file of a session that has neither wrapped nor zapped. */
  lemma OnlyFile(s: State)
    requires FileOK(s) && !s.flags.zap && s.wrapPos == 0
    ensures s.File().data == Flatten(s.hist.stream)
  {
    assert Earlier(s) == [] && Joined([]) + s.File().data == s.File().data;
  }

  /** What the reader needs to know of the last file. */
  lemma LastFileBounded(s: State)
    requires FileOK(s) && s.flags.wrap
    ensures s.File().nrRecords == s.ring.n > 0 && s.File().wrapPos == s.wrapPos
    ensures Bounded(Flatten(s.hist.stream), s.File().data, s.wrapPos, Cap(s), Page(s))
    ensures s.wrapPos == 0 ==> s.File().data == Flatten(s.hist.stream)
    ensures Page(s) == s.ring.n * E
  {
    if s.wrapPos == 0 {
      OnlyFile(s);
    }
  }

  lemma {:induction false} StoredCount(rs: seq<Record>, d: seq<byte>, w: nat, cap: nat, n: nat)
    requires n > 0 && Bounded(Flatten(rs), d, w, cap, n * E) && (w == 0 ==> d == Flatten(rs))
    ensures |d| / E == Min(|rs|, cap / E) && cap % E == 0
    ensures w != 0 ==> |rs| >= cap / E
    ensures w == 0 && Position(d, w) < cap ==> |rs| < cap / E
  {
    WholeRecords(cap, n);
  }

  /** With WRAP set the file always reads as the latest records written, up to its capacity. */
  lemma CircularFile(s: State)
    requires During(s) && s.fd && s.flags.wrap
    ensures s.files != [] && Readable(s.File()) && s.ring.n > 0
    ensures Parsed(s.File()) == Last(s.hist.stream, Min(|s.hist.stream|, FileRecords(s)))
  {
    DuringFile(s);
    CircularLog(s);
  }

  lemma CircularLog(s: State)
    requires FileOK(s) && s.flags.wrap
    ensures Readable(s.File())
    ensures Parsed(s.File()) == Last(s.hist.stream, Min(|s.hist.stream|, FileRecords(s)))
  {
    LastFileBounded(s);
    StoredCount(s.hist.stream, s.File().data, s.wrapPos, Cap(s), s.ring.n);
    ReadBounded(s.hist.stream, s.File(), Cap(s));
  }

  lemma StoppedReads(s: State)
    requires Stopped(s)
    ensures AllReadable(SessionFiles(s)) && ReadAll(SessionFiles(s)) == s.hist.stream
  {
    assert Earlier(s) == [] && Joined([]) + s.File().data == s.File().data;
    UnrolledReads(s);
  }

  lemma LocatedReads(s: State)
    requires FileOK(s) && s.wrapPos == 0
    ensures AllReadable(SessionFiles(s)) && ReadAll(SessionFiles(s)) == s.hist.stream
  {
    UnrolledReads(s);
  }

  /** Until they wrap the files of a session read as everything that was written. */
  lemma UnwrappedFiles(s: State)
    requires During(s) && (if s.fd then s.wrapPos == 0 else !s.flags.open)
    ensures s.hist.base <= |s.files| && AllReadable(SessionFiles(s))
    ensures ReadAll(SessionFiles(s)) == s.hist.stream
  {
    DuringFile(s);
    if s.fd {
      LocatedReads(s);
    } else {
      StoppedReads(s);
    }
  }

  lemma SealedFull(f: Image, fs: seq<Image>, n: nat, cap: nat)
    requires n > 0 && Multiple(cap, n * E) && Sealed(fs, n, cap) && f in fs
    ensures Readable(f) && f.wrapPos == 0 && |Parsed(f)| == cap / E
  {
    WholeRecords(cap, n);
  }

  /** Every zapped file but the last holds exactly the pages up to the limit. */
  lemma ZappedFilesFull(s: State, i: nat)
    requires During(s) && s.fd && s.hist.base <= i < |s.files| - 1
    ensures Readable(s.files[i]) && s.files[i].wrapPos == 0
    ensures s.ring.n > 0 && |Parsed(s.files[i])| == FileRecords(s)
  {
    DuringFile(s);
    EarlierAt(s, i);
    SealedFull(s.files[i], Earlier(s), s.ring.n, Cap(s));
  }

  /** The header field of a file, and its size. */
  predicate InBounds(f: Image, limit: nat, page: nat) {
    && H + |f.data| < Max(limit, H + 1) + page
    && (f.wrapPos == 0 || (page > 0 && H <= f.wrapPos <= H + |f.data| && Multiple(f.wrapPos - H, page)))
  }

  lemma LastFileSize(s: State)
    requires FileOK(s) || Stopped(s)
    ensures InBounds(s.File(), s.limit, Page(s))
  {
  }

  lemma EarlierFileSize(s: State, i: nat)
    requires s.ring.n > 0 && s.hist.base <= i < |s.files| - 1 && Sealed(Earlier(s), s.ring.n, Cap(s))
    ensures InBounds(s.files[i], s.limit, Page(s))
  {
    EarlierAt(s, i);
  }

  lemma OpenFilesSize(s: State, i: nat)
    requires FileOK(s) && s.hist.base <= i < |s.files|
    ensures InBounds(s.files[i], s.limit, Page(s)) && s.File().wrapPos == s.wrapPos
  {
    if i == |s.files| - 1 {
      LastFileSize(s);
    } else {
      EarlierFileSize(s, i);
    }
  }

  lemma StoppedFileSize(s: State, i: nat)
    requires Stopped(s) && s.hist.base <= i < |s.files|
    ensures InBounds(s.files[i], s.limit, Page(s))
  {
    LastFileSize(s);
  }

  /** Before the close operation no file reaches a page past the limit, open or stopped. */
  lemma SizeBound(s: State, i: nat)
    requires During(s) && s.hist.base <= i < |s.files|
    ensures InBounds(s.files[i], s.limit, Page(s))
    ensures s.fd ==> s.File().wrapPos == s.wrapPos
  {
    DuringFile(s);
    NotYetOpen(s);
    if s.fd {
      OpenFilesSize(s, i);
    } else {
      StoppedFileSize(s, i);
    }
  }

  /** Before the first turn there is no file of the session. */
  lemma NotYetOpen(s: State)
    requires During(s)
    ensures !s.fd && s.flags.open ==> |s.files| == s.hist.base
    ensures s.fd || s.flags.open || Stopped(s)
  {
    DuringInv(s);
  }

  // ---------- the closing turn ----------

  /** The case in which the closing turn forgets a full buffer. */
  predicate ForgetsBuffer(s: State) {
    s.ring.flush > 1 && |s.ring.active| == s.ring.n
  }

  /** The number of records in the last write: the active buffer and perhaps an RBT_LOST. */
  function LastCount(s: State): nat {
    if s.ring.flush <= 1 then |s.ring.active|
    else if |s.ring.active| < s.ring.n then |s.ring.active| + 1 else 1
  }

  /** Where the last write starts in the data area. */
  function LastPos(s: State): nat
    requires s.files != []
  {
    Pos(s) + if s.ring.flush > 0 then Page(s) else 0
  }

  lemma CountersAfterDrain(s: State, ok: bool, mark: Marker)
    requires s.Wf() && s.fd && s.ring.lost == 0 && s.ring.flush > 0
    ensures var s' := WriteData(s, false, ok, mark);
      s'.ring.n == s.ring.n && |s'.ring.active| == LastCount(s)
  {
    WriteRing(s, false, ok, mark);
  }

  /** The pending page of a closing turn, up to the header. */
  lemma ClosingPage(s: State, s1: State, s2: State)
    requires s.Wf() && FileOK(s) && Pos(s) < Cap(s) && s.ring.flush > 0 && s.flags.close
    requires s1 == Taken(Written(s, Flatten(s.ring.pending)), false)
    requires s2 == Settled(s1, Wrapping(s), true)
    ensures FileOK(s2) && Pos(s2) == Pos(s) + Page(s) && (s2.wrapPos == 0 <==> s.wrapPos == 0)
  {
    PageLocated(s);
    WrittenAt(s, Flatten(s.ring.pending));
    SettledFrame(s1, Wrapping(s));
    SettledInside(s1);
  }

  lemma PendingPosition(s: State, mark: Marker)
    requires s.Wf() && FileOK(s) && Pos(s) < Cap(s) && s.ring.flush > 0 && s.flags.close
    ensures var s' := WriteData(s, false, true, mark);
      && (s'.wrapPos == 0 <==> s.wrapPos == 0)
      && FileOK(s') && Pos(s') == Pos(s) + Page(s)
  {
    var s1 := Taken(Written(s, Flatten(s.ring.pending)), false);
    var s2 := Settled(s1, Wrapping(s), true);
    ClosingPage(s, s1, s2);
    DrainedFrame(s2, mark);
    DrainedLocated(s2, mark);
  }

  lemma LimitKept(s: State, t: Turn)
    requires s.Wf() && s.fd
    ensures FlushPending(s, t).limit == s.limit
  {
    var s1 := Taken(Written(s, Flatten(s.ring.pending)), false);
    DrainedFrame(Settled(s1, Wrapping(s), t.ok), t.mark);
  }

  /** The closing turn up to its last write. */
  lemma BeforeLastWrite(s: State, t: Turn)
    requires SessionInv(s) && s.flags.close && t.ok
    ensures var s1 := FlushPending(s, t);
      && s1.Wf() && FlagsInv(s1) && FileOK(s1) && Accounted(s1) && s1.flags == s.flags
      && (s1.ring.flush == if ForgetsBuffer(s) then 1 else 0)
      && Pos(s1) == LastPos(s) && Cap(s1) == Cap(s) && s1.ring.n == s.ring.n
      && s1.hist.base == s.hist.base
      && |s1.ring.active| == LastCount(s)
      && (s1.wrapPos == 0 <==> s.wrapPos == 0)
  {
    if s.ring.flush > 0 {
      WritePending(s, t.mark);
      PendingPosition(s, t.mark);
      WritePendingAccounts(s, true, t.mark);
      WriteFlags(s, false, true, t.mark);
      CountersAfterDrain(s, true, t.mark);
    }
  }

  lemma LastWriteDrained(s: State, mark: Marker)
    requires s.Wf() && s.fd
    ensures WriteData(s, true, true, mark) == Drained(LastStored(s), mark)
  {
  }

  /** The closing turn: every record is written or told, except a forgotten buffer. */
  lemma ClosingAccounts(s: State, t: Turn)
    requires SessionInv(s) && s.flags.close && t.ok
    ensures var s' := Iterate(s, t);
      && s'.Wf() && FlagsInv(s') && !s'.flags.close && !s'.flags.disk && !s'.crashed
      && (|s'.hist.log| == |s'.hist.stream| + s'.hist.told <==> !ForgetsBuffer(s))
      && (ForgetsBuffer(s) ==> |s'.hist.log| == |s'.hist.stream| + s'.hist.told + s.ring.n)
      && (!ForgetsBuffer(s) ==> exists tail ::
            && s'.hist.stream == KeptOf(s'.hist.retired) + tail
            && s'.hist.log == AllOf(s'.hist.retired) + tail)
  {
    var s1 := FlushPending(s, t);
    BeforeLastWrite(s, t);
    WriteActiveAccounts(s1, true, t.mark2);
    WriteFlags(s1, true, true, t.mark2);
  }

  /** Draining and closing the descriptor leave the files as the last write made them. */
  lemma LastTurnFiles(s: State, t: Turn)
    requires s.Wf() && s.fd && !s.crashed && s.flags.close && s.flags.flush
    ensures var x, s' := LastStored(s), FileClosed(FlushActive(s, t));
      && s'.files == x.files && s'.limit == x.limit == s.limit && s'.ring.n == x.ring.n == s.ring.n
      && s'.hist.base == x.hist.base == s.hist.base && s'.hist.stream == x.hist.stream
      && |s'.files| == |s.files|
  {
    LastWriteDrained(s, t.mark2);
    DrainedFrame(LastStored(s), t.mark2);
  }

  /** The files after the closing turn, by whether the session had wrapped. */
  lemma ClosingFiles(s: State, t: Turn)
    requires SessionInv(s) && s.flags.close && t.ok
    ensures var s' := Iterate(s, t);
      && s'.ring.n == s.ring.n && s'.limit == s.limit && Cap(s') == Cap(s)
      && s'.hist.base == s.hist.base <= |s'.files|
      && (s.wrapPos == 0 ==> Unrolled(s'))
      && (s.wrapPos != 0 ==> Wrapped(s', LastPos(s), LastCount(s) * E))
  {
    var s1, s' := FlushPending(s, t), Iterate(s, t);
    BeforeLastWrite(s, t);
    LastTurnFiles(s1, t);
    LimitKept(s, t);
    SameCap(s1, s');
    LastFile(s1);
    if s.wrapPos == 0 {
      LastUnrolled(s1, s');
    } else {
      LastWrapped(s1, s');
    }
  }

  /** The size of every file of a session, and where its header field may point. */
  ghost predicate ClosedSizes(s: State) {
    s.hist.base <= |s.files| && forall f :: f in SessionFiles(s) ==>
      && H + |f.data| < Max(s.limit, H + 1) + 2 * Page(s)
      && (f.wrapPos == 0 || (H <= f.wrapPos <= H + |f.data| && (f.wrapPos - H) % E == 0))
  }

  /** After the closing turn a file is at most one page longer than it could be before. */
  lemma ClosedSizeBound(s: State, t: Turn)
    requires During(s) && s.flags.close && t.ok
    ensures var s' := Iterate(s, t); ClosedSizes(s') && s'.limit == s.limit && Page(s') == Page(s)
  {
    DuringInv(s);
    ClosingFiles(s, t);
    if s.wrapPos == 0 {
      ClosedUnrolledSize(Iterate(s, t));
    } else {
      ClosedWrappedSize(Iterate(s, t), LastPos(s), LastCount(s));
    }
  }

  lemma ClosedUnrolledSize(s: State)
    requires Unrolled(s)
    ensures ClosedSizes(s)
  {
    var fs := SessionFiles(s);
    forall f | f in fs
      ensures f.wrapPos == 0 && |f.data| <= Cap(s) + Page(s)
    {
      var i :| 0 <= i < |fs| && fs[i] == f;
      assert f == s.files[s.hist.base + i];
    }
  }

  lemma EndedSize(all: seq<byte>, d: seq<byte>, at: nat, count: nat, cap: nat, n: nat)
    requires n > 0 && Ended(all, d, at, count * E, cap, n * E)
    ensures |d| <= cap + n * E && at + count * E <= |d| && (at + count * E) % E == 0
  {
    EndedLength(all, d, at, count, cap, n);
  }

  lemma WrappedFileSize(s: State, at: nat, count: nat)
    requires Wrapped(s, at, count * E)
    ensures |s.File().data| <= Cap(s) + Page(s)
    ensures H <= s.File().wrapPos <= H + |s.File().data| && (s.File().wrapPos - H) % E == 0
  {
    EndedSize(Flatten(s.hist.stream), s.File().data, at, count, Cap(s), s.ring.n);
  }

  lemma ClosedWrappedSize(s: State, at: nat, count: nat)
    requires Wrapped(s, at, count * E)
    ensures ClosedSizes(s)
  {
    WrappedFileSize(s, at, count);
    var room: nat := Cap(s) + Page(s);
    assert H + room < Max(s.limit, H + 1) + 2 * Page(s);
    forall f | f in SessionFiles(s) ensures f == s.File() {
      assert SessionFiles(s) == [s.File()];
    }
  }

  /** The last write lands at the end of a wrapped file and leaves it unaligned. */
  predicate EndsUnaligned(s: State)
    requires s.files != [] && s.ring.n > 0
  {
    s.wrapPos != 0 && UnalignedEnd(LastPos(s), LastCount(s) * E, Cap(s), Page(s))
  }

  /** How many records prbt prints of a wrapped file after the closing turn. */
  function LastReadable(s: State): nat
    requires s.files != [] && s.ring.n > 0
  {
    EndedRecords(LastPos(s), LastCount(s), Cap(s))
  }

  /** What prbt prints after the closing turn. */
  lemma ClosedReads(s: State, t: Turn)
    requires SessionInv(s) && s.flags.close && t.ok
    ensures var s' := Iterate(s, t);
      && s'.hist.base <= |s'.files| && AllReadable(SessionFiles(s'))
      && (s.wrapPos == 0 ==> ReadAll(SessionFiles(s')) == s'.hist.stream)
      && (s.wrapPos != 0 ==> |SessionFiles(s')| == 1)
      && (s.wrapPos != 0 && !EndsUnaligned(s) ==>
            && LastReadable(s) <= |s'.hist.stream|
            && ReadAll(SessionFiles(s')) == Last(s'.hist.stream, LastReadable(s)))
      && (EndsUnaligned(s) ==> ReadAll(SessionFiles(s')) == [])
  {
    var s' := Iterate(s, t);
    ClosingFiles(s, t);
    if s.wrapPos == 0 {
      UnrolledReads(s');
    } else {
      WrappedReads(s', LastPos(s), LastCount(s));
    }
  }

  lemma WrappedReads(s: State, at: nat, count: nat)
    requires Wrapped(s, at, count * E)
    ensures |SessionFiles(s)| == 1 && AllReadable(SessionFiles(s))
    ensures EndedRecords(at, count, Cap(s)) <= |s.hist.stream|
    ensures ReadAll(SessionFiles(s)) ==
      if UnalignedEnd(at, count * E, Cap(s), Page(s)) then []
      else Last(s.hist.stream, EndedRecords(at, count, Cap(s)))
  {
    WrappedFile(s, at, count);
    OneFile(s);
    ReadOne(s.File());
  }

  lemma OneFile(s: State)
    requires |s.files| == s.hist.base + 1
    ensures SessionFiles(s) == [s.File()]
  {
  }

  lemma WrappedFile(s: State, at: nat, count: nat)
    requires Wrapped(s, at, count * E)
    ensures Readable(s.File()) && EndedRecords(at, count, Cap(s)) <= |s.hist.stream|
    ensures Parsed(s.File()) ==
      if UnalignedEnd(at, count * E, Cap(s), Page(s)) then []
      else Last(s.hist.stream, EndedRecords(at, count, Cap(s)))
  {
    ReadEnded(s.hist.stream, s.File(), at, count, Cap(s));
  }

  lemma ReadOne(f: Image)
    requires Readable(f)
    ensures ReadAll([f]) == Parsed(f)
  {
    assert [f][..0] == [];
  }

  /** A file of a session wraps exactly when WRAP is set and it has been filled. */
  lemma WrapsWhenFull(s: State)
    requires During(s) && s.fd
    ensures s.ring.n > 0
    ensures s.wrapPos != 0 <==> s.flags.wrap && |s.hist.stream| >= FileRecords(s)
  {
    DuringFile(s);
    FullWraps(s);
  }

  lemma FullWraps(s: State)
    requires FileOK(s) && Pos(s) < Cap(s)
    ensures s.wrapPos != 0 <==> s.flags.wrap && |s.hist.stream| >= FileRecords(s)
  {
    if s.flags.wrap {
      LastFileBounded(s);
      StoredCount(s.hist.stream, s.File().data, s.wrapPos, Cap(s), s.ring.n);
    }
  }

  // ---------- end to end ----------

  /** The records that the rbtrace calls of a run were given, in order. */
  function TracesOf(ops: seq<Op>): seq<Record> {
    if ops == [] then []
    else TracesOf(ops[..|ops| - 1]) + if ops[|ops| - 1].DoTrace? then [ops[|ops| - 1].r] else []
  }

  /** ri_flush never exceeds one. */
  predicate Calm(s: State, ops: seq<Op>)
    requires s.Wf()
  {
    Run(s, ops).ring.flush <= 1 && (ops == [] || Calm(s, ops[..|ops| - 1]))
  }

  lemma QuietWrite(s: State, mark: Marker)
    requires s.Wf() && s.fd && s.ring.lost == 0 && s.ring.flush == 1
    ensures WriteData(s, false, true, mark).hist
         == s.hist.(stream := s.hist.stream + s.ring.pending)
  {
    WriteRing(s, false, true, mark);
  }

  lemma CalmStep(s: State, op: Op)
    requires SessionInv(s) && Live(s, op) && s.ring.flush <= 1
    ensures var h, h' := s.hist, Step(s, op).hist;
      && h'.told == h.told
      && h'.log == h.log + (if op.DoTrace? then [op.r] else [])
  {
    if op.DoIterate? && s.flags.disk && s.ring.flush == 1 {
      QuietWrite(s, op.t.mark);
      WriteFlags(s, false, true, op.t.mark);
    }
    assert s.hist.log + [] == s.hist.log;
  }

  lemma {:induction false} CalmRun(s: State, ops: seq<Op>)
    requires SessionInv(s) && s.hist.log == [] && s.hist.told == 0
    requires LiveRun(s, ops) && Calm(s, ops)
    ensures Run(s, ops).hist.told == 0 && Run(s, ops).hist.log == TracesOf(ops)
  {
    if ops != [] {
      var front := ops[..|ops| - 1];
      CalmRun(s, front);
      SessionRun(s, front);
      CalmStep(Run(s, front), ops[|ops| - 1]);
    }
  }

  lemma CalmClosing(s: State, t: Turn)
    requires SessionInv(s) && s.flags.close && t.ok && s.ring.flush <= 1
    ensures Iterate(s, t).hist.log == s.hist.log && Iterate(s, t).hist.told == s.hist.told
  {
    BeforeLastWrite(s, t);
    if s.ring.flush == 1 {
      QuietWrite(s, t.mark);
    }
    WriteActiveAccounts(FlushPending(s, t), true, t.mark2);
    WriteFlags(FlushPending(s, t), true, true, t.mark2);
  }

  /** A session: an accepted open, live operations up to a close, and the closing turn. */
  ghost predicate Session(s0: State, path: string, ops: seq<Op>, t: Turn) {
    && Starts(s0, path)
    && LiveRun(CtrlOpen(s0, path).0, ops)
    && Run(CtrlOpen(s0, path).0, ops).flags.close && t.ok
  }

  lemma StepBase(s: State, op: Op)
    requires SessionInv(s) && Live(s, op)
    ensures Step(s, op).hist.base == s.hist.base
  {
    if op.DoIterate? && s.flags.disk {
      WriteRing(s, false, true, op.t.mark);
      WriteFlags(s, false, true, op.t.mark);
    }
  }

  lemma {:induction false} BaseKept(s: State, ops: seq<Op>)
    requires SessionInv(s) && LiveRun(s, ops)
    ensures Run(s, ops).hist.base == s.hist.base
  {
    if ops != [] {
      BaseKept(s, ops[..|ops| - 1]);
      SessionRun(s, ops[..|ops| - 1]);
      StepBase(Run(s, ops[..|ops| - 1]), ops[|ops| - 1]);
    }
  }

  lemma SessionReached(s0: State, path: string, ops: seq<Op>, t: Turn)
    requires Session(s0, path, ops, t)
    ensures var s := Run(CtrlOpen(s0, path).0, ops);
      SessionInv(s) && s.files != [] && s.hist.base == |s0.files|
  {
    SessionStart(s0, path);
    SessionRun(CtrlOpen(s0, path).0, ops);
    BaseKept(CtrlOpen(s0, path).0, ops);
  }

  /** In every session, read-back is what was written, and what is missing was told. */
  lemma EverySession(s0: State, path: string, ops: seq<Op>, t: Turn)
    requires Session(s0, path, ops, t)
    ensures var s := Run(CtrlOpen(s0, path).0, ops); var s' := Iterate(s, t);
      && s.files != [] && s'.hist.base == |s0.files| <= |s'.files|
      && AllReadable(SessionFiles(s'))
      && (s.wrapPos == 0 ==> ReadAll(SessionFiles(s')) == s'.hist.stream)
      && (s.wrapPos != 0 && !EndsUnaligned(s) ==>
            && FileRecords(s) <= LastReadable(s) <= |s'.hist.stream|
            && ReadAll(SessionFiles(s')) == Last(s'.hist.stream, LastReadable(s)))
      && (EndsUnaligned(s) ==> ReadAll(SessionFiles(s')) == [])
      && (|s'.hist.log| == |s'.hist.stream| + s'.hist.told <==> !ForgetsBuffer(s))
  {
    var s := Run(CtrlOpen(s0, path).0, ops);
    SessionReached(s0, path, ops, t);
    ClosedReads(s, t);
    ClosingAccounts(s, t);
    ClosingFiles(s, t);
  }

  /** When ri_flush never exceeds one, the files read back as the records emitted. */
  lemma EndToEnd(s0: State, path: string, ops: seq<Op>, t: Turn)
    requires Session(s0, path, ops, t) && Calm(CtrlOpen(s0, path).0, ops)
    ensures var s := Run(CtrlOpen(s0, path).0, ops); var s' := Iterate(s, t);
      && s.files != [] && s'.hist.base <= |s'.files| && AllReadable(SessionFiles(s'))
      && (s.wrapPos == 0 ==> ReadAll(SessionFiles(s')) == TracesOf(ops))
      && (s.wrapPos != 0 && !EndsUnaligned(s) ==>
            && FileRecords(s) <= LastReadable(s) <= |TracesOf(ops)|
            && ReadAll(SessionFiles(s')) == Last(TracesOf(ops), LastReadable(s)))
      && (EndsUnaligned(s) ==> ReadAll(SessionFiles(s')) == [])
  {
    var s1 := CtrlOpen(s0, path).0;
    var s := Run(s1, ops);
    SessionReached(s0, path, ops, t);
    SessionStart(s0, path);
    CalmRun(s1, ops);
    CalmClosing(s, t);
    ClosedReads(s, t);
    ClosingAccounts(s, t);
    AllWritten(Iterate(s, t).hist, s.ring.n);
  }

  /** Nothing told and nothing forgotten: the stream is the log. */
  lemma AllWritten(h: History, n: nat)
    requires |h.log| == |h.stream|
    requires exists tail :: h.stream == KeptOf(h.retired) + tail && h.log == AllOf(h.retired) + tail
    ensures h.stream == h.log
  {
    NothingDropped(h.retired);
  }
}
