/** One session: from an accepted open, through any interleaving, to the closing turn. */
module Sessions {
  import opened Records
  import opened Sequences
  import opened TraceFiles
  import opened Ring
  import opened Tracer
  import opened Control
  import opened BoundedLog
  import opened Accounting

  function Page(s: State): nat {
    s.ring.n * E
  }

  /** The data bytes at which a file has reached the limit: whole pages, at least one. */
  function Cap(s: State): nat
    requires s.ring.n > 0
  {
    Capacity(s.limit - H, Page(s))
  }

  function SessionFiles(s: State): seq<Image>
    requires s.hist.base <= |s.files|
  {
    s.files[s.hist.base..]
  }

  /** Those that have a successor. */
  function Earlier(s: State): seq<Image>
    requires s.hist.base < |s.files|
  {
    s.files[..|s.files| - 1][s.hist.base..]
  }

  lemma EarlierAt(s: State, i: nat)
    requires s.hist.base <= i < |s.files| - 1
    ensures s.files[i] in Earlier(s)
  {
    assert Earlier(s)[i - s.hist.base] == s.files[i];
  }

  /** Files that reached the limit and were left behind. */
  ghost predicate Sealed(fs: seq<Image>, n: nat, cap: nat) {
    forall f :: f in fs ==> f.wrapPos == 0 && f.nrRecords == n && |f.data| == cap
  }

  /** The data areas in creation order. */
  function Joined(fs: seq<Image>): seq<byte> {
    if fs == [] then [] else Joined(fs[..|fs| - 1]) + fs[|fs| - 1].data
  }

  function Pos(s: State): nat
    requires s.files != []
  {
    Position(s.File().data, s.wrapPos)
  }

  /** The files hold the stream of records written, where the daemon's position says. */
  ghost predicate Located(s: State) {
    && s.fd && s.ring.n > 0 && s.hist.base < |s.files|
    && Bounded(Flatten(s.hist.stream), s.File().data, s.wrapPos, Cap(s), Page(s))
    && (s.wrapPos == 0 ==>
          && s.seek == H + |s.File().data|
          && Joined(Earlier(s)) + s.File().data == Flatten(s.hist.stream))
    && (s.wrapPos != 0 ==> s.flags.wrap)
    && (s.flags.zap ==> !s.flags.wrap)
    && (!s.flags.zap ==> |s.files| == s.hist.base + 1)
    && s.File().nrRecords == s.ring.n && Sealed(Earlier(s), s.ring.n, Cap(s))
  }

  /** The header on disk agrees with the daemon's copy as well. */
  ghost predicate FileOK(s: State) {
    Located(s) && s.File().wrapPos == s.wrapPos
  }

  /** The stop policy has closed the only file at the limit. */
  ghost predicate Stopped(s: State) {
    && !s.fd && s.ring.n > 0 && |s.files| == s.hist.base + 1 && !s.flags.wrap && !s.flags.zap
    && s.File() == Image(0, s.ring.n, Flatten(s.hist.stream))
    && |s.File().data| == Cap(s)
  }

  // ---------- one write ----------

  /** Replacing the last file leaves those before it. */
  lemma LastReplaced(s: State, x: State, f: Image)
    requires s.hist.base == x.hist.base < |s.files|
    requires x.files == s.files[..|s.files| - 1] + [f]
    ensures |x.files| == |s.files| && x.File() == f && Earlier(x) == Earlier(s)
  {
    assert x.files[..|x.files| - 1] == s.files[..|s.files| - 1];
  }

  lemma UpdatedLast(fs: seq<Image>, f: Image)
    requires fs != []
    ensures fs[|fs| - 1 := f] == fs[..|fs| - 1] + [f]
  {
  }

  /** The files of a session are the earlier ones and the last. */
  lemma EarlierAndLast(s: State)
    requires s.hist.base < |s.files|
    ensures SessionFiles(s) == Earlier(s) + [s.File()]
    ensures Joined(SessionFiles(s)) == Joined(Earlier(s)) + s.File().data
  {
    var fs := SessionFiles(s);
    assert fs == Earlier(s) + [s.File()];
    assert fs[..|fs| - 1] == Earlier(s);
  }

  /** Where the bytes of a buffer go, by the daemon's position alone. */
  lemma StoredAt(s: State, b: seq<byte>)
    requires s.Wf() && s.fd && Pos(s) <= |s.File().data|
    requires if s.wrapPos == 0 then s.seek == H + |s.File().data| else s.flags.wrap
    ensures var s' := Written(s, b);
      && s' == s.(files := s'.files, seek := H + Pos(s) + |b|,
                  wrapPos := if s.wrapPos == 0 then 0 else s.wrapPos + |b|)
      && s'.files == s.files[..|s.files| - 1] + [s.File().(data := Splice(s.File().data, Pos(s), b))]
  {
    if b == [] {
      var d, at := s.File().data, Pos(s);
      assert d[..at] + [] + d[at..] == d;
    }
  }

  lemma WrittenAt(s: State, b: seq<byte>)
    requires s.Wf() && Located(s)
    ensures var s' := Written(s, b);
      && s' == s.(files := s'.files, seek := H + Pos(s) + |b|,
                  wrapPos := if s.wrapPos == 0 then 0 else s.wrapPos + |b|)
      && s'.files == s.files[..|s.files| - 1] + [s.File().(data := Splice(s.File().data, Pos(s), b))]
  {
    StoredAt(s, b);
  }

  lemma SameCap(s: State, t: State)
    requires s.limit == t.limit && s.ring.n == t.ring.n > 0
    ensures Cap(s) == Cap(t)
  {
  }

  /** The page that is written, before the limit and the header are looked at. */
  lemma PageBounded(s: State)
    requires s.Wf() && Located(s) && Pos(s) < Cap(s) && s.ring.flush > 0
    ensures var b, d, w := Flatten(s.ring.pending), s.File().data, s.wrapPos;
      Bounded(Flatten(s.hist.stream + s.ring.pending), Splice(d, Pos(s), b),
              if w == 0 then 0 else w + |b|, Cap(s), Page(s))
  {
    WritePage(Flatten(s.hist.stream), s.File().data, s.wrapPos, Cap(s), Page(s), Flatten(s.ring.pending));
    FlattenConcat(s.hist.stream, s.ring.pending);
  }

  lemma PageJoined(s: State, x: State)
    requires s.Wf() && Located(s) && s.wrapPos == 0 && PageWritten(s, x)
    ensures x.hist.base < |x.files|
    ensures Joined(Earlier(x)) + x.File().data == Flatten(x.hist.stream)
  {
    var b, d := Flatten(s.ring.pending), s.File().data;
    SpliceEnd(d, b);
    LastReplaced(s, x, s.File().(data := d + b));
    FlattenConcat(s.hist.stream, s.ring.pending);
  }

  /** x is s after the pending buffer has been stored. */
  ghost predicate PageWritten(s: State, x: State)
    requires s.Wf() && Located(s)
  {
    var b, d := Flatten(s.ring.pending), s.File().data;
    && x == s.(files := x.files, seek := H + Pos(s) + |b|, ring := x.ring, hist := x.hist,
               wrapPos := if s.wrapPos == 0 then 0 else s.wrapPos + |b|)
    && x.files == s.files[..|s.files| - 1] + [s.File().(data := Splice(d, Pos(s), b))]
    && x.hist.stream == s.hist.stream + s.ring.pending
    && x.hist.base == s.hist.base && x.ring.n == s.ring.n
  }

  lemma PageStored(s: State)
    requires s.Wf() && Located(s)
    ensures PageWritten(s, Taken(Written(s, Flatten(s.ring.pending)), false))
  {
    WrittenAt(s, Flatten(s.ring.pending));
  }

  lemma PageKeepsLocated(s: State, x: State)
    requires s.Wf() && Located(s) && Pos(s) < Cap(s) && s.ring.flush > 0 && PageWritten(s, x)
    ensures Located(x) && x.seek == H + Pos(x) && Pos(x) > 0 && Cap(x) == Cap(s)
  {
    PageBounded(s);
    SameCap(s, x);
    LastReplaced(s, x, s.File().(data := Splice(s.File().data, Pos(s), Flatten(s.ring.pending))));
    if s.wrapPos == 0 {
      PageJoined(s, x);
    }
  }

  /** The bytes of a buffer reach the file; the limit and the header come afterwards. */
  lemma PageLocated(s: State)
    requires s.Wf() && Located(s) && Pos(s) < Cap(s) && s.ring.flush > 0
    ensures var s' := Taken(Written(s, Flatten(s.ring.pending)), false);
      && Located(s') && s'.seek == H + Pos(s') && Pos(s') > 0
      && Cap(s') == Cap(s) && s'.flags == s.flags && s'.ring.n == s.ring.n
      && (s'.wrapPos != 0 <==> s.wrapPos != 0)
      && s'.File().wrapPos == s.File().wrapPos
  {
    PageStored(s);
    PageKeepsLocated(s, Taken(Written(s, Flatten(s.ring.pending)), false));
  }

  lemma SpliceEnd<T>(d: seq<T>, b: seq<T>)
    ensures Splice(d, |d|, b) == d + b
  {
  }

  /** The limit is reached exactly when the position has run through the whole pages. */
  lemma AtLimit(s: State)
    requires Located(s) && s.seek == H + Pos(s) && Pos(s) > 0
    ensures s.seek >= s.limit <==> Pos(s) == Cap(s)
  {
    if s.seek >= s.limit {
      CapacityLeast(s.limit - H, Page(s), Pos(s));
    }
  }

  /** A new file makes the last one an earlier one. */
  lemma NewFile(s: State, x: State, f: Image)
    requires s.hist.base == x.hist.base < |s.files| && x.files == s.files + [f]
    ensures x.hist.base < |x.files| && x.File() == f && Earlier(x) == SessionFiles(s)
  {
    assert x.files[..|x.files| - 1] == s.files;
  }

  lemma SealedMore(s: State)
    requires Located(s) && s.wrapPos == 0 && s.File().wrapPos == 0 && Pos(s) == Cap(s)
    ensures Sealed(SessionFiles(s), s.ring.n, Cap(s))
    ensures Joined(SessionFiles(s)) + [] == Flatten(s.hist.stream)
  {
    EarlierAndLast(s);
    assert Joined(SessionFiles(s)) + [] == Joined(SessionFiles(s));
  }

  /** x is s with a fresh file opened behind the last one. */
  ghost predicate Reopened(s: State, x: State) {
    && x == s.(fd := true, seek := H, wrapPos := 0, flags := x.flags, files := x.files)
    && x.files == s.files + [Image(0, s.ring.n, [])]
    && x.flags.wrap == s.flags.wrap && x.flags.zap == s.flags.zap
  }

  lemma ReopenedLocated(s: State, x: State)
    requires s.Wf() && Located(s) && s.wrapPos == 0 && s.flags.zap && Pos(s) == Cap(s)
    requires s.File().wrapPos == 0 && Reopened(s, x)
    ensures FileOK(x) && Pos(x) == 0
  {
    SealedMore(s);
    NewFile(s, x, Image(0, s.ring.n, []));
    SameCap(s, x);
  }

  lemma ZapReopens(s: State)
    requires s.Wf()
    ensures Reopened(s, WriteHeader(s.(fd := false), true))
  {
  }

  lemma ZapLocated(s: State)
    requires s.Wf() && Located(s) && s.wrapPos == 0 && s.flags.zap && Pos(s) == Cap(s)
    requires s.File().wrapPos == 0
    ensures FileOK(WriteHeader(s.(fd := false), true))
    ensures Pos(WriteHeader(s.(fd := false), true)) == 0
  {
    ZapReopens(s);
    ReopenedLocated(s, WriteHeader(s.(fd := false), true));
  }

  lemma WrapLocated(s: State)
    requires s.Wf() && Located(s) && s.flags.wrap && Pos(s) == Cap(s)
    ensures FileOK(HeaderUpdated(s.(wrapPos := H))) && Pos(HeaderUpdated(s.(wrapPos := H))) == 0
  {
    StartOver(Flatten(s.hist.stream), s.File().data, s.wrapPos, Cap(s), Page(s));
    var s' := HeaderUpdated(s.(wrapPos := H));
    UpdatedLast(s.files, s.File().(wrapPos := H));
    LastReplaced(s, s', s.File().(wrapPos := H));
  }

  lemma StopLocated(s: State)
    requires s.Wf() && Located(s) && !s.flags.wrap && !s.flags.zap && Pos(s) == Cap(s)
    requires s.File().wrapPos == 0
    ensures Stopped(s.(fd := false, flags := s.flags.(disk := false)))
  {
    assert Earlier(s) == [] && Joined([]) + s.File().data == s.File().data;
  }

  lemma HeaderLocated(s: State)
    requires s.Wf() && Located(s) && s.wrapPos != 0
    ensures FileOK(HeaderUpdated(s)) && Pos(HeaderUpdated(s)) == Pos(s)
  {
    var s' := HeaderUpdated(s);
    UpdatedLast(s.files, s.File().(wrapPos := s.wrapPos));
    LastReplaced(s, s', s.File().(wrapPos := s.wrapPos));
  }

  /** The limit is not reached, or the file is being closed: only the header may move. */
  lemma SettledInside(s: State)
    requires s.Wf() && Located(s) && (s.wrapPos == 0 ==> s.File().wrapPos == 0)
    ensures var s' := if s.wrapPos != 0 then HeaderUpdated(s) else s;
      FileOK(s') && Pos(s') == Pos(s)
  {
    if s.wrapPos != 0 {
      HeaderLocated(s);
    }
  }

  /** The limit is reached before the close operation. */
  lemma SettledLimit(s: State)
    requires s.Wf() && Located(s) && Pos(s) == Cap(s) && !s.flags.close && s.seek >= s.limit
    requires s.wrapPos == 0 ==> s.File().wrapPos == 0
    ensures var s' := Settled(s, s.wrapPos != 0, true);
      if s'.fd then FileOK(s') && Pos(s') == 0 else Stopped(s')
  {
    if s.flags.wrap {
      WrapLocated(s);
    } else if s.flags.zap {
      ZapLocated(s);
    } else {
      StopLocated(s);
    }
  }

  lemma SettledFrame(s: State, wrapping: bool)
    requires s.Wf() && s.ring.n > 0
    ensures var s' := Settled(s, wrapping, true);
      s'.ring == s.ring && s'.hist == s.hist && s'.limit == s.limit && Cap(s') == Cap(s)
    ensures s.seek < s.limit || s.flags.close ==>
      Settled(s, wrapping, true) == if wrapping then HeaderUpdated(s) else s
  {
    SameCap(s, Settled(s, wrapping, true));
  }

  /** What the end-of-file policy leaves after a full page, before and after the close operation. */
  lemma SettledOK(s: State, s': State)
    requires s.Wf() && Located(s) && s.seek == H + Pos(s) && Pos(s) > 0
    requires s.wrapPos == 0 ==> s.File().wrapPos == 0
    requires s' == Settled(s, s.wrapPos != 0, true)
    ensures s.flags.close ==> FileOK(s') && Pos(s') <= Cap(s)
    ensures !s.flags.close && s'.fd ==> FileOK(s') && Pos(s') < Cap(s)
    ensures !s.flags.close && !s'.fd ==> Stopped(s')
    ensures Cap(s') == Cap(s) && s'.ring == s.ring && s'.hist == s.hist
  {
    AtLimit(s);
    SettledFrame(s, s.wrapPos != 0);
    if s.seek >= s.limit && !s.flags.close {
      SettledLimit(s);
    } else {
      SettledInside(s);
    }
  }

  lemma DrainedLocated(s: State, mark: Marker)
    requires s.Wf()
    ensures FileOK(s) ==> FileOK(Drained(s, mark)) && Pos(Drained(s, mark)) == Pos(s)
    ensures Stopped(s) ==> Stopped(Drained(s, mark))
    ensures s.ring.n > 0 ==> Cap(Drained(s, mark)) == Cap(s)
  {
    DrainedFrame(s, mark);
  }

  lemma WritePending(s: State, mark: Marker)
    requires s.Wf() && FileOK(s) && Pos(s) < Cap(s) && s.ring.flush > 0
    ensures var s' := WriteData(s, false, true, mark);
      && (s.flags.close ==> FileOK(s') && Pos(s') <= Cap(s))
      && (!s.flags.close && s'.fd ==> FileOK(s') && Pos(s') < Cap(s))
      && (!s.flags.close && !s'.fd ==> Stopped(s'))
      && Cap(s') == Cap(s)
  {
    var s1 := Taken(Written(s, Flatten(s.ring.pending)), false);
    PageLocated(s);
    SettledOK(s1, Settled(s1, Wrapping(s), true));
    DrainedFrame(Settled(s1, Wrapping(s), true), mark);
    DrainedLocated(Settled(s1, Wrapping(s), true), mark);
  }

  // ---------- the session up to the closing turn ----------

  /** What holds in every state of a session before its closing turn. */
  ghost predicate SessionInv(s: State) {
    && s.Wf() && FlagsInv(s) && Accounted(s)
    && if s.fd then FileOK(s) && Pos(s) < Cap(s) && !s.flags.open
       else if s.flags.open then |s.files| == s.hist.base && s.hist.stream == []
       else Stopped(s)
  }

  /** Calls of rbtrace, turns in which files can be opened, and the close operation. */
  predicate Live(s: State, op: Op) {
    match op
    case DoTrace(_, _) => true
    case DoIterate(t) => t.ok && !s.flags.close
    case DoClose => true
    case _ => false
  }

  /** An open that is accepted while no close is pending. */
  ghost predicate Starts(s: State, path: string) {
    s.Wf() && FlagsInv(s) && !s.flags.close && CtrlOpen(s, path).1 == 0
  }

  lemma SessionStart(s: State, path: string)
    requires Starts(s, path)
    ensures SessionInv(CtrlOpen(s, path).0)
  {
  }

  lemma TraceKeepsFile(s: State, r: Record, mark: Marker)
    requires s.Wf()
    ensures FileOK(s) ==> FileOK(Trace(s, r, mark)) && Pos(Trace(s, r, mark)) == Pos(s)
    ensures Stopped(s) ==> Stopped(Trace(s, r, mark))
    ensures Cap(Trace(s, r, mark)) == Cap(s)
  {
  }

  lemma TraceStep(s: State, r: Record, mark: Marker)
    requires SessionInv(s)
    ensures SessionInv(Trace(s, r, mark))
  {
    TraceKeepsFile(s, r, mark);
    TraceAccounts(s, r, mark);
  }

  lemma OpeningTurn(s: State, t: Turn)
    requires SessionInv(s) && s.flags.open && t.ok
    ensures SessionInv(Iterate(s, t))
  {
    var s' := Iterate(s, t);
    assert Earlier(s') == [];
  }

  lemma WritingTurn(s: State, t: Turn)
    requires SessionInv(s) && s.flags.disk && t.ok
    ensures SessionInv(Iterate(s, t))
  {
    if s.ring.flush > 0 {
      WritePending(s, t.mark);
      WritePendingAccounts(s, true, t.mark);
      WriteFlags(s, false, true, t.mark);
    }
  }

  lemma LiveTurn(s: State, t: Turn)
    requires SessionInv(s) && Live(s, DoIterate(t))
    ensures SessionInv(Iterate(s, t))
  {
    if s.flags.open {
      OpeningTurn(s, t);
    } else if s.flags.disk {
      WritingTurn(s, t);
    }
  }

  /** Where the file is does not depend on the flags that a close changes. */
  lemma CloseKeepsFile(s: State, x: State)
    requires s.Wf() && FileOK(s) && s.flags.disk && x == CtrlClose(s).0
    ensures FileOK(x) && Pos(x) == Pos(s) && Cap(x) == Cap(s)
  {
    SameCap(s, x);
  }

  lemma CloseStep(s: State)
    requires SessionInv(s)
    ensures SessionInv(CtrlClose(s).0)
  {
    if s.flags.disk {
      CloseKeepsFile(s, CtrlClose(s).0);
    }
  }

  lemma SessionStep(s: State, op: Op)
    requires SessionInv(s) && Live(s, op)
    ensures SessionInv(Step(s, op))
  {
    match op
    case DoTrace(r, mark) => TraceStep(s, r, mark);
    case DoIterate(t) => LiveTurn(s, t);
    case DoClose => CloseStep(s);
  }

  /** A run of live operations: no turn comes after the close operation. */
  predicate LiveRun(s: State, ops: seq<Op>)
    requires s.Wf()
  {
    ops == [] || (
      var front := ops[..|ops| - 1];
      LiveRun(s, front) && Live(Run(s, front), ops[|ops| - 1]))
  }

  lemma {:induction false} SessionRun(s: State, ops: seq<Op>)
    requires SessionInv(s) && LiveRun(s, ops)
    ensures SessionInv(Run(s, ops))
  {
    if ops != [] {
      SessionRun(s, ops[..|ops| - 1]);
      SessionStep(Run(s, ops[..|ops| - 1]), ops[|ops| - 1]);
    }
  }

  /** s is reached in a session before its closing turn. */
  ghost predicate During(s: State) {
    exists s0: State, path: string, ops: seq<Op> ::
      Starts(s0, path) && LiveRun(CtrlOpen(s0, path).0, ops) && Run(CtrlOpen(s0, path).0, ops) == s
  }

  /** The invariant holds in every session, at whatever moments the daemon runs. */
  lemma DuringInv(s: State)
    requires During(s)
    ensures SessionInv(s)
  {
    var s0: State, path: string, ops: seq<Op> :|
      Starts(s0, path) && LiveRun(CtrlOpen(s0, path).0, ops) && Run(CtrlOpen(s0, path).0, ops) == s;
    SessionStart(s0, path);
    SessionRun(CtrlOpen(s0, path).0, ops);
  }

  lemma DuringFile(s: State)
    requires During(s)
    ensures s.Wf()
    ensures s.fd ==> FileOK(s) && Pos(s) < Cap(s)
    ensures !s.fd && !s.flags.open ==> Stopped(s)
  {
    DuringInv(s);
  }

  /** The path given to the open is the daemon's until the closing turn. */
  lemma {:induction false} SessionPath(s0: State, path: string, ops: seq<Op>)
    requires Starts(s0, path) && LiveRun(CtrlOpen(s0, path).0, ops)
    ensures Run(CtrlOpen(s0, path).0, ops).path == path
  {
    if ops != [] {
      var front := ops[..|ops| - 1];
      SessionPath(s0, path, front);
      SessionStart(s0, path);
      SessionRun(CtrlOpen(s0, path).0, front);
      PathKept(Run(CtrlOpen(s0, path).0, front), ops[|ops| - 1]);
    }
  }

  // ---------- the closing turn ----------

  /** All files of a session that never wrapped, once closed. */
  ghost predicate Unrolled(s: State) {
    && s.hist.base < |s.files| && s.ring.n > 0
    && Joined(Earlier(s)) + s.File().data == Flatten(s.hist.stream)
    && s.File().wrapPos == 0 && s.File().nrRecords == s.ring.n
    && Sealed(Earlier(s), s.ring.n, Cap(s))
    && |s.File().data| <= Cap(s) + Page(s)
  }

  /** The file of a session that has wrapped, after the last write of m bytes at position at. */
  ghost predicate Wrapped(s: State, at: nat, m: nat) {
    && |s.files| == s.hist.base + 1 && s.ring.n > 0
    && s.File().wrapPos == H + at + m && s.File().nrRecords == s.ring.n
    && Ended(Flatten(s.hist.stream), s.File().data, at, m, Cap(s), Page(s))
  }

  /** The last write of a session, before the counters are drained. */
  function LastStored(s: State): (s': State)
    requires s.Wf()
    ensures s'.Wf()
  {
    if !s.fd then s else Settled(Taken(Written(s, Flatten(s.ring.active)), true), Wrapping(s), true)
  }

  /** x is s after its last write: the bytes, and the header when the file has wrapped. */
  ghost predicate LastWritten(s: State, x: State)
    requires s.Wf() && FileOK(s)
  {
    var b := Flatten(s.ring.active);
    && x.files == s.files[..|s.files| - 1]
                  + [Image(if s.wrapPos == 0 then 0 else s.wrapPos + |b|, s.ring.n,
                           Splice(s.File().data, Pos(s), b))]
    && x.hist.stream == s.hist.stream + s.ring.active
    && x.hist.base == s.hist.base && x.limit == s.limit && x.ring.n == s.ring.n
  }

  lemma ReplacedTwice(fs: seq<Image>, f: Image, g: Image)
    ensures (fs + [f])[|fs| := g] == fs + [g]
  {
  }

  lemma LastFile(s: State)
    requires s.Wf() && FileOK(s) && s.flags.close
    ensures LastWritten(s, LastStored(s))
  {
    var b := Flatten(s.ring.active);
    var s1 := Taken(Written(s, b), true);
    var d := Splice(s.File().data, Pos(s), b);
    WrittenAt(s, b);
    SettledFrame(s1, Wrapping(s));
    ReplacedTwice(s.files[..|s.files| - 1], s.File().(data := d), Image(s1.wrapPos, s.ring.n, d));
  }

  lemma LastUnrolled(s: State, x: State)
    requires s.Wf() && FileOK(s) && s.wrapPos == 0 && LastWritten(s, x)
    ensures Unrolled(x)
  {
    var b, d := Flatten(s.ring.active), s.File().data;
    SpliceEnd(d, b);
    SameCap(s, x);
    LastReplaced(s, x, Image(0, s.ring.n, d + b));
    FlattenConcat(s.hist.stream, s.ring.active);
  }

  lemma LastWrapped(s: State, x: State)
    requires s.Wf() && FileOK(s) && s.wrapPos != 0 && LastWritten(s, x)
    ensures Wrapped(x, Pos(s), |Flatten(s.ring.active)|)
  {
    FlattenConcat(s.hist.stream, s.ring.active);
    SameCap(s, x);
    LastWrite(Flatten(s.hist.stream), s.File().data, s.wrapPos, Cap(s), Page(s), Flatten(s.ring.active));
  }
}
