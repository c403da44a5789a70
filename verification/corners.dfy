/** Short runs that show where the guarantees of daemon and files stop. */
module Corners {
  import opened Records
  import opened TraceFiles
  import opened Ring
  import opened Tracer
  import opened Control
  import opened Accounting
  import opened Sessions
  import opened ReadingBack

  /** One more live operation. */
  lemma Do(s1: State, ops: seq<Op>, s: State, op: Op)
    returns (ops': seq<Op>, s': State)
    requires s1.Wf() && LiveRun(s1, ops) && Run(s1, ops) == s && Live(s, op)
    ensures LiveRun(s1, ops') && Run(s1, ops') == s' == Step(s, op)
    ensures Calm(s1, ops') <==> Calm(s1, ops) && s'.ring.flush <= 1
    ensures TracesOf(ops') == TracesOf(ops) + if op.DoTrace? then [op.r] else []
  {
    ops', s' := ops + [op], Step(s, op);
    assert ops'[..|ops'| - 1] == ops;
  }

  /** What a call of rbtrace does to the counts when nothing has been lost. */
  lemma Call(s1: State, ops: seq<Op>, s: State, r: Record, mark: Marker)
    returns (ops': seq<Op>, s': State)
    requires s1.Wf() && LiveRun(s1, ops) && Run(s1, ops) == s && s.ring.lost == 0
    ensures LiveRun(s1, ops') && Run(s1, ops') == s'
    ensures Calm(s1, ops') <==> Calm(s1, ops) && s'.ring.flush <= 1
    ensures |TracesOf(ops')| == |TracesOf(ops)| + 1
    ensures s' == s.(ring := s'.ring, hist := s'.hist) && s'.hist.base == s.hist.base
    ensures s'.ring.n == s.ring.n && s'.ring.lost == 0
    ensures s'.ring.flush == if |s.ring.active| < s.ring.n then s.ring.flush else s.ring.flush + 1
    ensures |s'.ring.active| == if |s.ring.active| < s.ring.n then |s.ring.active| + 1 else 1
  {
    ops', s' := Do(s1, ops, s, DoTrace(r, mark));
  }

  /** The first turn of a session opens the file. */
  lemma Opened(s0: State, path: string, t: Turn)
    returns (ops: seq<Op>, s: State)
    requires Starts(s0, path) && t.ok
    ensures var s1 := CtrlOpen(s0, path).0;
      LiveRun(s1, ops) && Run(s1, ops) == s && Calm(s1, ops) && TracesOf(ops) == []
    ensures s.ring == RingState(s0.ring.n, [], [], 0, 0) && s.limit == s0.limit
    ensures s.flags == s0.flags.(disk := true, open := false) && s.fd && s.seek == H && s.wrapPos == 0
    ensures s.files == s0.files + [Image(0, s0.ring.n, [])] && !s.crashed && s.hist.base == |s0.files|
  {
    var s1 := CtrlOpen(s0, path).0;
    ops, s := Do(s1, [], s1, DoIterate(t));
  }

  /** One buffer waits, the other was overwritten and is full again: the closing turn forgets it. */
  lemma ForgottenBuffer(r: Record, t: Turn) returns (ops: seq<Op>)
    requires t.ok
    ensures Session(Init(2), "a", ops, t)
    ensures ForgetsBuffer(Run(CtrlOpen(Init(2), "a").0, ops))
  {
    var s1 := CtrlOpen(Init(2), "a").0;
    var s;
    ops, s := Opened(Init(2), "a", t);
    ops, s := Call(s1, ops, s, r, t.mark);
    ops, s := Call(s1, ops, s, r, t.mark);
    ops, s := Call(s1, ops, s, r, t.mark);
    ops, s := Call(s1, ops, s, r, t.mark);
    ops, s := Call(s1, ops, s, r, t.mark);
    ops, s := Call(s1, ops, s, r, t.mark);
    ops, s := Do(s1, ops, s, DoClose);
  }

  /** A ring of two slots whose file wraps after one page. */
  function SmallWrap(): (s: State)
    ensures s.Wf() && FlagsInv(s) && s.flags == Flags(false, false, true, false, false, false)
    ensures s.ring.n == 2 && s.limit == 0 && s.files == [] && !s.fd
  {
    CtrlWrap(Init(2).(limit := 0), true).0
  }

  lemma SmallCap(s: State)
    requires s.limit == 0 && s.ring.n == 2
    ensures Page(s) == 2 * E == Cap(s)
  {
  }

  /** A turn that writes the first page of such a file, which then wraps. */
  lemma FirstPage(s1: State, ops: seq<Op>, s: State, t: Turn)
    returns (ops': seq<Op>, s': State)
    requires s1.Wf() && LiveRun(s1, ops) && Run(s1, ops) == s && Calm(s1, ops) && t.ok
    requires SessionInv(s) && s.flags == Flags(false, true, true, false, false, false)
    requires s.ring.n == 2 && s.limit == 0 && s.ring.flush == 1 && s.wrapPos == 0 && s.seek == H
    ensures LiveRun(s1, ops') && Run(s1, ops') == s' && Calm(s1, ops') && TracesOf(ops') == TracesOf(ops)
    ensures SessionInv(s') && s'.flags == s.flags && s'.wrapPos == H && s'.limit == 0
    ensures s'.ring == s.ring.(pending := [], flush := 0)
  {
    SessionStep(s, DoIterate(t));
    ops', s' := Do(s1, ops, s, DoIterate(t));
  }

  /** Three calls, a turn, two calls and a close: one page on disk, one pending, one record active. */
  lemma SmallRun(r: Record, t: Turn) returns (ops: seq<Op>, s: State)
    requires t.ok
    ensures var s1 := CtrlOpen(SmallWrap(), "a").0;
      LiveRun(s1, ops) && Run(s1, ops) == s && Calm(s1, ops) && |TracesOf(ops)| == 5
    ensures s.flags == Flags(false, true, true, false, false, false)
    ensures s.wrapPos == H && s.limit == 0 && s.ring.n == 2 && s.ring.flush == 1 && |s.ring.active| == 1
  {
    var s1 := CtrlOpen(SmallWrap(), "a").0;
    ops, s := Opened(SmallWrap(), "a", t);
    ops, s := Call(s1, ops, s, r, t.mark);
    ops, s := Call(s1, ops, s, r, t.mark);
    ops, s := Call(s1, ops, s, r, t.mark);
    SessionStart(SmallWrap(), "a");
    SessionRun(s1, ops);
    ops, s := FirstPage(s1, ops, s, t);
    ops, s := Call(s1, ops, s, r, t.mark);
    ops, s := Call(s1, ops, s, r, t.mark);
  }

  lemma SmallEnd(s: State)
    requires s.Wf() && s.files != [] && s.limit == 0 && s.ring.n == 2 && s.wrapPos == H
    requires s.ring.flush == 1 && |s.ring.active| == 1
    ensures EndsUnaligned(s)
  {
    SmallCap(s);
  }

  /**
   Five records emitted, none lost, and the reader prints none of them: the closing turn
   writes the pending page up to the limit of a wrapped file, then one more record.
   */
  lemma UnalignedEndOfFile(r: Record, t: Turn) returns (ops: seq<Op>)
    requires t.ok
    ensures Session(SmallWrap(), "a", ops, t) && Calm(CtrlOpen(SmallWrap(), "a").0, ops)
    ensures var s' := Iterate(Run(CtrlOpen(SmallWrap(), "a").0, ops), t);
      && |TracesOf(ops)| == 5 && s'.hist.base <= |s'.files|
      && AllReadable(SessionFiles(s')) && ReadAll(SessionFiles(s')) == []
  {
    var s;
    ops, s := SmallRun(r, t);
    ops, s := Do(CtrlOpen(SmallWrap(), "a").0, ops, s, DoClose);
    SessionReached(SmallWrap(), "a", ops, t);
    SmallEnd(s);
    ClosedReads(s, t);
  }

  // ---------- runs from the initial state ----------

  /** One more operation of any kind. */
  lemma Then(ops: seq<Op>, s: State, op: Op) returns (ops': seq<Op>, s': State)
    requires Run(Init(2), ops) == s
    ensures Run(Init(2), ops') == s' == Step(s, op)
    ensures Smooth(Init(2), ops') <==> Smooth(Init(2), ops) && !ReopenFails(s, op)
  {
    ops', s' := ops + [op], Step(s, op);
    assert ops'[..|ops'| - 1] == ops;
  }

  /** Calls of rbtrace change nothing but the ring and the history. */
  lemma ThenCall(ops: seq<Op>, s: State, r: Record, mark: Marker)
    returns (ops': seq<Op>, s': State)
    requires Run(Init(2), ops) == s && s.ring.lost == 0 && s.ring.n == 2
    ensures Run(Init(2), ops') == s' && (Smooth(Init(2), ops') <==> Smooth(Init(2), ops))
    ensures s' == s.(ring := s'.ring, hist := s'.hist) && s'.ring.lost == 0 && s'.ring.n == 2
    ensures s'.ring.flush == if |s.ring.active| < 2 then s.ring.flush else s.ring.flush + 1
    ensures |s'.ring.active| == if |s.ring.active| < 2 then |s.ring.active| + 1 else 1
  {
    ops', s' := Then(ops, s, DoTrace(r, mark));
  }

  /** The limit is set to one page, and ZAP. */
  lemma ZapSet() returns (ops: seq<Op>, s: State)
    ensures Run(Init(2), ops) == s && Smooth(Init(2), ops)
    ensures s == Init(2).(limit := 0, flags := Flags(false, false, false, true, false, false))
  {
    ops, s := Then([], Init(2), DoSize(0));
    ops, s := Then(ops, s, DoZap(true));
  }

  /** A session that zaps its file after every page. */
  lemma ZapOpened(t: Turn) returns (ops: seq<Op>, s: State)
    requires t.ok
    ensures Run(Init(2), ops) == s && Smooth(Init(2), ops)
    ensures s.ring == RingState(2, [], [], 0, 0) && s.limit == 0
    ensures s.flags.disk && s.flags.zap && !s.crashed
  {
    ops, s := ZapSet();
    ops, s := Then(ops, s, DoOpen("a"));
    ops, s := Then(ops, s, DoIterate(t));
  }

  /** A zapped file is open, its only page is pending, and its successor will not open. */
  lemma FailedReopenReached(r: Record, t: Turn, bad: Turn) returns (ops: seq<Op>, s: State)
    requires t.ok && !bad.ok
    ensures Run(Init(2), ops) == s && Smooth(Init(2), ops) && ReopenFails(s, DoIterate(bad))
    ensures s.ring.n == 2 && |s.ring.active| == 1 && s.ring.flush == 1 && s.ring.lost == 0
  {
    ops, s := ZapOpened(t);
    ops, s := ThenCall(ops, s, r, t.mark);
    ops, s := ThenCall(ops, s, r, t.mark);
    ops, s := ThenCall(ops, s, r, t.mark);
  }

  /** A second open is accepted while a close is pending, and its path is gone a turn later. */
  lemma LostPathReached(t: Turn) returns (ops: seq<Op>)
    requires t.ok
    ensures var s := Run(Init(2), ops);
      && Smooth(Init(2), ops) && CtrlOpen(s, "b").1 == 0
      && Iterate(CtrlOpen(s, "b").0, t).path == ""
  {
    var s;
    ops, s := Then([], Init(2), DoOpen("a"));
    ops, s := Then(ops, s, DoIterate(t));
    ops, s := Then(ops, s, DoClose);
    RunFlags(2, ops);
    OpenKeepsPath(s, "b", t);
  }

  /** What the ring holds after a page has been written and nothing was lost. */
  lemma RingAfterPage(s: State, t: Turn)
    requires s.Wf() && FlagsInv(s) && s.flags.disk && s.ring.flush == 1 && s.ring.lost == 0
    ensures Iterate(s, t).ring == s.ring.(pending := [], flush := 0)
  {
    WriteFlags(s, false, t.ok, t.mark);
    WriteRing(s, false, t.ok, t.mark);
  }

  /** After the failed reopen two more calls fill a buffer, and the daemon runs without a file. */
  lemma NoFileReached(r: Record, t: Turn, bad: Turn) returns (ops: seq<Op>)
    requires t.ok && !bad.ok
    ensures Run(Init(2), ops).crashed
  {
    var s;
    ops, s := FailedReopenReached(r, t, bad);
    RunFlags(2, ops);
    RingAfterPage(s, bad);
    FailedReopenCrashes(s, DoIterate(bad), t);
    ops, s := Then(ops, s, DoIterate(bad));
    ops, s := ThenCall(ops, s, r, t.mark);
    ops, s := ThenCall(ops, s, r, t.mark);
    ops, s := Then(ops, s, DoIterate(t));
  }
}
