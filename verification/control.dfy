/** The flag machine behind the control operations and the daemon's loop. */
module Control {
  import opened Records
  import opened Ring
  import opened Tracer

  predicate FlagsInv(s: State) {
    && !(s.flags.wrap && s.flags.zap)
    && !(s.flags.disk && (s.flags.open || s.flags.close))
    && s.flags.flush == s.flags.close
    && s.fd == (s.flags.disk || s.flags.close)
    && !s.crashed
  }

  /** In this turn a zapped file reaches the limit and its successor cannot be opened. */
  predicate ReopenFails(s: State, op: Op) {
    && op.DoIterate? && !op.t.ok
    && s.flags.disk && s.flags.zap && s.ring.flush > 0
    && s.seek + s.ring.n * E >= s.limit
  }

  /** One step keeps the flags consistent exactly when no zap reopen fails in it. */
  lemma StepFlags(s: State, op: Op)
    requires s.Wf() && FlagsInv(s)
    ensures FlagsInv(Step(s, op)) <==> !ReopenFails(s, op)
    ensures s.flags.open && !s.flags.close ==> !s.fd
  {
    if op.DoIterate? && (s.flags.close || s.flags.disk) {
      TurnFlags(s, op.t);
    }
  }

  /** Draining touches neither flags nor file. */
  lemma DrainedFrame(s: State, mark: Marker)
    requires s.Wf()
    ensures Drained(s, mark) == s.(ring := Drained(s, mark).ring, hist := Drained(s, mark).hist)
    ensures Drained(s, mark).ring.n == s.ring.n && Drained(s, mark).hist.base == s.hist.base
    ensures Drained(s, mark).hist.stream == s.hist.stream
  {
  }

  /** What one write does to flags and descriptor. */
  lemma WriteFlags(s: State, doFlush: bool, ok: bool, mark: Marker)
    requires s.Wf() && s.fd && !s.crashed && !(s.flags.wrap && s.flags.zap)
    ensures var s' := WriteData(s, doFlush, ok, mark);
      && !s'.crashed
      && (s.flags.close || s.flags.wrap ==> s'.flags == s.flags && s'.fd)
      && (!s.flags.close && !s.flags.wrap ==>
            if s.seek + |Flatten(Buffer(s, doFlush))| < s.limit
            then s'.flags == s.flags && s'.fd
            else if s.flags.zap
            then s'.fd == ok && s'.flags == s.flags.(open := false, disk := s.flags.disk || ok)
            else !s'.fd && s'.flags == s.flags.(disk := false))
  {
    var s1 := Taken(Written(s, Flatten(Buffer(s, doFlush))), doFlush);
    DrainedFrame(Settled(s1, Wrapping(s), ok), mark);
  }

  lemma TurnFlags(s: State, t: Turn)
    requires s.Wf() && FlagsInv(s) && (s.flags.close || s.flags.disk)
    ensures FlagsInv(Iterate(s, t)) <==> !ReopenFails(s, DoIterate(t))
  {
    WriteFlags(s, false, t.ok, t.mark);
    var s1 := FlushPending(s, t);
    if s.flags.close {
      WriteFlags(s1, true, t.ok, t.mark2);
    }
  }

  /** A run in which no zap reopen fails. */
  predicate Smooth(s: State, ops: seq<Op>)
    requires s.Wf()
  {
    ops == [] || (
      var front := ops[..|ops| - 1];
      Smooth(s, front) && !ReopenFails(Run(s, front), ops[|ops| - 1]))
  }

  /** Hence write_data never runs without a file, over every run of operations and turns. */
  lemma {:induction false} RunFlags(n: nat, ops: seq<Op>)
    requires n >= 2 && Smooth(Init(n), ops)
    ensures FlagsInv(Run(Init(n), ops))
  {
    if ops != [] {
      RunFlags(n, ops[..|ops| - 1]);
      StepFlags(Run(Init(n), ops[..|ops| - 1]), ops[|ops| - 1]);
    }
  }

  /** After a failed reopen the next pending buffer makes the daemon run without a file. */
  lemma FailedReopenCrashes(s: State, op: Op, t: Turn)
    requires s.Wf() && FlagsInv(s) && ReopenFails(s, op)
    ensures var s' := Step(s, op);
      && s'.flags.disk && !s'.fd && !s'.flags.close && !s'.flags.open
      && forall x: State :: x.Wf() && x.flags == s'.flags && x.fd == s'.fd && x.ring.flush > 0 ==>
           Iterate(x, t).crashed
  {
    WriteFlags(s, false, false, op.t.mark);
  }

  // ---------- the path of an open ----------

  lemma WritePath(s: State, doFlush: bool, ok: bool, mark: Marker)
    requires s.Wf()
    ensures WriteData(s, doFlush, ok, mark).path == s.path
  {
    if s.fd {
      var s1 := Taken(Written(s, Flatten(Buffer(s, doFlush))), doFlush);
      DrainedFrame(Settled(s1, Wrapping(s), ok), mark);
    }
  }

  /** Only an accepted open and the closing turn of an open file touch the path. */
  lemma PathKept(s: State, op: Op)
    requires s.Wf() && FlagsInv(s)
    requires !(op.DoIterate? && s.flags.close)
    requires op.DoOpen? ==> s.flags.open || s.flags.disk || |op.path| >= 1024
    ensures Step(s, op).path == s.path
  {
    if op.DoIterate? && s.flags.disk {
      WritePath(s, false, op.t.ok, op.t.mark);
      WritePath(FlushPending(s, op.t), true, op.t.ok, op.t.mark2);
    }
  }

  /** An accepted open stands, with its path, whatever is asked before its turn. */
  lemma {:induction false} OpenStands(s: State, path: string, ops: seq<Op>)
    requires s.Wf() && FlagsInv(s) && CtrlOpen(s, path).1 == 0
    requires forall op :: op in ops ==> !op.DoIterate?
    ensures var s' := Run(CtrlOpen(s, path).0, ops);
      FlagsInv(s') && s'.path == path && s'.flags.open && s'.flags.close == s.flags.close && !s'.flags.disk
  {
    StepFlags(s, DoOpen(path));
    if ops != [] {
      var front, op := ops[..|ops| - 1], ops[|ops| - 1];
      assert op in ops;
      OpenStands(s, path, front);
      PathKept(Run(CtrlOpen(s, path).0, front), op);
      StepFlags(Run(CtrlOpen(s, path).0, front), op);
    }
  }

  /** A turn keeps the path of an open that has just been accepted, unless a close is pending. */
  lemma OpenKeepsPath(s: State, path: string, t: Turn)
    requires s.Wf() && FlagsInv(s) && CtrlOpen(s, path).1 == 0
    ensures var s' := Iterate(CtrlOpen(s, path).0, t);
      && s'.path == (if s.flags.close then "" else path)
      && (path != "" ==> (s'.path == path <==> !s.flags.close))
      && (s.flags.close ==> s'.flags.open && !s'.fd)
  {
    var s0 := CtrlOpen(s, path).0;
    if s.flags.close {
      WriteFlags(s0, true, t.ok, t.mark2);
    } else {
      PathKept(s0, DoIterate(t));
    }
  }

  // ---------- what the operations ask for ----------

  predicate SameSwitches(s: State, s': State) {
    s'.flags.wrap == s.flags.wrap && s'.flags.zap == s.flags.zap && s'.limit == s.limit
  }

  /** A write leaves WRAP, ZAP and the limit as they are. */
  lemma WriteSwitches(s: State, doFlush: bool, ok: bool, mark: Marker)
    requires s.Wf()
    ensures SameSwitches(s, WriteData(s, doFlush, ok, mark))
  {
    if s.fd {
      var s1 := Taken(Written(s, Flatten(Buffer(s, doFlush))), doFlush);
      DrainedFrame(Settled(s1, Wrapping(s), ok), mark);
    }
  }

  lemma PendingSwitches(s: State, t: Turn)
    requires s.Wf()
    ensures SameSwitches(s, FlushPending(s, t))
  {
    WriteSwitches(s, false, t.ok, t.mark);
  }

  lemma ActiveSwitches(s: State, t: Turn)
    requires s.Wf()
    ensures SameSwitches(s, FlushActive(s, t))
  {
    WriteSwitches(s, true, t.ok, t.mark2);
  }

  lemma FlushSwitches(s: State, t: Turn, x: State)
    requires s.Wf() && x == FlushPending(s, t)
    ensures SameSwitches(s, FlushActive(x, t))
  {
    PendingSwitches(s, t);
    ActiveSwitches(x, t);
  }

  lemma CloseSwitches(s: State, x: State)
    requires x.Wf() && SameSwitches(s, x)
    ensures SameSwitches(s, FileClosed(x))
  {
  }

  lemma TurnSwitches(s: State, t: Turn)
    requires s.Wf()
    ensures SameSwitches(s, Iterate(s, t))
  {
    if !s.crashed && (s.flags.close || s.flags.disk) {
      var x := FlushActive(FlushPending(s, t), t);
      FlushSwitches(s, t, FlushPending(s, t));
      CloseSwitches(s, x);
      assert Iterate(s, t) == (if s.flags.close then FileClosed(x) else x) || s.flags.open;
    }
  }

  /** What one operation does to WRAP, ZAP and the limit. */
  lemma StepSwitches(s: State, op: Op)
    requires s.Wf()
    ensures Step(s, op).flags.wrap == if op.DoWrap? && !s.flags.zap then op.enable else s.flags.wrap
    ensures Step(s, op).flags.zap == if op.DoZap? && !s.flags.wrap then op.enable else s.flags.zap
    ensures Step(s, op).limit == if op.DoSize? then op.limit else s.limit
  {
    if op.DoIterate? {
      TurnSwitches(s, op.t);
    }
  }

  /** What the last wrap operation asked for, of those that came while ZAP was clear. */
  function WrapAsked(s: State, ops: seq<Op>): bool
    requires s.Wf()
  {
    if ops == [] then s.flags.wrap
    else
      var front, op := ops[..|ops| - 1], ops[|ops| - 1];
      if op.DoWrap? && !Run(s, front).flags.zap then op.enable else WrapAsked(s, front)
  }

  /** What the last zap operation asked for, of those that came while WRAP was clear. */
  function ZapAsked(s: State, ops: seq<Op>): bool
    requires s.Wf()
  {
    if ops == [] then s.flags.zap
    else
      var front, op := ops[..|ops| - 1], ops[|ops| - 1];
      if op.DoZap? && !Run(s, front).flags.wrap then op.enable else ZapAsked(s, front)
  }

  function LimitAsked(s: State, ops: seq<Op>): nat {
    if ops == [] then s.limit
    else if ops[|ops| - 1].DoSize? then ops[|ops| - 1].limit
    else LimitAsked(s, ops[..|ops| - 1])
  }

  /** Over every run WRAP, ZAP and the limit are what was asked for last. */
  lemma {:induction false} AsAsked(s: State, ops: seq<Op>)
    requires s.Wf()
    ensures Run(s, ops).flags.wrap == WrapAsked(s, ops) && Run(s, ops).flags.zap == ZapAsked(s, ops)
    ensures Run(s, ops).limit == LimitAsked(s, ops)
  {
    if ops != [] {
      AsAsked(s, ops[..|ops| - 1]);
      StepSwitches(Run(s, ops[..|ops| - 1]), ops[|ops| - 1]);
    }
  }
}
