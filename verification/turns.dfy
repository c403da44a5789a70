/** A turn of the daemon that nobody interrupts leaves what the state machine of module Tracer says. */
module Turns {
  import opened Interleaving
  import opened Uninterrupted
  import Records
  import T = Tracer
  import Control
  import Accounting

  /** The two models agree on the counters and the slot. */
  predicate SameRing(r: Ring.RingState, s: State) {
    && s.n == r.n && s.m.slot == |r.active| - 1 && s.m.flush == r.flush && s.m.lost == r.lost
  }

  predicate SameFlags(f: T.Flags, s: State) {
    f.open == s.open && f.disk == s.disk && f.close == s.close
  }

  // ---------- control operations ----------

  lemma OpenAgrees(t: T.State, s: State, path: string)
    requires t.Wf() && SameFlags(t.flags, s) && SameRing(t.ring, s) && |path| < 1024
    ensures T.CtrlOpen(t, path).1 == 0 <==> Enabled(s, CtrlOpen)
    ensures Enabled(s, CtrlOpen) ==>
      && SameFlags(T.CtrlOpen(t, path).0.flags, Next(s, CtrlOpen))
      && SameRing(T.CtrlOpen(t, path).0.ring, Next(s, CtrlOpen))
  {
  }

  lemma CloseAgrees(t: T.State, s: State)
    requires t.Wf() && SameFlags(t.flags, s) && SameRing(t.ring, s)
    ensures T.CtrlClose(t).1 == 0 <==> Enabled(s, CtrlClose)
    ensures Enabled(s, CtrlClose) ==>
      && SameFlags(T.CtrlClose(t).0.flags, Next(s, CtrlClose))
      && SameRing(T.CtrlClose(t).0.ring, Next(s, CtrlClose))
  {
  }

  /** The turn that opens a file, or fails to. */
  lemma OpeningAgrees(t: T.State, s: State, turn: T.Turn)
    requires t.Wf() && Control.FlagsInv(t) && t.flags.open && !t.flags.close
    requires SameFlags(t.flags, s) && SameRing(t.ring, s) && s.daemon.Waiting? && s.m.slot >= -1
    ensures Enabled(s, Opened(turn.ok))
    ensures var t', s' := T.Iterate(t, turn), Next(s, Opened(turn.ok));
      SameFlags(t'.flags, s') && SameRing(t'.ring, s')
  {
  }

  // ---------- a call ----------

  lemma {:induction false} SoloControl(s: State, i: nat, k: nat)
    requires i < |s.threads| && s.m.slot >= -1
    ensures SameControl(s, Solo(s, i, k))
  {
    if k > 0 {
      SoloControl(s, i, k - 1);
    }
  }

  lemma CallAgrees(r: Ring.RingState, s: State, i: nat, rec: Records.Record, mark: Ring.Marker)
    requires r.Wf() && SameRing(r, s)
    requires i < |s.threads| && s.threads[i] == Thread(Idle, 0)
    ensures var s' := Solo(s, i, Steps(s));
      SameRing(Ring.Emit(r, rec, mark), s') && s'.threads == s.threads && SameControl(s, s')
  {
    CallAlone(s, i);
    SoloControl(s, i, Steps(s));
  }

  // ---------- a write ----------

  /** The steps of one write of the pending buffer; stop: the stop policy closes the file. */
  function Written(s: State, stop: bool): (s': State)
    requires s.daemon.Waiting? && (s.disk || s.close) && s.m.flush > 0 && s.m.slot >= -1 && (stop ==> s.disk)
    ensures s'.m.slot >= -1
  {
    var s1 := Next(s, Test);
    var s2 := Next(s1, Begin);
    var s3 := Next(s2, Wrote);
    var s4 := if stop then Next(s3, Stop) else s3;
    var s5 := Next(s4, TakeLost);
    Next(s5, ResetFlush)
  }

  /** It takes the alternate buffer, drains both counters and leaves the rest. */
  lemma WrittenLeaves(s: State, stop: bool)
    requires s.daemon.Waiting? && (s.disk || s.close) && s.m.flush > 0 && s.m.slot >= -1 && (stop ==> s.disk)
    ensures Next(Next(s, Test), Begin).daemon == Writing(s.m.alt, true)
    ensures var s' := Written(s, stop);
      && s'.m == s.m.(lost := 0, flush := 0) && s'.threads == s.threads && s'.n == s.n
      && s'.daemon.Waiting? && s'.open == s.open && s'.close == s.close && s'.disk == (s.disk && !stop)
  {
  }

  /** What the write and its RBT_LOST call leave. */
  function Drained(s: State, stop: bool, i: nat): (s': State)
    requires s.daemon.Waiting? && (s.disk || s.close) && s.m.flush > 0 && s.m.slot >= -1 && (stop ==> s.disk)
    requires i < |s.threads|
    ensures s'.daemon.Waiting? && s'.close == s.close && s'.m.slot >= -1 && |s'.threads| == |s.threads|
  {
    WrittenLeaves(s, stop);
    var w := Written(s, stop);
    SoloControl(w, i, Steps(w));
    if s.m.flush > 1 || s.m.lost > 0 then Solo(w, i, Steps(w)) else w
  }

  lemma DrainAgrees(t: T.State, s: State, stop: bool, i: nat, mark: Ring.Marker)
    requires t.Wf() && SameRing(t.ring, s) && s.daemon.Waiting? && (s.disk || s.close) && s.m.flush > 0
    requires (stop ==> s.disk) && i < |s.threads| && s.threads[i] == Thread(Idle, 0)
    ensures var s' := Drained(s, stop, i);
      && SameRing(T.Drained(T.Taken(t, false), mark).ring, s')
      && s'.threads == s.threads && SameControl(Written(s, stop), s')
  {
    WrittenLeaves(s, stop);
    var t1 := T.Taken(t, false);
    var t2 := T.CountersTaken(t1);
    if s.m.flush > 1 || s.m.lost > 0 {
      CallAgrees(t2.ring, Written(s, stop), i, mark(T.Missing(t1.ring)), mark);
    }
  }

  /** A turn with a pending buffer, under whichever end-of-file policy. */
  lemma WritingAgrees(t: T.State, s: State, i: nat, turn: T.Turn)
    requires t.Wf() && Control.FlagsInv(t) && t.flags.disk && turn.ok
    requires SameFlags(t.flags, s) && SameRing(t.ring, s) && s.daemon.Waiting? && s.m.flush > 0
    requires i < |s.threads| && s.threads[i] == Thread(Idle, 0)
    ensures var t' := T.Iterate(t, turn);
      SameRing(t'.ring, Drained(s, !t'.flags.disk, i)) && SameFlags(t'.flags, Drained(s, !t'.flags.disk, i))
  {
    var t' := T.Iterate(t, turn);
    Control.WriteFlags(t, false, true, turn.mark);
    Accounting.WriteRing(t, false, true, turn.mark);
    WrittenLeaves(s, !t'.flags.disk);
    DrainAgrees(t, s, !t'.flags.disk, i, turn.mark);
  }

  // ---------- the closing turn ----------

  /** The steps of the write of the active buffer. */
  function WrittenActive(s: State): (s': State)
    requires s.daemon.Waiting? && s.close && s.m.slot >= -1
    ensures s'.m.slot >= -1
  {
    Next(Next(Next(Next(s, BeginActive), Wrote), TakeLost), ResetFlush)
  }

  /** It takes the buffer in use, drains both counters and leaves the rest. */
  lemma ActiveLeaves(s: State)
    requires s.daemon.Waiting? && s.close && s.m.slot >= -1
    ensures Next(s, BeginActive).daemon == Writing(s.m.cir, false)
    ensures var s' := WrittenActive(s);
      && s'.m == s.m.(lost := 0, flush := 0) && s'.threads == s.threads && s'.n == s.n
      && s'.daemon.Waiting? && s'.open == s.open && s'.close == s.close && s'.disk == s.disk
  {
  }

  function DrainedActive(s: State, i: nat): (s': State)
    requires s.daemon.Waiting? && s.close && s.m.slot >= -1 && i < |s.threads|
    ensures s'.daemon.Waiting? && s'.close && s'.m.slot >= -1
  {
    ActiveLeaves(s);
    var w := WrittenActive(s);
    SoloControl(w, i, Steps(w));
    if s.m.flush > 1 || s.m.lost > 0 then Solo(w, i, Steps(w)) else w
  }

  lemma ActiveAgrees(t: T.State, s: State, i: nat, mark: Ring.Marker)
    requires t.Wf() && SameRing(t.ring, s) && s.daemon.Waiting? && s.close
    requires i < |s.threads| && s.threads[i] == Thread(Idle, 0)
    ensures var s' := DrainedActive(s, i);
      && SameRing(T.Drained(T.Taken(t, true), mark).ring, s') && SameControl(s, s')
  {
    ActiveLeaves(s);
    var t1 := T.Taken(t, true);
    var t2 := T.CountersTaken(t1);
    if s.m.flush > 1 || s.m.lost > 0 {
      CallAgrees(t2.ring, WrittenActive(s), i, mark(T.Missing(t1.ring)), mark);
    }
  }

  /** The pending buffer of a closing turn, when there is one. */
  function AfterPending(s: State, i: nat): (s': State)
    requires s.daemon.Waiting? && s.close && s.m.slot >= -1 && i < |s.threads|
    ensures s'.daemon.Waiting? && s'.close && s'.m.slot >= -1 && |s'.threads| == |s.threads|
  {
    if s.m.flush > 0 then Drained(s, false, i) else s
  }

  lemma PendingAgrees(t: T.State, s: State, i: nat, turn: T.Turn)
    requires t.Wf() && Control.FlagsInv(t) && t.flags.close
    requires SameFlags(t.flags, s) && SameRing(t.ring, s) && s.daemon.Waiting?
    requires i < |s.threads| && s.threads[i] == Thread(Idle, 0)
    ensures var t', s' := T.FlushPending(t, turn), AfterPending(s, i);
      && SameRing(t'.ring, s') && SameControl(s, s') && s'.threads == s.threads
      && t'.flags == t.flags && t'.fd && !t'.crashed
  {
    Control.WriteFlags(t, false, turn.ok, turn.mark);
    if t.ring.flush > 0 {
      Accounting.WriteRing(t, false, turn.ok, turn.mark);
      WrittenLeaves(s, false);
      DrainAgrees(t, s, false, i, turn.mark);
    }
  }

  lemma LastWriteAgrees(t: T.State, s: State, i: nat, turn: T.Turn, t': T.State)
    requires t.Wf() && Control.FlagsInv(t) && t.flags.close && t' == T.FlushActive(t, turn)
    requires SameFlags(t.flags, s) && SameRing(t.ring, s) && s.daemon.Waiting?
    requires i < |s.threads| && s.threads[i] == Thread(Idle, 0)
    ensures SameRing(t'.ring, DrainedActive(s, i)) && SameControl(s, DrainedActive(s, i))
    ensures !t'.crashed && t'.fd && t'.flags == t.flags.(flush := false)
  {
    Control.WriteFlags(t, true, turn.ok, turn.mark2);
    Accounting.WriteRing(t, true, turn.ok, turn.mark2);
    ActiveAgrees(t, s, i, turn.mark2);
  }

  lemma ClosedAgrees(t: T.State, s: State)
    requires t.Wf() && !t.crashed && SameFlags(t.flags, s) && SameRing(t.ring, s)
    requires s.daemon.Waiting? && s.close && s.m.slot >= -1
    ensures SameRing(T.FileClosed(t).ring, Next(s, Closed)) && SameFlags(T.FileClosed(t).flags, Next(s, Closed))
  {
  }

  /** The machine's closing turn in its three parts. */
  lemma ClosingTurn(t: T.State, turn: T.Turn)
    requires t.Wf() && !t.crashed && t.flags.close
    ensures T.Iterate(t, turn) == T.FileClosed(T.FlushActive(T.FlushPending(t, turn), turn))
  {
  }

  /** No file is opened while a close is pending, in either model. */
  lemma ClosingComesFirst(t: T.State, s: State, ok: bool)
    requires t.Wf() && Control.FlagsInv(t) && SameFlags(t.flags, s) && s.daemon.Waiting?
    ensures Enabled(s, Opened(ok)) <==> t.flags.open && !t.flags.close
    ensures Enabled(s, Closed) <==> t.flags.close
  {
  }

  /** The closing turn: the pending buffer, the active one, and the file is closed. */
  lemma ClosingAgrees(t: T.State, s: State, i: nat, turn: T.Turn,
                      t1: T.State, s1: State, t2: T.State, s2: State)
    requires t.Wf() && Control.FlagsInv(t) && t.flags.close
    requires SameFlags(t.flags, s) && SameRing(t.ring, s) && s.daemon.Waiting?
    requires i < |s.threads| && s.threads[i] == Thread(Idle, 0)
    requires t1 == T.FlushPending(t, turn) && t2 == T.FlushActive(t1, turn)
    requires s1 == AfterPending(s, i) && s2 == DrainedActive(s1, i)
    ensures SameRing(T.FileClosed(t2).ring, Next(s2, Closed)) && SameFlags(T.FileClosed(t2).flags, Next(s2, Closed))
  {
    PendingAgrees(t, s, i, turn);
    LastWriteAgrees(t1, s1, i, turn, t2);
    ClosedAgrees(t2, s2);
  }
}
