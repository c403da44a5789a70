/** Where the guarantees of the shared ring end, and runs that get there. */
module RingCorners {
  import opened Interleaving

  /**
   A late retry resets the slot if and only if nobody has drawn since: all n records of the
   buffer in use are overwritten, ri_flush does not count them and no swap takes place.
   */
  lemma LateResetWipes(s: State, i: nat)
    requires Reachable(s) && i < |s.threads| && s.threads[i].pc.Resetting?
    ensures var s', t := ProducerStep(s, i), s.threads[i].pc.ticket;
      && t >= s.n && s'.threads[i].pc.Losing?
      && (s.m.slot == t ==>
            && s'.m == s.m.(slot := -1) && s'.epoch == Epoch([], [])
            && s'.totals == s.totals.(wipedClaims := s.totals.wipedClaims + s.n))
      && (s.m.slot != t ==> s'.m == s.m && s'.epoch == s.epoch && s'.totals == s.totals)
  {
    ReachableInv(s);
  }

  /**
   An open accepted while the daemon writes the pending buffer resets ri_flush, and the next
   producer that draws n then makes the buffer being written the active one again.
   */
  lemma ReopenHandsBufferBack(s: State, i: nat)
    requires s.daemon.Writing? && s.daemon.pending && s.daemon.buf == s.m.alt
    requires Enabled(s, CtrlOpen) && i < |s.threads| && s.threads[i].pc.AtN?
    ensures var s' := ProducerStep(Reopen(s), i);
      s'.daemon == s.daemon && s'.m.cir == s.daemon.buf && s'.m.flush == 1
  {
  }

  lemma {:induction false} OneMore(s: State, acts: seq<Action>, a: Action)
    requires s.m.slot >= -1 && CanRun(s, acts) && Enabled(Exec(s, acts), a)
    ensures CanRun(s, acts + [a]) && Exec(s, acts + [a]) == Next(Exec(s, acts), a)
    decreases acts
  {
    if acts == [] {
      assert (acts + [a])[1..] == [];
      assert Exec(Next(s, a), []) == Next(s, a);
    } else {
      OneMore(Next(s, acts[0]), acts[1..], a);
      assert (acts + [a])[1..] == acts[1..] + [a];
    }
  }

  /** One more step at the end of a run. */
  lemma Act(start: State, acts: seq<Action>, s: State, a: Action)
    returns (acts': seq<Action>, s': State)
    requires start.m.slot >= -1 && CanRun(start, acts) && Exec(start, acts) == s && Enabled(s, a)
    ensures CanRun(start, acts') && Exec(start, acts') == s' == Next(s, a)
  {
    OneMore(start, acts, a);
    acts', s' := acts + [a], Next(s, a);
  }

  /** One more step of producer i. */
  lemma Go(start: State, acts: seq<Action>, s: State, i: nat)
    returns (acts': seq<Action>, s': State)
    requires start.m.slot >= -1 && CanRun(start, acts) && Exec(start, acts) == s && i < |s.threads|
    ensures CanRun(start, acts') && Exec(start, acts') == s' == ProducerStep(s, i)
    ensures SameControl(s, s')
  {
    OneMore(start, acts, Producer(i));
    acts', s' := acts + [Producer(i)], ProducerStep(s, i);
  }

  /** Producer i draws a ticket below n and fills its slot. */
  lemma Fill(start: State, acts: seq<Action>, s: State, i: nat)
    returns (acts': seq<Action>, s': State)
    requires start.m.slot >= -1 && CanRun(start, acts) && Exec(start, acts) == s && i < |s.threads|
    requires s.threads[i] == Thread(Idle, 0) && s.m.slot + 1 < s.n
    ensures CanRun(start, acts') && Exec(start, acts') == s' && SameControl(s, s')
    ensures s'.threads == s.threads && s'.n == s.n && s'.m == s.m.(slot := s.m.slot + 1)
  {
    acts', s' := Go(start, acts, s, i);
    DrawsSlot(s, i, s');
    var s1 := s';
    acts', s' := Go(start, acts', s', i);
    Returns(s1, i, s');
    assert s'.threads == s.threads;
  }

  /** Producer i draws ticket n, swaps, and is about to draw again. */
  lemma Swap(start: State, acts: seq<Action>, s: State, i: nat)
    returns (acts': seq<Action>, s': State)
    requires start.m.slot >= -1 && CanRun(start, acts) && Exec(start, acts) == s && i < |s.threads|
    requires s.threads[i] == Thread(Idle, 0) && s.m.slot + 1 == s.n && s.m.flush == 0 && s.m.lost == 0
    ensures CanRun(start, acts') && Exec(start, acts') == s' && SameControl(s, s')
    ensures s'.threads == s.threads[i := Thread(Retry, 0)] && s'.n == s.n
    ensures s'.m == Shared(-1, 1, 0, s.m.alt, s.m.cir)
  {
    acts', s' := Go(start, acts, s, i);
    acts', s' := Go(start, acts', s', i);
    acts', s' := Go(start, acts', s', i);
    assert s'.threads == s.threads[i := Thread(Retry, 0)];
  }

  /** Producer i claims a slot and returns after a swap. */
  lemma Refill(start: State, acts: seq<Action>, s: State, i: nat)
    returns (acts': seq<Action>, s': State)
    requires start.m.slot >= -1 && CanRun(start, acts) && Exec(start, acts) == s && i < |s.threads|
    requires s.threads[i] == Thread(Retry, 0) && s.m.slot + 1 < s.n
    ensures CanRun(start, acts') && Exec(start, acts') == s' && SameControl(s, s')
    ensures s'.threads == s.threads[i := Thread(Idle, 0)] && s'.n == s.n
    ensures s'.m == s.m.(slot := s.m.slot + 1)
  {
    acts', s' := Go(start, acts, s, i);
    DrawsSlot(s, i, s');
    var s1 := s';
    acts', s' := Go(start, acts', s', i);
    Returns(s1, i, s');
    assert s'.threads == s.threads[i := Thread(Idle, 0)];
  }

  lemma LateDraw(s: State)
    requires |s.threads| == 2 && s.threads[0] == Thread(Retry, 0) && s.m.slot == s.n - 1 && s.n >= 1
    ensures Wipes(ProducerStep(s, 0), Producer(0))
  {
  }

  /** One producer swaps, another fills the buffer before the first one retries. */
  lemma LateResetReachable() returns (s: State)
    ensures Reachable(s) && |s.threads| == 2 && Wipes(s, Producer(0))
  {
    var start := Init(2, 2);
    var acts: seq<Action> := [];
    acts, s := Fill(start, acts, start, 0);
    acts, s := Fill(start, acts, s, 0);
    acts, s := Swap(start, acts, s, 0);
    acts, s := Fill(start, acts, s, 1);
    acts, s := Fill(start, acts, s, 1);
    LateDraw(s);
    acts, s := Go(start, acts, s, 0);
  }

  /** One producer at ticket n, with the other buffer pending. */
  lemma SecondEdge(start: State, acts: seq<Action>, s: State)
    returns (acts': seq<Action>, s': State)
    requires start.m.slot >= -1 && CanRun(start, acts) && Exec(start, acts) == s
    requires s.threads == [Thread(Idle, 0)] && s.n == 2 && s.m == Shared(-1, 0, 0, 0, 2)
    ensures CanRun(start, acts') && Exec(start, acts') == s' && SameControl(s, s')
    ensures s'.threads == [Thread(AtN, 0)] && s'.n == 2 && s'.m == Shared(2, 1, 0, 2, 0)
  {
    acts', s' := Fill(start, acts, s, 0);
    acts', s' := Fill(start, acts', s', 0);
    acts', s' := Swap(start, acts', s', 0);
    acts', s' := Refill(start, acts', s', 0);
    acts', s' := Fill(start, acts', s', 0);
    acts', s' := Go(start, acts', s', 0);
  }

  /** A single producer, a close and an open lead to a daemon that writes the active buffer. */
  lemma HandedBackReachable() returns (s: State)
    ensures Reachable(s) && s.daemon == Writing(s.m.cir, true) && s.m.flush == 1
  {
    var start := Init(2, 1);
    var acts: seq<Action> := [];
    acts, s := Act(start, acts, start, Opened(true));
    acts, s := SecondEdge(start, acts, s);
    acts, s := Act(start, acts, s, Test);
    acts, s := Act(start, acts, s, Begin);
    acts, s := Act(start, acts, s, CtrlClose);
    ReopenHandsBufferBack(s, 0);
    acts, s := Act(start, acts, s, CtrlOpen);
    acts, s := Act(start, acts, s, Producer(0));
  }

  /** One producer, its first buffer pending and written, and the stop policy has closed the file. */
  lemma StoppedReachable() returns (acts: seq<Action>, s: State)
    ensures var start := Init(2, 1); CanRun(start, acts) && Exec(start, acts) == s
    ensures s.threads == [Thread(Retry, 0)] && s.n == 2 && s.m == Shared(-1, 1, 0, 2, 0)
    ensures s.daemon == Cleared(0, true) && !s.open && !s.disk && !s.close
  {
    var start := Init(2, 1);
    acts, s := Act(start, [], start, Opened(true));
    acts, s := Fill(start, acts, s, 0);
    acts, s := Fill(start, acts, s, 0);
    acts, s := Swap(start, acts, s, 0);
    acts, s := Act(start, acts, s, Test);
    acts, s := Act(start, acts, s, Begin);
    acts, s := Act(start, acts, s, Wrote);
    acts, s := Act(start, acts, s, Stop);
  }

  /** The producer refills the buffer in use and swaps it out. */
  lemma RefillAndSwap(start: State, acts: seq<Action>, s: State)
    returns (acts': seq<Action>, s': State)
    requires start.m.slot >= -1 && CanRun(start, acts) && Exec(start, acts) == s
    requires s.threads == [Thread(Retry, 0)] && s.n == 2 && s.m == Shared(-1, 0, 0, 2, 0)
    ensures CanRun(start, acts') && Exec(start, acts') == s' && SameControl(s, s')
    ensures s'.m == Shared(-1, 1, 0, 0, 2)
  {
    acts', s' := Refill(start, acts, s, 0);
    acts', s' := Fill(start, acts', s', 0);
    acts', s' := Swap(start, acts', s', 0);
  }

  /**
   An open accepted then, with no close anywhere in the run, lets the daemon reset the counter
   of a buffer that the new session has swapped out.
   */
  lemma ForgottenAfterStop() returns (s: State)
    ensures Reachable(s) && Enabled(s, ResetFlush) && Forgets(s, ResetFlush)
    ensures !s.close && s.daemon.pending
  {
    var start := Init(2, 1);
    var acts;
    acts, s := StoppedReachable();
    acts, s := Act(start, acts, s, CtrlOpen);
    acts, s := RefillAndSwap(start, acts, s);
    acts, s := Act(start, acts, s, TakeLost);
  }
}
