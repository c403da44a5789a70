/** A call that nobody interrupts moves the ring as the call-atomic model says. */
module Uninterrupted {
  import opened Interleaving
  import Ring

  /** k steps of producer i alone. */
  function Solo(s: State, i: nat, k: nat): (s': State)
    requires i < |s.threads| && s.m.slot >= -1
    ensures s'.m.slot >= -1 && |s'.threads| == |s.threads|
    decreases k, i
  {
    if k == 0 then s else ProducerStep(Solo(s, i, k - 1), i)
  }

  /** The number of atomic steps of one call. */
  function Steps(s: State): nat {
    if s.m.slot + 1 < s.n then 2
    else if s.m.slot >= s.n then 4
    else if s.m.flush > 0 || s.m.lost == 0 then 5
    else if s.n >= 2 then 7 else 9
  }

  /** Only producer i has moved, to the given place. */
  predicate Reached(s: State, s': State, i: nat, th: Thread)
    requires i < |s.threads|
  {
    s'.threads == s.threads[i := th] && s'.n == s.n && s'.m.slot >= -1
  }

  lemma OneStep(s: State, i: nat, k: nat, th: Thread) returns (s': State)
    requires i < |s.threads| && s.m.slot >= -1
    requires Reached(s, Solo(s, i, k), i, th)
    ensures s' == Solo(s, i, k + 1) == ProducerStep(Solo(s, i, k), i)
    ensures Reached(s, s', i, s'.threads[i])
  {
    s' := Solo(s, i, k + 1);
  }

  /** s' is s after a call of producer i, whose slot is the last one claimed. */
  predicate Called(s: State, s': State, i: nat)
    requires i < |s.threads|
  {
    && s'.threads == s.threads && s'.n == s.n
    && (s'.m.cir, s'.m.alt, s'.m.slot, s'.m.flush, s'.m.lost)
       == Ring.Moved(s.n, s.m.cir, s.m.alt, s.m.slot, s.m.flush, s.m.lost)
    && if 0 <= s'.m.slot < s.n
       then s'.losses.nulls == s.losses.nulls && s'.epoch.claims != []
            && s'.epoch.claims[|s'.epoch.claims| - 1] == Claim(i, s'.m.cir, s'.m.slot)
       else s'.losses.nulls == s.losses.nulls + 1
  }

  /** Where a call of that depth returns to. */
  function Back(depth: nat): Thread {
    if depth == 0 then Thread(Idle, 0) else Thread(Retry, depth - 1)
  }

  lemma TwoSteps(s: State, i: nat, k: nat, th: Thread) returns (b: State, c: State)
    requires i < |s.threads| && s.m.slot >= -1
    requires Reached(s, Solo(s, i, k), i, th)
    ensures b == Solo(s, i, k + 1) == ProducerStep(Solo(s, i, k), i) && Reached(s, b, i, b.threads[i])
    ensures c == Solo(s, i, k + 2) == ProducerStep(b, i) && Reached(s, c, i, c.threads[i])
  {
    b := OneStep(s, i, k, th);
    c := OneStep(s, i, k + 1, b.threads[i]);
  }

  /** What is left by a producer that draws a ticket below n, fills its slot and returns. */
  lemma ClaimLeaves(a: State, i: nat, b: State, c: State)
    requires i < |a.threads| == |b.threads| && -1 <= a.m.slot && a.m.slot + 1 < a.n && b.m.slot >= -1
    requires var pc := a.threads[i].pc; pc.Idle? || pc.Calling? || pc.Retry?
    requires b == ProducerStep(a, i) && c == ProducerStep(b, i)
    ensures c.m == a.m.(slot := a.m.slot + 1) && c.losses.nulls == a.losses.nulls
    ensures c.epoch.claims == a.epoch.claims + [Claim(i, a.m.cir, a.m.slot + 1)]
    ensures |c.threads| == |a.threads| && c.threads[i] == Back(a.threads[i].depth)
  {
    DrawsSlot(a, i, b);
    Returns(b, i, c);
  }

  lemma ClaimAndReturn(s: State, i: nat, k: nat, th: Thread, a: State) returns (c: State)
    requires i < |s.threads| && s.m.slot >= -1 && a == Solo(s, i, k) && Reached(s, a, i, th)
    requires (th.pc.Idle? || th.pc.Calling? || th.pc.Retry?) && a.m.slot + 1 < s.n
    ensures c == Solo(s, i, k + 2) && Reached(s, c, i, Back(th.depth))
    ensures c.m == a.m.(slot := a.m.slot + 1) && c.losses.nulls == a.losses.nulls
    ensures c.epoch.claims == a.epoch.claims + [Claim(i, a.m.cir, a.m.slot + 1)]
  {
    var b;
    b, c := TwoSteps(s, i, k, th);
    ClaimLeaves(a, i, b, c);
  }

  /** A producer that is lost counts itself and returns NULL. */
  lemma LossLeaves(a: State, i: nat, b: State, c: State)
    requires i < |a.threads| == |b.threads| && -1 <= a.m.slot && b.m.slot >= -1
    requires a.threads[i] == Thread(Losing, 0) && b == ProducerStep(a, i) && c == ProducerStep(b, i)
    ensures c.m == a.m.(lost := a.m.lost + 1) && c.losses.nulls == a.losses.nulls + 1
    ensures |c.threads| == |a.threads| && c.threads[i] == Thread(Idle, 0)
  {
    CountsItself(a, i, b);
    Returns(b, i, c);
  }

  lemma LoseAndReturn(s: State, i: nat, k: nat, a: State) returns (c: State)
    requires i < |s.threads| && s.m.slot >= -1 && a == Solo(s, i, k) && Reached(s, a, i, Thread(Losing, 0))
    ensures c == Solo(s, i, k + 2) && Reached(s, c, i, Thread(Idle, 0))
    ensures c.m == a.m.(lost := a.m.lost + 1) && c.losses.nulls == a.losses.nulls + 1
  {
    var b;
    b, c := TwoSteps(s, i, k, Thread(Losing, 0));
    LossLeaves(a, i, b, c);
  }

  lemma BackAgain(s: State, s': State, i: nat)
    requires i < |s.threads| && s.threads[i] == Thread(Idle, 0) && Reached(s, s', i, Thread(Idle, 0))
    ensures s'.threads == s.threads
  {
  }

  lemma TakesLosses(a: State, i: nat, b: State)
    requires i < |a.threads| == |b.threads| && a.m.slot >= -1 && a.threads[i] == Thread(Swapped, 0)
    requires b == ProducerStep(a, i)
    ensures b.m == a.m.(lost := 0) && b.losses.nulls == a.losses.nulls
    ensures b.threads[i] == if a.m.lost > 0 then Thread(Calling, 1) else Thread(Retry, 0)
  {
  }

  lemma {:induction false} FastCall(s: State, i: nat)
    requires i < |s.threads| && s.threads[i] == Thread(Idle, 0) && s.n >= 1 && s.m.slot >= -1
    requires s.m.slot + 1 < s.n
    ensures Called(s, Solo(s, i, 2), i)
  {
    var s2 := ClaimAndReturn(s, i, 0, Thread(Idle, 0), s);
    BackAgain(s, s2, i);
  }

  /** Two tickets past the end. */
  lemma LateDraws(s: State, i: nat) returns (s2: State)
    requires i < |s.threads| && s.threads[i] == Thread(Idle, 0) && s.n >= 1 && s.m.slot >= -1
    requires s.m.slot >= s.n
    ensures s2 == Solo(s, i, 2) && Reached(s, s2, i, Thread(Losing, 0))
    ensures s2.m == s.m.(slot := s.m.slot + 2) && s2.losses == s.losses
  {
    var s1 := OneStep(s, i, 0, Thread(Idle, 0));
    s2 := OneStep(s, i, 1, Thread(Spinning, 0));
  }

  lemma LateEnd(s: State, i: nat, x: State)
    requires i < |s.threads| && s.m.slot >= s.n >= 1 && x.threads == s.threads && x.n == s.n
    requires x.m == s.m.(slot := s.m.slot + 2, lost := s.m.lost + 1) && x.losses.nulls == s.losses.nulls + 1
    ensures Called(s, x, i)
  {
  }

  lemma {:induction false} LateCall(s: State, i: nat)
    requires i < |s.threads| && s.threads[i] == Thread(Idle, 0) && s.n >= 1 && s.m.slot >= -1
    requires s.m.slot >= s.n
    ensures Called(s, Solo(s, i, 4), i)
  {
    var s2 := LateDraws(s, i);
    var s4 := LoseAndReturn(s, i, 2, s2);
    BackAgain(s, s4, i);
    LateEnd(s, i, s4);
  }

  lemma DiscardDraw(s: State, i: nat) returns (s3: State)
    requires i < |s.threads| && s.threads[i] == Thread(Idle, 0) && s.n >= 1 && s.m.slot >= -1
    requires s.m.slot + 1 == s.n && s.m.flush > 0
    ensures s3 == Solo(s, i, 3) && Reached(s, s3, i, Thread(Retry, 0))
    ensures s3.m == s.m.(slot := -1, flush := s.m.flush + 1) && s3.losses == s.losses
  {
    var s1 := OneStep(s, i, 0, Thread(Idle, 0));
    var s2 := OneStep(s, i, 1, Thread(AtN, 0));
    s3 := OneStep(s, i, 2, Thread(Discarding, 0));
  }

  lemma {:induction false} DiscardCall(s: State, i: nat)
    requires i < |s.threads| && s.threads[i] == Thread(Idle, 0) && s.n >= 1 && s.m.slot >= -1
    requires s.m.slot + 1 == s.n && s.m.flush > 0
    ensures Called(s, Solo(s, i, 5), i)
  {
    var s3 := DiscardDraw(s, i);
    var s5 := ClaimAndReturn(s, i, 3, Thread(Retry, 0), s3);
    BackAgain(s, s5, i);
  }

  lemma SwapDraw(s: State, i: nat) returns (s2: State)
    requires i < |s.threads| && s.threads[i] == Thread(Idle, 0) && s.n >= 1 && s.m.slot >= -1
    requires s.m.slot + 1 == s.n && s.m.flush == 0
    ensures s2 == Solo(s, i, 2) && Reached(s, s2, i, Thread(Swapped, 0))
    ensures s2.m == Shared(-1, 1, s.m.lost, s.m.alt, s.m.cir) && s2.losses == s.losses
  {
    var s1 := OneStep(s, i, 0, Thread(Idle, 0));
    s2 := OneStep(s, i, 1, Thread(AtN, 0));
  }

  /** A swap up to the moment the losses have been taken. */
  lemma SwapSteps(s: State, i: nat) returns (s3: State)
    requires i < |s.threads| && s.threads[i] == Thread(Idle, 0) && s.n >= 1 && s.m.slot >= -1
    requires s.m.slot + 1 == s.n && s.m.flush == 0
    ensures s3 == Solo(s, i, 3)
    ensures Reached(s, s3, i, if s.m.lost > 0 then Thread(Calling, 1) else Thread(Retry, 0))
    ensures s3.m == Shared(-1, 1, 0, s.m.alt, s.m.cir) && s3.losses.nulls == s.losses.nulls
  {
    var s2 := SwapDraw(s, i);
    s3 := OneStep(s, i, 2, Thread(Swapped, 0));
    TakesLosses(s2, i, s3);
  }

  lemma SwapCall(s: State, i: nat)
    requires i < |s.threads| && s.threads[i] == Thread(Idle, 0) && s.n >= 1 && s.m.slot >= -1
    requires s.m.slot + 1 == s.n && s.m.flush == 0 && s.m.lost == 0
    ensures Called(s, Solo(s, i, 5), i)
  {
    var s3 := SwapSteps(s, i);
    var s5 := ClaimAndReturn(s, i, 3, Thread(Retry, 0), s3);
    BackAgain(s, s5, i);
  }

  /** The swap with losses makes a nested call, which claims slot 0. */
  lemma NestedCall(s: State, i: nat) returns (s5: State)
    requires i < |s.threads| && s.threads[i] == Thread(Idle, 0) && s.n >= 1 && s.m.slot >= -1
    requires s.m.slot + 1 == s.n && s.m.flush == 0 && s.m.lost > 0
    ensures s5 == Solo(s, i, 5) && Reached(s, s5, i, Thread(Retry, 0))
    ensures s5.m == Shared(0, 1, 0, s.m.alt, s.m.cir) && s5.losses.nulls == s.losses.nulls
  {
    var s3 := SwapSteps(s, i);
    s5 := ClaimAndReturn(s, i, 3, Thread(Calling, 1), s3);
  }

  lemma SwapTellCall(s: State, i: nat)
    requires i < |s.threads| && s.threads[i] == Thread(Idle, 0) && s.n >= 1 && s.m.slot >= -1
    requires s.m.slot + 1 == s.n >= 2 && s.m.flush == 0 && s.m.lost > 0
    ensures Called(s, Solo(s, i, 7), i)
  {
    var s5 := NestedCall(s, i);
    var s7 := ClaimAndReturn(s, i, 5, Thread(Retry, 0), s5);
    BackAgain(s, s7, i);
  }

  /** In a ring of one slot the nested call leaves none for the outer one. */
  lemma OneSlotReset(s: State, i: nat) returns (s7: State)
    requires i < |s.threads| && s.threads[i] == Thread(Idle, 0) && s.n >= 1 && s.m.slot >= -1
    requires s.m.slot + 1 == s.n == 1 && s.m.flush == 0 && s.m.lost > 0
    ensures s7 == Solo(s, i, 7) && Reached(s, s7, i, Thread(Losing, 0))
    ensures s7.m == Shared(-1, 1, 0, s.m.alt, s.m.cir) && s7.losses.nulls == s.losses.nulls
  {
    var s5 := NestedCall(s, i);
    var s6 := OneStep(s, i, 5, Thread(Retry, 0));
    s7 := OneStep(s, i, 6, Thread(Resetting(1), 0));
  }

  lemma OneSlotEnd(s: State, i: nat, x: State)
    requires i < |s.threads| && s.m.slot + 1 == s.n == 1 && s.m.flush == 0 && s.m.lost > 0
    requires x.threads == s.threads && x.n == s.n
    requires x.m == Shared(-1, 1, 1, s.m.alt, s.m.cir) && x.losses.nulls == s.losses.nulls + 1
    ensures Called(s, x, i)
  {
  }

  lemma OneSlotCall(s: State, i: nat)
    requires i < |s.threads| && s.threads[i] == Thread(Idle, 0) && s.n >= 1 && s.m.slot >= -1
    requires s.m.slot + 1 == s.n == 1 && s.m.flush == 0 && s.m.lost > 0
    ensures Called(s, Solo(s, i, 9), i)
  {
    var s7 := OneSlotReset(s, i);
    var s9 := LoseAndReturn(s, i, 7, s7);
    BackAgain(s, s9, i);
    OneSlotEnd(s, i, s9);
  }

  lemma CallAlone(s: State, i: nat)
    requires i < |s.threads| && s.threads[i] == Thread(Idle, 0) && s.n >= 1 && s.m.slot >= -1
    ensures Called(s, Solo(s, i, Steps(s)), i)
  {
    if s.m.slot + 1 < s.n {
      FastCall(s, i);
    } else if s.m.slot >= s.n {
      LateCall(s, i);
    } else if s.m.flush > 0 {
      DiscardCall(s, i);
    } else if s.m.lost == 0 {
      SwapCall(s, i);
    } else if s.n >= 2 {
      SwapTellCall(s, i);
    } else {
      OneSlotCall(s, i);
    }
  }

  /**
   One producer running alone leaves the fields that the call-atomic model gives, and gets
   the slot that ri_slot then names, or NULL.
   */
  lemma UninterruptedCall(s: State, i: nat)
    requires Reachable(s) && i < |s.threads| && s.threads[i] == Thread(Idle, 0)
    ensures s.m.slot >= -1 && Called(s, Solo(s, i, Steps(s)), i)
  {
    ReachableInv(s);
    CallAlone(s, i);
  }
}
