/** When a ring can never hand out a slot again before the next open, exactly. */
module WedgedRing {
  import opened Interleaving
  import opened RingCorners

  /**
   Nobody can reset the slot any more: every ticket is too late, every producer will return
   without a reset, and no late retry can become current again. Or every producer spins and
   the next one of them draws n.
   */
  predicate Wedged(s: State) {
    || s.threads == []
    || (s.m.slot >= s.n && forall i :: 0 <= i < |s.threads| ==> Harmless(s, s.threads[i]))
    || (s.m.slot == s.n - 1 && forall i :: 0 <= i < |s.threads| ==> s.threads[i] == Thread(Spinning, 0))
  }

  /** A producer that does not reset the slot in its present call, nor in any later one. */
  predicate Harmless(s: State, th: Thread) {
    th.depth == 0 && match th.pc
    case Idle | Calling | Spinning | Losing | Lost | Filling(_, _) => true
    case Resetting(t) => t < s.m.slot || (t > s.m.slot && |s.threads| == 1)
    case _ => false
  }

  /** Some run without an open claims another slot. */
  ghost predicate Revives(s: State)
    requires s.m.slot >= -1
  {
    exists acts: seq<Action> ::
      CanRun(s, acts) && CtrlOpen !in acts && Exec(s, acts).totals.claimed > s.totals.claimed
  }

  // ---------- a wedged ring stays wedged ----------

  lemma WedgedProducer(s: State, i: nat, s': State)
    requires Wedged(s) && s.n >= 1 && i < |s.threads| && s.m.slot >= -1 && s' == ProducerStep(s, i)
    ensures s'.m.slot >= s.n && Harmless(s', s'.threads[i]) && s'.m.slot >= s.m.slot
    ensures s'.totals == s.totals
  {
    match s.threads[i].pc
    case Idle | Calling | Spinning => assert s' == DrawTicket(s, i);
    case Resetting(t) => assert s' == TryReset(s, i, t);
    case Losing => assert s' == CountLoss(s, i);
    case Lost | Filling(_, _) => assert s' == Finish(s, i);
    case _ =>
  }

  lemma WedgedStep(s: State, a: Action)
    requires Wedged(s) && s.n >= 1 && s.m.slot >= -1 && Enabled(s, a) && !a.CtrlOpen?
    ensures Wedged(Next(s, a)) && Next(s, a).totals == s.totals && Next(s, a).n == s.n
  {
    if a.Producer? {
      var s' := Next(s, a);
      WedgedProducer(s, a.tid, s');
      forall i | 0 <= i < |s'.threads| ensures Harmless(s', s'.threads[i]) {
        assert i != a.tid ==> s'.threads[i] == s.threads[i];
      }
    }
  }

  /** Until the next open no slot is claimed, no buffer is retired and the ring stays wedged. */
  lemma {:induction false} WedgedForever(s: State, acts: seq<Action>)
    requires Wedged(s) && s.n >= 1 && s.m.slot >= -1 && CanRun(s, acts) && CtrlOpen !in acts
    ensures Wedged(Exec(s, acts)) && Exec(s, acts).totals == s.totals
    decreases acts
  {
    if acts != [] {
      WedgedStep(s, acts[0]);
      WedgedForever(Next(s, acts[0]), acts[1..]);
    }
  }

  // ---------- any other ring revives ----------

  lemma Monotone(s: State, i: nat)
    requires i < |s.threads| && s.m.slot >= -1
    ensures ProducerStep(s, i).totals.claimed >= s.totals.claimed
  {
    match s.threads[i].pc
    case Idle | Calling | Retry | Spinning => assert ProducerStep(s, i) == DrawTicket(s, i);
    case _ =>
  }

  lemma RevivesAfter(s: State, i: nat)
    requires s.m.slot >= -1 && i < |s.threads| && Revives(ProducerStep(s, i))
    ensures Revives(s)
  {
    var s' := ProducerStep(s, i);
    var acts: seq<Action> :|
      CanRun(s', acts) && CtrlOpen !in acts && Exec(s', acts).totals.claimed > s'.totals.claimed;
    var all := [Producer(i)] + acts;
    assert all[1..] == acts && Next(s, all[0]) == s';
    Monotone(s, i);
    assert CanRun(s, all) && Exec(s, all) == Exec(s', acts);
  }

  /** A step that claims a slot. */
  lemma ClaimRevives(s: State, i: nat)
    requires s.m.slot >= -1 && i < |s.threads| && s.m.slot + 1 < s.n
    requires var pc := s.threads[i].pc; pc.Idle? || pc.Calling? || pc.Retry? || pc.Spinning?
    ensures Revives(s)
  {
    var s', acts := ProducerStep(s, i), [Producer(i)];
    assert acts[1..] == [] && Next(s, acts[0]) == s' && Exec(s', []) == s';
    assert CanRun(s', acts[1..]) && CanRun(s, acts);
    assert Exec(s, acts) == Exec(s', acts[1..]) == s';
  }

  /** Steps of one producer before it draws, at most. */
  function Ahead(pc: Pc): nat {
    match pc
    case Idle | Calling | Retry | Spinning => 0
    case Filling(_, _) | Lost | Discarding | Swapped => 1
    case Losing | AtN => 2
    case Resetting(_) => 3
  }

  /** With room in the buffer any producer claims a slot by itself. */
  lemma {:induction false} RoomRevives(s: State, i: nat)
    requires s.n >= 1 && i < |s.threads| && -1 <= s.m.slot && s.m.slot + 1 < s.n
    ensures Revives(s)
    decreases Ahead(s.threads[i].pc)
  {
    if Ahead(s.threads[i].pc) == 0 {
      ClaimRevives(s, i);
    } else {
      RoomRevives(ProducerStep(s, i), i);
      RevivesAfter(s, i);
    }
  }

  /** So does one that is about to reset the slot. */
  lemma {:induction false} ResetRevives(s: State, i: nat)
    requires s.n >= 1 && i < |s.threads| && s.m.slot >= -1
    requires var pc := s.threads[i].pc;
      pc.AtN? || pc.Discarding? || (pc.Resetting? && pc.ticket == s.m.slot)
    ensures Revives(s)
    decreases Ahead(s.threads[i].pc)
  {
    var s' := ProducerStep(s, i);
    if s'.m.slot == -1 {
      RoomRevives(s', i);
    } else {
      ResetRevives(s', i);
    }
    RevivesAfter(s, i);
  }

  /** A retry that draws too late a ticket resets the slot when nobody draws after it. */
  lemma RetryRevives(s: State, i: nat)
    requires s.n >= 1 && i < |s.threads| && s.m.slot >= -1 && s.threads[i].pc.Retry?
    ensures Revives(s)
  {
    if s.m.slot + 1 < s.n {
      ClaimRevives(s, i);
    } else {
      ResetRevives(ProducerStep(s, i), i);
      RevivesAfter(s, i);
    }
  }

  /** Steps of a nested call before its outer one retries, at most. */
  function Deep(pc: Pc): nat {
    match pc
    case Filling(_, _) | Lost => 1
    case Losing => 2
    case Spinning | Resetting(_) => 3
    case Idle | Calling => 4
    case Swapped => 5
    case _ => 0
  }

  /** A producer in a nested call comes back to a retry of the outer one. */
  lemma {:induction false} DeepRevives(s: State, i: nat)
    requires s.n >= 1 && i < |s.threads| && s.m.slot >= -1 && s.threads[i].depth > 0
    ensures Revives(s)
    decreases Deep(s.threads[i].pc)
  {
    var pc, s' := s.threads[i].pc, ProducerStep(s, i);
    if pc.Retry? {
      RetryRevives(s, i);
    } else if pc.AtN? || pc.Discarding? {
      ResetRevives(s, i);
    } else if Ahead(pc) == 0 && s.m.slot + 1 < s.n {
      ClaimRevives(s, i);
    } else {
      if s'.threads[i].pc.Retry? {
        RetryRevives(s', i);
      } else if s'.threads[i].pc.AtN? {
        ResetRevives(s', i);
      } else {
        DeepRevives(s', i);
      }
      RevivesAfter(s, i);
    }
  }

  lemma SwappedRevives(s: State, i: nat)
    requires s.n >= 1 && i < |s.threads| && s.m.slot >= -1 && s.threads[i].pc.Swapped?
    ensures Revives(s)
  {
    var s' := ProducerStep(s, i);
    if s.m.lost > 0 {
      DeepRevives(s', i);
    } else {
      RetryRevives(s', i);
    }
    RevivesAfter(s, i);
  }

  /** Producers that reset the slot whatever it is. */
  predicate Resets(th: Thread) {
    th.depth > 0 || th.pc.AtN? || th.pc.Discarding? || th.pc.Swapped? || th.pc.Retry?
  }

  lemma ResetsRevives(s: State, i: nat)
    requires s.n >= 1 && i < |s.threads| && s.m.slot >= -1 && Resets(s.threads[i])
    ensures Revives(s)
  {
    if s.threads[i].depth > 0 {
      DeepRevives(s, i);
    } else if s.threads[i].pc.Swapped? {
      SwappedRevives(s, i);
    } else if s.threads[i].pc.Retry? {
      RetryRevives(s, i);
    } else {
      ResetRevives(s, i);
    }
  }

  /** One slot is left: a producer that does not spin draws n, unless it resets before. */
  lemma {:induction false} EdgeRevives(s: State, i: nat)
    requires s.n >= 1 && i < |s.threads| && s.m.slot == s.n - 1
    requires !s.threads[i].pc.Spinning? || s.threads[i].depth > 0
    ensures Revives(s)
    decreases Ahead(s.threads[i].pc)
  {
    var pc, s' := s.threads[i].pc, ProducerStep(s, i);
    if Resets(s.threads[i]) {
      ResetsRevives(s, i);
    } else if pc.Resetting? && pc.ticket == s.m.slot {
      ResetRevives(s, i);
    } else {
      if s'.threads[i].pc.AtN? {
        ResetRevives(s', i);
      } else {
        EdgeRevives(s', i);
      }
      RevivesAfter(s, i);
    }
  }

  /** Producer j raises the slot one by one to the ticket that producer i holds. */
  lemma {:induction false} RaiseRevives(s: State, i: nat, j: nat)
    requires s.n >= 1 && i < |s.threads| && j < |s.threads| && i != j && s.m.slot >= -1
    requires s.threads[i].pc.Resetting? && s.threads[i].pc.ticket >= s.m.slot
    ensures Revives(s)
    decreases s.threads[i].pc.ticket - s.m.slot, Ahead(s.threads[j].pc)
  {
    var pc, s' := s.threads[j].pc, ProducerStep(s, j);
    if s.threads[i].pc.ticket == s.m.slot {
      ResetRevives(s, i);
    } else if Resets(s.threads[j]) {
      ResetsRevives(s, j);
    } else if pc.Resetting? && pc.ticket == s.m.slot {
      ResetRevives(s, j);
    } else if Ahead(pc) == 0 && s.m.slot + 1 < s.n {
      ClaimRevives(s, j);
    } else {
      RaiseRevives(s', i, j);
      RevivesAfter(s, j);
    }
  }

  /** In every other state past the end some producer is on the way to a reset. */
  lemma LateRevives(s: State, i: nat)
    requires s.n >= 1 && i < |s.threads| && s.m.slot >= s.n && !Harmless(s, s.threads[i])
    ensures Revives(s)
  {
    if Resets(s.threads[i]) {
      ResetsRevives(s, i);
    } else if s.threads[i].pc.ticket == s.m.slot {
      ResetRevives(s, i);
    } else {
      RaiseRevives(s, i, if i == 0 then 1 else 0);
    }
  }

  lemma UnwedgedRevives(s: State)
    requires s.n >= 1 && s.m.slot >= -1 && !Wedged(s)
    ensures Revives(s)
  {
    if s.m.slot + 1 < s.n {
      RoomRevives(s, 0);
    } else if s.m.slot == s.n - 1 {
      var i: nat :| i < |s.threads| && s.threads[i] != Thread(Spinning, 0);
      EdgeRevives(s, i);
    } else {
      var i: nat :| i < |s.threads| && !Harmless(s, s.threads[i]);
      LateRevives(s, i);
    }
  }

  /**
   Before the next open another slot can be claimed if and only if the ring is not wedged, for
   any number of producers.
   */
  lemma RevivesUnlessWedged(s: State)
    requires Reachable(s)
    ensures s.m.slot >= -1 && (Revives(s) <==> !Wedged(s))
  {
    ReachableInv(s);
    if !Wedged(s) {
      UnwedgedRevives(s);
    } else if Revives(s) {
      var acts: seq<Action> :|
        CanRun(s, acts) && CtrlOpen !in acts && Exec(s, acts).totals.claimed > s.totals.claimed;
      WedgedForever(s, acts);
    }
  }

  // ---------- such a ring is reached ----------

  /** Producer 0 holds ticket n and producer 1 the next one. */
  lemma BothTooLate() returns (acts: seq<Action>, s: State)
    ensures var start := Init(2, 2); CanRun(start, acts) && Exec(start, acts) == s
    ensures s.threads == [Thread(AtN, 0), Thread(Spinning, 0)] && s.n == 2
    ensures s.m == Shared(3, 0, 0, 0, 2)
  {
    var start := Init(2, 2);
    acts, s := Fill(start, [], start, 0);
    acts, s := Fill(start, acts, s, 0);
    acts, s := Go(start, acts, s, 0);
    acts, s := Go(start, acts, s, 1);
  }

  /** Producer 0 swaps and refills the buffer, producer 1 still spins. */
  lemma SwappedBeside() returns (acts: seq<Action>, s: State)
    ensures var start := Init(2, 2); CanRun(start, acts) && Exec(start, acts) == s
    ensures s.threads == [Thread(Retry, 0), Thread(Spinning, 0)] && s.n == 2
    ensures s.m == Shared(-1, 1, 0, 2, 0)
  {
    var start := Init(2, 2);
    acts, s := BothTooLate();
    acts, s := Go(start, acts, s, 0);
    acts, s := Go(start, acts, s, 0);
  }

  lemma LastDraw(s: State)
    requires s.threads == [Thread(Idle, 0), Thread(Spinning, 0)] && s.n == 2 && s.m.slot == 1
    ensures Wedged(ProducerStep(s, 1)) && |ProducerStep(s, 1).threads| == 2
  {
  }

  /** A producer that drew a ticket past n draws n once another one has swapped and refilled. */
  lemma WedgedReachable() returns (s: State)
    ensures Reachable(s) && |s.threads| == 2 && Wedged(s)
  {
    var start := Init(2, 2);
    var acts;
    acts, s := SwappedBeside();
    acts, s := Refill(start, acts, s, 0);
    acts, s := Fill(start, acts, s, 0);
    LastDraw(s);
    acts, s := Go(start, acts, s, 1);
  }
}
