/**
 The ring under any number of producers and the daemon. Every transition is one atomic
 operation on the shared fields of ring_info; the swap of the two offsets together with the
 slot reset that guards it is one transition, and so is a ticket with the offset read that
 follows it.
 */
module Interleaving {
  import opened Sequences

  /** Where a producer is inside ringwrap and ringwrap_slot. */
  datatype Pc =
    | Idle                                // outside rbtrace
    | Calling                             // about to draw in ringwrap
    | AtN                                 // drew ticket n, about to count a flush
    | Discarding                          // a flush was pending, about to reset the slot
    | Swapped                             // swapped and reset, about to take the losses
    | Retry                               // about to draw again after a swap or a discard
    | Resetting(ticket: nat)              // that draw was too late, about to try a reset
    | Spinning                            // drew more than n, about to draw again
    | Losing                              // about to count itself as lost
    | Lost                                // has counted itself, about to return NULL
    | Filling(buf: nat, idx: nat)         // owns a slot

  /** depth counts the outer calls that wait for a nested RBT_LOST call. */
  datatype Thread = Thread(pc: Pc, depth: nat)

  /** Where the daemon is inside write_data; pending tells which buffer it took. */
  datatype Daemon =
    | Waiting
    | Tested                              // saw ri_flush positive
    | Writing(buf: nat, pending: bool)    // writes and clears the buffer
    | Cleared(buf: nat, pending: bool)    // about to take the losses
    | Taken(buf: nat, pending: bool)      // about to reset ri_flush

  datatype Draw = Draw(tid: nat, ticket: nat)
  datatype Claim = Claim(tid: nat, buf: nat, idx: nat)

  /** ri_slot, ri_flush, ri_lost, ri_cir_off and ri_alt_off. */
  datatype Shared = Shared(slot: int, flush: nat, lost: nat, cir: nat, alt: nat)

  // What happened, for the proofs only.

  /** Since the slot was last reset. */
  datatype Epoch = Epoch(draws: seq<Draw>, claims: seq<Claim>)
  /** Since ri_flush was last reset; reopened: since the daemon last tested it. */
  datatype Flushes = Flushes(swaps: nat, discards: nat, reopened: bool)
  /** Calls that returned NULL, losses taken by the two drainers, losses wiped by an open. */
  datatype Losses = Losses(nulls: nat, drained: nat, voided: nat)
  /**
   Buffers retired by a swap or a discard; slots claimed, and how many of them were in
   retired buffers or wiped by a reset that retires nothing.
   */
  datatype Totals = Totals(retired: nat, claimed: nat, retiredClaims: nat, wipedClaims: nat)
  /**
   Buffers overwritten by a discard, and the claims in them; buffers that the daemon has told
   of when it reset ri_flush, and buffers whose count an open has wiped.
   */
  datatype Overruns = Overruns(buffers: nat, claims: nat, told: nat, voided: nat)
  /**
   Buffers swapped out, numbered by their swap: how many were written when ri_flush was reset,
   wiped from the counter by an open, or forgotten; taken: the one the daemon took last, if any.
   */
  datatype Fates = Fates(swaps: nat, written: nat, voided: nat, forgotten: nat, taken: nat)

  datatype State = State(
    n: nat, m: Shared, threads: seq<Thread>, daemon: Daemon, open: bool, disk: bool, close: bool,
    epoch: Epoch, flushes: Flushes, losses: Losses, totals: Totals,
    over: Overruns, fates: Fates)

  datatype Action =
    | Producer(tid: nat)                  // the next step of a producer
    | Test | Begin | BeginActive | Wrote | Stop | TakeLost | ResetFlush
    | Opened(ok: bool) | Closed
    | CtrlOpen | CtrlClose

  /** An open has just been accepted, and no call of rbtrace is under way. */
  function Init(n: nat, threads: nat): State {
    State(n, Shared(-1, 0, 0, 0, n), seq(threads, _ => Thread(Idle, 0)), Waiting, true, false, false,
          Epoch([], []), Flushes(0, 0, false), Losses(0, 0, 0), Totals(0, 0, 0, 0), Overruns(0, 0, 0, 0),
          Fates(0, 0, 0, 0, 0))
  }

  predicate Enabled(s: State, a: Action) {
    match a
    case Producer(i) => i < |s.threads|
    case Test => s.daemon.Waiting? && (s.disk || s.close) && s.m.flush > 0
    case Begin => s.daemon.Tested?
    case BeginActive => s.daemon.Waiting? && s.close
    case Wrote => s.daemon.Writing?
    case Stop => s.daemon.Cleared? && s.disk
    case TakeLost => s.daemon.Cleared?
    case ResetFlush => s.daemon.Taken?
    case Opened(_) => s.daemon.Waiting? && s.open && !s.close
    case Closed => s.daemon.Waiting? && s.close
    case CtrlOpen => !s.open && !s.disk
    case CtrlClose => s.disk
  }

  // ---------- producers ----------

  function At(s: State, i: nat, pc: Pc): seq<Thread>
    requires i < |s.threads|
  {
    s.threads[i := Thread(pc, s.threads[i].depth)]
  }

  /** Only producer i has moved; the daemon and the flags have not. */
  predicate OnlyThread(s: State, s': State, i: nat)
    requires i < |s.threads|
  {
    && |s'.threads| == |s.threads| && s'.threads == s.threads[i := s'.threads[i]]
    && s'.n == s.n && s'.m.slot >= -1 && SameControl(s, s')
  }

  predicate SameControl(s: State, s': State) {
    s'.daemon == s.daemon && s'.open == s.open && s'.disk == s.disk && s'.close == s.close
  }

  /** Where a producer goes with a ticket that is too late, by where it drew. */
  function Late(s: State, pc: Pc): Pc
    requires s.m.slot >= -1
  {
    if pc.Retry? then Resetting(s.m.slot + 1)          // rbtrace.c:109
    else if pc.Spinning? then Losing                   // rbtrace.c:128
    else if s.m.slot + 1 == s.n then AtN else Spinning // rbtrace.c:151
  }

  /** add_and_fetch on ri_slot; a ticket below n claims a slot of the active buffer. */
  function DrawTicket(s: State, i: nat): (s': State)
    requires i < |s.threads| && s.m.slot >= -1
    ensures OnlyThread(s, s', i)
  {
    var t: nat := s.m.slot + 1;
    var draws := s.epoch.draws + [Draw(i, t)];
    if t < s.n then
      s.(m := s.m.(slot := t), threads := At(s, i, Filling(s.m.cir, t)),
         epoch := Epoch(draws, s.epoch.claims + [Claim(i, s.m.cir, t)]),
         totals := s.totals.(claimed := s.totals.claimed + 1))
    else
      s.(m := s.m.(slot := t), threads := At(s, i, Late(s, s.threads[i].pc)),
         epoch := Epoch(draws, s.epoch.claims))
  }

  /** The buffer in use is retired by a swap or a discard. */
  function Retire(t: Totals, claims: nat): Totals {
    t.(retired := t.retired + 1, retiredClaims := t.retiredClaims + claims)
  }

  /** The buffer in use is started over by a late retry or an open. */
  function Wipe(t: Totals, claims: nat): Totals {
    t.(wipedClaims := t.wipedClaims + claims)
  }

  /** rbtrace.c:75-84, with the discard decided but not yet carried out. */
  function CountFlush(s: State, i: nat): (s': State)
    requires i < |s.threads| && s.m.slot >= -1
    ensures OnlyThread(s, s', i)
  {
    if s.m.flush == 0 then
      s.(m := Shared(-1, 1, s.m.lost, s.m.alt, s.m.cir), threads := At(s, i, Swapped),
         epoch := Epoch([], []), totals := Retire(s.totals, |s.epoch.claims|),
         flushes := s.flushes.(swaps := s.flushes.swaps + 1),
         fates := s.fates.(swaps := s.fates.swaps + 1))
    else
      s.(m := s.m.(flush := s.m.flush + 1), threads := At(s, i, Discarding),
         flushes := s.flushes.(discards := s.flushes.discards + 1))
  }

  /** Buffers overwritten, by the counter that the daemon reads. */
  function Excess(flush: nat): nat {
    if flush > 1 then flush - 1 else 0
  }

  function Discard(s: State, i: nat): (s': State)
    requires i < |s.threads| && s.m.slot >= -1
    ensures OnlyThread(s, s', i)
  {
    s.(m := s.m.(slot := -1), threads := At(s, i, Retry),
       epoch := Epoch([], []), totals := Retire(s.totals, |s.epoch.claims|),
       over := s.over.(buffers := s.over.buffers + 1, claims := s.over.claims + |s.epoch.claims|))
  }

  function TakeLosses(s: State, i: nat): (s': State)
    requires i < |s.threads| && s.m.slot >= -1
    ensures OnlyThread(s, s', i)
  {
    s.(m := s.m.(lost := 0), losses := s.losses.(drained := s.losses.drained + s.m.lost),
       threads := if s.m.lost > 0 then s.threads[i := Thread(Calling, s.threads[i].depth + 1)]
                  else At(s, i, Retry))
  }

  /** The compare-and-swap of rbtrace.c:119. */
  function TryReset(s: State, i: nat, ticket: nat): (s': State)
    requires i < |s.threads| && s.m.slot >= -1
    ensures OnlyThread(s, s', i)
  {
    if s.m.slot == ticket then
      s.(m := s.m.(slot := -1), threads := At(s, i, Losing),
         epoch := Epoch([], []), totals := Wipe(s.totals, |s.epoch.claims|))
    else s.(threads := At(s, i, Losing))
  }

  function CountLoss(s: State, i: nat): (s': State)
    requires i < |s.threads| && s.m.slot >= -1
    ensures OnlyThread(s, s', i)
  {
    s.(m := s.m.(lost := s.m.lost + 1), threads := At(s, i, Lost))
  }

  /** The call returns, with NULL when the producer was lost; a nested call to its outer one. */
  function Finish(s: State, i: nat): (s': State)
    requires i < |s.threads| && s.m.slot >= -1
    ensures OnlyThread(s, s', i)
  {
    var th := s.threads[i];
    s.(threads := s.threads[i := if th.depth == 0 then Thread(Idle, 0) else Thread(Retry, th.depth - 1)],
       losses := s.losses.(nulls := s.losses.nulls + if th.pc.Lost? then 1 else 0))
  }

  function ProducerStep(s: State, i: nat): (s': State)
    requires i < |s.threads| && s.m.slot >= -1
    ensures OnlyThread(s, s', i)
  {
    match s.threads[i].pc
    case Idle | Calling | Retry | Spinning => DrawTicket(s, i)
    case AtN => CountFlush(s, i)
    case Discarding => Discard(s, i)
    case Swapped => TakeLosses(s, i)
    case Resetting(t) => TryReset(s, i, t)
    case Losing => CountLoss(s, i)
    case Lost => Finish(s, i)
    case Filling(_, _) => Finish(s, i)
  }

  /** Drawing a ticket below n. */
  lemma DrawsSlot(s: State, i: nat, s': State)
    requires i < |s.threads| && -1 <= s.m.slot && s.m.slot + 1 < s.n && s' == ProducerStep(s, i)
    requires var pc := s.threads[i].pc; pc.Idle? || pc.Calling? || pc.Retry?
    ensures s'.m == s.m.(slot := s.m.slot + 1) && s'.losses == s.losses
    ensures s'.threads[i] == Thread(Filling(s.m.cir, s.m.slot + 1), s.threads[i].depth)
    ensures s'.epoch.claims == s.epoch.claims + [Claim(i, s.m.cir, s.m.slot + 1)]
  {
  }

  /** Returning from a call, with its slot or without. */
  lemma Returns(s: State, i: nat, s': State)
    requires i < |s.threads| && -1 <= s.m.slot && s' == ProducerStep(s, i)
    requires var pc := s.threads[i].pc; pc.Filling? || pc.Lost?
    ensures s'.m == s.m && s'.epoch == s.epoch
    ensures s'.losses.nulls == s.losses.nulls + if s.threads[i].pc.Lost? then 1 else 0
    ensures s'.threads[i] == if s.threads[i].depth == 0 then Thread(Idle, 0)
                             else Thread(Retry, s.threads[i].depth - 1)
  {
  }

  lemma CountsItself(s: State, i: nat, s': State)
    requires i < |s.threads| && -1 <= s.m.slot && s' == ProducerStep(s, i) && s.threads[i].pc.Losing?
    ensures s'.m == s.m.(lost := s.m.lost + 1) && s'.losses == s.losses
    ensures s'.threads[i] == Thread(Lost, s.threads[i].depth)
  {
  }

  // ---------- daemon and control ----------

  function Reopen(s: State): State {
    s.(m := Shared(-1, 0, 0, s.m.cir, s.m.alt), open := true,
       epoch := Epoch([], []), flushes := Flushes(0, 0, true),
       losses := s.losses.(voided := s.losses.voided + s.m.lost),
       totals := Wipe(s.totals, |s.epoch.claims|),
       over := s.over.(voided := s.over.voided + Excess(s.m.flush)),
       fates := if s.m.flush > 0 then s.fates.(voided := s.fates.voided + 1) else s.fates)
  }

  /** The daemon's reset of ri_flush: the buffer swapped out last is the one it wrote, or not. */
  function Settled(f: Fates, flush: nat): Fates {
    if flush == 0 then f
    else if f.taken == f.swaps then f.(written := f.written + 1)
    else f.(forgotten := f.forgotten + 1)
  }

  function DaemonStep(s: State, a: Action): State
    requires Enabled(s, a) && !a.Producer?
  {
    match a
    case Test => s.(daemon := Tested, flushes := s.flushes.(reopened := false))
    case Begin => s.(daemon := Writing(s.m.alt, true),
                     fates := s.fates.(taken := if s.m.flush > 0 then s.fates.swaps else 0))
    case BeginActive => s.(daemon := Writing(s.m.cir, false), fates := s.fates.(taken := 0))
    case Wrote => s.(daemon := Cleared(s.daemon.buf, s.daemon.pending))
    case Stop => s.(disk := false)
    case TakeLost => s.(daemon := Taken(s.daemon.buf, s.daemon.pending), m := s.m.(lost := 0),
                        losses := s.losses.(drained := s.losses.drained + s.m.lost))
    case ResetFlush => s.(daemon := Waiting, m := s.m.(flush := 0),
                          flushes := Flushes(0, 0, s.flushes.reopened),
                          over := s.over.(told := s.over.told + Excess(s.m.flush)),
                          fates := Settled(s.fates, s.m.flush))
    case Opened(ok) => s.(open := false, disk := ok)
    case Closed => s.(close := false)
    case CtrlOpen => Reopen(s)
    case CtrlClose => s.(disk := false, close := true)
  }

  function Next(s: State, a: Action): (s': State)
    requires Enabled(s, a) && s.m.slot >= -1
    ensures s'.m.slot >= -1
  {
    if a.Producer? then ProducerStep(s, a.tid) else DaemonStep(s, a)
  }

  // ---------- invariants of every interleaving ----------

  /** The tickets handed out since the last reset are 0 to ri_slot, each once. */
  predicate TicketsInv(s: State) {
    && s.m.slot >= -1 && |s.epoch.draws| == s.m.slot + 1
    && forall k :: 0 <= k < |s.epoch.draws| ==> s.epoch.draws[k].ticket == k
  }

  /** Every claim lies in the active buffer, each slot of it claimed once. */
  predicate ClaimsInv(s: State) {
    && ((s.m.cir == 0 && s.m.alt == s.n) || (s.m.cir == s.n && s.m.alt == 0))
    && |s.epoch.claims| == Min(|s.epoch.draws|, s.n)
    && (forall k :: 0 <= k < |s.epoch.claims| ==>
          s.epoch.claims[k] == Claim(s.epoch.draws[k].tid, s.m.cir, k))
    && s.totals.claimed == s.totals.retiredClaims + s.totals.wipedClaims + |s.epoch.claims|
  }

  /** One swap when the counter is positive, and a discard for every further count. */
  predicate FlushInv(s: State) {
    if s.m.flush == 0 then s.flushes.swaps == 0 && s.flushes.discards == 0
    else s.flushes.swaps == 1 && s.flushes.discards == s.m.flush - 1
  }

  function Sum(ts: seq<Thread>, f: Thread -> nat): nat {
    if ts == [] then 0 else Sum(ts[..|ts| - 1], f) + f(ts[|ts| - 1])
  }

  function LostOne(th: Thread): nat {
    if th.pc.Lost? then 1 else 0
  }

  function DiscardingOne(th: Thread): nat {
    if th.pc.Discarding? then 1 else 0
  }

  /** Calls that returned NULL or are about to: drained once, wiped by an open, or counted. */
  ghost predicate LossInv(s: State) {
    s.losses.nulls + Sum(s.threads, LostOne) == s.losses.drained + s.losses.voided + s.m.lost
  }

  /** Buffers overwritten or about to be: told once, wiped by an open, or counted. */
  ghost predicate OverInv(s: State) {
    s.over.told + s.over.voided + Excess(s.m.flush) == s.over.buffers + Sum(s.threads, DiscardingOne)
  }

  /** A producer that will try a reset holds a ticket past the last slot. */
  predicate LateInv(s: State) {
    forall i :: 0 <= i < |s.threads| && s.threads[i].pc.Resetting? ==> s.threads[i].pc.ticket >= s.n
  }

  predicate AtEdge(th: Thread) {
    th.pc.AtN? || th.pc.Discarding?
  }

  predicate OneAtEdge(ts: seq<Thread>) {
    forall i, j :: 0 <= i < |ts| && 0 <= j < |ts| && AtEdge(ts[i]) && AtEdge(ts[j]) ==> i == j
  }

  predicate NoneAtEdge(ts: seq<Thread>) {
    forall i :: 0 <= i < |ts| ==> !AtEdge(ts[i])
  }

  /** While no claim has been wiped, buffers are retired one at a time, and full. */
  predicate EdgeInv(s: State) {
    s.totals.wipedClaims == 0 ==>
      && OneAtEdge(s.threads)
      && (s.m.slot < s.n ==> NoneAtEdge(s.threads))
      && s.totals.retiredClaims == s.totals.retired * s.n
      && s.over.claims == s.over.buffers * s.n
  }

  predicate InWindow(s: State) {
    s.daemon.Tested? || (!s.daemon.Waiting? && s.daemon.pending)
  }

  /** From the test of ri_flush to its reset the daemon owns the alternate buffer. */
  predicate OwnerInv(s: State) {
    InWindow(s) && !s.flushes.reopened ==>
      s.m.flush > 0 && (!s.daemon.Tested? ==> s.daemon.buf == s.m.alt)
  }

  predicate Busy(s: State) {
    s.daemon.Writing? || s.daemon.Cleared? || s.daemon.Taken?
  }

  /** Every buffer swapped out has one fate, or is the one that ri_flush counts now. */
  predicate FateInv(s: State) {
    && s.fates.swaps == s.fates.written + s.fates.voided + s.fates.forgotten
                        + (if s.m.flush > 0 then 1 else 0)
    && (InWindow(s) && s.flushes.reopened ==> s.open)
    && (Busy(s) && !s.daemon.pending ==> s.fates.taken == 0)
    && (Busy(s) && s.daemon.pending ==>
          && s.fates.taken <= s.fates.swaps
          && (s.m.flush == 0 ==> s.daemon.buf == s.m.alt)
          && (s.m.flush > 0 ==> (s.daemon.buf == s.m.alt <==> s.fates.taken == s.fates.swaps))
          && (s.daemon.buf != s.m.alt ==> s.open))
  }

  /** The daemon writes only while the file is in use or being closed. */
  predicate BusyInv(s: State) {
    s.daemon.Tested? || s.daemon.Writing? ==> s.disk || s.close
  }

  ghost predicate Inv(s: State) {
    && s.n >= 1 && BusyInv(s)
    && TicketsInv(s) && ClaimsInv(s) && FlushInv(s) && LossInv(s) && EdgeInv(s) && OwnerInv(s)
    && OverInv(s) && LateInv(s) && FateInv(s)
  }

  lemma InitInv(n: nat, threads: nat)
    requires n >= 1
    ensures Inv(Init(n, threads))
  {
    NobodyCounts(Init(n, threads).threads, LostOne);
    NobodyCounts(Init(n, threads).threads, DiscardingOne);
  }

  lemma {:induction false} NobodyCounts(ts: seq<Thread>, f: Thread -> nat)
    requires forall i :: 0 <= i < |ts| ==> f(ts[i]) == 0
    ensures Sum(ts, f) == 0
  {
    if ts != [] {
      NobodyCounts(ts[..|ts| - 1], f);
    }
  }

  lemma {:induction false} SumUpdate(ts: seq<Thread>, f: Thread -> nat, i: nat, th: Thread)
    requires i < |ts|
    ensures Sum(ts[i := th], f) + f(ts[i]) == Sum(ts, f) + f(th)
  {
    var front, last := ts[..|ts| - 1], |ts| - 1;
    if i == last {
      assert ts[i := th][..last] == front;
    } else {
      SumUpdate(front, f, i, th);
      assert ts[i := th][..last] == front[i := th];
    }
  }

  /** Losses that the calls account for, less losses taken or still counted. */
  function Balance(s: State, i: nat): int
    requires i < |s.threads|
  {
    s.losses.nulls + LostOne(s.threads[i]) - s.losses.drained - s.losses.voided - s.m.lost
  }

  /** Buffers overwritten, less buffers told of or still counted. */
  function OverBalance(s: State, i: nat): int
    requires i < |s.threads|
  {
    s.over.buffers + DiscardingOne(s.threads[i]) - s.over.told - s.over.voided - Excess(s.m.flush)
  }

  /** A step moves every loss it touches from one account to another. */
  lemma LossBalance(s: State, i: nat, s': State)
    requires i < |s.threads| && s.m.slot >= -1 && s' == ProducerStep(s, i)
    ensures Balance(s', i) == Balance(s, i)
  {
    match s.threads[i].pc
    case Idle | Calling | Retry | Spinning => assert s' == DrawTicket(s, i);
    case AtN => assert s' == CountFlush(s, i);
    case Swapped => assert s' == TakeLosses(s, i);
    case Losing => assert s' == CountLoss(s, i);
    case Lost | Filling(_, _) => assert s' == Finish(s, i);
    case _ =>
  }

  lemma LossProducer(s: State, s': State, i: nat)
    requires i < |s.threads| == |s'.threads| && LossInv(s)
    requires s'.threads == s.threads[i := s'.threads[i]]
    requires Balance(s', i) == Balance(s, i)
    ensures LossInv(s')
  {
    SumUpdate(s.threads, LostOne, i, s'.threads[i]);
  }

  /** A discard is counted in ri_flush when it is decided. */
  lemma OverSteps(s: State, i: nat, s': State)
    requires i < |s.threads| && s.m.slot >= -1 && s' == ProducerStep(s, i)
    ensures OverBalance(s', i) == OverBalance(s, i)
  {
    match s.threads[i].pc
    case Idle | Calling | Retry | Spinning => assert s' == DrawTicket(s, i);
    case AtN => assert s' == CountFlush(s, i);
    case Discarding => assert s' == Discard(s, i);
    case _ => FlushStays(s, i, s');
  }

  lemma OverProducer(s: State, s': State, i: nat)
    requires i < |s.threads| == |s'.threads| && OverInv(s)
    requires s'.threads == s.threads[i := s'.threads[i]]
    requires OverBalance(s', i) == OverBalance(s, i)
    ensures OverInv(s')
  {
    SumUpdate(s.threads, DiscardingOne, i, s'.threads[i]);
  }

  lemma LateTicket(s: State, i: nat, s': State)
    requires i < |s.threads| == |s'.threads| && s.m.slot >= -1 && s' == ProducerStep(s, i)
    ensures s'.threads[i].pc.Resetting? ==> s'.threads[i].pc.ticket >= s.n
  {
    match s.threads[i].pc
    case Retry => assert s' == DrawTicket(s, i);
    case _ =>
  }

  lemma LateProducer(s: State, i: nat, s': State)
    requires i < |s.threads| == |s'.threads| && s'.n == s.n && LateInv(s)
    requires s'.threads == s.threads[i := s'.threads[i]]
    requires s'.threads[i].pc.Resetting? ==> s'.threads[i].pc.ticket >= s.n
    ensures LateInv(s')
  {
  }

  lemma DrawKeeps(s: State, i: nat)
    requires i < |s.threads| && TicketsInv(s) && ClaimsInv(s)
    ensures TicketsInv(DrawTicket(s, i)) && ClaimsInv(DrawTicket(s, i))
  {
  }

  /** The steps that leave tickets, claims and offsets alone. */
  predicate LeavesEpoch(s: State, s': State) {
    && s'.n == s.n && s'.epoch == s.epoch && s'.totals == s.totals
    && s'.m.slot == s.m.slot && s'.m.cir == s.m.cir && s'.m.alt == s.m.alt
  }

  /** The steps that start an epoch over. */
  predicate StartsOver(s: State, s': State) {
    && s'.n == s.n && s'.m.slot == -1 && s'.epoch == Epoch([], [])
    && (s'.totals == Retire(s.totals, |s.epoch.claims|) || s'.totals == Wipe(s.totals, |s.epoch.claims|))
    && ((s'.m.cir, s'.m.alt) == (s.m.cir, s.m.alt) || (s'.m.cir, s'.m.alt) == (s.m.alt, s.m.cir))
  }

  /** Starting an epoch over keeps the counts, whether the buffer is retired or wiped. */
  lemma ResetKeeps(s: State, s': State)
    requires TicketsInv(s) && ClaimsInv(s) && StartsOver(s, s')
    ensures TicketsInv(s') && ClaimsInv(s')
  {
  }

  lemma ThreeKindsOfStep(s: State, i: nat)
    requires i < |s.threads| && s.m.slot >= -1
    ensures var s', pc := ProducerStep(s, i), s.threads[i].pc;
      if pc.Idle? || pc.Calling? || pc.Retry? || pc.Spinning? then s' == DrawTicket(s, i)
      else LeavesEpoch(s, s') || StartsOver(s, s')
  {
  }

  lemma TicketsProducer(s: State, i: nat, s': State)
    requires i < |s.threads| && TicketsInv(s) && ClaimsInv(s)
    requires s' == DrawTicket(s, i) || LeavesEpoch(s, s') || StartsOver(s, s')
    ensures TicketsInv(s') && ClaimsInv(s')
  {
    if LeavesEpoch(s, s') {
    } else if StartsOver(s, s') {
      ResetKeeps(s, s');
    } else {
      DrawKeeps(s, i);
    }
  }

  lemma EdgeUpdate(ts: seq<Thread>, i: nat, th: Thread)
    requires i < |ts|
    ensures !AtEdge(th) && OneAtEdge(ts) ==> OneAtEdge(ts[i := th])
    ensures !AtEdge(th) && NoneAtEdge(ts) ==> NoneAtEdge(ts[i := th])
    ensures !AtEdge(th) && AtEdge(ts[i]) && OneAtEdge(ts) ==> NoneAtEdge(ts[i := th])
    ensures AtEdge(th) && NoneAtEdge(ts) ==> OneAtEdge(ts[i := th])
    ensures AtEdge(th) && AtEdge(ts[i]) && OneAtEdge(ts) ==> OneAtEdge(ts[i := th])
  {
  }

  /** A buffer is full when the only producer at the edge retires it. */
  lemma FullAtEdge(s: State, i: nat)
    requires i < |s.threads| && EdgeInv(s) && TicketsInv(s) && ClaimsInv(s)
    requires AtEdge(s.threads[i]) && s.totals.wipedClaims == 0
    ensures |s.epoch.claims| == s.n
    ensures (s.totals.retired + 1) * s.n == s.totals.retiredClaims + |s.epoch.claims|
    ensures (s.over.buffers + 1) * s.n == s.over.claims + |s.epoch.claims|
  {
  }

  lemma EdgeDraw(s: State, i: nat)
    requires i < |s.threads| && s.m.slot >= -1 && EdgeInv(s) && !AtEdge(s.threads[i])
    ensures EdgeInv(DrawTicket(s, i))
  {
    EdgeUpdate(s.threads, i, DrawTicket(s, i).threads[i]);
  }

  lemma EdgeRetire(s: State, i: nat)
    requires i < |s.threads| && EdgeInv(s) && TicketsInv(s) && ClaimsInv(s) && AtEdge(s.threads[i])
    ensures EdgeInv(CountFlush(s, i)) && EdgeInv(Discard(s, i))
  {
    EdgeUpdate(s.threads, i, CountFlush(s, i).threads[i]);
    EdgeUpdate(s.threads, i, Discard(s, i).threads[i]);
    if s.totals.wipedClaims == 0 {
      FullAtEdge(s, i);
    }
  }

  lemma EdgeOther(s: State, i: nat)
    requires i < |s.threads| && EdgeInv(s) && TicketsInv(s) && ClaimsInv(s) && s.n >= 1
    requires var pc := s.threads[i].pc;
      pc.Swapped? || pc.Resetting? || pc.Losing? || pc.Lost? || pc.Filling?
    ensures EdgeInv(ProducerStep(s, i))
  {
    EdgeUpdate(s.threads, i, ProducerStep(s, i).threads[i]);
  }

  lemma EdgeProducer(s: State, i: nat)
    requires i < |s.threads| && EdgeInv(s) && TicketsInv(s) && ClaimsInv(s) && s.n >= 1
    ensures EdgeInv(ProducerStep(s, i))
  {
    match s.threads[i].pc
    case Idle | Calling | Retry | Spinning => EdgeDraw(s, i);
    case AtN | Discarding => EdgeRetire(s, i);
    case _ => EdgeOther(s, i);
  }

  /** What only a producer at ticket n changes. */
  lemma FlushStays(s: State, i: nat, s': State)
    requires i < |s.threads| && s.m.slot >= -1 && s' == ProducerStep(s, i) && !s.threads[i].pc.AtN?
    ensures s'.m.flush == s.m.flush && s'.m.cir == s.m.cir && s'.m.alt == s.m.alt
    ensures s'.flushes == s.flushes && s'.fates == s.fates
  {
  }

  lemma OwnerProducer(s: State, i: nat, s': State)
    requires i < |s.threads| && s.m.slot >= -1 && s.n >= 1 && s' == ProducerStep(s, i)
    requires ClaimsInv(s) && OwnerInv(s) && FlushInv(s) && BusyInv(s) && FateInv(s)
    ensures OwnerInv(s') && FlushInv(s') && BusyInv(s') && FateInv(s')
  {
    if s.threads[i].pc.AtN? {
      assert s' == CountFlush(s, i);
    } else {
      FlushStays(s, i, s');
    }
  }

  lemma DaemonTickets(s: State, a: Action, s': State)
    requires Enabled(s, a) && !a.Producer? && s' == DaemonStep(s, a) && s.n >= 1
    requires TicketsInv(s) && ClaimsInv(s) && EdgeInv(s)
    ensures TicketsInv(s') && ClaimsInv(s') && EdgeInv(s')
  {
    if a.CtrlOpen? {
      ResetKeeps(s, s');
    } else {
      assert LeavesEpoch(s, s') && s'.threads == s.threads && s'.over.claims == s.over.claims;
    }
  }

  lemma DaemonCounts(s: State, a: Action, s': State)
    requires Enabled(s, a) && !a.Producer? && s' == DaemonStep(s, a)
    requires FlushInv(s) && LossInv(s) && OverInv(s) && LateInv(s)
    ensures FlushInv(s') && LossInv(s') && OverInv(s') && LateInv(s')
  {
    assert s'.threads == s.threads && s'.n == s.n;
  }

  lemma DaemonOwner(s: State, a: Action, s': State)
    requires Enabled(s, a) && !a.Producer? && s' == DaemonStep(s, a)
    requires OwnerInv(s) && BusyInv(s)
    ensures OwnerInv(s') && BusyInv(s')
  {
  }

  lemma DaemonFate(s: State, a: Action, s': State)
    requires Enabled(s, a) && !a.Producer? && s' == DaemonStep(s, a) && FateInv(s)
    ensures FateInv(s')
  {
    match a
    case ResetFlush => ResetFate(s, s');
    case CtrlOpen => ReopenFate(s, s');
    case Producer(_) =>
    case _ => assert s'.m.flush == s.m.flush && s'.m.alt == s.m.alt;
  }

  lemma ResetFate(s: State, s': State)
    requires s.daemon.Taken? && s' == DaemonStep(s, ResetFlush) && FateInv(s)
    ensures FateInv(s')
  {
  }

  lemma ReopenFate(s: State, s': State)
    requires Enabled(s, CtrlOpen) && s' == Reopen(s) && FateInv(s)
    ensures FateInv(s')
  {
  }

  lemma DaemonKeeps(s: State, a: Action, s': State)
    requires Inv(s) && Enabled(s, a) && !a.Producer? && s' == DaemonStep(s, a)
    ensures Inv(s')
  {
    DaemonTickets(s, a, s');
    DaemonCounts(s, a, s');
    DaemonOwner(s, a, s');
    DaemonFate(s, a, s');
    assert s'.n == s.n;
  }

  lemma CountsProducer(s: State, i: nat)
    requires i < |s.threads| && s.m.slot >= -1 && LossInv(s) && OverInv(s)
    ensures LossInv(ProducerStep(s, i)) && OverInv(ProducerStep(s, i))
  {
    var s' := ProducerStep(s, i);
    LossBalance(s, i, s');
    LossProducer(s, s', i);
    OverSteps(s, i, s');
    OverProducer(s, s', i);
  }

  lemma ProducerKeeps(s: State, i: nat)
    requires Inv(s) && i < |s.threads|
    ensures Inv(ProducerStep(s, i))
  {
    var s' := ProducerStep(s, i);
    CountsProducer(s, i);
    ThreeKindsOfStep(s, i);
    TicketsProducer(s, i, s');
    EdgeProducer(s, i);
    OwnerProducer(s, i, s');
    LateTicket(s, i, s');
    LateProducer(s, i, s');
  }

  lemma StepInv(s: State, a: Action)
    requires Inv(s) && Enabled(s, a)
    ensures Inv(Next(s, a))
  {
    if a.Producer? {
      ProducerKeeps(s, a.tid);
    } else {
      DaemonKeeps(s, a, DaemonStep(s, a));
    }
  }

  // ---------- what holds in every run ----------

  predicate CanRun(s: State, acts: seq<Action>)
    requires s.m.slot >= -1
    decreases acts
  {
    acts == [] || (Enabled(s, acts[0]) && CanRun(Next(s, acts[0]), acts[1..]))
  }

  function Exec(s: State, acts: seq<Action>): (s': State)
    requires s.m.slot >= -1 && CanRun(s, acts)
    ensures s'.m.slot >= -1
    decreases acts
  {
    if acts == [] then s else Exec(Next(s, acts[0]), acts[1..])
  }

  /** Some run of some number of producers leads to s. */
  ghost predicate Reachable(s: State) {
    exists n: nat, threads: nat, acts: seq<Action> ::
      n >= 1 && CanRun(Init(n, threads), acts) && Exec(Init(n, threads), acts) == s
  }

  lemma {:induction false} ExecInv(s: State, acts: seq<Action>)
    requires Inv(s) && CanRun(s, acts)
    ensures Inv(Exec(s, acts))
    decreases acts
  {
    if acts != [] {
      StepInv(s, acts[0]);
      ExecInv(Next(s, acts[0]), acts[1..]);
    }
  }

  /** The invariants hold in every state of every run. */
  lemma ReachableInv(s: State)
    requires Reachable(s)
    ensures Inv(s)
  {
    var n: nat, threads: nat, acts: seq<Action> :|
      n >= 1 && CanRun(Init(n, threads), acts) && Exec(Init(n, threads), acts) == s;
    InitInv(n, threads);
    ExecInv(Init(n, threads), acts);
  }

  /** No ticket is handed out twice, so at most one producer draws n before the next reset. */
  lemma TicketsUnique(s: State, j: nat, k: nat)
    requires Reachable(s) && j < |s.epoch.draws| && k < |s.epoch.draws|
    ensures s.epoch.draws[j].ticket == s.epoch.draws[k].ticket ==> j == k
    ensures |s.epoch.draws| == s.m.slot + 1 && s.epoch.draws[k].ticket == k
  {
    ReachableInv(s);
  }

  /** Claims are exactly the tickets below n, each in its own slot of the active buffer. */
  lemma ClaimsDistinct(s: State, j: nat, k: nat)
    requires Reachable(s) && j < |s.epoch.claims| && k < |s.epoch.claims|
    ensures |s.epoch.claims| == Min(|s.epoch.draws|, s.n)
    ensures s.epoch.claims[k].buf == s.m.cir && s.epoch.claims[k].idx == k < s.n
    ensures s.epoch.claims[j].idx == s.epoch.claims[k].idx ==> j == k
  {
    ReachableInv(s);
  }

  /** Between two resets of ri_flush: one producer took the swap path, every other one discarded. */
  lemma FlushCounts(s: State)
    requires Reachable(s)
    ensures s.m.flush > 0 ==> s.flushes.swaps == 1 && s.flushes.discards == s.m.flush - 1
    ensures s.m.flush == 0 ==> s.flushes.swaps == 0 && s.flushes.discards == 0
  {
    ReachableInv(s);
  }

  // ---------- whole buffers ----------

  /** The step resets ri_slot while slots have been claimed, and retires no buffer. */
  predicate Wipes(s: State, a: Action)
    requires Enabled(s, a)
  {
    || (a.Producer? && s.threads[a.tid].pc.Resetting? && s.m.slot == s.threads[a.tid].pc.ticket)
    || (a.CtrlOpen? && s.m.slot >= 0)
  }

  lemma ProducerWipes(s: State, i: nat)
    requires TicketsInv(s) && ClaimsInv(s) && s.n >= 1 && i < |s.threads|
    ensures ProducerStep(s, i).totals.wipedClaims >= s.totals.wipedClaims
    ensures ProducerStep(s, i).totals.wipedClaims > s.totals.wipedClaims
        <==> s.threads[i].pc.Resetting? && s.m.slot == s.threads[i].pc.ticket
  {
  }

  /** A step wipes claims exactly when its guard says so. */
  lemma WipesClaims(s: State, a: Action)
    requires Inv(s) && Enabled(s, a)
    ensures Next(s, a).totals.wipedClaims >= s.totals.wipedClaims
    ensures Next(s, a).totals.wipedClaims > s.totals.wipedClaims <==> Wipes(s, a)
  {
    if a.Producer? {
      ProducerWipes(s, a.tid);
    }
  }

  predicate NoWipes(s: State, acts: seq<Action>)
    requires s.m.slot >= -1 && CanRun(s, acts)
    decreases acts
  {
    acts == [] || (!Wipes(s, acts[0]) && NoWipes(Next(s, acts[0]), acts[1..]))
  }

  lemma {:induction false} RunWipes(s: State, acts: seq<Action>)
    requires Inv(s) && CanRun(s, acts)
    ensures Exec(s, acts).totals.wipedClaims >= s.totals.wipedClaims
    ensures Exec(s, acts).totals.wipedClaims == s.totals.wipedClaims <==> NoWipes(s, acts)
    decreases acts
  {
    if acts != [] {
      StepInv(s, acts[0]);
      WipesClaims(s, acts[0]);
      RunWipes(Next(s, acts[0]), acts[1..]);
    }
  }

  /** Every slot claimed is in a retired buffer that was full, or in the buffer in use. */
  predicate WholeBuffers(s: State)
    requires s.m.slot >= -1
  {
    && s.totals.retiredClaims == s.totals.retired * s.n
    && s.totals.claimed == s.totals.retiredClaims + Min(s.m.slot + 1, s.n)
  }

  /** A run keeps whole buffers if and only if none of its steps is a wiping one. */
  lemma WholeUnlessWiped(n: nat, threads: nat, acts: seq<Action>)
    requires n >= 1 && CanRun(Init(n, threads), acts)
    ensures WholeBuffers(Exec(Init(n, threads), acts)) <==> NoWipes(Init(n, threads), acts)
  {
    InitInv(n, threads);
    ExecInv(Init(n, threads), acts);
    RunWipes(Init(n, threads), acts);
  }

  /** A buffer is full when it is swapped out or discarded, unless claims have been wiped. */
  lemma RetiredBuffersFull(s: State, i: nat)
    requires Reachable(s) && s.totals.wipedClaims == 0 && i < |s.threads| && AtEdge(s.threads[i])
    ensures |s.epoch.claims| == s.n
    ensures s.totals.claimed == (s.totals.retired + 1) * s.n
  {
    ReachableInv(s);
    FullAtEdge(s, i);
  }

  /** Every slot claimed is in a retired buffer, in one that was wiped, or in use. */
  lemma ClaimsConserved(s: State)
    requires Reachable(s)
    ensures s.m.slot >= -1
    ensures s.totals.claimed == s.totals.retiredClaims + s.totals.wipedClaims + Min(s.m.slot + 1, s.n)
    ensures WholeBuffers(s) <==> s.totals.wipedClaims == 0
  {
    ReachableInv(s);
  }

  /**
   The records the daemon tells of for overwritten buffers, those still counted and those
   whose count an open wiped are the claims that discards have overwritten, and n for every
   producer that has counted its discard but not yet carried it out.
   */
  lemma OverrunsTold(s: State)
    requires Reachable(s)
    ensures s.over.told + s.over.voided + Excess(s.m.flush) == s.over.buffers + Sum(s.threads, DiscardingOne)
    ensures s.totals.wipedClaims == 0 ==>
      s.over.told * s.n + s.over.voided * s.n + Excess(s.m.flush) * s.n
      == s.over.claims + Sum(s.threads, DiscardingOne) * s.n
  {
    ReachableInv(s);
    var d := Sum(s.threads, DiscardingOne);
    if s.totals.wipedClaims == 0 {
      ThreeProducts(s.over.told, s.over.voided, Excess(s.m.flush), s.over.buffers, d, s.n);
    }
  }

  lemma ThreeProducts(a: nat, b: nat, c: nat, p: nat, q: nat, n: nat)
    requires a + b + c == p + q
    ensures a * n + b * n + c * n == p * n + q * n
  {
    assert (a + b + c) * n == a * n + b * n + c * n;
    assert (p + q) * n == p * n + q * n;
  }

  /** No loss is drained twice or forgotten; an open wipes those not yet drained. */
  lemma LossesConserved(s: State)
    requires Reachable(s)
    ensures s.losses.nulls + Sum(s.threads, LostOne) == s.losses.drained + s.losses.voided + s.m.lost
  {
    ReachableInv(s);
  }

  /**
   From the daemon's test of ri_flush to its reset, no step of any producer swaps the offsets
   and no slot claimed lies in the buffer the daemon has taken.
   */
  lemma BufferOwned(s: State, a: Action)
    requires Reachable(s) && Enabled(s, a) && InWindow(s) && !s.flushes.reopened
    ensures var s' := Next(s, a);
      && s'.m.cir == s.m.cir && s'.m.alt == s.m.alt
      && (InWindow(s') ==> s'.m.flush > 0 || s'.flushes.reopened)
      && (!s.daemon.Tested? ==> forall k :: 0 <= k < |s'.epoch.claims| ==>
            s'.epoch.claims[k].buf != s.daemon.buf)
  {
    ReachableInv(s);
    StepInv(s, a);
    if a.Producer? {
      OffsetsStay(s, a.tid);
    }
  }

  lemma OffsetsStay(s: State, i: nat)
    requires i < |s.threads| && s.m.slot >= -1 && s.m.flush > 0
    ensures var s' := ProducerStep(s, i); s'.m.cir == s.m.cir && s'.m.alt == s.m.alt
  {
  }

  /**
   In this window the offsets are swapped exactly by a producer at ticket n that finds ri_flush
   zero, and ri_flush is zero only if an open has been accepted since the test.
   */
  lemma OffsetsMove(s: State, a: Action)
    requires Reachable(s) && InWindow(s) && Enabled(s, a)
    ensures s.m.flush == 0 ==> s.flushes.reopened
    ensures var s' := Next(s, a);
      (s'.m.cir, s'.m.alt) != (s.m.cir, s.m.alt)
      <==> a.Producer? && s.threads[a.tid].pc.AtN? && s.m.flush == 0
  {
    ReachableInv(s);
    if a.Producer? && !s.threads[a.tid].pc.AtN? {
      FlushStays(s, a.tid, Next(s, a));
    }
  }

  /**
   In this window an open is accepted only once, and only while a close is pending or, behind
   the write, after the stop policy has cleared DISK.
   */
  lemma OpenInWindow(s: State)
    requires Reachable(s) && InWindow(s)
    ensures Enabled(s, CtrlOpen) ==> !s.flushes.reopened && !s.disk
    ensures Enabled(s, CtrlOpen) && (s.daemon.Tested? || s.daemon.Writing?) ==> s.close
  {
    ReachableInv(s);
  }

  /**
   What the daemon takes: for a pending flush the buffer that no current claim lies in, for the
   flush of a close the buffer that every current claim lies in.
   */
  lemma TakesBuffer(s: State, a: Action, k: nat)
    requires Reachable(s) && Enabled(s, a) && (a.Begin? || a.BeginActive?) && k < |s.epoch.claims|
    ensures Next(s, a).daemon == if a.Begin? then Writing(s.m.alt, true) else Writing(s.m.cir, false)
    ensures s.epoch.claims[k].buf == Next(s, a).daemon.buf <==> a.BeginActive?
  {
    ReachableInv(s);
  }

  // ---------- buffers swapped out ----------

  /**
   The reset of ri_flush forgets the buffer that the counter stands for: the daemon has written
   the active one, or its buffer is not the alternate one any more.
   */
  predicate Forgets(s: State, a: Action) {
    a.ResetFlush? && s.daemon.Taken? && s.m.flush > 0 && !(s.daemon.pending && s.daemon.buf == s.m.alt)
  }

  /** A step leaves a swapped buffer unwritten and uncounted exactly when its guard says so. */
  lemma ForgetsExactly(s: State, a: Action)
    requires Reachable(s) && Enabled(s, a)
    ensures var f, f' := s.fates, Next(s, a).fates;
      && f'.forgotten == f.forgotten + (if Forgets(s, a) then 1 else 0)
      && f'.written == f.written + (if a.ResetFlush? && s.m.flush > 0 && !Forgets(s, a) then 1 else 0)
  {
    ReachableInv(s);
    if a.Producer? {
      FatesStay(s, a.tid);
    }
  }

  lemma FatesStay(s: State, i: nat)
    requires i < |s.threads| && s.m.slot >= -1
    ensures var f, f' := s.fates, ProducerStep(s, i).fates;
      f'.written == f.written && f'.forgotten == f.forgotten && f'.voided == f.voided
  {
  }

  /** Every buffer swapped out was written, wiped by an open, forgotten, or is still pending. */
  lemma SwapsConserved(s: State)
    requires Reachable(s)
    ensures s.fates.swaps == s.fates.written + s.fates.voided + s.fates.forgotten
                             + (if s.m.flush > 0 then 1 else 0)
  {
    ReachableInv(s);
  }
}
