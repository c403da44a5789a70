/** Where every emitted record is: on disk, pending, active, or told as lost. */
module Accounting {
  import opened Records
  import opened Ring
  import opened Tracer
  import opened Control

  function AllOf(rs: seq<Retired>): seq<Record> {
    if rs == [] then [] else AllOf(rs[..|rs| - 1]) + rs[|rs| - 1].records
  }

  function KeptOf(rs: seq<Retired>): seq<Record> {
    if rs == [] then []
    else KeptOf(rs[..|rs| - 1]) + if rs[|rs| - 1].kept then rs[|rs| - 1].records else []
  }

  ghost predicate FullBuffers(rs: seq<Retired>, n: nat) {
    forall i :: 0 <= i < |rs| ==> |rs[i].records| == n
  }

  /**
   The records emitted are whole buffers followed by the active one; what was written and
   what is pending are these buffers without the overwritten ones; and the records missing
   were told as lost or are counted in ri_flush.
   */
  ghost predicate Accounted(s: State) {
    var h, ring := s.hist, s.ring;
    && ring.lost == 0 && FullBuffers(h.retired, ring.n)
    && h.log == AllOf(h.retired) + ring.active
    && h.stream + ring.pending == KeptOf(h.retired)
    && |h.log| == |h.stream| + |ring.pending| + |ring.active| + h.told + Overwritten(ring)
  }

  lemma AnotherRetired(rs: seq<Retired>, r: Retired)
    ensures AllOf(rs + [r]) == AllOf(rs) + r.records
    ensures KeptOf(rs + [r]) == KeptOf(rs) + if r.kept then r.records else []
  {
    assert (rs + [r])[..|rs|] == rs;
  }

  lemma FastAccounts(s: State, r: Record, mark: Marker)
    requires s.Wf() && Accounted(s) && |s.ring.active| < s.ring.n
    ensures Accounted(Trace(s, r, mark))
  {
    assert s.hist.log + [r] == AllOf(s.hist.retired) + (s.ring.active + [r]);
  }

  lemma SwapAccounts(s: State, r: Record, mark: Marker)
    requires s.Wf() && Accounted(s) && |s.ring.active| == s.ring.n && s.ring.flush == 0
    ensures Accounted(Trace(s, r, mark))
  {
    AnotherRetired(s.hist.retired, Retired(s.ring.active, true));
  }

  lemma DiscardAccounts(s: State, r: Record, mark: Marker)
    requires s.Wf() && Accounted(s) && |s.ring.active| == s.ring.n && s.ring.flush > 0
    ensures Accounted(Trace(s, r, mark))
  {
    var flush, n := s.ring.flush, s.ring.n;
    AnotherRetired(s.hist.retired, Retired(s.ring.active, false));
    assert flush * n == (flush - 1) * n + n;
  }

  lemma TraceAccounts(s: State, r: Record, mark: Marker)
    requires s.Wf() && Accounted(s)
    ensures Accounted(Trace(s, r, mark))
  {
    if |s.ring.active| < s.ring.n {
      FastAccounts(s, r, mark);
    } else if s.ring.flush == 0 {
      SwapAccounts(s, r, mark);
    } else {
      DiscardAccounts(s, r, mark);
    }
  }

  lemma DrainedRing(s: State, t: State, mark: Marker)
    requires s.Wf() && t.Wf() && s.ring == t.ring && s.hist == t.hist
    ensures Drained(s, mark).ring == Drained(t, mark).ring
    ensures Drained(s, mark).hist == Drained(t, mark).hist
  {
  }

  /** On ring and history a write is the buffer taken and the counters drained. */
  lemma WriteRing(s: State, doFlush: bool, ok: bool, mark: Marker)
    requires s.Wf() && s.fd
    ensures WriteData(s, doFlush, ok, mark).ring == Drained(Taken(s, doFlush), mark).ring
    ensures WriteData(s, doFlush, ok, mark).hist == Drained(Taken(s, doFlush), mark).hist
  {
    var s1 := Taken(Written(s, Flatten(Buffer(s, doFlush))), doFlush);
    DrainedRing(Settled(s1, Wrapping(s), ok), Taken(s, doFlush), mark);
  }

  /** Taking the pending buffer and the counters moves records from one account to another. */
  lemma TakenAccounts(s: State, s2: State)
    requires s.Wf() && Accounted(s) && s.ring.flush > 0
    requires var s1 := CountersTaken(Taken(s, false));
      s2 == s1.(hist := s1.hist.(told := s1.hist.told + Missing(s.ring)))
    ensures s2.Wf() && Accounted(s2)
  {
    assert s2.hist.stream + [] == s2.hist.stream;
  }

  /** What a drain leaves, as the RBT_LOST call on a state s2 whose counters have been taken. */
  lemma DrainTells(s: State, s2: State, mark: Marker)
    requires s.Wf() && s.ring.lost == 0 && s.ring.flush > 0 && s2.Wf()
    requires var s1 := CountersTaken(Taken(s, false));
      s2 == s1.(hist := s1.hist.(told := s1.hist.told + Missing(s.ring)))
    ensures Drained(Taken(s, false), mark)
         == if s.ring.flush > 1 then Trace(s2, mark(Missing(s.ring)), mark) else s2
  {
    assert s.ring.flush == 1 ==> Missing(s.ring) == 0;
  }

  lemma DrainAccounts(s: State, s2: State, mark: Marker)
    requires s.Wf() && Accounted(s) && s.ring.flush > 0
    requires var s1 := CountersTaken(Taken(s, false));
      s2 == s1.(hist := s1.hist.(told := s1.hist.told + Missing(s.ring)))
    ensures Accounted(Drained(Taken(s, false), mark))
  {
    TakenAccounts(s, s2);
    DrainTells(s, s2, mark);
    TraceAccounts(s2, mark(Missing(s.ring)), mark);
  }

  /** The RBT_LOST record of a drain retires the active buffer when that is full. */
  lemma FlushAfterDrain(s: State, mark: Marker)
    requires s.Wf() && s.ring.lost == 0 && s.ring.flush > 0
    ensures Drained(Taken(s, false), mark).ring.flush
         == if s.ring.flush > 1 && |s.ring.active| == s.ring.n then 1 else 0
  {
  }

  lemma WritePendingAccounts(s: State, ok: bool, mark: Marker)
    requires s.Wf() && s.fd && Accounted(s) && s.ring.flush > 0
    ensures var s' := WriteData(s, false, ok, mark);
      && Accounted(s')
      && (s'.ring.flush == if s.ring.flush > 1 && |s.ring.active| == s.ring.n then 1 else 0)
      && s'.hist.stream == s.hist.stream + s.ring.pending
      && s'.hist.base == s.hist.base && s'.ring.n == s.ring.n
  {
    WriteRing(s, false, ok, mark);
    var s1 := CountersTaken(Taken(s, false));
    DrainAccounts(s, s1.(hist := s1.hist.(told := s1.hist.told + Missing(s.ring))), mark);
    FlushAfterDrain(s, mark);
    DrainedFrame(Taken(s, false), mark);
  }

  /** The last write of a session takes the active buffer, whatever is pending then. */
  lemma WriteActiveAccounts(s: State, ok: bool, mark: Marker)
    requires s.Wf() && s.fd && Accounted(s) && s.ring.flush <= 1
    ensures var h, h' := s.hist, WriteData(s, true, ok, mark).hist;
      && h' == h.(stream := h.stream + s.ring.active)
      && |h'.log| == |h'.stream| + |s.ring.pending| + h'.told
      && h'.log == AllOf(h'.retired) + s.ring.active
      && (s.ring.flush == 0 ==> h'.stream == KeptOf(h'.retired) + s.ring.active)
  {
    WriteRing(s, true, ok, mark);
    assert s.ring.flush == 0 ==> s.hist.stream + [] == s.hist.stream;
  }

  /** When no record is missing, no buffer is. */
  lemma {:induction false} NothingDropped(rs: seq<Retired>)
    requires |KeptOf(rs)| >= |AllOf(rs)|
    ensures KeptOf(rs) == AllOf(rs)
  {
    if rs != [] {
      KeptShorter(rs[..|rs| - 1]);
      NothingDropped(rs[..|rs| - 1]);
    }
  }

  lemma {:induction false} KeptShorter(rs: seq<Retired>)
    ensures |KeptOf(rs)| <= |AllOf(rs)|
  {
    if rs != [] {
      KeptShorter(rs[..|rs| - 1]);
    }
  }
}
