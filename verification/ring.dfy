/**
 The double-buffered ring in shared memory. Calls of rbtrace are atomic here; the steps
 inside a call are interleaved in module Interleaving.
 */
module Ring {
  import opened Records

  /**
   The ring as its users see it: the records of the active buffer, the records of the
   buffer that waits to be flushed, the flush counter and the loss counter.
   */
  datatype RingState = RingState(n: nat, active: seq<Record>, pending: seq<Record>, flush: nat, lost: nat)
  {
    predicate Wf() {
      && n >= 2
      && |active| <= n
      && |pending| == if flush > 0 then n else 0
    }
  }

  /** The record that tells of a number of lost ones, as made at a given moment. */
  type Marker = nat -> Record

  function LostMarker(st: Stamp): Marker {
    (count: nat) => Encode(Entry(LostPayload(count), st))
  }

  /** The ring after one uninterrupted rbtrace call that records r. */
  function Emit(s: RingState, r: Record, mark: Marker): (s': RingState)
    requires s.Wf()
    ensures s'.Wf() && s'.n == s.n && s'.active != []
  {
    if |s.active| < s.n then s.(active := s.active + [r])
    else if s.flush == 0 then
      RingState(s.n, (if s.lost > 0 then [mark(s.lost)] else []) + [r], s.active, 1, 0)
    else s.(active := [r], flush := s.flush + 1)
  }

  /** The ring that given fields and a given array of entries represent. */
  function View(n: nat, es: seq<Record>, cir: nat, alt: nat, slot: int, flush: nat, lost: nat): (s: RingState)
    requires n >= 2 && -1 <= slot < n && cir + n <= |es| && alt + n <= |es|
    ensures s.Wf()
  {
    RingState(n, es[cir..cir + slot + 1], if flush > 0 then es[alt..alt + n] else [], flush, lost)
  }

  lemma ViewFast(n: nat, es: seq<Record>, cir: nat, alt: nat, slot: int,
                                    flush: nat, lost: nat, r: Record, mark: Marker)
    requires n >= 2 && -1 <= slot < n - 1 && cir + n <= |es| && alt + n <= |es|
    requires cir + n <= alt || alt + n <= cir
    ensures View(n, es[cir + slot + 1 := r], cir, alt, slot + 1, flush, lost)
         == Emit(View(n, es, cir, alt, slot, flush, lost), r, mark)
  {
    var es' := es[cir + slot + 1 := r];
    assert es'[alt..alt + n] == es[alt..alt + n];
    assert es'[cir..cir + slot + 2] == es[cir..cir + slot + 1] + [r];
  }

  lemma ViewSwap(n: nat, es: seq<Record>, cir: nat, alt: nat,
                                    lost: nat, r: Record, mark: Marker)
    requires n >= 2 && cir + n <= |es| && alt + n <= |es|
    requires cir + n <= alt || alt + n <= cir
    ensures lost == 0 ==> View(n, es[alt := r], alt, cir, 0, 1, 0)
                          == Emit(View(n, es, cir, alt, n - 1, 0, 0), r, mark)
    ensures lost > 0 ==> View(n, es[alt := mark(lost)][alt + 1 := r], alt, cir, 1, 1, 0)
                         == Emit(View(n, es, cir, alt, n - 1, 0, lost), r, mark)
  {
    var one, two := es[alt := r], es[alt := mark(lost)][alt + 1 := r];
    assert one[cir..cir + n] == two[cir..cir + n] == es[cir..cir + n];
    assert one[alt..alt + 1] == [r];
    assert two[alt..alt + 2] == [mark(lost), r];
  }

  lemma ViewDiscard(n: nat, es: seq<Record>, cir: nat, alt: nat,
                                       flush: nat, lost: nat, r: Record, mark: Marker)
    requires n >= 2 && flush > 0 && cir + n <= |es| && alt + n <= |es|
    requires cir + n <= alt || alt + n <= cir
    ensures View(n, es[cir := r], cir, alt, 0, flush + 1, lost)
         == Emit(View(n, es, cir, alt, n - 1, flush, lost), r, mark)
  {
    assert es[cir := r][alt..alt + n] == es[alt..alt + n];
    assert es[cir := r][cir..cir + 1] == [r];
  }

  /** ri_cir_off, ri_alt_off, ri_slot, ri_flush and ri_lost after one uninterrupted call. */
  function Moved(n: nat, cir: nat, alt: nat, slot: int, flush: nat, lost: nat): (nat, nat, int, nat, nat) {
    if slot + 1 < n then (cir, alt, slot + 1, flush, lost)
    else if slot >= n then (cir, alt, slot + 2, flush, lost + 1)
    else if flush > 0 then (cir, alt, 0, flush + 1, lost)
    else if lost == 0 then (alt, cir, 0, 1, 0)
    else if n >= 2 then (alt, cir, 1, 1, 0)
    else (alt, cir, -1, 1, 1)
  }

  /** The entries when the slot has been found: a swap tells of the losses in slot 0. */
  function Noted(n: nat, was: seq<Record>, alt: nat, slot: int, flush: nat, lost: nat, mark: Marker): seq<Record>
    requires alt < |was|
  {
    if slot + 1 == n && flush == 0 && lost > 0 then was[alt := mark(lost)] else was
  }

  /** Whether the call finds no slot. */
  predicate Misses(n: nat, slot: int, flush: nat, lost: nat) {
    slot >= n || (n == 1 && slot == 0 && flush == 0 && lost > 0)
  }

  /** One call on the concrete fields and the entries, when it finds a slot. */
  ghost predicate Traced(n: nat, was: seq<Record>, cir: nat, alt: nat, slot: int, flush: nat, lost: nat,
                         now: seq<Record>, cir': nat, alt': nat, slot': int, flush': nat, lost': nat,
                         r: Record, mark: Marker)
    requires n >= 2 && -1 <= slot < n && cir + n <= |was| && alt + n <= |was|
  {
    && (cir', alt', slot', flush', lost') == Moved(n, cir, alt, slot, flush, lost)
    && now == Noted(n, was, alt, slot, flush, lost, mark)[cir' + slot' := r]
  }

  lemma TracedIsEmit(
      n: nat, was: seq<Record>, cir: nat, alt: nat, slot: int, flush: nat, lost: nat,
      now: seq<Record>, cir': nat, alt': nat, slot': int, flush': nat, lost': nat,
      r: Record, mark: Marker)
    requires n >= 2 && -1 <= slot < n && cir + n <= |was| && alt + n <= |was|
    requires cir + n <= alt || alt + n <= cir
    requires Traced(n, was, cir, alt, slot, flush, lost, now, cir', alt', slot', flush', lost', r, mark)
    ensures -1 <= slot' < n && |now| == |was| && cir' + n <= |was| && alt' + n <= |was|
    ensures View(n, now, cir', alt', slot', flush', lost')
         == Emit(View(n, was, cir, alt, slot, flush, lost), r, mark)
  {
    if slot + 1 < n {
      assert now == was[cir + slot + 1 := r];
      ViewFast(n, was, cir, alt, slot, flush, lost, r, mark);
    } else if flush > 0 {
      assert now == was[cir := r];
      ViewDiscard(n, was, cir, alt, flush, lost, r, mark);
    } else {
      assert now == if lost > 0 then was[alt := mark(lost)][alt + 1 := r] else was[alt := r];
      ViewSwap(n, was, cir, alt, lost, r, mark);
    }
  }

  /** struct ring_info with the two buffers of a ring in the shared array of entries. */
  class SharedRing {
    const n: nat
    const base: nat
    const entries: array<Record>
    var slot: int
    var flush: nat
    var lost: nat
    var cirOff: nat
    var altOff: nat

    /** Any state that atomic steps can leave behind. */
    ghost predicate Valid()
      reads this
    {
      && n >= 1 && slot >= -1
      && base + 2 * n <= entries.Length
      && ((cirOff == base && altOff == base + n) || (cirOff == base + n && altOff == base))
    }

    /** Between two uninterrupted calls. */
    ghost predicate Quiet()
      reads this
    {
      Valid() && n >= 2 && slot < n
    }

    /** The slot last handed out holds r. */
    ghost predicate Newest(r: Record)
      requires Quiet()
      reads this, entries
    {
      slot >= 0 && entries[cirOff + slot] == r
    }

    ghost function Abs(): (s: RingState)
      requires Quiet()
      reads this, entries
      ensures s.Wf()
    {
      View(n, entries[..], cirOff, altOff, slot, flush, lost)
    }

    /** rbtrace_init_trace_info for one ring, in memory that has been cleared. */
    constructor (size: nat, offset: nat)
      requires size >= 2
      ensures Quiet() && fresh(entries) && n == size && base == offset
      ensures Abs() == RingState(size, [ZERO], [], 0, 0)
      ensures cirOff == offset && altOff == offset + size
    {
      n, base := size, offset;
      entries := new Record[offset + 2 * size](_ => ZERO);
      slot, flush, lost := 0, 0, 0;
      cirOff, altOff := offset, offset + size;
      new;
      assert entries[..][offset..offset + 1] == [ZERO];
    }

    /** Records nothing when it returns -1. */
    method Rbtrace(p: Payload, st: Stamp, lst: Stamp) returns (rc: int)
      requires Valid()
      modifies this, entries
      ensures Valid()
      ensures (cirOff, altOff, slot, flush, lost)
           == Moved(n, old(cirOff), old(altOff), old(slot), old(flush), old(lost))
      // the record, and the note of losses in slot 0 of a buffer just swapped in
      ensures rc == 0 ==>
        0 <= slot < n && entries[cirOff + slot] == Encode(Entry(p, st))
      ensures n >= 2 && old(slot) + 1 == n && old(flush) == 0 && old(lost) > 0 ==>
        cirOff == old(altOff)
        && entries[cirOff] == Encode(Entry(Payload(1, old(lost) % TWO64, 0, 0, 0), lst))
      // the fast path
      ensures old(slot) + 1 < n ==>
        rc == 0 && entries[..] == old(entries[..])[cirOff + slot := Encode(Entry(p, st))]
      // a slot that is already past the end: the retry draws an even later ticket
      ensures old(slot) >= n ==> rc == -1 && entries[..] == old(entries[..])
      ensures old(Quiet()) ==> rc == 0 && Quiet() && Newest(Encode(Entry(p, st)))
      ensures old(Quiet()) ==> Abs() == Emit(old(Abs()), Encode(Entry(p, st)), LostMarker(lst))
      decreases if slot == n - 1 then 1 else 0, 3
    {
      ghost var was, s, fl, lo := entries[..], slot, flush, lost;
      ghost var r, mark := Encode(Entry(p, st)), LostMarker(lst);
      ghost var cir, alt := cirOff, altOff;
      var i := Ringwrap(lst);
      if i == -1 {
        return -1;
      }
      ghost var mid := entries[..];
      entries[i] := Encode(Entry(p, st));
      assert entries[..] == mid[i := r];
      if n >= 2 && s < n {
        TracedIsEmit(n, was, cir, alt, s, fl, lo, entries[..], cirOff, altOff, slot, flush, lost, r, mark);
      }
      return 0;
    }

    /** The index of the slot claimed, or -1. */
    method Ringwrap(lst: Stamp) returns (i: int)
      requires Valid()
      modifies this, entries
      ensures Valid()
      ensures (cirOff, altOff, slot, flush, lost)
           == Moved(n, old(cirOff), old(altOff), old(slot), old(flush), old(lost))
      ensures entries[..]
           == Noted(n, old(entries[..]), old(altOff), old(slot), old(flush), old(lost), LostMarker(lst))
      ensures if Misses(n, old(slot), old(flush), old(lost)) then i == -1
              else 0 <= slot < n && i == cirOff + slot
      decreases if slot == n - 1 then 1 else 0, 2
    {
      slot := slot + 1;
      if slot < n {
        return cirOff + slot;
      }
      i := RingwrapSlot(slot, lst);
    }

    /** Ticket n: the buffers are swapped and the losses told, or the active one is discarded. */
    method SwapOrDiscard(lst: Stamp)
      requires Valid() && slot == n
      modifies this, entries
      ensures Valid() && flush == old(flush) + 1
      ensures old(flush) == 0 ==>
        && cirOff == old(altOff) && altOff == old(cirOff) && lost == 0
        && slot == (if old(lost) > 0 then 0 else -1)
      ensures old(flush) > 0 ==>
        cirOff == old(cirOff) && altOff == old(altOff) && lost == old(lost) && slot == -1
      ensures entries[..]
           == Noted(n, old(entries[..]), old(altOff), n - 1, old(flush), old(lost), LostMarker(lst))
      ensures old(flush) == 0 && old(lost) > 0 ==>
        entries[cirOff] == Encode(Entry(Payload(1, old(lost) % TWO64, 0, 0, 0), lst))
      decreases 1, 0
    {
      flush := flush + 1;
      if flush == 1 {
        cirOff, altOff := altOff, cirOff;
        slot := -1;
        var told := lost;
        lost := 0;
        if told > 0 {
          var rc := Rbtrace(LostPayload(told), lst, lst);
        }
      } else {
        slot := -1;
      }
    }

    /** A ticket past the end: n swaps or discards, a later one draws again and is lost. */
    method RingwrapSlot(ticket: int, lst: Stamp) returns (i: int)
      requires Valid() && ticket == slot >= n
      modifies this, entries
      ensures Valid()
      ensures (cirOff, altOff, slot, flush, lost)
           == Moved(n, old(cirOff), old(altOff), ticket - 1, old(flush), old(lost))
      ensures entries[..]
           == Noted(n, old(entries[..]), old(altOff), ticket - 1, old(flush), old(lost), LostMarker(lst))
      ensures if Misses(n, ticket - 1, old(flush), old(lost)) then i == -1
              else 0 <= slot < n && i == cirOff + slot
      decreases if ticket == n then 1 else 0, 1
    {
      if ticket == n {
        SwapOrDiscard(lst);
        slot := slot + 1;
        if slot < n {
          return cirOff + slot;
        }
        slot := -1;
        lost := lost + 1;
        return -1;
      } else {
        var cnt := 1024;
        while slot > n && cnt > 1 {
          cnt := cnt - 1;
        }
        // nobody else resets the slot during an uninterrupted call
        slot := slot + 1;
        lost := lost + 1;
        return -1;
      }
    }
  }
}
