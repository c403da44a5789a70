/** The daemon's state, changed in place: the open file, the flags and the shared ring. */
module Backing {
  import opened Records
  import opened TraceFiles
  import opened Ring
  import T = Tracer

  /** An array of records with a stretch of it cleared. */
  function ClearedRange(es: seq<Record>, first: nat, count: nat): seq<Record>
    requires first + count <= |es|
  {
    es[..first] + T.Zeroed(es[first..first + count]) + es[first + count..]
  }

  /** memset on one of the two buffers is seen as zero records in it. */
  lemma ViewCleared(n: nat, es: seq<Record>, cir: nat, alt: nat, slot: int, flush: nat, lost: nat)
    requires n >= 2 && -1 <= slot < n && cir + n <= |es| && alt + n <= |es|
    requires cir + n <= alt || alt + n <= cir
    ensures var r := View(n, es, cir, alt, slot, flush, lost);
      View(n, ClearedRange(es, cir, slot + 1), cir, alt, slot, flush, lost)
      == r.(active := T.Zeroed(r.active))
    ensures var r := View(n, es, cir, alt, slot, flush, lost);
      flush > 0 ==> View(n, ClearedRange(es, alt, n), cir, alt, slot, flush, lost)
                    == r.(pending := T.Zeroed(r.pending))
  {
    var a, p := ClearedRange(es, cir, slot + 1), ClearedRange(es, alt, n);
    assert a[cir..cir + slot + 1] == T.Zeroed(es[cir..cir + slot + 1]);
    assert a[alt..alt + n] == es[alt..alt + n];
    assert p[alt..alt + n] == T.Zeroed(es[alt..alt + n]);
    assert p[cir..cir + slot + 1] == es[cir..cir + slot + 1];
  }

  /** An RBT_LOST record: the count in its first argument. */
  function LostNote(count: nat, st: Stamp): Record {
    Encode(Entry(Payload(1, count % TWO64, 0, 0, 0), st))
  }

  lemma DrainCases(s: T.State, mark: Marker)
    requires s.Wf()
    ensures T.Drained(s, mark) ==
      if s.ring.flush > 1 || s.ring.lost > 0 then T.Told(T.CountersTaken(s), T.Missing(s.ring), mark)
      else T.CountersTaken(s)
  {
  }

  class Daemon {
    const ring: SharedRing
    var flags: T.Flags
    var limit: nat
    var fd: TraceFile?
    var seek: nat
    var wrapPos: nat
    var path: string
    var closedFiles: seq<Image>
    var crashed: bool
    ghost var hist: T.History

    ghost predicate Valid()
      reads this, ring
    {
      ring.Quiet() && (fd != null ==> seek >= H && (wrapPos == 0 || wrapPos >= H))
    }

    ghost function Abs(): (s: T.State)
      requires Valid()
      reads this, ring, ring.entries, fd
      ensures s.Wf()
    {
      T.State(ring.Abs(), flags, limit, fd != null, seek, wrapPos, path,
              closedFiles + (if fd == null then [] else [fd.Contents()]), crashed, hist)
    }

    constructor (size: nat)
      requires size >= 2
      ensures Valid() && fresh(ring) && fresh(ring.entries) && fd == null
      ensures Abs() == T.Init(size)
    {
      ring := new SharedRing(size, 0);
      flags := T.Flags(false, false, false, false, false, false);
      limit, fd, seek, wrapPos, path := 0x8000_0000, null, 0, 0, "";
      closedFiles, crashed := [], false;
      hist := T.History([], [], [], 0, 0);
    }

    /** A producer's call of rbtrace. */
    method Trace(p: Payload, st: Stamp, lst: Stamp) returns (rc: int)
      requires Valid()
      modifies this`hist, ring, ring.entries
      ensures Valid() && rc == 0
      ensures ring.Newest(Encode(Entry(p, st)))
      ensures Abs() == T.Trace(old(Abs()), Encode(Entry(p, st)), LostMarker(lst))
    {
      ghost var before := ring.Abs();
      rc := ring.Rbtrace(p, st, lst);
      hist := T.Logged(hist, before, Encode(Entry(p, st)), LostMarker(lst));
    }

    method CloseFile()
      requires Valid() && fd != null
      modifies this`closedFiles, this`fd
      ensures Valid() && Abs() == old(Abs()).(fd := false)
      ensures fd == null
    {
      closedFiles := closedFiles + [fd.Contents()];
      fd := null;
    }

    method WriteHeader(ok: bool)
      requires Valid()
      modifies this
      ensures Valid() && Abs() == T.WriteHeader(old(Abs()), ok)
      ensures old(fd) == null && ok ==>
        && fd != null && fd.Contents() == Image(0, ring.n, []) && seek == 512 && wrapPos == 0
        && flags == old(flags).(open := false, disk := true)
      ensures old(fd) != null || !ok ==> fd == null && seek == 0 && flags == old(flags).(open := false)
      ensures fd == null || fresh(fd)
    {
      if fd != null || !ok {
        // already open, or open(2) failed
        flags := flags.(open := false);
        if fd != null {
          CloseFile();
        }
        seek := 0;
        return;
      }
      fd := new TraceFile();
      fd.nrRecords := ring.n;
      wrapPos := 0;
      seek := H;
      flags := flags.(disk := true);
      flags := flags.(open := false);
    }

    /** One of the two buffers goes to the file, at wrap_pos once the file has wrapped. */
    method PutBuffer(buf: seq<byte>, sched: seq<Call>) returns (updateHdr: bool)
      requires Valid() && fd != null
      requires forall o :: o in sched ==> !o.Failed?
      modifies this`seek, this`wrapPos, fd`data
      ensures Valid() && Abs() == T.Written(old(Abs()), buf)
      ensures updateHdr == T.Wrapping(old(Abs()))
    {
      updateHdr := false;
      if wrapPos != 0 && flags.wrap {
        seek := wrapPos;
        wrapPos := wrapPos + |buf|;
        updateHdr := true;
      }
      var ret := fd.SafePwrite(buf, seek - H, sched);
      assert buf[..|buf|] == buf;
      seek := seek + |buf|;
      assert Abs().files == T.Written(old(Abs()), buf).files;
    }

    /** Entry i belongs to the buffer that a write takes. */
    ghost predicate Written(doFlush: bool, i: int)
      reads this, ring
    {
      if doFlush then ring.cirOff <= i <= ring.cirOff + ring.slot
      else ring.altOff <= i < ring.altOff + ring.n
    }

    /** memset on the shared entries. */
    method ClearEntries(first: nat, count: nat)
      requires first + count <= ring.entries.Length
      modifies ring.entries
      ensures ring.entries[..] == ClearedRange(old(ring.entries[..]), first, count)
      ensures forall i :: 0 <= i < ring.entries.Length ==>
        ring.entries[i] == if first <= i < first + count then ZERO else old(ring.entries[i])
    {
      forall i | first <= i < first + count {
        ring.entries[i] := ZERO;
      }
    }

    /** The buffer just written is cleared. */
    method ClearBuffer(doFlush: bool)
      requires Valid() && (doFlush || ring.flush > 0)
      modifies ring.entries
      ensures Valid() && ring.Abs() == T.Emptied(old(ring.Abs()), doFlush)
      ensures forall i :: 0 <= i < ring.entries.Length ==>
        ring.entries[i] == if Written(doFlush, i) then ZERO else old(ring.entries[i])
    {
      ViewCleared(ring.n, ring.entries[..], ring.cirOff, ring.altOff, ring.slot, ring.flush, ring.lost);
      var first := if doFlush then ring.cirOff else ring.altOff;
      var count := if doFlush then ring.slot + 1 else ring.n;
      assert forall i :: Written(doFlush, i) <==> first <= i < first + count;
      ClearEntries(first, count);
    }

    method TakeBuffer(doFlush: bool)
      requires Valid() && (doFlush || ring.flush > 0)
      modifies this`hist, ring.entries
      ensures Valid() && Abs() == T.Taken(old(Abs()), doFlush)
      ensures forall i :: 0 <= i < ring.entries.Length ==>
        ring.entries[i] == if Written(doFlush, i) then ZERO else old(ring.entries[i])
    {
      hist := hist.(stream := hist.stream + T.Buffer(Abs(), doFlush));
      ClearBuffer(doFlush);
    }

    method WriteBuffer(doFlush: bool, sched: seq<Call>) returns (updateHdr: bool)
      requires Valid() && fd != null && (doFlush || ring.flush > 0)
      requires forall o :: o in sched ==> !o.Failed?
      modifies this`seek, this`wrapPos, this`hist, fd`data, ring.entries
      ensures Valid()
      ensures var s := old(Abs());
        Abs() == T.Taken(T.Written(s, Flatten(T.Buffer(s, doFlush))), doFlush)
      ensures updateHdr == T.Wrapping(old(Abs()))
      ensures forall i :: 0 <= i < ring.entries.Length ==>
        ring.entries[i] == if Written(doFlush, i) then ZERO else old(ring.entries[i])
    {
      var buf := if doFlush then ring.entries[ring.cirOff..ring.cirOff + ring.slot + 1]
                 else ring.entries[ring.altOff..ring.altOff + ring.n];
      assert buf == T.Buffer(Abs(), doFlush);
      updateHdr := PutBuffer(Flatten(buf), sched);
      TakeBuffer(doFlush);
    }

    /** Close or wrap the file if the limit is reached. */
    method ReachedLimit(ok: bool) returns (updateHdr: bool)
      requires Valid() && fd != null
      modifies this
      ensures Valid() && Abs() == T.LimitReached(old(Abs()), ok)
      ensures fd == null || fd == old(fd) || fresh(fd)
      ensures updateHdr == (!old(flags).close && old(flags).wrap)
      ensures updateHdr ==> fd != null
    {
      updateHdr := false;
      if flags.close {
        // the flush is done in ThreadIteration
      } else if flags.wrap {
        wrapPos := H;
        updateHdr := true;
      } else if flags.zap {
        CloseFile();
        WriteHeader(ok);
      } else {
        CloseFile();
        flags := flags.(disk := false);
      }
    }

    /** The header field on disk is brought up to date. */
    method UpdateHeader()
      requires Valid()
      modifies fd
      ensures Valid() && Abs() == T.HeaderUpdated(old(Abs()))
    {
      if fd != null {
        fd.wrapPos := wrapPos;
      }
    }

    /** What rbtrace_write_data does after the write. */
    method Settle(wrapping: bool, ok: bool)
      requires Valid() && fd != null
      modifies this, fd
      ensures Valid() && Abs() == T.Settled(old(Abs()), wrapping, ok)
      ensures fd == null || fd == old(fd) || fresh(fd)
    {
      var updateHdr := wrapping;
      if seek >= limit {
        var moved := ReachedLimit(ok);
        updateHdr := updateHdr || moved;
      }
      if updateHdr {
        UpdateHeader();
      }
    }

    /** Both counters are exchanged with zero; tell: some record is missing. */
    method TakeCounters() returns (lost: nat, tell: bool)
      requires Valid()
      modifies ring`lost, ring`flush
      ensures Valid() && lost == T.Missing(old(ring.Abs())) && ring.lost == 0 && ring.flush == 0
      ensures lost == old(ring.lost) + if old(ring.flush) > 1 then (old(ring.flush) - 1) * ring.n else 0
      ensures tell == (old(ring.flush) > 1 || old(ring.lost) > 0)
      ensures Abs() == T.CountersTaken(old(Abs()))
    {
      lost := ring.lost;
      ring.lost := 0;
      var flush := ring.flush;
      ring.flush := 0;
      tell := flush > 1 || lost > 0;
      if flush > 1 {
        lost := lost + (flush - 1) * ring.n;
      }
    }

    method TellLost(lost: nat, st: Stamp)
      requires Valid()
      modifies this`hist, ring, ring.entries
      ensures Valid() && Abs() == T.Told(old(Abs()), lost, LostMarker(st))
      ensures ring.Newest(LostNote(lost, st))
    {
      hist := hist.(told := hist.told + lost);
      var rc := Trace(LostPayload(lost), st, st);
    }

    /** The counters are taken, and a record tells of what was lost. */
    method DrainCounters(st: Stamp)
      requires Valid()
      modifies this`hist, ring, ring.entries
      ensures Valid() && Abs() == T.Drained(old(Abs()), LostMarker(st))
      ensures old(ring.flush) > 1 || old(ring.lost) > 0 ==>
        ring.Newest(LostNote(
          old(ring.lost) + (if old(ring.flush) > 1 then (old(ring.flush) - 1) * ring.n else 0), st))
      ensures old(ring.flush) <= 1 && old(ring.lost) == 0 ==>
        ring.entries[..] == old(ring.entries[..]) && ring.slot == old(ring.slot)
    {
      ghost var s := Abs();
      var lost, tell := TakeCounters();
      if tell {
        TellLost(lost, st);
        assert Abs() == T.Told(T.CountersTaken(s), T.Missing(s.ring), LostMarker(st));
      }
      DrainCases(s, LostMarker(st));
    }

    method WriteData(doFlush: bool, ok: bool, st: Stamp, sched: seq<Call>)
      requires Valid() && (doFlush || ring.flush > 0)
      requires forall o :: o in sched ==> !o.Failed?
      modifies this, fd, ring, ring.entries
      ensures Valid() && Abs() == T.WriteData(old(Abs()), doFlush, ok, LostMarker(st))
      ensures fd == null || fd == old(fd) || fresh(fd)
    {
      if fd == null {
        // the original jumps to a use of ri, which is still null
        crashed := true;
        return;
      }
      var wrapping := WriteBuffer(doFlush, sched);
      Settle(wrapping, ok);
      DrainCounters(st);
    }

    method FlushPending(ok: bool, st: Stamp, st2: Stamp, sched: seq<Call>)
      requires Valid()
      requires forall o :: o in sched ==> !o.Failed?
      modifies this, fd, ring, ring.entries
      ensures Valid() && Abs() == T.FlushPending(old(Abs()), T.Turn(ok, LostMarker(st), LostMarker(st2)))
      ensures fd == null || fd == old(fd) || fresh(fd)
    {
      if ring.flush > 0 {
        WriteData(false, ok, st, sched);
      }
    }

    /** The active buffer, if all records are to be flushed. */
    method FlushActive(ok: bool, st: Stamp, st2: Stamp, sched: seq<Call>)
      requires Valid()
      requires forall o :: o in sched ==> !o.Failed?
      modifies this, fd, ring, ring.entries
      ensures Valid() && Abs() == T.FlushActive(old(Abs()), T.Turn(ok, LostMarker(st), LostMarker(st2)))
      ensures fd == null || fd == old(fd) || fresh(fd)
    {
      if flags.flush && !crashed {
        WriteData(true, ok, st2, sched);
        if !crashed {
          flags := flags.(flush := false);
        }
      }
    }

    method EndFile()
      requires Valid()
      modifies this
      ensures Valid() && Abs() == T.FileClosed(old(Abs()))
      ensures !old(crashed) ==>
        && fd == null && seek == 0 && flags == old(flags).(close := false)
        && path == if old(fd) != null then "" else old(path)
    {
      if crashed {
        return;
      }
      if fd != null {
        CloseFile();
        path := "";
      }
      flags := flags.(close := false);
      seek := 0;
    }

    /** One turn of the daemon's loop. */
    method ThreadIteration(ok: bool, st: Stamp, st2: Stamp, sched: seq<Call>, sched2: seq<Call>)
      requires Valid()
      requires forall o :: o in sched + sched2 ==> !o.Failed?
      modifies this, fd, ring, ring.entries
      ensures Valid()
      ensures Abs() == T.Iterate(old(Abs()), T.Turn(ok, LostMarker(st), LostMarker(st2)))
    {
      if crashed {
        return;
      }
      if flags.close {
        FlushPending(ok, st, st2, sched);
        FlushActive(ok, st, st2, sched2);
        EndFile();
      } else if flags.open {
        WriteHeader(ok);
      } else if flags.disk {
        FlushPending(ok, st, st2, sched);
        FlushActive(ok, st, st2, sched2);
      }
    }

    method CtrlOpen(newPath: string) returns (rc: int)
      requires Valid()
      modifies this, ring
      ensures Valid() && (Abs(), rc) == T.CtrlOpen(old(Abs()), newPath)
      ensures rc == 0 <==> !old(flags).open && !old(flags).disk && |newPath| < 1024
      ensures rc == 0 ==>
        && path == newPath && flags == old(flags).(open := true)
        && ring.slot == -1 && ring.flush == 0 && ring.lost == 0
      ensures rc != 0 ==> rc == -1 && Abs() == old(Abs())
    {
      if flags.open || flags.disk || |newPath| >= T.MAX_PATH {
        return -1;
      }
      path := newPath;
      ring.slot, ring.flush, ring.lost := -1, 0, 0;
      flags := flags.(open := true);
      hist := T.History([], [], [], 0, |Abs().files|);
      return 0;
    }

    method CtrlClose() returns (rc: int)
      requires Valid()
      modifies this`flags
      ensures Valid() && (Abs(), rc) == T.CtrlClose(old(Abs()))
      ensures rc == if old(flags).disk then 0 else -1
      ensures rc == 0 ==> flags == old(flags).(disk := false, flush := true, close := true)
      ensures rc != 0 ==> flags == old(flags)
    {
      rc := -1;
      if flags.disk {
        flags := flags.(disk := false);
        flags := flags.(flush := true, close := true);
        rc := 0;
      }
    }

    method CtrlSize(size: nat) returns (rc: int)
      requires Valid()
      modifies this`limit
      ensures Valid() && Abs() == old(Abs()).(limit := size) && rc == 0
    {
      limit := size;
      rc := 0;
    }

    method CtrlWrap(enable: bool) returns (rc: int)
      requires Valid()
      modifies this`flags
      ensures Valid() && (Abs(), rc) == T.CtrlWrap(old(Abs()), enable)
      ensures rc == if old(flags).zap then -1 else 0
      ensures flags == if rc == 0 then old(flags).(wrap := enable) else old(flags)
    {
      rc := -1;
      if !flags.zap {
        flags := if enable then flags.(wrap := true) else flags.(wrap := false);
        rc := 0;
      }
    }

    method CtrlZap(enable: bool) returns (rc: int)
      requires Valid()
      modifies this`flags
      ensures Valid() && (Abs(), rc) == T.CtrlZap(old(Abs()), enable)
      ensures rc == if old(flags).wrap then -1 else 0
      ensures flags == if rc == 0 then old(flags).(zap := enable) else old(flags)
    {
      rc := -1;
      if !flags.wrap {
        flags := if enable then flags.(zap := true) else flags.(zap := false);
        rc := 0;
      }
    }
  }
}
