/** An open trace file and the write loop that survives short writes and EINTR. */
module TraceFiles {
  import opened Records
  import opened Sequences

  /**
   A trace file at rest: the two header fields that the drain and the reader use,
   and the bytes after the header.
   */
  datatype Image = Image(wrapPos: nat, nrRecords: nat, data: seq<byte>)

  /** pwrite past the end leaves a hole of zeros; pwrite of nothing changes nothing. */
  function Pwrite(d: seq<byte>, at: nat, p: seq<byte>): seq<byte> {
    if p == [] then d
    else if at <= |d| then Splice(d, at, p)
    else d + Zeros(at - |d|) + p
  }

  /** The bytes written are the buffer's, every byte outside the range keeps its value. */
  lemma PwriteBytes(d: seq<byte>, at: nat, p: seq<byte>)
    requires p != []
    ensures |Pwrite(d, at, p)| == Max(|d|, at + |p|)
    ensures Pwrite(d, at, p)[at..at + |p|] == p
    ensures forall i :: 0 <= i < |d| && !(at <= i < at + |p|) ==> Pwrite(d, at, p)[i] == d[i]
    ensures forall i :: |d| <= i < at ==> Pwrite(d, at, p)[i] == 0
  {
  }

  lemma SpliceInTwo<T>(d: seq<T>, at: nat, p: seq<T>, q: seq<T>)
    requires at <= |d|
    ensures Splice(Splice(d, at, p), at + |p|, q) == Splice(d, at, p + q)
  {
    var s, end := Splice(d, at, p), at + |p| + |q|;
    assert s[..at + |p|] == d[..at] + p;
    if end <= |d| {
      assert s[end..] == d[end..];
    }
    assert d[..at] + p + q == d[..at] + (p + q);
  }

  lemma PwriteInTwo(d: seq<byte>, at: nat, p: seq<byte>, q: seq<byte>)
    ensures Pwrite(Pwrite(d, at, p), at + |p|, q) == Pwrite(d, at, p + q)
  {
    if p == [] {
      assert p + q == q;
    } else if q == [] {
      assert p + q == p;
    } else if at <= |d| {
      SpliceInTwo(d, at, p, q);
    } else {
      assert Splice(d + Zeros(at - |d|) + p, at + |p|, q) == d + Zeros(at - |d|) + (p + q);
    }
  }

  lemma TakeDrop<T>(sent: seq<T>, rest: seq<T>, r: nat)
    requires r <= |rest|
    ensures sent + rest == sent + rest[..r] + rest[r..]
  {
  }

  /** What one pwrite call does; errno is never EINTR in Failed. */
  datatype Outcome = Wrote(n: nat) | Interrupted | Failed(errno: nat)

  type Call = o: Outcome | o.Failed? ==> o.errno > 0 witness Interrupted

  /** Bytes transferred and final errno under a schedule; after it every write is complete. */
  function Served(sched: seq<Call>, count: nat): (r: (nat, nat))
    ensures r.0 <= count
    ensures r.1 == 0 ==> r.0 == count
    ensures (forall o :: o in sched ==> !o.Failed?) ==> r.1 == 0
  {
    if count == 0 then (0, 0)
    else if sched == [] then (count, 0)
    else
      assert sched[0] in sched;
      match sched[0]
      case Interrupted => Served(sched[1..], count)
      case Failed(errno) => (0, errno)
      case Wrote(n) =>
        var (w, e) := Served(sched[1..], count - Min(n, count));
        (Min(n, count) + w, e)
  }

  /** The bytes that the short writes of a schedule could transfer. */
  function Offered(sched: seq<Call>): nat {
    if sched == [] then 0 else Offered(sched[1..]) + if sched[0].Wrote? then sched[0].n else 0
  }

  /**
   Short writes and EINTR, then an error before all bytes are out: the error is reported, and
   the bytes of the short writes have been transferred.
   */
  lemma {:induction false} FailsAfter(pre: seq<Call>, errno: nat, post: seq<Call>, count: nat)
    requires (forall o :: o in pre ==> !o.Failed?) && errno > 0 && Offered(pre) < count
    ensures Served(pre + [Failed(errno)] + post, count) == (Offered(pre), errno)
    decreases pre
  {
    var sched := pre + [Failed(errno)] + post;
    if pre == [] {
      assert sched[0] == Failed(errno);
    } else {
      var rest := pre[1..];
      assert pre[0] in pre && sched[0] == pre[0];
      assert sched[1..] == rest + [Failed(errno)] + post;
      FailsAfter(rest, errno, post, if pre[0].Wrote? then count - pre[0].n else count);
    }
  }

  /** Short writes that offer enough bytes before any error: all are transferred. */
  lemma {:induction false} ServedInFull(pre: seq<Call>, post: seq<Call>, count: nat)
    requires (forall o :: o in pre ==> !o.Failed?) && Offered(pre) >= count
    ensures Served(pre + post, count) == (count, 0)
    decreases pre
  {
    var sched := pre + post;
    if count > 0 && pre != [] {
      var rest := pre[1..];
      assert pre[0] in pre && sched[0] == pre[0];
      assert sched[1..] == rest + post;
      ServedInFull(rest, post, if pre[0].Wrote? then count - Min(pre[0].n, count) else count);
    }
  }

  class TraceFile {
    var wrapPos: nat
    var nrRecords: nat
    var data: seq<byte>

    constructor ()
      ensures Contents() == Image(0, 0, [])
    {
      wrapPos, nrRecords, data := 0, 0, [];
    }

    function Contents(): Image
      reads this
    {
      Image(wrapPos, nrRecords, data)
    }

    /** One pwrite system call on the area after the header. */
    method PwriteCall(buf: seq<byte>, at: nat, o: Call) returns (r: int)
      modifies this`data
      ensures o.Wrote? ==> r == Min(o.n, |buf|) && data == Pwrite(old(data), at, buf[..r])
      ensures !o.Wrote? ==> r == -1 && data == old(data)
    {
      if o.Wrote? {
        r := Min(o.n, |buf|);
        data := Pwrite(data, at, buf[..r]);
      } else {
        r := -1;
      }
    }

    /** safe_pwrite: 0 when the whole buffer is in the file, else minus the errno. */
    method SafePwrite(buf: seq<byte>, at: nat, sched: seq<Call>) returns (rc: int)
      modifies this`data
      ensures rc == 0 - Served(sched, |buf|).1
      ensures data == Pwrite(old(data), at, buf[..Served(sched, |buf|).0])
    {
      var count, rest, offset, calls := |buf|, buf, at, sched;
      ghost var d, sent: seq<byte>, total := data, [], Served(sched, |buf|);
      while count > 0
        invariant count == |rest| && buf == sent + rest && offset == at + |sent|
        invariant data == Pwrite(d, at, sent)
        invariant total.0 == |sent| + Served(calls, count).0
        invariant total.1 == Served(calls, count).1
        decreases |calls|, count
      {
        var o: Call := if calls == [] then Wrote(count) else calls[0];
        calls := if calls == [] then [] else calls[1..];
        var r := PwriteCall(rest, offset, o);
        if r < 0 {
          if o.Interrupted? {
            continue;
          }
          return 0 - o.errno;
        }
        PwriteInTwo(d, at, sent, rest[..r]);
        TakeDrop(sent, rest, r);
        sent := sent + rest[..r];
        count := count - r;
        rest := rest[r..];
        offset := offset + r;
      }
      return 0;
    }
  }
}
