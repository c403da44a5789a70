/** The data area of one trace file as the writer changes it, with the bytes it has received. */
module BoundedLog {
  import opened Records
  import opened Sequences
  import opened TraceFiles
  import opened Reader

  /**
   The data area d with header field w, after the bytes all were written in pages: the file
   holds the latest |d| bytes, the oldest of them at w once the file has wrapped.
   */
  ghost predicate Bounded(all: seq<byte>, d: seq<byte>, w: nat, cap: nat, page: nat) {
    && page > 0 && Multiple(cap, page) && |d| <= cap && |d| <= |all|
    && (w == 0 ==> Multiple(|d|, page) && d == Last(all, |d|))
    && (w != 0 ==> w >= H && w - H <= |d| == cap && Multiple(w - H, page)
                   && Rot(d, w - H) == Last(all, cap))
  }

  /** Where the next write goes, relative to the data area. */
  function Position(d: seq<byte>, w: nat): nat {
    if w == 0 then |d| else if w < H then 0 else w - H
  }

  lemma WritePage(all: seq<byte>, d: seq<byte>, w: nat, cap: nat, page: nat, b: seq<byte>)
    requires Bounded(all, d, w, cap, page) && Position(d, w) < cap && |b| == page
    ensures Position(d, w) + page <= cap
    ensures Bounded(all + b, Splice(d, Position(d, w), b), if w == 0 then 0 else w + page, cap, page)
  {
    NextMultiple(Position(d, w), cap, page);
    if w == 0 {
      AppendNewest(all, d, b);
    } else {
      OverwriteOldest(all, d, w - H, b);
    }
  }

  /** At the limit the next write starts over at the head, where the oldest page is. */
  lemma StartOver(all: seq<byte>, d: seq<byte>, w: nat, cap: nat, page: nat)
    requires Bounded(all, d, w, cap, page) && Position(d, w) == cap
    ensures Bounded(all, d, H, cap, page)
  {
    RotEnds(d);
  }

  lemma {:induction false} CapacityLeast(room: int, page: nat, x: nat)
    requires page > 0 && Multiple(x, page) && x > 0 && x >= room
    ensures x >= Capacity(room, page)
    decreases x
  {
    if room > page {
      CapacityLeast(room - page, page, x - page);
    }
  }

  /** Bytes that are the latest of all the records written are the latest records. */
  lemma {:induction false} LatestRecords(rs: seq<Record>, b: seq<byte>, k: nat)
    requires |b| == k * E && |b| <= |Flatten(rs)| && b == Last(Flatten(rs), |b|)
    ensures k <= |rs| && |b| % E == 0 && Chop(b) == Last(rs, k)
  {
    FlattenLast(rs, k);
    ChopFlatten(rs[|rs| - k..]);
  }

  /** While the log is kept in whole pages the reader prints its latest records, all in order. */
  lemma {:induction false} ReadBounded(rs: seq<Record>, img: Image, cap: nat)
    requires img.nrRecords > 0
    requires Bounded(Flatten(rs), img.data, img.wrapPos, cap, img.nrRecords * E)
    ensures Readable(img) && |img.data| / E <= |rs|
    ensures Parsed(img) == Last(rs, |img.data| / E)
  {
    var page := img.nrRecords * E;
    WholeRecords(|img.data|, img.nrRecords);
    if img.wrapPos != 0 {
      WholeRecords(img.wrapPos - H, img.nrRecords);
    }
    RotEnds(img.data);
    EachRecordOnce(img);
    LatestRecords(rs, Unwrapped(img), |img.data| / E);
  }

  lemma {:induction false} WholeRecords(x: nat, n: nat)
    requires n > 0 && Multiple(x, n * E)
    ensures x % E == 0
    decreases x
  {
    if x > 0 {
      WholeRecords(x - n * E, n);
    }
  }

  // ---------- the last, partial write ----------

  /** A wrapped file after a last write of m bytes at position at, which became its header's. */
  ghost predicate Ended(all: seq<byte>, d: seq<byte>, at: nat, m: nat, cap: nat, page: nat) {
    && page > 0 && Multiple(cap, page) && Multiple(at, page) && at <= cap && m <= page
    && (at < cap ==> at + m <= |d| == cap <= |all| && Rot(d, at + m) == Last(all, cap))
    && (at == cap ==> |d| == cap + m <= |all| && d == Last(all, |d|))
  }

  /** The write started at the very end of the file and did not fill a page. */
  predicate UnalignedEnd(at: nat, m: nat, cap: nat, page: nat) {
    at == cap && 0 < m < page
  }

  lemma LastWriteInside(all: seq<byte>, d: seq<byte>, w: nat, cap: nat, page: nat, b: seq<byte>)
    requires Bounded(all, d, w, cap, page) && w != 0 && |b| <= page && w - H < cap
    ensures Ended(all + b, Splice(d, w - H, b), w - H, |b|, cap, page)
  {
    NextMultiple(w - H, cap, page);
    OverwriteOldest(all, d, w - H, b);
  }

  lemma LastWriteAtEnd(all: seq<byte>, d: seq<byte>, w: nat, cap: nat, page: nat, b: seq<byte>)
    requires Bounded(all, d, w, cap, page) && w != 0 && |b| <= page && w - H == cap
    ensures Ended(all + b, Splice(d, w - H, b), w - H, |b|, cap, page)
  {
    RotEnds(d);
    assert w - H == |d| && d == Last(all, |d|);
    AppendNewest(all, d, b);
  }

  lemma LastWrite(all: seq<byte>, d: seq<byte>, w: nat, cap: nat, page: nat, b: seq<byte>)
    requires Bounded(all, d, w, cap, page) && w != 0 && |b| <= page
    ensures Ended(all + b, Splice(d, Position(d, w), b), Position(d, w), |b|, cap, page)
  {
    if w - H < cap {
      LastWriteInside(all, d, w, cap, page, b);
    } else {
      LastWriteAtEnd(all, d, w, cap, page, b);
    }
  }

  /** The number of records in such a file. */
  function EndedRecords(at: nat, count: nat, cap: nat): nat {
    cap / E + if at == cap then count else 0
  }

  lemma EndedLength(all: seq<byte>, d: seq<byte>, at: nat, count: nat, cap: nat, n: nat)
    requires n > 0 && Ended(all, d, at, count * E, cap, n * E)
    ensures |d| == EndedRecords(at, count, cap) * E && at % E == 0 && |d| <= |all|
  {
    WholeRecords(cap, n);
    WholeRecords(at, n);
  }

  lemma EndedUnwraps(all: seq<byte>, img: Image, at: nat, m: nat, cap: nat)
    requires Readable(img) && img.wrapPos == H + at + m
    requires Ended(all, img.data, at, m, cap, img.nrRecords * E)
    requires !UnalignedEnd(at, m, cap, img.nrRecords * E)
    ensures |img.data| <= |all| && Unwrapped(img) == Last(all, |img.data|)
  {
    EndAligned(img, at, m, cap);
    RotEnds(img.data);
  }

  lemma UnalignedUnwraps(img: Image, cap: nat, m: nat)
    requires Readable(img) && img.wrapPos == H + cap + m && |img.data| == cap + m
    requires Multiple(cap, img.nrRecords * E) && 0 < m < img.nrRecords * E
    ensures Unwrapped(img) == []
  {
    EndInPage(cap, m, img.nrRecords * E);
  }

  /** prbt prints the latest records of such a file, or gives up when its end is unaligned. */
  lemma {:induction false} ReadEnded(rs: seq<Record>, img: Image, at: nat, count: nat, cap: nat)
    requires img.nrRecords > 0 && img.wrapPos == H + at + count * E
    requires Ended(Flatten(rs), img.data, at, count * E, cap, img.nrRecords * E)
    ensures Readable(img) && EndedRecords(at, count, cap) <= |rs|
    ensures Parsed(img) == if UnalignedEnd(at, count * E, cap, img.nrRecords * E) then []
                           else Last(rs, EndedRecords(at, count, cap))
  {
    EndedLength(Flatten(rs), img.data, at, count, cap, img.nrRecords);
    if UnalignedEnd(at, count * E, cap, img.nrRecords * E) {
      UnalignedUnwraps(img, cap, count * E);
    } else {
      EndedUnwraps(Flatten(rs), img, at, count * E, cap);
      LatestRecords(rs, Unwrapped(img), EndedRecords(at, count, cap));
    }
  }

  lemma EndInPage(cap: nat, m: nat, page: nat)
    requires page > 0 && Multiple(cap, page) && m < page
    ensures (cap + m) / page * page == cap
  {
    MultipleDiv(cap, page);
    DivMod(cap + m, page, cap / page, m);
  }

  /** In every other case wrap_pos is inside the file or at its page-aligned end. */
  lemma {:induction false} EndAligned(img: Image, at: nat, m: nat, cap: nat)
    requires Readable(img) && img.wrapPos == H + at + m && at + m <= |img.data|
    requires Multiple(at, img.nrRecords * E) && Multiple(cap, img.nrRecords * E)
    requires |img.data| == if at < cap then cap else cap + m
    requires at <= cap && m <= img.nrRecords * E && !UnalignedEnd(at, m, cap, img.nrRecords * E)
    ensures Unwrapped(img) == Rot(img.data, at + m)
  {
    if at + m < |img.data| {
      assert at + m == 0 ==> Rot(img.data, 0) == img.data;
    } else {
      EachRecordOnce(img);
    }
  }
}
