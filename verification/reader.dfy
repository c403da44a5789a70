/** prbt: putting the records of a trace file back in order. */
module Reader {
  import opened Records
  import opened Sequences
  import opened TraceFiles
  import opened Wrappers

  /** A file the reader accepts: whole records only, and wrap_pos on a record boundary. */
  predicate Readable(img: Image) {
    && img.nrRecords > 0
    && |img.data| % E == 0
    && (img.wrapPos <= H || (img.wrapPos - H) % E == 0)
  }

  /**
   The bytes of the records printed, in order. The data area is rotated so that wrap_pos
   comes first; a wrap_pos at or past the end of file prints the file from its start,
   unless it points into a page that the file has begun, when nothing is printed.
   */
  function Unwrapped(img: Image): (b: seq<byte>)
    requires Readable(img)
    ensures |b| % E == 0
  {
    if img.wrapPos <= H then img.data else
      var i, page := img.wrapPos - H, img.nrRecords * E;
      if i < |img.data| then Rot(img.data, i)
      else if i / page * page < |img.data| then []
      else img.data
  }

  function Parsed(img: Image): seq<Record>
    requires Readable(img)
  {
    Chop(Unwrapped(img))
  }

  /** Every stored record is printed exactly once, unless the reader gives up on wrap_pos. */
  lemma EachRecordOnce(img: Image)
    requires Readable(img)
    requires img.wrapPos < H + |img.data|
          || (img.wrapPos == H + |img.data| && Multiple(|img.data|, img.nrRecords * E))
    ensures var o := if img.wrapPos <= H then 0 else img.wrapPos - H;
            o <= |img.data| && Unwrapped(img) == Rot(img.data, o)
    ensures |Parsed(img)| * E == |img.data|
  {
    RotEnds(img.data);
    if img.wrapPos == H + |img.data| {
      MultipleDiv(|img.data|, img.nrRecords * E);
    }
  }

  /** page_idx * page_size, page by page. */
  function PageStart(pageIdx: nat, size: nat): nat {
    if pageIdx == 0 then 0 else PageStart(pageIdx - 1, size) + size
  }

  lemma {:induction false} PageStartIsProduct(pageIdx: nat, size: nat)
    ensures PageStart(pageIdx, size) == pageIdx * size
  {
    if pageIdx > 0 {
      PageStartIsProduct(pageIdx - 1, size);
      assert pageIdx * size == (pageIdx - 1) * size + size;
    }
  }

  /** pread of one page into the page buffer; returns the number of bytes read. */
  method LoadTracePage(data: seq<byte>, pageIdx: nat, page: array<byte>) returns (nbytes: nat)
    modifies page
    ensures var q := PageStart(pageIdx, page.Length);
      && (nbytes == if q < |data| then Min(page.Length, |data| - q) else 0)
      && (nbytes > 0 ==> page[..nbytes] == data[q..q + nbytes])
  {
    var off := pageIdx * page.Length;
    PageStartIsProduct(pageIdx, page.Length);
    if off >= |data| {
      return 0;
    }
    nbytes := Min(page.Length, |data| - off);
    forall i | 0 <= i < nbytes {
      page[i] := data[off + i];
    }
  }

  /** What has been printed after records i to j of the data area are printed as well. */
  function PrintRange(printed: seq<Record>, data: seq<byte>, i: nat, j: nat): seq<Record>
    requires j * E <= |data|
  {
    if j <= i then printed
    else PrintRange(printed, data, i, j - 1) + [data[(j - 1) * E..j * E]]
  }

  lemma {:induction false} PrintRangeChop(prior: seq<byte>, data: seq<byte>, i: nat, j: nat)
    requires |prior| % E == 0 && i <= j && j * E <= |data|
    ensures |prior + data[i * E..j * E]| % E == 0
    ensures PrintRange(Chop(prior), data, i, j) == Chop(prior + data[i * E..j * E])
  {
    if i == j {
      assert prior + data[i * E..j * E] == prior;
    } else {
      var r: Record := data[(j - 1) * E..j * E];
      PrintRangeChop(prior, data, i, j - 1);
      ChopAppend(prior + data[i * E..(j - 1) * E], r);
      assert prior + data[i * E..(j - 1) * E] + r == prior + data[i * E..j * E];
    }
  }

  lemma {:induction false} PrintRangeJoin(p: seq<Record>, data: seq<byte>, i: nat, m: nat, j: nat)
    requires i <= m <= j && j * E <= |data|
    ensures PrintRange(PrintRange(p, data, i, m), data, m, j) == PrintRange(p, data, i, j)
  {
    if m < j {
      PrintRangeJoin(p, data, i, m, j - 1);
    }
  }

  /**
   The inner loop of both passes: the records of the loaded page, from byte f * E on. The
   second pass also gives the file position at which to stop.
   */
  method PrintPage(page: array<byte>, pageIdx: nat, first: nat, nbytes: nat, stopAt: Option<nat>,
                   printed: seq<Record>, ghost data: seq<byte>,
                   ghost b: nat, ghost f: nat, ghost m: nat, ghost s: nat)
    returns (out: seq<Record>, done: bool)
    requires PageStart(pageIdx, page.Length) == b * E
    requires first == f * E && nbytes == m * E && f <= m
    requires nbytes <= page.Length && b * E + nbytes <= |data|
    requires page[..nbytes] == data[b * E..b * E + nbytes]
    requires stopAt.Some? ==> stopAt.value == H + s * E && s >= b + f
    ensures done <==> stopAt.Some? && s < b + m
    ensures out == PrintRange(printed, data, b + f, if done then s else b + m)
  {
    var base := pageIdx * page.Length;
    PageStartIsProduct(pageIdx, page.Length);
    var off := first;
    ghost var o := f;
    out := printed;
    while off < nbytes
      invariant off == o * E && f <= o <= m
      invariant stopAt.Some? ==> s >= b + o
      invariant out == PrintRange(printed, data, b + f, b + o)
    {
      var offInFile := H + base + off;
      if stopAt.Some? && offInFile >= stopAt.value {
        return out, true;
      }
      SliceOfSlice(page[..], 0, nbytes, off, off + E);
      SliceOfSlice(data, base, nbytes, off, off + E);
      out := out + [page[off..off + E]];
      off := off + E;
      o := o + 1;
    }
    done := false;
  }

  /** The first loop: from record s = q0 + f of the data area to the end of file. */
  method FirstPass(data: seq<byte>, page: array<byte>, first: nat, offset: nat,
                   ghost total: nat, ghost n: nat, ghost q0: nat, ghost f: nat)
    returns (out: seq<Record>, gaveUp: bool)
    requires |data| == total * E && page.Length == n * E
    requires PageStart(first, page.Length) == q0 * E && offset == f * E && f < n
    modifies page
    ensures q0 + f < total ==> !gaveUp && out == PrintRange([], data, q0 + f, total)
    ensures q0 + f >= total ==> out == [] && (gaveUp <==> q0 < total)
  {
    ghost var q, o := q0, f;
    var pageIdx, off, again := first, offset, true;
    out := [];
    while again
      invariant PageStart(pageIdx, page.Length) == q * E && off == o * E
      invariant (q == q0 && o == f && again && out == []) || (q >= q0 + n && o == 0 && q0 + f < total)
      invariant again && q > q0 ==> q <= total && out == PrintRange([], data, q0 + f, q)
      invariant !again ==> out == PrintRange([], data, q0 + f, total)
      decreases total - q
    {
      var nbytes := LoadTracePage(data, pageIdx, page);
      if nbytes == 0 {
        break;
      } else if nbytes <= off {
        return out, true;
      } else if nbytes < page.Length {
        again := false;
      }
      ghost var m := Min(n, total - q);
      assert nbytes == m * E;
      var done;
      PrintRangeJoin([], data, q0 + f, q + o, q + m);
      out, done := PrintPage(page, pageIdx, off, nbytes, None, out, data, q, o, m, 0);
      pageIdx := pageIdx + 1;
      q := q + n;
      off := 0;
      o := 0;
    }
    gaveUp := false;
  }

  /** The second loop: from the start of the data area up to wrap_pos. */
  method SecondPass(data: seq<byte>, page: array<byte>, wrapPos: nat, printed: seq<Record>,
                    ghost total: nat, ghost n: nat, ghost s: nat)
    returns (out: seq<Record>)
    requires |data| == total * E && page.Length == n * E && n > 0
    requires wrapPos == H + s * E
    modifies page
    ensures out == PrintRange(printed, data, 0, Min(total, s))
  {
    ghost var q := 0;
    var pageIdx, again := 0, true;
    out := printed;
    while again
      invariant PageStart(pageIdx, page.Length) == q * E
      invariant again ==> q <= total && q <= s && out == PrintRange(printed, data, 0, q)
      invariant !again ==> total <= s && out == PrintRange(printed, data, 0, total)
      decreases total - q
    {
      var nbytes := LoadTracePage(data, pageIdx, page);
      if nbytes == 0 {
        break;
      } else if nbytes < page.Length {
        again := false;
      }
      ghost var m := Min(n, total - q);
      assert nbytes == m * E;
      PrintRangeJoin(printed, data, 0, q, Min(s, q + m));
      var done;
      out, done := PrintPage(page, pageIdx, 0, nbytes, Some(wrapPos), out,
                             data, q, 0, m, s);
      if done {
        return;
      }
      pageIdx := pageIdx + 1;
      q := q + n;
    }
  }

  /** Page index and offset in the page, counted in records. */
  lemma {:induction false} PageArithmetic(nr: nat, s: nat)
    requires nr > 0
    ensures nr * E > 0
    ensures s * E / (nr * E) == s / nr && s * E % (nr * E) == s % nr * E
    ensures s * E / (nr * E) * (nr * E) == s / nr * nr * E
    ensures PageStart(s / nr, nr * E) == s / nr * nr * E && s / nr * nr + s % nr == s
  {
    var a, b := s / nr, s % nr;
    PageStartIsProduct(a, nr * E);
    assert s == a * nr + b;
    assert a * (nr * E) == a * nr * E;
    DivMod(s * E, nr * E, a, b * E);
  }

  /** The reader gives up exactly when wrap_pos lies past the end in a page begun before it. */
  lemma PastEnd(img: Image, s: nat, total: nat)
    requires Readable(img) && s > 0 && s >= total
    requires s * E == img.wrapPos - H && total * E == |img.data|
    ensures Unwrapped(img) == if s / img.nrRecords * img.nrRecords < total then [] else img.data
  {
    PageArithmetic(img.nrRecords, s);
  }

  lemma WholeRange(data: seq<byte>, total: nat)
    requires total * E == |data|
    ensures PrintRange([], data, 0, total) == Chop(data)
  {
    PrintRangeChop([], data, 0, total);
    assert [] + data[0 * E..total * E] == data;
  }

  lemma RotatedRange(data: seq<byte>, s: nat, total: nat)
    requires s < total && total * E == |data|
    ensures PrintRange(PrintRange([], data, s, total), data, 0, s) == Chop(Rot(data, s * E))
  {
    var cut := s * E;
    assert [] + data[cut..total * E] == data[cut..];
    assert data[cut..] + data[0 * E..cut] == Rot(data, cut);
    PrintRangeChop([], data, s, total);
    PrintRangeChop(data[cut..], data, 0, s);
  }

  /** The two passes print the unwrapped bytes, whichever pass finds them. */
  lemma TwoPasses(img: Image, s: nat, total: nat)
    requires Readable(img) && s * E == Max(img.wrapPos, H) - H && total * E == |img.data|
    ensures 0 < s < total ==>
      PrintRange(PrintRange([], img.data, s, total), img.data, 0, s) == Parsed(img)
    ensures s == 0 ==> PrintRange([], img.data, 0, total) == Parsed(img)
    ensures s >= total && s > 0 && s / img.nrRecords * img.nrRecords < total ==> Parsed(img) == []
    ensures s >= total && s > 0 && s / img.nrRecords * img.nrRecords >= total ==>
      PrintRange([], img.data, 0, total) == Parsed(img)
  {
    WholeRange(img.data, total);
    if 0 < s < total {
      RotatedRange(img.data, s, total);
    } else if s > 0 {
      PastEnd(img, s, total);
    }
  }

  /** The page and the offset in it at which the first pass starts. */
  lemma StartPage(img: Image, s: nat, total: nat)
    requires Readable(img) && s == (Max(img.wrapPos, H) - H) / E && total == |img.data| / E
    ensures s * E == Max(img.wrapPos, H) - H && total * E == |img.data|
    ensures var nr := img.nrRecords;
      && nr * E > 0 && s % nr < nr && s / nr * nr + s % nr == s
      && PageStart(s / nr, nr * E) == s / nr * nr * E
      && (img.wrapPos > H ==>
            && (img.wrapPos - H) / (nr * E) == s / nr
            && (img.wrapPos - H) % (nr * E) == s % nr * E)
      && (img.wrapPos <= H ==> s == 0 && s / nr == 0 && s % nr == 0)
  {
    PageArithmetic(img.nrRecords, s);
  }

  method ParseTraceFile(img: Image) returns (out: seq<Record>)
    requires Readable(img)
    ensures out == Parsed(img)
  {
    var data, nr, pageSize := img.data, img.nrRecords, img.nrRecords * E;
    ghost var s: nat, total: nat := (Max(img.wrapPos, H) - H) / E, |data| / E;
    StartPage(img, s, total);
    ghost var q: nat, f: nat := s / nr * nr, s % nr;
    TwoPasses(img, s, total);
    var page := new byte[pageSize];
    var pageIdx, off := 0, 0;
    if img.wrapPos > H {
      pageIdx := (img.wrapPos - H) / pageSize;
      off := (img.wrapPos - H) % pageSize;
    }
    var gaveUp;
    out, gaveUp := FirstPass(data, page, pageIdx, off, total, nr, q, f);
    if gaveUp || img.wrapPos <= H {
      // below H the stop test of the second loop holds for its first record
      return;
    }
    out := SecondPass(data, page, img.wrapPos, out, total, nr, s);
  }

  /** Where the first and the last record printed lie in the data area. */
  lemma ParsedEnds(img: Image, i: nat)
    requires Readable(img) && i == Max(img.wrapPos, H) - H && i < |img.data|
    ensures i + E <= |img.data| && Parsed(img) != []
    ensures Parsed(img)[0] == img.data[i..i + E]
    ensures i >= E ==> Parsed(img)[|Parsed(img)| - 1] == img.data[i - E..i]
    ensures i < E ==> Parsed(img)[|Parsed(img)| - 1] == img.data[|img.data| - E..]
  {
    ChopEnds(Unwrapped(img));
    if i > 0 {
      RotEndRecords(img.data, i);
    }
  }

  lemma RotEndRecords(d: seq<byte>, i: nat)
    requires 0 < i < |d| && i % E == 0 && |d| % E == 0
    ensures E <= i && i + E <= |d|
    ensures Rot(d, i)[..E] == d[i..i + E] && Rot(d, i)[|d| - E..] == d[i - E..i]
  {
  }

  lemma {:induction false} ChopEnds(b: seq<byte>)
    requires |b| % E == 0 && b != []
    ensures |b| >= E && Chop(b) != []
    ensures Chop(b)[0] == b[..E] && Chop(b)[|Chop(b)| - 1] == b[|b| - E..]
  {
    var front := b[..|b| - E];
    if front != [] {
      ChopEnds(front);
      assert front[..E] == b[..E];
    } else {
      assert b[..E] == b;
    }
  }

  lemma RecordFits(i: nat, end: nat)
    requires i % E == 0 && end % E == 0
    ensures i < end <==> i + E <= end
  {
  }

  /** When the summary can read a first record. */
  lemma SummaryReads(img: Image, off: nat)
    requires Readable(img) && off >= H && (off - H) % E == 0
    ensures H + |img.data| < H + E <==> img.data == []
    ensures off + E > H + |img.data| <==> off >= H + |img.data|
  {
    RecordFits(off - H, |img.data|);
    RecordFits(0, |img.data|);
  }

  /** pread of one record inside the file. */
  method ReadRecord(data: seq<byte>, at: nat) returns (r: Record)
    requires at + E <= |data|
    ensures r == data[at..at + E]
  {
    r := data[at..at + E];
  }

  /** The two offsets at which the summary reads, in the data area. */
  lemma SummaryOffsets(img: Image, i: nat, j: int)
    requires Readable(img) && i == Max(img.wrapPos, H) - H && i < |img.data|
    requires j == if i >= E then i - E else |img.data| - E
    ensures i + E <= |img.data| && 0 <= j && j + E <= |img.data| && Parsed(img) != []
    ensures Parsed(img)[0] == img.data[i..i + E]
    ensures Parsed(img)[|Parsed(img)| - 1] == img.data[j..j + E]
  {
    ParsedEnds(img, i);
  }

  /** The two reads of the summary, the first of them at off. */
  method ReadEnds(img: Image, off: nat) returns (first: Record, last: Record)
    requires Readable(img) && off == Max(img.wrapPos, H) && off < H + |img.data|
    ensures Parsed(img) != [] && first == Parsed(img)[0] && last == Parsed(img)[|Parsed(img)| - 1]
  {
    ghost var i: nat := off - H;
    SummaryOffsets(img, i, if i >= E then i - E else |img.data| - E);
    first := ReadRecord(img.data, off - H);
    var off2 := if off >= H + E then off - E else H + |img.data| - E;
    last := ReadRecord(img.data, off2 - H);
  }

  /** The records that the summary calls first and last, when both can be read. */
  method PrintTraceSummary(img: Image) returns (r: Option<(Record, Record)>)
    requires Readable(img) && (img.wrapPos == 0 || img.wrapPos >= H)
    ensures r.Some? <==> img.data != [] && img.wrapPos < H + |img.data|
    ensures r.Some? ==> Parsed(img) != [] && r.value.0 == Parsed(img)[0]
    ensures r.Some? ==> r.value.1 == Parsed(img)[|Parsed(img)| - 1]
  {
    var fsize := H + |img.data|;
    var off := if img.wrapPos != 0 then img.wrapPos else H;
    SummaryReads(img, off);
    if fsize < H + E || off + E > fsize {
      return None;
    }
    var first, last := ReadEnds(img, off);
    return Some((first, last));
  }
}
