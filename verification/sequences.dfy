/** A bounded log kept in place: rotations, suffixes and overwrites of a sequence. */
module Sequences {

  /** The sequence read from index o to its end and then from its start to o. */
  function Rot<T>(d: seq<T>, o: nat): seq<T>
    requires o <= |d|
  {
    d[o..] + d[..o]
  }

  function Last<T>(s: seq<T>, k: nat): seq<T>
    requires k <= |s|
  {
    s[|s| - k..]
  }

  lemma SliceOfSlice<T>(d: seq<T>, q: nat, n: nat, i: nat, j: nat)
    requires i <= j <= n && q + n <= |d|
    ensures d[q..q + n][i..j] == d[q + i..q + j]
  {
    var a, b := d[q..q + n][i..j], d[q + i..q + j];
    forall k | 0 <= k < j - i ensures a[k] == b[k] {
      assert a[k] == d[q..q + n][i + k];
    }
  }

  function Min(a: nat, b: nat): nat {
    if a < b then a else b
  }

  function Max(a: nat, b: nat): nat {
    if a < b then b else a
  }

  // ---------- whole multiples of a page ----------

  predicate Multiple(x: nat, page: nat)
    requires page > 0
    decreases x
  {
    x == 0 || (x >= page && Multiple(x - page, page))
  }

  /** The least positive multiple of page that is at least room. */
  function Capacity(room: int, page: nat): (c: nat)
    requires page > 0
    ensures c >= page && c >= room && Multiple(c, page)
    ensures c < Max(if room > 0 then room else 0, 1) + page
    decreases if room > 0 then room else 0
  {
    if room <= page then page else Capacity(room - page, page) + page
  }

  /** Between two multiples of page lies at least one page. */
  lemma {:induction false} NextMultiple(a: nat, b: nat, page: nat)
    requires page > 0 && Multiple(a, page) && Multiple(b, page) && a < b
    ensures a + page <= b
  {
    if a > 0 {
      NextMultiple(a - page, b - page, page);
    }
  }

  lemma ScaleUp(a: int, b: int, d: nat)
    requires a < b
    ensures a * d + d <= b * d
  {
    assert b * d == a * d + d + (b - a - 1) * d;
  }

  /** Quotient and remainder are the only ones there are. */
  lemma DivMod(x: nat, d: nat, q: int, r: int)
    requires d > 0 && 0 <= r < d && x == q * d + r
    ensures x / d == q && x % d == r
  {
    var a := x / d;
    assert x == a * d + x % d;
    if q < a {
      ScaleUp(q, a, d);
    } else if a < q {
      ScaleUp(a, q, d);
    }
  }

  lemma {:induction false} MultipleDiv(x: nat, page: nat)
    requires page > 0 && Multiple(x, page)
    ensures x / page * page == x && x % page == 0
  {
    if x == 0 {
      DivMod(0, page, 0, 0);
    } else {
      MultipleDiv(x - page, page);
      DivMod(x, page, (x - page) / page + 1, 0);
    }
  }

  // ---------- overwriting in place ----------

  function Splice<T>(d: seq<T>, at: nat, p: seq<T>): (r: seq<T>)
    requires at <= |d|
    ensures |r| == Max(|d|, at + |p|)
  {
    d[..at] + p + (if at + |p| <= |d| then d[at + |p|..] else [])
  }

  /** Overwriting the oldest |p| elements of a bounded log keeps it the latest |d|. */
  lemma OverwriteOldest<T>(s: seq<T>, d: seq<T>, o: nat, p: seq<T>)
    requires o + |p| <= |d| <= |s| && Rot(d, o) == Last(s, |d|)
    ensures |Splice(d, o, p)| == |d|
    ensures Rot(Splice(d, o, p), o + |p|) == Last(s + p, |d|)
  {
    var d' := Splice(d, o, p);
    assert d'[o + |p|..] == d[o + |p|..];
    assert d'[..o + |p|] == d[..o] + p;
    assert Rot(d, o)[|p|..] == d[o + |p|..] + d[..o];
    assert Last(s + p, |d|) == Last(s, |d|)[|p|..] + p;
  }

  /** Appending at the end of a log whose oldest element comes first. */
  lemma AppendNewest<T>(s: seq<T>, d: seq<T>, p: seq<T>)
    requires |d| <= |s| && d == Last(s, |d|)
    ensures Splice(d, |d|, p) == Last(s + p, |d| + |p|)
  {
  }

  lemma RotEnds<T>(d: seq<T>)
    ensures Rot(d, 0) == d && Rot(d, |d|) == d
  {
  }
}
