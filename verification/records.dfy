/**
 The trace entry, the 56-byte record that is its image in shared memory and in trace
 files, and arrays of records.
 */
module Records {
  import opened Sequences

  type byte = x: int | 0 <= x < 256

  const TWO64: nat := 0x1_0000_0000_0000_0000

  type U64 = x: int | 0 <= x < 0x1_0000_0000_0000_0000
  type Bits6 = x: int | 0 <= x < 64
  type Bits8 = x: int | 0 <= x < 256
  type Bits18 = x: int | 0 <= x < 0x4_0000

  /** sizeof(struct rbtrace_entry) */
  const E: nat := 56
  /** sizeof(union padded_rbtrace_fheader) */
  const H: nat := 512

  /** One struct rbtrace_entry as it lies in memory. */
  type Record = r: seq<byte> | |r| == E witness ZERO

  /** What memset(0) leaves of a record. */
  const ZERO: seq<byte> := Zeros(E)

  function Zeros(n: nat): (z: seq<byte>)
    ensures |z| == n && forall i :: 0 <= i < n ==> z[i] == 0
  {
    if n == 0 then [] else [0] + Zeros(n - 1)
  }

  const RBT_LOST: Bits6 := 1

  /** What the caller of rbtrace supplies. */
  datatype Payload = Payload(id: Bits6, a0: U64, a1: U64, a2: U64, a3: U64)

  /** What the ring adds when it hands out a slot: clock, cpu and thread. */
  datatype Stamp = Stamp(sec: U64, nsec: U64, cpu: Bits8, thread: Bits18)

  datatype Entry = Entry(payload: Payload, stamp: Stamp)

  /** The RBT_LOST record; the count is converted to an unsigned 64-bit argument. */
  function LostPayload(count: nat): Payload {
    Payload(RBT_LOST, count % TWO64, 0, 0, 0)
  }

  // ---------- little-endian words ----------

  function Pow256(k: nat): (p: nat)
    ensures p > 0
  {
    if k == 0 then 1 else 256 * Pow256(k - 1)
  }

  function Le(v: nat, k: nat): (s: seq<byte>)
    ensures |s| == k
  {
    if k == 0 then [] else [v % 256] + Le(v / 256, k - 1)
  }

  function UnLe(s: seq<byte>): (v: nat)
    ensures v < Pow256(|s|)
  {
    if s == [] then 0 else s[0] + 256 * UnLe(s[1..])
  }

  lemma {:induction false} LeRoundTrip(v: nat, k: nat)
    requires v < Pow256(k)
    ensures UnLe(Le(v, k)) == v
  {
    if k > 0 {
      LeRoundTrip(v / 256, k - 1);
      assert Le(v, k)[1..] == Le(v / 256, k - 1);
    }
  }

  /** Byte k of a stored number, counted from the low end. */
  lemma {:induction false} LeByte(v: nat, w: nat, k: nat)
    requires k < w
    ensures Le(v, w)[k] == v / Pow256(k) % 256
  {
    if k > 0 {
      LeByte(v / 256, w - 1, k - 1);
      DivTwice(v, Pow256(k - 1));
    }
  }

  lemma DivTwice(v: nat, p: nat)
    requires p > 0
    ensures v / 256 / p == v / (256 * p)
  {
    var q, r := v / 256 / p, v / 256 % p;
    assert v / 256 == q * p + r;
    assert v == q * (256 * p) + (256 * r + v % 256);
    DivMod(v, 256 * p, q, 256 * r + v % 256);
  }

  /** The bytes from at on hold v in w bytes, low byte first. */
  ghost predicate LowFirst(b: seq<byte>, at: nat, v: nat, w: nat) {
    at + w <= |b| && forall k: nat :: k < w ==> b[at + k] == v / Pow256(k) % 256
  }

  lemma UnLeRest(s: seq<byte>)
    requires s != []
    ensures UnLe(s) / 256 == UnLe(s[1..]) && UnLe(s) % 256 == s[0]
  {
    assert UnLe(s) == s[0] + 256 * UnLe(s[1..]);
  }

  lemma {:induction false} UnLeByte(s: seq<byte>, k: nat)
    requires k < |s|
    ensures UnLe(s) / Pow256(k) % 256 == s[k]
    decreases k
  {
    UnLeRest(s);
    if k > 0 {
      UnLeByte(s[1..], k - 1);
      DivTwice(UnLe(s), Pow256(k - 1));
      assert s[1..][k - 1] == s[k];
    }
  }

  /** Bytes determine the number they hold. */
  lemma BytesHold(b: seq<byte>, at: nat, v: nat, w: nat)
    requires LowFirst(b, at, v, w) && v < Pow256(w)
    ensures UnLe(b[at..at + w]) == v
  {
    forall k: nat | k < w ensures b[at..at + w][k] == Le(v, w)[k] {
      LeByte(v, w, k);
    }
    assert b[at..at + w] == Le(v, w);
    LeRoundTrip(v, w);
  }

  /** Every stretch of bytes holds the number that is read from it. */
  lemma HeldBytes(b: seq<byte>, at: nat, w: nat)
    requires at + w <= |b|
    ensures LowFirst(b, at, UnLe(b[at..at + w]), w)
  {
    forall k: nat | k < w ensures b[at + k] == UnLe(b[at..at + w]) / Pow256(k) % 256 {
      UnLeByte(b[at..at + w], k);
    }
  }

  // ---------- one entry ----------

  /** Consecutive 64-bit words, each stored low byte first. */
  function PackWords(ws: seq<U64>, w: nat): (b: seq<byte>)
    ensures |b| == w * |ws|
  {
    if ws == [] then [] else Le(ws[0], w) + PackWords(ws[1..], w)
  }

  function Word(b: seq<byte>, at: nat): U64
    requires at + 8 <= |b|
  {
    assert Pow256(8) == TWO64;
    UnLe(b[at..at + 8])
  }

  lemma SliceBehind(a: seq<byte>, b: seq<byte>, i: nat, j: nat)
    requires i <= j <= |b|
    ensures (a + b)[|a| + i..|a| + j] == b[i..j]
  {
  }

  lemma {:induction false} WordAt(ws: seq<U64>, i: nat)
    requires i < |ws|
    ensures Word(PackWords(ws, 8), 8 * i) == ws[i]
  {
    var b, rest := PackWords(ws, 8), PackWords(ws[1..], 8);
    if i == 0 {
      assert Pow256(8) == TWO64;
      LeRoundTrip(ws[0], 8);
      assert b[0..8] == Le(ws[0], 8);
    } else {
      WordAt(ws[1..], i - 1);
      SliceBehind(Le(ws[0], 8), rest, 8 * (i - 1), 8 * i);
    }
  }

  /** The bit-field word: cpuid:8, thread:18, traceid:6 from the low end, then padding. */
  function BitFields(e: Entry): U64 {
    e.stamp.cpu + 0x100 * e.stamp.thread + 0x400_0000 * e.payload.id
  }

  /** The seven words of an entry, in the order of the structure. */
  function Words(e: Entry): seq<U64> {
    [e.payload.a0, e.payload.a1, e.payload.a2, e.payload.a3, e.stamp.sec, e.stamp.nsec, BitFields(e)]
  }

  function Encode(e: Entry): Record {
    PackWords(Words(e), 8)
  }

  function Decode(b: Record): Entry {
    var w := Word(b, 48);
    Entry(Payload(w / 0x400_0000 % 0x40, Word(b, 0), Word(b, 8), Word(b, 16), Word(b, 24)),
          Stamp(Word(b, 32), Word(b, 40), w % 0x100, w / 0x100 % 0x4_0000))
  }

  lemma EncodedWord(e: Entry, i: nat, at: nat)
    requires i < 7 && at == 8 * i
    ensures Word(Encode(e), at) == Words(e)[i]
  {
    WordAt(Words(e), i);
  }

  lemma BitFieldsBack(e: Entry, w: U64)
    requires w == BitFields(e)
    ensures w % 0x100 == e.stamp.cpu && w / 0x100 % 0x4_0000 == e.stamp.thread
    ensures w / 0x400_0000 % 0x40 == e.payload.id
  {
  }

  lemma PackedByte(ws: seq<U64>, i: nat, k: nat)
    requires i < |ws| && k < 8
    ensures PackWords(ws, 8)[8 * i + k] == ws[i] / Pow256(k) % 256
    decreases i
  {
    LeByte(ws[0], 8, k);
    if i > 0 {
      PackedByte(ws[1..], i - 1, k);
    }
  }

  lemma EncodedWordBytes(e: Entry, i: nat, at: nat)
    requires i < 7 && at == 8 * i
    ensures LowFirst(Encode(e), at, Words(e)[i], 8)
  {
    forall k: nat | k < 8 ensures Encode(e)[at + k] == Words(e)[i] / Pow256(k) % 256 {
      PackedByte(Words(e), i, k);
    }
  }

  lemma ByteOf(b: seq<byte>, at: nat, v: nat, k: nat, p: nat)
    requires k < 8 && LowFirst(b, at, v, 8) && Pow256(k) == p
    ensures p > 0 && b[at + k] == v / p % 256
  {
  }

  lemma Quotients(v: nat)
    ensures v / 0x1_0000 == v / 0x100 / 0x100 && v / 0x100_0000 == v / 0x100 / 0x100 / 0x100
  {
    DivTwice(v, 0x100);
    DivTwice(v, 0x1_0000);
    DivTwice(v / 0x100, 0x100);
  }

  lemma FourDigits(v: nat)
    requires v < 0x1_0000_0000
    ensures v % 256 + 0x100 * (v / 0x100 % 256) + 0x1_0000 * (v / 0x1_0000 % 256)
            + 0x100_0000 * (v / 0x100_0000 % 256) == v
  {
    var q1 := v / 256;
    var q2 := q1 / 256;
    var q3 := q2 / 256;
    Quotients(v);
    assert v == 256 * q1 + v % 256 && q1 == 256 * q2 + q1 % 256 && q2 == 256 * q3 + q2 % 256;
    assert q3 < 256;
  }

  /** A number below 2^32 is in the first four of its bytes. */
  lemma FourBytes(b: seq<byte>, at: nat, v: nat)
    requires v < 0x1_0000_0000 && LowFirst(b, at, v, 8)
    ensures b[at] == v % 256
    ensures (b[at] as int) + 0x100 * (b[at + 1] as int) + 0x1_0000 * (b[at + 2] as int)
            + 0x100_0000 * (b[at + 3] as int) == v
    ensures b[at + 4] == b[at + 5] == b[at + 6] == b[at + 7] == 0
  {
    PowersOf256();
    FourDigits(v);
    ByteOf(b, at, v, 0, 1);
    ByteOf(b, at, v, 1, 0x100);
    ByteOf(b, at, v, 2, 0x1_0000);
    ByteOf(b, at, v, 3, 0x100_0000);
    ByteOf(b, at, v, 4, 0x1_0000_0000);
    ByteOf(b, at, v, 5, 0x100_0000_0000);
    ByteOf(b, at, v, 6, 0x1_0000_0000_0000);
    ByteOf(b, at, v, 7, 0x100_0000_0000_0000);
  }

  lemma PowersOf256()
    ensures Pow256(0) == 1 && Pow256(1) == 0x100 && Pow256(2) == 0x1_0000 && Pow256(3) == 0x100_0000
    ensures Pow256(4) == 0x1_0000_0000 && Pow256(5) == 0x100_0000_0000
    ensures Pow256(6) == 0x1_0000_0000_0000 && Pow256(7) == 0x100_0000_0000_0000
  {
    assert Pow256(2) == 256 * Pow256(1) && Pow256(3) == 256 * Pow256(2);
    assert Pow256(4) == 256 * Pow256(3) && Pow256(5) == 256 * Pow256(4);
    assert Pow256(6) == 256 * Pow256(5) && Pow256(7) == 256 * Pow256(6);
  }

  /**
   The image byte by byte: the four arguments, seconds and nanoseconds; then a 32-bit word with
   the cpu in its low 8 bits, the thread in the next 18 and the trace ID in the high 6; then
   padding.
   */
  lemma EncodedBytes(e: Entry)
    ensures LowFirst(Encode(e), 0, e.payload.a0, 8) && LowFirst(Encode(e), 8, e.payload.a1, 8)
    ensures LowFirst(Encode(e), 16, e.payload.a2, 8) && LowFirst(Encode(e), 24, e.payload.a3, 8)
    ensures LowFirst(Encode(e), 32, e.stamp.sec, 8) && LowFirst(Encode(e), 40, e.stamp.nsec, 8)
    ensures var b := Encode(e);
      && b[48] == e.stamp.cpu
      && (b[48] as int) + 0x100 * (b[49] as int) + 0x1_0000 * (b[50] as int) + 0x100_0000 * (b[51] as int)
         == e.stamp.cpu + 0x100 * e.stamp.thread + 0x400_0000 * e.payload.id
      && b[52] == b[53] == b[54] == b[55] == 0
  {
    EncodedWordBytes(e, 0, 0);
    EncodedWordBytes(e, 1, 8);
    EncodedWordBytes(e, 2, 16);
    EncodedWordBytes(e, 3, 24);
    EncodedWordBytes(e, 4, 32);
    EncodedWordBytes(e, 5, 40);
    EncodedWordBytes(e, 6, 48);
    FourBytes(Encode(e), 48, BitFields(e));
  }

  lemma DecodeEncode(e: Entry)
    ensures Decode(Encode(e)) == e
  {
    EncodedWord(e, 0, 0);
    EncodedWord(e, 1, 8);
    EncodedWord(e, 2, 16);
    EncodedWord(e, 3, 24);
    EncodedWord(e, 4, 32);
    EncodedWord(e, 5, 40);
    EncodedWord(e, 6, 48);
    BitFieldsBack(e, Word(Encode(e), 48));
  }

  // ---------- arrays of records ----------

  function Flatten(rs: seq<Record>): (b: seq<byte>)
    ensures |b| == |rs| * E
  {
    if rs == [] then [] else Flatten(rs[..|rs| - 1]) + rs[|rs| - 1]
  }

  function Chop(b: seq<byte>): (rs: seq<Record>)
    requires |b| % E == 0
    ensures |rs| * E == |b|
  {
    if b == [] then [] else Chop(b[..|b| - E]) + [b[|b| - E..]]
  }

  /** Reading one more record off the end of an aligned stretch of bytes. */
  lemma ChopAppend(b: seq<byte>, r: Record)
    requires |b| % E == 0
    ensures |b + r| % E == 0
    ensures Chop(b + r) == Chop(b) + [r]
  {
    assert (b + r)[..|b + r| - E] == b;
    assert (b + r)[|b + r| - E..] == r;
  }

  lemma {:induction false} ChopFlatten(rs: seq<Record>)
    ensures Chop(Flatten(rs)) == rs
  {
    if rs != [] {
      ChopFlatten(rs[..|rs| - 1]);
      ChopAppend(Flatten(rs[..|rs| - 1]), rs[|rs| - 1]);
    }
  }

  lemma {:induction false} FlattenConcat(a: seq<Record>, b: seq<Record>)
    ensures Flatten(a + b) == Flatten(a) + Flatten(b)
  {
    if b == [] {
      assert a + b == a;
    } else {
      FlattenConcat(a, b[..|b| - 1]);
      assert (a + b)[..|a + b| - 1] == a + b[..|b| - 1];
    }
  }

  /** The last k records are the last k * E bytes. */
  lemma {:induction false} FlattenLast(rs: seq<Record>, k: nat)
    requires k <= |rs|
    ensures |Flatten(rs)| >= k * E
    ensures Flatten(rs)[|Flatten(rs)| - k * E..] == Flatten(rs[|rs| - k..])
  {
    var front, back := rs[..|rs| - k], rs[|rs| - k..];
    FlattenConcat(front, back);
    assert front + back == rs;
  }
}
