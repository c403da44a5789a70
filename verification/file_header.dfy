/** The 512-byte header of a trace file: the fixed fields, and three strings packed behind them. */
module FileHeader {
  import opened Records
  import opened Wrappers

  type U16 = x: int | 0 <= x < 0x1_0000
  type U32 = x: int | 0 <= x < 0x1_0000_0000

  /** A C string without its terminator. */
  type CStr = s: seq<byte> | 0 !in s

  /** sizeof(struct rbtrace_fheader): 76 bytes of fields, padded to a multiple of eight */
  const STRINGS: nat := 80

  /** "RBTRACE" with its terminator */
  const MAGIC: seq<byte> := [82, 66, 84, 82, 65, 67, 69, 0]
  const MAJOR: nat := 1
  const MINOR: nat := 0

  datatype Fields = Fields(major: U16, minor: U16, ring: U32, wrapPos: U64, hdrSize: U64,
                           nrRecords: U64, sec: U64, nsec: U64, gmtoff: U64)

  datatype Text = Text(tz: CStr, name: CStr, desc: CStr)

  /** The three strings with their terminators fit behind the fields. */
  predicate Fits(t: Text) {
    STRINGS + |t.tz| + 1 + |t.name| + 1 + |t.desc| + 1 <= H
  }

  // ---------- what the reader takes from the bytes ----------

  datatype Error = ShortRead | BadMagic | BadRevision

  /** A string is None where printing it would run past the header. */
  datatype Reading =
    | Failed(error: Error)
    | Header(f: Fields, tz: Option<CStr>, name: Option<CStr>, desc: Option<CStr>)

  function Field(b: seq<byte>, at: nat, w: nat): nat
    requires at + w <= |b|
  {
    UnLe(b[at..at + w])
  }

  /** The string that starts at a given offset. */
  function StringAt(b: seq<byte>, off: nat): Option<CStr>
    decreases |b| - off
  {
    if off >= |b| then None
    else if b[off] == 0 then Some([])
    else match StringAt(b, off + 1)
      case None => None
      case Some(s) => Some([b[off]] + s)
  }

  lemma Widths()
    ensures Pow256(2) == 0x1_0000 && Pow256(4) == 0x1_0000_0000 && Pow256(8) == TWO64
  {
    assert Pow256(4) == 256 * 256 * Pow256(2);
    assert Pow256(8) == 256 * 256 * (256 * 256 * Pow256(4));
  }

  function FieldsOf(b: seq<byte>): Fields
    requires |b| == H
  {
    Widths();
    Fields(Field(b, 8, 2), Field(b, 10, 2), Field(b, 12, 4), Field(b, 16, 8), Field(b, 24, 8),
           Field(b, 32, 8), Field(b, 40, 8), Field(b, 48, 8), Field(b, 56, 8))
  }

  function ReadHeader(b: seq<byte>): Reading {
    if |b| != H then Failed(ShortRead)
    else if b[..8] != MAGIC then Failed(BadMagic)
    else
      var f := FieldsOf(b);
      if f.major > MAJOR || (f.major == MAJOR && f.minor > MINOR) then Failed(BadRevision)
      else Header(f, StringAt(b, Field(b, 64, 4)), StringAt(b, Field(b, 68, 4)), StringAt(b, Field(b, 72, 4)))
  }

  /** What the bytes of fields and offsets must be for the reader to find these values. */
  ghost predicate FieldBytes(b: seq<byte>, f: Fields) {
    && LowFirst(b, 8, f.major, 2) && LowFirst(b, 10, f.minor, 2) && LowFirst(b, 12, f.ring, 4)
    && LowFirst(b, 16, f.wrapPos, 8) && LowFirst(b, 24, f.hdrSize, 8) && LowFirst(b, 32, f.nrRecords, 8)
    && LowFirst(b, 40, f.sec, 8) && LowFirst(b, 48, f.nsec, 8) && LowFirst(b, 56, f.gmtoff, 8)
  }

  lemma FieldRead(b: seq<byte>, at: nat, v: nat, w: nat, p: nat)
    requires LowFirst(b, at, v, w) && Pow256(w) == p && v < p
    ensures Field(b, at, w) == v
  {
    BytesHold(b, at, v, w);
  }

  lemma FieldsRead(b: seq<byte>, f: Fields)
    requires |b| == H && FieldBytes(b, f)
    ensures FieldsOf(b) == f
  {
    Widths();
    FieldRead(b, 8, f.major, 2, 0x1_0000);
    FieldRead(b, 10, f.minor, 2, 0x1_0000);
    FieldRead(b, 12, f.ring, 4, 0x1_0000_0000);
    FieldRead(b, 16, f.wrapPos, 8, TWO64);
    FieldRead(b, 24, f.hdrSize, 8, TWO64);
    FieldRead(b, 32, f.nrRecords, 8, TWO64);
    FieldRead(b, 40, f.sec, 8, TWO64);
    FieldRead(b, 48, f.nsec, 8, TWO64);
    FieldRead(b, 56, f.gmtoff, 8, TWO64);
  }

  lemma OffsetsRead(b: seq<byte>, tzOff: U32, nameOff: U32, descOff: U32)
    requires LowFirst(b, 64, tzOff, 4) && LowFirst(b, 68, nameOff, 4) && LowFirst(b, 72, descOff, 4)
    ensures Field(b, 64, 4) == tzOff && Field(b, 68, 4) == nameOff && Field(b, 72, 4) == descOff
  {
    Widths();
    FieldRead(b, 64, tzOff, 4, 0x1_0000_0000);
    FieldRead(b, 68, nameOff, 4, 0x1_0000_0000);
    FieldRead(b, 72, descOff, 4, 0x1_0000_0000);
  }

  lemma FieldsHeld(b: seq<byte>)
    requires |b| == H
    ensures FieldBytes(b, FieldsOf(b))
  {
    HeldBytes(b, 8, 2);
    HeldBytes(b, 10, 2);
    HeldBytes(b, 12, 4);
    HeldBytes(b, 16, 8);
    HeldBytes(b, 24, 8);
    HeldBytes(b, 32, 8);
    HeldBytes(b, 40, 8);
    HeldBytes(b, 48, 8);
    HeldBytes(b, 56, 8);
  }

  /**
   The reader on any bytes: it accepts 512 of them that begin with the magic string and have a
   revision up to 1.0, and finds each field and offset at its place in the structure.
   */
  lemma HeaderRead(b: seq<byte>, f: Fields, tzOff: U32, nameOff: U32, descOff: U32)
    requires |b| == 512 && FieldBytes(b, f)
    requires LowFirst(b, 64, tzOff, 4) && LowFirst(b, 68, nameOff, 4) && LowFirst(b, 72, descOff, 4)
    ensures ReadHeader(b) ==
      if b[..8] != [82, 66, 84, 82, 65, 67, 69, 0] then Failed(BadMagic)
      else if f.major > 1 || (f.major == 1 && f.minor > 0) then Failed(BadRevision)
      else Header(f, StringAt(b, tzOff), StringAt(b, nameOff), StringAt(b, descOff))
  {
    FieldsRead(b, f);
    OffsetsRead(b, tzOff, nameOff, descOff);
  }

  /** A string found ends at the first terminator; none is found when there is no terminator. */
  lemma {:induction false} StringMeans(b: seq<byte>, off: nat)
    requires off <= |b|
    ensures match StringAt(b, off)
            case Some(s) => off + |s| < |b| && b[off..off + |s|] == s && b[off + |s|] == 0
            case None => forall i :: off <= i < |b| ==> b[i] != 0
    decreases |b| - off
  {
    if off < |b| && b[off] != 0 {
      StringMeans(b, off + 1);
    }
  }

  // ---------- what the writer stores ----------

  lemma {:induction false} StringStored(b: seq<byte>, off: nat, s: CStr)
    requires off + |s| + 1 <= |b| && b[off..off + |s|] == s && b[off + |s|] == 0
    ensures StringAt(b, off) == Some(s)
    decreases |s|
  {
    if s != [] {
      assert b[off] == s[0];
      assert s[0] in s;
      StringStored(b, off + 1, s[1..]);
      assert [s[0]] + s[1..] == s;
    }
  }

  /** Assignment to a field of w bytes. */
  method Store(a: array<byte>, at: nat, v: nat, w: nat)
    requires at + w <= a.Length && v < Pow256(w)
    modifies a
    ensures Field(a[..], at, w) == v
    ensures forall i :: 0 <= i < a.Length && !(at <= i < at + w) ==> a[i] == old(a[i])
  {
    LeRoundTrip(v, w);
    var bytes := Le(v, w);
    forall i | 0 <= i < w {
      a[at + i] := bytes[i];
    }
    assert a[..][at..at + w] == bytes;
  }

  /** strcpy */
  method StrCpy(a: array<byte>, at: nat, s: CStr)
    requires at + |s| + 1 <= a.Length
    modifies a
    ensures StringAt(a[..], at) == Some(s)
    ensures a[at..at + |s|] == s && a[at + |s|] == 0
    ensures forall i :: 0 <= i < a.Length && !(at <= i < at + |s| + 1) ==> a[i] == old(a[i])
  {
    var n := 0;
    while n < |s|
      invariant 0 <= n <= |s| && a[at..at + n] == s[..n]
      invariant forall i :: 0 <= i < a.Length && !(at <= i < at + n) ==> a[i] == old(a[i])
    {
      a[at + n] := s[n];
      n := n + 1;
    }
    a[at + n] := 0;
    assert a[..][at..at + |s|] == s;
    StringStored(a[..], at, s);
  }

  lemma FieldKept(b: seq<byte>, c: seq<byte>, at: nat, w: nat)
    requires at + w <= |b| == |c| && forall i :: at <= i < at + w ==> b[i] == c[i]
    ensures Field(b, at, w) == Field(c, at, w)
  {
    assert b[at..at + w] == c[at..at + w];
  }

  /** The reader finds no string among the fields. */
  predicate StringsBehind(b: seq<byte>)
    requires |b| == H
  {
    Field(b, 64, 4) >= STRINGS && Field(b, 68, 4) >= STRINGS && Field(b, 72, 4) >= STRINGS
  }

  /** The fields up to gmtoff, in the order of the structure. */
  method PutFields(a: array<byte>, f: Fields)
    requires a.Length == H
    modifies a
    ensures FieldsOf(a[..]) == f
    ensures forall i :: 0 <= i < H && !(8 <= i < 64) ==> a[i] == old(a[i])
  {
    PutVersion(a, f);
    ghost var b := a[..];
    Widths();
    Store(a, 32, f.nrRecords, 8);
    ghost var b1 := a[..];
    Store(a, 40, f.sec, 8);
    ghost var b2 := a[..];
    Store(a, 48, f.nsec, 8);
    ghost var b3 := a[..];
    Store(a, 56, f.gmtoff, 8);
    FieldKept(b1, a[..], 32, 8);
    FieldKept(b2, a[..], 40, 8);
    FieldKept(b3, a[..], 48, 8);
    FrontKept(b, a[..]);
  }

  method PutVersion(a: array<byte>, f: Fields)
    requires a.Length == H
    modifies a
    ensures Front(a[..]) == (f.major, f.minor, f.ring, f.wrapPos, f.hdrSize)
    ensures forall i :: 0 <= i < H && !(8 <= i < 32) ==> a[i] == old(a[i])
  {
    Widths();
    Store(a, 8, f.major, 2);
    ghost var b1 := a[..];
    Store(a, 10, f.minor, 2);
    ghost var b2 := a[..];
    Store(a, 12, f.ring, 4);
    ghost var b3 := a[..];
    Store(a, 16, f.wrapPos, 8);
    ghost var b4 := a[..];
    Store(a, 24, f.hdrSize, 8);
    FieldKept(b1, a[..], 8, 2);
    FieldKept(b2, a[..], 10, 2);
    FieldKept(b3, a[..], 12, 4);
    FieldKept(b4, a[..], 16, 8);
  }

  function Front(b: seq<byte>): (nat, nat, nat, nat, nat)
    requires |b| == H
  {
    (Field(b, 8, 2), Field(b, 10, 2), Field(b, 12, 4), Field(b, 16, 8), Field(b, 24, 8))
  }

  lemma FrontKept(b: seq<byte>, c: seq<byte>)
    requires |b| == |c| == H && forall i :: 8 <= i < 32 ==> b[i] == c[i]
    ensures Front(b) == Front(c)
  {
    FieldKept(b, c, 8, 2);
    FieldKept(b, c, 10, 2);
    FieldKept(b, c, 12, 4);
    FieldKept(b, c, 16, 8);
    FieldKept(b, c, 24, 8);
  }

  /** The string s lies at offset at, which is the value of the field at fld. */
  ghost predicate HasString(b: seq<byte>, fld: nat, at: nat, s: CStr) {
    && fld + 4 <= STRINGS <= at && at + |s| + 1 <= |b|
    && Field(b, fld, 4) == at && b[at..at + |s|] == s && b[at + |s|] == 0
  }

  lemma HasStringKept(b: seq<byte>, c: seq<byte>, fld: nat, at: nat, s: CStr)
    requires HasString(b, fld, at, s) && |b| == |c|
    requires forall i :: fld <= i < fld + 4 || at <= i < at + |s| + 1 ==> b[i] == c[i]
    ensures HasString(c, fld, at, s)
  {
    FieldKept(b, c, fld, 4);
    assert c[at..at + |s|] == b[at..at + |s|];
  }

  /** One string and the field that tells its offset; next is the place behind it. */
  method PutString(a: array<byte>, fld: nat, at: nat, s: CStr) returns (next: nat)
    requires a.Length == H && fld + 4 <= STRINGS <= at && at + |s| + 1 <= H
    modifies a
    ensures next == at + |s| + 1 && HasString(a[..], fld, at, s)
    ensures forall i :: 0 <= i < H && !(fld <= i < fld + 4) && !(at <= i < next) ==> a[i] == old(a[i])
  {
    Widths();
    Store(a, fld, at, 4);
    ghost var b := a[..];
    StrCpy(a, at, s);
    next := at + |s| + 1;
    FieldKept(b, a[..], fld, 4);
    assert a[..][at..at + |s|] == s;
  }

  lemma Found(b: seq<byte>, fld: nat, at: nat, s: CStr)
    requires HasString(b, fld, at, s)
    ensures StringAt(b, Field(b, fld, 4)) == Some(s) && Field(b, fld, 4) >= STRINGS
  {
    StringStored(b, at, s);
  }

  lemma OffsetHeld(b: seq<byte>, fld: nat, at: nat, s: CStr)
    requires HasString(b, fld, at, s)
    ensures LowFirst(b, fld, at, 4)
  {
    HeldBytes(b, fld, 4);
  }

  /** The byte behind the last string. */
  function StringsEnd(t: Text): nat {
    STRINGS + |t.tz| + 1 + |t.name| + 1 + |t.desc| + 1
  }

  /** The strings one behind the other from byte 80 on, and their offsets at 64, 68 and 72. */
  ghost predicate StringsPacked(b: seq<byte>, t: Text)
    requires Fits(t)
  {
    var name := 80 + |t.tz| + 1;
    var desc := name + |t.name| + 1;
    && |b| == 512 && LowFirst(b, 64, 80, 4) && LowFirst(b, 68, name, 4) && LowFirst(b, 72, desc, 4)
    && b[80..80 + |t.tz|] == t.tz && b[80 + |t.tz|] == 0
    && b[name..name + |t.name|] == t.name && b[name + |t.name|] == 0
    && b[desc..desc + |t.desc|] == t.desc && b[desc + |t.desc|] == 0
  }

  method PutZoneAndName(a: array<byte>, t: Text) returns (at2: nat, at3: nat)
    requires a.Length == H && Fits(t)
    modifies a
    ensures at2 == STRINGS + |t.tz| + 1 && at3 == at2 + |t.name| + 1
    ensures HasString(a[..], 64, STRINGS, t.tz) && HasString(a[..], 68, at2, t.name)
    ensures forall i :: 0 <= i < 64 || at3 <= i < H ==> a[i] == old(a[i])
  {
    at2 := PutString(a, 64, STRINGS, t.tz);
    ghost var b := a[..];
    at3 := PutString(a, 68, at2, t.name);
    HasStringKept(b, a[..], 64, STRINGS, t.tz);
  }

  lemma ThreeFound(b: seq<byte>, t: Text, at2: nat, at3: nat)
    requires |b| == H && HasString(b, 64, STRINGS, t.tz)
    requires HasString(b, 68, at2, t.name) && HasString(b, 72, at3, t.desc)
    ensures StringAt(b, Field(b, 64, 4)) == Some(t.tz) && StringAt(b, Field(b, 68, 4)) == Some(t.name)
    ensures StringAt(b, Field(b, 72, 4)) == Some(t.desc) && StringsBehind(b)
  {
    Found(b, 64, STRINGS, t.tz);
    Found(b, 68, at2, t.name);
    Found(b, 72, at3, t.desc);
  }

  lemma ThreePacked(b: seq<byte>, t: Text, at2: nat, at3: nat)
    requires |b| == H && Fits(t) && at2 == STRINGS + |t.tz| + 1 && at3 == at2 + |t.name| + 1
    requires HasString(b, 64, STRINGS, t.tz)
    requires HasString(b, 68, at2, t.name) && HasString(b, 72, at3, t.desc)
    ensures StringsPacked(b, t)
  {
    OffsetHeld(b, 64, STRINGS, t.tz);
    OffsetHeld(b, 68, at2, t.name);
    OffsetHeld(b, 72, at3, t.desc);
  }

  /** The three strings and the offsets at which the reader finds them. */
  method PutStrings(a: array<byte>, t: Text)
    requires a.Length == H && Fits(t)
    modifies a
    ensures StringAt(a[..], Field(a[..], 64, 4)) == Some(t.tz)
    ensures StringAt(a[..], Field(a[..], 68, 4)) == Some(t.name)
    ensures StringAt(a[..], Field(a[..], 72, 4)) == Some(t.desc)
    ensures StringsBehind(a[..])
    ensures StringsPacked(a[..], t)
    ensures forall i :: 0 <= i < 64 ==> a[i] == old(a[i])
    ensures forall i :: StringsEnd(t) <= i < H ==> a[i] == old(a[i])
  {
    var at2, at3 := PutZoneAndName(a, t);
    ghost var b := a[..];
    var end := PutString(a, 72, at3, t.desc);
    ghost var c := a[..];
    HasStringKept(b, c, 64, STRINGS, t.tz);
    HasStringKept(b, c, 68, at2, t.name);
    ThreeFound(c, t, at2, at3);
    ThreePacked(c, t, at2, at3);
  }

  /** rbtrace_format_header for a ring; wrap_pos starts as zero. */
  method FormatHeader(a: array<byte>, ring: U32, size: U32, sec: U64, nsec: U64, gmtoff: U64, t: Text)
    requires a.Length == H && Fits(t)
    modifies a
    ensures ReadHeader(a[..]) == Header(Fields(MAJOR, MINOR, ring, 0, H, size, sec, nsec, gmtoff),
                                        Some(t.tz), Some(t.name), Some(t.desc))
    ensures StringsBehind(a[..])
    // byte by byte
    ensures a[..8] == [82, 66, 84, 82, 65, 67, 69, 0]
    ensures LowFirst(a[..], 8, 1, 2) && LowFirst(a[..], 10, 0, 2) && LowFirst(a[..], 12, ring, 4)
    ensures LowFirst(a[..], 16, 0, 8) && LowFirst(a[..], 24, 512, 8) && LowFirst(a[..], 32, size, 8)
    ensures LowFirst(a[..], 40, sec, 8) && LowFirst(a[..], 48, nsec, 8) && LowFirst(a[..], 56, gmtoff, 8)
    ensures StringsPacked(a[..], t)
    ensures forall i :: StringsEnd(t) <= i < H ==> a[i] == 0
  {
    PutMagic(a);
    PutFields(a, Fields(MAJOR, MINOR, ring, 0, H, size, sec, nsec, gmtoff));
    ghost var b := a[..];
    PutStrings(a, t);
    assert a[..][..8] == a[..8] == b[..8] == MAGIC;
    FieldsKept(b, a[..]);
    FieldsHeld(a[..]);
  }

  /** The magic string in cleared memory. */
  method PutMagic(a: array<byte>)
    requires a.Length == H
    modifies a
    ensures a[..8] == [82, 66, 84, 82, 65, 67, 69, 0] && forall i :: 8 <= i < H ==> a[i] == 0
  {
    forall i | 0 <= i < H {
      a[i] := 0;
    }
    forall i | 0 <= i < 8 {
      a[i] := MAGIC[i];
    }
    assert a[..8] == MAGIC;
  }

  lemma FieldsKept(b: seq<byte>, c: seq<byte>)
    requires |b| == |c| == H && forall i :: 8 <= i < 64 ==> b[i] == c[i]
    ensures FieldsOf(b) == FieldsOf(c)
  {
    FrontKept(b, c);
    FieldKept(b, c, 32, 8);
    FieldKept(b, c, 40, 8);
    FieldKept(b, c, 48, 8);
    FieldKept(b, c, 56, 8);
  }

  lemma {:induction false} SameTail(b: seq<byte>, c: seq<byte>, off: nat)
    requires |b| == |c| && forall i :: off <= i < |b| ==> b[i] == c[i]
    ensures StringAt(b, off) == StringAt(c, off)
    decreases |b| - off
  {
    if off < |b| && b[off] != 0 {
      SameTail(b, c, off + 1);
    }
  }

  /** What the reader finds in two headers that differ in wrap_pos only. */
  lemma OnlyWrapPos(b: seq<byte>, c: seq<byte>)
    requires |b| == |c| == H && StringsBehind(b)
    requires forall i :: 0 <= i < H && !(16 <= i < 24) ==> b[i] == c[i]
    ensures StringsBehind(c) && FieldsOf(c) == FieldsOf(b).(wrapPos := FieldsOf(c).wrapPos)
    ensures ReadHeader(b).Header? ==>
      ReadHeader(c) == ReadHeader(b).(f := FieldsOf(b).(wrapPos := FieldsOf(c).wrapPos))
  {
    assert c[..8] == b[..8];
    FieldKept(b, c, 8, 2);
    FieldKept(b, c, 10, 2);
    FieldKept(b, c, 12, 4);
    FieldKept(b, c, 24, 8);
    FieldKept(b, c, 32, 8);
    FieldKept(b, c, 40, 8);
    FieldKept(b, c, 48, 8);
    FieldKept(b, c, 56, 8);
    FieldKept(b, c, 64, 4);
    FieldKept(b, c, 68, 4);
    FieldKept(b, c, 72, 4);
    SameTail(b, c, Field(b, 64, 4));
    SameTail(b, c, Field(b, 68, 4));
    SameTail(b, c, Field(b, 72, 4));
  }

  /** The daemon's copy of the header when the ring wraps. */
  method SetWrapPos(a: array<byte>, wrapPos: U64)
    requires a.Length == H && ReadHeader(a[..]).Header? && StringsBehind(a[..])
    modifies a
    ensures ReadHeader(a[..]) == old(ReadHeader(a[..]).(f := ReadHeader(a[..]).f.(wrapPos := wrapPos)))
    ensures StringsBehind(a[..])
  {
    Widths();
    ghost var b := a[..];
    Store(a, 16, wrapPos, 8);
    OnlyWrapPos(b, a[..]);
  }

  // ---------- local time ----------

  /** The 64-bit signed number that an unsigned one stands for. */
  function Signed(u: U64): int {
    if u < TWO64 / 2 then u else u - TWO64
  }

  /** The seconds that the reader hands to gmtime: a sum of unsigned 64-bit numbers. */
  function LocalSeconds(sec: U64, gmtoff: U64): int {
    Signed((sec + gmtoff) % TWO64)
  }

  /** A negative zone offset survives its unsigned field. */
  lemma LocalTimeShown(sec: U64, offset: int)
    requires -(TWO64 / 2) <= offset < TWO64 / 2 && -(TWO64 / 2) <= sec + offset < TWO64 / 2
    ensures LocalSeconds(sec, offset % TWO64) == sec + offset
  {
    assert offset % TWO64 == if offset < 0 then offset + TWO64 else offset;
  }
}
