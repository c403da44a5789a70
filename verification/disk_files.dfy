/** The bytes of a trace file: 512 of header, read through its fields, and the records. */
module DiskFiles {
  import opened Records
  import opened Sequences
  import opened Wrappers
  import opened TraceFiles
  import opened FileHeader
  import opened Reader
  import opened Tracer
  import opened Sessions
  import opened ReadingBack

  /** The bytes b are a file with this header field, ring size and data area. */
  ghost predicate Stores(b: seq<byte>, img: Image) {
    && |b| >= H && b[H..] == img.data
    && ReadHeader(b[..H]).Header?
    && ReadHeader(b[..H]).f.wrapPos == img.wrapPos
    && ReadHeader(b[..H]).f.nrRecords == img.nrRecords
  }

  /** What prbt prints of the bytes of a file; None for a header or data it cannot use. */
  ghost function Printed(b: seq<byte>): Option<seq<Record>> {
    if |b| < H then None
    else match ReadHeader(b[..H])
      case Failed(_) => None
      case Header(f, _, _, _) =>
        var img := Image(f.wrapPos, f.nrRecords, b[H..]);
        if Readable(img) then Some(Parsed(img)) else None
  }

  /** The writer's bytes for a file: a header for a ring of that size, moved if it has wrapped. */
  method FileBytes(img: Image, ring: U32, sec: U64, nsec: U64, gmtoff: U64, t: Text) returns (b: seq<byte>)
    requires Fits(t) && img.nrRecords < 0x1_0000_0000 && img.wrapPos < TWO64
    ensures Stores(b, img)
  {
    var a := new byte[H];
    FormatHeader(a, ring, img.nrRecords, sec, nsec, gmtoff, t);
    if img.wrapPos != 0 {
      SetWrapPos(a, img.wrapPos);
    }
    b := a[..] + img.data;
    assert b[..H] == a[..];
  }

  /** The bytes of several files hold these contents. */
  ghost predicate AllStored(disk: seq<seq<byte>>, fs: seq<Image>) {
    |disk| == |fs| && forall i :: 0 <= i < |fs| ==> Stores(disk[i], fs[i])
  }

  ghost predicate AllPrintable(disk: seq<seq<byte>>) {
    forall i :: 0 <= i < |disk| ==> Printed(disk[i]).Some?
  }

  /** What prbt prints of several files, one after the other. */
  ghost function PrintAll(disk: seq<seq<byte>>): seq<Record>
    requires AllPrintable(disk)
  {
    if disk == [] then [] else PrintAll(disk[..|disk| - 1]) + Printed(disk[|disk| - 1]).value
  }

  lemma StoredPrints(b: seq<byte>, img: Image)
    requires Stores(b, img) && Readable(img)
    ensures Printed(b) == Some(Parsed(img))
  {
    var f := ReadHeader(b[..H]).f;
    assert Image(f.wrapPos, f.nrRecords, b[H..]) == img;
  }

  lemma {:induction false} PrintedInOrder(disk: seq<seq<byte>>, fs: seq<Image>)
    requires |disk| == |fs| && AllReadable(fs)
    requires forall i :: 0 <= i < |disk| ==> Printed(disk[i]) == Some(Parsed(fs[i]))
    ensures PrintAll(disk) == ReadAll(fs)
  {
    if disk != [] {
      PrintedInOrder(disk[..|disk| - 1], fs[..|fs| - 1]);
    }
  }

  lemma AllStoredPrint(disk: seq<seq<byte>>, fs: seq<Image>)
    requires AllStored(disk, fs) && AllReadable(fs)
    ensures AllPrintable(disk) && PrintAll(disk) == ReadAll(fs)
  {
    forall i | 0 <= i < |disk| ensures Printed(disk[i]) == Some(Parsed(fs[i])) {
      StoredPrints(disk[i], fs[i]);
    }
    PrintedInOrder(disk, fs);
  }

  /**
   When ri_flush never exceeds one, the bytes that a session leaves on disk are printed as
   the records given to rbtrace: all, the latest, or none for an unaligned end.
   */
  lemma BytesEndToEnd(s0: State, path: string, ops: seq<Op>, t: Turn, disk: seq<seq<byte>>)
    requires Session(s0, path, ops, t) && Calm(CtrlOpen(s0, path).0, ops)
    requires var s' := Iterate(Run(CtrlOpen(s0, path).0, ops), t);
      s'.hist.base <= |s'.files| && AllStored(disk, SessionFiles(s'))
    ensures var s := Run(CtrlOpen(s0, path).0, ops);
      && s.files != [] && AllPrintable(disk)
      && (s.wrapPos == 0 ==> PrintAll(disk) == TracesOf(ops))
      && (s.wrapPos != 0 && !EndsUnaligned(s) ==>
            && FileRecords(s) <= LastReadable(s) <= |TracesOf(ops)|
            && PrintAll(disk) == Last(TracesOf(ops), LastReadable(s)))
      && (EndsUnaligned(s) ==> PrintAll(disk) == [])
  {
    EndToEnd(s0, path, ops, t);
    AllStoredPrint(disk, SessionFiles(Iterate(Run(CtrlOpen(s0, path).0, ops), t)));
  }
}
