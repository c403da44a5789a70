/** How the shared memory is divided: two control words, one ring_info a ring, the buffers. */
module Layout {
  import opened Records

  /** sizeof(*fsize_ptr), sizeof(*ring_ptr) and sizeof(struct ring_info) */
  const FSIZE: nat := 8
  const RING_NUMBER: nat := 4
  const RING_INFO: nat := 1072

  /** The entries in one buffer of each of the first k rings. */
  function Total(sizes: seq<nat>, k: nat): nat
    requires k <= |sizes|
  {
    if k == 0 then 0 else Total(sizes, k - 1) + sizes[k - 1]
  }

  /** rbtrace_calc_shm_size */
  method CalcShmSize(sizes: seq<nat>) returns (size: nat)
    ensures size == FSIZE + RING_NUMBER + |sizes| * RING_INFO + 2 * Total(sizes, |sizes|) * E
  {
    size := 0;
    size := size + FSIZE;
    size := size + RING_NUMBER;
    var i := 0;
    while i < |sizes|
      invariant 0 <= i <= |sizes|
      invariant size == FSIZE + RING_NUMBER + 2 * Total(sizes, i) * E
    {
      size := size + sizes[i] * E * 2;
      i := i + 1;
    }
    size := size + |sizes| * RING_INFO;
  }

  /** rbtrace_globals_init: the offset of the first entry. */
  method GlobalsInit(rings: nat) returns (fsizeOff: nat, ringOff: nat, infoOff: nat, base: nat)
    ensures fsizeOff + FSIZE <= ringOff && ringOff + RING_NUMBER <= infoOff
    ensures infoOff + rings * RING_INFO == base == FSIZE + RING_NUMBER + rings * RING_INFO
  {
    var offset := 0;
    fsizeOff := offset;
    offset := offset + FSIZE;
    ringOff := offset;
    offset := offset + RING_NUMBER;
    infoOff := offset;
    offset := offset + RING_INFO * rings;
    base := offset;
  }

  /** ri_cir_off and ri_alt_off of ring k, which has its buffers behind those of the rings before. */
  predicate Placed(sizes: seq<nat>, cir: seq<nat>, alt: seq<nat>, k: nat)
    requires k < |cir| == |alt| <= |sizes|
  {
    cir[k] == 2 * Total(sizes, k) && alt[k] == cir[k] + sizes[k]
  }

  /** The loop over rbtrace_init_trace_info. */
  method InitRings(sizes: seq<nat>) returns (cir: seq<nat>, alt: seq<nat>)
    ensures |cir| == |alt| == |sizes|
    ensures forall k: nat :: k < |sizes| ==> Placed(sizes, cir, alt, k)
    ensures forall k :: 0 <= k < |sizes| ==> alt[k] == cir[k] + sizes[k]
    ensures forall k :: 0 < k < |sizes| ==> cir[k] == alt[k - 1] + sizes[k - 1]
    ensures sizes != [] ==> cir[0] == 0
  {
    cir, alt := [], [];
    var off := 0;
    for i := 0 to |sizes|
      invariant |cir| == |alt| == i && off == 2 * Total(sizes, i)
      invariant forall k: nat :: k < i ==> Placed(sizes, cir, alt, k)
    {
      ghost var c, a := cir, alt;
      cir := cir + [off];
      alt := alt + [off + sizes[i]];
      off := off + sizes[i] * 2;
      forall k: nat | k < i + 1 ensures Placed(sizes, cir, alt, k) {
        assert k < i ==> Placed(sizes, c, a, k);
      }
    }
    forall k | 0 <= k < |sizes|
      ensures alt[k] == cir[k] + sizes[k] && (k > 0 ==> cir[k] == alt[k - 1] + sizes[k - 1])
      ensures k == 0 ==> cir[k] == 0
    {
      assert Placed(sizes, cir, alt, k) && (k > 0 ==> Placed(sizes, cir, alt, k - 1));
    }
  }

  /** Byte x of the shared memory lies in the buffer of so many entries that starts at entry first. */
  predicate InBuffer(x: nat, base: nat, first: nat, size: nat) {
    base + first * E <= x < base + (first + size) * E
  }

  /** The buffers that hold byte x: active ones count once, alternate ones once. */
  function Holders(x: nat, base: nat, cir: seq<nat>, alt: seq<nat>, sizes: seq<nat>, k: nat): nat
    requires k <= |cir| == |alt| == |sizes|
  {
    if k == 0 then 0
    else Holders(x, base, cir, alt, sizes, k - 1)
         + (if InBuffer(x, base, cir[k - 1], sizes[k - 1]) then 1 else 0)
         + (if InBuffer(x, base, alt[k - 1], sizes[k - 1]) then 1 else 0)
  }

  lemma {:induction false} HoldersBelow(x: nat, base: nat, cir: seq<nat>, alt: seq<nat>, sizes: seq<nat>, k: nat)
    requires k <= |cir| == |alt| == |sizes|
    requires forall k: nat :: k < |sizes| ==> Placed(sizes, cir, alt, k)
    ensures Holders(x, base, cir, alt, sizes, k)
         == if base <= x < base + 2 * Total(sizes, k) * E then 1 else 0
  {
    if k > 0 {
      HoldersBelow(x, base, cir, alt, sizes, k - 1);
      assert Placed(sizes, cir, alt, k - 1);
    }
  }

  /**
   Every byte behind the control area is in exactly one buffer of one ring, and no byte of
   the control area or past the end is in any: the size computed beforehand is the size used.
   */
  method DaemonInit(sizes: seq<nat>) returns (size: nat, base: nat, cir: seq<nat>, alt: seq<nat>)
    ensures |cir| == |alt| == |sizes| && base <= size
    ensures forall x: nat :: Holders(x, base, cir, alt, sizes, |sizes|) == if base <= x < size then 1 else 0
  {
    size := CalcShmSize(sizes);
    var f, r, info;
    f, r, info, base := GlobalsInit(|sizes|);
    cir, alt := InitRings(sizes);
    forall x: nat
      ensures Holders(x, base, cir, alt, sizes, |sizes|) == if base <= x < size then 1 else 0
    {
      HoldersBelow(x, base, cir, alt, sizes, |sizes|);
    }
  }
}
