/**
 * The word layouts of the distributor registers (src/vgic_reg_access.rs):
 * one bit per interrupt (GICD_ISENABLER and its siblings), one byte per
 * interrupt (GICD_IPRIORITYR, GICD_ITARGETSR) and two bits per interrupt
 * (GICD_ICFGR).  A read ORs each interrupt's value in at its lane; a write
 * takes lane `k` out with `bit_extract`.  The lemmas say that lane `k` of a
 * packed word is the `k`-th value again, so that what a write takes apart a
 * read puts back together.
 *
 * Every raw shift and mask sits inside a named function (`Byte`, `Pair`,
 * `Place`), so that the lemmas relate applications of those functions.
 */
module RegLanes {
  import opened Utils

  /** `8 * k` as a shift amount, for the eight byte lanes of a 64-bit word. */
  function ByteShift(k: nat): (s: BitPos)
    requires k < 8
    ensures s <= 56
  {
    if k == 0 then 0 else if k == 1 then 8 else if k == 2 then 16 else if k == 3 then 24
    else if k == 4 then 32 else if k == 5 then 40 else if k == 6 then 48 else 56
  }

  /** `2 * k` as a shift amount, for the 32 two-bit lanes of a 64-bit word. */
  function PairShift(k: nat): (s: BitPos)
    requires k < 32
    ensures s <= 62
  {
    if k == 0 then 0 else if k == 1 then 2 else if k == 2 then 4 else if k == 3 then 6
    else if k == 4 then 8 else if k == 5 then 10 else if k == 6 then 12 else if k == 7 then 14
    else if k == 8 then 16 else if k == 9 then 18 else if k == 10 then 20 else if k == 11 then 22
    else if k == 12 then 24 else if k == 13 then 26 else if k == 14 then 28 else if k == 15 then 30
    else if k == 16 then 32 else if k == 17 then 34 else if k == 18 then 36 else if k == 19 then 38
    else if k == 20 then 40 else if k == 21 then 42 else if k == 22 then 44 else if k == 23 then 46
    else if k == 24 then 48 else if k == 25 then 50 else if k == 26 then 52 else if k == 27 then 54
    else if k == 28 then 56 else if k == 29 then 58 else if k == 30 then 60 else 62
  }

  /** The byte lanes start at bit `8 * k`. */
  lemma ByteShiftIs(k: nat)
    requires k < 8
    ensures ByteShift(k) as int == 8 * k
  {
  }

  /** The two-bit lanes start at bit `2 * k`. */
  lemma PairShiftIs(k: nat)
    requires k < 32
    ensures PairShift(k) as int == 2 * k
  {
  }

  lemma ByteShiftOrder(n: nat, k: nat)
    requires n < k < 8
    ensures ByteShift(n) + 8 <= ByteShift(k)
  {
  }

  lemma PairShiftOrder(n: nat, k: nat)
    requires n < k < 32
    ensures PairShift(n) + 2 <= PairShift(k)
  {
  }

  // The raw operations: eight or two bits of `v` from bit `s` on, and `x` ORed in at bit `s`.

  function Byte(v: bv64, s: BitPos): bv64 { (v >> s) & 0xff }

  function Pair(v: bv64, s: BitPos): bv64 { (v >> s) & 3 }

  function Place(w: bv64, x: bv64, s: BitPos): bv64 { w | (x << s) }

  /** Byte lane `k` of `v`. */
  function ByteLane(v: bv64, k: nat): bv64
    requires k < 8
  {
    Byte(v, ByteShift(k))
  }

  /** Two-bit lane `k` of `v`. */
  function PairLane(v: bv64, k: nat): bv64
    requires k < 32
  {
    Pair(v, PairShift(k))
  }

  /** `w | (x << (8 * n))`: one step of a byte register's read loop. */
  function BytePut(w: bv64, x: bv64, n: nat): bv64
    requires n < 8
  {
    Place(w, x, ByteShift(n))
  }

  /** `w | (x << (2 * n))`: one step of the read loop of GICD_ICFGR. */
  function PairPut(w: bv64, x: bv64, n: nat): bv64
    requires n < 32
  {
    Place(w, x, PairShift(n))
  }

  /** `w | (1 << n)` when `b` holds: one step of a one-bit register's read loop. */
  function BitPut(w: bv64, b: bool, n: nat): bv64
    requires n < 64
  {
    if b then w | Single(n) else w
  }

  /** The word a one-bit register's read loop builds from the per-interrupt flags. */
  function BitWord(bs: seq<bool>): bv64
    requires |bs| <= 64
  {
    if |bs| == 0 then 0 else BitPut(BitWord(bs[..|bs| - 1]), bs[|bs| - 1], |bs| - 1)
  }

  /** The word a byte register's read loop builds from the per-interrupt bytes. */
  function ByteWord(bs: seq<bv64>): bv64
    requires |bs| <= 8
  {
    if |bs| == 0 then 0 else BytePut(ByteWord(bs[..|bs| - 1]), bs[|bs| - 1], |bs| - 1)
  }

  /** The word the read loop of GICD_ICFGR builds from the per-interrupt configurations. */
  function PairWord(bs: seq<bv64>): bv64
    requires |bs| <= 32
  {
    if |bs| == 0 then 0 else PairPut(PairWord(bs[..|bs| - 1]), bs[|bs| - 1], |bs| - 1)
  }

  /** The flags of the low `n` bits of `v`, as a one-bit register's write loop reads them. */
  function BitLanes(v: bv64, n: nat): (ls: seq<bool>)
    requires n <= 64
    ensures |ls| == n && forall k :: 0 <= k < n ==> ls[k] == Bit(v, k)
  {
    if n == 0 then [] else BitLanes(v, n - 1) + [Bit(v, n - 1)]
  }

  /** The byte lanes of `v` below `n`, as a byte register's write loop takes them out. */
  function ByteLanes(v: bv64, n: nat): (ls: seq<bv64>)
    requires n <= 8
    ensures |ls| == n && forall k :: 0 <= k < n ==> ls[k] == ByteLane(v, k)
  {
    if n == 0 then [] else ByteLanes(v, n - 1) + [ByteLane(v, n - 1)]
  }

  /** The two-bit lanes of `v` below `n`, as the write loop of GICD_ICFGR takes them out. */
  function PairLanes(v: bv64, n: nat): (ls: seq<bv64>)
    requires n <= 32
    ensures |ls| == n && forall k :: 0 <= k < n ==> ls[k] == PairLane(v, k)
  {
    if n == 0 then [] else PairLanes(v, n - 1) + [PairLane(v, n - 1)]
  }

  /** `bit_extract(v, 8 * k, 8)` is byte lane `k`, a value below 256. */
  lemma ByteLaneExtract(v: bv64, k: nat)
    requires k < 8
    ensures BitExtract(v, ByteShift(k), 8) == ByteLane(v, k) && ByteLane(v, k) < 256
  {
  }

  /** `bit_extract(v, 2 * k, 2)` is two-bit lane `k`, a value below 4. */
  lemma PairLaneExtract(v: bv64, k: nat)
    requires k < 32
    ensures BitExtract(v, PairShift(k), 2) == PairLane(v, k) && PairLane(v, k) < 4
  {
  }

  lemma ByteOr(a: bv64, b: bv64, s: BitPos)
    ensures Byte(a | b, s) == Byte(a, s) | Byte(b, s)
  {
  }

  lemma PairOr(a: bv64, b: bv64, s: BitPos)
    ensures Pair(a | b, s) == Pair(a, s) | Pair(b, s)
  {
  }

  lemma ByteSame(x: bv64, s: BitPos)
    requires x < 256 && s <= 56
    ensures Byte(x << s, s) == x
  {
  }

  lemma PairSame(x: bv64, s: BitPos)
    requires x < 4 && s <= 62
    ensures Pair(x << s, s) == x
  {
  }

  lemma WordBelow(v: bv64, t: BitPos)
    requires v < 1 << t
    ensures v >> t == 0
  {
  }

  /** A byte placed below lane `t` does not reach it. */
  lemma ByteBelow(x: bv64, s: BitPos, t: BitPos)
    requires x < 256 && s <= 56 && s + 8 <= t
    ensures Byte(x << s, t) == 0
  {
    WordBelow(x << s, t);
  }

  /** A byte placed above lane `t` does not reach it either. */
  lemma ByteAbove(x: bv64, s: BitPos, t: BitPos)
    requires x < 256 && t <= 56 && t + 8 <= s
    ensures Byte(x << s, t) == 0
  {
  }

  lemma PairBelow(x: bv64, s: BitPos, t: BitPos)
    requires x < 4 && s <= 62 && s + 2 <= t
    ensures Pair(x << s, t) == 0
  {
    WordBelow(x << s, t);
  }

  lemma PairAbove(x: bv64, s: BitPos, t: BitPos)
    requires x < 4 && t <= 62 && t + 2 <= s
    ensures Pair(x << s, t) == 0
  {
  }

  lemma OrZero(x: bv64)
    ensures x | 0 == x && 0 | x == x
  {
  }

  lemma ByteZero(t: BitPos)
    ensures Byte(0, t) == 0
  {
  }

  lemma PairZero(t: BitPos)
    ensures Pair(0, t) == 0
  {
  }

  // Placing a value at one lane: that lane gets the value, the others keep theirs.

  lemma PlaceByteTop(w: bv64, x: bv64, s: BitPos)
    requires x < 256 && s <= 56 && Byte(w, s) == 0
    ensures Byte(Place(w, x, s), s) == x
  {
    ByteOr(w, x << s, s);
    ByteSame(x, s);
    OrZero(x);
  }

  lemma PlaceByteBelow(w: bv64, x: bv64, s: BitPos, t: BitPos)
    requires x < 256 && s <= 56 && s + 8 <= t
    ensures Byte(Place(w, x, s), t) == Byte(w, t)
  {
    ByteOr(w, x << s, t);
    ByteBelow(x, s, t);
    OrZero(Byte(w, t));
  }

  lemma PlaceByteAbove(w: bv64, x: bv64, s: BitPos, t: BitPos)
    requires x < 256 && t <= 56 && t + 8 <= s
    ensures Byte(Place(w, x, s), t) == Byte(w, t)
  {
    ByteOr(w, x << s, t);
    ByteAbove(x, s, t);
    OrZero(Byte(w, t));
  }

  lemma PlacePairTop(w: bv64, x: bv64, s: BitPos)
    requires x < 4 && s <= 62 && Pair(w, s) == 0
    ensures Pair(Place(w, x, s), s) == x
  {
    PairOr(w, x << s, s);
    PairSame(x, s);
    OrZero(x);
  }

  lemma PlacePairBelow(w: bv64, x: bv64, s: BitPos, t: BitPos)
    requires x < 4 && s <= 62 && s + 2 <= t
    ensures Pair(Place(w, x, s), t) == Pair(w, t)
  {
    PairOr(w, x << s, t);
    PairBelow(x, s, t);
    OrZero(Pair(w, t));
  }

  lemma PlacePairAbove(w: bv64, x: bv64, s: BitPos, t: BitPos)
    requires x < 4 && t <= 62 && t + 2 <= s
    ensures Pair(Place(w, x, s), t) == Pair(w, t)
  {
    PairOr(w, x << s, t);
    PairAbove(x, s, t);
    OrZero(Pair(w, t));
  }

  lemma BytePutSame(w: bv64, x: bv64, n: nat)
    requires n < 8 && x < 256 && ByteLane(w, n) == 0
    ensures ByteLane(BytePut(w, x, n), n) == x
  {
    PlaceByteTop(w, x, ByteShift(n));
  }

  lemma BytePutOther(w: bv64, x: bv64, n: nat, k: nat)
    requires n < 8 && k < 8 && k != n && x < 256
    ensures ByteLane(BytePut(w, x, n), k) == ByteLane(w, k)
  {
    if n < k {
      ByteShiftOrder(n, k);
      PlaceByteBelow(w, x, ByteShift(n), ByteShift(k));
    } else {
      ByteShiftOrder(k, n);
      PlaceByteAbove(w, x, ByteShift(n), ByteShift(k));
    }
  }

  lemma PairPutSame(w: bv64, x: bv64, n: nat)
    requires n < 32 && x < 4 && PairLane(w, n) == 0
    ensures PairLane(PairPut(w, x, n), n) == x
  {
    PlacePairTop(w, x, PairShift(n));
  }

  lemma PairPutOther(w: bv64, x: bv64, n: nat, k: nat)
    requires n < 32 && k < 32 && k != n && x < 4
    ensures PairLane(PairPut(w, x, n), k) == PairLane(w, k)
  {
    if n < k {
      PairShiftOrder(n, k);
      PlacePairBelow(w, x, PairShift(n), PairShift(k));
    } else {
      PairShiftOrder(k, n);
      PlacePairAbove(w, x, PairShift(n), PairShift(k));
    }
  }

  lemma BitPutBit(w: bv64, b: bool, n: nat, k: nat)
    requires n < 64 && k < 64
    ensures Bit(BitPut(w, b, n), k) <==> (k == n && b) || Bit(w, k)
  {
    if b {
      OrBit(w, Single(n), k);
      SingleIs(n, k);
    }
  }

  /** Packing one more flag puts it at the next position. */
  lemma BitWordSnoc(bs: seq<bool>, b: bool)
    requires |bs| < 64
    ensures BitWord(bs + [b]) == BitPut(BitWord(bs), b, |bs|)
  {
    assert (bs + [b])[..|bs|] == bs;
  }

  /** Packing one more byte puts it at the next byte lane. */
  lemma ByteWordSnoc(bs: seq<bv64>, x: bv64)
    requires |bs| < 8
    ensures ByteWord(bs + [x]) == BytePut(ByteWord(bs), x, |bs|)
  {
    assert (bs + [x])[..|bs|] == bs;
  }

  /** Packing one more field puts it at the next two-bit lane. */
  lemma PairWordSnoc(bs: seq<bv64>, x: bv64)
    requires |bs| < 32
    ensures PairWord(bs + [x]) == PairPut(PairWord(bs), x, |bs|)
  {
    assert (bs + [x])[..|bs|] == bs;
  }

  /** Every bit of a packed flag word, at once. */
  lemma BitWordBits(bs: seq<bool>)
    requires |bs| <= 64
    ensures forall k :: 0 <= k < 64 ==> (Bit(BitWord(bs), k) <==> k < |bs| && bs[k])
  {
    forall k | 0 <= k < 64 {
      BitWordBit(bs, k);
    }
  }

  /** Every lane of a packed byte word, at once. */
  lemma ByteWordLanes(bs: seq<bv64>)
    requires |bs| <= 8
    requires forall j :: 0 <= j < |bs| ==> bs[j] < 256
    ensures forall k :: 0 <= k < 8 ==> ByteLane(ByteWord(bs), k) == if k < |bs| then bs[k] else 0
  {
    forall k | 0 <= k < 8 {
      ByteWordLane(bs, k);
    }
  }

  /** Every lane of a packed field word, at once. */
  lemma PairWordLanes(bs: seq<bv64>)
    requires |bs| <= 32
    requires forall j :: 0 <= j < |bs| ==> bs[j] < 4
    ensures forall k :: 0 <= k < 32 ==> PairLane(PairWord(bs), k) == if k < |bs| then bs[k] else 0
  {
    forall k | 0 <= k < 32 {
      PairWordLane(bs, k);
    }
  }

  /** Bit `k` of a one-bit register word is set exactly when flag `k` is. */
  lemma {:induction false} BitWordBit(bs: seq<bool>, k: nat)
    requires |bs| <= 64 && k < 64
    ensures Bit(BitWord(bs), k) <==> k < |bs| && bs[k]
  {
    if |bs| == 0 {
      ZeroBit(k);
    } else {
      var n := |bs| - 1;
      BitWordBit(bs[..n], k);
      BitPutBit(BitWord(bs[..n]), bs[n], n, k);
    }
  }

  /** Byte lane `k` of a byte register word is value `k`, and zero past the last value. */
  lemma {:induction false} ByteWordLane(bs: seq<bv64>, k: nat)
    requires |bs| <= 8 && k < 8
    requires forall j :: 0 <= j < |bs| ==> bs[j] < 256
    ensures ByteLane(ByteWord(bs), k) == if k < |bs| then bs[k] else 0
  {
    if |bs| == 0 {
      ByteZero(ByteShift(k));
    } else {
      var n := |bs| - 1;
      if k == n {
        ByteWordLane(bs[..n], n);
        BytePutSame(ByteWord(bs[..n]), bs[n], n);
      } else {
        ByteWordLane(bs[..n], k);
        BytePutOther(ByteWord(bs[..n]), bs[n], n, k);
      }
    }
  }

  /** Two-bit lane `k` of a GICD_ICFGR word is value `k`, and zero past the last value. */
  lemma {:induction false} PairWordLane(bs: seq<bv64>, k: nat)
    requires |bs| <= 32 && k < 32
    requires forall j :: 0 <= j < |bs| ==> bs[j] < 4
    ensures PairLane(PairWord(bs), k) == if k < |bs| then bs[k] else 0
  {
    if |bs| == 0 {
      PairZero(PairShift(k));
    } else {
      var n := |bs| - 1;
      if k == n {
        PairWordLane(bs[..n], n);
        PairPutSame(PairWord(bs[..n]), bs[n], n);
      } else {
        PairWordLane(bs[..n], k);
        PairPutOther(PairWord(bs[..n]), bs[n], n, k);
      }
    }
  }

  /**
   * What a write takes apart a read puts back: packing the flags of the low
   * `n` bits of `v` gives those bits of `v`, and nothing above.
   */
  lemma BitLanesRoundTrip(v: bv64, n: nat, k: nat)
    requires n <= 64 && k < 64
    ensures Bit(BitWord(BitLanes(v, n)), k) <==> k < n && Bit(v, k)
  {
    BitWordBit(BitLanes(v, n), k);
  }

  /** The same for the byte lanes below `n`. */
  lemma ByteLanesRoundTrip(v: bv64, n: nat, k: nat)
    requires n <= 8 && k < 8
    ensures ByteLane(ByteWord(ByteLanes(v, n)), k) == if k < n then ByteLane(v, k) else 0
  {
    var ls := ByteLanes(v, n);
    forall j | 0 <= j < n
      ensures ls[j] < 256
    {
      ByteLaneExtract(v, j);
    }
    ByteWordLane(ls, k);
  }

  /** The same for the two-bit lanes of GICD_ICFGR. */
  lemma PairLanesRoundTrip(v: bv64, n: nat, k: nat)
    requires n <= 32 && k < 32
    ensures PairLane(PairWord(PairLanes(v, n)), k) == if k < n then PairLane(v, k) else 0
  {
    var ls := PairLanes(v, n);
    forall j | 0 <= j < n
      ensures ls[j] < 4
    {
      PairLaneExtract(v, j);
    }
    PairWordLane(ls, k);
  }
}
