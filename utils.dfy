/**
 * Bit helpers of the engine (src/utils/mod.rs).  A `usize` is a `bv64`; a
 * shift amount is a `BitPos`, a 7-bit vector below 64, so that the amounts the
 * Rust code would reject (`>> 64` overflows) are ruled out by the type.
 */
module Utils {
  import opened Wrappers

  type BitPos = k: bv7 | k < 64

  /** A Rust `u8` held in a 64-bit word, so that masks and shifts need no widening. */
  type U8 = b: bv64 | b < 256

  /** Bit `k` of `b` is one. */
  predicate BitAt(b: bv64, k: BitPos) {
    (b >> k) & 1 == 1
  }

  /** Bit `i` of `b` is one, for a position given as a number. */
  predicate Bit(b: bv64, i: nat)
    requires i < 64
  {
    BitAt(b, i as bv7)
  }

  /** `bit_extract`: the `len` bits of `bits` starting at bit `off`. */
  function BitExtract(bits: bv64, off: BitPos, len: BitPos): (r: bv64)
    ensures r < 1 << len
  {
    (bits >> off) & ((1 << len) - 1)
  }

  /** `bit_get`: bit `off` of `bits`, as 0 or 1. */
  function BitGet(bits: bv64, off: BitPos): (r: bv64)
    ensures r == 1 <==> BitAt(bits, off)
    ensures r == 0 <==> !BitAt(bits, off)
  {
    (bits >> off) & 1
  }

  /** `bit_set`: `bits` with bit `off` raised. */
  function BitSet(bits: bv64, off: BitPos): (r: bv64)
    ensures BitAt(r, off)
  {
    bits | (1 << off)
  }

  /** `bit_set` leaves every other bit as it was. */
  lemma BitSetOthers(bits: bv64, off: BitPos, k: BitPos)
    requires k != off
    ensures BitAt(BitSet(bits, off), k) == BitAt(bits, k)
  {
  }

  /**
   * `bit_extract` is the shifted word modulo `2^len`, for every field length
   * the engine extracts (one bit, the two-bit configuration and state
   * fields, the five-bit SGI source, bytes, the 9- and 10-bit ids and the
   * 12-bit page offset), at any offset.
   */
  lemma BitExtractValue(bits: bv64, off: BitPos)
    ensures BitExtract(bits, off, 1) == (bits >> off) % 2
    ensures BitExtract(bits, off, 2) == (bits >> off) % 4
    ensures BitExtract(bits, off, 5) == (bits >> off) % 0x20
    ensures BitExtract(bits, off, 8) == (bits >> off) % 0x100
    ensures BitExtract(bits, off, 9) == (bits >> off) % 0x200
    ensures BitExtract(bits, off, 10) == (bits >> off) % 0x400
    ensures BitExtract(bits, off, 12) == (bits >> off) % 0x1000
  {
  }

  /** Raising a bit twice is raising it once. */
  lemma BitSetIdempotent(bits: bv64, off: BitPos)
    ensures BitSet(BitSet(bits, off), off) == BitSet(bits, off)
  {
  }

  /** A one-bit extract is one exactly when that bit is set, and zero otherwise. */
  lemma BitExtractOne(bits: bv64, off: BitPos)
    ensures BitExtract(bits, off, 1) == 1 <==> BitAt(bits, off)
    ensures BitExtract(bits, off, 1) == 0 <==> !BitAt(bits, off)
  {
  }

  /** The number of positions `i` in `[lo, hi)` whose bit in `b` equals `wanted`. */
  function Count(b: bv64, lo: nat, hi: nat, wanted: bool): nat
    requires lo <= hi <= 64
    decreases hi - lo
  {
    if lo == hi then 0
    else Count(b, lo, hi - 1, wanted) + (if Bit(b, hi - 1) == wanted then 1 else 0)
  }

  /**
   * `bitmap_find_nth`: the position of the `nth` bit equal to `wanted` in
   * `[start, start + size)`, counting from one; `None` when the window leaves
   * the 64-bit bitmap or holds fewer than `nth` such bits.
   */
  method BitmapFindNth(bitmap: bv64, start: nat, size: nat, nth: nat, wanted: bool) returns (r: Option<nat>)
    ensures start + size > 64 ==> r == None
    ensures r.Some? ==> start <= r.value < start + size && Bit(bitmap, r.value) == wanted
                        && Count(bitmap, start, r.value + 1, wanted) == nth && nth >= 1
    ensures r.None? && start + size <= 64 ==> nth == 0 || Count(bitmap, start, start + size, wanted) < nth
  {
    if size + start > 64 {
      return None;
    }
    var count := 0;
    var bit: bv64 := if wanted then 1 else 0;
    var end := start + size;
    var i := start;
    while i < end
      invariant start <= i <= end
      invariant count == Count(bitmap, start, i, wanted)
      invariant nth == 0 || count < nth
    {
      BitExtractOne(bitmap, i as bv7);
      if BitExtract(bitmap, i as bv7, 1) == bit {
        count := count + 1;
        if count == nth {
          return Some(i);
        }
      }
      i := i + 1;
    }
    return None;
  }

  /** Counting a window grows by one position at a time, so the counts of its prefixes are monotone. */
  lemma {:induction false} CountMonotone(b: bv64, lo: nat, mid: nat, hi: nat, wanted: bool)
    requires lo <= mid <= hi <= 64
    ensures Count(b, lo, mid, wanted) <= Count(b, lo, hi, wanted)
    decreases hi - mid
  {
    if mid < hi {
      CountMonotone(b, lo, mid, hi - 1, wanted);
    }
  }

  /**
   * The position found is the first one at which the count reaches `nth`:
   * every earlier position of the window has a smaller count.
   */
  lemma {:induction false} FindNthIsFirst(b: bv64, start: nat, i: nat, j: nat, nth: nat, wanted: bool)
    requires start <= j < i < 64
    requires Bit(b, i) == wanted && Count(b, start, i + 1, wanted) == nth
    ensures Count(b, start, j + 1, wanted) < nth
  {
    CountMonotone(b, start, j + 1, i, wanted);
  }

  /** A window without a matching position: every bit in it differs from `wanted`. */
  lemma {:induction false} CountZero(b: bv64, lo: nat, hi: nat, wanted: bool)
    requires lo <= hi <= 64 && Count(b, lo, hi, wanted) == 0
    ensures forall i :: lo <= i < hi ==> Bit(b, i) != wanted
    decreases hi - lo
  {
    if lo < hi {
      CountZero(b, lo, hi - 1, wanted);
    }
  }

  /** Raising bits never lowers one: bit `i` of `a | b` is bit `i` of `a` or of `b`. */
  lemma OrBit(a: bv64, b: bv64, i: nat)
    requires i < 64
    ensures Bit(a | b, i) <==> Bit(a, i) || Bit(b, i)
  {
    var k := i as bv7;
    assert ((a | b) >> k) & 1 == 1 <==> ((a >> k) & 1 == 1 || (b >> k) & 1 == 1);
  }

  /** Bit `i` of `a & !b` is bit `i` of `a` where `b` lacks it. */
  lemma AndNotBit(a: bv64, b: bv64, i: nat)
    requires i < 64
    ensures Bit(a & !b, i) <==> Bit(a, i) && !Bit(b, i)
  {
    AndNotBitAt(a, b, i as bv7);
  }

  lemma AndNotBitAt(a: bv64, b: bv64, k: BitPos)
    ensures BitAt(a & !b, k) <==> BitAt(a, k) && !BitAt(b, k)
  {
    TestBitPos(a & !b, k);
    TestBitPos(a, k);
    TestBitPos(b, k);
  }

  lemma ZeroBit(i: nat)
    requires i < 64
    ensures !Bit(0, i)
  {
    var k := i as bv7;
    assert ((0 as bv64) >> k) & 1 == 0;
  }

  lemma OneBit(m: BitPos, k: BitPos)
    ensures BitAt(1 << m, k) <==> m == k
  {
  }

  lemma PosInjective(n: nat, i: nat)
    requires n < 64 && i < 64
    ensures (n as bv7 == i as bv7) <==> n == i
  {
  }

  /** The word `1 << n` has exactly bit `n` set. */
  lemma {:induction false} SingleBit(n: nat, i: nat)
    requires n < 64 && i < 64
    ensures Bit(1 << (n as bv7), i) <==> n == i
  {
    OneBit(n as bv7, i as bv7);
    PosInjective(n, i);
  }

  lemma TestBitPos(x: bv64, k: BitPos)
    ensures x & (1 << k) != 0 <==> BitAt(x, k)
  {
  }

  /** The word `1 << n`. */
  function Single(n: nat): bv64
    requires n < 64
  {
    1 << (n as bv7)
  }

  /** `Single(n)` has exactly bit `n` set. */
  lemma SingleIs(n: nat, i: nat)
    requires n < 64 && i < 64
    ensures Bit(Single(n), i) <==> n == i
  {
    SingleBit(n, i);
  }

  /** The source's test `x & (1 << i) != 0` reads bit `i`. */
  lemma TestSingle(x: bv64, i: nat)
    requires i < 64
    ensures x & Single(i) != 0 <==> Bit(x, i)
  {
    TestBitPos(x, i as bv7);
  }
}
