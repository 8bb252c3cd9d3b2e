/**
 * The GICv2 virtual interface control registers of the current core, as
 * described in section 5.3 of the ARM GIC Architecture Specification v2
 * (IHI 0048B): the list registers, HCR and MISR.  ELRSR and EISR are not
 * stored: the hardware derives them from the list registers, and so does the
 * model.
 */
module Gich {
  import opened Utils
  import opened Consts

  /** GICH_HCR.En, bit 0: the virtual CPU interface is enabled. */
  const HcrEn: bv32 := 1
  /** GICH_HCR.NPIE, bit 3: maintenance interrupt when no list register is pending. */
  const HcrNpie: bv32 := 1 << 3
  /** GICH_HCR.EOICount, bits 31:27: EOIs that found no matching list register. */
  const HcrEoiCountMask: bv32 := 0x1f << 27
  const HcrEoiCountOne: bv32 := 1 << 27

  /** GICH_MISR.EOI, LRENP and NP: bits 0, 2 and 3. */
  const MisrEoi: bv32 := 1
  const MisrLrenp: bv32 := 1 << 2
  const MisrNp: bv32 := 1 << 3

  /** An HCR update that at most requests NPIE, as every HCR write of the engine outside the maintenance loop does. */
  predicate NpieOnly(before: bv32, after: bv32)
  {
    after == before || after == before | HcrNpie
  }

  lemma NpieOnlyTrans(a: bv32, b: bv32, c: bv32)
    requires NpieOnly(a, b) && NpieOnly(b, c)
    ensures NpieOnly(a, c)
  {
  }

  /** Requesting NPIE leaves EOICount alone, and a requested NPIE stays requested. */
  lemma NpieOnlyFields(a: bv32, b: bv32)
    requires NpieOnly(a, b)
    ensures b & HcrEoiCountMask == a & HcrEoiCountMask
    ensures a & HcrNpie != 0 ==> b & HcrNpie != 0
  {
  }

  /** The EOICount field of HCR as a number. */
  function EoiCount(hcr: bv32): (n: nat)
    ensures n == 0 <==> hcr & HcrEoiCountMask == 0
  {
    ((hcr & HcrEoiCountMask) >> 27) as nat
  }

  /**
   * Taking one from a nonzero EOICount, `hcr - (1 << 27)`, lowers the field
   * by exactly one with no borrow out of it, so every other HCR bit stays.
   */
  lemma EoiCountDecrement(hcr: bv32)
    requires hcr & HcrEoiCountMask != 0
    ensures EoiCount(hcr - HcrEoiCountOne) == EoiCount(hcr) - 1
    ensures HcrRest(hcr - HcrEoiCountOne) == HcrRest(hcr)
  {
  }

  /** HCR with the EOICount field cleared: every bit the count does not hold. */
  function HcrRest(hcr: bv32): (r: bv32)
    ensures r & HcrEoiCountMask == 0
    ensures hcr & HcrEoiCountMask == 0 ==> r == hcr
  {
    hcr & !HcrEoiCountMask
  }

  /**
   * A GICH_LRn word: virtual id in bits 9:0, the ten bits 19:10 (physical id
   * when HW is set, otherwise EOI in bit 19 and the SGI source in bits 12:10),
   * priority in bits 27:23, state in bits 29:28 and HW in bit 31.
   */
  function EncodeLr(vid: bv32, mid: bv32, prio: bv32, state: bv32, hw: bool): bv32
    requires vid < 1024 && mid < 1024 && prio < 32 && state < 4
  {
    vid | (mid << 10) | (prio << 23) | (state << 28) | (if hw then 1 << 31 else 0)
  }

  function LrVid(w: bv32): (r: bv32) ensures r < 1024 { w & 0x3ff }
  function LrMid(w: bv32): (r: bv32) ensures r < 1024 { (w >> 10) & 0x3ff }
  function LrSource(w: bv32): (r: bv32) ensures r < 8 { (w >> 10) & 0x7 }
  function LrPrio(w: bv32): (r: bv32) ensures r < 32 { (w >> 23) & 0x1f }
  function LrState(w: bv32): (r: bv32) ensures r < 4 { (w >> 28) & 0x3 }
  predicate LrHw(w: bv32) { w & 0x8000_0000 != 0 }
  predicate LrEoi(w: bv32) { w & 0x8_0000 != 0 }

  /** Every field of an encoded word decodes to the value it was built from. */
  lemma EncodeLrFields(vid: bv32, mid: bv32, prio: bv32, state: bv32, hw: bool)
    requires vid < 1024 && mid < 1024 && prio < 32 && state < 4
    ensures LrVid(EncodeLr(vid, mid, prio, state, hw)) == vid
    ensures LrMid(EncodeLr(vid, mid, prio, state, hw)) == mid
    ensures LrPrio(EncodeLr(vid, mid, prio, state, hw)) == prio
    ensures LrState(EncodeLr(vid, mid, prio, state, hw)) == state
    ensures LrHw(EncodeLr(vid, mid, prio, state, hw)) == hw
  {
  }

  /** For a software interrupt the ten middle bits carry the EOI flag and the SGI source. */
  lemma MidFields(w: bv32)
    ensures LrSource(w) == LrMid(w) & 0x7
    ensures LrEoi(w) <==> LrMid(w) & 0x200 != 0
  {
  }

  /** An interrupt id as the ten-bit field of a list register. */
  function IdBits(id: nat): (b: bv32)
    requires id < GicIntsMax
    ensures b < 1024
  {
    id as bv32
  }

  /** The five priority bits a list register keeps of an eight-bit priority. */
  function Prio5(p: U8): (r: bv32)
    ensures r < 32
  {
    ((p >> 3) & 0x1f) as bv32
  }

  /** A number below eight as a three-bit field. */
  function Bits3(n: nat): (b: bv32)
    requires n < 8
    ensures b < 8
  {
    if n == 0 then 0 else if n == 1 then 1 else if n == 2 then 2 else if n == 3 then 3
    else if n == 4 then 4 else if n == 5 then 5 else if n == 6 then 6 else 7
  }

  /** The state bits as the number `to_num` uses: bit 0 pending, bit 1 active. */
  function LrStateNum(w: bv32): (r: bv64)
    ensures r < 4
    ensures r & 1 != 0 <==> LrState(w) & 1 != 0
    ensures r & 2 != 0 <==> LrState(w) & 2 != 0
    ensures r == 0 <==> LrState(w) == 0
  {
    var s := LrState(w);
    if s == 0 then 0 else if s == 1 then 1 else if s == 2 then 2 else 3
  }

  /** An ELRSR bit: the register holds nothing the guest still has to see or complete. */
  predicate LrEmpty(w: bv32) { LrState(w) == 0 && (LrHw(w) || !LrEoi(w)) }

  /** An EISR bit: the guest completed a software interrupt that asked for a maintenance EOI. */
  predicate LrEoiPending(w: bv32) { LrState(w) == 0 && !LrHw(w) && LrEoi(w) }

  /** A zero word is empty and asks for nothing. */
  lemma ZeroLr()
    ensures LrEmpty(0) && !LrEoiPending(0) && LrState(0) == 0
  {
  }

  predicate LrFlag(w: bv32, eoi: bool) { if eoi then LrEoiPending(w) else LrEmpty(w) }

  /** The status bitmap of the first `n` list registers: ELRSR when `eoi` is false, EISR when true. */
  function StatusBits(lrs: seq<bv32>, n: nat, eoi: bool): bv64
    requires n <= |lrs| && n <= 64
  {
    if n == 0 then 0 else StatusBits(lrs, n - 1, eoi) | StatusBitOf(lrs[n - 1], n - 1, eoi)
  }

  /** The contribution of register `k` holding `w` to a status bitmap. */
  function StatusBitOf(w: bv32, k: nat, eoi: bool): bv64
    requires k < 64
  {
    if LrFlag(w, eoi) then Single(k) else 0
  }

  lemma StatusBitOfBit(w: bv32, k: nat, eoi: bool, i: nat)
    requires k < 64 && i < 64
    ensures Bit(StatusBitOf(w, k, eoi), i) <==> k == i && LrFlag(w, eoi)
  {
    if LrFlag(w, eoi) {
      SingleIs(k, i);
    } else {
      ZeroBit(i);
    }
  }

  /** Bit `i` of the status bitmap is set exactly when register `i` is one of the first `n` and has the flag. */
  lemma {:induction false} StatusBitsBit(lrs: seq<bv32>, n: nat, eoi: bool, i: nat)
    requires n <= |lrs| && n <= 64 && i < 64
    ensures Bit(StatusBits(lrs, n, eoi), i) <==> i < n && LrFlag(lrs[i], eoi)
  {
    if n == 0 {
      ZeroBit(i);
    } else {
      StatusBitsBit(lrs, n - 1, eoi, i);
      OrBit(StatusBits(lrs, n - 1, eoi), StatusBitOf(lrs[n - 1], n - 1, eoi), i);
      StatusBitOfBit(lrs[n - 1], n - 1, eoi, i);
    }
  }

  /** The list registers among the first `n` that wait for a maintenance EOI. */
  ghost function EoiSetOf(lrs: seq<bv32>, n: nat): set<nat>
    requires n <= |lrs|
  {
    set i | 0 <= i < n && LrEoiPending(lrs[i])
  }

  /** Writing a word that does not wait for an EOI into register `i` takes `i` out of the EOI set and adds nothing. */
  lemma EoiSetAfterWrite(lrs: seq<bv32>, n: nat, i: nat, w: bv32)
    requires n <= |lrs| && i < |lrs| && !LrEoiPending(w)
    ensures EoiSetOf(lrs[i := w], n) == EoiSetOf(lrs, n) - {i}
  {
  }

  class GicHypervisorInterface {
    /** The number of list registers in use, `gic_lrs()`. */
    const lrsNum: nat
    /** The physical core this interface belongs to, `current_cpu().id()`. */
    const cpuId: nat
    var lr: seq<bv32>
    var hcr: bv32
    var misr: bv32

    constructor (lrsNum: nat, cpuId: nat, lr: seq<bv32>, hcr: bv32, misr: bv32)
      requires lrsNum <= GicListRegsNum && |lr| == GicListRegsNum
      ensures this.lrsNum == lrsNum && this.cpuId == cpuId && this.lr == lr && this.hcr == hcr && this.misr == misr
      ensures Valid()
    {
      this.lrsNum := lrsNum;
      this.cpuId := cpuId;
      this.lr := lr;
      this.hcr := hcr;
      this.misr := misr;
    }

    ghost predicate Valid()
      reads this`lr
    {
      |lr| == GicListRegsNum && lrsNum <= GicListRegsNum
    }

    /** GICH_ELRSR1:GICH_ELRSR0 as one 64-bit word. */
    function Elrsr(): bv64
      reads this`lr
      requires Valid()
    {
      StatusBits(lr, lrsNum, false)
    }

    /** GICH_EISR1:GICH_EISR0 as one 64-bit word. */
    function Eisr(): bv64
      reads this`lr
      requires Valid()
    {
      StatusBits(lr, lrsNum, true)
    }

    ghost function EoiSet(): set<nat>
      reads this`lr
      requires Valid()
    {
      EoiSetOf(lr, lrsNum)
    }

    method SetLr(idx: nat, val: bv32)
      requires idx < |lr|
      modifies this`lr
      ensures lr == old(lr)[idx := val]
    {
      lr := lr[idx := val];
    }

    method SetHcr(val: bv32)
      modifies this`hcr
      ensures hcr == val
    {
      hcr := val;
    }
  }
}
