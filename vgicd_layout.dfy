/**
 * The distributor page as the guest sees it (src/vgic_reg_access.rs): the
 * access validator, the handler's dispatch by offset, the first interrupt
 * each register covers, and the target list and message of a GICD_SGIR
 * write.
 *
 * The distributor page is taken to start on a 4 KiB boundary: bits 11:0 of
 * a trapped address are then its offset in the page, and the test of the
 * SGIR accessor against `gicd_base() + 0xf00` compares offsets.
 */
module VgicdLayout {
  import opened Wrappers
  import opened Utils
  import opened Consts
  import opened Fake
  import opened TargetMasks
  import opened VgicCore
  import opened VgicIpi

  /** `address & 0xfff`: the offset in the distributor page. */
  function Offset(ctx: EmuContext): (off: nat)
    ensures off < 0x1000
  {
    ctx.address % 0x1000
  }

  /** `(offset & 0xf80) >> 7`, equally `offset >> 7` below 0x1000: the 128-byte block of an offset. */
  function Prefix(off: nat): (p: nat)
    requires off < 0x1000
    ensures p < 0x20
  {
    off / 0x80
  }

  /** The blocks the validator admits as aligned words only: CTLR, the one-bit registers, ICFGR. */
  predicate WordOnly(p: nat)
  {
    p == PrefixCtlr || p == PrefixIsenabler || p == PrefixIspendr || p == PrefixIsactiver
    || p == PrefixIcenabler || p == PrefixIcpendr || p == PrefixIcactiver || p == PrefixIcfgr
  }

  /** A word access off a 4-byte boundary, or a halfword access at an odd address. */
  predicate Misaligned(ctx: EmuContext)
  {
    (ctx.width == 4 && ctx.address % 4 != 0) || (ctx.width == 2 && ctx.address % 2 != 0)
  }

  /**
   * `vgicd_emu_access_is_vaild`: the word-only blocks take aligned words; the
   * SGIR block and the priority and target bytes 0x400..0xbff refuse a
   * misaligned word or halfword; anything else passes.
   */
  predicate AccessIsValid(ctx: EmuContext)
  {
    var off := Offset(ctx);
    var p := Prefix(off);
    if WordOnly(p) then ctx.width == 4 && ctx.address % 4 == 0
    else if p == PrefixSgir then !Misaligned(ctx)
    else !(0x400 <= off < 0xc00 && Misaligned(ctx))
  }

  /** The offsets of CTLR's block, the six one-bit register arrays, and the first half of ICFGR. */
  predicate InWordBlocks(off: nat)
  {
    off < 0x80 || 0x100 <= off < 0x400 || 0xc00 <= off < 0xc80
  }

  /** The offsets of the byte registers and of the SGIR block. */
  predicate InLaneBlocks(off: nat)
  {
    0x400 <= off < 0xc00 || 0xf00 <= off < 0xf80
  }

  /**
   * The validator by offset ranges: in the word blocks only 4-byte accesses
   * at multiples of 4 pass; in the byte registers and the SGIR block a word
   * must sit on a multiple of 4 and a halfword on an even offset; every
   * other access passes, whatever its width.
   */
  lemma AccessIsValidByRange(ctx: EmuContext)
    ensures AccessIsValid(ctx) <==>
      var off := Offset(ctx);
      (InWordBlocks(off) ==> ctx.width == 4 && off % 4 == 0)
      && (InLaneBlocks(off) ==> !(ctx.width == 4 && off % 4 != 0) && !(ctx.width == 2 && off % 2 != 0))
  {
    var off := Offset(ctx);
    assert ctx.address % 4 == off % 4 && ctx.address % 2 == off % 2;
  }

  /** Bits 11:0 of an address keep its bits below 128, 512 and 1024. */
  lemma PageMod(a: nat)
    ensures (a % 0x1000) % 0x80 == a % 0x80
    ensures (a % 0x1000) % 0x200 == a % 0x200
    ensures (a % 0x1000) % 0x400 == a % 0x400
  {
    var q, r := a / 0x1000, a % 0x1000;
    assert a == q * 0x1000 + r;
    Mod80(a, q * 32 + r / 0x80, r % 0x80);
    Mod200(a, q * 8 + r / 0x200, r % 0x200);
    Mod400(a, q * 4 + r / 0x400, r % 0x400);
  }

  // Quotient and remainder by the block sizes: `d` and `s` with `x == d m + s` and `0 <= s < m` are `x / m` and `x % m`.

  lemma Mod32(x: nat, d: nat, s: nat)
    requires x == d * 32 + s && s < 32
    ensures x % 32 == s && x / 32 == d
  {
  }

  lemma Mod80(x: nat, d: nat, s: nat)
    requires x == d * 0x80 + s && s < 0x80
    ensures x % 0x80 == s && x / 0x80 == d
  {
  }

  lemma Mod200(x: nat, d: nat, s: nat)
    requires x == d * 0x200 + s && s < 0x200
    ensures x % 0x200 == s && x / 0x200 == d
  {
  }

  lemma Mod400(x: nat, d: nat, s: nat)
    requires x == d * 0x400 + s && s < 0x400
    ensures x % 0x400 == s && x / 0x400 == d
  {
  }

  lemma Mod10000(x: nat, d: nat, s: nat)
    requires x == d * 0x1_0000 + s && s < 0x1_0000
    ensures x % 0x1_0000 == s && x / 0x1_0000 == d
  {
  }

  /** The registers the handler tells apart. */
  datatype Reg = Ctlr | Typer | Iidr
    | Isenabler | Ispendr | Isactiver | Icenabler | Icpendr | Icactiver
    | Icfgr | Sgir | Ipriorityr | Itargetsr | Unmapped

  /**
   * The dispatch of `handler`: the block prefix first, then, in the default
   * arm, offsets 0, 4 and 8 and the priority and target ranges.
   */
  function RegOf(off: nat): Reg
    requires off < 0x1000
  {
    var p := Prefix(off);
    if p == PrefixIsenabler then Isenabler
    else if p == PrefixIspendr then Ispendr
    else if p == PrefixIsactiver then Isactiver
    else if p == PrefixIcenabler then Icenabler
    else if p == PrefixIcpendr then Icpendr
    else if p == PrefixIcactiver then Icactiver
    else if p == PrefixIcfgr then Icfgr
    else if p == PrefixSgir then Sgir
    else if off == 0 then Ctlr
    else if off == 4 then Typer
    else if off == 8 then Iidr
    else if 0x400 <= off < 0x800 then Ipriorityr
    else if 0x800 <= off < 0xc00 then Itargetsr
    else Unmapped
  }

  /**
   * The dispatch follows the GICv2 distributor map: each one-bit register
   * array has its 128 bytes, the priority and target bytes their 1 KiB each,
   * GICD_ICFGR the 128 bytes at 0xc00 and the SGIR block those at 0xf00.
   */
  lemma RegOfRanges(off: nat)
    requires off < 0x1000
    ensures RegOf(off) == Ctlr <==> off == 0
    ensures RegOf(off) == Typer <==> off == 4
    ensures RegOf(off) == Iidr <==> off == 8
    ensures RegOf(off) == Isenabler <==> 0x100 <= off < 0x180
    ensures RegOf(off) == Icenabler <==> 0x180 <= off < 0x200
    ensures RegOf(off) == Ispendr <==> 0x200 <= off < 0x280
    ensures RegOf(off) == Icpendr <==> 0x280 <= off < 0x300
    ensures RegOf(off) == Isactiver <==> 0x300 <= off < 0x380
    ensures RegOf(off) == Icactiver <==> 0x380 <= off < 0x400
    ensures RegOf(off) == Ipriorityr <==> 0x400 <= off < 0x800
    ensures RegOf(off) == Itargetsr <==> 0x800 <= off < 0xc00
    ensures RegOf(off) == Icfgr <==> 0xc00 <= off < 0xc80
    ensures RegOf(off) == Sgir <==> 0xf00 <= off < 0xf80
  {
  }

  /** `((address & 0x7f) / 4) * 32`: the first interrupt of a one-bit register. */
  function BitRegFirst(addr: nat): (first: nat)
    ensures first % 32 == 0 && first + 32 <= GicIntsMax
  {
    ((addr % 0x80) / 4) * 32
  }

  /** `16 * bit_extract(address, 0, 9) / 4`: the first interrupt of a GICD_ICFGR word. */
  function IcfgrFirst(addr: nat): nat
  {
    (16 * (addr % 0x200)) / 4
  }

  /** `bit_extract(address, 0, 9)`: the first interrupt of a priority or target access, as written. */
  function ByteRegFirstAsWritten(addr: nat): nat
  {
    addr % 0x200
  }

  /** The first interrupt of a priority or target access with the ten offset bits the 1 KiB ranges need. */
  function ByteRegFirst(addr: nat): nat
  {
    addr % 0x400
  }

  /**
   * Word `n` of a one-bit register array covers interrupts `32 n` to
   * `32 n + 31`, all below 1024.
   */
  lemma BitRegFirstIs(ctx: EmuContext, base: nat)
    requires base % 0x80 == 0 && base <= Offset(ctx) < base + 0x80
    ensures BitRegFirst(ctx.address) == 32 * ((Offset(ctx) - base) / 4)
    ensures BitRegFirst(ctx.address) + 32 <= GicIntsMax
  {
    var off := Offset(ctx);
    PageMod(ctx.address);
    assert base == (base / 0x80) * 0x80;
    Mod80(off, base / 0x80, off - base);
  }

  /** Word `n` of GICD_ICFGR covers interrupts `16 n` to `16 n + 15`. */
  lemma IcfgrFirstIs(ctx: EmuContext)
    requires 0xc00 <= Offset(ctx) < 0xc80
    ensures IcfgrFirst(ctx.address) == 16 * ((Offset(ctx) - 0xc00) / 4) + 4 * ((Offset(ctx) - 0xc00) % 4)
    ensures IcfgrFirst(ctx.address) + 32 <= GicIntsMax
  {
    var off := Offset(ctx);
    PageMod(ctx.address);
    Mod200(off, 6, off - 0xc00);
  }

  /** Byte `k` of the priority (target) range holds interrupt `k`. */
  lemma ByteRegFirstIs(ctx: EmuContext)
    requires 0x400 <= Offset(ctx) < 0xc00
    ensures ByteRegFirst(ctx.address) == if Offset(ctx) < 0x800 then Offset(ctx) - 0x400 else Offset(ctx) - 0x800
  {
    var off := Offset(ctx);
    PageMod(ctx.address);
    if off < 0x800 {
      Mod400(off, 1, off - 0x400);
    } else {
      Mod400(off, 2, off - 0x800);
    }
  }

  /**
   * As written, the upper half of each range folds onto the lower half: the
   * priority byte at offset `0x600 + k` is taken for interrupt `k`, not
   * `512 + k`.
   */
  lemma ByteRegFirstAliases(k: nat)
    requires k < 0x200
    ensures ByteRegFirstAsWritten(0x600 + k) == k == ByteRegFirstAsWritten(0x400 + k)
    ensures ByteRegFirst(0x600 + k) == 0x200 + k
  {
  }

  // GICD_SGIR.

  /** `bit_extract(val, 24, 2)`: the target list filter of an SGIR write. */
  function SgirFilter(val: bv64): (f: bv64)
    ensures f < 4
  {
    BitExtract(val, 24, 2)
  }

  /** What the target list of an SGIR write needs of the VM and the core. */
  predicate SgirListable(vm: Vm, cpuId: nat, val: bv64)
  {
    (SgirFilter(val) == 0 ==> Translatable(vm, true))
    && (SgirFilter(val) == 1 || SgirFilter(val) == 2 ==> cpuId < 64)
  }

  /**
   * The target list of an SGIR write: filter 0 translates the CPU target
   * list (bits 23:16) from vCPU to core numbers, filter 1 takes `ncpu`
   * without the current core, filter 2 the current core alone, and filter 3
   * sends nothing.  `ncpu` is what the source's `active_vm_ncpu()` returns.
   */
  function SgirTargetList(vm: Vm, cpuId: nat, ncpu: bv64, val: bv64): Option<bv64>
    requires SgirListable(vm, cpuId, val)
  {
    var f := SgirFilter(val);
    if f == 0 then Some(Fold(Lanes(vm, Low32(BitExtract(val, 16, 8)), true, GicTargetsMax), 4) as bv64)
    else if f == 1 then Some(ncpu & !Single(cpuId))
    else if f == 2 then Some(Single(cpuId))
    else None
  }

  /** Filter 3 is the only one that sends nothing. */
  lemma SgirNoTargets(vm: Vm, cpuId: nat, ncpu: bv64, val: bv64)
    requires SgirListable(vm, cpuId, val)
    ensures SgirTargetList(vm, cpuId, ncpu, val).None? <==> SgirFilter(val) == 3
  {
  }

  /** Filter 1: every core of `ncpu` except the current one. */
  lemma SgirOthers(vm: Vm, cpuId: nat, ncpu: bv64, val: bv64, p: nat)
    requires SgirListable(vm, cpuId, val) && SgirFilter(val) == 1 && p < 64
    ensures Bit(SgirTargetList(vm, cpuId, ncpu, val).value, p) <==> Bit(ncpu, p) && p != cpuId
  {
    assert SgirTargetList(vm, cpuId, ncpu, val).value == ncpu & !Single(cpuId);
    AndNotBit(ncpu, Single(cpuId), p);
    SingleIs(cpuId, p);
  }

  /** Filter 2: the current core alone. */
  lemma SgirSelf(vm: Vm, cpuId: nat, ncpu: bv64, val: bv64, p: nat)
    requires SgirListable(vm, cpuId, val) && SgirFilter(val) == 2 && p < 64
    ensures Bit(SgirTargetList(vm, cpuId, ncpu, val).value, p) <==> p == cpuId
  {
    SingleIs(cpuId, p);
  }

  /** The ten-bit id of the SGI message: the SGI number in bits 7:0, the sender's vCPU id from bit 10, as a `u16`. */
  function SgiIntId(sgi: nat, vcpuId: nat): U16
  {
    (sgi + vcpuId * 1024) % 0x1_0000
  }

  /** `(bit_extract(val, 0, 8) | (active_vcpu_id() << 10)) as u16`. */
  function SgirIntId(val: bv64, vcpuId: nat): U16
  {
    SgiIntId(BitExtract(val, 0, 8) as nat, vcpuId)
  }

  /** The message an SGIR write sends to each listed core. */
  function SgiMessage(vmId: nat, vcpuId: nat, val: bv64): IpiInitcMessage
  {
    IpiInitcMessage(VgicdSetPend, vmId, SgirIntId(val, vcpuId), 1)
  }

  /**
   * The receiving core replays the message as a pending request whose id
   * keeps the SGI number below bit 10 and the sender's vCPU id above, as the
   * `int_id % 1024` and `(int_id / 1024) % 32` of `sgi_set_pend` read them.
   */
  lemma SgiMessageReplays(vmId: nat, vcpuId: nat, sgi: nat)
    requires sgi < 256
    ensures SgiIntId(sgi, vcpuId) % GicIntsMax == sgi
    ensures (SgiIntId(sgi, vcpuId) / GicIntsMax) % 32 == vcpuId % 32
    ensures Decode(IpiInitcMessage(VgicdSetPend, vmId, SgiIntId(sgi, vcpuId), 1)) == Pend(SgiIntId(sgi, vcpuId), true)
  {
    var q, w := vcpuId / 64, vcpuId % 64;
    var low := sgi + w * 1024;
    assert sgi + vcpuId * 1024 == q * 0x1_0000 + low && low < 0x1_0000;
    Mod10000(sgi + vcpuId * 1024, q, low);
    Mod400(low, w, sgi);
    assert vcpuId == (2 * q) * 32 + w % 32 + (w / 32) * 32;
    Mod32(vcpuId, 2 * q + w / 32, w % 32);
    Mod32(w, w / 32, w % 32);
  }

  /** The messages the send loop of an SGIR write builds for cores `0 .. n - 1`, in that order. */
  function SgiSends(list: bv64, m: IpiInitcMessage, n: nat): seq<Outgoing>
    requires n <= 64
  {
    if n == 0 then [] else SgiSends(list, m, n - 1) + (if Bit(list, n - 1) then [Send(n - 1, m)] else [])
  }

  /** Core `p` gets the message exactly when bit `p` of the list is set and `p < n`. */
  lemma {:induction false} SgiSendsTo(list: bv64, m: IpiInitcMessage, n: nat, o: Outgoing)
    requires n <= 64
    ensures o in SgiSends(list, m, n) <==> o.Send? && o.msg == m && o.target < n && Bit(list, o.target)
  {
    if n > 0 {
      SgiSendsTo(list, m, n - 1, o);
    }
  }

  /** Each core gets at most one message, in increasing core order. */
  lemma {:induction false} SgiSendsOrdered(list: bv64, m: IpiInitcMessage, n: nat, i: nat, j: nat)
    requires n <= 64 && i < j < |SgiSends(list, m, n)|
    ensures SgiSends(list, m, n)[i].Send? && SgiSends(list, m, n)[j].Send?
    ensures SgiSends(list, m, n)[i].target < SgiSends(list, m, n)[j].target
  {
    var s := SgiSends(list, m, n - 1);
    SgiSendsTo(list, m, n - 1, SgiSends(list, m, n)[i]);
    if j < |s| {
      SgiSendsOrdered(list, m, n - 1, i, j);
    } else {
      assert SgiSends(list, m, n)[j] == Send(n - 1, m);
      assert SgiSends(list, m, n)[i] in s;
    }
  }

  /** Everything an SGIR write sends. */
  function SgirSends(vm: Vm, vcpuId: nat, cpuId: nat, ncpu: bv64, val: bv64): seq<Outgoing>
    requires SgirListable(vm, cpuId, val)
  {
    var t := SgirTargetList(vm, cpuId, ncpu, val);
    if t.None? then [] else SgiSends(t.value, SgiMessage(vm.id, vcpuId, val), GicTargetsMax)
  }

  // GICD_CTLR.

  /** `gpr as u32 & 1`: CTLR keeps bit 0 of the written value (EnableGrp0) and nothing else. */
  function CtlrWritten(gpr: bv64): (c: bv32)
    ensures c == 0 || c == 1
    ensures c == 1 <==> BitAt(gpr, 0)
  {
    Low32(gpr) & 1
  }

  /** The `VgicdGichEn` message a change of CTLR broadcasts. */
  function CtlrMessage(vmId: nat, on: bool): IpiInitcMessage
  {
    IpiInitcMessage(VgicdGichEn, vmId, 0, if on then 1 else 0)
  }

  /**
   * The broadcast replays the switch on every other core: it decodes to the
   * same En switch the writing core applied to its own HCR.
   */
  lemma CtlrMessageReplays(vmId: nat, on: bool)
    ensures Decode(CtlrMessage(vmId, on)) == GichEnable(on)
  {
  }
}
