/**
 * The interrupt engine of one VM (src/vgic.rs): its shared interrupts, the
 * private bank of every vCPU, the list registers of the current core, and the
 * free helpers of src/vigc.rs that read or change ownership and state.
 */
module VgicCore {
  import opened Wrappers
  import opened Utils
  import opened Consts
  import opened Fake
  import opened Vint
  import opened VintPrivate
  import opened Gich
  import opened Gicd
  import opened VgicLr
  import opened TargetMasks

  /** A message the engine would send: to the core of the current owner, or to every other core. */
  datatype Outgoing = Send(target: nat, msg: IpiInitcMessage) | Broadcast(msg: IpiInitcMessage)

  /**
   * `vgic_get_state` on plain values: the software state, replaced by the
   * state bits of the list register when the interrupt is resident, and with
   * bit 0 forced when some CPU still requests the SGI.
   */
  function StateOf(sw: IrqState, resident: Option<bv32>, sgiPend: Option<U8>): (s: bv64)
    ensures s < 4
    ensures s & 1 != 0 <==>
      (if resident.Some? then LrState(resident.value) & 1 != 0 else sw == IrqSPend || sw == IrqSPendActive)
      || (sgiPend.Some? && sgiPend.value != 0)
    ensures s & 2 != 0 <==>
      (if resident.Some? then LrState(resident.value) & 2 != 0 else sw == IrqSActive || sw == IrqSPendActive)
  {
    var base := if resident.Some? then LrStateNum(resident.value) else ToNum(sw);
    if sgiPend.Some? && sgiPend.value != 0 then base | 1 else base
  }

  /** `vgic_get_state` as written: a resident interrupt reports the whole list register word. */
  function StateOfAsWritten(sw: IrqState, resident: Option<bv32>, sgiPend: Option<U8>): (s: bv64)
    ensures resident.None? ==> s == StateOf(sw, resident, sgiPend)
    ensures resident.Some? ==>
      (s & 1 != 0 <==> resident.value & 1 != 0 || (sgiPend.Some? && sgiPend.value != 0))
      && (s & 2 != 0 <==> resident.value & 2 != 0)
  {
    var base := if resident.Some? then resident.value as bv64 else ToNum(sw);
    if sgiPend.Some? && sgiPend.value != 0 then base | 1 else base
  }

  /**
   * An even-numbered shared interrupt pending in a list register reads as not
   * pending under the code as written, and as pending once the state bits are
   * taken from bits 29:28.
   */
  lemma ResidentStateBits()
    ensures LrState(EncodeLr(34, 0x200, 0, 1, false)) == 1
    ensures StateOfAsWritten(IrqSInactive, Some(EncodeLr(34, 0x200, 0, 1, false)), None) & 1 == 0
    ensures StateOf(IrqSInactive, Some(EncodeLr(34, 0x200, 0, 1, false)), None) & 1 == 1
  {
    EncodeLrFields(34, 0x200, 0, 1, false);
  }

  /** The pend list or act list after `update_int_list` looked at one interrupt. */
  function ListAfter(q: seq<VgicInt>, x: VgicInt, want: bool, was: bool): seq<VgicInt>
  {
    if want && !was then q + [x] else if !want then QueueRemove(q, x.id) else q
  }

  /**
   * When the flag mirrors membership before, it mirrors it after, and the list
   * keeps at most one entry per id.
   */
  lemma ListAfterMirrors(q: seq<VgicInt>, x: VgicInt, want: bool, was: bool)
    requires UniqueIds(q) && (HasId(q, x.id) <==> was)
    ensures UniqueIds(ListAfter(q, x, want, was))
    ensures HasId(ListAfter(q, x, want, was), x.id) <==> want
  {
    if want && !was {
      var r := q + [x];
      assert r[|q|].id == x.id;
    } else if !want {
      QueueRemoveUnique(q, x.id);
    }
  }

  /** Other interrupts are present after the update exactly when they were before. */
  lemma ListAfterOthers(q: seq<VgicInt>, x: VgicInt, want: bool, was: bool, other: nat)
    requires other != x.id
    ensures HasId(ListAfter(q, x, want, was), other) <==> HasId(q, other)
  {
    if want && !was {
      var r := q + [x];
      if HasId(q, other) {
        var j :| 0 <= j < |q| && q[j].id == other;
        assert r[j] == q[j];
      }
    } else if !want {
      QueueRemoveOthers(q, x.id, other);
    }
  }

  /**
   * `Vgicd::new`'s GICD_TYPER as written: the hardware ITLinesNumber field
   * (bits 4:0), with the vCPU count shifted to bit 5 but then masked with the
   * same 0x1f, which leaves nothing of it.
   */
  function TyperAsWritten(hwTyper: bv32, cpuNum: nat): bv32
    requires cpuNum >= 1
  {
    (hwTyper & 0x1f) | ((((cpuNum - 1) * 32) % 32) as bv32)
  }

  /** GICD_TYPER with CPUNumber, bits 7:5 (section 4.3.2 of IHI 0048B), holding the vCPU count less one. */
  function Typer(hwTyper: bv32, cpuNum: nat): bv32
    requires cpuNum >= 1
  {
    (hwTyper & 0x1f) | (Bits3((cpuNum - 1) % 8) << 5)
  }

  /** The corrected word keeps ITLinesNumber and reports up to eight vCPUs in CPUNumber. */
  lemma TyperFields(hwTyper: bv32, cpuNum: nat)
    requires 1 <= cpuNum <= 8
    ensures Typer(hwTyper, cpuNum) & 0x1f == hwTyper & 0x1f
    ensures (Typer(hwTyper, cpuNum) >> 5) & 0x7 == Bits3(cpuNum - 1)
  {
  }

  /** With two vCPUs the code as written reports a CPUNumber of 0 where 1 is meant. */
  lemma TyperLosesCpuNumber(hwTyper: bv32)
    ensures (TyperAsWritten(hwTyper, 2) >> 5) & 0x7 == 0
    ensures (Typer(hwTyper, 2) >> 5) & 0x7 == 1
  {
    TyperFields(hwTyper, 2);
  }

  /** A shared interrupt as `VgicInt::new(k)` leaves it. */
  ghost predicate FreshSpi(x: VgicInt, k: nat)
    reads x
  {
    x.id == k + GicPrivintNum && x.owner.None? && !x.enabled && !x.hw && !x.inLr && x.lr == 0
    && x.state == IrqSInactive && x.prio == 0xff && x.targets == 0 && x.cfg == 0 && !x.inPend && !x.inAct
  }

  /**
   * A bank as `emu_intc_init` leaves it for `vc`: default tables and empty
   * lists, and 32 private interrupts owned by `vc`, targeting its core and
   * enabled exactly when they are SGIs.
   */
  ghost predicate FreshBank(b: VgicCpuPriv, vc: Vcpu)
    reads b, b.interrupts
  {
    vc.physId < GicTargetsMax
    && |b.interrupts| == GicPrivintNum && |b.currLrs| == GicListRegsNum && |b.sgis| == GicSgisNum
    && b.pendList == [] && b.actList == []
    && (forall i :: 0 <= i < GicListRegsNum ==> b.currLrs[i] == 0)
    && (forall i :: 0 <= i < GicSgisNum ==> b.sgis[i] == Sgis(0, 0))
    && forall j :: 0 <= j < GicPrivintNum ==>
      var x := b.interrupts[j];
      x.id == j && x.owner == Some(vc) && x.targets == Single(vc.physId) & 0xff && x.enabled == (j < GicSgisNum)
      && !x.hw && !x.inLr && x.lr == 0 && x.state == IrqSInactive && x.prio == 0xff && x.cfg == 0
  }

  /** Every interrupt `emu_intc_init` creates has an id below 1024, register 0, and an owner among the vCPUs when it is private. */
  lemma InitInts(s: seq<VgicInt>, bs: seq<VgicCpuPriv>, vcpuList: seq<Vcpu>, sset: set<VgicInt>, pset: set<VgicInt>)
    requires |s| == GicSpiMax && |bs| == |vcpuList|
    requires forall v :: 0 <= v < |vcpuList| ==> vcpuList[v].id == v
    requires forall k :: 0 <= k < |s| ==> FreshSpi(s[k], k)
    requires forall w :: 0 <= w < |bs| ==> FreshBank(bs[w], vcpuList[w])
    requires forall w :: 0 <= w < |bs| ==> |bs[w].interrupts| == GicPrivintNum
    requires sset == set k | 0 <= k < |s| :: s[k]
    requires pset == set w, j | 0 <= w < |bs| && 0 <= j < GicPrivintNum :: bs[w].interrupts[j]
    ensures forall w, j :: 0 <= w < |bs| && 0 <= j < GicPrivintNum ==> bs[w].interrupts[j] in sset + pset
    ensures forall x :: x in sset + pset ==>
      x.id < GicIntsMax && x.lr < GicListRegsNum
      && (x.owner.Some? ==> x.owner.value.id < |vcpuList| && vcpuList[x.owner.value.id] == x.owner.value)
      && (GicIsPriv(x.id) ==> x.owner.Some?)
  {
    forall w, j | 0 <= w < |bs| && 0 <= j < GicPrivintNum
      ensures bs[w].interrupts[j] in pset
    {
    }
    forall x | x in sset + pset
      ensures x.id < GicIntsMax && x.lr < GicListRegsNum
      ensures x.owner.Some? ==> x.owner.value.id < |vcpuList| && vcpuList[x.owner.value.id] == x.owner.value
      ensures GicIsPriv(x.id) ==> x.owner.Some?
    {
      if x in sset {
        var k :| 0 <= k < |s| && s[k] == x;
      } else {
        var w, j :| 0 <= w < |bs| && 0 <= j < GicPrivintNum && bs[w].interrupts[j] == x;
      }
    }
  }

  /** Every bank `emu_intc_init` creates has its tables at full size, its own interrupts in order, and empty lists. */
  lemma InitBanks(bs: seq<VgicCpuPriv>, vcpuList: seq<Vcpu>, banks: set<VgicCpuPriv>, ints: set<VgicInt>)
    requires |bs| == |vcpuList|
    requires forall w :: 0 <= w < |bs| ==> FreshBank(bs[w], vcpuList[w])
    requires forall w :: 0 <= w < |bs| ==> |bs[w].interrupts| == GicPrivintNum
    requires forall w, j :: 0 <= w < |bs| && 0 <= j < GicPrivintNum ==> bs[w].interrupts[j] in ints
    requires banks == set w | 0 <= w < |bs| :: bs[w]
    ensures forall b :: b in banks ==>
      |b.interrupts| == GicPrivintNum && |b.currLrs| == GicListRegsNum && |b.sgis| == GicSgisNum
      && (forall j :: 0 <= j < |b.interrupts| ==> b.interrupts[j] in ints && b.interrupts[j].id == j)
      && b.pendList == [] && b.actList == []
  {
    forall b | b in banks
      ensures |b.interrupts| == GicPrivintNum && |b.currLrs| == GicListRegsNum && |b.sgis| == GicSgisNum
      ensures forall j :: 0 <= j < |b.interrupts| ==> b.interrupts[j] in ints && b.interrupts[j].id == j
      ensures b.pendList == [] && b.actList == []
    {
      var w :| 0 <= w < |bs| && bs[w] == b;
    }
  }

  /** The loop of `emu_intc_init` that creates the shared interrupts. */
  method MakeSpis() returns (s: seq<VgicInt>)
    ensures |s| == GicSpiMax
    ensures forall k :: 0 <= k < |s| ==> fresh(s[k]) && FreshSpi(s[k], k)
  {
    s := [];
    var i := 0;
    while i < GicSpiMax
      invariant 0 <= i <= GicSpiMax && |s| == i
      invariant forall k :: 0 <= k < i ==> fresh(s[k]) && FreshSpi(s[k], k)
    {
      var x := new VgicInt.New(i);
      s := s + [x];
      i := i + 1;
    }
  }

  /** The loop of `emu_intc_init` that fills the bank of one vCPU. */
  method MakeBank(vc: Vcpu) returns (b: VgicCpuPriv)
    requires vc.physId < GicTargetsMax
    ensures fresh(b) && FreshBank(b, vc)
    ensures forall j :: 0 <= j < |b.interrupts| ==> fresh(b.interrupts[j])
  {
    b := new VgicCpuPriv.Default();
    var j := 0;
    while j < GicPrivintNum
      invariant 0 <= j <= GicPrivintNum && |b.interrupts| == j
      invariant b.pendList == [] && b.actList == [] && |b.currLrs| == GicListRegsNum && |b.sgis| == GicSgisNum
      invariant forall k :: 0 <= k < GicListRegsNum ==> b.currLrs[k] == 0
      invariant forall k :: 0 <= k < GicSgisNum ==> b.sgis[k] == Sgis(0, 0)
      invariant forall k :: 0 <= k < j ==>
        var x := b.interrupts[k];
        fresh(x) && x.id == k && x.owner == Some(vc) && x.targets == Single(vc.physId) & 0xff && x.enabled == (k < GicSgisNum)
        && !x.hw && !x.inLr && x.lr == 0 && x.state == IrqSInactive && x.prio == 0xff && x.cfg == 0
      invariant fresh(b)
      modifies b
    {
      var x := new VgicInt.PrivNew(j, vc, Single(vc.physId), j < GicSgisNum);
      b.PushInterrupt(x);
      j := j + 1;
    }
  }

  /** The loop of `emu_intc_init` over the vCPU list. */
  method MakeBanks(vcpuList: seq<Vcpu>) returns (bs: seq<VgicCpuPriv>)
    requires forall v :: 0 <= v < |vcpuList| ==> vcpuList[v].physId < GicTargetsMax
    ensures |bs| == |vcpuList|
    ensures forall w :: 0 <= w < |bs| ==> fresh(bs[w]) && FreshBank(bs[w], vcpuList[w])
  {
    bs := [];
    var v := 0;
    while v < |vcpuList|
      invariant 0 <= v <= |vcpuList| && |bs| == v
      invariant forall w :: 0 <= w < v ==> fresh(bs[w]) && FreshBank(bs[w], vcpuList[w])
    {
      var b := MakeBank(vcpuList[v]);
      bs := bs + [b];
      v := v + 1;
    }
  }

  /** `vgic_int_is_hw`: a PPI or shared interrupt backed by a physical one. */
  predicate IsHw(x: VgicInt)
    reads x`hw
  {
    x.id >= GicSgisNum && x.hw
  }

  /**
   * The state `set_pend` gives an interrupt: `state | 1` when asked to pend
   * an interrupt that is not pending, `state & !1` when asked to clear one
   * that is, otherwise the state unchanged.
   */
  function WithPend(s: IrqState, pend: bool): IrqState
  {
    if pend && ToNum(s) & 1 == 0 then NumToState(ToNum(s) | 1)
    else if !pend && ToNum(s) & 1 != 0 then NumToState(ToNum(s) & !1)
    else s
  }

  /** The same for the active bit, as `set_active` does. */
  function WithAct(s: IrqState, act: bool): IrqState
  {
    if act && ToNum(s) & 2 == 0 then NumToState(ToNum(s) | 2)
    else if !act && ToNum(s) & 2 != 0 then NumToState(ToNum(s) & !2)
    else s
  }

  /** `set_pend` decides the pending bit and keeps the active bit. */
  lemma WithPendBits(s: IrqState, pend: bool)
    ensures (ToNum(WithPend(s, pend)) & 1 != 0) == pend
    ensures ToNum(WithPend(s, pend)) & 2 == ToNum(s) & 2
  {
  }

  /** `set_active` decides the active bit and keeps the pending bit. */
  lemma WithActBits(s: IrqState, act: bool)
    ensures (ToNum(WithAct(s, act)) & 2 != 0) == act
    ensures ToNum(WithAct(s, act)) & 1 == ToNum(s) & 1
  {
  }

  /** Asking for the bit an interrupt already has changes nothing, and asking twice is asking once. */
  lemma WithPendIdempotent(s: IrqState, pend: bool)
    ensures (ToNum(s) & 1 != 0) == pend ==> WithPend(s, pend) == s
    ensures WithPend(WithPend(s, pend), pend) == WithPend(s, pend)
  {
    StateRoundTrip(s);
  }

  /** The distributor state `set_pend` and `set_active` give a hardware interrupt: pending alone is made active. */
  function HwState(s: bv64): (r: bv64)
    requires s < 4
    ensures r < 4 && r != 1
    ensures s != 1 ==> r == s
  {
    if s == 1 then 2 else s
  }

  /**
   * `(1 << source) as u8` for the five-bit source field of an SGI number:
   * sources 8 and up are shifted out of the byte.
   */
  function SourceBitU8(source: nat): (m: U8)
  {
    if source < GicTargetsMax then SourceBit(source) else 0
  }

  /** The request mask `sgi_set_pend` computes: the source bit set, or cleared. */
  function SgiMaskAfter(pend: U8, source: nat, on: bool): U8
  {
    var m: bv64 := SourceBitU8(source);
    if on then
      var r: bv64 := pend | m;
      assert r < 256;
      r
    else
      var r: bv64 := pend & !m;
      assert r <= pend;
      r
  }

  /** A source of 8 or more changes no mask. */
  lemma SgiMaskWideSource(pend: U8, source: nat, on: bool)
    requires source >= GicTargetsMax
    ensures SgiMaskAfter(pend, source, on) == pend
  {
  }

  /** Setting or clearing a source decides its bit exactly. */
  lemma SgiMaskOwnBit(pend: U8, source: nat, on: bool)
    requires source < GicTargetsMax
    ensures Requests(SgiMaskAfter(pend, source, on), source) == on
  {
  }

  /** Setting or clearing one source leaves every other source's bit as it was. */
  lemma SgiMaskOtherBits(pend: U8, source: nat, on: bool, k: nat)
    requires source < GicTargetsMax && k < GicTargetsMax && k != source
    ensures Requests(SgiMaskAfter(pend, source, on), k) == Requests(pend, k)
  {
  }

  /** Repeating an `sgi_set_pend` leaves the mask as the first one left it. */
  lemma SgiMaskIdempotent(pend: U8, source: nat, on: bool)
    ensures SgiMaskAfter(SgiMaskAfter(pend, source, on), source, on) == SgiMaskAfter(pend, source, on)
  {
  }

  /** `targets & (1 << cpu)`: the interrupt targets core `p`. */
  predicate Targets(t: U8, p: nat)
    requires p < GicTargetsMax
  {
    t & SourceBit(p) != 0
  }

  /** `targets & !(1 << cpu)`: the interrupt targets some core other than `p`. */
  predicate TargetsOthers(t: U8, p: nat)
    requires p < GicTargetsMax
  {
    var m: bv64 := SourceBit(p);
    t & !m != 0
  }

  /** The SGI table of a bank after `remove_lr` took back word `w` of interrupt `id`. */
  function SgisAfterRemove(t: seq<Sgis>, id: nat, w: bv32): (r: seq<Sgis>)
    requires |t| == GicSgisNum
    ensures |r| == |t|
  {
    if id < GicSgisNum then t[id := SgiAfterRemove(t[id], w)] else t
  }

  /** The priority `set_prio` stores: GIC-400 keeps only the top 4 priority bits in non-secure state. */
  function PrioField(prio: U8): (r: U8)
    ensures r & 0x0f == 0 && r | (prio & 0x0f) == prio
    ensures r == prio <==> prio & 0x0f == 0
  {
    prio & 0xf0
  }

  class Vgic {
    /** The virtual interface of the current core. */
    const gich: GicHypervisorInterface
    const gicd: GicDistributor
    /** `vgicd.interrupts`: the shared interrupts 32..1023. */
    const spis: seq<VgicInt>
    /** `cpu_priv`: one bank per vCPU, indexed by vCPU id. */
    const cpuPriv: seq<VgicCpuPriv>
    var ctlr: bv32
    const typer: bv32
    const iidr: bv32
    /** Messages for other cores, in the order they were built. */
    var outbox: seq<Outgoing>

    /** The VM's vCPUs, position = id. */
    ghost const vcpus: seq<Vcpu>
    /** Every interrupt object of the engine. */
    ghost const ints: set<VgicInt>
    /** Every private bank of the engine. */
    ghost const banks: set<VgicCpuPriv>

    /**
     * `emu_intc_init` with `Vgic::new`: 992 fresh shared interrupts with ids
     * 32..1023, and for every vCPU a fresh default bank whose 32 private
     * interrupts it owns, each targeting the vCPU's core and enabled exactly
     * when it is an SGI.
     */
    constructor Init(vcpuList: seq<Vcpu>, gich: GicHypervisorInterface, gicd: GicDistributor, hwTyper: bv32, hwIidr: bv32)
      requires |vcpuList| >= 1
      requires forall v :: 0 <= v < |vcpuList| ==> vcpuList[v].id == v && vcpuList[v].physId < GicTargetsMax
      requires gich.Valid() && gich.cpuId < GicTargetsMax
      ensures Valid()
      ensures this.gich == gich && this.gicd == gicd && vcpus == vcpuList
      ensures ctlr == 0x2 && typer == Typer(hwTyper, |vcpuList|) && iidr == hwIidr && outbox == []
      ensures forall k :: 0 <= k < |spis| ==> fresh(spis[k]) && FreshSpi(spis[k], k)
      ensures forall v :: 0 <= v < |cpuPriv| ==> fresh(cpuPriv[v]) && FreshBank(cpuPriv[v], vcpuList[v])
    {
      var s := MakeSpis();
      var bs := MakeBanks(vcpuList);
      this.gich := gich;
      this.gicd := gicd;
      spis := s;
      cpuPriv := bs;
      ctlr := 0x2;
      typer := Typer(hwTyper, |vcpuList|);
      iidr := hwIidr;
      outbox := [];
      vcpus := vcpuList;
      ghost var sset := set k | 0 <= k < |s| :: s[k];
      ghost var pset := set w, j | 0 <= w < |bs| && 0 <= j < GicPrivintNum :: bs[w].interrupts[j];
      ints := sset + pset;
      banks := set w | 0 <= w < |bs| :: bs[w];
      new;
      InitInts(s, bs, vcpuList, sset, pset);
      InitBanks(bs, vcpuList, banks, ints);
      assert Layout();
      assert BankShape();
      assert ListsIn();
      assert Owners();
      assert LrIndices();
    }

    /** Facts fixed when the VM is created; they read no mutable field. */
    ghost predicate Layout()
    {
      |spis| == GicSpiMax && |cpuPriv| == |vcpus| && |vcpus| >= 1
      && (forall k :: 0 <= k < |spis| ==> spis[k] in ints && spis[k].id == k + GicPrivintNum)
      && (forall v :: 0 <= v < |vcpus| ==> cpuPriv[v] in banks && vcpus[v].id == v && vcpus[v].physId < GicTargetsMax)
      && (forall x :: x in ints ==> x.id < GicIntsMax)
      && gich.lrsNum <= GicListRegsNum && gich.cpuId < GicTargetsMax
    }

    /** Every bank has its 32 interrupts, 64 occupant slots and 16 SGI records. */
    ghost predicate BankShape()
      reads banks`interrupts, banks`currLrs, banks`sgis
    {
      forall b :: b in banks ==>
        |b.interrupts| == GicPrivintNum && |b.currLrs| == GicListRegsNum && |b.sgis| == GicSgisNum
        && forall j :: 0 <= j < |b.interrupts| ==> b.interrupts[j] in ints && b.interrupts[j].id == j
    }

    /** The waiting lists hold interrupts of the engine. */
    ghost predicate ListsIn()
      reads banks`pendList, banks`actList
    {
      forall b :: b in banks ==>
        (forall y :: y in b.pendList ==> y in ints) && (forall y :: y in b.actList ==> y in ints)
    }

    ghost predicate IsVcpu(v: Vcpu)
    {
      v.id < |vcpus| && vcpus[v.id] == v
    }

    /** Owners are vCPUs of the VM, and a private interrupt always belongs to the vCPU of its bank. */
    ghost predicate Owners()
      reads ints`owner, banks`interrupts
    {
      (forall x :: x in ints && x.owner.Some? ==> IsVcpu(x.owner.value))
      && (forall x :: x in ints && GicIsPriv(x.id) ==> x.owner.Some?)
      && forall v :: 0 <= v < |cpuPriv| && v < |vcpus| && cpuPriv[v] in banks ==>
        forall j :: 0 <= j < |cpuPriv[v].interrupts| ==>
          cpuPriv[v].interrupts[j] in ints && cpuPriv[v].interrupts[j].owner == Some(vcpus[v])
    }

    /**
     * On a consistent engine the ownership test of `vgic_owns`, which compares
     * the vCPU id and the core only, picks out exactly the owner: a shared
     * interrupt belongs to a vCPU of the VM iff it is that vCPU's, and a
     * private one to every vCPU.
     */
    lemma OwnsIsOwner(vcpu: Vcpu, x: VgicInt)
      requires Valid() && IsVcpu(vcpu) && x in ints
      ensures !GicIsPriv(x.id) ==> (x.Owns(vcpu) <==> x.owner == Some(vcpu))
      ensures GicIsPriv(x.id) ==> x.Owns(vcpu)
    {
      if !GicIsPriv(x.id) && x.owner.Some? {
        assert IsVcpu(x.owner.value);
      }
    }

    /** Every interrupt names one of the 64 list registers. */
    ghost predicate LrIndices()
      reads ints`lr
    {
      forall x :: x in ints ==> x.lr < GicListRegsNum
    }

    ghost predicate Valid()
      reads banks`interrupts, banks`currLrs, banks`sgis, banks`pendList, banks`actList, ints`owner, ints`lr, gich`lr
    {
      Layout() && BankShape() && ListsIn() && Owners() && LrIndices() && gich.Valid()
    }

    /** `get_int`: a private id names the caller's bank, a shared one the shared entry, anything else nothing. */
    function GetInt(vcpu: Vcpu, intId: nat): Option<VgicInt>
      requires vcpu.id < |cpuPriv|
      reads {cpuPriv[vcpu.id]}`interrupts
    {
      if intId < GicPrivintNum then
        if intId < |cpuPriv[vcpu.id].interrupts| then Some(cpuPriv[vcpu.id].interrupts[intId]) else None
      else if intId < GicIntsMax then
        if intId - GicPrivintNum < |spis| then Some(spis[intId - GicPrivintNum]) else None
      else None
    }

    /**
     * Every id below 1024 names an interrupt of the engine carrying that id
     * (a private one from the caller's bank, a shared one at `id - 32`); no
     * other id names anything.
     */
    lemma GetIntSpec(vcpu: Vcpu, intId: nat)
      requires Valid() && IsVcpu(vcpu)
      ensures GetInt(vcpu, intId).Some? <==> intId < GicIntsMax
      ensures GetInt(vcpu, intId).Some? ==> GetInt(vcpu, intId).value.id == intId && GetInt(vcpu, intId).value in ints
      ensures intId < GicPrivintNum ==> GetInt(vcpu, intId) == Some(cpuPriv[vcpu.id].interrupts[intId])
      ensures GicPrivintNum <= intId < GicIntsMax ==> GetInt(vcpu, intId) == Some(spis[intId - GicPrivintNum])
    {
    }

    /**
     * `gich_get_lr`: the list register word of a resident interrupt owned on
     * this core, when the register still carries its id and a nonzero state.
     */
    function GichGetLr(x: VgicInt): (r: Option<bv32>)
      requires x.owner.Some? && x.lr < |gich.lr| && x.id < GicIntsMax
      reads x`inLr, x`owner, x`lr, gich`lr
      ensures r.Some? <==>
        x.inLr && x.owner.value.physId == gich.cpuId && LrVid(gich.lr[x.lr]) == IdBits(x.id) && LrState(gich.lr[x.lr]) != 0
      ensures r.Some? ==> r.value == gich.lr[x.lr]
    {
      if !x.inLr || x.owner.value.physId != gich.cpuId then None
      else
        var w := gich.lr[x.lr];
        if LrVid(w) == IdBits(x.id) && LrState(w) != 0 then Some(w) else None
    }

    /** What `vgic_get_state` overlays on the software state: the resident list register and the SGI request mask. */
    function Resident(x: VgicInt): Option<bv32>
      requires Valid() && x in ints && (x.inLr ==> x.owner.Some?)
      reads banks`interrupts, banks`currLrs, banks`sgis, banks`pendList, banks`actList, ints`owner, ints`lr, gich`lr
      reads x`inLr
    {
      if x.inLr && x.OwnerPhysId() == Some(gich.cpuId) then GichGetLr(x) else None
    }

    function SgiPend(x: VgicInt): Option<U8>
      requires Valid() && x in ints
      reads banks`interrupts, banks`currLrs, banks`sgis, banks`pendList, banks`actList, ints`owner, ints`lr, gich`lr
    {
      if x.id < GicSgisNum && x.owner.Some? then Some(cpuPriv[x.owner.value.id].sgis[x.id].pend) else None
    }

    /** `vgic_get_state`, with the resident state taken from bits 29:28 of the list register. */
    function GetState(x: VgicInt): (s: bv64)
      requires Valid() && x in ints && (x.inLr ==> x.owner.Some?)
      reads banks`interrupts, banks`currLrs, banks`sgis, banks`pendList, banks`actList, ints`owner, ints`lr, gich`lr
      reads x`inLr, x`state
      ensures s < 4
    {
      StateOf(x.state, Resident(x), SgiPend(x))
    }

    /**
     * Bit 0 of `vgic_get_state` is pending and bit 1 active: taken from the
     * state field of the list register while the interrupt is resident on
     * this core, from the software state otherwise, and bit 0 is also set
     * while some CPU requests the SGI.
     */
    lemma GetStateBits(x: VgicInt)
      requires Valid() && x in ints && (x.inLr ==> x.owner.Some?)
      ensures GetState(x) & 1 != 0 <==>
        (if Resident(x).Some? then LrState(Resident(x).value) & 1 != 0 else x.state == IrqSPend || x.state == IrqSPendActive)
        || (SgiPend(x).Some? && SgiPend(x).value != 0)
      ensures GetState(x) & 2 != 0 <==>
        (if Resident(x).Some? then LrState(Resident(x).value) & 2 != 0 else x.state == IrqSActive || x.state == IrqSPendActive)
    {
    }

    /** `vgic_get_state` as written. */
    function GetStateAsWritten(x: VgicInt): bv64
      requires Valid() && x in ints && (x.inLr ==> x.owner.Some?)
      reads banks`interrupts, banks`currLrs, banks`sgis, banks`pendList, banks`actList, ints`owner, ints`lr, gich`lr
      reads x`inLr, x`state
    {
      StateOfAsWritten(x.state, Resident(x), SgiPend(x))
    }

    /** The condition under which `vgic_int_yield_owner` gives up a shared interrupt. */
    predicate Yields(vcpu: Vcpu, x: VgicInt)
      requires Valid() && x in ints
      reads banks`interrupts, banks`currLrs, banks`sgis, banks`pendList, banks`actList, ints`owner, ints`lr, gich`lr
      reads x`inLr, x`state
    {
      x.Owns(vcpu) && !x.inLr && !GicIsPriv(x.id) && GetState(x) & 2 == 0
    }

    /** GICD_CTLR takes a new value; nothing else changes. */
    method StoreCtlr(c: bv32)
      requires Valid()
      modifies this`ctlr
      ensures Valid() && ctlr == c
    {
      ctlr := c;
    }

    /** A message for other cores is recorded in the outbox; nothing else changes. */
    method Post(out: Outgoing)
      requires Valid()
      modifies this`outbox
      ensures Valid()
      ensures outbox == old(outbox) + [out]
    {
      outbox := outbox + [out];
    }

    /** `vgic_int_get_owner`: claims an unowned interrupt; an owned one is only compared. */
    method IntGetOwner(vcpu: Vcpu, x: VgicInt) returns (r: bool)
      requires Valid() && IsVcpu(vcpu) && x in ints
      modifies x`owner
      ensures Valid()
      ensures r == old(x.Claimable(vcpu))
      ensures x.owner == if old(x.owner).None? then Some(vcpu) else old(x.owner)
      ensures r ==> x.owner == Some(vcpu) && x.Owns(vcpu)
    {
      match x.owner
      case Some(o) =>
        r := o.vmId == vcpu.vmId && o.id == vcpu.id;
      case None =>
        x.SetOwner(vcpu);
        r := true;
    }

    /** `vgic_int_yield_owner`: drops the owner of a shared, non-resident, non-active interrupt the caller owns. */
    method IntYieldOwner(vcpu: Vcpu, x: VgicInt)
      requires Valid() && x in ints
      modifies x`owner
      ensures Valid()
      ensures x.owner == if old(Yields(vcpu, x)) then None else old(x.owner)
    {
      if !x.Owns(vcpu) || x.inLr || GicIsPriv(x.id) {
        return;
      }
      if GetState(x) & 2 == 0 {
        x.ClearOwner();
      }
    }

    /**
     * `update_int_list`: the flags follow the state bits, and the interrupt
     * joins the tail of a list when its flag turns on or leaves the list when
     * its bit is clear.
     */
    method UpdateIntList(vcpuId: nat, x: VgicInt)
      requires Valid() && vcpuId < |cpuPriv| && x in ints
      modifies {cpuPriv[vcpuId]}`pendList, {cpuPriv[vcpuId]}`actList, x`inPend, x`inAct
      ensures Valid()
      ensures x.inPend == (ToNum(x.state) & 1 != 0) && x.inAct == (ToNum(x.state) & 2 != 0)
      ensures cpuPriv[vcpuId].pendList == ListAfter(old(cpuPriv[vcpuId].pendList), x, ToNum(x.state) & 1 != 0, old(x.inPend))
      ensures cpuPriv[vcpuId].actList == ListAfter(old(cpuPriv[vcpuId].actList), x, ToNum(x.state) & 2 != 0, old(x.inAct))
    {
      UpdatePendList(vcpuId, x);
      UpdateActList(vcpuId, x);
    }

    /** The pend-list half of `update_int_list`. */
    method UpdatePendList(vcpuId: nat, x: VgicInt)
      requires Valid() && vcpuId < |cpuPriv| && x in ints
      modifies {cpuPriv[vcpuId]}`pendList, x`inPend
      ensures Valid()
      ensures x.inPend == (ToNum(x.state) & 1 != 0)
      ensures cpuPriv[vcpuId].pendList == ListAfter(old(cpuPriv[vcpuId].pendList), x, ToNum(x.state) & 1 != 0, old(x.inPend))
    {
      var b := cpuPriv[vcpuId];
      if ToNum(x.state) & 1 != 0 && !x.inPend {
        b.PendListPush(x);
        x.SetInPendState(true);
      } else if ToNum(x.state) & 1 == 0 {
        QueueRemoveSubset(b.pendList, x.id);
        b.PendListRemove(x);
        x.SetInPendState(false);
      }
    }

    /** The act-list half of `update_int_list`. */
    method UpdateActList(vcpuId: nat, x: VgicInt)
      requires Valid() && vcpuId < |cpuPriv| && x in ints
      modifies {cpuPriv[vcpuId]}`actList, x`inAct
      ensures Valid()
      ensures x.inAct == (ToNum(x.state) & 2 != 0)
      ensures cpuPriv[vcpuId].actList == ListAfter(old(cpuPriv[vcpuId].actList), x, ToNum(x.state) & 2 != 0, old(x.inAct))
    {
      var b := cpuPriv[vcpuId];
      if ToNum(x.state) & 2 != 0 && !x.inAct {
        b.ActListPush(x);
        x.SetInActState(true);
      } else if ToNum(x.state) & 2 == 0 {
        QueueRemoveSubset(b.actList, x.id);
        b.ActListRemove(x);
        x.SetInActState(false);
      }
    }

    /**
     * `remove_lr`: takes a resident interrupt the caller owns out of its list
     * register.  The register is zeroed when it still carries the interrupt;
     * the interrupt then takes the register's state, an SGI folds its source
     * back into the caller's bank, the lists follow, and NPIE is requested
     * when the interrupt is still pending and enabled.  It reports whether
     * the register carried the interrupt.
     */
    method RemoveLr(vcpu: Vcpu, x: VgicInt) returns (r: bool)
      requires Valid() && IsVcpu(vcpu) && x in ints
      modifies x`inLr, x`state, x`inPend, x`inAct, gich`lr, gich`hcr
      modifies {cpuPriv[vcpu.id]}`sgis, {cpuPriv[vcpu.id]}`pendList, {cpuPriv[vcpu.id]}`actList
      ensures Valid()
      ensures !old(x.Owns(vcpu) && x.inLr) ==>
        !r && unchanged(x) && unchanged(gich) && unchanged(cpuPriv[vcpu.id])
      ensures old(x.Owns(vcpu) && x.inLr) ==> !x.inLr && r == old(GichGetLr(x)).Some?
      ensures x.state == old(TakenState(vcpu, x))
      ensures old(x.Owns(vcpu) && x.inLr) && !r ==>
        gich.lr == old(gich.lr) && gich.hcr == old(gich.hcr) && x.state == old(x.state)
        && x.inPend == old(x.inPend) && x.inAct == old(x.inAct) && unchanged(cpuPriv[vcpu.id])
      ensures r ==>
        var w := old(GichGetLr(x)).value;
        var b := cpuPriv[vcpu.id];
        gich.lr == old(gich.lr)[x.lr := 0] && x.state == NumToState(LrStateNum(w))
        && b.sgis == SgisAfterRemove(old(b.sgis), x.id, w)
        && b.pendList == ListAfter(old(b.pendList), x, LrState(w) & 1 != 0, old(x.inPend))
        && b.actList == ListAfter(old(b.actList), x, LrState(w) & 2 != 0, old(x.inAct))
        && x.inPend == (LrState(w) & 1 != 0) && x.inAct == (LrState(w) & 2 != 0)
        && gich.hcr == (if LrState(w) & 1 != 0 && x.enabled then old(gich.hcr) | HcrNpie else old(gich.hcr))
      ensures gich.EoiSet() <= old(gich.EoiSet()) && NpieOnly(old(gich.hcr), gich.hcr)
    {
      if !x.Owns(vcpu) || !x.inLr {
        return false;
      }
      var lr := GichGetLr(x);
      if lr.Some? {
        ZeroLr();
        EoiSetAfterWrite(gich.lr, gich.lrsNum, x.lr, 0);
        gich.SetLr(x.lr, 0);
      }
      x.SetInLr(false);
      if lr.None? {
        return false;
      }
      FoldLr(vcpu, x, lr.value);
      return true;
    }

    /**
     * The second half of `remove_lr`, once the word `w` is taken back: the
     * interrupt takes its state, an SGI folds the source into the caller's
     * bank, the lists follow, and NPIE is requested for a pending enabled one.
     */
    method FoldLr(vcpu: Vcpu, x: VgicInt, w: bv32)
      requires Valid() && IsVcpu(vcpu) && x in ints
      modifies x`state, x`inPend, x`inAct, gich`hcr
      modifies {cpuPriv[vcpu.id]}`sgis, {cpuPriv[vcpu.id]}`pendList, {cpuPriv[vcpu.id]}`actList
      ensures Valid()
      ensures x.state == NumToState(LrStateNum(w))
      ensures cpuPriv[vcpu.id].sgis == SgisAfterRemove(old(cpuPriv[vcpu.id].sgis), x.id, w)
      ensures cpuPriv[vcpu.id].pendList == ListAfter(old(cpuPriv[vcpu.id].pendList), x, LrState(w) & 1 != 0, old(x.inPend))
      ensures cpuPriv[vcpu.id].actList == ListAfter(old(cpuPriv[vcpu.id].actList), x, LrState(w) & 2 != 0, old(x.inAct))
      ensures x.inPend == (LrState(w) & 1 != 0) && x.inAct == (LrState(w) & 2 != 0)
      ensures gich.hcr == (if LrState(w) & 1 != 0 && x.enabled then old(gich.hcr) | HcrNpie else old(gich.hcr))
    {
      x.SetState(NumToState(LrStateNum(w)));
      FoldSgi(vcpu, x, w);
      UpdateIntList(vcpu.id, x);
      if LrState(w) & 1 != 0 && x.enabled {
        gich.SetHcr(gich.hcr | HcrNpie);
      }
    }

    /** The SGI part of the fold of `remove_lr`. */
    method FoldSgi(vcpu: Vcpu, x: VgicInt, w: bv32)
      requires Valid() && IsVcpu(vcpu) && x in ints
      modifies {cpuPriv[vcpu.id]}`sgis
      ensures Valid()
      ensures cpuPriv[vcpu.id].sgis == SgisAfterRemove(old(cpuPriv[vcpu.id].sgis), x.id, w)
    {
      var b := cpuPriv[vcpu.id];
      if x.id < GicSgisNum {
        if LrState(w) & 2 != 0 {
          b.SetSgisAct(x.id, SourceByte(LrSource(w)));
        } else if LrState(w) & 1 != 0 {
          b.SetSgisPend(x.id, b.sgis[x.id].pend | SourceMask(LrSource(w)));
        }
      }
    }

    /** The SGI record `write_lr` consults: the caller's, for an SGI. */
    function SgiOf(vcpu: Vcpu, x: VgicInt): Sgis
      requires Valid() && IsVcpu(vcpu)
      reads banks`interrupts, banks`currLrs, banks`sgis, banks`pendList, banks`actList, ints`owner, ints`lr, gich`lr
    {
      if x.id < GicSgisNum then cpuPriv[vcpu.id].sgis[x.id] else Sgis(0, 0)
    }

    /** The word `write_lr` puts into the list register for `x`, and the SGI request mask it leaves. */
    function Written(vcpu: Vcpu, x: VgicInt): LrWrite
      requires Valid() && IsVcpu(vcpu) && x in ints && (x.inLr ==> x.owner.Some?)
      reads banks`interrupts, banks`currLrs, banks`sgis, banks`pendList, banks`actList, ints`owner, ints`lr, gich`lr
      reads x`inLr, x`state, x`prio, x`hw
    {
      LrFor(x.id, x.prio, IsHw(x), GetState(x), SgiOf(vcpu, x))
    }

    /** The interrupt recorded in slot `lrInd` of the caller's bank, when it is not interrupt `id` itself. */
    function Occupant(vcpu: Vcpu, lrInd: nat, id: nat): set<VgicInt>
      requires vcpu.id < |cpuPriv| && lrInd < |cpuPriv[vcpu.id].currLrs|
      reads {cpuPriv[vcpu.id]}`interrupts, {cpuPriv[vcpu.id]}`currLrs
    {
      var p := cpuPriv[vcpu.id].currLrs[lrInd];
      if p != id && GetInt(vcpu, p).Some? then {GetInt(vcpu, p).value} else {}
    }

    /** The list-register facts `write_lr` goes by before giving slot `lrInd` away. */
    predicate Displaced(vcpu: Vcpu, q: VgicInt, lrInd: nat)
      reads q`owner, q`inLr, q`lr
    {
      q.Owns(vcpu) && q.inLr && q.lr == lrInd
    }

    /**
     * The first step of `write_lr`: the previous occupant of the slot, when
     * it is another interrupt the caller owns that is still marked resident in
     * this register, is marked not resident, and a shared one is then yielded.
     */
    method EvictOccupant(vcpu: Vcpu, lrInd: nat, id: nat)
      requires Valid() && IsVcpu(vcpu) && lrInd < GicListRegsNum
      modifies Occupant(vcpu, lrInd, id)`inLr, Occupant(vcpu, lrInd, id)`owner
      ensures Valid()
      ensures forall q :: q in Occupant(vcpu, lrInd, id) ==>
        q.id != id && q in ints
        && q.inLr == (old(q.inLr) && !old(Displaced(vcpu, q, lrInd)))
        && q.owner == (if old(Displaced(vcpu, q, lrInd)) && !GicIsPriv(q.id) && ToNum(q.state) & 2 == 0 then None else old(q.owner))
    {
      var b := cpuPriv[vcpu.id];
      var prevId := b.currLrs[lrInd];
      if prevId != id {
        var p := GetInt(vcpu, prevId);
        if p.Some? {
          var q := p.value;
          GetIntSpec(vcpu, prevId);
          if q.Owns(vcpu) && q.inLr && q.lr == lrInd {
            q.SetInLr(false);
            if !GicIsPriv(q.id) {
              IntYieldOwner(vcpu, q);
            }
          }
        }
      }
    }

    /**
     * `write_lr`: puts `x` into list register `lrInd`.  The previous
     * occupant is dealt with first; the register then receives the word of
     * `LrFor`, an SGI's request mask loses the source written, a hardware
     * interrupt is made active at the distributor, and `x` is marked resident
     * in the slot with an inactive software state, which takes it off both
     * lists.  The state is read before the occupant is dealt with, which
     * reads the same value: that step changes only another interrupt.
     */
    method WriteLr(vcpu: Vcpu, x: VgicInt, lrInd: nat)
      requires Valid() && IsVcpu(vcpu) && x in ints && lrInd < gich.lrsNum && (x.inLr ==> x.owner.Some?)
      modifies x`state, x`inLr, x`lr, x`inPend, x`inAct
      modifies Occupant(vcpu, lrInd, x.id)`inLr, Occupant(vcpu, lrInd, x.id)`owner
      modifies gich`lr, gicd`state
      modifies {cpuPriv[vcpu.id]}`currLrs, {cpuPriv[vcpu.id]}`sgis, {cpuPriv[vcpu.id]}`pendList, {cpuPriv[vcpu.id]}`actList
      ensures Valid()
      ensures x.state == IrqSInactive && x.inLr && x.lr == lrInd && !x.inPend && !x.inAct && x.owner == old(x.owner)
      ensures gich.lr == old(gich.lr)[lrInd := old(Written(vcpu, x)).word]
      ensures cpuPriv[vcpu.id].sgis ==
        if x.id < GicSgisNum then old(cpuPriv[vcpu.id].sgis)[x.id := old(cpuPriv[vcpu.id].sgis[x.id]).(pend := old(Written(vcpu, x)).pend)]
        else old(cpuPriv[vcpu.id].sgis)
      ensures cpuPriv[vcpu.id].currLrs == old(cpuPriv[vcpu.id].currLrs)[lrInd := x.id]
      ensures cpuPriv[vcpu.id].pendList == QueueRemove(old(cpuPriv[vcpu.id].pendList), x.id)
      ensures cpuPriv[vcpu.id].actList == QueueRemove(old(cpuPriv[vcpu.id].actList), x.id)
      ensures gicd.state == if IsHw(x) && old(gicd.State(x.id)) != 2 then old(gicd.state)[x.id := 2] else old(gicd.state)
    {
      var st := GetState(x);
      var sgi := SgiOf(vcpu, x);
      OccupantIn(vcpu, lrInd, x.id);
      EvictOccupant(vcpu, lrInd, x.id);
      var word, pend := BuildLr(x.id, x.prio, IsHw(x), st, sgi);
      PlaceLr(vcpu, x, lrInd, word, pend);
    }

    /** The rest of `write_lr`, once the word and the SGI request mask it leaves are known. */
    method PlaceLr(vcpu: Vcpu, x: VgicInt, lrInd: nat, word: bv32, pend: U8)
      requires Valid() && IsVcpu(vcpu) && x in ints && lrInd < gich.lrsNum
      modifies x`state, x`inLr, x`lr, x`inPend, x`inAct
      modifies gich`lr, gicd`state
      modifies {cpuPriv[vcpu.id]}`currLrs, {cpuPriv[vcpu.id]}`sgis, {cpuPriv[vcpu.id]}`pendList, {cpuPriv[vcpu.id]}`actList
      ensures Valid()
      ensures x.state == IrqSInactive && x.inLr && x.lr == lrInd && !x.inPend && !x.inAct
      ensures gich.lr == old(gich.lr)[lrInd := word]
      ensures cpuPriv[vcpu.id].sgis ==
        if x.id < GicSgisNum then old(cpuPriv[vcpu.id].sgis)[x.id := old(cpuPriv[vcpu.id].sgis[x.id]).(pend := pend)]
        else old(cpuPriv[vcpu.id].sgis)
      ensures cpuPriv[vcpu.id].currLrs == old(cpuPriv[vcpu.id].currLrs)[lrInd := x.id]
      ensures cpuPriv[vcpu.id].pendList == QueueRemove(old(cpuPriv[vcpu.id].pendList), x.id)
      ensures cpuPriv[vcpu.id].actList == QueueRemove(old(cpuPriv[vcpu.id].actList), x.id)
      ensures gicd.state == if IsHw(x) && old(gicd.State(x.id)) != 2 then old(gicd.state)[x.id := 2] else old(gicd.state)
    {
      KeepRequests(vcpu, x, pend);
      MarkResident(vcpu, x, lrInd, word);
      UpdateIntList(vcpu.id, x);
    }

    /** The bookkeeping of `write_lr` outside the interrupt: an SGI keeps the requests left, a hardware interrupt turns active. */
    method KeepRequests(vcpu: Vcpu, x: VgicInt, pend: U8)
      requires Valid() && IsVcpu(vcpu) && x in ints
      modifies {cpuPriv[vcpu.id]}`sgis, gicd`state
      ensures Valid()
      ensures cpuPriv[vcpu.id].sgis ==
        if x.id < GicSgisNum then old(cpuPriv[vcpu.id].sgis)[x.id := old(cpuPriv[vcpu.id].sgis[x.id]).(pend := pend)]
        else old(cpuPriv[vcpu.id].sgis)
      ensures gicd.state == if IsHw(x) && old(gicd.State(x.id)) != 2 then old(gicd.state)[x.id := 2] else old(gicd.state)
    {
      var b := cpuPriv[vcpu.id];
      if x.id < GicSgisNum && pend != b.sgis[x.id].pend {
        b.SetSgisPend(x.id, pend);
      }
      if IsHw(x) && gicd.State(x.id) != 2 {
        DistState(x.id, 2);
      }
    }

    /** `x` becomes resident in register `lrInd`: its fields, the occupant slot and the register itself. */
    method MarkResident(vcpu: Vcpu, x: VgicInt, lrInd: nat, word: bv32)
      requires Valid() && IsVcpu(vcpu) && x in ints && lrInd < gich.lrsNum
      modifies x`state, x`inLr, x`lr, gich`lr, {cpuPriv[vcpu.id]}`currLrs
      ensures Valid()
      ensures x.state == IrqSInactive && x.inLr && x.lr == lrInd
      ensures gich.lr == old(gich.lr)[lrInd := word]
      ensures cpuPriv[vcpu.id].currLrs == old(cpuPriv[vcpu.id].currLrs)[lrInd := x.id]
    {
      MarkInt(x, lrInd);
      cpuPriv[vcpu.id].SetCurrLr(lrInd, x.id);
      gich.SetLr(lrInd, word);
    }

    /** The interrupt's own half of `MarkResident`: inactive, resident, in register `lrInd`. */
    method MarkInt(x: VgicInt, lrInd: nat)
      requires Valid() && x in ints && lrInd < GicListRegsNum
      modifies x`state, x`inLr, x`lr
      ensures Valid()
      ensures x.state == IrqSInactive && x.inLr && x.lr == lrInd
    {
      x.SetState(IrqSInactive);
      x.SetInLr(true);
      x.SetLr(lrInd);
    }

    /** The occupant of a slot is an interrupt of the engine. */
    lemma OccupantIn(vcpu: Vcpu, lrInd: nat, id: nat)
      requires Valid() && IsVcpu(vcpu) && lrInd < GicListRegsNum
      ensures Occupant(vcpu, lrInd, id) <= ints
      ensures forall q :: q in Occupant(vcpu, lrInd, id) ==> q.id != id
    {
      GetIntSpec(vcpu, cpuPriv[vcpu.id].currLrs[lrInd]);
    }

    /**
     * `add_lr`: an enabled interrupt not yet resident goes into the first
     * free list register, or else into the victim register, whose interrupt
     * is taken out and yielded first.  With neither, NPIE is requested when the
     * interrupt is pending.  It reports whether the interrupt was written.
     */
    method AddLr(vcpu: Vcpu, x: VgicInt) returns (r: bool)
      requires Valid() && IsVcpu(vcpu) && x in ints
      modifies ints`inLr, ints`state, ints`inPend, ints`inAct, ints`lr, ints`owner, gich`lr, gich`hcr, gicd`state
      modifies {cpuPriv[vcpu.id]}`currLrs, {cpuPriv[vcpu.id]}`sgis, {cpuPriv[vcpu.id]}`pendList, {cpuPriv[vcpu.id]}`actList
      ensures Valid()
      ensures r == old(x.enabled && !x.inLr && Chosen(gich.lr, gich.lrsNum).Some?)
      ensures r ==> x.inLr && x.lr == old(Chosen(gich.lr, gich.lrsNum)).value && x.state == IrqSInactive
      ensures !old(x.enabled && !x.inLr) ==> unchanged(ints) && unchanged(gich) && unchanged(gicd) && unchanged(cpuPriv[vcpu.id])
      ensures old(x.enabled && !x.inLr) && !r ==>
        unchanged(ints) && unchanged(gicd) && unchanged(cpuPriv[vcpu.id]) && gich.lr == old(gich.lr)
        && gich.hcr == if old(GetState(x)) & 1 != 0 then old(gich.hcr) | HcrNpie else old(gich.hcr)
      ensures NpieOnly(old(gich.hcr), gich.hcr)
      ensures x.id < GicSgisNum ==> gich.EoiSet() <= old(gich.EoiSet())
    {
      if !x.enabled || x.inLr {
        return false;
      }
      r := AddEnabledLr(vcpu, x);
    }

    /** `add_lr` for an enabled interrupt not yet resident. */
    method AddEnabledLr(vcpu: Vcpu, x: VgicInt) returns (r: bool)
      requires Valid() && IsVcpu(vcpu) && x in ints && x.enabled && !x.inLr
      modifies ints`inLr, ints`state, ints`inPend, ints`inAct, ints`lr, ints`owner, gich`lr, gich`hcr, gicd`state
      modifies {cpuPriv[vcpu.id]}`currLrs, {cpuPriv[vcpu.id]}`sgis, {cpuPriv[vcpu.id]}`pendList, {cpuPriv[vcpu.id]}`actList
      ensures Valid()
      ensures r == old(Chosen(gich.lr, gich.lrsNum).Some?)
      ensures r ==> x.inLr && x.lr == old(Chosen(gich.lr, gich.lrsNum)).value && x.state == IrqSInactive
      ensures !r ==>
        unchanged(ints) && unchanged(gicd) && unchanged(cpuPriv[vcpu.id]) && gich.lr == old(gich.lr)
        && gich.hcr == if old(GetState(x)) & 1 != 0 then old(gich.hcr) | HcrNpie else old(gich.hcr)
      ensures NpieOnly(old(gich.hcr), gich.hcr)
      ensures x.id < GicSgisNum ==> gich.EoiSet() <= old(gich.EoiSet())
    {
      var lrInd := TakeLr(vcpu, x);
      match lrInd
      case Some(idx) =>
        PutLr(vcpu, x, idx);
        return true;
      case None =>
        RequestNpie(x);
        return false;
    }

    /** With no register for it, `add_lr` requests NPIE for a pending interrupt. */
    method RequestNpie(x: VgicInt)
      requires Valid() && x in ints && (x.inLr ==> x.owner.Some?)
      modifies gich`hcr
      ensures Valid()
      ensures gich.hcr == if old(GetState(x)) & 1 != 0 then old(gich.hcr) | HcrNpie else old(gich.hcr)
    {
      if GetState(x) & 1 != 0 {
        gich.SetHcr(gich.hcr | HcrNpie);
      }
    }

    /** The register `add_lr` uses: the first free one, or else the victim, whose interrupt is taken out first. */
    method TakeLr(vcpu: Vcpu, x: VgicInt) returns (lrInd: Option<nat>)
      requires Valid() && IsVcpu(vcpu) && x in ints && !x.inLr
      modifies ints`inLr, ints`state, ints`inPend, ints`inAct, ints`owner, gich`lr, gich`hcr
      modifies {cpuPriv[vcpu.id]}`sgis, {cpuPriv[vcpu.id]}`pendList, {cpuPriv[vcpu.id]}`actList
      ensures Valid() && !x.inLr
      ensures lrInd == old(Chosen(gich.lr, gich.lrsNum))
      ensures lrInd.Some? ==> lrInd.value < gich.lrsNum
      ensures lrInd.None? ==> unchanged(ints) && unchanged(gich) && unchanged(cpuPriv[vcpu.id])
      ensures lrInd.None? ==> GetState(x) == old(GetState(x))
      ensures gich.EoiSet() <= old(gich.EoiSet()) && NpieOnly(old(gich.hcr), gich.hcr)
    {
      ChosenBelow(gich.lr, gich.lrsNum);
      lrInd := FindFreeLr(gich.lr, gich.lrsNum);
      if lrInd.None? {
        lrInd := FindVictim(gich.lr, gich.lrsNum);
        if lrInd.Some? {
          Spill(vcpu, x, lrInd.value);
        }
      }
    }

    /** The write of `add_lr` into register `idx`; for an SGI it adds no register waiting for an EOI. */
    method PutLr(vcpu: Vcpu, x: VgicInt, idx: nat)
      requires Valid() && IsVcpu(vcpu) && x in ints && !x.inLr && idx < gich.lrsNum
      modifies ints`inLr, ints`state, ints`inPend, ints`inAct, ints`lr, ints`owner, gich`lr, gicd`state
      modifies {cpuPriv[vcpu.id]}`currLrs, {cpuPriv[vcpu.id]}`sgis, {cpuPriv[vcpu.id]}`pendList, {cpuPriv[vcpu.id]}`actList
      ensures Valid()
      ensures x.inLr && x.lr == idx && x.state == IrqSInactive
      ensures x.id < GicSgisNum ==> gich.EoiSet() <= old(gich.EoiSet())
    {
      OccupantIn(vcpu, idx, x.id);
      ghost var before := gich.lr;
      ghost var word := Written(vcpu, x).word;
      if x.id < GicSgisNum {
        SgiWordNoEoi(x.id, x.prio, GetState(x), SgiOf(vcpu, x));
        EoiSetAfterWrite(before, gich.lrsNum, idx, word);
      }
      WriteLr(vcpu, x, idx);
    }

    /** The eviction of `add_lr`: the interrupt named by victim register `idx` is taken out and yielded. */
    method Spill(vcpu: Vcpu, x: VgicInt, idx: nat)
      requires Valid() && IsVcpu(vcpu) && x in ints && !x.inLr && idx < GicListRegsNum
      modifies ints`inLr, ints`state, ints`inPend, ints`inAct, ints`owner, gich`lr, gich`hcr
      modifies {cpuPriv[vcpu.id]}`sgis, {cpuPriv[vcpu.id]}`pendList, {cpuPriv[vcpu.id]}`actList
      ensures Valid() && !x.inLr
      ensures gich.EoiSet() <= old(gich.EoiSet()) && NpieOnly(old(gich.hcr), gich.hcr)
    {
      var vid := LrVid(gich.lr[idx]) as nat;
      GetIntSpec(vcpu, vid);
      var spilled := GetInt(vcpu, vid).value;
      var _ := RemoveLr(vcpu, spilled);
      IntYieldOwner(vcpu, spilled);
    }

    /**
     * `route`: a pending or active enabled interrupt goes into a list
     * register of the caller when it targets the caller's core; when it is
     * not resident afterwards and targets other cores too, it is yielded and
     * a `VgicdRoute` message for every other core is recorded.
     */
    method Route(vcpu: Vcpu, x: VgicInt)
      requires Valid() && IsVcpu(vcpu) && x in ints
      modifies ints`inLr, ints`state, ints`inPend, ints`inAct, ints`lr, ints`owner, gich`lr, gich`hcr, gicd`state
      modifies {cpuPriv[vcpu.id]}`currLrs, {cpuPriv[vcpu.id]}`sgis, {cpuPriv[vcpu.id]}`pendList, {cpuPriv[vcpu.id]}`actList
      modifies this`outbox
      ensures Valid()
      ensures old(x.state) == IrqSInactive || !old(x.enabled) ==>
        unchanged(ints) && unchanged(gich) && unchanged(gicd) && unchanged(cpuPriv[vcpu.id]) && outbox == old(outbox)
      ensures old(x.state) != IrqSInactive && old(x.enabled) && !Targets(x.targets, vcpu.physId) ==>
        unchanged(gich) && unchanged(gicd) && unchanged(cpuPriv[vcpu.id])
      ensures old(x.state) != IrqSInactive && old(x.enabled) && Targets(x.targets, vcpu.physId) ==>
        x.inLr == (old(x.inLr) || old(Chosen(gich.lr, gich.lrsNum)).Some?)
      ensures outbox == old(outbox) +
        if old(x.state) != IrqSInactive && old(x.enabled) && !x.inLr && TargetsOthers(x.targets, vcpu.physId)
        then [Broadcast(IpiInitcMessage(VgicdRoute, vcpu.vmId, x.id, 0))] else []
    {
      if x.state == IrqSInactive || !x.enabled {
        return;
      }
      if Targets(x.targets, vcpu.physId) {
        var _ := AddLr(vcpu, x);
      }
      HandOff(vcpu, x);
    }

    /** The second half of `route`: an interrupt left outside the list registers is yielded and offered to the other targets. */
    method HandOff(vcpu: Vcpu, x: VgicInt)
      requires Valid() && IsVcpu(vcpu) && x in ints
      modifies x`owner, this`outbox
      ensures Valid() && x.inLr == old(x.inLr)
      ensures x.owner == if old(!x.inLr && TargetsOthers(x.targets, vcpu.physId) && Yields(vcpu, x)) then None else old(x.owner)
      ensures outbox == old(outbox) +
        if !x.inLr && TargetsOthers(x.targets, vcpu.physId) then [Broadcast(IpiInitcMessage(VgicdRoute, vcpu.vmId, x.id, 0))] else []
    {
      if !x.inLr && TargetsOthers(x.targets, vcpu.physId) {
        var msg := IpiInitcMessage(VgicdRoute, vcpu.vmId, x.id, 0);
        IntYieldOwner(vcpu, x);
        Post(Broadcast(msg));
      }
    }

    /**
     * `set_enable` (GICD_ISENABLER/ICENABLER): SGIs cannot be switched and
     * ids past 1023 name nothing.  An interrupt the caller can claim changes
     * only when the request differs from its enable bit: it is routed when
     * switched on and taken out of its list register when switched off, and a
     * hardware interrupt (or the timer PPI 30) is switched at the distributor
     * too; it is yielded afterwards.  An interrupt owned elsewhere is left to
     * its owner with a `VgicdSetEn` message.
     */
    method SetEnable(vcpu: Vcpu, intId: nat, en: bool)
      requires Valid() && IsVcpu(vcpu)
      modifies ints`inLr, ints`state, ints`inPend, ints`inAct, ints`lr, ints`owner, ints`enabled
      modifies gich`lr, gich`hcr, gicd`state, gicd`enable
      modifies {cpuPriv[vcpu.id]}`currLrs, {cpuPriv[vcpu.id]}`sgis, {cpuPriv[vcpu.id]}`pendList, {cpuPriv[vcpu.id]}`actList
      modifies this`outbox
      ensures Valid()
      ensures intId < GicSgisNum || intId >= GicIntsMax ==>
        unchanged(ints) && unchanged(gich) && unchanged(gicd) && unchanged(cpuPriv[vcpu.id]) && outbox == old(outbox)
      ensures GicSgisNum <= intId < GicIntsMax ==>
        var x := GetInt(vcpu, intId).value;
        if old(x.Claimable(vcpu)) then
          x.enabled == en
          && gicd.enable == (if old(x.enabled) != en && (x.hw || intId == 30) then old(gicd.enable)[intId := en] else old(gicd.enable))
          && (old(x.enabled) == en ==> unchanged(gich) && gicd.state == old(gicd.state) && unchanged(cpuPriv[vcpu.id]))
        else
          unchanged(ints) && unchanged(gich) && unchanged(gicd) && unchanged(cpuPriv[vcpu.id])
          && outbox == old(outbox) + [Send(old(x.owner).value.physId, IpiInitcMessage(VgicdSetEn, vcpu.vmId, intId, if en then 1 else 0))]
      ensures forall y :: y in ints && y.enabled != old(y.enabled) ==> y.id == intId && y.enabled == en
    {
      if intId < GicSgisNum {
        return;
      }
      GetIntSpec(vcpu, intId);
      var p := GetInt(vcpu, intId);
      if p.None? {
        return;
      }
      var x := p.value;
      var owned := IntGetOwner(vcpu, x);
      if owned {
        if x.enabled != en {
          SwitchEnable(vcpu, x, en);
        }
        IntYieldOwner(vcpu, x);
      } else {
        var msg := IpiInitcMessage(VgicdSetEn, vcpu.vmId, x.id, if en then 1 else 0);
        Post(Send(x.owner.value.physId, msg));
      }
    }

    /** The owner's part of `set_enable` once the bit differs: switch, route or take out, and tell the distributor. */
    method SwitchEnable(vcpu: Vcpu, x: VgicInt, en: bool)
      requires Valid() && IsVcpu(vcpu) && x in ints
      modifies ints`inLr, ints`state, ints`inPend, ints`inAct, ints`lr, ints`owner, x`enabled
      modifies gich`lr, gich`hcr, gicd`state, gicd`enable
      modifies {cpuPriv[vcpu.id]}`currLrs, {cpuPriv[vcpu.id]}`sgis, {cpuPriv[vcpu.id]}`pendList, {cpuPriv[vcpu.id]}`actList
      modifies this`outbox
      ensures Valid()
      ensures x.enabled == en
      ensures gicd.enable == if x.hw || x.id == 30 then old(gicd.enable)[x.id := en] else old(gicd.enable)
    {
      StoreEnabled(x, en);
      FollowEnable(vcpu, x);
      if x.hw || x.id == 30 {
        DistEnable(x.id, en);
      }
    }

    /** `GicDistributor::set_state` on the engine's distributor; the engine's invariant does not depend on it. */
    method DistState(id: nat, st: bv64)
      requires Valid()
      modifies gicd`state
      ensures Valid() && gicd.state == old(gicd.state)[id := st]
    {
      gicd.SetState(id, st);
    }

    /** `GicDistributor::set_priority` on the engine's distributor. */
    method DistPriority(id: nat, p: U8)
      requires Valid()
      modifies gicd`prio
      ensures Valid() && gicd.prio == old(gicd.prio)[id := p]
    {
      gicd.SetPriority(id, p);
    }

    /** `GicDistributor::set_trgt` on the engine's distributor. */
    method DistTrgt(id: nat, t: U8)
      requires Valid()
      modifies gicd`trgt
      ensures Valid() && gicd.trgt == old(gicd.trgt)[id := t]
    {
      gicd.SetTrgt(id, t);
    }

    /** `GicDistributor::set_icfgr` on the engine's distributor. */
    method DistIcfgr(id: nat, c: U8)
      requires Valid()
      modifies gicd`cfg
      ensures Valid() && gicd.cfg == old(gicd.cfg)[id := c]
    {
      gicd.SetIcfgr(id, c);
    }

    /** `GicDistributor::set_enable` on the engine's distributor; the engine's invariant does not depend on it. */
    method DistEnable(id: nat, en: bool)
      requires Valid()
      modifies gicd`enable
      ensures Valid() && gicd.enable == old(gicd.enable)[id := en]
    {
      gicd.SetEnable(id, en);
    }

    /** The enable bit of `x` is stored; the engine's invariant does not depend on it. */
    method StoreEnabled(x: VgicInt, en: bool)
      requires Valid() && x in ints
      modifies x`enabled
      ensures Valid() && x.enabled == en
    {
      x.SetEnabled(en);
    }

    /** After the enable bit changed, an enabled interrupt is routed and a disabled one taken out of its list register. */
    method FollowEnable(vcpu: Vcpu, x: VgicInt)
      requires Valid() && IsVcpu(vcpu) && x in ints
      modifies ints`inLr, ints`state, ints`inPend, ints`inAct, ints`lr, ints`owner
      modifies gich`lr, gich`hcr, gicd`state
      modifies {cpuPriv[vcpu.id]}`currLrs, {cpuPriv[vcpu.id]}`sgis, {cpuPriv[vcpu.id]}`pendList, {cpuPriv[vcpu.id]}`actList
      modifies this`outbox
      ensures Valid()
      ensures !x.enabled && old(x.Owns(vcpu) && x.inLr) ==> !x.inLr
    {
      if x.enabled {
        Route(vcpu, x);
      } else {
        var _ := RemoveLr(vcpu, x);
      }
    }

    /** The software state `remove_lr` leaves: the list register's state when it takes the interrupt back. */
    function TakenState(vcpu: Vcpu, x: VgicInt): IrqState
      requires Valid() && x in ints
      reads banks`interrupts, banks`currLrs, banks`sgis, banks`pendList, banks`actList, ints`owner, ints`lr, gich`lr
      reads x`inLr, x`state
    {
      if x.Owns(vcpu) && x.inLr && GichGetLr(x).Some? then NumToState(LrStateNum(GichGetLr(x).value)) else x.state
    }

    /**
     * The owner's part of `set_pend` (`act` false) and of `set_active` (`act`
     * true) before routing: the interrupt is taken out of its list register,
     * the pending (active) bit of the state it is left with is set to `on`, the
     * lists follow, and a hardware interrupt's distributor state follows.
     */
    method ChangeState(vcpu: Vcpu, x: VgicInt, act: bool, on: bool)
      requires Valid() && IsVcpu(vcpu) && x in ints
      modifies x`inLr, x`state, x`inPend, x`inAct, gich`lr, gich`hcr, gicd`state
      modifies {cpuPriv[vcpu.id]}`sgis, {cpuPriv[vcpu.id]}`pendList, {cpuPriv[vcpu.id]}`actList
      ensures Valid()
      ensures x.state == if act then WithAct(old(TakenState(vcpu, x)), on) else WithPend(old(TakenState(vcpu, x)), on)
      ensures old(x.Owns(vcpu)) ==> !x.inLr
      ensures x.inPend == (ToNum(x.state) & 1 != 0) && x.inAct == (ToNum(x.state) & 2 != 0)
      ensures gicd.state == if x.hw then old(gicd.state)[x.id := HwState(ToNum(x.state))] else old(gicd.state)
    {
      var _ := RemoveLr(vcpu, x);
      Restate(vcpu, x, if act then WithAct(x.state, on) else WithPend(x.state, on));
    }

    /** `x` takes state `st`, the lists follow, and a hardware interrupt's distributor state follows. */
    method Restate(vcpu: Vcpu, x: VgicInt, st: IrqState)
      requires Valid() && IsVcpu(vcpu) && x in ints
      modifies x`state, x`inPend, x`inAct, gicd`state, {cpuPriv[vcpu.id]}`pendList, {cpuPriv[vcpu.id]}`actList
      ensures Valid()
      ensures x.state == st
      ensures x.inPend == (ToNum(st) & 1 != 0) && x.inAct == (ToNum(st) & 2 != 0)
      ensures cpuPriv[vcpu.id].pendList == ListAfter(old(cpuPriv[vcpu.id].pendList), x, ToNum(st) & 1 != 0, old(x.inPend))
      ensures cpuPriv[vcpu.id].actList == ListAfter(old(cpuPriv[vcpu.id].actList), x, ToNum(st) & 2 != 0, old(x.inAct))
      ensures gicd.state == if x.hw then old(gicd.state)[x.id := HwState(ToNum(st))] else old(gicd.state)
    {
      x.SetState(st);
      UpdateIntList(vcpu.id, x);
      if x.hw {
        DistState(x.id, HwState(ToNum(x.state)));
      }
    }

    /** The owner's part of `set_pend` and `set_active`: the state change, then routing and yielding. */
    method ChangeStateAndRoute(vcpu: Vcpu, x: VgicInt, act: bool, on: bool)
      requires Valid() && IsVcpu(vcpu) && x in ints
      modifies ints`inLr, ints`state, ints`inPend, ints`inAct, ints`lr, ints`owner
      modifies gich`lr, gich`hcr, gicd`state
      modifies {cpuPriv[vcpu.id]}`currLrs, {cpuPriv[vcpu.id]}`sgis, {cpuPriv[vcpu.id]}`pendList, {cpuPriv[vcpu.id]}`actList
      modifies this`outbox
      ensures Valid()
    {
      ChangeState(vcpu, x, act, on);
      Route(vcpu, x);
      IntYieldOwner(vcpu, x);
    }

    /**
     * `set_pend` (GICD_ISPENDR/ICPENDR): an SGI number goes to
     * `sgi_set_pend`; any other interrupt the caller can claim has its
     * pending bit set to `pend` and is routed; one owned elsewhere is left to
     * its owner with a `VgicdSetPend` message.  Bits 31:10 of the id are
     * ignored.
     */
    method SetPend(vcpu: Vcpu, intId: nat, pend: bool)
      requires Valid() && IsVcpu(vcpu)
      modifies ints`inLr, ints`state, ints`inPend, ints`inAct, ints`lr, ints`owner
      modifies gich`lr, gich`hcr, gicd`state
      modifies {cpuPriv[vcpu.id]}`currLrs, {cpuPriv[vcpu.id]}`sgis, {cpuPriv[vcpu.id]}`pendList, {cpuPriv[vcpu.id]}`actList
      modifies this`outbox
      ensures Valid()
      ensures intId % GicIntsMax >= GicSgisNum ==>
        var x := GetInt(vcpu, intId % GicIntsMax).value;
        !old(x.Claimable(vcpu)) ==>
          unchanged(ints) && unchanged(gich) && unchanged(gicd) && unchanged(cpuPriv[vcpu.id])
          && outbox == old(outbox) + [Send(old(x.owner).value.physId, IpiInitcMessage(VgicdSetPend, vcpu.vmId, x.id, if pend then 1 else 0))]
    {
      var id := intId % GicIntsMax;
      if id < GicSgisNum {
        SgiSetPend(vcpu, intId, pend);
        return;
      }
      GetIntSpec(vcpu, id);
      var x := GetInt(vcpu, id).value;
      var owned := IntGetOwner(vcpu, x);
      if owned {
        ChangeStateAndRoute(vcpu, x, false, pend);
      } else {
        var msg := IpiInitcMessage(VgicdSetPend, vcpu.vmId, x.id, if pend then 1 else 0);
        Post(Send(x.owner.value.physId, msg));
      }
    }

    /**
     * `set_active` (GICD_ISACTIVER/ICACTIVER): an interrupt the caller can
     * claim has its active bit set to `act` and is routed; one owned elsewhere
     * is left to its owner with a message, which the code tags `VgicdSetPend`.
     */
    method SetActive(vcpu: Vcpu, intId: nat, act: bool)
      requires Valid() && IsVcpu(vcpu)
      modifies ints`inLr, ints`state, ints`inPend, ints`inAct, ints`lr, ints`owner
      modifies gich`lr, gich`hcr, gicd`state
      modifies {cpuPriv[vcpu.id]}`currLrs, {cpuPriv[vcpu.id]}`sgis, {cpuPriv[vcpu.id]}`pendList, {cpuPriv[vcpu.id]}`actList
      modifies this`outbox
      ensures Valid()
      ensures var x := GetInt(vcpu, intId % GicIntsMax).value;
        !old(x.Claimable(vcpu)) ==>
          unchanged(ints) && unchanged(gich) && unchanged(gicd) && unchanged(cpuPriv[vcpu.id])
          && outbox == old(outbox) + [Send(old(x.owner).value.physId, IpiInitcMessage(VgicdSetPend, vcpu.vmId, x.id, if act then 1 else 0))]
    {
      var id := intId % GicIntsMax;
      GetIntSpec(vcpu, id);
      var x := GetInt(vcpu, id).value;
      var owned := IntGetOwner(vcpu, x);
      if owned {
        ChangeStateAndRoute(vcpu, x, true, act);
      } else {
        var msg := IpiInitcMessage(VgicdSetPend, vcpu.vmId, x.id, if act then 1 else 0);
        Post(Send(x.owner.value.physId, msg));
      }
    }

    /**
     * The bookkeeping of `sgi_set_pend` once the list register is taken back:
     * the request mask of source `source` in the caller's bank is set or
     * cleared; only when the mask changes does the pending bit follow
     * (pending exactly when some source requests) and the lists with it.
     */
    method ApplySgiPend(vcpu: Vcpu, x: VgicInt, source: nat, on: bool) returns (changed: bool)
      requires Valid() && IsVcpu(vcpu) && x in ints && x.id < GicSgisNum
      modifies x`state, x`inPend, x`inAct, {cpuPriv[vcpu.id]}`sgis, {cpuPriv[vcpu.id]}`pendList, {cpuPriv[vcpu.id]}`actList
      ensures Valid()
      ensures var was := old(cpuPriv[vcpu.id].sgis[x.id]);
        var now := SgiMaskAfter(was.pend, source, on);
        changed == (now != was.pend)
        && cpuPriv[vcpu.id].sgis == old(cpuPriv[vcpu.id].sgis)[x.id := was.(pend := now)]
        && (changed ==> x.state == WithPend(old(x.state), now != 0)
                        && x.inPend == (now != 0) && x.inAct == (ToNum(x.state) & 2 != 0))
        && (!changed ==> unchanged(x) && unchanged(cpuPriv[vcpu.id]))
    {
      var b := cpuPriv[vcpu.id];
      var pendstate := b.sgis[x.id].pend;
      var now := SgiMaskAfter(pendstate, source, on);
      changed := pendstate != now;
      if changed {
        b.SetSgisPend(x.id, now);
        x.SetState(WithPend(x.state, now != 0));
        WithPendBits(old(x.state), now != 0);
        UpdateIntList(vcpu.id, x);
      }
    }

    /**
     * `sgi_set_pend`: bits 9:0 name the SGI and bits 14:10 the requesting
     * CPU.  Numbers above 16 are ignored; 16 itself would index past the 16
     * SGI records and is excluded.  The SGI is taken out of its list
     * register, its request mask updated, and when the mask changed and the
     * SGI is still pending or active it is added back.
     */
    method SgiSetPend(vcpu: Vcpu, intId: nat, pend: bool)
      requires Valid() && IsVcpu(vcpu) && intId % GicIntsMax != GicSgisNum
      modifies ints`inLr, ints`state, ints`inPend, ints`inAct, ints`lr, ints`owner
      modifies gich`lr, gich`hcr, gicd`state
      modifies {cpuPriv[vcpu.id]}`currLrs, {cpuPriv[vcpu.id]}`sgis, {cpuPriv[vcpu.id]}`pendList, {cpuPriv[vcpu.id]}`actList
      modifies this`outbox
      ensures Valid()
      ensures intId % GicIntsMax > GicSgisNum ==> unchanged(ints) && unchanged(gich) && unchanged(gicd) && unchanged(cpuPriv[vcpu.id]) && outbox == old(outbox)
    {
      var id := intId % GicIntsMax;
      if id > GicSgisNum {
        return;
      }
      var source := (intId / GicIntsMax) % 32;
      GetIntSpec(vcpu, id);
      var x := GetInt(vcpu, id).value;
      var _ := RemoveLr(vcpu, x);
      var changed := ApplySgiPend(vcpu, x, source, pend);
      if changed && x.state != IrqSInactive {
        var _ := AddLr(vcpu, x);
      }
    }

    /**
     * `set_prio` (GICD_IPRIORITYR): the priority is cut to its top 4 bits.
     * An interrupt the caller can claim changes only when that value differs
     * from its priority: it is taken out of its list register, and routed
     * again only when the new priority is not lower in urgency (numerically
     * not greater) than the old one; a hardware interrupt's distributor
     * priority follows; it is yielded afterwards.  An interrupt owned
     * elsewhere is left to its owner with a `VgicdSetPrio` message.
     */
    method SetPrio(vcpu: Vcpu, intId: nat, prio: U8)
      requires Valid() && IsVcpu(vcpu)
      modifies ints`inLr, ints`state, ints`inPend, ints`inAct, ints`lr, ints`owner, ints`prio
      modifies gich`lr, gich`hcr, gicd`state, gicd`prio
      modifies {cpuPriv[vcpu.id]}`currLrs, {cpuPriv[vcpu.id]}`sgis, {cpuPriv[vcpu.id]}`pendList, {cpuPriv[vcpu.id]}`actList
      modifies this`outbox
      ensures Valid()
      ensures intId >= GicIntsMax ==>
        unchanged(ints) && unchanged(gich) && unchanged(gicd) && unchanged(cpuPriv[vcpu.id]) && outbox == old(outbox)
      ensures intId < GicIntsMax ==>
        var x := GetInt(vcpu, intId).value;
        var p := PrioField(prio);
        if old(x.Claimable(vcpu)) then
          x.prio == p
          && gicd.prio == (if old(x.prio) != p && x.hw then old(gicd.prio)[intId := p] else old(gicd.prio))
          && (old(x.prio) == p ==> unchanged(gich) && gicd.state == old(gicd.state) && unchanged(cpuPriv[vcpu.id]) && outbox == old(outbox))
          && (old(x.prio) < p ==> !x.inLr)
        else
          unchanged(ints) && unchanged(gich) && unchanged(gicd) && unchanged(cpuPriv[vcpu.id])
          && outbox == old(outbox) + [Send(old(x.owner).value.physId, IpiInitcMessage(VgicdSetPrio, vcpu.vmId, intId, p))]
      ensures forall y :: y in ints && y.prio != old(y.prio) ==> y.id == intId && y.prio == PrioField(prio)
    {
      GetIntSpec(vcpu, intId);
      var q := GetInt(vcpu, intId);
      if q.None? {
        return;
      }
      PrioRequest(vcpu, q.value, PrioField(prio));
    }

    /** `set_prio` for an existing interrupt `x`, with the priority already cut to `p`. */
    method PrioRequest(vcpu: Vcpu, x: VgicInt, p: U8)
      requires Valid() && IsVcpu(vcpu) && x in ints
      modifies ints`inLr, ints`state, ints`inPend, ints`inAct, ints`lr, ints`owner, x`prio
      modifies gich`lr, gich`hcr, gicd`state, gicd`prio
      modifies {cpuPriv[vcpu.id]}`currLrs, {cpuPriv[vcpu.id]}`sgis, {cpuPriv[vcpu.id]}`pendList, {cpuPriv[vcpu.id]}`actList
      modifies this`outbox
      ensures Valid()
      ensures if old(x.Claimable(vcpu)) then
          x.prio == p
          && gicd.prio == (if old(x.prio) != p && x.hw then old(gicd.prio)[x.id := p] else old(gicd.prio))
          && (old(x.prio) == p ==> unchanged(gich) && gicd.state == old(gicd.state) && unchanged(cpuPriv[vcpu.id]) && outbox == old(outbox))
          && (old(x.prio) < p ==> !x.inLr)
        else
          unchanged(ints) && unchanged(gich) && unchanged(gicd) && unchanged(cpuPriv[vcpu.id])
          && outbox == old(outbox) + [Send(old(x.owner).value.physId, IpiInitcMessage(VgicdSetPrio, vcpu.vmId, x.id, p))]
    {
      var owned := IntGetOwner(vcpu, x);
      if owned {
        PrioOwned(vcpu, x, p);
      } else {
        var msg := IpiInitcMessage(VgicdSetPrio, vcpu.vmId, x.id, p);
        Post(Send(x.owner.value.physId, msg));
      }
    }

    /** The owner's part of `set_prio`: a changed priority is applied, then the interrupt is yielded. */
    method PrioOwned(vcpu: Vcpu, x: VgicInt, p: U8)
      requires Valid() && IsVcpu(vcpu) && x in ints && x.Owns(vcpu)
      modifies ints`inLr, ints`state, ints`inPend, ints`inAct, ints`lr, ints`owner, x`prio
      modifies gich`lr, gich`hcr, gicd`state, gicd`prio
      modifies {cpuPriv[vcpu.id]}`currLrs, {cpuPriv[vcpu.id]}`sgis, {cpuPriv[vcpu.id]}`pendList, {cpuPriv[vcpu.id]}`actList
      modifies this`outbox
      ensures Valid()
      ensures x.prio == p
      ensures gicd.prio == if old(x.prio) != p && x.hw then old(gicd.prio)[x.id := p] else old(gicd.prio)
      ensures old(x.prio) == p ==>
        unchanged(gich) && gicd.state == old(gicd.state) && unchanged(cpuPriv[vcpu.id]) && outbox == old(outbox)
      ensures old(x.prio) < p ==> !x.inLr
    {
      if x.prio != p {
        Reprioritize(vcpu, x, p);
      }
      IntYieldOwner(vcpu, x);
    }

    /** The owner's part of `set_prio` once the priority differs. */
    method Reprioritize(vcpu: Vcpu, x: VgicInt, p: U8)
      requires Valid() && IsVcpu(vcpu) && x in ints && x.Owns(vcpu)
      modifies ints`inLr, ints`state, ints`inPend, ints`inAct, ints`lr, ints`owner, x`prio
      modifies gich`lr, gich`hcr, gicd`state, gicd`prio
      modifies {cpuPriv[vcpu.id]}`currLrs, {cpuPriv[vcpu.id]}`sgis, {cpuPriv[vcpu.id]}`pendList, {cpuPriv[vcpu.id]}`actList
      modifies this`outbox
      ensures Valid()
      ensures x.prio == p
      ensures gicd.prio == if x.hw then old(gicd.prio)[x.id := p] else old(gicd.prio)
      ensures old(x.prio) < p ==> !x.inLr
    {
      var _ := RemoveLr(vcpu, x);
      StorePrio(vcpu, x, p);
    }

    /** `set_prio` after the interrupt is out of its list register: store, route when not lowered, tell the distributor. */
    method StorePrio(vcpu: Vcpu, x: VgicInt, p: U8)
      requires Valid() && IsVcpu(vcpu) && x in ints
      modifies ints`inLr, ints`state, ints`inPend, ints`inAct, ints`lr, ints`owner, x`prio
      modifies gich`lr, gich`hcr, gicd`state, gicd`prio
      modifies {cpuPriv[vcpu.id]}`currLrs, {cpuPriv[vcpu.id]}`sgis, {cpuPriv[vcpu.id]}`pendList, {cpuPriv[vcpu.id]}`actList
      modifies this`outbox
      ensures Valid()
      ensures x.prio == p
      ensures gicd.prio == if x.hw then old(gicd.prio)[x.id := p] else old(gicd.prio)
      ensures old(x.prio) < p ==> x.inLr == old(x.inLr)
    {
      var prev := x.prio;
      x.SetPrio(p);
      if p <= prev {
        Route(vcpu, x);
      }
      if x.hw {
        DistPriority(x.id, p);
      }
    }

    /**
     * `set_trgt` (GICD_ITARGETSR): an interrupt the caller can claim changes
     * only when the request differs from its target byte: the byte is stored,
     * a hardware interrupt's distributor targets follow with the physical
     * mask, and an interrupt that is pending or active is routed again; it is
     * yielded afterwards.  An interrupt owned elsewhere is left to its owner
     * with a `VgicdSetTrgt` message.
     */
    method SetTrgt(vcpu: Vcpu, intId: nat, trgt: U8)
      requires Valid() && IsVcpu(vcpu)
      modifies ints`inLr, ints`state, ints`inPend, ints`inAct, ints`lr, ints`owner, ints`targets
      modifies gich`lr, gich`hcr, gicd`state, gicd`trgt
      modifies {cpuPriv[vcpu.id]}`currLrs, {cpuPriv[vcpu.id]}`sgis, {cpuPriv[vcpu.id]}`pendList, {cpuPriv[vcpu.id]}`actList
      modifies this`outbox
      ensures Valid()
      ensures intId >= GicIntsMax ==>
        unchanged(ints) && unchanged(gich) && unchanged(gicd) && unchanged(cpuPriv[vcpu.id]) && outbox == old(outbox)
      ensures intId < GicIntsMax ==>
        var x := GetInt(vcpu, intId).value;
        if old(x.Claimable(vcpu)) then
          x.targets == trgt
          && gicd.trgt == (if old(x.targets) != trgt && x.hw then old(gicd.trgt)[intId := trgt] else old(gicd.trgt))
          && (old(x.targets) == trgt ==> unchanged(gich) && gicd.state == old(gicd.state) && unchanged(cpuPriv[vcpu.id]) && outbox == old(outbox))
        else
          unchanged(ints) && unchanged(gich) && unchanged(gicd) && unchanged(cpuPriv[vcpu.id])
          && outbox == old(outbox) + [Send(old(x.owner).value.physId, IpiInitcMessage(VgicdSetTrgt, vcpu.vmId, intId, trgt))]
      ensures forall y :: y in ints && y.targets != old(y.targets) ==> y.id == intId && y.targets == trgt
    {
      GetIntSpec(vcpu, intId);
      var q := GetInt(vcpu, intId);
      if q.None? {
        return;
      }
      var x := q.value;
      var owned := IntGetOwner(vcpu, x);
      if owned {
        if x.targets != trgt {
          Retarget(vcpu, x, trgt);
        }
        IntYieldOwner(vcpu, x);
      } else {
        var msg := IpiInitcMessage(VgicdSetTrgt, vcpu.vmId, x.id, trgt);
        Post(Send(x.owner.value.physId, msg));
      }
    }

    /** The owner's part of `set_trgt` once the target byte differs. */
    method Retarget(vcpu: Vcpu, x: VgicInt, trgt: U8)
      requires Valid() && IsVcpu(vcpu) && x in ints && x.owner.Some?
      modifies ints`inLr, ints`state, ints`inPend, ints`inAct, ints`lr, ints`owner, x`targets
      modifies gich`lr, gich`hcr, gicd`state, gicd`trgt
      modifies {cpuPriv[vcpu.id]}`currLrs, {cpuPriv[vcpu.id]}`sgis, {cpuPriv[vcpu.id]}`pendList, {cpuPriv[vcpu.id]}`actList
      modifies this`outbox
      ensures Valid()
      ensures x.targets == trgt
      ensures gicd.trgt == if x.hw then old(gicd.trgt)[x.id := trgt] else old(gicd.trgt)
      ensures old(GetState(x)) == 0 ==>
        unchanged(ints - {x}) && unchanged(gich) && gicd.state == old(gicd.state) && unchanged(cpuPriv[vcpu.id]) && outbox == old(outbox)
    {
      StoreTargets(x, trgt);
      if GetState(x) != 0 {
        Route(vcpu, x);
      }
    }

    /** The target byte of `set_trgt` is stored, and a hardware interrupt's physical mask is passed to the distributor. */
    method StoreTargets(x: VgicInt, trgt: U8)
      modifies x`targets, gicd`trgt
      ensures x.targets == trgt
      ensures gicd.trgt == if x.hw then old(gicd.trgt)[x.id := trgt] else old(gicd.trgt)
    {
      x.SetTargets(trgt);
      var ptrgt := PhysTargets(trgt);
      if x.hw {
        gicd.SetTrgt(x.id, ptrgt);
      }
    }

    /**
     * `set_icfgr` (GICD_ICFGR): an interrupt the caller can claim takes the
     * configuration, a hardware interrupt at the distributor too, and is
     * yielded afterwards; one owned elsewhere is left to its owner with a
     * `VgicdSetCfg` message.  Ids past 1023 are not handled by the code.
     */
    method SetIcfgr(vcpu: Vcpu, intId: nat, cfg: U8)
      requires Valid() && IsVcpu(vcpu) && intId < GicIntsMax
      modifies ints`owner, ints`cfg, gicd`cfg, this`outbox
      ensures Valid()
      ensures var x := GetInt(vcpu, intId).value;
        unchanged(ints - {x})
        && if old(x.Claimable(vcpu)) then
          x.cfg == cfg && gicd.cfg == (if x.hw then old(gicd.cfg)[intId := cfg] else old(gicd.cfg)) && outbox == old(outbox)
        else
          unchanged(x) && gicd.cfg == old(gicd.cfg)
          && outbox == old(outbox) + [Send(old(x.owner).value.physId, IpiInitcMessage(VgicdSetCfg, vcpu.vmId, intId, cfg))]
    {
      GetIntSpec(vcpu, intId);
      var x := GetInt(vcpu, intId).value;
      var owned := IntGetOwner(vcpu, x);
      if owned {
        x.SetCfg(cfg);
        if x.hw {
          DistIcfgr(x.id, cfg);
        }
        IntYieldOwner(vcpu, x);
      } else {
        var msg := IpiInitcMessage(VgicdSetCfg, vcpu.vmId, x.id, cfg);
        Post(Send(x.owner.value.physId, msg));
      }
    }

    /**
     * `inject`: a physical interrupt arriving for the VM.  A hardware
     * interrupt is taken by the caller as pending and not resident, the
     * lists follow, and it is routed; any other id goes to `set_pend`.
     * Bits 31:10 of the id are ignored in the lookup.
     */
    method Inject(vcpu: Vcpu, intId: nat)
      requires Valid() && IsVcpu(vcpu)
      modifies ints`inLr, ints`state, ints`inPend, ints`inAct, ints`lr, ints`owner
      modifies gich`lr, gich`hcr, gicd`state
      modifies {cpuPriv[vcpu.id]}`currLrs, {cpuPriv[vcpu.id]}`sgis, {cpuPriv[vcpu.id]}`pendList, {cpuPriv[vcpu.id]}`actList
      modifies this`outbox
      ensures Valid()
      ensures var x := GetInt(vcpu, intId % GicIntsMax).value;
        x.hw && !x.enabled ==>
          x.owner == Some(vcpu) && x.state == IrqSPend && !x.inLr && x.inPend && !x.inAct
      ensures var x := GetInt(vcpu, intId % GicIntsMax).value;
        x.hw && x.enabled && Targets(x.targets, vcpu.physId) ==> x.inLr == old(Chosen(gich.lr, gich.lrsNum)).Some?
      ensures var x := GetInt(vcpu, intId % GicIntsMax).value;
        x.hw ==>
          outbox == old(outbox) +
            if x.enabled && !x.inLr && TargetsOthers(x.targets, vcpu.physId)
            then [Broadcast(IpiInitcMessage(VgicdRoute, vcpu.vmId, x.id, 0))] else []
      ensures var x := GetInt(vcpu, intId % GicIntsMax).value;
        !x.hw && intId % GicIntsMax >= GicSgisNum && !old(x.Claimable(vcpu)) ==>
          unchanged(ints) && unchanged(gich) && unchanged(gicd) && unchanged(cpuPriv[vcpu.id])
          && outbox == old(outbox) + [Send(old(x.owner).value.physId, IpiInitcMessage(VgicdSetPend, vcpu.vmId, x.id, 1))]
    {
      var id := intId % GicIntsMax;
      GetIntSpec(vcpu, id);
      var x := GetInt(vcpu, id).value;
      if x.hw {
        InjectHw(vcpu, x);
      } else {
        SetPend(vcpu, intId, true);
      }
    }

    /** The hardware path of `inject`: take the interrupt as pending, then route it. */
    method InjectHw(vcpu: Vcpu, x: VgicInt)
      requires Valid() && IsVcpu(vcpu) && GetInt(vcpu, x.id) == Some(x)
      modifies ints`inLr, ints`state, ints`inPend, ints`inAct, ints`lr, ints`owner
      modifies gich`lr, gich`hcr, gicd`state
      modifies {cpuPriv[vcpu.id]}`currLrs, {cpuPriv[vcpu.id]}`sgis, {cpuPriv[vcpu.id]}`pendList, {cpuPriv[vcpu.id]}`actList
      modifies this`outbox
      ensures Valid()
      ensures !x.enabled ==> x.owner == Some(vcpu) && x.state == IrqSPend && !x.inLr && x.inPend && !x.inAct
      ensures x.enabled && Targets(x.targets, vcpu.physId) ==> x.inLr == old(Chosen(gich.lr, gich.lrsNum)).Some?
      ensures x.enabled && !Targets(x.targets, vcpu.physId) ==> unchanged(gich) && unchanged(gicd)
      ensures outbox == old(outbox) +
        if x.enabled && !x.inLr && TargetsOthers(x.targets, vcpu.physId)
        then [Broadcast(IpiInitcMessage(VgicdRoute, vcpu.vmId, x.id, 0))] else []
    {
      TakeInjected(vcpu, x);
      Route(vcpu, x);
    }

    /** The hardware path of `inject` before routing: the caller owns the interrupt, pending and not resident. */
    method TakeInjected(vcpu: Vcpu, x: VgicInt)
      requires Valid() && IsVcpu(vcpu) && GetInt(vcpu, x.id) == Some(x)
      modifies x`owner, x`state, x`inLr, x`inPend, x`inAct, {cpuPriv[vcpu.id]}`pendList, {cpuPriv[vcpu.id]}`actList
      ensures Valid()
      ensures x.owner == Some(vcpu) && x.state == IrqSPend && !x.inLr && x.inPend && !x.inAct
      ensures cpuPriv[vcpu.id].pendList == ListAfter(old(cpuPriv[vcpu.id].pendList), x, true, old(x.inPend))
      ensures cpuPriv[vcpu.id].actList == ListAfter(old(cpuPriv[vcpu.id].actList), x, false, old(x.inAct))
    {
      GetIntSpec(vcpu, x.id);
      if GicIsPriv(x.id) {
        assert x.owner == Some(vcpu);
      }
      x.SetOwner(vcpu);
      x.SetState(IrqSPend);
      x.SetInLr(false);
      UpdateIntList(vcpu.id, x);
    }

    /**
     * `vgic_set_hw_int`: marks interrupt `intId` as backed by a physical
     * one.  SGIs are left alone; a PPI is marked in the bank of every vCPU
     * of the VM, a shared interrupt once.  Nothing else changes.
     */
    method SetHwInt(vm: Vm, intId: nat)
      requires Valid() && vm.vcpuList == vcpus
      modifies ints`hw
      ensures Valid()
      ensures forall y :: y in ints && (y.id != intId || intId < GicSgisNum) ==> y.hw == old(y.hw)
      ensures GicSgisNum <= intId < GicPrivintNum ==> forall v :: 0 <= v < |cpuPriv| ==> cpuPriv[v].interrupts[intId].hw
      ensures GicPrivintNum <= intId < GicIntsMax ==> spis[intId - GicPrivintNum].hw
    {
      if intId < GicSgisNum {
        return;
      }
      if intId < GicPrivintNum {
        var i := 0;
        while i < vm.CpuNum()
          invariant i <= |cpuPriv|
          invariant Valid()
          invariant forall v :: 0 <= v < i ==> cpuPriv[v].interrupts[intId].hw
          invariant forall y :: y in ints && y.id != intId ==> y.hw == old(y.hw)
        {
          GetIntSpec(vm.vcpuList[i], intId);
          var q := GetInt(vm.vcpuList[i], intId);
          if q.Some? {
            q.value.SetHw(true);
          }
          i := i + 1;
        }
      } else {
        GetIntSpec(vm.vcpuList[0], intId);
        var q := GetInt(vm.vcpuList[0], intId);
        if q.Some? {
          q.value.SetHw(true);
        }
      }
    }
  }
}
