/**
 * The hypervisor-side records the engine works with (src/fake.rs): interrupt
 * states, virtual CPUs and their VM, inter-core messages and trapped accesses.
 */
module Fake {
  import opened Wrappers
  import opened Utils

  /** Software state of a virtual interrupt. */
  datatype IrqState = IrqSInactive | IrqSPend | IrqSActive | IrqSPendActive

  /** `to_num`: bit 0 is pending and bit 1 is active. */
  function ToNum(s: IrqState): (n: bv64)
    ensures n < 4
    ensures n & 1 != 0 <==> s == IrqSPend || s == IrqSPendActive
    ensures n & 2 != 0 <==> s == IrqSActive || s == IrqSPendActive
  {
    match s
    case IrqSInactive => 0
    case IrqSPend => 1
    case IrqSActive => 2
    case IrqSPendActive => 3
  }

  /** `num_to_state`; the source panics on any number above 3. */
  function NumToState(n: bv64): (s: IrqState)
    requires n <= 3
    ensures ToNum(s) == n
  {
    if n == 0 then IrqSInactive
    else if n == 1 then IrqSPend
    else if n == 2 then IrqSActive
    else IrqSPendActive
  }

  /** Decoding an encoded state gives the state back. */
  lemma StateRoundTrip(s: IrqState)
    ensures NumToState(ToNum(s)) == s
  {
    match s
    case IrqSInactive =>
    case IrqSPend =>
    case IrqSActive =>
    case IrqSPendActive =>
  }

  /** `gic_is_priv`: SGIs and PPIs, the interrupts banked per CPU. */
  function GicIsPriv(intId: nat): (r: bool)
    ensures r <==> intId < 32
  {
    intId < 32
  }

  /** A virtual CPU: its index in the VM, the physical core it runs on, its VM. */
  datatype Vcpu = Vcpu(id: nat, physId: nat, vmId: nat)

  /**
   * A VM as the engine sees it: its vCPUs in order, its id, and the
   * interrupts it owns as pass-through and as emulated devices.
   */
  datatype Vm = Vm(vcpuList: seq<Vcpu>, id: nat, passthrough: set<nat>, emulated: set<nat>)
  {
    function CpuNum(): nat { |vcpuList| }

    predicate HasInterrupt(intId: nat) { intId in passthrough }

    predicate EmuHasInterrupt(intId: nat) { intId in emulated }

    /** `vcpuid_to_pcpuid`: the core of vCPU `vcpuid`, or `Err` when there is no such vCPU. */
    function VcpuidToPcpuid(vcpuid: nat): (r: Result<nat, ()>)
      ensures r.Ok? <==> vcpuid < |vcpuList|
      ensures r.Ok? ==> r.value == vcpuList[vcpuid].physId
    {
      if vcpuid < |vcpuList| then Ok(vcpuList[vcpuid].physId) else Err(())
    }

    /** The position of the first vCPU running on core `pcpuid`. */
    function FirstOnCore(pcpuid: nat, from: nat): (r: Option<nat>)
      requires from <= |vcpuList|
      ensures r.Some? ==> from <= r.value < |vcpuList| && vcpuList[r.value].physId == pcpuid
      ensures r.Some? ==> forall j :: from <= j < r.value ==> vcpuList[j].physId != pcpuid
      ensures r.None? ==> forall j :: from <= j < |vcpuList| ==> vcpuList[j].physId != pcpuid
      decreases |vcpuList| - from
    {
      if from == |vcpuList| then None
      else if vcpuList[from].physId == pcpuid then Some(from)
      else FirstOnCore(pcpuid, from + 1)
    }

    /** The vCPU id that `pcpuid_to_vcpuid` answers, as a function. */
    function VcpuOnCore(pcpuid: nat): Result<nat, ()>
    {
      match FirstOnCore(pcpuid, 0)
      case Some(k) => Ok(vcpuList[k].id)
      case None => Err(())
    }

    /**
     * `pcpuid_to_vcpuid`: scans the vCPUs in order and answers the id of the
     * first one on core `pcpuid`, or `Err` when none runs there.
     */
    method PcpuidToVcpuid(pcpuid: nat) returns (r: Result<nat, ()>)
      ensures r == VcpuOnCore(pcpuid)
      ensures r.Ok? <==> exists k :: 0 <= k < |vcpuList| && vcpuList[k].physId == pcpuid
    {
      var k := 0;
      while k < |vcpuList|
        invariant k <= |vcpuList|
        invariant FirstOnCore(pcpuid, 0) == FirstOnCore(pcpuid, k)
      {
        if vcpuList[k].physId == pcpuid {
          return Ok(vcpuList[k].id);
        }
        k := k + 1;
      }
      return Err(());
    }

    /** Every vCPU's id is its position in the VM, as the VM builds them. */
    predicate IdsArePositions() { forall k :: 0 <= k < |vcpuList| ==> vcpuList[k].id == k }

    /** No two vCPUs of the VM share a core. */
    predicate OneVcpuPerCore()
    {
      forall j, k :: 0 <= j < k < |vcpuList| ==> vcpuList[j].physId != vcpuList[k].physId
    }

    /**
     * On a VM with one vCPU per core, `pcpuid_to_vcpuid` undoes
     * `vcpuid_to_pcpuid`: the core of vCPU `vcpuid` answers `vcpuid`.
     */
    lemma VcpuCoreRoundTrip(vcpuid: nat)
      requires IdsArePositions() && OneVcpuPerCore() && vcpuid < |vcpuList|
      ensures VcpuidToPcpuid(vcpuid).Ok? && VcpuOnCore(VcpuidToPcpuid(vcpuid).value) == Ok(vcpuid)
    {
      var p := vcpuList[vcpuid].physId;
      var r := FirstOnCore(p, 0);
      assert r.Some?;
    }

    /** Whatever vCPU `pcpuid_to_vcpuid` answers for a core runs on that core. */
    lemma CoreVcpuRoundTrip(pcpuid: nat)
      requires IdsArePositions()
      ensures VcpuOnCore(pcpuid).Ok? ==> VcpuidToPcpuid(VcpuOnCore(pcpuid).value) == Ok(pcpuid)
    {
    }

    predicate PhysIdsBelow64() { forall k :: 0 <= k < |vcpuList| ==> vcpuList[k].physId < 64 }

    predicate VcpuIdsBelow64() { forall k :: 0 <= k < |vcpuList| ==> vcpuList[k].id < 64 }

    /** What vCPU `i` adds to the physical mask of `mask`. */
    function PcpuBitOf(mask: bv64, i: nat): bv64
      requires i < 64 && PhysIdsBelow64()
    {
      var r := VcpuidToPcpuid(i);
      if Bit(mask, i) && r.Ok? then Single(r.value) else 0
    }

    /** The physical mask of the first `len` vCPUs selected by `mask`. */
    function VcpuToPcpuMaskOf(mask: bv64, len: nat): bv64
      requires len <= 64 && PhysIdsBelow64()
    {
      if len == 0 then 0 else VcpuToPcpuMaskOf(mask, len - 1) | PcpuBitOf(mask, len - 1)
    }

    /** What core `i` adds to the virtual mask of `mask`. */
    function VcpuBitOf(mask: bv64, i: nat): bv64
      requires i < 64 && VcpuIdsBelow64()
    {
      var r := VcpuOnCore(i);
      if Bit(mask, i) && r.Ok? then Single(r.value) else 0
    }

    /** The virtual mask of the first `len` cores selected by `mask`. */
    function PcpuToVcpuMaskOf(mask: bv64, len: nat): bv64
      requires len <= 64 && VcpuIdsBelow64()
    {
      if len == 0 then 0 else PcpuToVcpuMaskOf(mask, len - 1) | VcpuBitOf(mask, len - 1)
    }

    lemma VcpuOnCoreBelow64(pcpuid: nat)
      requires VcpuIdsBelow64()
      ensures VcpuOnCore(pcpuid).Ok? ==> VcpuOnCore(pcpuid).value < 64
    {
    }

    /** `vcpu_to_pcpu_mask`: ORs in the core bit of every selected vCPU below `len`. */
    method VcpuToPcpuMask(mask: bv64, len: nat) returns (pmask: bv64)
      requires len <= 64 && PhysIdsBelow64()
      ensures pmask == VcpuToPcpuMaskOf(mask, len)
    {
      pmask := 0;
      var i := 0;
      while i < len
        invariant i <= len
        invariant pmask == VcpuToPcpuMaskOf(mask, i)
      {
        var shift := VcpuidToPcpuid(i);
        TestSingle(mask, i);
        if mask & Single(i) != 0 && shift.Ok? {
          pmask := pmask | Single(shift.value);
        }
        i := i + 1;
      }
    }

    /** `pcpu_to_vcpu_mask`: ORs in the vCPU bit of the first vCPU on every selected core below `len`. */
    method PcpuToVcpuMask(mask: bv64, len: nat) returns (vmask: bv64)
      requires len <= 64 && VcpuIdsBelow64()
      ensures vmask == PcpuToVcpuMaskOf(mask, len)
    {
      vmask := 0;
      var i := 0;
      while i < len
        invariant i <= len
        invariant vmask == PcpuToVcpuMaskOf(mask, i)
      {
        var shift := PcpuidToVcpuid(i);
        VcpuOnCoreBelow64(i);
        TestSingle(mask, i);
        if mask & Single(i) != 0 && shift.Ok? {
          vmask := vmask | Single(shift.value);
        }
        i := i + 1;
      }
    }

    lemma PcpuBitOfBit(mask: bv64, i: nat, p: nat)
      requires i < 64 && p < 64 && PhysIdsBelow64()
      ensures Bit(PcpuBitOf(mask, i), p) <==> i < |vcpuList| && Bit(mask, i) && vcpuList[i].physId == p
    {
      var r := VcpuidToPcpuid(i);
      if Bit(mask, i) && r.Ok? {
        SingleIs(r.value, p);
      } else {
        ZeroBit(p);
      }
    }

    lemma VcpuBitOfBit(mask: bv64, i: nat, v: nat)
      requires i < 64 && v < 64 && VcpuIdsBelow64()
      ensures Bit(VcpuBitOf(mask, i), v) <==> Bit(mask, i) && VcpuOnCore(i) == Ok(v)
    {
      var r := VcpuOnCore(i);
      VcpuOnCoreBelow64(i);
      if Bit(mask, i) && r.Ok? {
        SingleIs(r.value, v);
      } else {
        ZeroBit(v);
      }
    }

    /**
     * Bit `p` of the translated mask is set exactly when some selected vCPU
     * `i < len` runs on core `p`.
     */
    lemma {:induction false} VcpuToPcpuMaskBit(mask: bv64, len: nat, p: nat)
      requires len <= 64 && PhysIdsBelow64() && p < 64
      ensures Bit(VcpuToPcpuMaskOf(mask, len), p)
          <==> exists i :: 0 <= i < len && i < |vcpuList| && Bit(mask, i) && vcpuList[i].physId == p
    {
      if len == 0 {
        ZeroBit(p);
      } else {
        var i := len - 1;
        VcpuToPcpuMaskBit(mask, i, p);
        OrBit(VcpuToPcpuMaskOf(mask, i), PcpuBitOf(mask, i), p);
        PcpuBitOfBit(mask, i, p);
      }
    }

    /**
     * Bit `v` of the translated mask is set exactly when some selected core
     * `i < len` has a first vCPU whose id is `v`.
     */
    lemma {:induction false} PcpuToVcpuMaskBit(mask: bv64, len: nat, v: nat)
      requires len <= 64 && VcpuIdsBelow64() && v < 64
      ensures Bit(PcpuToVcpuMaskOf(mask, len), v)
          <==> exists i :: 0 <= i < len && Bit(mask, i) && VcpuOnCore(i) == Ok(v)
    {
      if len == 0 {
        ZeroBit(v);
      } else {
        var i := len - 1;
        PcpuToVcpuMaskBit(mask, i, v);
        OrBit(PcpuToVcpuMaskOf(mask, i), VcpuBitOf(mask, i), v);
        VcpuBitOfBit(mask, i, v);
      }
    }
  }

  /** Events carried by inter-core interrupt-controller messages. */
  datatype InitcEvent =
    | VgicdGichEn | VgicdSetEn | VgicdSetAct | VgicdSetPend | VgicdSetPrio
    | VgicdSetTrgt | VgicdSetCfg | VgicdRoute | Vgicdinject | NoEvent

  /** Interrupt ids in messages are `u16`. */
  type U16 = n: nat | n < 0x1_0000

  datatype IpiInitcMessage = IpiInitcMessage(event: InitcEvent, vmId: nat, intId: U16, val: U8)

  /** The payload of an inter-core message: an interrupt-controller message, or one of another kind. */
  datatype IpiInnerMsg = Initc(intc: IpiInitcMessage) | OtherMsg

  /** A trapped guest access to the distributor page. */
  datatype EmuContext = EmuContext(address: nat, width: nat, write: bool, signExt: bool, reg: nat, regWidth: nat)

  /** The current physical CPU: its id and the trapped vCPU's general-purpose registers. */
  class Pcpu {
    const id: nat
    var gprs: seq<bv64>

    constructor (id: nat, gprs: seq<bv64>)
      ensures this.id == id && this.gprs == gprs
    {
      this.id := id;
      this.gprs := gprs;
    }

    function GetGpr(idx: nat): bv64
      reads this
      requires idx < |gprs|
    {
      gprs[idx]
    }

    method SetGpr(idx: nat, val: bv64)
      requires idx < |gprs|
      modifies this`gprs
      ensures gprs == old(gprs)[idx := val]
    {
      gprs := gprs[idx := val];
    }
  }
}
