/**
 * One virtual interrupt (src/vint.rs).  The Rust object keeps its mutable
 * part behind a mutex; here it is a class whose setters change one field each.
 */
module Vint {
  import opened Wrappers
  import opened Utils
  import opened Consts
  import opened Fake

  class VgicInt {
    /** The interrupt id, a `u16`. */
    const id: nat
    /** Backed by a physical interrupt; written only while the VM is set up. */
    var hw: bool
    var owner: Option<Vcpu>
    var inLr: bool
    /** Index of the list register holding it, a `u16`. */
    var lr: nat
    var enabled: bool
    var state: IrqState
    var prio: U8
    var targets: U8
    var cfg: U8
    var inPend: bool
    var inAct: bool

    /** `VgicInt::new(i)`: shared interrupt `i + 32`, unowned, disabled, inactive, lowest priority. */
    constructor New(i: nat)
      ensures id == (i + GicPrivintNum) % 0x1_0000
      ensures !hw && owner == None && !inLr && lr == 0 && !enabled && state == IrqSInactive
      ensures prio == 0xff && targets == 0 && cfg == 0 && !inPend && !inAct
    {
      id := (i + GicPrivintNum) % 0x1_0000;
      hw := false;
      owner := None;
      inLr := false;
      lr := 0;
      enabled := false;
      state := IrqSInactive;
      prio := 0xff;
      targets := 0;
      cfg := 0;
      inPend := false;
      inAct := false;
    }

    /** `VgicInt::priv_new`: private interrupt `i` owned by `owner`, with `targets` cut to a byte. */
    constructor PrivNew(i: nat, owner: Vcpu, targets: bv64, enabled: bool)
      ensures id == i % 0x1_0000
      ensures this.owner == Some(owner) && this.targets == targets & 0xff && this.enabled == enabled
      ensures !hw && !inLr && lr == 0 && state == IrqSInactive && prio == 0xff && cfg == 0 && !inPend && !inAct
    {
      id := i % 0x1_0000;
      hw := false;
      this.owner := Some(owner);
      inLr := false;
      lr := 0;
      this.enabled := enabled;
      state := IrqSInactive;
      prio := 0xff;
      this.targets := targets & 0xff;
      cfg := 0;
      inPend := false;
      inAct := false;
    }

    method SetInPendState(isPend: bool)
      modifies this`inPend
      ensures inPend == isPend
    {
      inPend := isPend;
    }

    method SetInActState(isAct: bool)
      modifies this`inAct
      ensures inAct == isAct
    {
      inAct := isAct;
    }

    method SetEnabled(enabled: bool)
      modifies this`enabled
      ensures this.enabled == enabled
    {
      this.enabled := enabled;
    }

    method SetLr(lr: nat)
      requires lr < 0x1_0000
      modifies this`lr
      ensures this.lr == lr
    {
      this.lr := lr;
    }

    method SetTargets(targets: U8)
      modifies this`targets
      ensures this.targets == targets
    {
      this.targets := targets;
    }

    method SetPrio(prio: U8)
      modifies this`prio
      ensures this.prio == prio
    {
      this.prio := prio;
    }

    method SetInLr(inLr: bool)
      modifies this`inLr
      ensures this.inLr == inLr
    {
      this.inLr := inLr;
    }

    method SetState(state: IrqState)
      modifies this`state
      ensures this.state == state
    {
      this.state := state;
    }

    method SetOwner(owner: Vcpu)
      modifies this`owner
      ensures this.owner == Some(owner)
    {
      this.owner := Some(owner);
    }

    method ClearOwner()
      modifies this`owner
      ensures owner == None
    {
      owner := None;
    }

    method SetHw(hw: bool)
      modifies this`hw
      ensures this.hw == hw
    {
      this.hw := hw;
    }

    method SetCfg(cfg: U8)
      modifies this`cfg
      ensures this.cfg == cfg
    {
      this.cfg := cfg;
    }

    /** `owner_phys_id`: the core of the owner, absent exactly when there is no owner. */
    function OwnerPhysId(): (r: Option<nat>)
      reads this`owner
      ensures r.None? <==> owner.None?
      ensures r.Some? ==> r.value == owner.value.physId
    {
      match owner
      case Some(o) => Some(o.physId)
      case None => None
    }

    /** `owner_id`: the vCPU id of the owner, absent exactly when there is no owner. */
    function OwnerId(): (r: Option<nat>)
      reads this`owner
      ensures r.None? <==> owner.None?
      ensures r.Some? ==> r.value == owner.value.id
    {
      match owner
      case Some(o) => Some(o.id)
      case None => None
    }

    /** `owner_vm_id`: the VM of the owner, absent exactly when there is no owner. */
    function OwnerVmId(): (r: Option<nat>)
      reads this`owner
      ensures r.None? <==> owner.None?
      ensures r.Some? ==> r.value == owner.value.vmId
    {
      match owner
      case Some(o) => Some(o.vmId)
      case None => None
    }

    /**
     * `vgic_owns`: a private interrupt belongs to every vCPU of its bank; a
     * shared one to the vCPU whose id and core the owner carries.
     */
    function Owns(vcpu: Vcpu): (r: bool)
      reads this`owner
      ensures r <==> GicIsPriv(id) || (OwnerId() == Some(vcpu.id) && OwnerPhysId() == Some(vcpu.physId))
    {
      if GicIsPriv(id) then true
      else
        match owner
        case Some(o) => o.id == vcpu.id && o.physId == vcpu.physId
        case None => false
    }

    /**
     * Whether `vgic_int_get_owner` grants the interrupt to `vcpu`: it is
     * unowned, or its owner has the vCPU's VM id and vCPU id.
     */
    predicate Claimable(vcpu: Vcpu)
      reads this`owner
    {
      match owner
      case Some(o) => o.vmId == vcpu.vmId && o.id == vcpu.id
      case None => true
    }
  }
}
