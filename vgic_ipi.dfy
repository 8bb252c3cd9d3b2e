/**
 * The receiving side of the inter-core interrupt-controller messages
 * (src/vgic_ipi.rs): a message names a VM, an event, an interrupt id and a
 * one-byte value, and the core that owns the interrupt replays the request on
 * the vGIC of the vCPU it runs for that VM.
 */
module VgicIpi {
  import opened Wrappers
  import opened Utils
  import opened Consts
  import opened Fake
  import opened Vint
  import opened Gich
  import opened Gicd
  import opened VgicLr
  import opened VgicCore

  /** The request an accepted message stands for. */
  datatype Request =
    | GichEnable(on: bool)
    | Enable(id: nat, en: bool)
    | Pend(id: nat, pend: bool)
    | Prio(id: nat, prio: U8)
    | Trgt(id: nat, trgt: U8)
    | RouteInt(id: nat)
    | Ignored

  /**
   * The event dispatch of `vgic_ipi_handler`: the boolean events read the
   * value as `val != 0`, priority and target events pass it on, a route
   * keeps the ten id bits, and SetAct, SetCfg, inject and none are dropped.
   */
  function Decode(m: IpiInitcMessage): (r: Request)
    ensures r.Ignored? <==> m.event in {VgicdSetAct, VgicdSetCfg, Vgicdinject, NoEvent}
    ensures r.Enable? || r.Pend? || r.Prio? || r.Trgt? ==> r.id == m.intId
    ensures r.RouteInt? ==> r.id == m.intId % GicIntsMax
  {
    match m.event
    case VgicdGichEn => GichEnable(m.val != 0)
    case VgicdSetEn => Enable(m.intId, m.val != 0)
    case VgicdSetPend => Pend(m.intId, m.val != 0)
    case VgicdSetPrio => Prio(m.intId, m.val)
    case VgicdSetTrgt => Trgt(m.intId, m.val)
    case VgicdRoute => RouteInt(m.intId % GicIntsMax)
    case _ => Ignored
  }

  /**
   * Every message the engine forwards to an owner, as `set_enable`,
   * `set_pend`, `set_prio`, `set_trgt` and `route` build it, is decoded back
   * into the request the sender could not carry out itself.  A forwarded
   * `set_active` travels tagged as a pending change, so it is replayed as
   * one.
   */
  lemma ForwardedReplays(vmId: nat, id: U16, on: bool, b: U8)
    ensures Decode(IpiInitcMessage(VgicdSetEn, vmId, id, if on then 1 else 0)) == Enable(id, on)
    ensures Decode(IpiInitcMessage(VgicdSetPend, vmId, id, if on then 1 else 0)) == Pend(id, on)
    ensures Decode(IpiInitcMessage(VgicdSetPrio, vmId, id, b)) == Prio(id, b)
    ensures Decode(IpiInitcMessage(VgicdSetTrgt, vmId, id, b)) == Trgt(id, b)
    ensures id < GicIntsMax ==> Decode(IpiInitcMessage(VgicdRoute, vmId, id, 0)) == RouteInt(id)
  {
  }

  /** HCR after a `VgicdGichEn` message: bit 0 (En) follows the value, every other bit stays. */
  function GichEnHcr(hcr: bv32, on: bool): (r: bv32)
    ensures r & HcrEn != 0 <==> on
    ensures r & !HcrEn == hcr & !HcrEn
  {
    if on then hcr | HcrEn else hcr & !HcrEn
  }

  /** An interrupt-controller message for the VM of the vCPU this core runs for it. */
  predicate Accepted(trgt: Option<Vcpu>, msg: IpiInnerMsg)
  {
    msg.Initc? && trgt.Some? && msg.intc.vmId == trgt.value.vmId
  }

  /**
   * `vgic_ipi_handler`.  `trgt` is what the core's vCPU array returns for
   * the message's VM (`pop_vcpu_through_vmid`), and `g` is the vGIC of that
   * vCPU's VM (the source panics when the vCPU has no VM).  Anything but an
   * interrupt-controller message, a VM this core runs no vCPU of, or a vCPU
   * whose VM id differs from the message's changes nothing.
   */
  method VgicIpiHandler(g: Vgic, trgt: Option<Vcpu>, msg: IpiInnerMsg)
    requires g.Valid() && (trgt.Some? ==> g.IsVcpu(trgt.value))
    modifies g.ints`inLr, g.ints`state, g.ints`inPend, g.ints`inAct, g.ints`lr, g.ints`owner
    modifies g.ints`enabled, g.ints`prio, g.ints`targets
    modifies g.gich`lr, g.gich`hcr, g.gicd`state, g.gicd`enable, g.gicd`prio, g.gicd`trgt
    modifies g.banks`currLrs, g.banks`sgis, g.banks`pendList, g.banks`actList
    modifies g`outbox
    ensures g.Valid()
    ensures msg.OtherMsg? || trgt.None? || msg.intc.vmId != trgt.value.vmId || Decode(msg.intc).Ignored? ==>
      unchanged(g.ints) && unchanged(g.gich) && unchanged(g.gicd) && unchanged(g.banks) && g.outbox == old(g.outbox)
    ensures msg.Initc? && trgt.Some? && msg.intc.vmId == trgt.value.vmId && Decode(msg.intc).GichEnable? ==>
      g.gich.hcr == GichEnHcr(old(g.gich.hcr), Decode(msg.intc).on) && g.gich.lr == old(g.gich.lr)
      && unchanged(g.ints) && unchanged(g.gicd) && unchanged(g.banks) && g.outbox == old(g.outbox)
    ensures Accepted(trgt, msg) && Decode(msg.intc).RouteInt? ==>
      var x := g.GetInt(trgt.value, msg.intc.intId % GicIntsMax).value;
      g.outbox == old(g.outbox)
      && (!old(x.Claimable(trgt.value)) ==> unchanged(g.ints) && unchanged(g.gich) && unchanged(g.gicd))
      && (old(x.Claimable(trgt.value)) && Targets(x.targets, g.gich.cpuId) ==>
            x.inLr == old(x.inLr || (x.enabled && Chosen(g.gich.lr, g.gich.lrsNum).Some?)))
      && (old(x.Claimable(trgt.value)) && (old(x.inLr) || !x.inLr) ==>
            x.owner == if !x.inLr && !GicIsPriv(x.id) && ToNum(x.state) & 2 == 0 then None else trgt)
    ensures Accepted(trgt, msg) && Decode(msg.intc).Enable? && GicSgisNum <= msg.intc.intId < GicIntsMax ==>
      var x := g.GetInt(trgt.value, msg.intc.intId).value;
      (old(x.Claimable(trgt.value)) ==> x.enabled == Decode(msg.intc).en)
      && (!old(x.Claimable(trgt.value)) ==> g.outbox == old(g.outbox) + [Send(old(x.owner).value.physId, IpiInitcMessage(VgicdSetEn, trgt.value.vmId, msg.intc.intId, if Decode(msg.intc).en then 1 else 0))])
    ensures Accepted(trgt, msg) && Decode(msg.intc).Pend? && msg.intc.intId >= GicSgisNum ==>
      var x := g.GetInt(trgt.value, msg.intc.intId % GicIntsMax).value;
      !old(x.Claimable(trgt.value)) ==> g.outbox == old(g.outbox) + [Send(old(x.owner).value.physId, IpiInitcMessage(VgicdSetPend, trgt.value.vmId, x.id, if Decode(msg.intc).pend then 1 else 0))]
    ensures Accepted(trgt, msg) && Decode(msg.intc).Prio? && msg.intc.intId < GicIntsMax ==>
      var x := g.GetInt(trgt.value, msg.intc.intId).value;
      (old(x.Claimable(trgt.value)) ==> x.prio == PrioField(msg.intc.val))
      && (!old(x.Claimable(trgt.value)) ==> g.outbox == old(g.outbox) + [Send(old(x.owner).value.physId, IpiInitcMessage(VgicdSetPrio, trgt.value.vmId, msg.intc.intId, PrioField(msg.intc.val)))])
    ensures Accepted(trgt, msg) && Decode(msg.intc).Trgt? && msg.intc.intId < GicIntsMax ==>
      var x := g.GetInt(trgt.value, msg.intc.intId).value;
      (old(x.Claimable(trgt.value)) ==> x.targets == msg.intc.val)
      && (!old(x.Claimable(trgt.value)) ==> g.outbox == old(g.outbox) + [Send(old(x.owner).value.physId, IpiInitcMessage(VgicdSetTrgt, trgt.value.vmId, msg.intc.intId, msg.intc.val))])
  {
    if msg.OtherMsg? {
      return;
    }
    var intc := msg.intc;
    if trgt.None? {
      return;
    }
    var vcpu := trgt.value;
    if intc.vmId != vcpu.vmId {
      return;
    }
    HandleInitc(g, vcpu, intc);
  }

  /**
   * The `match` on the event of an accepted message for vCPU `v`: HCR.En is
   * switched, or the request is replayed through `set_enable`, `set_pend`,
   * `set_prio` or `set_trgt` with the message's id, or the interrupt is
   * routed, or nothing happens.  A request for an interrupt this core cannot
   * claim is forwarded once more to its owner.
   */
  method HandleInitc(g: Vgic, v: Vcpu, m: IpiInitcMessage)
    requires g.Valid() && g.IsVcpu(v)
    modifies g.ints`inLr, g.ints`state, g.ints`inPend, g.ints`inAct, g.ints`lr, g.ints`owner
    modifies g.ints`enabled, g.ints`prio, g.ints`targets
    modifies g.gich`lr, g.gich`hcr, g.gicd`state, g.gicd`enable, g.gicd`prio, g.gicd`trgt
    modifies {g.cpuPriv[v.id]}`currLrs, {g.cpuPriv[v.id]}`sgis, {g.cpuPriv[v.id]}`pendList, {g.cpuPriv[v.id]}`actList
    modifies g`outbox
    ensures g.Valid()
    ensures Decode(m).Ignored? ==>
      unchanged(g.ints) && unchanged(g.gich) && unchanged(g.gicd) && unchanged(g.cpuPriv[v.id]) && g.outbox == old(g.outbox)
    ensures Decode(m).GichEnable? ==>
      g.gich.hcr == GichEnHcr(old(g.gich.hcr), Decode(m).on) && g.gich.lr == old(g.gich.lr)
      && unchanged(g.ints) && unchanged(g.gicd) && unchanged(g.cpuPriv[v.id]) && g.outbox == old(g.outbox)
    ensures Decode(m).RouteInt? ==>
      var x := g.GetInt(v, m.intId % GicIntsMax).value;
      g.outbox == old(g.outbox)
      && (!old(x.Claimable(v)) ==> unchanged(g.ints) && unchanged(g.gich) && unchanged(g.gicd) && unchanged(g.cpuPriv[v.id]))
      && (old(x.Claimable(v)) && Targets(x.targets, g.gich.cpuId) ==>
            x.inLr == old(x.inLr || (x.enabled && Chosen(g.gich.lr, g.gich.lrsNum).Some?)))
      && (old(x.Claimable(v)) && !Targets(x.targets, g.gich.cpuId) ==>
            unchanged(g.gich) && unchanged(g.gicd) && unchanged(g.cpuPriv[v.id]))
      && (old(x.Claimable(v)) && (old(x.inLr) || !x.inLr) ==>
            x.owner == if !x.inLr && !GicIsPriv(x.id) && ToNum(x.state) & 2 == 0 then None else Some(v))
    ensures Decode(m).Enable? && GicSgisNum <= m.intId < GicIntsMax ==>
      var x := g.GetInt(v, m.intId).value;
      (old(x.Claimable(v)) ==> x.enabled == Decode(m).en)
      && (!old(x.Claimable(v)) ==> g.outbox == old(g.outbox) + [Send(old(x.owner).value.physId, IpiInitcMessage(VgicdSetEn, v.vmId, m.intId, if Decode(m).en then 1 else 0))])
    ensures Decode(m).Pend? && m.intId >= GicSgisNum ==>
      var x := g.GetInt(v, m.intId % GicIntsMax).value;
      !old(x.Claimable(v)) ==> g.outbox == old(g.outbox) + [Send(old(x.owner).value.physId, IpiInitcMessage(VgicdSetPend, v.vmId, x.id, if Decode(m).pend then 1 else 0))]
    ensures Decode(m).Prio? && m.intId < GicIntsMax ==>
      var x := g.GetInt(v, m.intId).value;
      (old(x.Claimable(v)) ==> x.prio == PrioField(m.val))
      && (!old(x.Claimable(v)) ==> g.outbox == old(g.outbox) + [Send(old(x.owner).value.physId, IpiInitcMessage(VgicdSetPrio, v.vmId, m.intId, PrioField(m.val)))])
    ensures Decode(m).Trgt? && m.intId < GicIntsMax ==>
      var x := g.GetInt(v, m.intId).value;
      (old(x.Claimable(v)) ==> x.targets == m.val)
      && (!old(x.Claimable(v)) ==> g.outbox == old(g.outbox) + [Send(old(x.owner).value.physId, IpiInitcMessage(VgicdSetTrgt, v.vmId, m.intId, m.val))])
  {
    if m.event == VgicdGichEn {
      SwitchGich(g, m.val != 0);
    } else if m.event in {VgicdSetEn, VgicdSetPend, VgicdSetPrio, VgicdSetTrgt} {
      ReplaySetter(g, v, m);
    } else if m.event == VgicdRoute {
      g.GetIntSpec(v, m.intId % GicIntsMax);
      RouteEvent(g, v, g.GetInt(v, m.intId % GicIntsMax).value);
    }
  }

  /**
   * The four events that replay a distributor write: `set_enable` and
   * `set_pend` with `val != 0`, `set_prio` and `set_trgt` with the value
   * itself, each for the message's interrupt id.
   */
  method ReplaySetter(g: Vgic, v: Vcpu, m: IpiInitcMessage)
    requires g.Valid() && g.IsVcpu(v)
    requires m.event in {VgicdSetEn, VgicdSetPend, VgicdSetPrio, VgicdSetTrgt}
    modifies g.ints`inLr, g.ints`state, g.ints`inPend, g.ints`inAct, g.ints`lr, g.ints`owner
    modifies g.ints`enabled, g.ints`prio, g.ints`targets
    modifies g.gich`lr, g.gich`hcr, g.gicd`state, g.gicd`enable, g.gicd`prio, g.gicd`trgt
    modifies {g.cpuPriv[v.id]}`currLrs, {g.cpuPriv[v.id]}`sgis, {g.cpuPriv[v.id]}`pendList, {g.cpuPriv[v.id]}`actList
    modifies g`outbox
    ensures g.Valid()
    ensures Decode(m).Enable? && GicSgisNum <= m.intId < GicIntsMax ==>
      var x := g.GetInt(v, m.intId).value;
      (old(x.Claimable(v)) ==> x.enabled == Decode(m).en)
      && (!old(x.Claimable(v)) ==> g.outbox == old(g.outbox) + [Send(old(x.owner).value.physId, IpiInitcMessage(VgicdSetEn, v.vmId, m.intId, if Decode(m).en then 1 else 0))])
    ensures Decode(m).Pend? && m.intId >= GicSgisNum ==>
      var x := g.GetInt(v, m.intId % GicIntsMax).value;
      !old(x.Claimable(v)) ==> g.outbox == old(g.outbox) + [Send(old(x.owner).value.physId, IpiInitcMessage(VgicdSetPend, v.vmId, x.id, if Decode(m).pend then 1 else 0))]
    ensures Decode(m).Prio? && m.intId < GicIntsMax ==>
      var x := g.GetInt(v, m.intId).value;
      (old(x.Claimable(v)) ==> x.prio == PrioField(m.val))
      && (!old(x.Claimable(v)) ==> g.outbox == old(g.outbox) + [Send(old(x.owner).value.physId, IpiInitcMessage(VgicdSetPrio, v.vmId, m.intId, PrioField(m.val)))])
    ensures Decode(m).Trgt? && m.intId < GicIntsMax ==>
      var x := g.GetInt(v, m.intId).value;
      (old(x.Claimable(v)) ==> x.targets == m.val)
      && (!old(x.Claimable(v)) ==> g.outbox == old(g.outbox) + [Send(old(x.owner).value.physId, IpiInitcMessage(VgicdSetTrgt, v.vmId, m.intId, m.val))])
  {
    match m.event {
      case VgicdSetEn =>
        ReplayEnable(g, v, m.intId, m.val != 0);
      case VgicdSetPend =>
        ReplayPend(g, v, m.intId, m.val != 0);
      case VgicdSetPrio =>
        ReplayPrio(g, v, m.intId, m.val);
      case VgicdSetTrgt =>
        ReplayTrgt(g, v, m.intId, m.val);
    }
  }

  /** `VgicdGichEn`: HCR is read and written back with En switched by `GichEnHcr`. */
  method SwitchGich(g: Vgic, on: bool)
    requires g.Valid()
    modifies g.gich`hcr
    ensures g.Valid()
    ensures g.gich.hcr == GichEnHcr(old(g.gich.hcr), on)
  {
    var hcr := g.gich.hcr;
    g.gich.SetHcr(GichEnHcr(hcr, on));
  }

  /**
   * `VgicdRoute` for interrupt `x`: when this core can claim it, it is
   * offered a list register if its targets include this core, and then
   * yielded; no message is sent.
   */
  method RouteEvent(g: Vgic, v: Vcpu, x: VgicInt)
    requires g.Valid() && g.IsVcpu(v) && x in g.ints
    modifies g.ints`inLr, g.ints`state, g.ints`inPend, g.ints`inAct, g.ints`lr, g.ints`owner
    modifies g.gich`lr, g.gich`hcr, g.gicd`state
    modifies {g.cpuPriv[v.id]}`currLrs, {g.cpuPriv[v.id]}`sgis, {g.cpuPriv[v.id]}`pendList, {g.cpuPriv[v.id]}`actList
    ensures g.Valid()
    ensures !old(x.Claimable(v)) ==> unchanged(g.ints) && unchanged(g.gich) && unchanged(g.gicd) && unchanged(g.cpuPriv[v.id])
    ensures old(x.Claimable(v)) && Targets(x.targets, g.gich.cpuId) ==>
      x.inLr == old(x.inLr || (x.enabled && Chosen(g.gich.lr, g.gich.lrsNum).Some?))
    ensures old(x.Claimable(v)) && !Targets(x.targets, g.gich.cpuId) ==>
      unchanged(g.gich) && unchanged(g.gicd) && unchanged(g.cpuPriv[v.id])
    ensures old(x.Claimable(v)) && (old(x.inLr) || !x.inLr) ==>
      x.owner == if !x.inLr && !GicIsPriv(x.id) && ToNum(x.state) & 2 == 0 then None else Some(v)
  {
    var owned := g.IntGetOwner(v, x);
    if owned {
      if Targets(x.targets, g.gich.cpuId) {
        var _ := g.AddLr(v, x);
      }
      g.IntYieldOwner(v, x);
    }
  }

  /** A replayed `set_enable`: claimed here, the enable bit takes the request; otherwise it goes on to the owner. */
  method ReplayEnable(g: Vgic, v: Vcpu, id: nat, en: bool)
    requires g.Valid() && g.IsVcpu(v)
    modifies g.ints`inLr, g.ints`state, g.ints`inPend, g.ints`inAct, g.ints`lr, g.ints`owner, g.ints`enabled
    modifies g.gich`lr, g.gich`hcr, g.gicd`state, g.gicd`enable
    modifies {g.cpuPriv[v.id]}`currLrs, {g.cpuPriv[v.id]}`sgis, {g.cpuPriv[v.id]}`pendList, {g.cpuPriv[v.id]}`actList
    modifies g`outbox
    ensures g.Valid()
    ensures GicSgisNum <= id < GicIntsMax ==>
      var x := g.GetInt(v, id).value;
      (old(x.Claimable(v)) ==> x.enabled == en)
      && (!old(x.Claimable(v)) ==> g.outbox == old(g.outbox) + [Send(old(x.owner).value.physId, IpiInitcMessage(VgicdSetEn, v.vmId, id, if en then 1 else 0))])
  {
    g.SetEnable(v, id, en);
  }

  /** A replayed `set_pend`: an interrupt claimed elsewhere has the request forwarded to its owner. */
  method ReplayPend(g: Vgic, v: Vcpu, id: nat, pend: bool)
    requires g.Valid() && g.IsVcpu(v)
    modifies g.ints`inLr, g.ints`state, g.ints`inPend, g.ints`inAct, g.ints`lr, g.ints`owner
    modifies g.gich`lr, g.gich`hcr, g.gicd`state
    modifies {g.cpuPriv[v.id]}`currLrs, {g.cpuPriv[v.id]}`sgis, {g.cpuPriv[v.id]}`pendList, {g.cpuPriv[v.id]}`actList
    modifies g`outbox
    ensures g.Valid()
    ensures id % GicIntsMax >= GicSgisNum ==>
      var x := g.GetInt(v, id % GicIntsMax).value;
      !old(x.Claimable(v)) ==> g.outbox == old(g.outbox) + [Send(old(x.owner).value.physId, IpiInitcMessage(VgicdSetPend, v.vmId, x.id, if pend then 1 else 0))]
  {
    g.SetPend(v, id, pend);
  }

  /** A replayed `set_prio`: claimed here, the priority takes the request's top bits; otherwise it goes on to the owner. */
  method ReplayPrio(g: Vgic, v: Vcpu, id: nat, prio: U8)
    requires g.Valid() && g.IsVcpu(v)
    modifies g.ints`inLr, g.ints`state, g.ints`inPend, g.ints`inAct, g.ints`lr, g.ints`owner, g.ints`prio
    modifies g.gich`lr, g.gich`hcr, g.gicd`state, g.gicd`prio
    modifies {g.cpuPriv[v.id]}`currLrs, {g.cpuPriv[v.id]}`sgis, {g.cpuPriv[v.id]}`pendList, {g.cpuPriv[v.id]}`actList
    modifies g`outbox
    ensures g.Valid()
    ensures id < GicIntsMax ==>
      var x := g.GetInt(v, id).value;
      (old(x.Claimable(v)) ==> x.prio == PrioField(prio))
      && (!old(x.Claimable(v)) ==> g.outbox == old(g.outbox) + [Send(old(x.owner).value.physId, IpiInitcMessage(VgicdSetPrio, v.vmId, id, PrioField(prio)))])
  {
    g.SetPrio(v, id, prio);
  }

  /** A replayed `set_trgt`: claimed here, the target byte takes the request; otherwise it goes on to the owner. */
  method ReplayTrgt(g: Vgic, v: Vcpu, id: nat, trgt: U8)
    requires g.Valid() && g.IsVcpu(v)
    modifies g.ints`inLr, g.ints`state, g.ints`inPend, g.ints`inAct, g.ints`lr, g.ints`owner, g.ints`targets
    modifies g.gich`lr, g.gich`hcr, g.gicd`state, g.gicd`trgt
    modifies {g.cpuPriv[v.id]}`currLrs, {g.cpuPriv[v.id]}`sgis, {g.cpuPriv[v.id]}`pendList, {g.cpuPriv[v.id]}`actList
    modifies g`outbox
    ensures g.Valid()
    ensures id < GicIntsMax ==>
      var x := g.GetInt(v, id).value;
      (old(x.Claimable(v)) ==> x.targets == trgt)
      && (!old(x.Claimable(v)) ==> g.outbox == old(g.outbox) + [Send(old(x.owner).value.physId, IpiInitcMessage(VgicdSetTrgt, v.vmId, id, trgt))])
  {
    g.SetTrgt(v, id, trgt);
  }
}
