/**
 * The maintenance interrupt of src/vgic_maintence.rs: list registers whose
 * interrupt was completed with a maintenance EOI are emptied, free list
 * registers are refilled from the waiting lists, and EOIs the hardware could
 * not match (counted in HCR.EOICount) are applied to the oldest spilled
 * active interrupt.
 */
module VgicMaintenance {
  import opened Wrappers
  import opened Utils
  import opened Consts
  import opened Fake
  import opened Vint
  import opened VintPrivate
  import opened Gich
  import opened Gicd
  import opened VgicLr
  import opened VgicCore

  /**
   * `int_list_head`: the front of the vCPU's pending list (`isPend`) or
   * active list, which stays where it is.
   */
  function IntListHead(g: Vgic, vcpuId: nat, isPend: bool): (r: Option<VgicInt>)
    requires g.Valid() && vcpuId < |g.cpuPriv|
    reads g.banks`interrupts, g.banks`currLrs, g.banks`sgis, g.banks`pendList, g.banks`actList
    reads g.ints`owner, g.ints`lr, g.gich`lr
    ensures var q := if isPend then g.cpuPriv[vcpuId].pendList else g.cpuPriv[vcpuId].actList;
      (r.Some? <==> |q| > 0) && (r.Some? ==> r.value == q[0] && r.value in g.ints)
  {
    var b := g.cpuPriv[vcpuId];
    if isPend then
      if |b.pendList| > 0 then Some(b.pendList[0]) else None
    else
      if |b.actList| > 0 then Some(b.actList[0]) else None
  }

  /**
   * `bitmap_find_nth(eisr or elrsr, 0, gic_lrs, 1, true)`: the first of the
   * list registers in use that waits for an EOI (`eoi`) or is empty.
   */
  method FirstFlaggedLr(gic: GicHypervisorInterface, eoi: bool) returns (r: Option<nat>)
    requires gic.Valid()
    ensures r.Some? ==> r.value < gic.lrsNum && LrFlag(gic.lr[r.value], eoi)
    ensures r.Some? ==> forall j :: 0 <= j < r.value ==> !LrFlag(gic.lr[j], eoi)
    ensures r.None? ==> forall j :: 0 <= j < gic.lrsNum ==> !LrFlag(gic.lr[j], eoi)
  {
    var bits := if eoi then gic.Eisr() else gic.Elrsr();
    r := BitmapFindNth(bits, 0, gic.lrsNum, 1, true);
    match r
    case Some(i) =>
      StatusBitsBit(gic.lr, gic.lrsNum, eoi, i);
      CountZero(bits, 0, i, true);
      forall j | 0 <= j < i
        ensures !LrFlag(gic.lr[j], eoi)
      {
        StatusBitsBit(gic.lr, gic.lrsNum, eoi, j);
      }
    case None =>
      CountZero(bits, 0, gic.lrsNum, true);
      forall j | 0 <= j < gic.lrsNum
        ensures !LrFlag(gic.lr[j], eoi)
      {
        StatusBitsBit(gic.lr, gic.lrsNum, eoi, j);
      }
  }

  /** A register found waiting for an EOI is in the EOI set, and finding none means the set is empty. */
  lemma FlaggedEoiSet(gic: GicHypervisorInterface, r: Option<nat>)
    requires gic.Valid()
    requires r.Some? ==> r.value < gic.lrsNum && LrFlag(gic.lr[r.value], true)
    requires r.None? ==> forall j :: 0 <= j < gic.lrsNum ==> !LrFlag(gic.lr[j], true)
    ensures r.Some? ==> r.value in gic.EoiSet()
    ensures r.None? ==> gic.EoiSet() == {}
  {
  }

  /**
   * `handle_trapped_eoir`: while some list register in use waits for a
   * maintenance EOI, the first such register is zeroed and its interrupt
   * marked not resident; an SGI is then put back into a list register (it
   * may still have requesting CPUs) and any other interrupt is yielded.
   * Zeroing takes the register out of the EOI set, and the word written for
   * an SGI never waits for an EOI, so the set shrinks every round and the
   * loop ends with no register waiting.
   */
  method HandleTrappedEoir(g: Vgic, vcpu: Vcpu)
    requires g.Valid() && g.IsVcpu(vcpu)
    modifies g.ints`inLr, g.ints`state, g.ints`inPend, g.ints`inAct, g.ints`lr, g.ints`owner
    modifies g.gich`lr, g.gich`hcr, g.gicd`state
    modifies {g.cpuPriv[vcpu.id]}`currLrs, {g.cpuPriv[vcpu.id]}`sgis, {g.cpuPriv[vcpu.id]}`pendList, {g.cpuPriv[vcpu.id]}`actList
    ensures g.Valid()
    ensures g.gich.EoiSet() == {}
    ensures NpieOnly(old(g.gich.hcr), g.gich.hcr)
  {
    var gic := g.gich;
    var idx := FirstFlaggedLr(gic, true);
    FlaggedEoiSet(gic, idx);
    while idx.Some?
      invariant g.Valid()
      invariant idx.Some? ==> idx.value in gic.EoiSet()
      invariant idx.None? ==> gic.EoiSet() == {}
      invariant NpieOnly(old(gic.hcr), gic.hcr)
      decreases |gic.EoiSet()|
    {
      ghost var before := gic.EoiSet();
      var i := idx.value;
      var _ := TrapOne(g, vcpu, i);
      SubsetSmaller(gic.EoiSet(), before, i);
      idx := FirstFlaggedLr(gic, true);
      FlaggedEoiSet(gic, idx);
    }
  }

  /** A set inside another minus one of its members is smaller. */
  lemma SubsetSmaller(a: set<nat>, b: set<nat>, i: nat)
    requires a <= b - {i} && i in b
    ensures |a| < |b|
  {
    assert |b - {i}| == |b| - 1;
    SubsetCard(a, b - {i});
  }

  /** A subset has no more elements than its superset. */
  lemma {:induction false} SubsetCard(a: set<nat>, b: set<nat>)
    requires a <= b
    ensures |a| <= |b|
    decreases |b|
  {
    if b != {} {
      var e :| e in b;
      SubsetCard(a - {e}, b - {e});
    }
  }

  /**
   * One round of `handle_trapped_eoir`, for register `i`, which waits for an
   * EOI; `x` is the interrupt the register named.  An SGI goes back into a
   * list register exactly when it is enabled, since register `i` is free now;
   * any other interrupt stays out and is yielded when the caller owns it, it
   * is shared and it is not active.
   */
  method TrapOne(g: Vgic, vcpu: Vcpu, i: nat) returns (x: VgicInt)
    requires g.Valid() && g.IsVcpu(vcpu) && i in g.gich.EoiSet()
    modifies g.ints`inLr, g.ints`state, g.ints`inPend, g.ints`inAct, g.ints`lr, g.ints`owner
    modifies g.gich`lr, g.gich`hcr, g.gicd`state
    modifies {g.cpuPriv[vcpu.id]}`currLrs, {g.cpuPriv[vcpu.id]}`sgis, {g.cpuPriv[vcpu.id]}`pendList, {g.cpuPriv[vcpu.id]}`actList
    ensures g.Valid()
    ensures g.gich.EoiSet() <= old(g.gich.EoiSet()) - {i}
    ensures NpieOnly(old(g.gich.hcr), g.gich.hcr)
    ensures x in g.ints && x.id == old(LrVid(g.gich.lr[i])) as nat
    ensures x.id < GicSgisNum ==> x.inLr == x.enabled
    ensures x.id >= GicSgisNum ==>
      !x.inLr && x.state == old(x.state)
      && x.owner == if old(x.Owns(vcpu)) && !GicIsPriv(x.id) && ToNum(old(x.state)) & 2 == 0 then None else old(x.owner)
  {
    x := ReleaseLr(g, vcpu, i);
    if x.id < GicSgisNum {
      ZeroLr();
      EmptyIsChosen(g.gich.lr, g.gich.lrsNum, i);
      var _ := g.AddLr(vcpu, x);
    } else {
      g.IntYieldOwner(vcpu, x);
    }
  }

  /**
   * The first half of a round of `handle_trapped_eoir`: register `i` is
   * zeroed, which takes it out of the EOI set, and the interrupt it named is
   * marked not resident.
   */
  method ReleaseLr(g: Vgic, vcpu: Vcpu, i: nat) returns (x: VgicInt)
    requires g.Valid() && g.IsVcpu(vcpu) && i in g.gich.EoiSet()
    modifies g.ints`inLr, g.gich`lr
    ensures g.Valid() && x in g.ints && !x.inLr
    ensures x.id == old(LrVid(g.gich.lr[i])) as nat
    ensures g.gich.lr == old(g.gich.lr)[i := 0]
    ensures g.gich.EoiSet() == old(g.gich.EoiSet()) - {i}
    ensures forall q :: q in g.ints && q != x ==> q.inLr == old(q.inLr)
  {
    var gic := g.gich;
    var val := gic.lr[i];
    ZeroLr();
    EoiSetAfterWrite(gic.lr, gic.lrsNum, i, 0);
    gic.SetLr(i, 0);
    var vid := LrVid(val) as nat;
    g.GetIntSpec(vcpu, vid);
    x := g.GetInt(vcpu, vid).value;
    x.SetInLr(false);
  }

  /** Some list register in use holds a pending interrupt: state bit 28 is set. */
  method HasPendingLr(gic: GicHypervisorInterface) returns (p: bool)
    requires gic.Valid()
    ensures p <==> exists j :: 0 <= j < gic.lrsNum && LrState(gic.lr[j]) & 1 != 0
  {
    p := false;
    var i := 0;
    while i < gic.lrsNum
      invariant i <= gic.lrsNum
      invariant p <==> exists j :: 0 <= j < i && LrState(gic.lr[j]) & 1 != 0
    {
      if LrState(gic.lr[i]) & 1 != 0 {
        p := true;
      }
      i := i + 1;
    }
  }

  /** The head of the vCPU's pending list (`isPend`) or active list exists and is not resident. */
  ghost predicate HeadFree(g: Vgic, vcpuId: nat, isPend: bool)
    requires g.Valid() && vcpuId < |g.cpuPriv|
    reads g.banks`interrupts, g.banks`currLrs, g.banks`sgis, g.banks`pendList, g.banks`actList
    reads g.ints`owner, g.ints`lr, g.gich`lr, g.ints`inLr
  {
    var h := IntListHead(g, vcpuId, isPend);
    h.Some? && !h.value.inLr
  }

  /** Whether `refill_lrs` takes the head of the active list: only while some register holds a pending interrupt. */
  ghost predicate TakesActive(g: Vgic, vcpuId: nat, hasPending: bool)
    requires g.Valid() && vcpuId < |g.cpuPriv|
    reads g.banks`interrupts, g.banks`currLrs, g.banks`sgis, g.banks`pendList, g.banks`actList
    reads g.ints`owner, g.ints`lr, g.gich`lr, g.ints`inLr
  {
    hasPending && HeadFree(g, vcpuId, false)
  }

  /**
   * `refill_lrs`: while a list register in use is empty, the next candidate
   * goes into the first empty one.  The candidate is the head of the active
   * list when some register held a pending interrupt and that head is not
   * resident, and otherwise the non-resident head of the pending list;
   * writing a pending one counts as holding a pending interrupt from then on.
   * With no candidate NPIE is cleared and the refill stops.  Every write takes
   * the candidate off both lists, which bounds the rounds.
   */
  method RefillLrs(g: Vgic, vcpu: Vcpu)
    requires g.Valid() && g.IsVcpu(vcpu)
    modifies g.ints`inLr, g.ints`state, g.ints`inPend, g.ints`inAct, g.ints`lr, g.ints`owner
    modifies g.gich`lr, g.gich`hcr, g.gicd`state
    modifies {g.cpuPriv[vcpu.id]}`currLrs, {g.cpuPriv[vcpu.id]}`sgis, {g.cpuPriv[vcpu.id]}`pendList, {g.cpuPriv[vcpu.id]}`actList
    ensures g.Valid()
    ensures (g.gich.hcr == old(g.gich.hcr) && forall j :: 0 <= j < g.gich.lrsNum ==> !LrEmpty(g.gich.lr[j]))
         || (g.gich.hcr == old(g.gich.hcr) & !HcrNpie && !HeadFree(g, vcpu.id, true))
  {
    var gic := g.gich;
    var b := g.cpuPriv[vcpu.id];
    var hasPending := HasPendingLr(gic);
    var idx := FirstFlaggedLr(gic, false);
    while idx.Some?
      invariant g.Valid()
      invariant idx.Some? ==> idx.value < gic.lrsNum
      invariant idx.None? ==> forall j :: 0 <= j < gic.lrsNum ==> !LrEmpty(gic.lr[j])
      invariant gic.hcr == old(gic.hcr)
      decreases |b.pendList| + |b.actList|
    {
      var stop;
      stop, hasPending := RefillRound(g, vcpu, hasPending, idx.value);
      if stop {
        break;
      }
      idx := FirstFlaggedLr(gic, false);
    }
  }

  /**
   * One round of `refill_lrs` with register `idx` empty: the candidate is
   * claimed and written, shortening the lists, or, with no candidate, NPIE
   * is cleared and the refill stops (`stop`).  `hp` is the new `has_pending`.
   */
  method RefillRound(g: Vgic, vcpu: Vcpu, hasPending: bool, idx: nat) returns (stop: bool, hp: bool)
    requires g.Valid() && g.IsVcpu(vcpu) && idx < g.gich.lrsNum
    modifies g.ints`inLr, g.ints`state, g.ints`inPend, g.ints`inAct, g.ints`lr, g.ints`owner
    modifies g.gich`lr, g.gich`hcr, g.gicd`state
    modifies {g.cpuPriv[vcpu.id]}`currLrs, {g.cpuPriv[vcpu.id]}`sgis, {g.cpuPriv[vcpu.id]}`pendList, {g.cpuPriv[vcpu.id]}`actList
    ensures g.Valid()
    ensures stop <==> old(!TakesActive(g, vcpu.id, hasPending) && !HeadFree(g, vcpu.id, true))
    ensures stop ==> g.gich.hcr == old(g.gich.hcr) & !HcrNpie && !HeadFree(g, vcpu.id, true)
    ensures !stop ==> g.gich.hcr == old(g.gich.hcr)
    ensures !stop ==> |g.cpuPriv[vcpu.id].pendList| + |g.cpuPriv[vcpu.id].actList| < old(|g.cpuPriv[vcpu.id].pendList| + |g.cpuPriv[vcpu.id].actList|)
    ensures !stop ==> hp == (hasPending || old(!TakesActive(g, vcpu.id, hasPending)))
  {
    ghost var takesActive := TakesActive(g, vcpu.id, hasPending);
    ghost var pendFree := HeadFree(g, vcpu.id, true);
    var cand, prevPend := PickCandidate(g, vcpu, hasPending);
    assert cand.None? <==> !takesActive && !pendFree;
    assert prevPend <==> cand.Some? && !takesActive;
    if cand.None? {
      StopRefill(g, vcpu);
      return true, hasPending;
    }
    ClaimAndWrite(g, vcpu, cand.value, idx);
    return false, hasPending || prevPend;
  }

  /** The last round of `refill_lrs`: no candidate is left, so NPIE is cleared, which leaves the pending head as it was. */
  method StopRefill(g: Vgic, vcpu: Vcpu)
    requires g.Valid() && g.IsVcpu(vcpu) && !HeadFree(g, vcpu.id, true)
    modifies g.gich`hcr
    ensures g.Valid()
    ensures g.gich.hcr == old(g.gich.hcr) & !HcrNpie && !HeadFree(g, vcpu.id, true)
  {
    ClearNpie(g);
  }

  /** With nothing left to refill, `refill_lrs` stops asking for the NPIE maintenance interrupt. */
  method ClearNpie(g: Vgic)
    requires g.Valid()
    modifies g.gich`hcr
    ensures g.Valid()
    ensures g.gich.hcr == old(g.gich.hcr) & !HcrNpie
  {
    g.gich.SetHcr(g.gich.hcr & !HcrNpie);
  }

  /**
   * The candidate of a round of `refill_lrs`: the head of the active list
   * when some register held a pending interrupt and that head is not
   * resident, otherwise the head of the pending list when it is not
   * resident, otherwise none.  `prevPend` tells that it came from the
   * pending list.
   */
  method PickCandidate(g: Vgic, vcpu: Vcpu, hasPending: bool) returns (cand: Option<VgicInt>, prevPend: bool)
    requires g.Valid() && g.IsVcpu(vcpu)
    ensures var b := g.cpuPriv[vcpu.id];
      cand == if TakesActive(g, vcpu.id, hasPending) then Some(b.actList[0])
              else if HeadFree(g, vcpu.id, true) then Some(b.pendList[0])
              else None
    ensures cand.Some? ==> cand.value in g.ints && !cand.value.inLr
    ensures prevPend <==> cand.Some? && !TakesActive(g, vcpu.id, hasPending)
    ensures cand.None? <==> !TakesActive(g, vcpu.id, hasPending) && !HeadFree(g, vcpu.id, true)
    ensures var b := g.cpuPriv[vcpu.id];
      cand.Some? ==> (|b.actList| > 0 && b.actList[0] == cand.value) || (|b.pendList| > 0 && b.pendList[0] == cand.value)
  {
    var actHead := IntListHead(g, vcpu.id, false);
    var pendHead := IntListHead(g, vcpu.id, true);
    cand := None;
    prevPend := false;
    if hasPending && actHead.Some? && !actHead.value.inLr {
      cand := actHead;
    }
    if cand.None? && pendHead.Some? && !pendHead.value.inLr {
      cand := pendHead;
      prevPend := true;
    }
  }

  /** The candidate `y` of `refill_lrs` is claimed for the vCPU and written into register `idx`. */
  method ClaimAndWrite(g: Vgic, vcpu: Vcpu, y: VgicInt, idx: nat)
    requires g.Valid() && g.IsVcpu(vcpu) && idx < g.gich.lrsNum && y in g.ints && !y.inLr
    requires var b := g.cpuPriv[vcpu.id]; (|b.actList| > 0 && b.actList[0] == y) || (|b.pendList| > 0 && b.pendList[0] == y)
    modifies g.ints`inLr, g.ints`state, g.ints`inPend, g.ints`inAct, g.ints`lr, g.ints`owner
    modifies g.gich`lr, g.gicd`state
    modifies {g.cpuPriv[vcpu.id]}`currLrs, {g.cpuPriv[vcpu.id]}`sgis, {g.cpuPriv[vcpu.id]}`pendList, {g.cpuPriv[vcpu.id]}`actList
    ensures g.Valid()
    ensures var b := g.cpuPriv[vcpu.id];
      y.inLr && y.lr == idx && y.state == IrqSInactive && b.currLrs[idx] == y.id
      && y.owner == (if old(y.owner).None? then Some(vcpu) else old(y.owner))
      && b.pendList == QueueRemove(old(b.pendList), y.id) && b.actList == QueueRemove(old(b.actList), y.id)
    ensures |g.cpuPriv[vcpu.id].pendList| + |g.cpuPriv[vcpu.id].actList| < old(|g.cpuPriv[vcpu.id].pendList| + |g.cpuPriv[vcpu.id].actList|)
    ensures g.gich.hcr == old(g.gich.hcr)
  {
    var _ := g.IntGetOwner(vcpu, y);
    WriteHead(g, vcpu, y, idx);
  }

  /** The write of `refill_lrs`: the head `y` goes into register `idx` and leaves both lists, which get shorter. */
  method WriteHead(g: Vgic, vcpu: Vcpu, y: VgicInt, idx: nat)
    requires g.Valid() && g.IsVcpu(vcpu) && idx < g.gich.lrsNum && y in g.ints && !y.inLr
    requires var b := g.cpuPriv[vcpu.id]; (|b.actList| > 0 && b.actList[0] == y) || (|b.pendList| > 0 && b.pendList[0] == y)
    modifies g.ints`inLr, g.ints`state, g.ints`inPend, g.ints`inAct, g.ints`lr, g.ints`owner
    modifies g.gich`lr, g.gicd`state
    modifies {g.cpuPriv[vcpu.id]}`currLrs, {g.cpuPriv[vcpu.id]}`sgis, {g.cpuPriv[vcpu.id]}`pendList, {g.cpuPriv[vcpu.id]}`actList
    ensures g.Valid()
    ensures var b := g.cpuPriv[vcpu.id];
      y.inLr && y.lr == idx && y.state == IrqSInactive && b.currLrs[idx] == y.id && y.owner == old(y.owner)
      && b.pendList == QueueRemove(old(b.pendList), y.id) && b.actList == QueueRemove(old(b.actList), y.id)
    ensures |g.cpuPriv[vcpu.id].pendList| + |g.cpuPriv[vcpu.id].actList| < old(|g.cpuPriv[vcpu.id].pendList| + |g.cpuPriv[vcpu.id].actList|)
    ensures g.gich.hcr == old(g.gich.hcr)
  {
    var b := g.cpuPriv[vcpu.id];
    HeadRemovalShortens(b.pendList, b.actList, y);
    g.OccupantIn(vcpu, idx, y.id);
    g.WriteLr(vcpu, y, idx);
  }

  /** Taking the head of either list out of both lists shortens them together. */
  lemma HeadRemovalShortens(pend: seq<VgicInt>, act: seq<VgicInt>, y: VgicInt)
    requires (|act| > 0 && act[0] == y) || (|pend| > 0 && pend[0] == y)
    ensures |QueueRemove(pend, y.id)| + |QueueRemove(act, y.id)| < |pend| + |act|
  {
    QueueRemoveLength(pend, y.id);
    QueueRemoveLength(act, y.id);
  }

  /**
   * `eoir_highest_spilled_active`: an EOI that found no list register is
   * applied to the head of the active list.  The head is claimed, loses its
   * active bit and the lists follow; a hardware interrupt is then deactivated
   * at the distributor, and a software one still pending is offered a list
   * register again, which it gets when it is enabled and `add_lr` finds a
   * register.  Only a head that enters a list register changes state beyond
   * the active bit.  With an empty active list nothing happens.
   */
  method EoirHighestSpilledActive(g: Vgic, vcpu: Vcpu)
    requires g.Valid() && g.IsVcpu(vcpu)
    modifies g.ints`inLr, g.ints`state, g.ints`inPend, g.ints`inAct, g.ints`lr, g.ints`owner
    modifies g.gich`lr, g.gich`hcr, g.gicd`state
    modifies {g.cpuPriv[vcpu.id]}`currLrs, {g.cpuPriv[vcpu.id]}`sgis, {g.cpuPriv[vcpu.id]}`pendList, {g.cpuPriv[vcpu.id]}`actList
    ensures g.Valid()
    ensures NpieOnly(old(g.gich.hcr), g.gich.hcr)
    ensures old(IntListHead(g, vcpu.id, false)).None? ==>
      unchanged(g.ints) && unchanged(g.gich) && unchanged(g.gicd) && unchanged(g.cpuPriv[vcpu.id])
    ensures var h := old(IntListHead(g, vcpu.id, false)); h.Some? ==> ToNum(h.value.state) & 2 == 0
    ensures var h := old(IntListHead(g, vcpu.id, false));
      h.Some? && old(IsHw(h.value)) ==> g.gicd.state == old(g.gicd.Deactivated(h.value.id))
    ensures var h := old(IntListHead(g, vcpu.id, false));
      h.Some? && (old(h.value.inLr) || !h.value.inLr) ==> h.value.state == WithAct(old(h.value.state), false)
    ensures var h := old(IntListHead(g, vcpu.id, false));
      h.Some? && (old(IsHw(h.value)) || old(ToNum(h.value.state)) & 1 == 0) ==> h.value.inLr == old(h.value.inLr)
    ensures var h := old(IntListHead(g, vcpu.id, false));
      h.Some? && !old(IsHw(h.value)) && old(ToNum(h.value.state)) & 1 != 0 ==>
        h.value.inLr == old(h.value.inLr || (h.value.enabled && Chosen(g.gich.lr, g.gich.lrsNum).Some?))
        && (h.value.inLr && !old(h.value.inLr) ==> h.value.state == IrqSInactive)
  {
    var h := IntListHead(g, vcpu.id, false);
    if h.None? {
      return;
    }
    var x := h.value;
    var _ := g.IntGetOwner(vcpu, x);
    RetireActive(g, vcpu, x);
  }

  /**
   * The rest of `eoir_highest_spilled_active` once the head `x` is claimed:
   * its active bit is cleared, then it is deactivated at the distributor
   * when it is a hardware interrupt or offered a list register when it is
   * still pending.
   */
  method RetireActive(g: Vgic, vcpu: Vcpu, x: VgicInt)
    requires g.Valid() && g.IsVcpu(vcpu) && x in g.ints
    modifies g.ints`inLr, g.ints`state, g.ints`inPend, g.ints`inAct, g.ints`lr, g.ints`owner
    modifies g.gich`lr, g.gich`hcr, g.gicd`state
    modifies {g.cpuPriv[vcpu.id]}`currLrs, {g.cpuPriv[vcpu.id]}`sgis, {g.cpuPriv[vcpu.id]}`pendList, {g.cpuPriv[vcpu.id]}`actList
    ensures g.Valid()
    ensures NpieOnly(old(g.gich.hcr), g.gich.hcr)
    ensures ToNum(x.state) & 2 == 0
    ensures old(IsHw(x)) ==> g.gicd.state == old(g.gicd.Deactivated(x.id))
    ensures old(x.inLr) || !x.inLr ==> x.state == WithAct(old(x.state), false)
    ensures old(IsHw(x)) || old(ToNum(x.state)) & 1 == 0 ==> x.inLr == old(x.inLr)
    ensures !old(IsHw(x)) && old(ToNum(x.state)) & 1 != 0 ==>
      x.inLr == old(x.inLr || (x.enabled && Chosen(g.gich.lr, g.gich.lrsNum).Some?))
      && (x.inLr && !old(x.inLr) ==> x.state == IrqSInactive)
  {
    ClearActive(g, vcpu, x);
    AfterDeactivate(g, vcpu, x);
  }

  /**
   * The last step of `eoir_highest_spilled_active`, on a head whose active
   * bit is clear: a hardware interrupt is deactivated at the distributor and
   * a pending software one is offered a list register; otherwise nothing
   * changes.
   */
  method AfterDeactivate(g: Vgic, vcpu: Vcpu, x: VgicInt)
    requires g.Valid() && g.IsVcpu(vcpu) && x in g.ints && ToNum(x.state) & 2 == 0
    modifies g.ints`inLr, g.ints`state, g.ints`inPend, g.ints`inAct, g.ints`lr, g.ints`owner
    modifies g.gich`lr, g.gich`hcr, g.gicd`state
    modifies {g.cpuPriv[vcpu.id]}`currLrs, {g.cpuPriv[vcpu.id]}`sgis, {g.cpuPriv[vcpu.id]}`pendList, {g.cpuPriv[vcpu.id]}`actList
    ensures g.Valid()
    ensures NpieOnly(old(g.gich.hcr), g.gich.hcr)
    ensures ToNum(x.state) & 2 == 0
    ensures IsHw(x) ==> g.gicd.state == old(g.gicd.Deactivated(x.id))
    ensures IsHw(x) || old(ToNum(x.state)) & 1 == 0 ==> x.inLr == old(x.inLr) && x.state == old(x.state)
    ensures !IsHw(x) && old(ToNum(x.state)) & 1 != 0 ==>
      x.inLr == old(x.inLr || (x.enabled && Chosen(g.gich.lr, g.gich.lrsNum).Some?))
      && (x.inLr && !old(x.inLr) ==> x.state == IrqSInactive)
      && (old(x.inLr) || !x.inLr ==> x.state == old(x.state))
  {
    if IsHw(x) {
      DeactivateAtDist(g, x);
    } else if ToNum(x.state) & 1 != 0 {
      OfferAgain(g, vcpu, x);
    }
  }

  /** The head of `eoir_highest_spilled_active` loses its active bit, `state & !2`, and the lists follow. */
  method ClearActive(g: Vgic, vcpu: Vcpu, x: VgicInt)
    requires g.Valid() && g.IsVcpu(vcpu) && x in g.ints
    modifies x`state, x`inPend, x`inAct, {g.cpuPriv[vcpu.id]}`pendList, {g.cpuPriv[vcpu.id]}`actList
    ensures g.Valid()
    ensures x.state == WithAct(old(x.state), false)
    ensures ToNum(x.state) & 2 == 0 && ToNum(x.state) & 1 == old(ToNum(x.state)) & 1
    ensures g.cpuPriv[vcpu.id].actList == ListAfter(old(g.cpuPriv[vcpu.id].actList), x, false, old(x.inAct))
  {
    StateRoundTrip(x.state);
    WithActBits(x.state, false);
    x.SetState(NumToState(ToNum(x.state) & !2));
    g.UpdateIntList(vcpu.id, x);
  }

  /** `GicDistributor::set_act(id, false)` for the deactivated hardware interrupt. */
  method DeactivateAtDist(g: Vgic, x: VgicInt)
    requires g.Valid()
    modifies g.gicd`state
    ensures g.Valid()
    ensures g.gicd.state == old(g.gicd.Deactivated(x.id))
  {
    g.gicd.SetAct(x.id, false);
  }

  /** The deactivated software interrupt, still pending, goes back through `add_lr`; its active bit stays clear. */
  method OfferAgain(g: Vgic, vcpu: Vcpu, x: VgicInt)
    requires g.Valid() && g.IsVcpu(vcpu) && x in g.ints && ToNum(x.state) & 2 == 0
    modifies g.ints`inLr, g.ints`state, g.ints`inPend, g.ints`inAct, g.ints`lr, g.ints`owner
    modifies g.gich`lr, g.gich`hcr, g.gicd`state
    modifies {g.cpuPriv[vcpu.id]}`currLrs, {g.cpuPriv[vcpu.id]}`sgis, {g.cpuPriv[vcpu.id]}`pendList, {g.cpuPriv[vcpu.id]}`actList
    ensures g.Valid()
    ensures NpieOnly(old(g.gich.hcr), g.gich.hcr)
    ensures ToNum(x.state) & 2 == 0
    ensures x.inLr == old(x.inLr || (x.enabled && Chosen(g.gich.lr, g.gich.lrsNum).Some?))
    ensures x.inLr && !old(x.inLr) ==> x.state == IrqSInactive
    ensures old(x.inLr) || !x.inLr ==> x.state == old(x.state)
  {
    var _ := g.AddLr(vcpu, x);
  }

  /**
   * The EOICount loop of `gic_maintenance_handler` as written: HCR is read
   * before the loop and again after each write, and each round applies one
   * spilled EOI, then writes back the local copy less one.  The local copy
   * was read before the EOI, so an NPIE request made by `add_lr` during the
   * EOI is overwritten: the loop ends with HCR equal to its value on entry
   * with EOICount cleared.
   */
  method SpilledEoisAsWritten(g: Vgic, vcpu: Vcpu)
    requires g.Valid() && g.IsVcpu(vcpu)
    modifies g.ints`inLr, g.ints`state, g.ints`inPend, g.ints`inAct, g.ints`lr, g.ints`owner
    modifies g.gich`lr, g.gich`hcr, g.gicd`state
    modifies {g.cpuPriv[vcpu.id]}`currLrs, {g.cpuPriv[vcpu.id]}`sgis, {g.cpuPriv[vcpu.id]}`pendList, {g.cpuPriv[vcpu.id]}`actList
    ensures g.Valid()
    ensures g.gich.hcr == HcrRest(old(g.gich.hcr))
  {
    var gic := g.gich;
    var hcr := gic.hcr;
    while hcr & HcrEoiCountMask != 0
      invariant g.Valid() && hcr == gic.hcr
      invariant HcrRest(hcr) == HcrRest(old(gic.hcr))
      decreases EoiCount(hcr)
    {
      EoiCountDecrement(hcr);
      RetireStale(g, vcpu, hcr);
      hcr := gic.hcr;
    }
  }

  /** One round as written: the EOI, then HCR set to the copy read before it, less one. */
  method RetireStale(g: Vgic, vcpu: Vcpu, hcr: bv32)
    requires g.Valid() && g.IsVcpu(vcpu) && hcr & HcrEoiCountMask != 0
    modifies g.ints`inLr, g.ints`state, g.ints`inPend, g.ints`inAct, g.ints`lr, g.ints`owner
    modifies g.gich`lr, g.gich`hcr, g.gicd`state
    modifies {g.cpuPriv[vcpu.id]}`currLrs, {g.cpuPriv[vcpu.id]}`sgis, {g.cpuPriv[vcpu.id]}`pendList, {g.cpuPriv[vcpu.id]}`actList
    ensures g.Valid()
    ensures g.gich.hcr == hcr - HcrEoiCountOne
  {
    EoirHighestSpilledActive(g, vcpu);
    g.gich.SetHcr(hcr - HcrEoiCountOne);
  }

  /**
   * The EOICount loop with HCR re-read after each EOI, so that the count is
   * lowered on the register's current value: the count ends at zero and the
   * only other change to HCR is an NPIE request made by the EOIs.
   * `requested` is whether some round's EOI left NPIE set in HCR; when it is,
   * NPIE is still set at the end, and when it is not, HCR ends as its entry
   * value with the count cleared.
   */
  method SpilledEois(g: Vgic, vcpu: Vcpu) returns (ghost requested: bool)
    requires g.Valid() && g.IsVcpu(vcpu)
    modifies g.ints`inLr, g.ints`state, g.ints`inPend, g.ints`inAct, g.ints`lr, g.ints`owner
    modifies g.gich`lr, g.gich`hcr, g.gicd`state
    modifies {g.cpuPriv[vcpu.id]}`currLrs, {g.cpuPriv[vcpu.id]}`sgis, {g.cpuPriv[vcpu.id]}`pendList, {g.cpuPriv[vcpu.id]}`actList
    ensures g.Valid()
    ensures EoiCount(g.gich.hcr) == 0
    ensures NpieOnly(HcrRest(old(g.gich.hcr)), g.gich.hcr)
    ensures requested ==> NpieSet(g.gich.hcr)
    ensures !requested ==> g.gich.hcr == HcrRest(old(g.gich.hcr))
  {
    var gic := g.gich;
    var hcr := gic.hcr;
    requested := false;
    while hcr & HcrEoiCountMask != 0
      invariant g.Valid() && hcr == gic.hcr
      invariant NpieOnly(HcrRest(old(gic.hcr)), HcrRest(hcr))
      invariant requested ==> NpieSet(hcr)
      invariant !requested ==> HcrRest(hcr) == HcrRest(old(gic.hcr))
      decreases EoiCount(hcr)
    {
      ghost var before := hcr;
      ghost var during := RetireCurrent(g, vcpu);
      hcr := gic.hcr;
      NpieOnlyTrans(HcrRest(old(gic.hcr)), HcrRest(before), HcrRest(hcr));
      RoundKeepsNpie(old(gic.hcr), before, during, hcr, requested);
      requested := requested || NpieSet(during);
    }
  }

  /**
   * One corrected round: the EOI, then HCR re-read and set to that value less
   * one.  `during` is HCR as the EOI left it: the round lowers the count by
   * one and keeps every other bit of `during`, a requested NPIE with them.
   */
  method RetireCurrent(g: Vgic, vcpu: Vcpu) returns (ghost during: bv32)
    requires g.Valid() && g.IsVcpu(vcpu) && g.gich.hcr & HcrEoiCountMask != 0
    modifies g.ints`inLr, g.ints`state, g.ints`inPend, g.ints`inAct, g.ints`lr, g.ints`owner
    modifies g.gich`lr, g.gich`hcr, g.gicd`state
    modifies {g.cpuPriv[vcpu.id]}`currLrs, {g.cpuPriv[vcpu.id]}`sgis, {g.cpuPriv[vcpu.id]}`pendList, {g.cpuPriv[vcpu.id]}`actList
    ensures g.Valid()
    ensures NpieOnly(old(g.gich.hcr), during)
    ensures EoiCount(g.gich.hcr) == old(EoiCount(g.gich.hcr)) - 1
    ensures HcrRest(g.gich.hcr) == HcrRest(during)
    ensures NpieOnly(HcrRest(old(g.gich.hcr)), HcrRest(g.gich.hcr))
  {
    var before := g.gich.hcr;
    EoirHighestSpilledActive(g, vcpu);
    var hcr := g.gich.hcr;
    during := hcr;
    RetireAfterEoi(before, hcr);
    g.gich.SetHcr(hcr - HcrEoiCountOne);
  }

  /**
   * One corrected round: an EOI that only requested NPIE keeps the count
   * nonzero, and lowering it from the re-read value drops the count by one
   * and keeps every other bit the EOI left, NPIE among them.
   */
  lemma RetireAfterEoi(before: bv32, after: bv32)
    requires before & HcrEoiCountMask != 0 && NpieOnly(before, after)
    ensures after & HcrEoiCountMask != 0
    ensures EoiCount(after - HcrEoiCountOne) == EoiCount(before) - 1
    ensures HcrRest(after - HcrEoiCountOne) == HcrRest(after)
    ensures (after - HcrEoiCountOne) & HcrNpie == after & HcrNpie
    ensures NpieOnly(HcrRest(before), HcrRest(after - HcrEoiCountOne))
  {
    NpieOnlyFields(before, after);
    EoiCountDecrement(after);
    RestKeepsNpie(after);
    RestKeepsNpie(after - HcrEoiCountOne);
  }

  /** Clearing EOICount leaves NPIE as it was. */
  lemma RestKeepsNpie(hcr: bv32)
    ensures HcrRest(hcr) & HcrNpie == hcr & HcrNpie
  {
  }

  /** HCR requests a maintenance interrupt when no list register is pending. */
  predicate NpieSet(hcr: bv32)
  {
    hcr & HcrNpie != 0
  }

  /**
   * The step of the loop's NPIE bookkeeping: after a round whose EOI left
   * NPIE set, or after any round once it was set, NPIE is set; while no EOI
   * has set it, HCR keeps the bits of its entry value other than the count.
   */
  lemma RoundKeepsNpie(entry: bv32, before: bv32, during: bv32, after: bv32, requested: bool)
    requires NpieOnly(before, during) && HcrRest(after) == HcrRest(during)
    requires requested ==> NpieSet(before)
    requires !requested ==> HcrRest(before) == HcrRest(entry)
    ensures requested || NpieSet(during) ==> NpieSet(after)
    ensures !(requested || NpieSet(during)) ==> HcrRest(after) == HcrRest(entry)
  {
    RestKeepsNpie(after);
    RestKeepsNpie(during);
    NpieOnlyFields(before, during);
  }

  /**
   * The input that shows the stale write: one spilled EOI (HCR = 1 << 27)
   * whose `add_lr` finds no list register and requests NPIE.  Written from
   * the copy read before the EOI, HCR ends as 0 and the request is gone;
   * lowered from the re-read value it ends as NPIE alone.
   */
  lemma StaleHcrDropsNpie()
    ensures var entry := HcrEoiCountOne; var during := entry | HcrNpie;
      NpieOnly(entry, during) && HcrRest(entry) == 0
      && during - HcrEoiCountOne == HcrNpie
  {
  }

  /**
   * `gic_maintenance_handler`, for the vGIC `g` of the active VM and its
   * active vCPU `vcpu` (the source panics when there is no active VM).  MISR
   * is read once: EOI (bit 0) empties the registers whose interrupt was
   * completed, NP (bit 3) refills free registers, and LRENP (bit 2) applies
   * the spilled EOIs, here with HCR re-read after each one.
   */
  method GicMaintenanceHandler(g: Vgic, vcpu: Vcpu)
    requires g.Valid() && g.IsVcpu(vcpu)
    modifies g.ints`inLr, g.ints`state, g.ints`inPend, g.ints`inAct, g.ints`lr, g.ints`owner
    modifies g.gich`lr, g.gich`hcr, g.gicd`state
    modifies {g.cpuPriv[vcpu.id]}`currLrs, {g.cpuPriv[vcpu.id]}`sgis, {g.cpuPriv[vcpu.id]}`pendList, {g.cpuPriv[vcpu.id]}`actList
    ensures g.Valid()
    ensures old(g.gich.misr) & MisrLrenp != 0 ==> EoiCount(g.gich.hcr) == 0
    ensures old(g.gich.misr) & MisrEoi != 0 && old(g.gich.misr) & (MisrNp | MisrLrenp) == 0 ==> g.gich.EoiSet() == {}
    ensures old(g.gich.misr) & (MisrEoi | MisrNp | MisrLrenp) == 0 ==> g.gich.hcr == old(g.gich.hcr) && g.gich.lr == old(g.gich.lr)
  {
    var misr := g.gich.misr;
    if misr & MisrEoi != 0 {
      HandleTrappedEoir(g, vcpu);
    }
    if misr & MisrNp != 0 {
      RefillLrs(g, vcpu);
    }
    if misr & MisrLrenp != 0 {
      var _ := SpilledEois(g, vcpu);
    }
  }
}
