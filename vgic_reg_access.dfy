/**
 * The register accessors of the emulated distributor and their dispatcher
 * (src/vgic_reg_access.rs).  Every accessor takes the trapped access `ctx`,
 * the current core `cpu` (whose `gprs` are the trapped vCPU's registers),
 * the active vCPU and its VM.  A write takes its value from register
 * `ctx.reg`; a read leaves the distributor as it was and puts the value in
 * that register.
 */
module VgicRegAccess {
  import opened Wrappers
  import opened Utils
  import opened Consts
  import opened Fake
  import opened Vint
  import opened VgicCore
  import opened VgicIpi
  import opened TargetMasks
  import opened RegLanes
  import opened VgicdLayout

  // The gate.

  /** Some id of `first .. first + n - 1` is an interrupt of the VM, passed through or emulated. */
  predicate AnyInterrupt(vm: Vm, first: nat, n: nat)
  {
    exists id :: first <= id < first + n && (vm.HasInterrupt(id) || vm.EmuHasInterrupt(id))
  }

  /** The accessors ignore a register past the SGIs that names no interrupt of the VM. */
  predicate Refused(vm: Vm, first: nat, n: nat)
  {
    first >= GicSgisNum && !AnyInterrupt(vm, first, n)
  }

  /** The search loop of the gate (`vm_has_interrupt_flag`), which stops at the first hit. */
  method HasInterruptFlag(vm: Vm, first: nat, n: nat) returns (found: bool)
    ensures found == AnyInterrupt(vm, first, n)
  {
    found := false;
    var i := 0;
    while i < n
      invariant i <= n
      invariant forall id :: first <= id < first + i ==> !(vm.HasInterrupt(id) || vm.EmuHasInterrupt(id))
    {
      if vm.HasInterrupt(first + i) || vm.EmuHasInterrupt(first + i) {
        found := true;
        return;
      }
      i := i + 1;
    }
  }

  // What the read accessors report.

  /** Every resident interrupt has an owner, as `vgic_get_state` needs (it unwraps the owner's core). */
  ghost predicate ResidentsOwned(g: Vgic)
    reads g.ints
  {
    forall x :: x in g.ints && x.inLr ==> x.owner.Some?
  }

  /** The enable bits of interrupts `first .. first + n - 1` as the vCPU sees them. */
  function Enables(g: Vgic, vcpu: Vcpu, first: nat, n: nat): (r: seq<bool>)
    requires g.Valid() && g.IsVcpu(vcpu) && first + n <= GicIntsMax
    reads g.banks, g.ints, g.gich
    ensures |r| == n
  {
    if n == 0 then [] else Enables(g, vcpu, first, n - 1) + [g.GetInt(vcpu, first + n - 1).value.enabled]
  }

  /** `vgic_get_state(interrupt) & mask != 0` for the interrupt the vCPU sees as `id`. */
  function StateOn(g: Vgic, vcpu: Vcpu, id: nat, mask: bv64): bool
    requires g.Valid() && g.IsVcpu(vcpu) && ResidentsOwned(g) && id < GicIntsMax
    reads g.banks, g.ints, g.gich
  {
    g.GetIntSpec(vcpu, id);
    g.GetState(g.GetInt(vcpu, id).value) & mask != 0
  }

  /** Whether `vgic_get_state` has a bit of `mask` set, for interrupts `first .. first + n - 1`. */
  function States(g: Vgic, vcpu: Vcpu, first: nat, n: nat, mask: bv64): (r: seq<bool>)
    requires g.Valid() && g.IsVcpu(vcpu) && ResidentsOwned(g) && first + n <= GicIntsMax
    reads g.banks, g.ints, g.gich
    ensures |r| == n
  {
    if n == 0 then [] else States(g, vcpu, first, n - 1, mask) + [StateOn(g, vcpu, first + n - 1, mask)]
  }

  /** The priority bytes of interrupts `first .. first + n - 1`. */
  function Prios(g: Vgic, vcpu: Vcpu, first: nat, n: nat): (r: seq<U8>)
    requires g.Valid() && g.IsVcpu(vcpu) && first + n <= GicIntsMax
    reads g.banks, g.ints, g.gich
    ensures |r| == n
  {
    if n == 0 then [] else Prios(g, vcpu, first, n - 1) + [g.GetInt(vcpu, first + n - 1).value.prio]
  }

  /** The target bytes of interrupts `first .. first + n - 1`. */
  function Trgts(g: Vgic, vcpu: Vcpu, first: nat, n: nat): (r: seq<U8>)
    requires g.Valid() && g.IsVcpu(vcpu) && first + n <= GicIntsMax
    reads g.banks, g.ints, g.gich
    ensures |r| == n
  {
    if n == 0 then [] else Trgts(g, vcpu, first, n - 1) + [g.GetInt(vcpu, first + n - 1).value.targets]
  }

  /** The configuration fields of interrupts `first .. first + n - 1`. */
  function Cfgs(g: Vgic, vcpu: Vcpu, first: nat, n: nat): (r: seq<U8>)
    requires g.Valid() && g.IsVcpu(vcpu) && first + n <= GicIntsMax
    reads g.banks, g.ints, g.gich
    ensures |r| == n
  {
    if n == 0 then [] else Cfgs(g, vcpu, first, n - 1) + [g.GetInt(vcpu, first + n - 1).value.cfg]
  }

  lemma {:induction false} EnablesAt(g: Vgic, vcpu: Vcpu, first: nat, n: nat)
    requires g.Valid() && g.IsVcpu(vcpu) && first + n <= GicIntsMax
    ensures forall j :: 0 <= j < n ==> Enables(g, vcpu, first, n)[j] == g.GetInt(vcpu, first + j).value.enabled
  {
    if n > 0 {
      EnablesAt(g, vcpu, first, n - 1);
    }
  }

  lemma {:induction false} PriosAt(g: Vgic, vcpu: Vcpu, first: nat, n: nat)
    requires g.Valid() && g.IsVcpu(vcpu) && first + n <= GicIntsMax
    ensures forall j :: 0 <= j < n ==> Prios(g, vcpu, first, n)[j] == g.GetInt(vcpu, first + j).value.prio
  {
    if n > 0 {
      PriosAt(g, vcpu, first, n - 1);
    }
  }

  lemma {:induction false} TrgtsAt(g: Vgic, vcpu: Vcpu, first: nat, n: nat)
    requires g.Valid() && g.IsVcpu(vcpu) && first + n <= GicIntsMax
    ensures forall j :: 0 <= j < n ==> Trgts(g, vcpu, first, n)[j] == g.GetInt(vcpu, first + j).value.targets
  {
    if n > 0 {
      TrgtsAt(g, vcpu, first, n - 1);
    }
  }

  lemma {:induction false} CfgsAt(g: Vgic, vcpu: Vcpu, first: nat, n: nat)
    requires g.Valid() && g.IsVcpu(vcpu) && first + n <= GicIntsMax
    ensures forall j :: 0 <= j < n ==> Cfgs(g, vcpu, first, n)[j] == g.GetInt(vcpu, first + j).value.cfg
  {
    if n > 0 {
      CfgsAt(g, vcpu, first, n - 1);
    }
  }

  lemma {:induction false} StatesAt(g: Vgic, vcpu: Vcpu, first: nat, n: nat, mask: bv64, j: nat)
    requires g.Valid() && g.IsVcpu(vcpu) && ResidentsOwned(g) && first + n <= GicIntsMax && j < n
    ensures States(g, vcpu, first, n, mask)[j] == StateOn(g, vcpu, first + j, mask)
  {
    if j < n - 1 {
      StatesAt(g, vcpu, first, n - 1, mask, j);
    }
  }

  /** The read loop of GICD_ISENABLER/ICENABLER: bit `i` is the enable bit of interrupt `first + i`. */
  method EnableWord(g: Vgic, vcpu: Vcpu, first: nat) returns (val: bv64)
    requires g.Valid() && g.IsVcpu(vcpu) && first + 32 <= GicIntsMax
    ensures val == BitWord(Enables(g, vcpu, first, 32))
    ensures forall k :: 0 <= k < 64 ==> (Bit(val, k) <==> k < 32 && g.GetInt(vcpu, first + k).value.enabled)
  {
    val := 0;
    var i := 0;
    while i < 32
      invariant i <= 32 && val == BitWord(Enables(g, vcpu, first, i))
    {
      g.GetIntSpec(vcpu, first + i);
      var on := g.GetInt(vcpu, first + i).value.enabled;
      assert Enables(g, vcpu, first, i + 1) == Enables(g, vcpu, first, i) + [on];
      BitWordSnoc(Enables(g, vcpu, first, i), on);
      val := BitPut(val, on, i);  // `val |= 1 << i` for an enabled interrupt
      i := i + 1;
    }
    BitWordBits(Enables(g, vcpu, first, 32));
    EnablesAt(g, vcpu, first, 32);
  }

  /** The read loop of GICD_ISPENDR/ICPENDR (`mask` 1) and ISACTIVER/ICACTIVER (`mask` 2). */
  method StateWord(g: Vgic, vcpu: Vcpu, first: nat, mask: bv64) returns (val: bv64)
    requires g.Valid() && g.IsVcpu(vcpu) && ResidentsOwned(g) && first + 32 <= GicIntsMax
    ensures val == BitWord(States(g, vcpu, first, 32, mask))
    ensures forall k :: 0 <= k < 64 ==>
      (Bit(val, k) <==> k < 32 && StateOn(g, vcpu, first + k, mask))
  {
    val := 0;
    var i := 0;
    while i < 32
      invariant i <= 32 && val == BitWord(States(g, vcpu, first, i, mask))
    {
      val := StateBit(g, vcpu, first, mask, i, val);
      i := i + 1;
    }
    StateWordBits(g, vcpu, first, mask);
  }

  /** One round of the loop: `val |= 1 << i` when the state of interrupt `first + i` has a bit of `mask`. */
  method StateBit(g: Vgic, vcpu: Vcpu, first: nat, mask: bv64, i: nat, val: bv64) returns (val': bv64)
    requires g.Valid() && g.IsVcpu(vcpu) && ResidentsOwned(g) && first + 32 <= GicIntsMax && i < 32
    requires val == BitWord(States(g, vcpu, first, i, mask))
    ensures val' == BitWord(States(g, vcpu, first, i + 1, mask))
  {
    var on := StateOn(g, vcpu, first + i, mask);
    assert States(g, vcpu, first, i + 1, mask) == States(g, vcpu, first, i, mask) + [on];
    BitWordSnoc(States(g, vcpu, first, i, mask), on);
    val' := BitPut(val, on, i);
  }

  /** Bit `k` of the packed state word is the state bit of interrupt `first + k`. */
  lemma StateWordBits(g: Vgic, vcpu: Vcpu, first: nat, mask: bv64)
    requires g.Valid() && g.IsVcpu(vcpu) && ResidentsOwned(g) && first + 32 <= GicIntsMax
    ensures forall k :: 0 <= k < 64 ==>
      (Bit(BitWord(States(g, vcpu, first, 32, mask)), k) <==> k < 32 && StateOn(g, vcpu, first + k, mask))
  {
    var bs := States(g, vcpu, first, 32, mask);
    forall k | 0 <= k < 64
      ensures Bit(BitWord(bs), k) <==> k < 32 && StateOn(g, vcpu, first + k, mask)
    {
      BitWordBit(bs, k);
      if k < 32 {
        StatesAt(g, vcpu, first, 32, mask, k);
      }
    }
  }

  /** The read loop of GICD_IPRIORITYR: byte `i` is the priority of interrupt `first + i`. */
  method PrioWord(g: Vgic, vcpu: Vcpu, first: nat, width: nat) returns (val: bv64)
    requires g.Valid() && g.IsVcpu(vcpu) && width <= 8 && first + width <= GicIntsMax
    ensures val == ByteWord(Prios(g, vcpu, first, width))
  {
    val := 0;
    var i := 0;
    while i < width
      invariant i <= width && val == ByteWord(Prios(g, vcpu, first, i))
    {
      val := PrioByte(g, vcpu, first, i, val);
      i := i + 1;
    }
  }

  /** One round of the loop: `val |= b << (8 * i)` for the byte `b` of interrupt `first + i`. */
  method PrioByte(g: Vgic, vcpu: Vcpu, first: nat, i: nat, val: bv64) returns (val': bv64)
    requires g.Valid() && g.IsVcpu(vcpu) && i < 8 && first + i < GicIntsMax
    requires val == ByteWord(Prios(g, vcpu, first, i))
    ensures val' == ByteWord(Prios(g, vcpu, first, i + 1))
  {
    g.GetIntSpec(vcpu, first + i);
    var b := g.GetInt(vcpu, first + i).value.prio;
    assert Prios(g, vcpu, first, i + 1) == Prios(g, vcpu, first, i) + [b];
    ByteWordSnoc(Prios(g, vcpu, first, i), b);
    val' := BytePut(val, b, i);
  }

  /** Byte lane `k` of the packed word is the byte of interrupt `first + k`, and zero past the last. */
  lemma PrioWordLanes(g: Vgic, vcpu: Vcpu, first: nat, width: nat)
    requires g.Valid() && g.IsVcpu(vcpu) && width <= 8 && first + width <= GicIntsMax
    ensures forall k :: 0 <= k < 8 ==>
      ByteLane(ByteWord(Prios(g, vcpu, first, width)), k) == if k < width then g.GetInt(vcpu, first + k).value.prio else 0
  {
    PriosAt(g, vcpu, first, width);
    ByteWordLanes(Prios(g, vcpu, first, width));
  }

  /** The read loop of GICD_ITARGETSR, before the translation: byte `i` is the target byte of interrupt `first + i`. */
  method TrgtWord(g: Vgic, vcpu: Vcpu, first: nat, width: nat) returns (val: bv64)
    requires g.Valid() && g.IsVcpu(vcpu) && width <= 8 && first + width <= GicIntsMax
    ensures val == ByteWord(Trgts(g, vcpu, first, width))
  {
    val := 0;
    var i := 0;
    while i < width
      invariant i <= width && val == ByteWord(Trgts(g, vcpu, first, i))
    {
      val := TrgtByte(g, vcpu, first, i, val);
      i := i + 1;
    }
  }

  /** One round of the loop: `val |= b << (8 * i)` for the byte `b` of interrupt `first + i`. */
  method TrgtByte(g: Vgic, vcpu: Vcpu, first: nat, i: nat, val: bv64) returns (val': bv64)
    requires g.Valid() && g.IsVcpu(vcpu) && i < 8 && first + i < GicIntsMax
    requires val == ByteWord(Trgts(g, vcpu, first, i))
    ensures val' == ByteWord(Trgts(g, vcpu, first, i + 1))
  {
    g.GetIntSpec(vcpu, first + i);
    var b := g.GetInt(vcpu, first + i).value.targets;
    assert Trgts(g, vcpu, first, i + 1) == Trgts(g, vcpu, first, i) + [b];
    ByteWordSnoc(Trgts(g, vcpu, first, i), b);
    val' := BytePut(val, b, i);
  }

  /** Byte lane `k` of the packed word is the byte of interrupt `first + k`, and zero past the last. */
  lemma TrgtWordLanes(g: Vgic, vcpu: Vcpu, first: nat, width: nat)
    requires g.Valid() && g.IsVcpu(vcpu) && width <= 8 && first + width <= GicIntsMax
    ensures forall k :: 0 <= k < 8 ==>
      ByteLane(ByteWord(Trgts(g, vcpu, first, width)), k) == if k < width then g.GetInt(vcpu, first + k).value.targets else 0
  {
    TrgtsAt(g, vcpu, first, width);
    ByteWordLanes(Trgts(g, vcpu, first, width));
  }

  /**
   * The read loop of GICD_ICFGR: the field of interrupt `first + i` is
   * shifted to bit `2 i`.  Where every field is two bits wide, two-bit lane
   * `i` of the word is that field.
   */
  method CfgWord(g: Vgic, vcpu: Vcpu, first: nat, n: nat) returns (val: bv64)
    requires g.Valid() && g.IsVcpu(vcpu) && n <= 32 && first + n <= GicIntsMax
    ensures val == PairWord(Cfgs(g, vcpu, first, n))
  {
    val := 0;
    var i := 0;
    while i < n
      invariant i <= n && val == PairWord(Cfgs(g, vcpu, first, i))
    {
      val := CfgPair(g, vcpu, first, i, val);
      i := i + 1;
    }
  }

  /** One round of the loop: `cfg |= c << bit` for the field `c` of interrupt `first + i`, with `bit` = 2 i. */
  method CfgPair(g: Vgic, vcpu: Vcpu, first: nat, i: nat, val: bv64) returns (val': bv64)
    requires g.Valid() && g.IsVcpu(vcpu) && i < 32 && first + i < GicIntsMax
    requires val == PairWord(Cfgs(g, vcpu, first, i))
    ensures val' == PairWord(Cfgs(g, vcpu, first, i + 1))
  {
    g.GetIntSpec(vcpu, first + i);
    var c := g.GetInt(vcpu, first + i).value.cfg;
    assert Cfgs(g, vcpu, first, i + 1) == Cfgs(g, vcpu, first, i) + [c];
    PairWordSnoc(Cfgs(g, vcpu, first, i), c);
    val' := PairPut(val, c, i);
  }

  /** Two-bit lane `k` of the packed word is the field of interrupt `first + k` when every field fits two bits. */
  lemma CfgWordLanes(g: Vgic, vcpu: Vcpu, first: nat, n: nat)
    requires g.Valid() && g.IsVcpu(vcpu) && n <= 32 && first + n <= GicIntsMax
    ensures (forall j :: 0 <= j < n ==> Cfgs(g, vcpu, first, n)[j] < 4) ==>
      forall k :: 0 <= k < 32 ==> PairLane(PairWord(Cfgs(g, vcpu, first, n)), k) == if k < n then g.GetInt(vcpu, first + k).value.cfg else 0
  {
    CfgsAt(g, vcpu, first, n);
    if forall j :: 0 <= j < n ==> Cfgs(g, vcpu, first, n)[j] < 4 {
      PairWordLanes(Cfgs(g, vcpu, first, n));
    }
  }

  // What the write accessors change.

  /**
   * The write loop of GICD_ISENABLER (`en` true) and ICENABLER (`en`
   * false): every interrupt whose enable bit changes is one of the 32 of
   * the word, its bit in `val` is set, and it now has `en`.
   */
  method EnableWrite(g: Vgic, vcpu: Vcpu, first: nat, val: bv64, en: bool)
    requires g.Valid() && g.IsVcpu(vcpu) && first + 32 <= GicIntsMax
    modifies g.ints`inLr, g.ints`state, g.ints`inPend, g.ints`inAct, g.ints`lr, g.ints`owner, g.ints`enabled
    modifies g.gich`lr, g.gich`hcr, g.gicd`state, g.gicd`enable
    modifies {g.cpuPriv[vcpu.id]}`currLrs, {g.cpuPriv[vcpu.id]}`sgis, {g.cpuPriv[vcpu.id]}`pendList, {g.cpuPriv[vcpu.id]}`actList
    modifies g`outbox
    ensures g.Valid()
    ensures forall y :: y in g.ints && y.enabled != old(y.enabled) ==>
      first <= y.id < first + 32 && Bit(val, y.id - first) && y.enabled == en
  {
    var i := 0;
    while i < 32
      invariant i <= 32 && g.Valid()
      invariant forall y :: y in g.ints && y.enabled != old(y.enabled) ==>
        first <= y.id < first + i && Bit(val, y.id - first) && y.enabled == en
    {
      EnableStep(g, vcpu, first, val, en, i);
      i := i + 1;
    }
  }

  /** One round of the enable loop: bit `i` of `val`, when set, updates interrupt `first + i`. */
  method EnableStep(g: Vgic, vcpu: Vcpu, first: nat, val: bv64, en: bool, i: nat)
    requires g.Valid() && g.IsVcpu(vcpu) && i < 32
    modifies g.ints`inLr, g.ints`state, g.ints`inPend, g.ints`inAct, g.ints`lr, g.ints`owner, g.ints`enabled
    modifies g.gich`lr, g.gich`hcr, g.gicd`state, g.gicd`enable
    modifies {g.cpuPriv[vcpu.id]}`currLrs, {g.cpuPriv[vcpu.id]}`sgis, {g.cpuPriv[vcpu.id]}`pendList, {g.cpuPriv[vcpu.id]}`actList
    modifies g`outbox
    ensures g.Valid()
    ensures forall y :: y in g.ints && y.enabled != old(y.enabled) ==> y.id == first + i && Bit(val, i) && y.enabled == en
  {
    BitExtractOne(val, i as bv7);
    if BitGet(val, i as bv7) != 0 {
      g.SetEnable(vcpu, first + i, en);
    }
  }

  /**
   * The write loop of GICD_IPRIORITYR: every interrupt whose priority
   * changes is one of the `width` the access covers, and its priority is
   * its byte of `val` as `set_prio` stores it.
   */
  method PrioWrite(g: Vgic, vcpu: Vcpu, first: nat, width: nat, val: bv64)
    requires g.Valid() && g.IsVcpu(vcpu) && width <= 8
    modifies g.ints`inLr, g.ints`state, g.ints`inPend, g.ints`inAct, g.ints`lr, g.ints`owner, g.ints`prio
    modifies g.gich`lr, g.gich`hcr, g.gicd`state, g.gicd`prio
    modifies {g.cpuPriv[vcpu.id]}`currLrs, {g.cpuPriv[vcpu.id]}`sgis, {g.cpuPriv[vcpu.id]}`pendList, {g.cpuPriv[vcpu.id]}`actList
    modifies g`outbox
    ensures g.Valid()
    ensures forall y :: y in g.ints && y.prio != old(y.prio) ==>
      first <= y.id < first + width && y.prio == PrioField(ByteLane(val, y.id - first))
  {
    var i := 0;
    while i < width
      invariant i <= width && g.Valid()
      invariant forall y :: y in g.ints && y.prio != old(y.prio) ==>
        first <= y.id < first + i && y.prio == PrioField(ByteLane(val, y.id - first))
    {
      PrioStep(g, vcpu, first, val, i);
      i := i + 1;
    }
  }

  /** One round of the priority loop: byte `i` of `val` goes to interrupt `first + i`. */
  method PrioStep(g: Vgic, vcpu: Vcpu, first: nat, val: bv64, i: nat)
    requires g.Valid() && g.IsVcpu(vcpu) && i < 8
    modifies g.ints`inLr, g.ints`state, g.ints`inPend, g.ints`inAct, g.ints`lr, g.ints`owner, g.ints`prio
    modifies g.gich`lr, g.gich`hcr, g.gicd`state, g.gicd`prio
    modifies {g.cpuPriv[vcpu.id]}`currLrs, {g.cpuPriv[vcpu.id]}`sgis, {g.cpuPriv[vcpu.id]}`pendList, {g.cpuPriv[vcpu.id]}`actList
    modifies g`outbox
    ensures g.Valid()
    ensures forall y :: y in g.ints && y.prio != old(y.prio) ==> y.id == first + i && y.prio == PrioField(ByteLane(val, i))
  {
    ByteLaneExtract(val, i);
    g.SetPrio(vcpu, first + i, BitExtract(val, ByteShift(i), 8));
  }

  /**
   * The write loop of GICD_ITARGETSR, after the translation: every
   * interrupt whose target byte changes is one of the `width` the access
   * covers, and its target byte is its byte of `val`.
   */
  method TrgtWrite(g: Vgic, vcpu: Vcpu, first: nat, width: nat, val: bv64)
    requires g.Valid() && g.IsVcpu(vcpu) && width <= 8
    modifies g.ints`inLr, g.ints`state, g.ints`inPend, g.ints`inAct, g.ints`lr, g.ints`owner, g.ints`targets
    modifies g.gich`lr, g.gich`hcr, g.gicd`state, g.gicd`trgt
    modifies {g.cpuPriv[vcpu.id]}`currLrs, {g.cpuPriv[vcpu.id]}`sgis, {g.cpuPriv[vcpu.id]}`pendList, {g.cpuPriv[vcpu.id]}`actList
    modifies g`outbox
    ensures g.Valid()
    ensures forall y :: y in g.ints && y.targets != old(y.targets) ==>
      first <= y.id < first + width && y.targets == ByteLane(val, y.id - first)
  {
    var i := 0;
    while i < width
      invariant i <= width && g.Valid()
      invariant forall y :: y in g.ints && y.targets != old(y.targets) ==>
        first <= y.id < first + i && y.targets == ByteLane(val, y.id - first)
    {
      TrgtStep(g, vcpu, first, val, i);
      i := i + 1;
    }
  }

  /** One round of the target loop: byte `i` of `val` goes to interrupt `first + i`. */
  method TrgtStep(g: Vgic, vcpu: Vcpu, first: nat, val: bv64, i: nat)
    requires g.Valid() && g.IsVcpu(vcpu) && i < 8
    modifies g.ints`inLr, g.ints`state, g.ints`inPend, g.ints`inAct, g.ints`lr, g.ints`owner, g.ints`targets
    modifies g.gich`lr, g.gich`hcr, g.gicd`state, g.gicd`trgt
    modifies {g.cpuPriv[vcpu.id]}`currLrs, {g.cpuPriv[vcpu.id]}`sgis, {g.cpuPriv[vcpu.id]}`pendList, {g.cpuPriv[vcpu.id]}`actList
    modifies g`outbox
    ensures g.Valid()
    ensures forall y :: y in g.ints && y.targets != old(y.targets) ==> y.id == first + i && y.targets == ByteLane(val, i)
  {
    ByteLaneExtract(val, i);
    g.SetTrgt(vcpu, first + i, BitExtract(val, ByteShift(i), 8));
  }

  /**
   * The write loop of GICD_ICFGR: every interrupt whose configuration
   * changes is one of the `n` the access covers, and its field is its
   * two-bit lane of `cfg`.
   */
  method CfgWrite(g: Vgic, vcpu: Vcpu, first: nat, n: nat, cfg: bv64)
    requires g.Valid() && g.IsVcpu(vcpu) && n <= 32 && first + n <= GicIntsMax
    modifies g.ints`owner, g.ints`cfg, g.gicd`cfg, g`outbox
    ensures g.Valid()
    ensures forall y :: y in g.ints && y.cfg != old(y.cfg) ==>
      first <= y.id < first + n && y.cfg == PairLane(cfg, y.id - first)
  {
    var i := 0;
    while i < n
      invariant i <= n && g.Valid()
      invariant forall y :: y in g.ints && y.cfg != old(y.cfg) ==>
        first <= y.id < first + i && y.cfg == PairLane(cfg, y.id - first)
    {
      CfgStep(g, vcpu, first, cfg, i);
      i := i + 1;
    }
  }

  /** One round of the loop, `set_icfgr(irq, bit_extract(cfg, bit, 2))` for `irq` = `first + i` and `bit` = `2 i`. */
  method CfgStep(g: Vgic, vcpu: Vcpu, first: nat, cfg: bv64, i: nat)
    requires g.Valid() && g.IsVcpu(vcpu) && i < 32 && first + i < GicIntsMax
    modifies g.ints`owner, g.ints`cfg, g.gicd`cfg, g`outbox
    ensures g.Valid()
    ensures forall y :: y in g.ints && y.cfg != old(y.cfg) ==> y.id == first + i && y.cfg == PairLane(cfg, i)
  {
    PairLaneExtract(cfg, i);
    g.SetIcfgr(vcpu, first + i, BitExtract(cfg, PairShift(i), 2));
  }

  /** The write loop of GICD_ISPENDR (`set` true) and ICPENDR (`set` false): `set_pend` for every set bit. */
  method PendWrite(g: Vgic, vcpu: Vcpu, first: nat, val: bv64, on: bool)
    requires g.Valid() && g.IsVcpu(vcpu)
    modifies g.ints`inLr, g.ints`state, g.ints`inPend, g.ints`inAct, g.ints`lr, g.ints`owner
    modifies g.gich`lr, g.gich`hcr, g.gicd`state
    modifies {g.cpuPriv[vcpu.id]}`currLrs, {g.cpuPriv[vcpu.id]}`sgis, {g.cpuPriv[vcpu.id]}`pendList, {g.cpuPriv[vcpu.id]}`actList
    modifies g`outbox
    ensures g.Valid()
  {
    var i := 0;
    while i < 32
      invariant i <= 32 && g.Valid()
    {
      if BitGet(val, i as bv7) != 0 {
        g.SetPend(vcpu, first + i, on);
      }
      i := i + 1;
    }
  }

  /** The write loop of GICD_ISACTIVER (`on` true) and ICACTIVER (`on` false): `set_active` for every set bit. */
  method ActiveWrite(g: Vgic, vcpu: Vcpu, first: nat, val: bv64, on: bool)
    requires g.Valid() && g.IsVcpu(vcpu)
    modifies g.ints`inLr, g.ints`state, g.ints`inPend, g.ints`inAct, g.ints`lr, g.ints`owner
    modifies g.gich`lr, g.gich`hcr, g.gicd`state
    modifies {g.cpuPriv[vcpu.id]}`currLrs, {g.cpuPriv[vcpu.id]}`sgis, {g.cpuPriv[vcpu.id]}`pendList, {g.cpuPriv[vcpu.id]}`actList
    modifies g`outbox
    ensures g.Valid()
  {
    var i := 0;
    while i < 32
      invariant i <= 32 && g.Valid()
    {
      if BitGet(val, i as bv7) != 0 {
        g.SetActive(vcpu, first + i, on);
      }
      i := i + 1;
    }
  }

  // The accessors.  A refused access and a read leave the engine as it was.

  /** The enable read with its `set_gpr`: the trapped register gets the enable word. */
  method EnableRead(g: Vgic, cpu: Pcpu, vcpu: Vcpu, first: nat, idx: nat)
    requires g.Valid() && g.IsVcpu(vcpu) && first + 32 <= GicIntsMax && idx < |cpu.gprs|
    modifies cpu`gprs
    ensures g.Valid() && cpu.gprs == old(cpu.gprs)[idx := BitWord(Enables(g, vcpu, first, 32))]
  {
    var val := EnableWord(g, vcpu, first);
    cpu.SetGpr(idx, val);
  }

  /** The pending or active read with its `set_gpr`. */
  method StateRead(g: Vgic, cpu: Pcpu, vcpu: Vcpu, first: nat, mask: bv64, idx: nat)
    requires g.Valid() && g.IsVcpu(vcpu) && ResidentsOwned(g) && first + 32 <= GicIntsMax && idx < |cpu.gprs|
    modifies cpu`gprs
    ensures g.Valid() && cpu.gprs == old(cpu.gprs)[idx := BitWord(States(g, vcpu, first, 32, mask))]
  {
    var val := StateWord(g, vcpu, first, mask);
    cpu.SetGpr(idx, val);
  }

  /** The ICFGR read with its `set_gpr`. */
  method CfgRead(g: Vgic, cpu: Pcpu, vcpu: Vcpu, first: nat, n: nat, idx: nat)
    requires g.Valid() && g.IsVcpu(vcpu) && n <= 32 && first + n <= GicIntsMax && idx < |cpu.gprs|
    modifies cpu`gprs
    ensures g.Valid() && cpu.gprs == old(cpu.gprs)[idx := PairWord(Cfgs(g, vcpu, first, n))]
  {
    var val := CfgWord(g, vcpu, first, n);
    cpu.SetGpr(idx, val);
  }

  /** The IPRIORITYR read with its `set_gpr`. */
  method PrioRead(g: Vgic, cpu: Pcpu, vcpu: Vcpu, first: nat, width: nat, idx: nat)
    requires g.Valid() && g.IsVcpu(vcpu) && width <= 8 && first + width <= GicIntsMax && idx < |cpu.gprs|
    modifies cpu`gprs
    ensures g.Valid() && cpu.gprs == old(cpu.gprs)[idx := ByteWord(Prios(g, vcpu, first, width))]
  {
    var val := PrioWord(g, vcpu, first, width);
    cpu.SetGpr(idx, val);
  }

  /**
   * A whole ITARGETSR value translated lane by lane: vCPU to core numbers
   * on a write (`v2p`), core to vCPU numbers on a read.
   */
  function TrgtMapped(vm: Vm, w: bv64, v2p: bool): bv64
    requires Translatable(vm, v2p)
  {
    Fold(Lanes(vm, Low32(w), v2p, GicTargetsMax), 4) as bv64
  }

  /** The translation of an ITARGETSR value as the accessor does it, on the low 32 bits. */
  method TrgtTranslate(vm: Vm, w: bv64, v2p: bool) returns (t: bv64)
    requires Translatable(vm, v2p)
    ensures t == TrgtMapped(vm, w, v2p)
  {
    var r := TargetTranslate(vm, Low32(w), v2p);
    t := r as bv64;
  }

  /** The ITARGETSR read with its `set_gpr`: the target bytes go back from core to vCPU numbers. */
  method TrgtRead(g: Vgic, cpu: Pcpu, vcpu: Vcpu, vm: Vm, first: nat, width: nat, idx: nat)
    requires g.Valid() && g.IsVcpu(vcpu) && width <= 8 && first + width <= GicIntsMax && idx < |cpu.gprs|
    requires Translatable(vm, false)
    modifies cpu`gprs
    ensures g.Valid() && cpu.gprs == old(cpu.gprs)[idx := TrgtMapped(vm, ByteWord(Trgts(g, vcpu, first, width)), false)]
  {
    var t := TrgtReport(g, vcpu, vm, first, width);
    cpu.SetGpr(idx, t);
  }

  /** The value an ITARGETSR read reports: the packed target bytes, translated to vCPU numbers. */
  method TrgtReport(g: Vgic, vcpu: Vcpu, vm: Vm, first: nat, width: nat) returns (t: bv64)
    requires g.Valid() && g.IsVcpu(vcpu) && width <= 8 && first + width <= GicIntsMax
    requires Translatable(vm, false)
    ensures t == TrgtMapped(vm, ByteWord(Trgts(g, vcpu, first, width)), false)
  {
    var val := TrgtWord(g, vcpu, first, width);
    t := TrgtTranslate(vm, val, false);
  }

  /** `emu_isenabler_access`: the gate covers reads and writes; a write enables the interrupts of the set bits. */
  method IsenablerAccess(g: Vgic, cpu: Pcpu, vcpu: Vcpu, vm: Vm, ctx: EmuContext)
    requires g.Valid() && g.IsVcpu(vcpu) && ctx.reg < |cpu.gprs|
    modifies g.ints`inLr, g.ints`state, g.ints`inPend, g.ints`inAct, g.ints`lr, g.ints`owner, g.ints`enabled
    modifies g.gich`lr, g.gich`hcr, g.gicd`state, g.gicd`enable
    modifies {g.cpuPriv[vcpu.id]}`currLrs, {g.cpuPriv[vcpu.id]}`sgis, {g.cpuPriv[vcpu.id]}`pendList, {g.cpuPriv[vcpu.id]}`actList
    modifies g`outbox, cpu`gprs
    ensures g.Valid()
    ensures Refused(vm, BitRegFirst(ctx.address), 32) ==> unchanged(g, g.ints, g.gich, g.gicd, g.cpuPriv[vcpu.id]) && cpu.gprs == old(cpu.gprs)
    ensures !Refused(vm, BitRegFirst(ctx.address), 32) && !ctx.write ==>
      unchanged(g, g.ints, g.gich, g.gicd, g.cpuPriv[vcpu.id]) && cpu.gprs == old(cpu.gprs)[ctx.reg := BitWord(Enables(g, vcpu, BitRegFirst(ctx.address), 32))]
    ensures !Refused(vm, BitRegFirst(ctx.address), 32) && ctx.write ==> cpu.gprs == old(cpu.gprs)
    ensures !Refused(vm, BitRegFirst(ctx.address), 32) && ctx.write ==>
      forall y :: y in g.ints && y.enabled != old(y.enabled) ==>
        BitRegFirst(ctx.address) <= y.id < BitRegFirst(ctx.address) + 32 && Bit(old(cpu.gprs[ctx.reg]), y.id - BitRegFirst(ctx.address)) && y.enabled
  {
    var first := BitRegFirst(ctx.address);
    var found := HasInterruptFlag(vm, first, 32);
    if first >= GicSgisNum && !found {
      return;
    }
    if ctx.write {
      EnableWrite(g, vcpu, first, cpu.GetGpr(ctx.reg), true);
    } else {
      EnableRead(g, cpu, vcpu, first, ctx.reg);
    }
  }

  /** `emu_icenabler_access`: the gate covers writes only; a write disables the interrupts of the set bits. */
  method IcenablerAccess(g: Vgic, cpu: Pcpu, vcpu: Vcpu, vm: Vm, ctx: EmuContext)
    requires g.Valid() && g.IsVcpu(vcpu) && ctx.reg < |cpu.gprs|
    modifies g.ints`inLr, g.ints`state, g.ints`inPend, g.ints`inAct, g.ints`lr, g.ints`owner, g.ints`enabled
    modifies g.gich`lr, g.gich`hcr, g.gicd`state, g.gicd`enable
    modifies {g.cpuPriv[vcpu.id]}`currLrs, {g.cpuPriv[vcpu.id]}`sgis, {g.cpuPriv[vcpu.id]}`pendList, {g.cpuPriv[vcpu.id]}`actList
    modifies g`outbox, cpu`gprs
    ensures g.Valid()
    ensures ctx.write && Refused(vm, BitRegFirst(ctx.address), 32) ==> unchanged(g, g.ints, g.gich, g.gicd, g.cpuPriv[vcpu.id]) && cpu.gprs == old(cpu.gprs)
    ensures !ctx.write ==>
      unchanged(g, g.ints, g.gich, g.gicd, g.cpuPriv[vcpu.id]) && cpu.gprs == old(cpu.gprs)[ctx.reg := BitWord(Enables(g, vcpu, BitRegFirst(ctx.address), 32))]
    ensures ctx.write && !Refused(vm, BitRegFirst(ctx.address), 32) ==> cpu.gprs == old(cpu.gprs)
    ensures ctx.write && !Refused(vm, BitRegFirst(ctx.address), 32) ==>
      forall y :: y in g.ints && y.enabled != old(y.enabled) ==>
        BitRegFirst(ctx.address) <= y.id < BitRegFirst(ctx.address) + 32 && Bit(old(cpu.gprs[ctx.reg]), y.id - BitRegFirst(ctx.address)) && !y.enabled
  {
    var first := BitRegFirst(ctx.address);
    if ctx.write {
      var found := HasInterruptFlag(vm, first, 32);
      if first >= GicSgisNum && !found {
        return;
      }
      EnableWrite(g, vcpu, first, cpu.GetGpr(ctx.reg), false);
    } else {
      EnableRead(g, cpu, vcpu, first, ctx.reg);
    }
  }

  /**
   * `emu_pendr_access`, for ISPENDR (`on` true) and ICPENDR (`on` false):
   * the gate looks at the first `width` ids only; a read reports bit 0 of
   * `vgic_get_state` for each of the 32 interrupts.
   */
  method PendrAccess(g: Vgic, cpu: Pcpu, vcpu: Vcpu, vm: Vm, ctx: EmuContext, on: bool)
    requires g.Valid() && g.IsVcpu(vcpu) && ctx.reg < |cpu.gprs|
    requires !ctx.write ==> ResidentsOwned(g)
    modifies g.ints`inLr, g.ints`state, g.ints`inPend, g.ints`inAct, g.ints`lr, g.ints`owner
    modifies g.gich`lr, g.gich`hcr, g.gicd`state
    modifies {g.cpuPriv[vcpu.id]}`currLrs, {g.cpuPriv[vcpu.id]}`sgis, {g.cpuPriv[vcpu.id]}`pendList, {g.cpuPriv[vcpu.id]}`actList
    modifies g`outbox, cpu`gprs
    ensures g.Valid()
    ensures Refused(vm, BitRegFirst(ctx.address), ctx.width) ==> unchanged(g, g.ints, g.gich, g.gicd, g.cpuPriv[vcpu.id]) && cpu.gprs == old(cpu.gprs)
    ensures !Refused(vm, BitRegFirst(ctx.address), ctx.width) && !ctx.write ==>
      unchanged(g, g.ints, g.gich, g.gicd, g.cpuPriv[vcpu.id]) && cpu.gprs == old(cpu.gprs)[ctx.reg := BitWord(States(g, vcpu, BitRegFirst(ctx.address), 32, 1))]
    ensures ctx.write ==> cpu.gprs == old(cpu.gprs)
  {
    var first := BitRegFirst(ctx.address);
    var found := HasInterruptFlag(vm, first, ctx.width);
    if first >= GicSgisNum && !found {
      return;
    }
    if ctx.write {
      PendWrite(g, vcpu, first, cpu.GetGpr(ctx.reg), on);
    } else {
      StateRead(g, cpu, vcpu, first, 1, ctx.reg);
    }
  }

  /**
   * `emu_activer_access`, for ISACTIVER (`on` true) and ICACTIVER (`on`
   * false): a read reports bit 1 of `vgic_get_state` for each interrupt.
   */
  method ActiverAccess(g: Vgic, cpu: Pcpu, vcpu: Vcpu, vm: Vm, ctx: EmuContext, on: bool)
    requires g.Valid() && g.IsVcpu(vcpu) && ctx.reg < |cpu.gprs|
    requires !ctx.write ==> ResidentsOwned(g)
    modifies g.ints`inLr, g.ints`state, g.ints`inPend, g.ints`inAct, g.ints`lr, g.ints`owner
    modifies g.gich`lr, g.gich`hcr, g.gicd`state
    modifies {g.cpuPriv[vcpu.id]}`currLrs, {g.cpuPriv[vcpu.id]}`sgis, {g.cpuPriv[vcpu.id]}`pendList, {g.cpuPriv[vcpu.id]}`actList
    modifies g`outbox, cpu`gprs
    ensures g.Valid()
    ensures Refused(vm, BitRegFirst(ctx.address), 32) ==> unchanged(g, g.ints, g.gich, g.gicd, g.cpuPriv[vcpu.id]) && cpu.gprs == old(cpu.gprs)
    ensures !Refused(vm, BitRegFirst(ctx.address), 32) && !ctx.write ==>
      unchanged(g, g.ints, g.gich, g.gicd, g.cpuPriv[vcpu.id]) && cpu.gprs == old(cpu.gprs)[ctx.reg := BitWord(States(g, vcpu, BitRegFirst(ctx.address), 32, 2))]
    ensures ctx.write ==> cpu.gprs == old(cpu.gprs)
  {
    var first := BitRegFirst(ctx.address);
    var found := HasInterruptFlag(vm, first, 32);
    if first >= GicSgisNum && !found {
      return;
    }
    if ctx.write {
      ActiveWrite(g, vcpu, first, cpu.GetGpr(ctx.reg), on);
    } else {
      StateRead(g, cpu, vcpu, first, 2, ctx.reg);
    }
  }

  /** The configuration fields an ICFGR access covers: `4 width` of them from its first interrupt. */
  function IcfgrFields(g: Vgic, vcpu: Vcpu, ctx: EmuContext): (r: seq<U8>)
    requires g.Valid() && g.IsVcpu(vcpu) && ctx.width <= 8 && 0xc00 <= Offset(ctx) < 0xc80
    reads g.banks, g.ints, g.gich
    ensures |r| == 4 * ctx.width
  {
    IcfgrFirstIs(ctx);
    Cfgs(g, vcpu, IcfgrFirst(ctx.address), 4 * ctx.width)
  }

  /**
   * `emu_icfgr_access`: word `n` of GICD_ICFGR holds the two-bit fields of
   * `4 width` interrupts from `16 n`; the gate covers writes only and looks
   * at `8 width` ids.
   */
  method IcfgrAccess(g: Vgic, cpu: Pcpu, vcpu: Vcpu, vm: Vm, ctx: EmuContext)
    requires g.Valid() && g.IsVcpu(vcpu) && ctx.reg < |cpu.gprs| && ctx.width <= 8
    requires 0xc00 <= Offset(ctx) < 0xc80
    modifies g.ints`owner, g.ints`cfg, g.gicd`cfg, g`outbox, cpu`gprs
    ensures g.Valid()
    ensures ctx.write && Refused(vm, IcfgrFirst(ctx.address), 8 * ctx.width) ==> unchanged(g, g.ints, g.gich, g.gicd, g.cpuPriv[vcpu.id]) && cpu.gprs == old(cpu.gprs)
    ensures !ctx.write ==>
      unchanged(g, g.ints, g.gich, g.gicd, g.cpuPriv[vcpu.id]) && cpu.gprs == old(cpu.gprs)[ctx.reg := PairWord(IcfgrFields(g, vcpu, ctx))]
    ensures ctx.write ==> cpu.gprs == old(cpu.gprs)
    ensures ctx.write && !Refused(vm, IcfgrFirst(ctx.address), 8 * ctx.width) ==>
      forall y :: y in g.ints && y.cfg != old(y.cfg) ==>
        IcfgrFirst(ctx.address) <= y.id < IcfgrFirst(ctx.address) + 4 * ctx.width
        && y.cfg == PairLane(old(cpu.gprs[ctx.reg]), y.id - IcfgrFirst(ctx.address))
  {
    var first := IcfgrFirst(ctx.address);
    IcfgrFirstIs(ctx);
    if ctx.write {
      var found := HasInterruptFlag(vm, first, 8 * ctx.width);
      if first >= GicSgisNum && !found {
        return;
      }
      CfgWrite(g, vcpu, first, 4 * ctx.width, cpu.GetGpr(ctx.reg));
    } else {
      CfgRead(g, cpu, vcpu, first, 4 * ctx.width, ctx.reg);
      assert Cfgs(g, vcpu, first, 4 * ctx.width) == IcfgrFields(g, vcpu, ctx);
    }
  }

  /** The send loop of an SGIR write: core `i` of the list, for `i` below 8, gets the message. */
  method SendSgis(g: Vgic, list: bv64, m: IpiInitcMessage)
    requires g.Valid()
    modifies g`outbox
    ensures g.Valid() && g.outbox == old(g.outbox) + SgiSends(list, m, GicTargetsMax)
  {
    var i := 0;
    while i < GicTargetsMax
      invariant i <= GicTargetsMax && g.Valid() && g.outbox == old(g.outbox) + SgiSends(list, m, i)
    {
      TestSingle(list, i);
      if list & Single(i) != 0 {
        g.Post(Send(i, m));
      }
      i := i + 1;
    }
  }

  /**
   * `emu_sgiregs_access`: only a write to GICD_SGIR itself acts; it sends
   * the SGI to the cores its target list names.  A read, and any access to
   * CPENDSGIR/SPENDSGIR, does nothing.  `ncpu` stands for what
   * `active_vm_ncpu()` returns.
   */
  method SgiregsAccess(g: Vgic, cpu: Pcpu, vcpu: Vcpu, vm: Vm, ctx: EmuContext, ncpu: bv64)
    requires g.Valid() && ctx.reg < |cpu.gprs|
    requires ctx.write && Offset(ctx) == 0xf00 ==> SgirListable(vm, cpu.id, cpu.gprs[ctx.reg])
    modifies g`outbox
    ensures g.Valid()
    ensures ctx.write && Offset(ctx) == 0xf00 ==> g.outbox == old(g.outbox) + SgirSends(vm, vcpu.id, cpu.id, ncpu, cpu.gprs[ctx.reg])
    ensures !(ctx.write && Offset(ctx) == 0xf00) ==> g.outbox == old(g.outbox)
  {
    if Offset(ctx) == 0xf00 && ctx.write {
      var val := cpu.GetGpr(ctx.reg);
      var list := SgirList(vm, cpu.id, ncpu, val);
      if list.Some? {
        SendSgis(g, list.value, SgiMessage(vm.id, vcpu.id, val));
      }
    }
  }

  /** The target list of an SGIR write, by its filter field; `None` for filter 3, which returns early. */
  method SgirList(vm: Vm, cpuId: nat, ncpu: bv64, val: bv64) returns (list: Option<bv64>)
    requires SgirListable(vm, cpuId, val)
    ensures list == SgirTargetList(vm, cpuId, ncpu, val)
  {
    var f := SgirFilter(val);
    if f == 0 {
      var t := TargetTranslate(vm, Low32(BitExtract(val, 16, 8)), true);
      list := Some(t as bv64);
    } else if f == 1 {
      list := Some(ncpu & !Single(cpuId));
    } else if f == 2 {
      list := Some(Single(cpuId));
    } else {
      list := None;
    }
  }

  /** `emu_ipriorityr_access`: byte `k` of the access is the priority of interrupt `first + k`; the gate covers writes only. */
  method IpriorityrAccess(g: Vgic, cpu: Pcpu, vcpu: Vcpu, vm: Vm, ctx: EmuContext)
    requires g.Valid() && g.IsVcpu(vcpu) && ctx.reg < |cpu.gprs| && ctx.width <= 8
    requires !ctx.write ==> ByteRegFirst(ctx.address) + ctx.width <= GicIntsMax
    modifies g.ints`inLr, g.ints`state, g.ints`inPend, g.ints`inAct, g.ints`lr, g.ints`owner, g.ints`prio
    modifies g.gich`lr, g.gich`hcr, g.gicd`state, g.gicd`prio
    modifies {g.cpuPriv[vcpu.id]}`currLrs, {g.cpuPriv[vcpu.id]}`sgis, {g.cpuPriv[vcpu.id]}`pendList, {g.cpuPriv[vcpu.id]}`actList
    modifies g`outbox, cpu`gprs
    ensures g.Valid()
    ensures ctx.write && Refused(vm, ByteRegFirst(ctx.address), ctx.width) ==> unchanged(g, g.ints, g.gich, g.gicd, g.cpuPriv[vcpu.id]) && cpu.gprs == old(cpu.gprs)
    ensures !ctx.write ==>
      unchanged(g, g.ints, g.gich, g.gicd, g.cpuPriv[vcpu.id]) && cpu.gprs == old(cpu.gprs)[ctx.reg := ByteWord(Prios(g, vcpu, ByteRegFirst(ctx.address), ctx.width))]
    ensures ctx.write ==> cpu.gprs == old(cpu.gprs)
    ensures ctx.write && !Refused(vm, ByteRegFirst(ctx.address), ctx.width) ==>
      forall y :: y in g.ints && y.prio != old(y.prio) ==>
        ByteRegFirst(ctx.address) <= y.id < ByteRegFirst(ctx.address) + ctx.width
        && y.prio == PrioField(ByteLane(old(cpu.gprs[ctx.reg]), y.id - ByteRegFirst(ctx.address)))
  {
    var first := ByteRegFirst(ctx.address);
    if ctx.write {
      var found := HasInterruptFlag(vm, first, ctx.width);
      if first >= GicSgisNum && !found {
        return;
      }
      PrioWrite(g, vcpu, first, ctx.width, cpu.GetGpr(ctx.reg));
    } else {
      PrioRead(g, cpu, vcpu, first, ctx.width, ctx.reg);
    }
  }

  /**
   * `emu_itargetr_access`: byte `k` of the access is the target byte of
   * interrupt `first + k`, translated between vCPU and core numbers; there
   * is no gate.
   */
  method ItargetrAccess(g: Vgic, cpu: Pcpu, vcpu: Vcpu, vm: Vm, ctx: EmuContext)
    requires g.Valid() && g.IsVcpu(vcpu) && ctx.reg < |cpu.gprs| && ctx.width <= 8
    requires Translatable(vm, ctx.write)
    requires !ctx.write ==> ByteRegFirst(ctx.address) + ctx.width <= GicIntsMax
    modifies g.ints`inLr, g.ints`state, g.ints`inPend, g.ints`inAct, g.ints`lr, g.ints`owner, g.ints`targets
    modifies g.gich`lr, g.gich`hcr, g.gicd`state, g.gicd`trgt
    modifies {g.cpuPriv[vcpu.id]}`currLrs, {g.cpuPriv[vcpu.id]}`sgis, {g.cpuPriv[vcpu.id]}`pendList, {g.cpuPriv[vcpu.id]}`actList
    modifies g`outbox, cpu`gprs
    ensures g.Valid()
    ensures !ctx.write ==>
      unchanged(g, g.ints, g.gich, g.gicd, g.cpuPriv[vcpu.id]) && cpu.gprs == old(cpu.gprs)[ctx.reg :=
        TrgtMapped(vm, ByteWord(Trgts(g, vcpu, ByteRegFirst(ctx.address), ctx.width)), false)]
    ensures ctx.write ==> cpu.gprs == old(cpu.gprs)
    ensures ctx.write ==>
      forall y :: y in g.ints && y.targets != old(y.targets) ==>
        ByteRegFirst(ctx.address) <= y.id < ByteRegFirst(ctx.address) + ctx.width
        && y.targets == ByteLane(TrgtMapped(vm, old(cpu.gprs[ctx.reg]), true), y.id - ByteRegFirst(ctx.address))
  {
    var first := ByteRegFirst(ctx.address);
    if ctx.write {
      var t := TrgtTranslate(vm, cpu.GetGpr(ctx.reg), true);
      TrgtWrite(g, vcpu, first, ctx.width, t);
    } else {
      TrgtRead(g, cpu, vcpu, vm, first, ctx.width, ctx.reg);
    }
  }

  /**
   * `emu_ctrl_access`: a write keeps bit 0 of the value; when that changes
   * CTLR, this core's HCR.En follows and the change is broadcast as a
   * `VgicdGichEn` message.  A read reports CTLR.
   */
  method CtlrAccess(g: Vgic, cpu: Pcpu, vm: Vm, ctx: EmuContext)
    requires g.Valid() && ctx.reg < |cpu.gprs|
    modifies g`ctlr, g.gich`hcr, g`outbox, cpu`gprs
    ensures g.Valid()
    ensures ctx.write ==> g.ctlr == CtlrWritten(old(cpu.gprs[ctx.reg])) && cpu.gprs == old(cpu.gprs)
    ensures ctx.write && g.ctlr != old(g.ctlr) ==>
      g.gich.hcr == GichEnHcr(old(g.gich.hcr), g.ctlr != 0) && g.outbox == old(g.outbox) + [Broadcast(CtlrMessage(vm.id, g.ctlr != 0))]
    ensures ctx.write && g.ctlr == old(g.ctlr) ==> g.gich.hcr == old(g.gich.hcr) && g.outbox == old(g.outbox)
    ensures !ctx.write ==>
      g.ctlr == old(g.ctlr) && g.gich.hcr == old(g.gich.hcr) && g.outbox == old(g.outbox) && cpu.gprs == old(cpu.gprs)[ctx.reg := g.ctlr as bv64]
  {
    if ctx.write {
      CtlrWrite(g, vm, cpu.GetGpr(ctx.reg));
    } else {
      cpu.SetGpr(ctx.reg, g.ctlr as bv64);
    }
  }

  /** The write half of `emu_ctrl_access`. */
  method CtlrWrite(g: Vgic, vm: Vm, val: bv64)
    requires g.Valid()
    modifies g`ctlr, g.gich`hcr, g`outbox
    ensures g.Valid() && g.ctlr == CtlrWritten(val)
    ensures g.ctlr != old(g.ctlr) ==>
      g.gich.hcr == GichEnHcr(old(g.gich.hcr), g.ctlr != 0) && g.outbox == old(g.outbox) + [Broadcast(CtlrMessage(vm.id, g.ctlr != 0))]
    ensures g.ctlr == old(g.ctlr) ==> g.gich.hcr == old(g.gich.hcr) && g.outbox == old(g.outbox)
  {
    var prev := g.ctlr;
    var c := CtlrWritten(val);
    g.StoreCtlr(c);
    if prev ^ c != 0 {
      var enable := c != 0;
      SwitchGich(g, enable);
      g.Post(Broadcast(CtlrMessage(vm.id, enable)));
    }
  }

  /** `emu_typer_access`: a read reports TYPER; a write is ignored. */
  method TyperAccess(g: Vgic, cpu: Pcpu, ctx: EmuContext)
    requires ctx.reg < |cpu.gprs|
    modifies cpu`gprs
    ensures cpu.gprs == if ctx.write then old(cpu.gprs) else old(cpu.gprs)[ctx.reg := g.typer as bv64]
  {
    if !ctx.write {
      cpu.SetGpr(ctx.reg, g.typer as bv64);
    }
  }

  /** `emu_iidr_access`: a read reports IIDR; a write is ignored. */
  method IidrAccess(g: Vgic, cpu: Pcpu, ctx: EmuContext)
    requires ctx.reg < |cpu.gprs|
    modifies cpu`gprs
    ensures cpu.gprs == if ctx.write then old(cpu.gprs) else old(cpu.gprs)[ctx.reg := g.iidr as bv64]
  {
    if !ctx.write {
      cpu.SetGpr(ctx.reg, g.iidr as bv64);
    }
  }

  // The dispatcher.

  /** What a read of each register needs of the engine and the VM, where the source would otherwise panic. */
  ghost predicate ReadReady(g: Vgic, vm: Vm, ctx: EmuContext)
    reads g.ints
  {
    var reg := RegOf(Offset(ctx));
    (reg == Ispendr || reg == Icpendr || reg == Isactiver || reg == Icactiver ==> ResidentsOwned(g))
    && (reg == Icfgr ==> ctx.width <= 8)
    && (reg == Ipriorityr || reg == Itargetsr ==> ctx.width <= 8 && ByteRegFirst(ctx.address) + ctx.width <= GicIntsMax)
    && (reg == Itargetsr ==> Translatable(vm, false))
  }

  /** What a write of value `val` needs, on the same terms. */
  predicate WriteReady(vm: Vm, cpuId: nat, val: bv64, ctx: EmuContext)
  {
    var reg := RegOf(Offset(ctx));
    (reg == Icfgr ==> ctx.width <= 8)
    && (reg == Ipriorityr || reg == Itargetsr ==> ctx.width <= 8)
    && (reg == Itargetsr ==> Translatable(vm, true))
    && (reg == Sgir && Offset(ctx) == 0xf00 ==> SgirListable(vm, cpuId, val))
  }

  /** A trapped access the handler can serve: the register index exists, and a valid access is ready. */
  ghost predicate HandlerReady(g: Vgic, cpu: Pcpu, vm: Vm, ctx: EmuContext)
    reads g.ints, cpu
  {
    ctx.reg < |cpu.gprs|
    && (AccessIsValid(ctx) && !ctx.write ==> ReadReady(g, vm, ctx))
    && (AccessIsValid(ctx) && ctx.write ==> WriteReady(vm, cpu.id, cpu.gprs[ctx.reg], ctx))
  }

  /**
   * The value a valid read reports, by register, or `None` where the read
   * leaves the register as it was: a gated one-bit register naming none of
   * the VM's interrupts, and the SGIR block.  An unmapped offset reads 0.
   */
  ghost function Reported(g: Vgic, vcpu: Vcpu, vm: Vm, ctx: EmuContext): Option<bv64>
    requires g.Valid() && g.IsVcpu(vcpu) && ReadReady(g, vm, ctx)
    reads g, g.banks, g.ints, g.gich
  {
    match RegOf(Offset(ctx))
    case Ctlr => DefaultReported(g, vcpu, vm, ctx)
    case Typer => DefaultReported(g, vcpu, vm, ctx)
    case Iidr => DefaultReported(g, vcpu, vm, ctx)
    case Isenabler => EnablerReported(g, vcpu, vm, ctx)
    case Icenabler => EnablerReported(g, vcpu, vm, ctx)
    case Ispendr => StateReported(g, vcpu, vm, ctx)
    case Icpendr => StateReported(g, vcpu, vm, ctx)
    case Isactiver => StateReported(g, vcpu, vm, ctx)
    case Icactiver => StateReported(g, vcpu, vm, ctx)
    case Icfgr =>
      RegOfRanges(Offset(ctx));
      Some(PairWord(IcfgrFields(g, vcpu, ctx)))
    case Sgir => None
    case Ipriorityr => DefaultReported(g, vcpu, vm, ctx)
    case Itargetsr => DefaultReported(g, vcpu, vm, ctx)
    case Unmapped => DefaultReported(g, vcpu, vm, ctx)
  }

  /** In the default arm `Reported` is `DefaultReported`. */
  lemma ReportedDefault(g: Vgic, vcpu: Vcpu, vm: Vm, ctx: EmuContext)
    requires g.Valid() && g.IsVcpu(vcpu) && ReadReady(g, vm, ctx)
    requires RegOf(Offset(ctx)) in {Ctlr, Typer, Iidr, Ipriorityr, Itargetsr, Unmapped}
    ensures Reported(g, vcpu, vm, ctx) == DefaultReported(g, vcpu, vm, ctx)
  {
  }

  /** A read in the default arm: the priority bytes, the translated target bytes, or CTLR, TYPER, IIDR and 0. */
  ghost function DefaultReported(g: Vgic, vcpu: Vcpu, vm: Vm, ctx: EmuContext): Option<bv64>
    requires g.Valid() && g.IsVcpu(vcpu) && ReadReady(g, vm, ctx)
    reads g, g.banks, g.ints, g.gich
  {
    var off := Offset(ctx);
    RegOfRanges(off);
    if 0x400 <= off < 0x800 then Some(ByteWord(Prios(g, vcpu, ByteRegFirst(ctx.address), ctx.width)))
    else if 0x800 <= off < 0xc00 then Some(TrgtMapped(vm, ByteWord(Trgts(g, vcpu, ByteRegFirst(ctx.address), ctx.width)), false))
    else Some(IdValue(g, off))
  }

  /** CTLR, TYPER and IIDR at offsets 0, 4 and 8, and 0 at every other offset. */
  function IdValue(g: Vgic, off: nat): bv64
    reads g
  {
    if off == 0 then g.ctlr as bv64 else if off == 4 then g.typer as bv64 else if off == 8 then g.iidr as bv64 else 0
  }

  /** A read of ISENABLER, gated, or of ICENABLER, which is not. */
  ghost function EnablerReported(g: Vgic, vcpu: Vcpu, vm: Vm, ctx: EmuContext): Option<bv64>
    requires g.Valid() && g.IsVcpu(vcpu)
    reads g, g.banks, g.ints, g.gich
  {
    var first := BitRegFirst(ctx.address);
    if Prefix(Offset(ctx)) == PrefixIsenabler && Refused(vm, first, 32) then None
    else Some(BitWord(Enables(g, vcpu, first, 32)))
  }

  /** A read of the pending (gated over the access width) or active (gated over 32) registers. */
  ghost function StateReported(g: Vgic, vcpu: Vcpu, vm: Vm, ctx: EmuContext): Option<bv64>
    requires g.Valid() && g.IsVcpu(vcpu) && ResidentsOwned(g)
    reads g, g.banks, g.ints, g.gich
  {
    var first := BitRegFirst(ctx.address);
    var pend := Prefix(Offset(ctx)) == PrefixIspendr || Prefix(Offset(ctx)) == PrefixIcpendr;
    if Refused(vm, first, if pend then ctx.width else 32) then None
    else Some(BitWord(States(g, vcpu, first, 32, if pend then 1 else 2)))
  }


  /** The registers after a read that reports `v` into register `reg`, or leaves them as they were. */
  function Answer(gprs: seq<bv64>, reg: nat, v: Option<bv64>): (r: seq<bv64>)
    requires reg < |gprs|
    ensures |r| == |gprs| && forall i :: 0 <= i < |gprs| && i != reg ==> r[i] == gprs[i]
    ensures v.Some? ==> r[reg] == v.value
    ensures v.None? ==> r == gprs
  {
    if v.Some? then gprs[reg := v.value] else gprs
  }

  /**
   * `handler`: an access the validator refuses is answered `false` and
   * changes nothing; any other is dispatched by its 128-byte block, and in
   * the default arm by its offset.  A read changes only the register it
   * reads into, with the value `Reported` gives; a write leaves the
   * registers alone.
   */
  method Handler(g: Vgic, cpu: Pcpu, vcpu: Vcpu, vm: Vm, ctx: EmuContext, ncpu: bv64) returns (r: bool)
    requires g.Valid() && g.IsVcpu(vcpu) && HandlerReady(g, cpu, vm, ctx)
    modifies g.ints`inLr, g.ints`state, g.ints`inPend, g.ints`inAct, g.ints`lr, g.ints`owner
    modifies g.ints`enabled, g.ints`prio, g.ints`targets, g.ints`cfg
    modifies g.gich`lr, g.gich`hcr, g.gicd`state, g.gicd`enable, g.gicd`prio, g.gicd`trgt, g.gicd`cfg
    modifies {g.cpuPriv[vcpu.id]}`currLrs, {g.cpuPriv[vcpu.id]}`sgis, {g.cpuPriv[vcpu.id]}`pendList, {g.cpuPriv[vcpu.id]}`actList
    modifies g`ctlr, g`outbox, cpu`gprs
    ensures g.Valid() && r == AccessIsValid(ctx)
    ensures !r ==> unchanged(g, g.ints, g.gich, g.gicd, g.cpuPriv[vcpu.id]) && cpu.gprs == old(cpu.gprs)
    ensures r && !ctx.write ==> unchanged(g, g.ints, g.gich, g.gicd, g.cpuPriv[vcpu.id])
    ensures r && !ctx.write ==> cpu.gprs == Answer(old(cpu.gprs), ctx.reg, Reported(g, vcpu, vm, ctx))
    ensures ctx.write ==> cpu.gprs == old(cpu.gprs)
  {
    if !AccessIsValid(ctx) {
      return false;
    }
    var p := Prefix(Offset(ctx));
    RegOfRanges(Offset(ctx));
    if PrefixIsenabler <= p <= PrefixIcactiver {
      OneBitAccess(g, cpu, vcpu, vm, ctx);
    } else if p == PrefixIcfgr || p == PrefixSgir {
      BlockAccess(g, cpu, vcpu, vm, ctx, ncpu);
    } else {
      DefaultAccess(g, cpu, vcpu, vm, ctx);
      if !ctx.write {
        ReportedDefault(g, vcpu, vm, ctx);
      }
    }
    r := true;
  }

  /** The arms of `handler` for the six one-bit register arrays, blocks 2 to 7. */
  method OneBitAccess(g: Vgic, cpu: Pcpu, vcpu: Vcpu, vm: Vm, ctx: EmuContext)
    requires g.Valid() && g.IsVcpu(vcpu) && ctx.reg < |cpu.gprs|
    requires PrefixIsenabler <= Prefix(Offset(ctx)) <= PrefixIcactiver
    requires !ctx.write ==> ReadReady(g, vm, ctx)
    modifies g.ints`inLr, g.ints`state, g.ints`inPend, g.ints`inAct, g.ints`lr, g.ints`owner
    modifies g.ints`enabled, g.ints`prio, g.ints`targets, g.ints`cfg
    modifies g.gich`lr, g.gich`hcr, g.gicd`state, g.gicd`enable, g.gicd`prio, g.gicd`trgt, g.gicd`cfg
    modifies {g.cpuPriv[vcpu.id]}`currLrs, {g.cpuPriv[vcpu.id]}`sgis, {g.cpuPriv[vcpu.id]}`pendList, {g.cpuPriv[vcpu.id]}`actList
    modifies g`ctlr, g`outbox, cpu`gprs
    ensures g.Valid()
    ensures !ctx.write ==> unchanged(g, g.ints, g.gich, g.gicd, g.cpuPriv[vcpu.id])
    ensures !ctx.write ==>
      cpu.gprs == Answer(old(cpu.gprs), ctx.reg, Reported(g, vcpu, vm, ctx))
    ensures ctx.write ==> cpu.gprs == old(cpu.gprs)
  {
    var p := Prefix(Offset(ctx));
    if p <= PrefixIcenabler {
      EnablerAccess(g, cpu, vcpu, vm, ctx);
    } else {
      StateAccess(g, cpu, vcpu, vm, ctx);
    }
  }

  /** The ISENABLER and ICENABLER arms. */
  method EnablerAccess(g: Vgic, cpu: Pcpu, vcpu: Vcpu, vm: Vm, ctx: EmuContext)
    requires g.Valid() && g.IsVcpu(vcpu) && ctx.reg < |cpu.gprs|
    requires Prefix(Offset(ctx)) == PrefixIsenabler || Prefix(Offset(ctx)) == PrefixIcenabler
    modifies g.ints`inLr, g.ints`state, g.ints`inPend, g.ints`inAct, g.ints`lr, g.ints`owner, g.ints`enabled
    modifies g.gich`lr, g.gich`hcr, g.gicd`state, g.gicd`enable
    modifies {g.cpuPriv[vcpu.id]}`currLrs, {g.cpuPriv[vcpu.id]}`sgis, {g.cpuPriv[vcpu.id]}`pendList, {g.cpuPriv[vcpu.id]}`actList
    modifies g`outbox, cpu`gprs
    ensures g.Valid()
    ensures !ctx.write ==> unchanged(g, g.ints, g.gich, g.gicd, g.cpuPriv[vcpu.id])
    ensures !ctx.write ==>
      cpu.gprs == Answer(old(cpu.gprs), ctx.reg, EnablerReported(g, vcpu, vm, ctx))
    ensures ctx.write ==> cpu.gprs == old(cpu.gprs)
  {
    if Prefix(Offset(ctx)) == PrefixIsenabler {
      IsenablerAccess(g, cpu, vcpu, vm, ctx);
    } else {
      IcenablerAccess(g, cpu, vcpu, vm, ctx);
    }
  }

  /** The ISPENDR, ICPENDR, ISACTIVER and ICACTIVER arms. */
  method StateAccess(g: Vgic, cpu: Pcpu, vcpu: Vcpu, vm: Vm, ctx: EmuContext)
    requires g.Valid() && g.IsVcpu(vcpu) && ctx.reg < |cpu.gprs|
    requires PrefixIspendr <= Prefix(Offset(ctx)) <= PrefixIcactiver
    requires !ctx.write ==> ResidentsOwned(g)
    modifies g.ints`inLr, g.ints`state, g.ints`inPend, g.ints`inAct, g.ints`lr, g.ints`owner
    modifies g.gich`lr, g.gich`hcr, g.gicd`state
    modifies {g.cpuPriv[vcpu.id]}`currLrs, {g.cpuPriv[vcpu.id]}`sgis, {g.cpuPriv[vcpu.id]}`pendList, {g.cpuPriv[vcpu.id]}`actList
    modifies g`outbox, cpu`gprs
    ensures g.Valid()
    ensures !ctx.write ==> unchanged(g, g.ints, g.gich, g.gicd, g.cpuPriv[vcpu.id])
    ensures !ctx.write ==>
      cpu.gprs == Answer(old(cpu.gprs), ctx.reg, StateReported(g, vcpu, vm, ctx))
    ensures ctx.write ==> cpu.gprs == old(cpu.gprs)
  {
    var p := Prefix(Offset(ctx));
    if p == PrefixIspendr {
      PendrAccess(g, cpu, vcpu, vm, ctx, true);
    } else if p == PrefixIsactiver {
      ActiverAccess(g, cpu, vcpu, vm, ctx, true);
    } else if p == PrefixIcpendr {
      PendrAccess(g, cpu, vcpu, vm, ctx, false);
    } else {
      ActiverAccess(g, cpu, vcpu, vm, ctx, false);
    }
  }

  /** The GICD_ICFGR and SGIR block arms of `handler`. */
  method BlockAccess(g: Vgic, cpu: Pcpu, vcpu: Vcpu, vm: Vm, ctx: EmuContext, ncpu: bv64)
    requires g.Valid() && g.IsVcpu(vcpu) && ctx.reg < |cpu.gprs|
    requires Prefix(Offset(ctx)) == PrefixIcfgr || Prefix(Offset(ctx)) == PrefixSgir
    requires !ctx.write ==> ReadReady(g, vm, ctx)
    requires ctx.write ==> WriteReady(vm, cpu.id, cpu.gprs[ctx.reg], ctx)
    modifies g.ints`inLr, g.ints`state, g.ints`inPend, g.ints`inAct, g.ints`lr, g.ints`owner
    modifies g.ints`enabled, g.ints`prio, g.ints`targets, g.ints`cfg
    modifies g.gich`lr, g.gich`hcr, g.gicd`state, g.gicd`enable, g.gicd`prio, g.gicd`trgt, g.gicd`cfg
    modifies {g.cpuPriv[vcpu.id]}`currLrs, {g.cpuPriv[vcpu.id]}`sgis, {g.cpuPriv[vcpu.id]}`pendList, {g.cpuPriv[vcpu.id]}`actList
    modifies g`ctlr, g`outbox, cpu`gprs
    ensures g.Valid()
    ensures !ctx.write ==> unchanged(g, g.ints, g.gich, g.gicd, g.cpuPriv[vcpu.id])
    ensures !ctx.write ==>
      cpu.gprs == Answer(old(cpu.gprs), ctx.reg, Reported(g, vcpu, vm, ctx))
    ensures ctx.write ==> cpu.gprs == old(cpu.gprs)
  {
    var p := Prefix(Offset(ctx));
    RegOfRanges(Offset(ctx));
    if p == PrefixIcfgr {
      IcfgrAccess(g, cpu, vcpu, vm, ctx);
    } else {
      SgiregsAccess(g, cpu, vcpu, vm, ctx, ncpu);
    }
  }

  /**
   * The default arm of `handler`.  Its offsets tests are disjoint, so it
   * is taken here range by range: the priority and target arrays, and
   * the rest.
   */
  method DefaultAccess(g: Vgic, cpu: Pcpu, vcpu: Vcpu, vm: Vm, ctx: EmuContext)
    requires g.Valid() && g.IsVcpu(vcpu) && ctx.reg < |cpu.gprs|
    requires RegOf(Offset(ctx)) in {Ctlr, Typer, Iidr, Ipriorityr, Itargetsr, Unmapped}
    requires !ctx.write ==> ReadReady(g, vm, ctx)
    requires ctx.write ==> WriteReady(vm, cpu.id, cpu.gprs[ctx.reg], ctx)
    modifies g.ints`inLr, g.ints`state, g.ints`inPend, g.ints`inAct, g.ints`lr, g.ints`owner
    modifies g.ints`enabled, g.ints`prio, g.ints`targets, g.ints`cfg
    modifies g.gich`lr, g.gich`hcr, g.gicd`state, g.gicd`enable, g.gicd`prio, g.gicd`trgt, g.gicd`cfg
    modifies {g.cpuPriv[vcpu.id]}`currLrs, {g.cpuPriv[vcpu.id]}`sgis, {g.cpuPriv[vcpu.id]}`pendList, {g.cpuPriv[vcpu.id]}`actList
    modifies g`ctlr, g`outbox, cpu`gprs
    ensures g.Valid()
    ensures !ctx.write ==> unchanged(g, g.ints, g.gich, g.gicd, g.cpuPriv[vcpu.id])
    ensures !ctx.write ==>
      cpu.gprs == Answer(old(cpu.gprs), ctx.reg, DefaultReported(g, vcpu, vm, ctx))
    ensures ctx.write ==> cpu.gprs == old(cpu.gprs)
  {
    var off := Offset(ctx);
    RegOfRanges(off);
    if 0x400 <= off < 0xc00 {
      ByteArrayAccess(g, cpu, vcpu, vm, ctx);
    } else {
      IdAccess(g, cpu, vm, ctx);
    }
  }

  /**
   * CTLR, TYPER and IIDR at offsets 0, 4 and 8; a read of any other offset
   * of the default arm outside the byte arrays puts 0 in the register.
   */
  method IdAccess(g: Vgic, cpu: Pcpu, vm: Vm, ctx: EmuContext)
    requires g.Valid() && ctx.reg < |cpu.gprs| && !(0x400 <= Offset(ctx) < 0xc00)
    modifies g`ctlr, g.gich`hcr, g`outbox, cpu`gprs
    ensures g.Valid()
    ensures !ctx.write ==> unchanged(g, g.gich)
    ensures !ctx.write ==>
      cpu.gprs == old(cpu.gprs)[ctx.reg := IdValue(g, Offset(ctx))]
    ensures ctx.write ==> cpu.gprs == old(cpu.gprs)
  {
    var off := Offset(ctx);
    if off == 0 {
      CtlrAccess(g, cpu, vm, ctx);
    } else if off == 4 {
      TyperAccess(g, cpu, ctx);
    } else if off == 8 {
      IidrAccess(g, cpu, ctx);
    } else {
      ZeroRead(cpu, ctx);
    }
  }

  /** The priority and target arrays: a read first zeroes the register, as the default arm does for every offset but 0, 4 and 8. */
  method ByteArrayAccess(g: Vgic, cpu: Pcpu, vcpu: Vcpu, vm: Vm, ctx: EmuContext)
    requires g.Valid() && g.IsVcpu(vcpu) && ctx.reg < |cpu.gprs| && 0x400 <= Offset(ctx) < 0xc00
    requires !ctx.write ==> ReadReady(g, vm, ctx)
    requires ctx.write ==> WriteReady(vm, cpu.id, cpu.gprs[ctx.reg], ctx)
    modifies g.ints`inLr, g.ints`state, g.ints`inPend, g.ints`inAct, g.ints`lr, g.ints`owner
    modifies g.ints`enabled, g.ints`prio, g.ints`targets, g.ints`cfg
    modifies g.gich`lr, g.gich`hcr, g.gicd`state, g.gicd`enable, g.gicd`prio, g.gicd`trgt, g.gicd`cfg
    modifies {g.cpuPriv[vcpu.id]}`currLrs, {g.cpuPriv[vcpu.id]}`sgis, {g.cpuPriv[vcpu.id]}`pendList, {g.cpuPriv[vcpu.id]}`actList
    modifies g`ctlr, g`outbox, cpu`gprs
    ensures g.Valid()
    ensures !ctx.write ==> unchanged(g, g.ints, g.gich, g.gicd, g.cpuPriv[vcpu.id])
    ensures !ctx.write ==>
      cpu.gprs == Answer(old(cpu.gprs), ctx.reg, DefaultReported(g, vcpu, vm, ctx))
    ensures ctx.write ==> cpu.gprs == old(cpu.gprs)
  {
    var off := Offset(ctx);
    RegOfRanges(off);
    ZeroRead(cpu, ctx);
    if off < 0x800 {
      IpriorityrAccess(g, cpu, vcpu, vm, ctx);
    } else {
      ItargetrAccess(g, cpu, vcpu, vm, ctx);
    }
  }

  /** A read the default arm does not know puts 0 in the register. */
  method ZeroRead(cpu: Pcpu, ctx: EmuContext)
    requires ctx.reg < |cpu.gprs|
    modifies cpu`gprs
    ensures cpu.gprs == if ctx.write then old(cpu.gprs) else old(cpu.gprs)[ctx.reg := 0]
  {
    if !ctx.write {
      cpu.SetGpr(ctx.reg, 0);
    }
  }
}
