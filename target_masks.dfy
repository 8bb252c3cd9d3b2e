/**
 * Target masks: the loop of `set_trgt` (src/vgic.rs) that builds the
 * physical target byte, and `vgic_target_translate` (src/vigc.rs), which
 * translates the four target bytes of a GICD_ITARGETSR word between vCPU
 * numbering and physical-core numbering through the VM's vCPU list.
 */
module TargetMasks {
  import opened Utils
  import opened Consts
  import opened Fake

  /** Core number `i` as a shift amount. */
  function Pos(i: nat): (k: BitPos)
    requires i < 8
  {
    if i == 0 then 0 else if i == 1 then 1 else if i == 2 then 2 else if i == 3 then 3
    else if i == 4 then 4 else if i == 5 then 5 else if i == 6 then 6 else 7
  }

  /** The mask the copy loop of `set_trgt` holds after cores `0..n-1`. */
  function Copied(t: bv64, n: nat): bv64
    requires n <= 8
  {
    if n == 0 then 0
    else
      var p := Copied(t, n - 1);
      if BitGet(t, Pos(n - 1)) != 0 then BitSet(p, Pos(n - 1)) else p
  }

  /** Copying the 8 bits of a target byte one by one gives the byte back. */
  lemma CopiedByte(t: U8)
    ensures Copied(t, 8) == t
  {
    assert Copied(t, 0) == 0;
    var p1 := Copied(t, 1);
    var p2 := Copied(t, 2);
    var p3 := Copied(t, 3);
    var p4 := Copied(t, 4);
    var p5 := Copied(t, 5);
    var p6 := Copied(t, 6);
    var p7 := Copied(t, 7);
    assert p1 == t & 1;
    assert p2 == t & 3;
    assert p3 == t & 7;
    assert p4 == t & 0xf;
    assert p5 == t & 0x1f;
    assert p6 == t & 0x3f;
    assert p7 == t & 0x7f;
  }

  /**
   * The loop of `set_trgt` that builds the physical target mask: bit
   * `cpuid` of the request becomes bit `cpuid_to_cpuif(cpuid)`, which is
   * `cpuid` itself on this platform, for the 8 cores.  The mask is the
   * request unchanged.
   */
  method PhysTargets(trgt: U8) returns (ptrgt: U8)
    ensures ptrgt == trgt
  {
    var p: bv64 := 0;
    var cpuid: nat := 0;
    while cpuid < 8
      invariant cpuid <= 8
      invariant p == Copied(trgt, cpuid)
    {
      if BitGet(trgt, Pos(cpuid)) != 0 {
        p := BitSet(p, Pos(cpuid));
      }
      cpuid := cpuid + 1;
    }
    CopiedByte(trgt);
    ptrgt := p;
  }

  /** Byte `k` of a 32-bit word, least significant first (`to_le_bytes`). */
  function ByteOf(w: bv32, k: nat): (b: bv64)
    requires k < 4
    ensures b < 256
  {
    var s := if k == 0 then w else if k == 1 then w >> 8 else if k == 2 then w >> 16 else w >> 24;
    (s & 0xff) as bv64
  }

  /** `v << (8 * k)` on a 32-bit word: the bits pushed past bit 31 are lost. */
  function Lane(v: bv32, k: nat): bv32
    requires k < 4
  {
    if k == 0 then v else if k == 1 then v << 8 else if k == 2 then v << 16 else v << 24
  }

  /** The `as u32` cast: the low 32 bits. */
  function Low32(x: bv64): bv32
  {
    (x & 0xffff_ffff) as bv32
  }

  /** What the mask translations need of the VM in the chosen direction. */
  predicate Translatable(vm: Vm, v2p: bool)
  {
    if v2p then vm.PhysIdsBelow64() else vm.VcpuIdsBelow64()
  }

  /** The translation of one target byte: vCPU to core mask, or core to vCPU mask, over the first `len` positions. */
  function LaneMask(vm: Vm, b: bv64, v2p: bool, len: nat): bv64
    requires Translatable(vm, v2p) && len <= 64
  {
    if v2p then vm.VcpuToPcpuMaskOf(b, len) else vm.PcpuToVcpuMaskOf(b, len)
  }

  /** The translations of the four bytes of `trgt`, least significant first. */
  function Lanes(vm: Vm, trgt: bv32, v2p: bool, len: nat): (ls: seq<bv64>)
    requires Translatable(vm, v2p) && len <= 64
    ensures |ls| == 4
  {
    [LaneMask(vm, ByteOf(trgt, 0), v2p, len), LaneMask(vm, ByteOf(trgt, 1), v2p, len),
     LaneMask(vm, ByteOf(trgt, 2), v2p, len), LaneMask(vm, ByteOf(trgt, 3), v2p, len)]
  }

  /** The result after the first `n` lanes: each lane, cut to 32 bits, ORed in at its byte position. */
  function Fold(ls: seq<bv64>, n: nat): bv32
    requires n <= |ls| && n <= 4
  {
    if n == 0 then 0 else Fold(ls, n - 1) | Lane(Low32(ls[n - 1]), n - 1)
  }

  /** The translation of one byte, in the direction `v2p` chooses. */
  method TranslateByte(vm: Vm, b: bv64, v2p: bool) returns (val: bv64)
    requires Translatable(vm, v2p)
    ensures val == LaneMask(vm, b, v2p, GicTargetsMax)
  {
    if v2p {
      val := vm.VcpuToPcpuMask(b, GicTargetsMax);
    } else {
      val := vm.PcpuToVcpuMask(b, GicTargetsMax);
    }
  }

  /** `vgic_target_translate`: folds the four byte translations into the result. */
  method TargetTranslate(vm: Vm, trgt: bv32, v2p: bool) returns (r: bv32)
    requires Translatable(vm, v2p)
    ensures r == Fold(Lanes(vm, trgt, v2p, GicTargetsMax), 4)
  {
    ghost var ls := Lanes(vm, trgt, v2p, GicTargetsMax);
    r := 0;
    var idx := 0;
    while idx < 4
      invariant idx <= 4
      invariant r == Fold(ls, idx)
    {
      var val := TranslateByte(vm, ByteOf(trgt, idx), v2p);
      assert val == ls[idx];
      r := r | Lane(Low32(val), idx);
      idx := idx + 1;
    }
  }

  /** Every vCPU runs on one of the 8 cores a GICv2 target byte can name. */
  predicate PhysIdsBelow8(vm: Vm)
  {
    forall k :: 0 <= k < |vm.vcpuList| ==> vm.vcpuList[k].physId < GicTargetsMax
  }

  /** Every vCPU id fits in a target byte. */
  predicate VcpuIdsBelow8(vm: Vm)
  {
    forall k :: 0 <= k < |vm.vcpuList| ==> vm.vcpuList[k].id < GicTargetsMax
  }

  lemma SingleSmall(n: nat)
    requires n < 8
    ensures Single(n) < 256
  {
    if n == 0 {
    } else if n == 1 {
    } else if n == 2 {
    } else if n == 3 {
    } else if n == 4 {
    } else if n == 5 {
    } else if n == 6 {
    } else {
    }
  }

  /** With every vCPU on cores 0..7, a vCPU-to-core mask fits in a byte. */
  lemma {:induction false} PcpuMaskSmall(vm: Vm, mask: bv64, len: nat)
    requires len <= 64 && vm.PhysIdsBelow64() && PhysIdsBelow8(vm)
    ensures vm.VcpuToPcpuMaskOf(mask, len) < 256
  {
    if len > 0 {
      PcpuMaskSmall(vm, mask, len - 1);
      var r := vm.VcpuidToPcpuid(len - 1);
      if Bit(mask, len - 1) && r.Ok? {
        SingleSmall(r.value);
      }
    }
  }

  /** With every vCPU id below 8, a core-to-vCPU mask fits in a byte. */
  lemma {:induction false} VcpuMaskSmall(vm: Vm, mask: bv64, len: nat)
    requires len <= 64 && vm.VcpuIdsBelow64() && VcpuIdsBelow8(vm)
    ensures vm.PcpuToVcpuMaskOf(mask, len) < 256
  {
    if len > 0 {
      VcpuMaskSmall(vm, mask, len - 1);
      var r := vm.VcpuOnCore(len - 1);
      if Bit(mask, len - 1) && r.Ok? {
        SingleSmall(r.value);
      }
    }
  }

  /** Four lane values placed at their byte positions, as the loop ORs them in. */
  function Pack(a: bv64, b: bv64, c: bv64, d: bv64): bv32
  {
    0 | Lane(Low32(a), 0) | Lane(Low32(b), 1) | Lane(Low32(c), 2) | Lane(Low32(d), 3)
  }

  /** Four values below 256 placed at their byte positions read back byte by byte. */
  lemma PackBytes(a: bv64, b: bv64, c: bv64, d: bv64)
    requires a < 256 && b < 256 && c < 256 && d < 256
    ensures ByteOf(Pack(a, b, c, d), 0) == a && ByteOf(Pack(a, b, c, d), 1) == b
    ensures ByteOf(Pack(a, b, c, d), 2) == c && ByteOf(Pack(a, b, c, d), 3) == d
  {
  }

  /** The four rounds, lane by lane. */
  lemma FoldPack(ls: seq<bv64>)
    requires |ls| == 4
    ensures Fold(ls, 4) == Pack(ls[0], ls[1], ls[2], ls[3])
  {
    assert Fold(ls, 0) == 0;
    assert Fold(ls, 1) == 0 | Lane(Low32(ls[0]), 0);
    assert Fold(ls, 2) == 0 | Lane(Low32(ls[0]), 0) | Lane(Low32(ls[1]), 1);
    assert Fold(ls, 3) == 0 | Lane(Low32(ls[0]), 0) | Lane(Low32(ls[1]), 1) | Lane(Low32(ls[2]), 2);
  }

  /** Four lanes below 256 read back byte by byte from the folded word. */
  lemma FoldBytes(ls: seq<bv64>, k: nat)
    requires |ls| == 4 && k < 4
    requires forall i :: 0 <= i < 4 ==> ls[i] < 256
    ensures ByteOf(Fold(ls, 4), k) == ls[k]
  {
    FoldPack(ls);
    PackBytes(ls[0], ls[1], ls[2], ls[3]);
  }

  /**
   * When every translated id fits in a byte (the 8 CPUs a GICv2 target byte
   * can name), byte `k` of the result is the translation of byte `k` of the
   * input, for each of the four bytes.
   */
  lemma TranslateLanes(vm: Vm, trgt: bv32, v2p: bool, len: nat, k: nat)
    requires Translatable(vm, v2p) && len <= 64 && k < 4
    requires if v2p then PhysIdsBelow8(vm) else VcpuIdsBelow8(vm)
    ensures ByteOf(Fold(Lanes(vm, trgt, v2p, len), 4), k) == LaneMask(vm, ByteOf(trgt, k), v2p, len)
  {
    var ls := Lanes(vm, trgt, v2p, len);
    forall i | 0 <= i < 4
      ensures ls[i] < 256
    {
      LaneSmall(vm, ByteOf(trgt, i), v2p, len);
    }
    FoldBytes(ls, k);
  }

  /** One byte translation fits in a byte when every translated id is below 8. */
  lemma LaneSmall(vm: Vm, b: bv64, v2p: bool, len: nat)
    requires Translatable(vm, v2p) && len <= 64
    requires if v2p then PhysIdsBelow8(vm) else VcpuIdsBelow8(vm)
    ensures LaneMask(vm, b, v2p, len) < 256
  {
    if v2p {
      PcpuMaskSmall(vm, b, len);
    } else {
      VcpuMaskSmall(vm, b, len);
    }
  }
}
