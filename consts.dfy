/** Interrupt-space sizes and register-file constants of the virtual GIC (src/consts.rs). */
module Consts {
  const GicSgisNum: nat := 16
  const GicPpisNum: nat := 16
  const GicPrivintNum: nat := GicSgisNum + GicPpisNum
  const GicIntsMax: nat := 1024
  const GicSpiMax: nat := GicIntsMax - GicPrivintNum
  const GicListRegsNum: nat := 64

  /** HCR bit 2: maintenance interrupt when the list registers run empty. */
  const GichHcrLrenpieBit: bv32 := 1 << 2

  /** Register-block prefixes: bits 11:7 of the distributor offset. */
  const PrefixCtlr: nat := 0x0
  const PrefixIsenabler: nat := 0x2
  const PrefixIcenabler: nat := 0x3
  const PrefixIspendr: nat := 0x4
  const PrefixIcpendr: nat := 0x5
  const PrefixIsactiver: nat := 0x6
  const PrefixIcactiver: nat := 0x7
  const PrefixIcfgr: nat := 0x18
  const PrefixSgir: nat := 0x1e

  const GicTargetBits: nat := 8
  const GicTargetsMax: nat := GicTargetBits
  const GicPrioBits: nat := 8
  const GicConfigBits: nat := 2

  const GicdTyperCpunumMsk: bv64 := 0x1f
  const GicdTyperCpunumOff: bv7 := 5
}
