# Virtual GICv2 distributor of one VM, modelled in Dafny

This project models the interrupt engine that a hypervisor runs for each
guest VM. The engine emulates an ARM GICv2 distributor for the guest. It
places the guest's virtual interrupts into the list registers (LRs) of the
current core's GICv2 virtual interface.

The model is one sequential state machine, made of these parts:

- the per-interrupt object `VgicInt` and the per-vCPU private bank
  `VgicCpuPriv`;
- the list-register engine, which adds, removes and writes an LR and routes
  an interrupt;
- the guest-facing mutators: enable, pend, SGI pend, activate, priority,
  target, configuration and inject;
- the ownership helpers;
- the maintenance interrupt: trapped EOIs, LR refill and spilled-active EOIs;
- the replay of inter-core interrupt-controller messages;
- the MMIO access validator of the distributor page, and its dispatcher and
  register accessors;
- the leaf helpers: bit utilities, `bitmap_find_nth`, the interrupt-state
  encoding and vCPU/pCPU mask translation.

Objects whose fields the source changes in place are classes:

- `VgicInt`, `VgicCpuPriv` and `Vgic`;
- the virtual interface `GicHypervisorInterface`;
- the physical distributor `GicDistributor`;
- the current core `Pcpu`.

Vcpus, VMs, messages and trapped accesses are datatypes. The LR word layout
and the HCR and MISR bits follow section 5.3 of the ARM GIC Architecture
Specification v2 (IHI 0048B).

ELRSR and EISR are derived from the LR contents, as the hardware derives
them. Because of this, the maintenance loops provably terminate:

- The trapped-EOI loop shrinks the set of LRs waiting for an EOI.
- The refill loop shortens the waiting lists.

Neither loop needs a fuel bound.

Messages that the source would send to another core (its `ipi_send_msg` calls
are commented out) are recorded in the order they are built. They go in an
`outbox` sequence of the engine.

The id of the current core and the number of LRs are constants of the
virtual-interface object. The result of `active_vm_ncpu()` is a parameter.

Modules, one per file:

| file | module |
|---|---|
| `wrappers.dfy` | `Wrappers` |
| `consts.dfy` | `Consts` |
| `utils.dfy` | `Utils` |
| `fake.dfy` | `Fake` |
| `target_masks.dfy` | `TargetMasks` |
| `vint.dfy` | `Vint` |
| `vint_private.dfy` | `VintPrivate` |
| `gich.dfy` | `Gich` |
| `gicd.dfy` | `Gicd` |
| `vgic_lr.dfy` | `VgicLr` |
| `vgic.dfy` | `VgicCore` |
| `vgic_maintenance.dfy` | `VgicMaintenance` |
| `vgic_ipi.dfy` | `VgicIpi` |
| `reg_lanes.dfy` | `RegLanes` |
| `vgicd_layout.dfy` | `VgicdLayout` |
| `vgic_reg_access.dfy` | `VgicRegAccess` |

## Model

| member | source | states |
|---|---|---|
| Utils.BitExtract | src/utils/mod.rs:6-8 | the extracted field is below `2^len`; its value is stated by Utils.BitExtractValue |
| Utils.BitExtractValue | src/utils/mod.rs:6-8 | for every field length the engine extracts (1, 2, 5, 8, 9, 10 and 12 bits) and any offset, the field is `(bits >> off) mod 2^len` |
| Utils.BitExtractOne | src/utils/mod.rs:6-8 | a one-bit extract is 1 exactly when that bit is set, and 0 exactly when it is clear |
| Utils.BitGet | src/utils/mod.rs:11-13 | the result is 1 iff bit `off` is set and 0 iff it is clear, so it is always 0 or 1 |
| Utils.BitSet | src/utils/mod.rs:16-18 | bit `off` of the result is set |
| Utils.BitSetOthers | src/utils/mod.rs:16-18 | every other bit keeps its value |
| Utils.BitSetIdempotent | src/utils/mod.rs:16-18 | raising an already raised bit leaves the word as it is |
| Utils.BitmapFindNth | src/utils/mod.rs:21-40 | None when `start+size > 64`; a Some result lies in the window, has the wanted value, and is the `nth` match (`nth >= 1`); None within the window means `nth == 0` or fewer than `nth` matches exist |
| Utils.FindNthIsFirst | src/utils/mod.rs:26-37 | when the `nth` match is at position `i`, no earlier position in the window has reached `nth` matches |
| Utils.CountMonotone | src/utils/mod.rs:26-37 | the count of matches over prefixes of the window never decreases |
| Utils.CountZero | src/utils/mod.rs:30-39 | a window with no match holds no bit equal to the wanted value |
| Fake.ToNum | src/fake.rs:28-35 | bit 0 of the encoding is pending, bit 1 is active, and the value is below 4 |
| Fake.NumToState | src/fake.rs:18-26 | defined only for `n <= 3`, where the source panics above; `to_num` of the result is `n` |
| Fake.StateRoundTrip | src/fake.rs:18-35 | decoding an encoded state gives the state back |
| Fake.Vm.FirstOnCore | src/fake.rs:69-76 | the first vCPU position on core `p` from `from` on; None iff no vCPU there runs on `p` |
| Fake.Vm.PcpuidToVcpuid | src/fake.rs:69-76 | the loop answers the id of the first vCPU on the core, and Ok iff some vCPU runs there |
| Fake.Vm.VcpuCoreRoundTrip | src/fake.rs:65-76 | when ids are positions and no two vCPUs share a core, `vcpuid_to_pcpuid` of a vCPU succeeds and `pcpuid_to_vcpuid` of its core answers that vCPU |
| Fake.Vm.CoreVcpuRoundTrip | src/fake.rs:65-76 | when ids are positions, the vCPU that `pcpuid_to_vcpuid` answers for a core runs on that core by `vcpuid_to_pcpuid` |
| Fake.Vm.VcpuToPcpuMask | src/fake.rs:78-87 | the loop computes the reference mask `VcpuToPcpuMaskOf` |
| Fake.Vm.VcpuToPcpuMaskBit | src/fake.rs:78-87 | output bit `p` is set iff some selected vCPU `i < len` exists and runs on core `p` |
| Fake.Vm.PcpuToVcpuMask | src/fake.rs:89-98 | the loop computes the reference mask `PcpuToVcpuMaskOf` |
| Fake.Vm.PcpuToVcpuMaskBit | src/fake.rs:89-98 | output bit `v` is set iff some selected core `i < len` has `v` as the id of its first vCPU |
| Fake.Pcpu.SetGpr | src/fake.rs:136 | only the named register changes, and it takes the value |
| TargetMasks.PhysTargets | src/vgic.rs:712-717 | the copy loop of `set_trgt` gives the requested byte unchanged |
| TargetMasks.TargetTranslate | src/vigc.rs:1407-1428 | the loop folds the four translated bytes in at their byte positions |
| TargetMasks.TranslateLanes | src/vigc.rs:1407-1428 | when every translated id is below 8, byte `k` of the result is the mask translation of byte `k` of the input, for each `k < 4` |
| TargetMasks.TranslateByte | src/vigc.rs:1413-1424 | one byte is translated in the chosen direction |
| Vint.VgicInt.New | src/vint.rs:29-38 | the id is `i+32` cut to 16 bits; unowned, not hw, disabled, inactive, prio 0xff, targets 0, cfg 0, not in an LR and on no list |
| Vint.VgicInt.PrivNew | src/vint.rs:40-49 | the id is `i` cut to 16 bits, the owner is the given vCPU, targets are cut to a byte, enabled is as given; not hw, inactive, prio 0xff, cfg 0, not in an LR and on no list |
| Vint.VgicInt.SetEnabled | src/vint.rs:71-74 | only the enable field changes, and it takes the value |
| Vint.VgicInt.SetLr | src/vint.rs:76-79 | only the LR index changes |
| Vint.VgicInt.SetTargets | src/vint.rs:81-84 | only the target byte changes |
| Vint.VgicInt.SetPrio | src/vint.rs:86-89 | only the priority changes |
| Vint.VgicInt.SetInLr | src/vint.rs:91-94 | only the in-LR flag changes |
| Vint.VgicInt.SetState | src/vint.rs:96-99 | only the state changes |
| Vint.VgicInt.SetOwner | src/vint.rs:101-104 | the owner becomes `Some(v)` |
| Vint.VgicInt.ClearOwner | src/vint.rs:106-110 | the owner becomes None |
| Vint.VgicInt.SetHw | src/vint.rs:112-114 | only the hw flag changes |
| Vint.VgicInt.SetCfg | src/vint.rs:116-119 | only the configuration changes |
| Vint.VgicInt.SetInPendState | src/vint.rs:51-54 | only the pend-list flag changes |
| Vint.VgicInt.SetInActState | src/vint.rs:56-59 | only the act-list flag changes |
| VintPrivate.Position | src/vint_private.rs:33-38 | the first index with the id; None iff it is absent |
| VintPrivate.QueueRemoveIsDeletion | src/vint_private.rs:33-38 | removal deletes exactly the first matching entry and keeps the order of the rest; it is a no-op when the id is absent |
| VintPrivate.QueueRemoveLength | src/vint_private.rs:33-38 | the queue shortens by one iff the id was present |
| VintPrivate.QueueRemoveSubset | src/vint_private.rs:33-38 | removal adds nothing |
| VintPrivate.QueueRemoveUnique | src/vint_private.rs:33-38 | in a queue without duplicate ids, no entry with the id is left |
| VintPrivate.QueueRemoveOthers | src/vint_private.rs:33-38 | every other id is present afterwards iff it was before |
| VintPrivate.VgicCpuPriv.Default | src/vint_private.rs:66-77 | no interrupts, 64 zero LR occupants, 16 zero SGI records, empty lists |
| VintPrivate.VgicCpuPriv.PendListPush | src/vint_private.rs:40-44 | appends at the tail and keeps the earlier order; the act list is untouched |
| VintPrivate.VgicCpuPriv.PendListRemove | src/vint_private.rs:46-48 | the pend list loses its first entry with the id; the act list is untouched |
| VintPrivate.VgicCpuPriv.ActListPush | src/vint_private.rs:50-54 | appends at the tail; the pend list is untouched |
| VintPrivate.VgicCpuPriv.ActListRemove | src/vint_private.rs:56-58 | the act list loses its first entry with the id; the pend list is untouched |
| VintPrivate.VgicCpuPriv.PushInterrupt | src/vigc.rs:1673-1686 | the bank's interrupt list grows by the new interrupt at the end |
| VintPrivate.VgicCpuPriv.SetCurrLr | src/vgic.rs:203-206 | only LR occupant `idx` changes, to the id |
| Gich.EncodeLrFields | src/vgic.rs:463-505 | every field of an LR word (vid, middle bits, prio, state, HW) decodes to the value it was built from |
| Gich.EoiCountDecrement | src/vgic_maintence.rs:176-180 | `hcr - (1<<27)` with a nonzero count lowers EOICount by one and leaves every other HCR bit |
| Gich.EoiCount | src/vgic_maintence.rs:174-175 | the EOICount field is zero iff the masked HCR bits are zero |
| Gich.StatusBitsBit | src/vgic_maintence.rs:41-44 | bit `i` of ELRSR (EISR) is set iff LR `i` is in use and empty (waits for an EOI) |
| Gich.EoiSetAfterWrite | src/vgic_maintence.rs:52-53 | writing a word that does not wait for an EOI into LR `i` removes `i` from the EOI set and adds nothing |
| Gich.LrStateNum | src/vgic.rs:357-359 | the LR state bits 29:28 as the pending/active number, zero iff the state field is zero |
| Gich.GicHypervisorInterface.SetLr | src/gich/mod.rs:91-93 | only LR `idx` changes |
| Gich.GicHypervisorInterface.SetHcr | src/gich/mod.rs:63-65 | HCR takes the value |
| VgicLr.HighestSource | src/vgic.rs:482-493 | the highest requesting CPU at or below `k`; None iff no CPU there requests |
| VgicLr.FindSgiSource | src/vgic.rs:482-493 | the descending scan 7..0 stops at the highest requesting CPU; the index ends below 0 where the unsigned counter would underflow |
| VgicLr.BuildLr | src/vgic.rs:463-505 | the word and the leftover SGI request mask are `LrFor`'s |
| VgicLr.BuildSgiLr | src/vgic.rs:473-493 | the SGI word and leftover mask are `LrFor`'s |
| VgicLr.LrForHw | src/vgic.rs:466-471 | a hw word carries the id in bits 9:0 and 19:10, prio `>>3` in 27:23, HW set, and pending+active written as active |
| VgicLr.LrForSoft | src/vgic.rs:494-505 | a software PPI/SPI keeps its state, and bit 19 (EOI) is set iff the id is shared |
| VgicLr.LrForSgiActive | src/vgic.rs:473-481 | an active SGI carries its active source, keeps the mask, and requests EOI iff requests remain |
| VgicLr.LrForSgiPending | src/vgic.rs:482-493 | a pending SGI carries the highest requesting CPU, which leaves the mask; EOI iff requests remain |
| VgicLr.LrForSgiIdle | src/vgic.rs:482-493 | an SGI with no request and not active is written with state 0 and no EOI |
| VgicLr.SgiWordNoEoi | src/vgic.rs:473-493 | the word written for an SGI never waits for a maintenance EOI |
| VgicLr.SgiPendRoundTrip | src/vgic.rs:329-356 | taking back a pending SGI word restores the SGI record (request mask and active source) it was built from |
| VgicLr.SgiActRoundTrip | src/vgic.rs:329-356 | taking back an active SGI word restores the SGI record it was built from |
| VgicLr.FindFreeLr | src/vgic.rs:364-376 | the lowest LR in use whose ELRSR bit is set; None iff none is empty |
| VgicLr.FirstEmptyIsFirst | src/vgic.rs:364-376 | the reference `FirstEmpty` names the lowest empty LR, and None iff none exists |
| VgicLr.FindVictim | src/vgic.rs:378-410 | the scan result is `Victim`; with more than one pending-only LR, the first of the greatest nonzero prio among them; otherwise the same among active LRs when more than one |
| VgicLr.VictimChoice | src/vgic.rs:378-410 | which class is chosen, and None iff the chosen class has only priority-0 LRs or no class has more than one LR |
| VgicLr.ScanClass | src/vgic.rs:384-400 | after `n` LRs the scan knows the eviction candidate of each class |
| VgicLr.ScanCount | src/vgic.rs:384-400 | the found counters count the LRs of each class |
| VgicLr.BestUnique | src/vgic.rs:384-400 | a class has at most one candidate |
| VgicLr.ChosenBelow | src/vgic.rs:364-410 | the LR `add_lr` picks lies among the LRs in use |
| VgicLr.EmptyIsChosen | src/vgic.rs:364-376 | with an empty LR in use, `add_lr` always finds one: the first empty LR |
| VgicCore.StateOf | src/vigc.rs:1471-1497 | pending iff (the resident LR state, else the software state) is pending, or an owned SGI has requests; active iff the resident LR state, else the software state, is active |
| VgicCore.ResidentStateBits | src/vigc.rs:1471-1479 | interrupt 34 pending in an LR reads not-pending as written, and pending when the state bits are used |
| VgicCore.StateOfAsWritten | src/vigc.rs:1471-1497 | as written: off the LRs it agrees with the corrected state; while resident its bits 0 and 1 are bits 0 and 1 of the raw LR word (the low bits of the virtual id), bit 0 also set by SGI requests |
| VgicCore.ListAfterMirrors | src/vgic.rs:142-166 | if the flag mirrored list membership before, the list holds the id iff the new bit is set, with no duplicates |
| VgicCore.ListAfterOthers | src/vgic.rs:142-166 | other interrupts keep their membership |
| VgicCore.TyperFields | src/vgic.rs:87-88 | the corrected TYPER keeps ITLinesNumber and reports `cpu_num-1` in CPUNumber (bits 7:5) |
| VgicCore.TyperLosesCpuNumber | src/vgic.rs:87-88 | with two vCPUs, TYPER as written reports CPUNumber 0, and the corrected word reports 1 |
| VgicCore.InitInts | src/vigc.rs:1663-1689 | every created interrupt has an id below 1024, and every private one an owner from the vCPU list |
| VgicCore.InitBanks | src/vigc.rs:1663-1689 | every bank has full-size tables, its own 32 interrupts in id order, and empty lists |
| VgicCore.MakeSpis | src/vigc.rs:1667-1671 | 992 fresh shared interrupts, entry `k` as `VgicInt::new(k)` leaves it |
| VgicCore.MakeBank | src/vigc.rs:1673-1686 | a fresh default bank whose 32 interrupts are owned by the vCPU, target `1 << phys_id`, and are enabled iff `id < 16` |
| VgicCore.MakeBanks | src/vigc.rs:1672-1687 | one such bank per vCPU, in order |
| VgicCore.WithPendBits | src/vgic.rs:811-816 | the new pending bit is the request, and the active bit is preserved |
| VgicCore.WithActBits | src/vgic.rs:618-623 | the new active bit is the request, and the pending bit is preserved |
| VgicCore.WithPendIdempotent | src/vgic.rs:811-816 | asking for the bit already there changes nothing, and asking twice is asking once |
| VgicCore.HwState | src/vgic.rs:817-822 | the distributor state of a hw interrupt: pending alone becomes active, other states stay |
| VgicCore.SgiMaskWideSource | src/vgic.rs:265-276 | a source of 8 or more truncates to 0 and changes no mask |
| VgicCore.SgiMaskOwnBit | src/vgic.rs:265-276 | the source's bit is set or cleared as asked |
| VgicCore.SgiMaskOtherBits | src/vgic.rs:265-276 | every other source bit is unchanged |
| VgicCore.SgiMaskIdempotent | src/vgic.rs:280-299 | repeating the update leaves the mask as the first call left it |
| VgicCore.PrioField | src/vgic.rs:756 | the stored priority is `prio & 0xf0`: the low nibble is cleared and the high nibble kept |
| VgicCore.SgisAfterRemove | src/vgic.rs:329-356 | the SGI table keeps its size |
| VgicCore.Vgic.Init | src/vigc.rs:1663-1689 | the engine is valid; CTLR is 2, TYPER is the corrected word, the outbox is empty, and the SPIs and banks are fresh as `emu_intc_init` builds them |
| VgicCore.Vgic.GetIntSpec | src/vgic.rs:223-232 | ids below 32 name the caller's bank at the same index, ids 32..1023 the shared entry `id-32`, and ids of 1024 or more nothing |
| VgicCore.Vgic.OwnsIsOwner | src/vint.rs:204-220 | on a consistent engine `vgic_owns`, which compares vCPU id and core only, holds for a shared interrupt exactly when the caller is its owner, and for a private one always |
| VgicCore.Vgic.GichGetLr | src/vigc.rs:1514-1527 | Some iff the interrupt is in an LR, owned on this core, the LR holds its id, and the LR state is nonzero; the value is the LR word |
| VgicCore.Vgic.GetState | src/vigc.rs:1471-1497 | the corrected `vgic_get_state` is a two-bit state (below 4); its bits are stated by VgicCore.Vgic.GetStateBits |
| VgicCore.Vgic.GetStateBits | src/vigc.rs:1471-1497 | bit 0 is pending and bit 1 active: from the LR state field while resident on this core, else from the software state; bit 0 is also set while an owned SGI has requests |
| VgicCore.Vgic.IntGetOwner | src/vigc.rs:1453-1469 | an unowned interrupt is claimed; an owned one is only compared by (VM id, vCPU id) and its owner never changes; true means the caller owns it |
| VgicCore.Vgic.IntYieldOwner | src/vigc.rs:1500-1508 | the owner is cleared iff the caller owns it, it is shared and not in an LR, and state bit 1 is clear; otherwise it is unchanged |
| VgicCore.Vgic.UpdateIntList | src/vgic.rs:142-166 | `in_pend`/`in_act` equal state bits 0/1, and each list gains the interrupt only when its flag was false, or loses it when the bit is clear |
| VgicCore.Vgic.RemoveLr | src/vgic.rs:306-360 | no change and false unless the caller owns it and it is in an LR; otherwise out of the LR, with the LR zeroed iff it matched; true iff it matched; state from bits 29:28; SGI source folded back; NPIE iff pending and enabled; the EOI set only shrinks |
| VgicCore.Vgic.FoldLr | src/vgic.rs:329-359 | the state, SGI record, lists and NPIE after the word is taken back |
| VgicCore.Vgic.EvictOccupant | src/vgic.rs:445-461 | a previous occupant still resident in the slot is marked out of the LR and, when shared and not active, yielded |
| VgicCore.Vgic.WriteLr | src/vgic.rs:443-516 | the LR gets `LrFor`'s word; the SGI mask loses the written source; a hw interrupt is made active at the distributor; the interrupt is inactive, in LR `index`, off both lists, its owner unchanged; `curr_lrs[index] = id` |
| VgicCore.Vgic.AddLr | src/vgic.rs:362-441 | true iff it is enabled, not in an LR, and a free or victim LR exists, and then it sits in exactly that LR; disabled or resident means no change; no LR means NPIE iff pending; HCR changes only by NPIE |
| VgicCore.Vgic.TakeLr | src/vgic.rs:364-430 | the LR used is the first free one, else the victim, which is taken out first |
| VgicCore.Vgic.Route | src/vgic.rs:518-550 | no-op when inactive or disabled; LRs change only when the targets include the caller's core, and then it ends in an LR iff it was in one or an LR could be chosen; a `VgicdRoute` broadcast is recorded exactly when it stays out of an LR and targets other cores |
| VgicCore.Vgic.HandOff | src/vgic.rs:537-549 | residency is unchanged; out of an LR and targeting other cores, the interrupt is yielded (owner cleared iff `vgic_int_yield_owner` gives it up) and the `VgicdRoute` broadcast is recorded, and otherwise owner and outbox are kept |
| VgicCore.Vgic.SetEnable | src/vgic.rs:552-604 | ids below 16 or of 1024 or more change nothing; an enable that changes is only that id's, set to `en`; an equal bit leaves the LRs alone; the distributor follows for hw or id 30; non-owners forward `VgicdSetEn` |
| VgicCore.Vgic.ChangeState | src/vgic.rs:799-822 | out of the LR; the pending (active) bit of the state it is left with becomes the request; the lists follow; a hw interrupt's distributor state follows |
| VgicCore.Vgic.SetPend | src/vgic.rs:799-861 | SGI numbers go to `sgi_set_pend`; an interrupt owned elsewhere is untouched and a `VgicdSetPend` is sent to its owner's core |
| VgicCore.Vgic.SetActive | src/vgic.rs:606-648 | an interrupt owned elsewhere is untouched and a message tagged `VgicdSetPend` is sent to its owner's core |
| VgicCore.Vgic.ApplySgiPend | src/vgic.rs:265-299 | the mask of the source is set or cleared; only a changed mask updates the pending bit (pending iff the mask is nonzero) and the lists |
| VgicCore.Vgic.SgiSetPend | src/vgic.rs:260-304 | SGI numbers above 16 change nothing |
| VgicCore.Vgic.SetPrio | src/vgic.rs:753-797 | ids of 1024 or more change nothing; a priority that changes is only that id's and is `prio & 0xf0`; an equal value changes nothing else; a numerically greater (less urgent) value leaves it out of an LR; hw follows at the distributor; non-owners change nothing and forward `VgicdSetPrio` |
| VgicCore.Vgic.StorePrio | src/vgic.rs:760-770 | the priority is stored, and LR residency is kept when the new value is numerically greater |
| VgicCore.Vgic.SetTrgt | src/vgic.rs:706-751 | ids of 1024 or more change nothing; a target that changes is only that id's, set to the request; an equal byte changes nothing else; hw follows at the distributor; non-owners change nothing and forward `VgicdSetTrgt` |
| VgicCore.Vgic.Retarget | src/vgic.rs:710-723 | the new target byte is stored (and at the distributor for hw); an interrupt whose state reads 0 is not routed and nothing else changes |
| VgicCore.Vgic.SetIcfgr | src/vgic.rs:650-686 | only that interrupt changes; a claimable one takes the configuration (and the distributor too when hw); one owned elsewhere is untouched and `VgicdSetCfg` is forwarded |
| VgicCore.Vgic.Inject | src/vgic.rs:688-704 | bits 31:10 of the id are ignored. A hw interrupt: disabled, it ends owned by the caller, pending, out of an LR and on the pend list only; enabled and targeting this core, it is in an LR iff a free or spillable LR was chosen; a `VgicdRoute` broadcast is recorded exactly when it is enabled, ends out of an LR and targets other cores. A non-hw shared interrupt owned elsewhere changes nothing here and sends one `VgicdSetPend` with value 1 to its owner's core |
| VgicCore.Vgic.TakeInjected | src/vgic.rs:690-699 | a hw interrupt is claimed, made pending, taken out of an LR, and the lists follow |
| VgicCore.Vgic.InjectHw | src/vgic.rs:690-699 | disabled: owned by the caller, pending, out of an LR and on the pend list only; enabled and targeting this core: in an LR iff an LR was chosen; enabled and not targeting this core: LRs, HCR and distributor unchanged; a `VgicdRoute` broadcast exactly when enabled, out of an LR and targeting other cores |
| VgicCore.Vgic.SetHwInt | src/vigc.rs:1691-1717 | for a PPI every vCPU's copy becomes hw, for an SPI the shared entry does; SGIs and all other interrupts are unchanged |
| VgicMaintenance.IntListHead | src/vgic_maintence.rs:18-28 | Some iff the chosen list is non-empty, and then its front, which is not removed |
| VgicMaintenance.FirstFlaggedLr | src/vgic_maintence.rs:41-44 | the first LR in use that is flagged in EISR (ELRSR); None iff none is flagged |
| VgicMaintenance.FlaggedEoiSet | src/vgic_maintence.rs:41-44 | a found LR is in the EOI set, and none found means the set is empty |
| VgicMaintenance.HandleTrappedEoir | src/vgic_maintence.rs:31-69 | the loop ends with no LR waiting for an EOI, and HCR changes only by NPIE; each round is `TrapOne` |
| VgicMaintenance.TrapOne | src/vgic_maintence.rs:45-67 | one round: the flagged LR leaves the EOI set and no LR joins it; the interrupt it named is returned; an SGI is back in an LR iff it is enabled; any other interrupt stays out of the LRs with its state, and its owner is cleared iff the caller owned it, it is shared and not active |
| VgicMaintenance.ReleaseLr | src/vgic_maintence.rs:45-56 | the flagged LR is zeroed and its interrupt, and only that one, is marked out of an LR |
| VgicMaintenance.HasPendingLr | src/vgic_maintence.rs:76-81 | true iff some LR in use has state bit 28 set |
| VgicMaintenance.RefillLrs | src/vgic_maintence.rs:72-135 | ends with no empty LR in use and HCR unchanged, or with NPIE cleared and no free pending head |
| VgicMaintenance.RefillRound | src/vgic_maintence.rs:91-134 | stops iff there is no candidate, and then clears NPIE; otherwise HCR is kept, the lists get shorter and `has_pending` is updated |
| VgicMaintenance.PickCandidate | src/vgic_maintence.rs:92-110 | the active head when some LR is pending and that head is free, else the free pending head, else none |
| VgicMaintenance.ClaimAndWrite | src/vgic_maintence.rs:112-120 | the candidate is claimed, sits in LR `idx`, and leaves both lists |
| VgicMaintenance.ClearNpie | src/vgic_maintence.rs:120-124 | HCR loses NPIE and keeps every other bit |
| VgicMaintenance.EoirHighestSpilledActive | src/vgic_maintence.rs:138-153 | an empty act list changes nothing; otherwise the head ends with its active bit clear, and unless it newly entered an LR its state is exactly `state & !2`; a hw head is deactivated at the distributor; a pending software head ends in an LR iff it was in one or it is enabled and an LR could be chosen, and enters one only as inactive; otherwise residency is kept; HCR changes only by NPIE |
| VgicMaintenance.RetireActive | src/vgic_maintence.rs:143-151 | the claimed head's outcome as in `EoirHighestSpilledActive`, stated on the head itself |
| VgicMaintenance.AfterDeactivate | src/vgic_maintence.rs:147-151 | hw: deactivated at the distributor; pending software: offered an LR with `add_lr`'s outcome; otherwise residency and state kept |
| VgicMaintenance.ClearActive | src/vgic_maintence.rs:141-145 | the state becomes `state & !2`, keeping the pending bit, and the act list follows |
| VgicMaintenance.DeactivateAtDist | src/vgic_maintence.rs:147-148 | the distributor state of the interrupt loses its active bit |
| VgicMaintenance.OfferAgain | src/vgic_maintence.rs:149-150 | the head ends in an LR iff it was in one or it is enabled and an LR could be chosen, enters one as inactive, and otherwise keeps its state |
| VgicMaintenance.SpilledEoisAsWritten | src/vgic_maintence.rs:174-182 | as written, HCR ends as its entry value with EOICount cleared, so an NPIE made during the EOIs is lost |
| VgicMaintenance.RetireStale | src/vgic_maintence.rs:176-180 | one round as written: HCR ends as the copy read before the EOI, less one |
| VgicMaintenance.RetireCurrent | src/vgic_maintence.rs:176-180 | one corrected round: the EOI changes HCR only by NPIE, and then EOICount drops by one while every other bit is as the EOI left it, a requested NPIE with them |
| VgicMaintenance.StaleHcrDropsNpie | src/vgic_maintence.rs:174-182 | one spilled EOI that requests NPIE: the stale write yields 0, while the re-read value yields NPIE |
| VgicMaintenance.SpilledEois | src/vgic_maintence.rs:174-182 | corrected: EOICount ends at 0 and HCR otherwise changes only by NPIE; once some EOI has requested NPIE it is still set at the end, and when none has, HCR ends as its entry value with the count cleared |
| VgicMaintenance.RetireAfterEoi | src/vgic_maintence.rs:176-180 | an EOI that only requests NPIE leaves the count nonzero; lowering the re-read value drops the count by exactly one and keeps every other bit, NPIE among them |
| VgicMaintenance.RoundKeepsNpie | src/vgic_maintence.rs:174-182 | across one corrected round an NPIE set before or requested by the EOI is set after, and while none was requested HCR keeps its entry bits outside the count |
| VgicMaintenance.GicMaintenanceHandler | src/vgic_maintence.rs:156-183 | MISR.LRENP ⇒ EOICount ends at 0; MISR.EOI alone ⇒ no LR waits for an EOI; no MISR bit ⇒ HCR and LRs unchanged |
| VgicIpi.Decode | src/vgic_ipi.rs:41-77 | SetAct, SetCfg, inject and none are ignored, exactly; the setters keep the id and routing keeps `id % 1024` |
| VgicIpi.ForwardedReplays | src/vgic_ipi.rs:50-73 | every message the engine forwards decodes to the request its sender could not carry out |
| VgicIpi.GichEnHcr | src/vgic_ipi.rs:42-49 | HCR bit 0 is set iff `val != 0`, and every other bit stays |
| VgicIpi.SwitchGich | src/vgic_ipi.rs:42-49 | HCR becomes `GichEnHcr` of its old value |
| VgicIpi.VgicIpiHandler | src/vgic_ipi.rs:14-82 | a non-intc message, an unknown VM, a mismatched VM id or an ignored event changes nothing; for an accepted message, `VgicdGichEn` changes only HCR.En, a route sends nothing, touches nothing it cannot claim, and yields a claimed interrupt left out of an LR when it is shared and not active, and SetEn, SetPend, SetPrio and SetTrgt give a claimable interrupt the requested value or forward the request to the owner's core |
| VgicIpi.HandleInitc | src/vgic_ipi.rs:41-77 | per event: GichEn changes only HCR.En; route claims and adds only when the target includes this core, sends nothing, and leaves a claimed interrupt out of an LR unowned iff it is shared and not active; SetEn, SetPend, SetPrio and SetTrgt give a claimable interrupt the requested enable, priority or target, and forward it again to the owner otherwise; ignored events change nothing |
| VgicIpi.ReplaySetter | src/vgic_ipi.rs:50-61 | SetEn, SetPend, SetPrio and SetTrgt replay the matching mutator on the same id: a claimable interrupt takes the value, and one owned elsewhere is forwarded again |
| VgicIpi.RouteEvent | src/vgic_ipi.rs:62-73 | an unclaimable interrupt is untouched; LRs change only when the targets include this core, and then it ends in an LR iff it was in one or it is enabled and an LR could be chosen; a claimed interrupt that does not newly enter an LR ends unowned iff it is out of an LR, shared and not active, and stays claimed by this vCPU otherwise |
| RegLanes.BitLanesRoundTrip | src/vgic_reg_access.rs:138-148 | splitting the first `n` bits of a word one per interrupt and packing them again gives bit `k` for `k < n` and 0 above |
| RegLanes.ByteLanesRoundTrip | src/vgic_reg_access.rs:465-477 | the same for the first `n` one-byte lanes |
| RegLanes.PairLanesRoundTrip | src/vgic_reg_access.rs:350-372 | the same for the first `n` two-bit lanes |
| RegLanes.ByteWordLane | src/vgic_reg_access.rs:474-477 | lane `k` of the packed read word is value `k`, and zero past the width |
| RegLanes.PairWordLane | src/vgic_reg_access.rs:366-372 | two-bit lane `k` of the packed read word is field `k` |
| VgicdLayout.AccessIsValidByRange | src/vgic_reg_access.rs:16-49 | CTLR, the one-bit arrays and ICFGR accept only aligned words; SGIR and 0x400..0xbff reject a misaligned word or an odd halfword; everything else passes |
| VgicdLayout.RegOfRanges | src/vgic_reg_access.rs:521-589 | the dispatch by prefix and offset maps each GICv2 distributor register range to its accessor |
| VgicdLayout.BitRegFirstIs | src/vgic_reg_access.rs:110-113 | word `n` of a one-bit array covers ids `32n..32n+31`, all below 1024 |
| VgicdLayout.IcfgrFirstIs | src/vgic_reg_access.rs:327 | ICFGR byte offset `o` starts at interrupt `16*(o/4) + 4*(o%4)`, and a full access stays below 1024 |
| VgicdLayout.ByteRegFirstAliases | src/vgic_reg_access.rs:439 | as written, priority byte `0x600+k` is taken for interrupt `k`, the same as `0x400+k`, where the corrected mapping gives `0x200+k` |
| VgicdLayout.ByteRegFirstIs | src/vgic_reg_access.rs:436-506 | corrected: byte `k` of the priority (target) range is interrupt `k` |
| VgicdLayout.SgirNoTargets | src/vgic_reg_access.rs:391-407 | filter 3 is the only one that sends nothing |
| VgicdLayout.SgirOthers | src/vgic_reg_access.rs:398-400 | filter 1 lists every core of `ncpu` except this one |
| VgicdLayout.SgirSelf | src/vgic_reg_access.rs:401-403 | filter 2 lists this core alone |
| VgicdLayout.SgiMessageReplays | src/vgic_reg_access.rs:410-417 | the SGI message id carries the SGI number in bits 9:0 and the sender's vCPU id above, and it decodes to a pend request for that id |
| VgicdLayout.SgiSendsTo | src/vgic_reg_access.rs:410-430 | core `p` gets the message iff bit `p` of the list is set and `p` is among the cores scanned (8 for SGIR) |
| VgicdLayout.SgiSendsOrdered | src/vgic_reg_access.rs:410-430 | each core gets at most one message, in increasing core order |
| VgicdLayout.CtlrWritten | src/vgic_reg_access.rs:58 | CTLR keeps only bit 0 of the written value |
| VgicdLayout.CtlrMessageReplays | src/vgic_reg_access.rs:59-66 | the CTLR broadcast decodes to the same HCR.En switch the writer applied |
| VgicRegAccess.HasInterruptFlag | src/vgic_reg_access.rs:123-128 | the gate's search loop finds an interrupt of the VM exactly when one exists in the range |
| VgicRegAccess.EnableWord | src/vgic_reg_access.rs:144-148 | bit `k` of the read word is the enable bit of interrupt `first+k`, for `k < 32` |
| VgicRegAccess.StateWord | src/vgic_reg_access.rs:189-200 | the word packs `States` one bit per interrupt: bit `k` for `k < 32` is set iff the corrected `vgic_get_state` (VgicCore.Vgic.GetState) of interrupt `first+k` has a bit of the mask (1 for pending, 2 for active), and bits 32..63 are clear |
| VgicRegAccess.PrioWord | src/vgic_reg_access.rs:474-477 | the read word is the priority bytes packed lane by lane |
| VgicRegAccess.PrioWordLanes | src/vgic_reg_access.rs:474-477 | byte lane `k` is the priority of `first+k`, and zero past the width |
| VgicRegAccess.TrgtWordLanes | src/vgic_reg_access.rs:498-501 | byte lane `k` is the target byte of `first+k` |
| VgicRegAccess.TrgtWord | src/vgic_reg_access.rs:498-501 | the read word is the target bytes packed lane by lane |
| VgicRegAccess.CfgWord | src/vgic_reg_access.rs:366-372 | the read word is the two-bit fields packed lane by lane |
| VgicRegAccess.TrgtRead | src/vgic_reg_access.rs:498-504 | the guest register gets the packed targets translated to vCPU numbering, and nothing else changes |
| VgicRegAccess.CfgWordLanes | src/vgic_reg_access.rs:366-372 | two-bit lane `k` is the configuration of `first+k` |
| VgicRegAccess.EnableWrite | src/vgic_reg_access.rs:138-142 | every changed enable is one of the word's 32 ids, its bit is set in the value, and it now holds `en` |
| VgicRegAccess.PrioWrite | src/vgic_reg_access.rs:466-472 | every changed priority is one of the `width` ids and equals its byte lane as `set_prio` stores it |
| VgicRegAccess.TrgtWrite | src/vgic_reg_access.rs:490-496 | every changed target byte is one of the `width` ids and equals its byte lane of the translated value |
| VgicRegAccess.CfgWrite | src/vgic_reg_access.rs:355-363 | every changed configuration is one of the fields covered and equals its two-bit lane |
| VgicRegAccess.IsenablerAccess | src/vgic_reg_access.rs:108-152 | refused ⇒ nothing changes; a read reports the enable bits and changes nothing else; a write keeps the registers and only enables ids whose bit is set |
| VgicRegAccess.IcenablerAccess | src/vgic_reg_access.rs:269-314 | the gate covers writes only; a read reports the enable bits; a write keeps the registers and only disables ids whose bit is set |
| VgicRegAccess.PendrAccess | src/vgic_reg_access.rs:156-204 | refused over `width` ids ⇒ nothing changes; a read reports state bit 0 of each of the 32 interrupts; a write keeps the registers |
| VgicRegAccess.ActiverAccess | src/vgic_reg_access.rs:211-262 | refused ⇒ nothing changes; a read reports state bit 1 of each interrupt; a write keeps the registers |
| VgicRegAccess.IcfgrAccess | src/vgic_reg_access.rs:326-377 | a refused write changes nothing; a read packs the two-bit fields; a write changes only the `4*width` covered ids, each to its two-bit lane |
| VgicRegAccess.SgiregsAccess | src/vgic_reg_access.rs:379-434 | only a write to SGIR sends, the messages `SgirSends` lists; anything else sends nothing |
| VgicRegAccess.SgirList | src/vgic_reg_access.rs:392-407 | the target list per filter field |
| VgicRegAccess.SendSgis | src/vgic_reg_access.rs:410-420 | the outbox gains one message per listed core below 8, in core order |
| VgicRegAccess.IpriorityrAccess | src/vgic_reg_access.rs:436-481 | a read packs the priorities; a write changes only covered ids, each to its byte lane `& 0xf0` |
| VgicRegAccess.ItargetrAccess | src/vgic_reg_access.rs:483-506 | a read reports the target bytes translated to vCPU numbering; a write stores bytes translated to core numbering, on covered ids only |
| VgicRegAccess.CtlrAccess | src/vgic_reg_access.rs:54-82 | a write stores bit 0, and only a change switches HCR.En and broadcasts `VgicdGichEn`; a read reports CTLR and changes nothing |
| VgicRegAccess.CtlrWrite | src/vgic_reg_access.rs:55-75 | CTLR takes bit 0 of the value; a change switches HCR.En and records the `VgicdGichEn` broadcast, and no change keeps HCR and the outbox |
| VgicRegAccess.TyperAccess | src/vgic_reg_access.rs:85-93 | a read reports TYPER; a write changes nothing |
| VgicRegAccess.IidrAccess | src/vgic_reg_access.rs:96-104 | a read reports IIDR; a write changes nothing |
| VgicRegAccess.Answer | src/vgic_reg_access.rs:521-589 | only the target register may change, and it gets the reported value when there is one |
| VgicRegAccess.Handler | src/vgic_reg_access.rs:521-589 | returns false exactly when the validator rejects, and then changes nothing; a read changes only its target register, which gets `Reported`; a write leaves every general-purpose register unchanged |
| VgicRegAccess.DefaultAccess | src/vgic_reg_access.rs:561-585 | for CTLR, TYPER, IIDR, the priority and target arrays and unmapped offsets: a read changes nothing but its register, which gets the answer of that register (0 when unmapped); a write keeps the registers |

## Left out

- Locking and concurrency: the mutexes, `RefCell` borrows and atomics. The model is one core running sequentially.
- IPI transport: each send is recorded in `outbox` and is never delivered. The receiving side is `VgicIpi.VgicIpiHandler`, to which a message is handed directly.
- The `arm_gic` crate's `GicDistributor` is foreign code. Here it is an abstract per-interrupt map.
- The GICH MMIO block of `src/gich/mod.rs` becomes an abstract register record. ELRSR and EISR are derived from the LRs.
- `src/vgic_state.rs` is left out: it only saves and restores hardware registers.
- Bootstrap and configuration (`src/config.rs`, `src/lib.rs`) and the trait declarations of `src/vgic_traits.rs` are left out.
- Panics from `unwrap()` on a missing owner or VM become preconditions, as do the `unimplemented!()` of the read loops. Logging is dropped.
- `active_vm_ncpu()` is a stub in `src/fake.rs`. `VgicRegAccess.SgiregsAccess` takes its value as the parameter `ncpu`.
- `Vcpu::id/vm_id/phys_id` and `current_cpu()` are stubs. A vCPU is a record of its three fields, and the current core is the `Pcpu` argument.
- `vm.has_interrupt` and `vm.emu_has_interrupt` are membership in two sets that the `Vm` value carries.
- `VgicdLayout.Offset`: the SGIR accessor compares against `gicd_base() + 0xf00`. The model assumes a 4 KiB-aligned distributor base and compares page offsets.
- `src/vigc.rs` holds near-identical copies of the LR engine, maintenance, register access and IPI handler. Each is modelled once, after the `src/vgic.rs` copy.
- `VgicCore.Vgic.SgiSetPend`: SGI number 16 is excluded by its precondition, because the source indexes the 16 SGI records out of bounds for it. Its contract states the ignored range. The owned path is stated by `VgicCore.Vgic.ApplySgiPend`.
- `VgicCore.Vgic.SetPend` and `VgicCore.Vgic.SetActive` state only the forwarding path and validity. The owned path is stated by `VgicCore.Vgic.ChangeState`.
- `VgicRegAccess.PendrAccess` and `VgicRegAccess.ActiverAccess`: the write loops (`PendWrite`, `ActiveWrite`) promise only validity and unchanged registers. How each interrupt changes is stated by the mutators they call.
- `VgicRegAccess.EnableWrite`, `VgicRegAccess.PrioWrite`, `VgicRegAccess.TrgtWrite` and `VgicRegAccess.CfgWrite` state what every change is. They do not state that each claimable interrupt does change, and they do not list the messages forwarded for interrupts owned elsewhere.
- `VgicRegAccess.Handler`: its write effects are stated by the individual accessors, not in the handler's own contract. Its range tests replace the source's prefix match and are proved equal to it by `VgicdLayout.RegOfRanges`.
- GICD_ICFGR offsets 0xc80..0xcff have prefix 0x19, which the source's match does not list. The source therefore serves them in the default arm as an unmapped offset, and so does the model.
- `VgicMaintenance.GicMaintenanceHandler` uses the corrected EOICount loop. The loop as written is `VgicMaintenance.SpilledEoisAsWritten`.
- `VgicCore.Vgic.Init` builds TYPER with the corrected CPUNumber field. The word as written is `VgicCore.TyperAsWritten`.
- `Utils.BitExtract`: its value `(bits >> off) mod 2^len` is stated by `Utils.BitExtractValue` for the lengths the engine passes (1, 2, 5, 8, 9, 10 and 12), not for a symbolic length, because proofs over a variable 64-bit mask exceed the solver budget.
- `VgicCore.Vgic.GetState` is the corrected `vgic_get_state`, with the state of a resident interrupt taken from LR bits 29:28. The as-written state is `VgicCore.StateOfAsWritten`, and the two differ for residents (`VgicCore.ResidentStateBits`).
- `VgicRegAccess.StateWord`, `VgicRegAccess.PendrAccess` and `VgicRegAccess.ActiverAccess` report the corrected state, through the helpers `StateOn`, `StateRead` and `StateReported`. For an interrupt resident in an LR on this core, the source as written reports bits 0 and 1 of the raw LR word instead, and these reads do not model that.
- `VgicRegAccess.IpriorityrAccess` and `VgicRegAccess.ItargetrAccess` use the corrected first id `ByteRegFirst`, the byte offset within the array. So do their helpers `ReadReady` and `DefaultReported`. The as-written `ByteRegFirstAsWritten` keeps 9 address bits, and `VgicdLayout.ByteRegFirstAliases` shows it aliasing. A read must end at id 1024 (`ByteRegFirst(address) + width <= 1024`), because `get_prio` and `get_trgt` unwrap a missing interrupt (src/vgic.rs:248-255). Under the corrected mapping a read past the last interrupt, such as width 8 at 0x7fc, would panic there and is excluded. The as-written mapping never reaches an id above 0x207, so the source itself serves such a read from the aliased ids.
- `VgicRegAccess.DefaultAccess` and `VgicRegAccess.Handler` reach the priority and target arrays through those two accessors, with the same corrected first id and the same read precondition. `Reported` of the handler likewise gives the corrected state for the pending and active registers.
- `VgicCore.Vgic.Inject`: on a non-hw interrupt the caller can claim, and on an SGI number, it promises only what `VgicCore.Vgic.SetPend` promises, namely validity.
- `VgicIpi.RouteEvent`, `VgicIpi.HandleInitc` and `VgicIpi.VgicIpiHandler`: the owner of a routed interrupt that newly enters a list register is not stated. `add_lr` may spill a stale register that still names the same id and yield it on the way, and `VgicCore.Vgic.AddLr` does not promise the owner of the interrupt it writes.
- `VgicMaintenance.HandleTrappedEoir` and `VgicMaintenance.TrapOne`: `TrapOne` states the outcome of one round for the interrupt it releases. The loop does not carry earlier rounds' outcomes to its end, because `VgicCore.Vgic.AddLr` does not state which other interrupts' owners and residency it leaves alone. For the same reason `TrapOne` does not state an SGI's owner.
- `VgicIpi.VgicIpiHandler` and `VgicIpi.HandleInitc`: for a replayed SetPend on an interrupt this core can claim, they promise only validity, as `VgicCore.Vgic.SetPend` does. A replayed SetEn with an SGI number and replayed setters with ids of 1024 or more are not described beyond validity.
- The `int_bitmap` and `emu_irq_map` fields of `Vgic` are not part of this model: the engine's core never reads them.

## Findings

| source | as written | input that shows it | evidently intended | confidence | as-written member | corrected member |
|---|---|---|---|---|---|---|
| src/vgic_reg_access.rs:439 | the first interrupt of a priority (and target, line 486) access is `bit_extract(address, 0, 9)`, the low 9 bits of the offset | a priority write at offset 0x600 (interrupt 512) is applied to interrupt 0 | the offset within the 1 KiB range, ten bits | not executed | VgicdLayout.ByteRegFirstAliases | VgicdLayout.ByteRegFirstIs |
| src/vigc.rs:1471-1479 | `vgic_get_state` returns the whole LR word as the state of a resident interrupt | interrupt 34 pending in an LR: bit 0 of the word is bit 0 of the id, so an ISPENDR read reports it not pending | the state bits 29:28 of the LR | not executed | VgicCore.ResidentStateBits | VgicCore.StateOf |
| src/vgic_maintence.rs:174-182 | each round lowers the EOICount of an HCR copy read before the EOI it applies | HCR = 1<<27 and an EOI whose `add_lr` finds no LR and sets NPIE: HCR ends as 0 | lower the count on HCR re-read after the EOI, keeping NPIE | not executed | VgicMaintenance.StaleHcrDropsNpie | VgicMaintenance.SpilledEois |
| src/vgic.rs:87-88 | TYPER masks `(cpu_num - 1) << 5` with the same 0x1f mask as ITLinesNumber | `cpu_num = 2`: CPUNumber reads 0 | CPUNumber in bits 7:5 (section 4.3.2 of IHI 0048B) | not executed | VgicCore.TyperLosesCpuNumber | VgicCore.TyperFields |
