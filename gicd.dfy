/**
 * The physical distributor as the engine sees it.  The hypervisor reaches it
 * through a foreign driver whose code is not part of this model; here every
 * call is an update of one entry of an abstract per-interrupt map.
 */
module Gicd {
  import opened Utils

  class GicDistributor {
    /** Pending (bit 0) and active (bit 1) state per interrupt. */
    var state: map<nat, bv64>
    var enable: map<nat, bool>
    var cfg: map<nat, U8>
    var trgt: map<nat, U8>
    var prio: map<nat, U8>

    constructor ()
      ensures state == map[] && enable == map[] && cfg == map[] && trgt == map[] && prio == map[]
    {
      state := map[];
      enable := map[];
      cfg := map[];
      trgt := map[];
      prio := map[];
    }

    /** `GicDistributor::state`: an interrupt never written reads as inactive. */
    function State(id: nat): bv64
      reads this`state
    {
      if id in state then state[id] else 0
    }

    /** The state table as `set_act(id, false)` leaves it: only the active bit of `id` is cleared. */
    function Deactivated(id: nat): map<nat, bv64>
      reads this`state
    {
      state[id := State(id) & !2]
    }

    method SetState(id: nat, s: bv64)
      modifies this`state
      ensures state == old(state)[id := s]
    {
      state := state[id := s];
    }

    /** `GicDistributor::set_act`: sets or clears the active bit of the interrupt's state. */
    method SetAct(id: nat, act: bool)
      modifies this`state
      ensures state == old(state)[id := if act then old(State(id)) | 2 else old(State(id)) & !2]
    {
      state := state[id := if act then State(id) | 2 else State(id) & !2];
    }

    method SetEnable(id: nat, en: bool)
      modifies this`enable
      ensures enable == old(enable)[id := en]
    {
      enable := enable[id := en];
    }

    method SetIcfgr(id: nat, c: U8)
      modifies this`cfg
      ensures cfg == old(cfg)[id := c]
    {
      cfg := cfg[id := c];
    }

    method SetTrgt(id: nat, t: U8)
      modifies this`trgt
      ensures trgt == old(trgt)[id := t]
    {
      trgt := trgt[id := t];
    }

    method SetPriority(id: nat, p: U8)
      modifies this`prio
      ensures prio == old(prio)[id := p]
    {
      prio := prio[id := p];
    }
  }
}
