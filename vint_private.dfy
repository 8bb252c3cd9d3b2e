/**
 * The per-vCPU private bank (src/vint_private.rs): the 32 banked interrupts,
 * the occupant of every list register, the SGI source masks and the two FIFO
 * lists of interrupts waiting for a list register.
 */
module VintPrivate {
  import opened Wrappers
  import opened Utils
  import opened Consts
  import opened Vint

  /** Per-SGI bookkeeping: `pend` is a mask of requesting CPUs, `act` the source of the active one. */
  datatype Sgis = Sgis(pend: U8, act: U8)

  /** The first position of `q` holding an interrupt with id `id`. */
  function Position(q: seq<VgicInt>, id: nat): (r: Option<nat>)
    ensures r.Some? ==> r.value < |q| && q[r.value].id == id
    ensures r.Some? ==> forall j :: 0 <= j < r.value ==> q[j].id != id
    ensures r.None? ==> forall j :: 0 <= j < |q| ==> q[j].id != id
  {
    if q == [] then None
    else if q[0].id == id then Some(0)
    else match Position(q[1..], id)
      case Some(i) => Some(i + 1)
      case None => None
  }

  /** `queue_remove`: `q` without its first entry whose id is `id`. */
  function QueueRemove(q: seq<VgicInt>, id: nat): seq<VgicInt>
  {
    if q == [] then []
    else if q[0].id == id then q[1..]
    else [q[0]] + QueueRemove(q[1..], id)
  }

  /**
   * Removal deletes exactly the entry at the first matching position and
   * keeps the others in order; without a match the queue is unchanged.
   */
  lemma {:induction false} QueueRemoveIsDeletion(q: seq<VgicInt>, id: nat)
    ensures Position(q, id).None? ==> QueueRemove(q, id) == q
    ensures Position(q, id).Some? ==>
      var i := Position(q, id).value; QueueRemove(q, id) == q[..i] + q[i + 1..]
  {
    if q != [] && q[0].id != id {
      var t := q[1..];
      QueueRemoveIsDeletion(t, id);
      assert q == [q[0]] + t;
      match Position(t, id)
      case Some(i) =>
        DeletionCons(q[0], t, i);
      case None =>
    }
  }

  /** Deleting position `i + 1` of `[x] + t` keeps `x` in front of `t` with position `i` deleted. */
  lemma DeletionCons(x: VgicInt, t: seq<VgicInt>, i: nat)
    requires i < |t|
    ensures [x] + (t[..i] + t[i + 1..]) == ([x] + t)[..i + 1] + ([x] + t)[i + 2..]
  {
    assert ([x] + t)[..i + 1] == [x] + t[..i];
    assert ([x] + t)[i + 2..] == t[i + 1..];
  }

  /** Removal only drops entries: whatever is left was in the queue. */
  lemma {:induction false} QueueRemoveSubset(q: seq<VgicInt>, id: nat)
    ensures forall y :: y in QueueRemove(q, id) ==> y in q
  {
    if q != [] && q[0].id != id {
      QueueRemoveSubset(q[1..], id);
    }
  }

  /** Removal shortens the queue by one exactly when a matching entry exists, and otherwise leaves its length. */
  lemma QueueRemoveLength(q: seq<VgicInt>, id: nat)
    ensures (exists j :: 0 <= j < |q| && q[j].id == id) ==> |QueueRemove(q, id)| == |q| - 1
    ensures (forall j :: 0 <= j < |q| ==> q[j].id != id) ==> |QueueRemove(q, id)| == |q|
  {
    QueueRemoveIsDeletion(q, id);
  }

  /** No two entries of `q` carry the same id. */
  predicate UniqueIds(q: seq<VgicInt>)
  {
    forall i, j :: 0 <= i < j < |q| ==> q[i].id != q[j].id
  }

  predicate HasId(q: seq<VgicInt>, id: nat)
  {
    exists j :: 0 <= j < |q| && q[j].id == id
  }

  /** Entry `k` of a queue with position `i` deleted is entry `k` or `k + 1` of the original. */
  lemma DeletedAt(q: seq<VgicInt>, i: nat, k: nat)
    requires i < |q| && k < |q| - 1
    ensures (q[..i] + q[i + 1..])[k] == q[if k < i then k else k + 1]
  {
  }

  /** Removing from a queue without duplicate ids keeps it without duplicates and leaves no entry with that id. */
  lemma QueueRemoveUnique(q: seq<VgicInt>, id: nat)
    requires UniqueIds(q)
    ensures UniqueIds(QueueRemove(q, id))
    ensures !HasId(QueueRemove(q, id), id)
  {
    QueueRemoveIsDeletion(q, id);
    var r := QueueRemove(q, id);
    match Position(q, id)
    case None =>
    case Some(i) =>
      forall a, b | 0 <= a < b < |r|
        ensures r[a].id != r[b].id
      {
        DeletedAt(q, i, a);
        DeletedAt(q, i, b);
      }
      forall k | 0 <= k < |r|
        ensures r[k].id != id
      {
        DeletedAt(q, i, k);
      }
  }

  /** Removal keeps every other id present exactly when it was present. */
  lemma QueueRemoveOthers(q: seq<VgicInt>, id: nat, other: nat)
    requires other != id
    ensures HasId(QueueRemove(q, id), other) <==> HasId(q, other)
  {
    QueueRemoveIsDeletion(q, id);
    var r := QueueRemove(q, id);
    match Position(q, id)
    case None =>
    case Some(i) =>
      if HasId(q, other) {
        var j :| 0 <= j < |q| && q[j].id == other;
        assert j != i;
        DeletedAt(q, i, if j < i then j else j - 1);
      }
      if HasId(r, other) {
        var k :| 0 <= k < |r| && r[k].id == other;
        DeletedAt(q, i, k);
      }
  }

  class VgicCpuPriv {
    var interrupts: seq<VgicInt>
    /** `curr_lrs[i]`: the id of the interrupt last written to list register `i`. */
    var currLrs: seq<nat>
    var sgis: seq<Sgis>
    var pendList: seq<VgicInt>
    var actList: seq<VgicInt>

    /** `VgicCpuPriv::default`: no interrupts, every list register and SGI record zero, both lists empty. */
    constructor Default()
      ensures interrupts == [] && pendList == [] && actList == []
      ensures |currLrs| == GicListRegsNum && forall i :: 0 <= i < |currLrs| ==> currLrs[i] == 0
      ensures |sgis| == GicSgisNum && forall i :: 0 <= i < |sgis| ==> sgis[i] == Sgis(0, 0)
    {
      interrupts := [];
      currLrs := seq(GicListRegsNum, _ => 0);
      sgis := seq(GicSgisNum, _ => Sgis(0, 0));
      pendList := [];
      actList := [];
    }

    method PushInterrupt(x: VgicInt)
      modifies this`interrupts
      ensures interrupts == old(interrupts) + [x]
    {
      interrupts := interrupts + [x];
    }

    /** `pend_list_push`: append at the tail. */
    method PendListPush(x: VgicInt)
      modifies this`pendList
      ensures pendList == old(pendList) + [x]
    {
      pendList := pendList + [x];
    }

    /** `pend_list_remove`: drop the first entry with the id of `x`. */
    method PendListRemove(x: VgicInt)
      modifies this`pendList
      ensures pendList == QueueRemove(old(pendList), x.id)
    {
      pendList := QueueRemove(pendList, x.id);
    }

    /** `act_list_push`: append at the tail. */
    method ActListPush(x: VgicInt)
      modifies this`actList
      ensures actList == old(actList) + [x]
    {
      actList := actList + [x];
    }

    /** `act_list_remove`: drop the first entry with the id of `x`. */
    method ActListRemove(x: VgicInt)
      modifies this`actList
      ensures actList == QueueRemove(old(actList), x.id)
    {
      actList := QueueRemove(actList, x.id);
    }

    method SetCurrLr(idx: nat, id: nat)
      requires idx < |currLrs|
      modifies this`currLrs
      ensures currLrs == old(currLrs)[idx := id]
    {
      currLrs := currLrs[idx := id];
    }

    method SetSgisPend(idx: nat, pend: U8)
      requires idx < |sgis|
      modifies this`sgis
      ensures sgis == old(sgis)[idx := old(sgis)[idx].(pend := pend)]
    {
      sgis := sgis[idx := sgis[idx].(pend := pend)];
    }

    method SetSgisAct(idx: nat, act: U8)
      requires idx < |sgis|
      modifies this`sgis
      ensures sgis == old(sgis)[idx := old(sgis)[idx].(act := act)]
    {
      sgis := sgis[idx := sgis[idx].(act := act)];
    }
  }
}
