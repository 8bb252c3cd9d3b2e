/**
 * The list-register arithmetic of src/vgic.rs on plain values: the word
 * `write_lr` builds, the SGI bookkeeping `remove_lr` does with a word it takes
 * back, and the scans `add_lr` makes to find a free or a victim register.
 */
module VgicLr {
  import opened Wrappers
  import opened Utils
  import opened Consts
  import opened VintPrivate
  import opened Gich

  /** A state number as the two-bit state field of a list register. */
  function StateBits(s: bv64): (b: bv32)
    requires s < 4
    ensures b < 4
    ensures b & 1 != 0 <==> s & 1 != 0
    ensures b & 2 != 0 <==> s & 2 != 0
  {
    if s == 0 then 0 else if s == 1 then 1 else if s == 2 then 2 else 3
  }

  /** The low three bits of a byte as a list register field: `(act << 10) & (0b111 << 10)` before the shift. */
  function Low3(a: U8): (b: bv32)
    ensures b < 8
  {
    var l := a & 7;
    if l == 0 then 0 else if l == 1 then 1 else if l == 2 then 2 else if l == 3 then 3
    else if l == 4 then 4 else if l == 5 then 5 else if l == 6 then 6 else 7
  }

  /** `1 << source` as the byte of an SGI request mask. */
  function SourceMask(src: bv32): (m: U8)
    requires src < 8
  {
    if src == 0 then 1 else if src == 1 then 2 else if src == 2 then 4 else if src == 3 then 8
    else if src == 4 then 16 else if src == 5 then 32 else if src == 6 then 64 else 128
  }

  /** A source field as the byte `sgis.act` keeps. */
  function SourceByte(src: bv32): (a: U8)
    requires src < 8
  {
    if src == 0 then 0 else if src == 1 then 1 else if src == 2 then 2 else if src == 3 then 3
    else if src == 4 then 4 else if src == 5 then 5 else if src == 6 then 6 else 7
  }

  /** `1 << k` for a CPU number `k` below eight. */
  function SourceBit(k: nat): (m: U8)
    requires k < 8
  {
    if k == 0 then 1 else if k == 1 then 2 else if k == 2 then 4 else if k == 3 then 8
    else if k == 4 then 16 else if k == 5 then 32 else if k == 6 then 64 else 128
  }

  /** CPU `k` requests the SGI: `pend & (1 << k) != 0`. */
  predicate Requests(pend: U8, k: nat)
    requires k < 8
  {
    pend & SourceBit(k) != 0
  }

  /** The mask bit of an encoded source is the bit of the source, and its byte is the source. */
  lemma SourceTables(k: nat)
    requires k < 8
    ensures SourceMask(Bits3(k)) == SourceBit(k)
    ensures SourceByte(Bits3(k)) as int == k
  {
  }

  /** Clearing a set bit and setting it again gives the byte back. */
  lemma RestoreSource(p: U8, k: nat)
    requires k < 8 && Requests(p, k)
    ensures ClearSource(p, k) | SourceBit(k) == p
  {
  }

  /** A byte below eight survives being cut to three bits and read back. */
  lemma ActTables(a: U8)
    requires a < 8
    ensures SourceByte(Low3(a)) == a
  {
  }

  /** The highest CPU in `0..k` whose bit is set in an SGI request mask: the descending scan of `write_lr`. */
  function HighestSource(pend: U8, k: int): (r: Option<nat>)
    requires k < 8
    ensures r.Some? ==> r.value <= k && Requests(pend, r.value)
    ensures r.Some? ==> forall j: nat :: r.value < j <= k ==> !Requests(pend, j)
    ensures r.None? ==> forall j: nat :: j <= k ==> !Requests(pend, j)
    decreases k + 1
  {
    if k < 0 then None else if Requests(pend, k) then Some(k) else HighestSource(pend, k - 1)
  }

  /** A byte in which no CPU requests is zero. */
  lemma NoBitsZero(b: U8)
    requires forall j: nat :: j < 8 ==> !Requests(b, j)
    ensures b == 0
  {
    assert !Requests(b, 0) && !Requests(b, 1) && !Requests(b, 2) && !Requests(b, 3);
    assert !Requests(b, 4) && !Requests(b, 5) && !Requests(b, 6) && !Requests(b, 7);
  }

  /** The request mask without CPU `k`: `pend & !(1 << k)`. */
  function ClearSource(pend: U8, k: nat): U8
    requires k < 8
  {
    var m: bv64 := SourceBit(k);
    var r: bv64 := pend & !m;
    assert r <= pend;
    r
  }

  /** The EOI request of a software interrupt: bit 19 of the word, bit 9 of the middle field. */
  function EoiMid(req: bool): (m: bv32)
  {
    if req then 0x200 else 0
  }

  /** What `write_lr` produces: the list register word, and the SGI request mask it leaves behind. */
  datatype LrWrite = LrWrite(word: bv32, pend: U8)

  /**
   * The word `write_lr` writes for interrupt `id` with priority `prio` and
   * state `state` (as `vgic_get_state` reports it).  A hardware interrupt
   * carries its own id as physical id, and an active-and-pending one is written
   * active.  An SGI carries a source: the active source when it is active,
   * otherwise the highest requesting CPU, which leaves the request mask; it
   * asks for an EOI while requests remain.  A shared interrupt always asks for
   * an EOI, a software PPI never.
   */
  function LrFor(id: nat, prio: U8, isHw: bool, state: bv64, sgi: Sgis): LrWrite
    requires id < GicIntsMax && state < 4
  {
    if isHw then
      LrWrite(EncodeLr(IdBits(id), IdBits(id), Prio5(prio), if state == 3 then 2 else StateBits(state), true), sgi.pend)
    else if id < GicSgisNum then
      if state & 2 != 0 then SgiActiveLr(id, prio, sgi)
      else
        match HighestSource(sgi.pend, 7)
        case Some(k) => SgiSourceLr(id, prio, sgi.pend, k)
        case None => SgiIdleLr(id, prio, sgi.pend)
    else
      LrWrite(EncodeLr(IdBits(id), EoiMid(id >= GicPrivintNum), Prio5(prio), StateBits(state), false), sgi.pend)
  }

  /** The word of an active SGI: its active source, and an EOI request while other CPUs request it. */
  function SgiActiveLr(id: nat, prio: U8, sgi: Sgis): LrWrite
    requires id < GicSgisNum
  {
    LrWrite(EncodeLr(IdBits(id), Low3(sgi.act) | EoiMid(sgi.pend != 0), Prio5(prio), 2, false), sgi.pend)
  }

  /** The word of an SGI pending from CPU `k`, whose request is taken out of the mask. */
  function SgiSourceLr(id: nat, prio: U8, pend: U8, k: nat): LrWrite
    requires id < GicSgisNum && k < 8
  {
    var left := ClearSource(pend, k);
    LrWrite(EncodeLr(IdBits(id), Bits3(k) | EoiMid(left != 0), Prio5(prio), 1, false), left)
  }

  /** The word of an SGI that is neither active nor requested. */
  function SgiIdleLr(id: nat, prio: U8, pend: U8): LrWrite
    requires id < GicSgisNum
  {
    LrWrite(EncodeLr(IdBits(id), EoiMid(pend != 0), Prio5(prio), 0, false), pend)
  }

  /**
   * The descending source scan of `write_lr`: CPUs 7 down to 0, stopping at
   * the first whose bit is set.  The index is an integer here, so the scan
   * simply ends below 0, where the unsigned counter of the code would
   * underflow (a panic in a debug build, a wrap-around in a release build).
   */
  method FindSgiSource(pend: U8) returns (r: Option<nat>)
    ensures r == HighestSource(pend, 7)
  {
    var idx: int := GicTargetsMax - 1;
    while idx >= 0
      invariant -1 <= idx <= 7
      invariant HighestSource(pend, idx) == HighestSource(pend, 7)
    {
      if Requests(pend, idx) {
        return Some(idx);
      }
      idx := idx - 1;
    }
    return None;
  }

  /** `write_lr` building its word branch by branch. */
  method BuildLr(id: nat, prio: U8, isHw: bool, state: bv64, sgi: Sgis) returns (word: bv32, pend: U8)
    requires id < GicIntsMax && state < 4
    ensures LrWrite(word, pend) == LrFor(id, prio, isHw, state, sgi)
  {
    pend := sgi.pend;
    if isHw {
      word := EncodeLr(IdBits(id), IdBits(id), Prio5(prio), if state == 3 then 2 else StateBits(state), true);
    } else if id < GicSgisNum {
      word, pend := BuildSgiLr(id, prio, state, sgi);
    } else {
      word := EncodeLr(IdBits(id), EoiMid(id >= GicPrivintNum), Prio5(prio), StateBits(state), false);
    }
  }

  /** The SGI branch of `write_lr`, with its source scan. */
  method BuildSgiLr(id: nat, prio: U8, state: bv64, sgi: Sgis) returns (word: bv32, pend: U8)
    requires id < GicSgisNum && state < 4
    ensures LrWrite(word, pend) == LrFor(id, prio, false, state, sgi)
  {
    var r: LrWrite;
    if state & 2 != 0 {
      r := SgiActiveLr(id, prio, sgi);
    } else {
      var src := FindSgiSource(sgi.pend);
      if src.Some? {
        r := SgiSourceLr(id, prio, sgi.pend, src.value);
      } else {
        r := SgiIdleLr(id, prio, sgi.pend);
      }
    }
    word, pend := r.word, r.pend;
  }

  /** A hardware interrupt's word carries its id twice, the state (active-and-pending written active) and HW. */
  lemma LrForHw(id: nat, prio: U8, state: bv64, sgi: Sgis)
    requires id < GicIntsMax && state < 4
    ensures var r := LrFor(id, prio, true, state, sgi);
      LrVid(r.word) == IdBits(id) && LrPrio(r.word) == Prio5(prio) && LrHw(r.word) && LrMid(r.word) == IdBits(id)
      && LrState(r.word) == (if state == 3 then 2 else StateBits(state)) && r.pend == sgi.pend
  {
    EncodeLrFields(IdBits(id), IdBits(id), Prio5(prio), if state == 3 then 2 else StateBits(state), true);
  }

  /** A software PPI or shared interrupt keeps its state; only a shared one asks for an EOI. */
  lemma LrForSoft(id: nat, prio: U8, state: bv64, sgi: Sgis)
    requires GicSgisNum <= id < GicIntsMax && state < 4
    ensures var r := LrFor(id, prio, false, state, sgi);
      LrVid(r.word) == IdBits(id) && LrPrio(r.word) == Prio5(prio) && !LrHw(r.word)
      && LrState(r.word) == StateBits(state) && (LrEoi(r.word) <==> id >= GicPrivintNum) && r.pend == sgi.pend
  {
    var mid := EoiMid(id >= GicPrivintNum);
    EncodeLrFields(IdBits(id), mid, Prio5(prio), StateBits(state), false);
    MidFields(EncodeLr(IdBits(id), mid, Prio5(prio), StateBits(state), false));
  }

  /** The three-bit source and the EOI flag of an SGI middle field read back separately. */
  lemma SgiMid(src: bv32, req: bool)
    requires src < 8
    ensures (src | EoiMid(req)) & 0x7 == src
    ensures (src | EoiMid(req)) & 0x200 != 0 <==> req
    ensures src | EoiMid(req) < 1024
  {
  }

  /** An SGI written active carries the active source, keeps the mask, and asks for an EOI while requests remain. */
  lemma LrForSgiActive(id: nat, prio: U8, state: bv64, sgi: Sgis)
    requires id < GicSgisNum && state < 4 && state & 2 != 0
    ensures var r := LrFor(id, prio, false, state, sgi);
      LrVid(r.word) == IdBits(id) && LrPrio(r.word) == Prio5(prio) && !LrHw(r.word)
      && LrState(r.word) == 2 && LrSource(r.word) == Low3(sgi.act) && r.pend == sgi.pend
      && (LrEoi(r.word) <==> r.pend != 0)
  {
    var mid := Low3(sgi.act) | EoiMid(sgi.pend != 0);
    SgiMid(Low3(sgi.act), sgi.pend != 0);
    EncodeLrFields(IdBits(id), mid, Prio5(prio), 2, false);
    MidFields(EncodeLr(IdBits(id), mid, Prio5(prio), 2, false));
  }

  /**
   * An SGI written pending carries the highest requesting CPU as its source,
   * drops that CPU from the mask, and asks for an EOI while requests remain.
   */
  lemma LrForSgiPending(id: nat, prio: U8, state: bv64, sgi: Sgis)
    requires id < GicSgisNum && state < 4 && state & 2 == 0 && HighestSource(sgi.pend, 7).Some?
    ensures var r := LrFor(id, prio, false, state, sgi);
      var k := HighestSource(sgi.pend, 7).value;
      LrVid(r.word) == IdBits(id) && LrPrio(r.word) == Prio5(prio) && !LrHw(r.word)
      && LrState(r.word) == 1 && LrSource(r.word) == Bits3(k) && r.pend == ClearSource(sgi.pend, k)
      && (LrEoi(r.word) <==> r.pend != 0)
  {
    var k := HighestSource(sgi.pend, 7).value;
    var mid := Bits3(k) | EoiMid(ClearSource(sgi.pend, k) != 0);
    SgiMid(Bits3(k), ClearSource(sgi.pend, k) != 0);
    EncodeLrFields(IdBits(id), mid, Prio5(prio), 1, false);
    MidFields(EncodeLr(IdBits(id), mid, Prio5(prio), 1, false));
  }

  /** An SGI neither active nor requested by any CPU is written without a state. */
  lemma LrForSgiIdle(id: nat, prio: U8, state: bv64, sgi: Sgis)
    requires id < GicSgisNum && state < 4 && state & 2 == 0 && HighestSource(sgi.pend, 7).None?
    ensures var r := LrFor(id, prio, false, state, sgi);
      LrVid(r.word) == IdBits(id) && LrPrio(r.word) == Prio5(prio) && !LrHw(r.word)
      && LrState(r.word) == 0 && sgi.pend == 0 && r.pend == 0 && !LrEoi(r.word)
  {
    NoBitsZero(sgi.pend);
    SgiMid(0, false);
    EncodeLrFields(IdBits(id), EoiMid(false), Prio5(prio), 0, false);
    MidFields(EncodeLr(IdBits(id), EoiMid(false), Prio5(prio), 0, false));
  }

  /**
   * The word written for an SGI never waits for a maintenance EOI: it is
   * active, pending, or idle with no requests left and so no EOI flag.
   */
  lemma SgiWordNoEoi(id: nat, prio: U8, state: bv64, sgi: Sgis)
    requires id < GicSgisNum && state < 4
    ensures !LrEoiPending(LrFor(id, prio, false, state, sgi).word)
  {
    if state & 2 != 0 {
      LrForSgiActive(id, prio, state, sgi);
    } else if HighestSource(sgi.pend, 7).Some? {
      LrForSgiPending(id, prio, state, sgi);
    } else {
      LrForSgiIdle(id, prio, state, sgi);
    }
  }

  /**
   * `remove_lr` on an SGI record and the list register word it takes back:
   * an active word records its source as the active one, a pending-only word
   * sets its source in the request mask, an inactive word changes nothing.
   */
  function SgiAfterRemove(s: Sgis, w: bv32): Sgis
  {
    if LrState(w) & 2 != 0 then s.(act := SourceByte(LrSource(w)))
    else if LrState(w) & 1 != 0 then s.(pend := s.pend | SourceMask(LrSource(w)))
    else s
  }

  /** Taking back the word of a pending SGI puts its source back into the request mask it was taken from. */
  lemma SgiPendRoundTrip(id: nat, prio: U8, state: bv64, sgi: Sgis)
    requires id < GicSgisNum && state < 4 && state & 2 == 0 && sgi.pend != 0
    ensures var r := LrFor(id, prio, false, state, sgi);
      SgiAfterRemove(Sgis(r.pend, sgi.act), r.word) == sgi
  {
    LrForSgiPending(id, prio, state, sgi);
    match HighestSource(sgi.pend, 7)
    case Some(k) =>
      SourceTables(k);
      RestoreSource(sgi.pend, k);
    case None =>
  }

  /** Taking back the word of an active SGI restores the active source it was written with. */
  lemma SgiActRoundTrip(id: nat, prio: U8, state: bv64, sgi: Sgis)
    requires id < GicSgisNum && state < 4 && state & 2 != 0 && sgi.act < 8
    ensures var r := LrFor(id, prio, false, state, sgi);
      SgiAfterRemove(Sgis(r.pend, sgi.act), r.word) == sgi
  {
    LrForSgiActive(id, prio, state, sgi);
    ActTables(sgi.act);
  }

  /**
   * The first free list register among the first `n`: `add_lr` walks the
   * ELRSR bitmap upwards and stops at the first set bit.
   */
  method FindFreeLr(lrs: seq<bv32>, n: nat) returns (r: Option<nat>)
    requires n <= |lrs| && n <= GicListRegsNum
    ensures r == FirstEmpty(lrs, n)
    ensures r.Some? ==> r.value < n && LrEmpty(lrs[r.value])
    ensures r.Some? ==> forall j :: 0 <= j < r.value ==> !LrEmpty(lrs[j])
    ensures r.None? ==> forall j :: 0 <= j < n ==> !LrEmpty(lrs[j])
  {
    FirstEmptyIsFirst(lrs, n);
    var elrsr := StatusBits(lrs, n, false);
    var i := 0;
    while i < n
      invariant i <= n
      invariant forall j :: 0 <= j < i ==> !LrEmpty(lrs[j])
    {
      TestSingle(elrsr, i);
      StatusBitsBit(lrs, n, false, i);
      if elrsr & Single(i) != 0 {
        return Some(i);
      }
      i := i + 1;
    }
    return None;
  }

  /** The first empty register among the first `n`, as a reference definition. */
  function FirstEmpty(lrs: seq<bv32>, n: nat): Option<nat>
    requires n <= |lrs|
  {
    if n == 0 then None
    else if FirstEmpty(lrs, n - 1).Some? then FirstEmpty(lrs, n - 1)
    else if LrEmpty(lrs[n - 1]) then Some(n - 1)
    else None
  }

  /** `FirstEmpty` names the lowest empty register, and nothing when none is empty. */
  lemma {:induction false} FirstEmptyIsFirst(lrs: seq<bv32>, n: nat)
    requires n <= |lrs|
    ensures FirstEmpty(lrs, n).Some? ==>
      FirstEmpty(lrs, n).value < n && LrEmpty(lrs[FirstEmpty(lrs, n).value])
      && forall j :: 0 <= j < FirstEmpty(lrs, n).value ==> !LrEmpty(lrs[j])
    ensures FirstEmpty(lrs, n).None? <==> forall j :: 0 <= j < n ==> !LrEmpty(lrs[j])
  {
    if n > 0 {
      FirstEmptyIsFirst(lrs, n - 1);
    }
  }

  /** The eviction classes of `add_lr`: active (and active-pending) words, and pending-only words. */
  predicate InClass(w: bv32, act: bool)
  {
    if act then LrState(w) & 2 != 0 else LrState(w) & 2 == 0 && LrState(w) & 1 != 0
  }

  /** How many of the first `n` registers hold a word of the class. */
  function ClassCount(lrs: seq<bv32>, n: nat, act: bool): nat
    requires n <= |lrs|
  {
    if n == 0 then 0 else ClassCount(lrs, n - 1, act) + (if InClass(lrs[n - 1], act) then 1 else 0)
  }

  /**
   * Register `k` holds the eviction candidate of its class among the first
   * `n`: its priority value is nonzero, strictly above every earlier word of the
   * class and no lower than every later one (the numerically largest, that is
   * the least urgent, first among ties).
   */
  predicate Best(lrs: seq<bv32>, n: nat, act: bool, k: nat)
    requires n <= |lrs|
  {
    k < n && InClass(lrs[k], act) && LrPrio(lrs[k]) > 0
    && (forall j :: 0 <= j < k && InClass(lrs[j], act) ==> LrPrio(lrs[j]) < LrPrio(lrs[k]))
    && (forall j :: k < j < n && InClass(lrs[j], act) ==> LrPrio(lrs[j]) <= LrPrio(lrs[k]))
  }

  /** No word of the class among the first `n` has a nonzero priority value. */
  predicate AllZero(lrs: seq<bv32>, n: nat, act: bool)
    requires n <= |lrs|
  {
    forall j :: 0 <= j < n && InClass(lrs[j], act) ==> LrPrio(lrs[j]) == 0
  }

  /** At most one register of a class holds its candidate. */
  lemma BestUnique(lrs: seq<bv32>, n: nat, act: bool, k1: nat, k2: nat)
    requires n <= |lrs| && Best(lrs, n, act, k1) && Best(lrs, n, act, k2)
    ensures k1 == k2
  {
  }

  /** The variables of the victim scan of `add_lr`. */
  datatype Scan = Scan(pendFound: nat, actFound: nat, minPrioAct: bv32, minPrioPend: bv32,
                       actInd: Option<nat>, pendInd: Option<nat>)

  /** One step of the victim scan over register `i` holding `w`. */
  function ScanStep(s: Scan, w: bv32, i: nat): Scan
  {
    var p := LrPrio(w);
    if InClass(w, true) then
      s.(minPrioAct := if p > s.minPrioAct then p else s.minPrioAct,
         actInd := if p > s.minPrioAct then Some(i) else s.actInd,
         actFound := s.actFound + 1)
    else if InClass(w, false) then
      s.(minPrioPend := if p > s.minPrioPend then p else s.minPrioPend,
         pendInd := if p > s.minPrioPend then Some(i) else s.pendInd,
         pendFound := s.pendFound + 1)
    else s
  }

  /** The victim scan after the first `n` registers. */
  function ScanLrs(lrs: seq<bv32>, n: nat): Scan
    requires n <= |lrs|
  {
    if n == 0 then Scan(0, 0, 0, 0, None, None) else ScanStep(ScanLrs(lrs, n - 1), lrs[n - 1], n - 1)
  }

  function Found(s: Scan, act: bool): nat { if act then s.actFound else s.pendFound }
  function Ind(s: Scan, act: bool): Option<nat> { if act then s.actInd else s.pendInd }
  function MaxPrio(s: Scan, act: bool): bv32 { if act then s.minPrioAct else s.minPrioPend }

  /** The scan counts the words of each class. */
  lemma {:induction false} ScanCount(lrs: seq<bv32>, n: nat, act: bool)
    requires n <= |lrs|
    ensures Found(ScanLrs(lrs, n), act) == ClassCount(lrs, n, act)
  {
    if n > 0 {
      ScanCount(lrs, n - 1, act);
    }
  }

  /** What the scan knows about a class: its candidate and that candidate's priority value, or that there is none. */
  predicate ScanKnows(lrs: seq<bv32>, n: nat, act: bool, s: Scan)
    requires n <= |lrs|
  {
    (Ind(s, act).None? ==> MaxPrio(s, act) == 0 && AllZero(lrs, n, act))
    && (Ind(s, act).Some? ==> Best(lrs, n, act, Ind(s, act).value) && MaxPrio(s, act) == LrPrio(lrs[Ind(s, act).value]))
  }

  /** A word outside the class leaves the class's candidate where it was. */
  lemma KnowsSkip(lrs: seq<bv32>, n: nat, act: bool, s: Scan)
    requires 0 < n <= |lrs| && ScanKnows(lrs, n - 1, act, s) && !InClass(lrs[n - 1], act)
    ensures ScanKnows(lrs, n, act, s)
  {
    if Ind(s, act).Some? {
      var k := Ind(s, act).value;
      assert forall j :: k < j < n && InClass(lrs[j], act) ==> j < n - 1;
    } else {
      assert forall j :: 0 <= j < n && InClass(lrs[j], act) ==> j < n - 1;
    }
  }

  /** A word of the class above the candidate so far becomes the candidate. */
  lemma KnowsTake(lrs: seq<bv32>, n: nat, act: bool, s: Scan)
    requires 0 < n <= |lrs| && ScanKnows(lrs, n - 1, act, s)
    requires InClass(lrs[n - 1], act) && LrPrio(lrs[n - 1]) > MaxPrio(s, act)
    ensures Best(lrs, n, act, n - 1)
  {
    var p := LrPrio(lrs[n - 1]);
    forall j | 0 <= j < n - 1 && InClass(lrs[j], act)
      ensures LrPrio(lrs[j]) < p
    {
      if Ind(s, act).Some? {
        var k := Ind(s, act).value;
        assert LrPrio(lrs[j]) <= LrPrio(lrs[k]);
      }
    }
  }

  /** A word of the class not above the candidate so far changes nothing. */
  lemma KnowsKeep(lrs: seq<bv32>, n: nat, act: bool, s: Scan)
    requires 0 < n <= |lrs| && ScanKnows(lrs, n - 1, act, s)
    requires InClass(lrs[n - 1], act) && LrPrio(lrs[n - 1]) <= MaxPrio(s, act)
    ensures ScanKnows(lrs, n, act, s)
  {
    if Ind(s, act).Some? {
      var k := Ind(s, act).value;
      forall j | k < j < n && InClass(lrs[j], act)
        ensures LrPrio(lrs[j]) <= LrPrio(lrs[k])
      {
        if j < n - 1 {
          assert Best(lrs, n - 1, act, k);
        }
      }
    } else {
      forall j | 0 <= j < n && InClass(lrs[j], act)
        ensures LrPrio(lrs[j]) == 0
      {
        if j < n - 1 {
          assert AllZero(lrs, n - 1, act);
        }
      }
    }
  }

  /** One scan step keeps what the scan knows. */
  lemma ScanKnowsStep(lrs: seq<bv32>, n: nat, act: bool, s: Scan)
    requires 0 < n <= |lrs| && ScanKnows(lrs, n - 1, act, s)
    ensures ScanKnows(lrs, n, act, ScanStep(s, lrs[n - 1], n - 1))
  {
    var w := lrs[n - 1];
    var t := ScanStep(s, w, n - 1);
    if !InClass(w, act) {
      assert Ind(t, act) == Ind(s, act) && MaxPrio(t, act) == MaxPrio(s, act);
      KnowsSkip(lrs, n, act, s);
    } else if LrPrio(w) > MaxPrio(s, act) {
      assert Ind(t, act) == Some(n - 1) && MaxPrio(t, act) == LrPrio(w);
      KnowsTake(lrs, n, act, s);
    } else {
      assert Ind(t, act) == Ind(s, act) && MaxPrio(t, act) == MaxPrio(s, act);
      KnowsKeep(lrs, n, act, s);
    }
  }

  /** After `n` registers the scan knows the candidate of each class. */
  lemma {:induction false} ScanClass(lrs: seq<bv32>, n: nat, act: bool)
    requires n <= |lrs|
    ensures ScanKnows(lrs, n, act, ScanLrs(lrs, n))
  {
    if n > 0 {
      ScanClass(lrs, n - 1, act);
      ScanKnowsStep(lrs, n, act, ScanLrs(lrs, n - 1));
    }
  }

  /**
   * The register `add_lr` evicts when none is free, the way the code decides
   * it: the pending-only candidate when more than one pending-only word is
   * resident, otherwise the active candidate when more than one active word is.
   */
  function Victim(s: Scan): Option<nat>
  {
    if s.pendFound > 1 then s.pendInd else if s.actFound > 1 then s.actInd else None
  }

  /** The victim in terms of the registers: which class is chosen, and why none may be. */
  lemma VictimChoice(lrs: seq<bv32>, n: nat)
    requires n <= |lrs|
    ensures var v := Victim(ScanLrs(lrs, n));
      v.Some? ==>
        if ClassCount(lrs, n, false) > 1 then Best(lrs, n, false, v.value)
        else ClassCount(lrs, n, true) > 1 && Best(lrs, n, true, v.value)
    ensures Victim(ScanLrs(lrs, n)).None? <==>
      if ClassCount(lrs, n, false) > 1 then AllZero(lrs, n, false)
      else ClassCount(lrs, n, true) <= 1 || AllZero(lrs, n, true)
  {
    ScanCount(lrs, n, false);
    ScanCount(lrs, n, true);
    ScanClass(lrs, n, false);
    ScanClass(lrs, n, true);
  }

  /** The victim scan of `add_lr` over the first `n` registers. */
  method FindVictim(lrs: seq<bv32>, n: nat) returns (r: Option<nat>)
    requires n <= |lrs|
    ensures r == Victim(ScanLrs(lrs, n))
    ensures r.Some? ==>
      if ClassCount(lrs, n, false) > 1 then Best(lrs, n, false, r.value)
      else ClassCount(lrs, n, true) > 1 && Best(lrs, n, true, r.value)
  {
    var pendFound: nat, actFound: nat := 0, 0;
    var minPrioAct: bv32, minPrioPend: bv32 := 0, 0;
    var actInd: Option<nat>, pendInd: Option<nat> := None, None;
    var i := 0;
    while i < n
      invariant i <= n
      invariant Scan(pendFound, actFound, minPrioAct, minPrioPend, actInd, pendInd) == ScanLrs(lrs, i)
    {
      var lr := lrs[i];
      var lrPrio := LrPrio(lr);
      var lrState := LrState(lr);
      if lrState & 2 != 0 {
        if lrPrio > minPrioAct {
          minPrioAct := lrPrio;
          actInd := Some(i);
        }
        actFound := actFound + 1;
      } else if lrState & 1 != 0 {
        if lrPrio > minPrioPend {
          minPrioPend := lrPrio;
          pendInd := Some(i);
        }
        pendFound := pendFound + 1;
      }
      i := i + 1;
    }
    if pendFound > 1 {
      r := pendInd;
    } else if actFound > 1 {
      r := actInd;
    } else {
      r := None;
    }
    VictimChoice(lrs, n);
  }

  /** The register `add_lr` writes into: the first free one, else the victim, else none. */
  function Chosen(lrs: seq<bv32>, n: nat): Option<nat>
    requires n <= |lrs|
  {
    if FirstEmpty(lrs, n).Some? then FirstEmpty(lrs, n) else Victim(ScanLrs(lrs, n))
  }

  /** With one of the first `n` registers empty, `add_lr` always finds a register. */
  lemma EmptyIsChosen(lrs: seq<bv32>, n: nat, i: nat)
    requires n <= |lrs| && i < n && LrEmpty(lrs[i])
    ensures Chosen(lrs, n).Some? && Chosen(lrs, n) == FirstEmpty(lrs, n)
  {
    FirstEmptyIsFirst(lrs, n);
  }

  /** A chosen register is one of the first `n`. */
  lemma ChosenBelow(lrs: seq<bv32>, n: nat)
    requires n <= |lrs|
    ensures Chosen(lrs, n).Some? ==> Chosen(lrs, n).value < n
  {
    FirstEmptyIsFirst(lrs, n);
    VictimChoice(lrs, n);
  }
}
