/** One sparse layer's step. */
module MoeStep {
  /*
   It makes the experts that have tokens resident, describes them to the kernel by address, and lets go
   of them.  An expert that was found or fetched must still be there when the kernel is launched.
  */

  import opened Arithmetic
  import opened ExpertArena
  import opened SlotManager
  import opened Counting

  predicate IsSparse(m: Machine, layer: nat) {
    layer < |m.c.moe| == |m.c.layouts| && m.c.moe[layer]
  }

  // ------------------------------------------------------------------ active experts

  /** The experts with tokens, in ascending order. */
  function Actives(counts: seq<int>): (es: seq<nat>) {
    if counts == [] then []
    else
      var e := |counts| - 1;
      Actives(counts[..e]) + if counts[e] > 0 then [e] else []
  }

  lemma {:induction false} ActivesAscend(counts: seq<int>)
    ensures forall j :: 0 <= j < |Actives(counts)| ==> Actives(counts)[j] < |counts| && counts[Actives(counts)[j]] > 0
    ensures forall i, j :: 0 <= i < j < |Actives(counts)| ==> Actives(counts)[i] < Actives(counts)[j]
  {
    if counts != [] { ActivesAscend(counts[..|counts| - 1]); }
  }

  lemma {:induction false} ActivesHasAll(counts: seq<int>, e: nat)
    requires e < |counts| && counts[e] > 0
    ensures e in Actives(counts)
  {
    var last := |counts| - 1;
    if e < last {
      assert counts[..last][e] == counts[e];
      ActivesHasAll(counts[..last], e);
      var j :| 0 <= j < |Actives(counts[..last])| && Actives(counts[..last])[j] == e;
      assert Actives(counts)[j] == e;
    } else {
      assert Actives(counts)[|Actives(counts)| - 1] == e;
    }
  }

  lemma {:induction false} ActivesNone(counts: seq<int>)
    ensures Actives(counts[..0]) == []
  {
  }

  lemma {:induction false} ActivesStep(counts: seq<int>, e: nat)
    requires e < |counts|
    ensures Actives(counts[..e + 1]) == if counts[e] > 0 then Actives(counts[..e]) + [e] else Actives(counts[..e])
  {
    assert counts[..e + 1][..e] == counts[..e];
  }

  // ------------------------------------------------------------------ holding

  /**
   The step holds the first experts of `es`, as many as there are slots, in distinct slots, and
   nothing else; the others are absent.
  */
  ghost predicate Held(slots: seq<Slot>, where: map<Key, nat>, used: seq<nat>, layer: int, es: seq<nat>) {
    && |used| == Min(|es|, |slots|) && Distinct(used) && InSlots(used, |slots|)
    && (forall j :: 0 <= j < |used| ==> Key(layer, es[j]) in where && where[Key(layer, es[j])] == used[j])
    && (forall j :: |used| <= j < |es| ==> Key(layer, es[j]) !in where)
    && (forall i :: 0 <= i < |slots| ==> (slots[i].busy <==> i in used))
  }

  lemma {:induction false} HeldNothing(slots: seq<Slot>, where: map<Key, nat>, layer: int)
    requires forall i :: 0 <= i < |slots| ==> !slots[i].busy
    ensures Held(slots, where, [], layer, [])
  {
  }

  lemma {:induction false} HeldFound(slots: seq<Slot>, where: map<Key, nat>, used: seq<nat>, layer: int,
        es: seq<nat>, e: nat)
    requires Inverse(slots, where) && Held(slots, where, used, layer, es) && Key(layer, e) in where
    requires forall j :: 0 <= j < |es| ==> es[j] < e
    ensures var slot := where[Key(layer, e)];
      && slot < |slots| && !slots[slot].busy
      && Held(slots[slot := slots[slot].(busy := true)], where, used + [slot], layer, es + [e])
  {
    var slot := where[Key(layer, e)];
    forall j | 0 <= j < |used|
      ensures used[j] != slot
    {
      assert slots[used[j]].Holding() == Key(layer, es[j]);
    }
    Pigeonhole(used, |slots|);
    assert |used| < |slots|;
  }

  lemma {:induction false} HeldFetched(slots: seq<Slot>, where: map<Key, nat>, used: seq<nat>, layer: int,
        es: seq<nat>, e: nat,
                                       slot: nat, filled: Slot)
    requires Inverse(slots, where) && Held(slots, where, used, layer, es) && Key(layer, e) !in where
    requires forall j :: 0 <= j < |es| ==> es[j] < e
    requires slot < |slots| && !slots[slot].busy && filled.busy
    ensures var now := (where - {slots[slot].Holding()})[Key(layer, e) := slot];
            Held(slots[slot := filled], now, used + [slot], layer, es + [e])
  {
    Pigeonhole(used, |slots|);
    assert slot !in used;
    forall j | 0 <= j < |used|
      ensures Key(layer, es[j]) != slots[slot].Holding() && es[j] != e
    {
      assert slots[used[j]].Holding() == Key(layer, es[j]);
    }
  }

  lemma {:induction false} HeldFull(slots: seq<Slot>, where: map<Key, nat>, used: seq<nat>, layer: int, es: seq<nat>,
        e: nat)
    requires Held(slots, where, used, layer, es) && Key(layer, e) !in where
    requires forall i :: 0 <= i < |slots| ==> slots[i].busy
    ensures Held(slots, where, used, layer, es + [e])
    ensures |used| == |slots|
  {
    Pigeonhole(used, |slots|);
  }

  lemma {:induction false} HeldSame(slots: seq<Slot>, slots': seq<Slot>, where: map<Key, nat>, used: seq<nat>,
        layer: int, es: seq<nat>)
    requires Held(slots, where, used, layer, es) && |slots'| == |slots|
    requires forall i :: 0 <= i < |slots| ==> slots'[i].busy == slots[i].busy
    ensures Held(slots', where, used, layer, es)
  {
  }

  ghost predicate AllIn(xs: seq<nat>, ys: seq<nat>) {
    forall x :: x in xs ==> x in ys
  }

  /** The acquire loop: find each active expert and hold it, or fetch it into a slot nobody holds. */
  method AcquireActive(mgr: SlotMgr, layer: nat, counts: seq<int>)
    requires mgr.Valid() && mgr.Quiet() && |counts| == EXPERTS && IsSparse(mgr.m, layer)
    modifies mgr
    ensures mgr.Valid() && |mgr.slots| == old(|mgr.slots|)
    ensures Held(mgr.slots, mgr.where, mgr.used, layer, Actives(counts))
    ensures mgr.pending == [] && mgr.dma == [] && ByCopies(mgr.m, old(mgr.pool), mgr.pool)
  {
    hide SlotMgr.Valid, Settles, CountPinned, RightVictim, Inverse, Sound, Held, Actives, IsSparse, AllIn, Drained,
         ByCopies;
    ghost var pool := mgr.pool;
    NothingDrains(mgr.m, pool);
    ByNoCopies(mgr.m, pool);
    Start(mgr, layer);
    ActivesNone(counts);
    for e := 0 to EXPERTS
      invariant mgr.Valid() && |mgr.slots| == old(|mgr.slots|)
      invariant Held(mgr.slots, mgr.where, mgr.used, layer, Actives(counts[..e]))
      invariant AllIn(mgr.pending, mgr.used) && ByCopies(mgr.m, pool, mgr.Settled())
    {
      ghost var settled := mgr.Settled();
      HoldNext(mgr, layer, counts, e);
      ByCopiesInTurn(mgr.m, pool, settled, mgr.Settled());
    }
    assert counts[..EXPERTS] == counts;
    Land(mgr, layer, Actives(counts));
  }

  method Start(mgr: SlotMgr, layer: nat)
    requires mgr.Valid() && mgr.Quiet()
    modifies mgr`used
    ensures mgr.Valid() && Held(mgr.slots, mgr.where, mgr.used, layer, []) && AllIn(mgr.pending, mgr.used)
  {
    hide SlotMgr.Valid, Settles, CountPinned, RightVictim, Inverse, Sound;
    mgr.BeginStep();
    HeldNothing(mgr.slots, mgr.where, layer);
  }

  /** Waiting for the copies releases none of the slots that are held. */
  method Land(mgr: SlotMgr, layer: nat, ghost es: seq<nat>)
    requires mgr.Valid() && Held(mgr.slots, mgr.where, mgr.used, layer, es) && AllIn(mgr.pending, mgr.used)
    modifies mgr`slots, mgr`pending, mgr`dma, mgr`pool
    ensures mgr.Valid() && Held(mgr.slots, mgr.where, mgr.used, layer, es) && mgr.slots == old(mgr.slots)
    ensures mgr.pending == [] && mgr.dma == [] && mgr.pool == old(mgr.Settled())
  {
    hide SlotMgr.Valid, Settles, CountPinned, RightVictim, Inverse, Sound, Held, SameHoldings;
    mgr.SyncCopies();
  }

  /** One turn of the loop. */
  method HoldNext(mgr: SlotMgr, layer: nat, counts: seq<int>, e: nat)
    requires mgr.Valid() && e < EXPERTS == |counts| && IsSparse(mgr.m, layer)
    requires Held(mgr.slots, mgr.where, mgr.used, layer, Actives(counts[..e]))
    requires AllIn(mgr.pending, mgr.used)
    modifies mgr
    ensures mgr.Valid() && |mgr.slots| == old(|mgr.slots|)
    ensures Held(mgr.slots, mgr.where, mgr.used, layer, Actives(counts[..e + 1]))
    ensures AllIn(mgr.pending, mgr.used) && ByCopies(mgr.m, old(mgr.Settled()), mgr.Settled())
  {
    hide SlotMgr.Valid, Settles, CountPinned, RightVictim, Inverse, Sound, Held, Actives, IsSparse, Drained, ByCopies;
    ByNoCopies(mgr.m, mgr.Settled());
    ActivesStep(counts, e);
    ActivesAscend(counts[..e]);
    if counts[e] > 0 { HoldOne(mgr, layer, Actives(counts[..e]), e); }
  }

  /** Find the expert and hold it, or fetch it. */
  method HoldOne(mgr: SlotMgr, layer: nat, ghost es: seq<nat>, e: nat)
    requires mgr.Valid() && e < EXPERTS && IsSparse(mgr.m, layer)
    requires Held(mgr.slots, mgr.where, mgr.used, layer, es)
    requires forall j :: 0 <= j < |es| ==> es[j] < e
    requires AllIn(mgr.pending, mgr.used)
    modifies mgr
    ensures mgr.Valid() && |mgr.slots| == old(|mgr.slots|)
    ensures Held(mgr.slots, mgr.where, mgr.used, layer, es + [e])
    ensures AllIn(mgr.pending, mgr.used) && ByCopies(mgr.m, old(mgr.Settled()), mgr.Settled())
  {
    hide Settles, CountPinned, RightVictim, Held, Inverse, SlotMgr.Valid, SlotMgr.Fetched, Sound, IsKey, Waited,
         Touched, IsSparse,
         Drained, ByCopies;
    ByNoCopies(mgr.m, mgr.Settled());
    var k := Key(layer, e);
    ValidIsSound(mgr);
    LayerKeys(mgr.m, layer, e);
    mgr.NoteRequest(k);
    var slot := Look(mgr, layer, es, e);
    ValidIsInverse(mgr);
    ghost var slots1, where1, used1, pending1, clock1 := mgr.slots, mgr.where, mgr.used, mgr.pending, mgr.clock;
    if slot < 0 {
      slot := mgr.Acquire(k);
      FetchedIsHeld(mgr, slots1, pending1, used1, where1, clock1, slot, layer, es, e);
    } else {
      HeldFound(slots1, where1, used1, layer, es, e);
      mgr.Reserve(slot);
    }
  }

  lemma {:induction false} ValidIsInverse(mgr: SlotMgr)
    requires mgr.Valid()
    ensures Inverse(mgr.slots, mgr.where)
  {
  }

  /** Acquiring a missing expert adds it to what is held, or finds the pool full, which costs nothing. */
  lemma {:induction false} FetchedIsHeld(mgr: SlotMgr, slots0: seq<Slot>, pending0: seq<nat>, used0: seq<nat>,
        where0: map<Key, nat>, clock0: nat, slot: int, layer: int, es: seq<nat>, e: nat)
    requires mgr.Fetched(Key(layer, e), slots0, pending0, used0, where0, clock0, slot)
    requires Inverse(slots0, where0) && Held(slots0, where0, used0, layer, es) && Key(layer, e) !in where0
    requires AllIn(pending0, used0) && forall j :: 0 <= j < |es| ==> es[j] < e
    ensures Held(mgr.slots, mgr.where, mgr.used, layer, es + [e]) && AllIn(mgr.pending, mgr.used)
  {
    hide Held, Inverse, RightVictim;
    assert Waited(slots0, pending0, used0) == slots0;
    if slot < 0 {
      HeldFull(slots0, where0, used0, layer, es, e);
    } else {
      HeldFetched(slots0, where0, used0, layer, es, e, slot, mgr.slots[slot]);
    }
  }

  // ------------------------------------------------------------------ after the loop

  /** Looking an expert up leaves what the step holds alone. */
  method Look(mgr: SlotMgr, layer: nat, ghost es: seq<nat>, e: nat) returns (slot: int)
    requires mgr.Valid() && Held(mgr.slots, mgr.where, mgr.used, layer, es)
    modifies mgr`slots, mgr`clock, mgr`pinnedCount
    ensures mgr.Valid() && Held(mgr.slots, mgr.where, mgr.used, layer, es) && |mgr.slots| == old(|mgr.slots|)
    ensures slot == SlotOf(mgr.where, Key(layer, e))
  {
    hide Settles, CountPinned, Inverse, Sound, Held;
    ghost var slots0 := mgr.slots;
    slot := mgr.Find(Key(layer, e));
    HeldSame(slots0, mgr.slots, mgr.where, mgr.used, layer, es);
  }

  function SlotOf(where: map<Key, nat>, k: Key): int {
    if k in where then where[k] else -1
  }

  lemma {:induction false} CountTells(slots: seq<Slot>, where: map<Key, nat>, used: seq<nat>, layer: int,
        counts: seq<int>, e: nat)
    requires Held(slots, where, used, layer, Actives(counts)) && e < |counts| && counts[e] > 0
    ensures Key(layer, e) in where <==> |Actives(counts[..e])| < |slots|
  {
    hide Held, Actives;
    ActivesPrefix(counts, e);
    HeldTells(slots, where, used, layer, Actives(counts), |Actives(counts[..e])|);
  }

  /** How many active experts have no slot: those beyond the number of slots. */
  method CountMissing(mgr: SlotMgr, layer: nat, counts: seq<int>) returns (missing: nat)
    requires mgr.Valid() && |counts| == EXPERTS
    requires Held(mgr.slots, mgr.where, mgr.used, layer, Actives(counts))
    modifies mgr`slots, mgr`clock, mgr`pinnedCount
    ensures mgr.Valid() && |mgr.slots| == old(|mgr.slots|)
    ensures Held(mgr.slots, mgr.where, mgr.used, layer, Actives(counts))
    ensures missing == |Actives(counts)| - Min(|Actives(counts)|, |mgr.slots|)
  {
    hide Settles, CountPinned, Inverse, Sound, Held, Actives, SlotMgr.Valid;
    missing := 0;
    ActivesNone(counts);
    for e := 0 to EXPERTS
      invariant mgr.Valid() && |mgr.slots| == old(|mgr.slots|)
      invariant Held(mgr.slots, mgr.where, mgr.used, layer, Actives(counts))
      invariant missing == |Actives(counts[..e])| - Min(|Actives(counts[..e])|, |mgr.slots|)
    {
      ActivesStep(counts, e);
      if counts[e] > 0 {
        CountTells(mgr.slots, mgr.where, mgr.used, layer, counts, e);
        var slot := Look(mgr, layer, Actives(counts), e);
        if slot < 0 { missing := missing + 1; }
      }
    }
    assert counts[..EXPERTS] == counts;
  }

  /** One turn of the forcing pass: an absent expert stays absent, for the step holds every slot. */
  method ForceOne(mgr: SlotMgr, layer: nat, counts: seq<int>, e: nat) returns (zeroed: bool)
    requires mgr.Valid() && |counts| == EXPERTS && e < EXPERTS && counts[e] > 0 && IsSparse(mgr.m, layer)
    requires Held(mgr.slots, mgr.where, mgr.used, layer, Actives(counts))
    modifies mgr
    ensures mgr.Valid() && |mgr.slots| == old(|mgr.slots|)
    ensures Held(mgr.slots, mgr.where, mgr.used, layer, Actives(counts))
    ensures mgr.where == old(mgr.where) && mgr.used == old(mgr.used)
    ensures mgr.pool == old(mgr.pool) && mgr.pending == old(mgr.pending) && mgr.dma == old(mgr.dma)
    ensures zeroed <==> Key(layer, e) !in mgr.where
  {
    hide Settles, CountPinned, RightVictim, Inverse, Sound, Held, Actives, IsSparse;
    var slot := Look(mgr, layer, Actives(counts), e);
    if slot >= 0 { return false; }
    ActivesPrefix(counts, e);
    HeldTells(mgr.slots, mgr.where, mgr.used, layer, Actives(counts), |Actives(counts[..e])|);
    ValidIsSound(mgr);
    LayerKeys(mgr.m, layer, e);
    slot := mgr.ForceResident(Key(layer, e));
    assert slot < 0;   // so the source's reserve after a successful forcing is never reached
    return true;
  }

  lemma {:induction false} ValidIsSound(mgr: SlotMgr)
    requires mgr.Valid()
    ensures Sound(mgr.m)
  {
  }

  /**
   The passes over experts that are still missing. Forcing one in finds no slot to take, since the step
   holds them all; so they leave the pool alone, and the missing experts stay missing.
  */
  method Resolve(mgr: SlotMgr, layer: nat, counts: seq<int>) returns (still: nat)
    requires mgr.Valid() && |counts| == EXPERTS && IsSparse(mgr.m, layer)
    requires Held(mgr.slots, mgr.where, mgr.used, layer, Actives(counts))
    modifies mgr
    ensures mgr.Valid() && |mgr.slots| == old(|mgr.slots|)
    ensures Held(mgr.slots, mgr.where, mgr.used, layer, Actives(counts))
    ensures mgr.where == old(mgr.where) && mgr.used == old(mgr.used)
    ensures mgr.pool == old(mgr.pool) && mgr.pending == old(mgr.pending) && mgr.dma == old(mgr.dma)
    ensures still == |Actives(counts)| - Min(|Actives(counts)|, |mgr.slots|)
  {
    hide Settles, CountPinned, RightVictim, Inverse, Sound, Held, Actives, IsSparse;
    var missing := CountMissing(mgr, layer, counts);
    if missing == 0 { return 0; }
    for e := 0 to EXPERTS
      invariant mgr.Valid() && |mgr.slots| == old(|mgr.slots|)
      invariant Held(mgr.slots, mgr.where, mgr.used, layer, Actives(counts))
      invariant mgr.where == old(mgr.where) && mgr.used == old(mgr.used)
      invariant mgr.pool == old(mgr.pool) && mgr.pending == old(mgr.pending) && mgr.dma == old(mgr.dma)
    {
      if counts[e] > 0 { var zeroed := ForceOne(mgr, layer, counts, e); }
    }
    still := CountMissing(mgr, layer, counts);
  }

  lemma {:induction false} LayerKeys(m: Machine, layer: nat, e: nat)
    requires Sound(m) && IsSparse(m, layer) && e < EXPERTS
    ensures IsKey(m, Key(layer, e))
  {
  }

  /** The active experts seen so far are the first of all of them. */
  lemma {:induction false} ActivesPrefix(counts: seq<int>, e: nat)
    requires e < |counts|
    ensures |Actives(counts[..e])| <= |Actives(counts)|
    ensures counts[e] > 0 ==> |Actives(counts[..e])| < |Actives(counts)| && Actives(counts)[|Actives(counts[..e])|] == e
  {
    var last := |counts| - 1;
    if e < last {
      ActivesPrefix(counts[..last], e);
      assert counts[..last][..e] == counts[..e];
    }
  }

  /** Whether the j-th active expert is resident, and that nothing can be forced in when it is not. */
  lemma {:induction false} HeldTells(slots: seq<Slot>, where: map<Key, nat>, used: seq<nat>, layer: int,
        es: seq<nat>, j: nat)
    requires Held(slots, where, used, layer, es) && j < |es|
    ensures Key(layer, es[j]) in where <==> j < |slots|
    ensures j >= |slots| ==> forall i :: 0 <= i < |slots| ==> i in used
  {
    Pigeonhole(used, |slots|);
  }

  // ------------------------------------------------------------------ pointer tables

  // A kernel's view of an address: nothing, a place in the slot pool, or a place in the zero slab.
  datatype Ptr = Null | Pool(at: nat) | Zero(at: nat)

  const TABLES := 9

  // The tables hold trellis, suh and svh of each projection; the multiplier words are not passed on.
  function PieceOf(table: nat): (q: nat)
    requires table < TABLES
    ensures q < PIECES
  {
    [0, 1, 2, 4, 5, 6, 8, 9, 10][table]
  }

  predicate TableShape(tables: seq<Ptr>) {
    |tables| == TABLES * EXPERTS
  }

  function Lookup(tables: seq<Ptr>, t: nat, e: nat): Ptr
    requires TableShape(tables) && t < TABLES && e < EXPERTS
  {
    tables[t * EXPERTS + e]
  }

  function Put(tables: seq<Ptr>, t: nat, e: nat, p: Ptr): (r: seq<Ptr>)
    requires TableShape(tables) && t < TABLES && e < EXPERTS
    ensures TableShape(r)
  {
    tables[t * EXPERTS + e := p]
  }

  lemma {:induction false} PutThenLookup(tables: seq<Ptr>, t: nat, e: nat, p: Ptr)
    requires TableShape(tables) && t < TABLES && e < EXPERTS
    ensures forall u: nat, f: nat :: u < TABLES && f < EXPERTS ==>
              Lookup(Put(tables, t, e, p), u, f) == if u == t && f == e then p else Lookup(tables, u, f)
  {
    forall u: nat, f: nat | u < TABLES && f < EXPERTS
      ensures Lookup(Put(tables, t, e, p), u, f) == if u == t && f == e then p else Lookup(tables, u, f)
    {
      if u < t { assert u * EXPERTS + EXPERTS <= t * EXPERTS; }
      if t < u { assert t * EXPERTS + EXPERTS <= u * EXPERTS; }
    }
  }

  function SlotAddress(slot: nat, width: nat): nat {
    slot * width
  }

  // The entry of an expert in a table, given the slot it is in (-1: none) and whether it has tokens.
  function Entry(y: Layout, width: nat, slot: int, active: bool, table: nat): Ptr
    requires WellLaid(y) && table < TABLES
  {
    if slot >= 0 then Pool(SlotAddress(slot, width) + y.off[PieceOf(table)])
    else if active then Zero(y.off[PieceOf(table)])
    else Null
  }

  ghost predicate Describes(tables: seq<Ptr>, y: Layout, width: nat, where: map<Key, nat>, layer: int,
        counts: seq<int>, upTo: nat)
    requires WellLaid(y) && upTo <= EXPERTS == |counts|
  {
    && TableShape(tables)
    && forall t: nat, e: nat :: e < upTo && t < TABLES ==>
         Lookup(tables, t, e) == Entry(y, width, SlotOf(where, Key(layer, e)), counts[e] > 0, t)
  }

  /**
   The tables word for word: nine rows of 288, for gate, up and down in turn the trellis, suh and svh of each expert,
   which are the first three of the four pieces that a projection has in a slab.
  */
  predicate TablesAre(tables: seq<Ptr>, y: Layout, width: nat, where: map<Key, nat>, layer: int, counts: seq<int>)
    requires |y.off| == 12 && |counts| == 288
  {
    && |tables| == 9 * 288
    && forall e: nat, j: nat, k: nat :: e < 288 && j < 3 && k < 3 ==>
         WordIs(tables, y, width, where, layer, counts, e, j, k)
  }

  // The word of expert `e` for piece `k` of projection `j`.
  predicate WordIs(tables: seq<Ptr>, y: Layout, width: nat, where: map<Key, nat>, layer: int, counts: seq<int>,
                   e: nat, j: nat, k: nat)
    requires |tables| == 9 * 288 && |y.off| == 12 && |counts| == 288 && e < 288 && j < 3 && k < 3
  {
    var off, key := y.off[4 * j + k], Key(layer, e);
    tables[(3 * j + k) * 288 + e]
    == if key in where then Pool(where[key] * width + off) else if counts[e] > 0 then Zero(off) else Null
  }

  lemma {:induction false} TablesSpelled(tables: seq<Ptr>, y: Layout, width: nat, where: map<Key, nat>, layer: int,
        counts: seq<int>)
    requires WellLaid(y) && |counts| == EXPERTS && Describes(tables, y, width, where, layer, counts, EXPERTS)
    ensures TablesAre(tables, y, width, where, layer, counts)
  {
    forall e: nat, j: nat, k: nat | e < 288 && j < 3 && k < 3
      ensures WordIs(tables, y, width, where, layer, counts, e, j, k)
    {
      PieceIs(j, k);
      assert Lookup(tables, 3 * j + k, e) == tables[(3 * j + k) * 288 + e];
    }
  }

  lemma {:induction false} PieceIs(j: nat, k: nat)
    requires j < 3 && k < 3
    ensures 3 * j + k < TABLES && PieceOf(3 * j + k) == 4 * j + k
  {
  }

  method BuildTables(mgr: SlotMgr, layer: nat, counts: seq<int>) returns (tables: seq<Ptr>)
    requires mgr.Valid() && |counts| == EXPERTS && IsSparse(mgr.m, layer)
    requires WellLaid(mgr.m.c.layouts[layer])
    requires Held(mgr.slots, mgr.where, mgr.used, layer, Actives(counts))
    modifies mgr`slots, mgr`clock, mgr`pinnedCount
    ensures mgr.Valid() && |mgr.slots| == old(|mgr.slots|)
    ensures Held(mgr.slots, mgr.where, mgr.used, layer, Actives(counts))
    ensures Describes(tables, mgr.m.c.layouts[layer], mgr.m.width, mgr.where, layer, counts, EXPERTS)
    ensures TablesAre(tables, mgr.m.c.layouts[layer], mgr.m.width, mgr.where, layer, counts)
  {
    hide Settles, CountPinned, RightVictim, Inverse, Held, Actives, WellLaid, Sound, TablesAre;
    var y, width := mgr.m.c.layouts[layer], mgr.m.width;
    tables := seq(TABLES * EXPERTS, _ => Null);
    for e := 0 to EXPERTS
      invariant mgr.Valid() && |mgr.slots| == old(|mgr.slots|)
      invariant Held(mgr.slots, mgr.where, mgr.used, layer, Actives(counts))
      invariant Describes(tables, y, width, mgr.where, layer, counts, e)
    {
      var slot := Look(mgr, layer, Actives(counts), e);
      tables := FillColumn(tables, y, width, mgr.where, layer, counts, e, slot);
    }
    TablesSpelled(tables, y, width, mgr.where, layer, counts);
  }

  method FillColumn(tables0: seq<Ptr>, y: Layout, width: nat, ghost where: map<Key, nat>, layer: int, counts: seq<int>,
                    e: nat, slot: int)
    returns (tables: seq<Ptr>)
    requires WellLaid(y) && e < EXPERTS == |counts| && slot == SlotOf(where, Key(layer, e))
    requires Describes(tables0, y, width, where, layer, counts, e)
    ensures Describes(tables, y, width, where, layer, counts, e + 1)
  {
    hide WellLaid, PieceOf, Entry, Lookup, Put;
    tables := tables0;
    for t := 0 to TABLES
      invariant Describes(tables, y, width, where, layer, counts, e)
      invariant TableShape(tables)
      invariant forall u: nat :: u < t ==> Lookup(tables, u, e) == Entry(y, width, slot, counts[e] > 0, u)
    {
      PutThenLookup(tables, t, e, Entry(y, width, slot, counts[e] > 0, t));
      tables := Put(tables, t, e, Entry(y, width, slot, counts[e] > 0, t));
    }
  }

  // ------------------------------------------------------------------ what the kernel finds

  // One launch of the grouped kernel: what it is given and what the pool holds at that moment.
  datatype Launch = Launch(layer: nat, counts: seq<int>, tables: seq<Ptr>, pool: Bytes)

  // The entry leads to the very bytes of the expert's tensor piece.
  ghost predicate Reaches(m: Machine, pool: Bytes, p: Ptr, layer: nat, e: nat, table: nat)
    requires Sound(m) && IsSparse(m, layer) && e < EXPERTS && table < TABLES
  {
    var y := m.c.layouts[layer];
    && p.Pool? && InRange(pool, p.at, y.piece[PieceOf(table)])
    && Read(pool, p.at, y.piece[PieceOf(table)]) == m.t(layer, e)[PieceOf(table)]
  }

  // The entry stays inside a zero slab as wide as a slot.
  ghost predicate ReadsZeros(m: Machine, p: Ptr, layer: nat, table: nat)
    requires Sound(m) && IsSparse(m, layer) && table < TABLES
  {
    var y := m.c.layouts[layer];
    p == Zero(y.off[PieceOf(table)]) && p.at + y.piece[PieceOf(table)] <= m.width
  }

  /**
   What a launch relies on: every entry of an expert with tokens leads to that expert's own weights, as
   far as the slots go; the experts beyond that number, the last ones, are served as zeros.
  */
  ghost predicate LaunchOk(m: Machine, nSlots: nat, launch: Launch)
    requires Sound(m)
  {
    && IsSparse(m, launch.layer) && |launch.counts| == EXPERTS && TableShape(launch.tables)
    && forall j: nat, t: nat :: j < |Actives(launch.counts)| && t < TABLES ==>
         EntryOk(m, nSlots, launch, j, t)
  }

  ghost predicate EntryOk(m: Machine, nSlots: nat, launch: Launch, j: nat, t: nat)
    requires Sound(m) && IsSparse(m, launch.layer) && |launch.counts| == EXPERTS && TableShape(launch.tables)
    requires j < |Actives(launch.counts)| && t < TABLES
  {
    ActivesAscend(launch.counts);
    var e := Actives(launch.counts)[j];
    var p := Lookup(launch.tables, t, e);
    if j < nSlots then Reaches(m, launch.pool, p, launch.layer, e, t) else ReadsZeros(m, p, launch.layer, t)
  }

  // The word leads to the bytes of piece `q` of the expert, complete.
  ghost predicate LeadsTo(m: Machine, pool: Bytes, p: Ptr, layer: nat, e: nat, q: nat) {
    && p.Pool? && q < |m.t(layer, e)| && p.at + |m.t(layer, e)[q]| <= |pool|
    && pool[p.at..p.at + |m.t(layer, e)[q]|] == m.t(layer, e)[q]
  }

  /**
   What a launch relies on, in the tensors' own terms: the words of an expert with tokens lead to its trellis, suh
   and svh of the gate, up and down projection, if it is among the first active ones, else into the zero slab.
  */
  lemma {:induction false} LaunchReachesTensors(m: Machine, nSlots: nat, launch: Launch, e: nat, j: nat, k: nat)
    requires Sound(m) && LaunchOk(m, nSlots, launch) && e < 288 && j < 3 && k < 3 && launch.counts[e] > 0
    ensures |launch.tables| == 9 * 288 && |m.c.layouts[launch.layer].off| == 12
    ensures var p := launch.tables[(3 * j + k) * 288 + e];
      if |Actives(launch.counts[..e])| < nSlots then LeadsTo(m, launch.pool, p, launch.layer, e, 4 * j + k)
      else p == Zero(m.c.layouts[launch.layer].off[4 * j + k])
  {
    hide Actives;
    ActivesPrefix(launch.counts, e);
    PieceIs(j, k);
    assert IsExpert(m.c, launch.layer, e);
    assert EntryOk(m, nSlots, launch, |Actives(launch.counts[..e])|, 3 * j + k);
    assert Lookup(launch.tables, 3 * j + k, e) == launch.tables[(3 * j + k) * 288 + e];
  }

  lemma {:induction false} SlabEntryReaches(m: Machine, pool: Bytes, slot: nat, layer: nat, e: nat, table: nat)
    requires Sound(m) && IsSparse(m, layer) && e < EXPERTS && table < TABLES
    requires HoldsKey(m, pool, slot, Key(layer, e))
    ensures Reaches(m, pool, Entry(m.c.layouts[layer], m.width, slot, true, table), layer, e, table)
  {
    hide PieceEnd;
    assert PieceFits(m.c.layouts[layer], PieceOf(table), slot * m.width, pool);
  }

  lemma {:induction false} ZeroEntryFits(m: Machine, layer: nat, table: nat)
    requires Sound(m) && IsSparse(m, layer) && table < TABLES
    ensures ReadsZeros(m, Entry(m.c.layouts[layer], m.width, -1, true, table), layer, table)
  {
    PiecesAreDisjoint(m.c.layouts[layer], PieceOf(table), PIECES);
  }

  lemma {:induction false} ResidentHolds(mgr: SlotMgr, k: Key)
    requires mgr.Valid() && mgr.dma == [] && k in mgr.where
    ensures IsKey(mgr.m, k) && HoldsKey(mgr.m, mgr.pool, mgr.where[k], k)
  {
    hide HoldsKey;
    mgr.WhereIs(k);
  }

  /** Holding the experts, with no copy in flight and the tables built, is what a launch relies on. */
  lemma {:induction false} HeldIsLaunchable(mgr: SlotMgr, launch: Launch)
    requires mgr.Valid() && mgr.dma == [] && IsSparse(mgr.m, launch.layer) && |launch.counts| == EXPERTS
    requires Held(mgr.slots, mgr.where, mgr.used, launch.layer, Actives(launch.counts))
    requires WellLaid(mgr.m.c.layouts[launch.layer])
    requires Describes(launch.tables, mgr.m.c.layouts[launch.layer], mgr.m.width, mgr.where, launch.layer,
                       launch.counts, EXPERTS)
    requires launch.pool == mgr.pool
    ensures LaunchOk(mgr.m, |mgr.slots|, launch)
  {
    hide Settles, CountPinned, Inverse, Sound, Held, Actives, WellLaid, HoldsKey, Entry, Reaches, ReadsZeros, PieceOf,
         Lookup;
    var es := Actives(launch.counts);
    ActivesAscend(launch.counts);
    ValidIsSound(mgr);
    forall j: nat, t: nat | j < |es| && t < TABLES
      ensures EntryOk(mgr.m, |mgr.slots|, launch, j, t)
    {
      HeldTells(mgr.slots, mgr.where, mgr.used, launch.layer, es, j);
      var k := Key(launch.layer, es[j]);
      if j < |mgr.slots| {
        ResidentHolds(mgr, k);
        SlabEntryReaches(mgr.m, mgr.pool, mgr.where[k], launch.layer, es[j], t);
      } else {
        ZeroEntryFits(mgr.m, launch.layer, t);
      }
    }
  }

  // ------------------------------------------------------------------ runs of steps

  // One call of the layer: its tokens per expert, and whether the census is ranked anew at its end.
  datatype Request = Request(layer: nat, counts: seq<int>, rankAgain: bool)

  predicate Serves(m: Machine, r: Request) {
    |r.counts| == EXPERTS && IsSparse(m, r.layer)
  }

  lemma {:induction false} SparseIsLaid(m: Machine, layer: nat)
    requires Sound(m) && IsSparse(m, layer)
    ensures WellLaid(m.c.layouts[layer])
  {
  }

  lemma {:induction false} HeldLetGo(before: seq<Slot>, after: seq<Slot>, where: map<Key, nat>, used: seq<nat>,
        layer: int, es: seq<nat>)
    requires Inverse(before, where) && Held(before, where, used, layer, es) && SameHoldings(before, after)
    requires forall i :: 0 <= i < |after| ==> after[i].busy == (before[i].busy && (i !in used || after[i].Free()))
    ensures forall i :: 0 <= i < |after| ==> !after[i].busy
  {
    forall i | 0 <= i < |after|
      ensures !after[i].busy
    {
      if before[i].busy {
        var j :| 0 <= j < |used| && used[j] == i;
        assert where[Key(layer, es[j])] == i;
      }
    }
  }

  /** One step, up to the launch and past it. */
  method Step(mgr: SlotMgr, r: Request) returns (launch: Launch)
    requires mgr.Valid() && mgr.Quiet() && Serves(mgr.m, r)
    modifies mgr
    ensures mgr.Valid() && mgr.Quiet() && |mgr.slots| == old(|mgr.slots|)
    ensures launch.layer == r.layer && launch.counts == r.counts
    ensures LaunchOk(mgr.m, |mgr.slots|, launch)
    ensures launch.pool == mgr.pool && |mgr.pool| == |mgr.slots| * mgr.m.width
    ensures ByCopies(mgr.m, old(mgr.pool), mgr.pool)
  {
    hide SlotMgr.Valid, Settles, CountPinned, RightVictim, Inverse, Sound, Held, Actives, IsSparse, WellLaid,
         Describes, LaunchOk,
         ByCopies;
    ValidIsSound(mgr);
    SparseIsLaid(mgr.m, r.layer);
    AcquireActive(mgr, r.layer, r.counts);
    var still := Resolve(mgr, r.layer, r.counts);
    var tables := BuildTables(mgr, r.layer, r.counts);
    launch := Launch(r.layer, r.counts, tables, mgr.pool);
    HeldIsLaunchable(mgr, launch);
    Finish(mgr, r);
    PoolSize(mgr);
  }

  lemma {:induction false} PoolSize(mgr: SlotMgr)
    requires mgr.Valid()
    ensures |mgr.pool| == |mgr.slots| * mgr.m.width
  {
  }

  method Finish(mgr: SlotMgr, r: Request)
    requires mgr.Valid() && mgr.pending == [] && mgr.dma == []
    requires Held(mgr.slots, mgr.where, mgr.used, r.layer, Actives(r.counts))
    modifies mgr`slots, mgr`used, mgr`hot
    ensures mgr.Valid() && mgr.Quiet() && |mgr.slots| == old(|mgr.slots|)
  {
    hide Settles, CountPinned, Inverse, Sound, Held, Actives;
    ghost var slots, used := mgr.slots, mgr.used;
    assert Inverse(slots, mgr.where);
    mgr.EndStep(r.rankAgain);
    HeldLetGo(slots, mgr.slots, mgr.where, used, r.layer, Actives(r.counts));
  }

  ghost predicate LaunchesOk(m: Machine, nSlots: nat, rs: seq<Request>, launches: seq<Launch>)
    requires Sound(m) && |launches| <= |rs|
  {
    forall i :: 0 <= i < |launches| ==>
      launches[i].layer == rs[i].layer && launches[i].counts == rs[i].counts && LaunchOk(m, nSlots, launches[i])
  }

  /** The pool of each launch has the slots' bytes, and has come by copies from that of the launch before. */
  ghost predicate PoolsFollow(m: Machine, memory: Bytes, nSlots: nat, launches: seq<Launch>) {
    forall i :: 0 <= i < |launches| ==>
      && |launches[i].pool| == nSlots * m.width
      && ByCopies(m, PoolBefore(memory, launches, i), launches[i].pool)
  }

  function PoolBefore(memory: Bytes, launches: seq<Launch>, i: nat): Bytes
    requires i <= |launches|
  {
    if i == 0 then memory else launches[i - 1].pool
  }

  lemma {:induction false} NothingFollows(m: Machine, memory: Bytes, nSlots: nat)
    ensures PoolsFollow(m, memory, nSlots, []) && PoolBefore(memory, [], 0) == memory
  {
  }

  lemma {:induction false} FollowsMore(m: Machine, memory: Bytes, nSlots: nat, launches: seq<Launch>, launch: Launch,
                                       before: Bytes)
    requires PoolsFollow(m, memory, nSlots, launches) && |launch.pool| == nSlots * m.width
    requires before == PoolBefore(memory, launches, |launches|)
    requires ByCopies(m, before, launch.pool)
    ensures PoolsFollow(m, memory, nSlots, launches + [launch])
    ensures PoolBefore(memory, launches + [launch], |launches| + 1) == launch.pool
  {
    hide ByCopies;
    var more := launches + [launch];
    forall i | 0 <= i < |more|
      ensures |more[i].pool| == nSlots * m.width && ByCopies(m, PoolBefore(memory, more, i), more[i].pool)
    {
      assert PoolBefore(memory, more, i) == PoolBefore(memory, launches, i);
      if i < |launches| { assert more[i] == launches[i]; }
    }
  }

  /** Any run of steps, from an empty pool: every launch is given what it relies on. */
  method RunSteps(m: Machine, memory: Bytes, nSlots: nat, census: seq<nat>,
        rs: seq<Request>) returns (launches: seq<Launch>)
    requires Sound(m) && nSlots >= 16 && |memory| == nSlots * m.width && |census| == |m.c.moe| * EXPERTS
    requires forall i :: 0 <= i < |rs| ==> Serves(m, rs[i])
    ensures |launches| == |rs| && LaunchesOk(m, nSlots, rs, launches) && PoolsFollow(m, memory, nSlots, launches)
  {
    hide SlotMgr.Valid, Settles, CountPinned, Inverse, Sound, LaunchOk, SlotMgr.Quiet, ByCopies, PoolsFollow,
         PoolBefore;
    var mgr := new SlotMgr.InitFromPool(m, memory, nSlots, census);
    NothingFollows(m, memory, nSlots);
    launches := [];
    for i := 0 to |rs|
      invariant mgr.Valid() && mgr.Quiet() && mgr.m == m && |mgr.slots| == nSlots
      invariant |launches| == i && LaunchesOk(m, nSlots, rs, launches) && PoolsFollow(m, memory, nSlots, launches)
      invariant mgr.pool == PoolBefore(memory, launches, i)
    {
      ghost var before := mgr.pool;
      var launch := Step(mgr, rs[i]);
      FollowsMore(m, memory, nSlots, launches, launch, before);
      launches := launches + [launch];
    }
  }

  // ------------------------------------------------------------------ from the checkpoint to the launches

  // The sizes of the sparse layers' pieces; every gate trellis has bytes.
  predicate Sizes(moe: seq<bool>, pieces: seq<seq<nat>>) {
    |pieces| == |moe| && forall l :: 0 <= l < |moe| && moe[l] ==> |pieces[l]| == PIECES && pieces[l][0] > 0
  }

  ghost predicate HasSizes(moe: seq<bool>, pieces: seq<seq<nat>>, t: Checkpoint)
    requires Sizes(moe, pieces)
  {
    forall l: nat, e: nat :: l < |moe| && moe[l] && e < EXPERTS ==>
      |t(l, e)| == PIECES && forall q :: 0 <= q < PIECES ==> |t(l, e)[q]| == pieces[l][q]
  }

  predicate IsLaid(y: Layout, piece: seq<nat>) {
    WellLaid(y) && y.piece == piece && y.stride > 0
  }

  method LayOut(moe: seq<bool>, pieces: seq<seq<nat>>) returns (layouts: seq<Layout>)
    requires Sizes(moe, pieces)
    ensures |layouts| == |moe|
    ensures forall l :: 0 <= l < |moe| && moe[l] ==> IsLaid(layouts[l], pieces[l])
  {
    hide WellLaid;
    layouts := [];
    for l := 0 to |moe|
      invariant |layouts| == l
      invariant forall k :: 0 <= k < l && moe[k] ==> IsLaid(layouts[k], pieces[k])
    {
      var y := Layout([], [], 0);
      if moe[l] {
        y := ExpertLayout(pieces[l]);
        StrideIsPositive(y);
      }
      layouts := layouts + [y];
    }
  }

  lemma {:induction false} StrideIsPositive(y: Layout)
    requires WellLaid(y) && y.piece[0] > 0
    ensures y.stride > 0
  {
    PiecesAreDisjoint(y, 0, PIECES);
  }

  lemma {:induction false} LaidOutMatches(moe: seq<bool>, pieces: seq<seq<nat>>, t: Checkpoint, layouts: seq<Layout>)
    requires Sizes(moe, pieces) && HasSizes(moe, pieces, t) && |layouts| == |moe|
    requires forall l :: 0 <= l < |moe| && moe[l] ==> IsLaid(layouts[l], pieces[l])
    ensures var c := Config(EXPERTS, moe, layouts); Proper(c) && Matches(c, t)
  {
    hide PieceEnd;
    var c := Config(EXPERTS, moe, layouts);
    forall l: nat, e: nat | IsExpert(c, l, e)
      ensures Fits(t(l, e), layouts[l])
    {
      assert |t(l, e)| == PIECES;
    }
  }

  lemma {:induction false} LoadedIsSound(m: Machine)
    requires Proper(m.c) && m.c.experts == EXPERTS && Matches(m.c, m.t) && ArenaHolds(m.c, m.t, m.arena)
    requires WidestBelow(m.c, m.width, |m.c.moe|)
    ensures Sound(m)
  {
    hide Proper, Matches, ArenaHolds;
  }

  /**
   From the sizes of the tensors to the launches: lay the experts out, plan and load the arena, allocate as
   many slots of the widest slab as asked for, and run; memory that has not been written may hold anything.
  */
  method LoadAndRun(moe: seq<bool>, pieces: seq<seq<nat>>, t: Checkpoint, junk: nat -> Byte, nSlots: nat,
                    census: seq<nat>, rs: seq<Request>)
    returns (launches: seq<Launch>, ghost m: Machine, ghost memory: Bytes)
    requires Sizes(moe, pieces) && HasSizes(moe, pieces, t)
    requires nSlots >= 16 && |census| == |moe| * EXPERTS
    requires forall i :: 0 <= i < |rs| ==> |rs[i].counts| == EXPERTS && rs[i].layer < |moe| && moe[rs[i].layer]
    ensures Sound(m) && m.t == t && m.c.moe == moe
    ensures |launches| == |rs| && LaunchesOk(m, nSlots, rs, launches)
    ensures |memory| == nSlots * m.width && PoolsFollow(m, memory, nSlots, launches)
    ensures WidestBelow(m.c, m.width, |moe|)
  {
    hide Sound, WellLaid, LaunchOk, Proper, Matches, ArenaHolds, WidestBelow, PlannedUpTo;
    var layouts := LayOut(moe, pieces);
    var c := Config(EXPERTS, moe, layouts);
    LaidOutMatches(moe, pieces, t, layouts);
    var base, slotBase, total, width := PlanArena(c);
    var arena := LoadArena(c, t, seq(total, i requires 0 <= i => junk(i)));
    var machine := Machine(c, t, arena, width);
    m := machine;
    LoadedIsSound(m);
    var pool := seq(nSlots * width, i requires 0 <= i => junk(i));
    memory := pool;
    launches := RunSteps(machine, pool, nSlots, census, rs);
  }
}
