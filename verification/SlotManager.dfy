/** The GPU's pool of expert slots. */
module SlotManager {
  /*
   Which expert is in which slot, which slots the running step holds, which are pinned, and what the
   slots' bytes are once the copy stream has drained.
  */

  import opened Arithmetic
  import opened ExpertArena

  const EXPERTS := 288                // experts per layer, the row width of the census
  const HEAT_MAX := 0xffff            // `find` saturates the heat here
  const COUNT_MAX := 0xffff_ffff      // 32-bit counters

  datatype Key = Key(layer: int, expert: int)

  datatype Slot = Slot(layer: int, expert: int, heat: nat, lastUsed: nat, pinned: bool, busy: bool) {
    predicate Free() { layer < 0 }
    function Holding(): Key { Key(layer, expert) }
  }

  datatype Copy = Copy(slot: nat, key: Key)

  // ------------------------------------------------------------------ what the fields mean

  ghost predicate Inverse(slots: seq<Slot>, where: map<Key, nat>) {
    && (forall k :: k in where ==> where[k] < |slots| && !slots[where[k]].Free() && slots[where[k]].Holding() == k)
    && (forall i :: 0 <= i < |slots| && !slots[i].Free() ==>
          slots[i].Holding() in where && where[slots[i].Holding()] == i)
  }

  function CountPinned(slots: seq<Slot>): nat {
    if slots == [] then 0
    else CountPinned(slots[..|slots| - 1]) + if slots[|slots| - 1].pinned then 1 else 0
  }

  lemma {:induction false} CountPinnedUpdate(slots: seq<Slot>, i: nat, s: Slot)
    requires i < |slots|
    ensures CountPinned(slots[i := s])
         == CountPinned(slots) - (if slots[i].pinned then 1 else 0) + (if s.pinned then 1 else 0)
  {
    var last := |slots| - 1;
    if i < last {
      assert slots[i := s][..last] == slots[..last][i := s];
      CountPinnedUpdate(slots[..last], i, s);
    } else {
      assert slots[i := s][..last] == slots[..last];
    }
  }

  lemma {:induction false} NonePinned(slots: seq<Slot>)
    requires forall i :: 0 <= i < |slots| ==> !slots[i].pinned
    ensures CountPinned(slots) == 0
  {
    if slots != [] { NonePinned(slots[..|slots| - 1]); }
  }

  /** The census row of a key; entries outside the table count as never requested. */
  function Census(freq: seq<nat>, k: Key): nat {
    var i := k.layer * EXPERTS + k.expert;
    if k.layer >= 0 && 0 <= i < |freq| then freq[i] else 0
  }

  // ------------------------------------------------------------------ counting requests

  // The census after one more request, and after all those of a run; keys outside the table are not counted.
  function Bumped(freq: seq<nat>, layers: nat, k: Key): (r: seq<nat>)
    ensures |r| == |freq|
  {
    var i := k.layer * EXPERTS + k.expert;
    if 0 <= k.layer < layers && 0 <= k.expert < EXPERTS && i < |freq| && freq[i] < COUNT_MAX then freq[i := freq[i] + 1]
    else freq
  }

  function Noted(start: seq<nat>, layers: nat, log: seq<Key>): (freq: seq<nat>)
    ensures |freq| == |start|
  {
    if log == [] then start else Bumped(Noted(start, layers, log[..|log| - 1]), layers, log[|log| - 1])
  }

  // How often an expert was requested.
  function Times(log: seq<Key>, layer: int, expert: int): nat {
    if log == [] then 0
    else
      var last := log[|log| - 1];
      Times(log[..|log| - 1], layer, expert) + if last.layer == layer && last.expert == expert then 1 else 0
  }

  // Requests up to now, on top of those on record, in a 32-bit counter that does not wrap around.
  function Requests(start: seq<nat>, log: seq<Key>, layer: nat, expert: nat): nat
    requires layer * 288 + expert < |start|
  {
    var before := start[layer * 288 + expert];
    if before >= 0xffff_ffff then before else Min(0xffff_ffff, before + Times(log, layer, expert))
  }

  /** The census is the number of requests: of this layer and this expert, and of no other. */
  lemma {:induction false} CensusCounts(start: seq<nat>, layers: nat, log: seq<Key>, layer: nat, expert: nat)
    requires |start| == layers * 288 && layer < layers && expert < 288
    ensures layer * 288 + expert < |start|
    ensures Census(Noted(start, layers, log), Key(layer, expert)) == Requests(start, log, layer, expert)
  {
    assert layer * 288 + expert < layers * 288;
    if log != [] {
      var shorter, last := log[..|log| - 1], log[|log| - 1];
      CensusCounts(start, layers, shorter, layer, expert);
      if last.layer != layer || last.expert != expert { OtherEntry(layer, expert, last.layer, last.expert); }
    }
  }

  lemma {:induction false} OtherEntry(l: int, e: int, k: int, f: int)
    requires 0 <= e < 288 && (l != k || e != f)
    ensures 0 <= f < 288 ==> l * 288 + e != k * 288 + f
  {
  }

  // Of the slots that may be evicted the victim's expert has the fewest requests, and the least heat among those.
  ghost predicate FewestRequests(slots: seq<Slot>, start: seq<nat>, layers: nat, log: seq<Key>, victim: nat)
    requires |start| == layers * 288
  {
    victim < |slots| && forall i: nat :: i < |slots| && !slots[i].busy && !slots[i].pinned ==>
      FewerRequests(slots, start, layers, log, victim, i)
  }

  ghost predicate FewerRequests(slots: seq<Slot>, start: seq<nat>, layers: nat, log: seq<Key>, v: nat, i: nat)
    requires |start| == layers * 288 && v < |slots| && i < |slots|
  {
    var a, b := slots[v], slots[i];
    && 0 <= a.layer < layers && 0 <= a.expert < 288 && 0 <= b.layer < layers && 0 <= b.expert < 288
    && a.layer * 288 + a.expert < layers * 288 && b.layer * 288 + b.expert < layers * 288
    && var n, o := Requests(start, log, a.layer, a.expert), Requests(start, log, b.layer, b.expert);
    n < o || (n == o && a.heat <= b.heat)
  }

  predicate NoneFree(slots: seq<Slot>) {
    forall i :: 0 <= i < |slots| && !slots[i].busy ==> !slots[i].Free()
  }

  predicate SomeUnpinned(slots: seq<Slot>) {
    exists i :: 0 <= i < |slots| && !slots[i].busy && !slots[i].pinned
  }

  /** When no slot is free, the victim is the expert requested least, counted over the whole run. */
  lemma {:induction false} VictimIsRequestedLeast(slots: seq<Slot>, start: seq<nat>, layers: nat, log: seq<Key>,
        victim: int)
    requires |start| == layers * 288 && RightVictim(slots, Noted(start, layers, log), victim)
    requires forall i :: 0 <= i < |slots| && !slots[i].busy ==>
               0 <= slots[i].layer < layers && 0 <= slots[i].expert < 288
    requires SomeUnpinned(slots)
    ensures victim >= 0 && FewestRequests(slots, start, layers, log, victim)
  {
    hide Noted;
    forall i: nat | i < |slots| && !slots[i].busy && !slots[i].pinned
      ensures FewerRequests(slots, start, layers, log, victim, i)
    {
      var a, b := slots[victim], slots[i];
      CensusCounts(start, layers, log, a.layer, a.expert);
      CensusCounts(start, layers, log, b.layer, b.expert);
      assert NotColder(Noted(start, layers, log), a, b);
    }
  }

  // ------------------------------------------------------------------ victims

  // (census, heat) decides which unpinned slot goes first.
  predicate NotColder(freq: seq<nat>, a: Slot, b: Slot) {
    || Census(freq, a.Holding()) < Census(freq, b.Holding())
    || (Census(freq, a.Holding()) == Census(freq, b.Holding()) && a.heat <= b.heat)
  }

  /** Which slot an eviction may take, and when it finds none. */
  ghost predicate RightVictim(slots: seq<Slot>, freq: seq<nat>, victim: int) {
    if exists i :: 0 <= i < |slots| && slots[i].Free() && !slots[i].busy then
      0 <= victim < |slots| && slots[victim].Free() && !slots[victim].busy
    else if exists i :: 0 <= i < |slots| && !slots[i].busy && !slots[i].pinned then
      && 0 <= victim < |slots| && !slots[victim].busy && !slots[victim].pinned
      && forall i :: 0 <= i < |slots| && !slots[i].busy && !slots[i].pinned ==> NotColder(freq, slots[victim], slots[i])
    else if exists i :: 0 <= i < |slots| && !slots[i].busy then
      && 0 <= victim < |slots| && !slots[victim].busy
      && forall i :: 0 <= i < |slots| && !slots[i].busy ==> slots[victim].lastUsed <= slots[i].lastUsed
    else victim == -1
  }

  // ------------------------------------------------------------------ the scans, on values

  method FreeSlot(slots: seq<Slot>) returns (found: int)
    ensures found == -1 ==> forall i :: 0 <= i < |slots| ==> !slots[i].Free() || slots[i].busy
    ensures found != -1 ==> 0 <= found < |slots| && slots[found].Free() && !slots[found].busy
  {
    for i := 0 to |slots|
      invariant forall k :: 0 <= k < i ==> !slots[k].Free() || slots[k].busy
    {
      if slots[i].Free() && !slots[i].busy { return i; }
    }
    found := -1;
  }

  method ColdestSlot(slots: seq<Slot>, freq: seq<nat>) returns (best: int)
    ensures best == -1 ==> forall i :: 0 <= i < |slots| ==> slots[i].busy || slots[i].pinned
    ensures best != -1 ==>
              && 0 <= best < |slots| && !slots[best].busy && !slots[best].pinned
              && forall i :: 0 <= i < |slots| && !slots[i].busy && !slots[i].pinned ==>
                    NotColder(freq, slots[best], slots[i])
  {
    best := -1;
    var bestScore, bestHeat := 0, 0;
    for i := 0 to |slots|
      invariant -1 <= best < i
      invariant best == -1 ==> forall k :: 0 <= k < i ==> slots[k].busy || slots[k].pinned
      invariant best != -1 ==>
                  && !slots[best].busy && !slots[best].pinned
                  && bestScore == Census(freq, slots[best].Holding()) && bestHeat == slots[best].heat
                  && forall k :: 0 <= k < i && !slots[k].busy && !slots[k].pinned ==>
                        NotColder(freq, slots[best], slots[k])
    {
      var s := slots[i];
      if s.busy || s.pinned { continue; }
      var score := Census(freq, s.Holding());
      if best < 0 || score < bestScore || (score == bestScore && s.heat < bestHeat) {
        bestScore, bestHeat, best := score, s.heat, i;
      }
    }
  }

  method OldestSlot(slots: seq<Slot>) returns (best: int)
    ensures best == -1 ==> forall i :: 0 <= i < |slots| ==> slots[i].busy
    ensures best != -1 ==>
              && 0 <= best < |slots| && !slots[best].busy
              && forall i :: 0 <= i < |slots| && !slots[i].busy ==> slots[best].lastUsed <= slots[i].lastUsed
  {
    best := -1;
    for i := 0 to |slots|
      invariant -1 <= best < i
      invariant best == -1 ==> forall k :: 0 <= k < i ==> slots[k].busy
      invariant best != -1 ==>
                  && !slots[best].busy
                  && forall k :: 0 <= k < i && !slots[k].busy ==> slots[best].lastUsed <= slots[k].lastUsed
    {
      if !slots[i].busy && (best < 0 || slots[i].lastUsed < slots[best].lastUsed) { best := i; }
    }
  }

  method OldestUnheld(slots: seq<Slot>, used: seq<nat>) returns (best: int)
    ensures best == -1 <==> AllHeld(slots, used)
    ensures best != -1 ==> 0 <= best && IsOldestUnheld(slots, used, best)
  {
    best := -1;
    for i := 0 to |slots|
      invariant -1 <= best < i
      invariant best == -1 <==> forall k :: 0 <= k < i ==> k in used
      invariant best != -1 ==>
                  best !in used && forall k :: 0 <= k < i && k !in used ==> slots[best].lastUsed <= slots[k].lastUsed
    {
      if i !in used && (best < 0 || slots[i].lastUsed < slots[best].lastUsed) { best := i; }
    }
  }

  /** The victim of an eviction: a free slot, else the coldest unpinned one, else the oldest pinned one. */
  method ChooseVictim(slots: seq<Slot>, freq: seq<nat>) returns (victim: int)
    ensures RightVictim(slots, freq, victim)
    ensures victim == -1 <==> forall i :: 0 <= i < |slots| ==> slots[i].busy
    ensures victim == -1 || (0 <= victim < |slots| && !slots[victim].busy)
  {
    victim := FreeSlot(slots);
    if victim >= 0 { return; }
    victim := ColdestSlot(slots, freq);
    if victim >= 0 { return; }
    victim := OldestSlot(slots);
  }

  // ------------------------------------------------------------------ the copy stream

  /** The pool once every queued copy has landed, in order. */
  function Drained(c: Config, arena: Bytes, width: nat, pool: Bytes, dma: seq<Copy>): Bytes
    decreases |dma|
  {
    if dma == [] then pool
    else
      var before := Drained(c, arena, width, pool, dma[..|dma| - 1]);
      Land(c, arena, width, before, dma[|dma| - 1])
  }

  function Land(c: Config, arena: Bytes, width: nat, pool: Bytes, copy: Copy): Bytes {
    var k := copy.key;
    if k.layer >= 0 && k.expert >= 0 && IsExpert(c, k.layer, k.expert)
       && InRange(arena, SlabAt(c, k.layer, k.expert), c.layouts[k.layer].stride)
       && InRange(pool, copy.slot * width, c.layouts[k.layer].stride)
    then Store(pool, copy.slot * width, Read(arena, SlabAt(c, k.layer, k.expert), c.layouts[k.layer].stride))
    else pool
  }

  lemma {:induction false} DrainedSize(c: Config, arena: Bytes, width: nat, pool: Bytes, dma: seq<Copy>)
    ensures |Drained(c, arena, width, pool, dma)| == |pool|
    decreases |dma|
  {
    if dma != [] { DrainedSize(c, arena, width, pool, dma[..|dma| - 1]); }
  }

  lemma {:induction false} NothingDrains(m: Machine, pool: Bytes)
    ensures Drained(m.c, m.arena, m.width, pool, []) == pool
  {
  }

  lemma {:induction false} DrainedSnoc(c: Config, arena: Bytes, width: nat, pool: Bytes, dma: seq<Copy>, copy: Copy)
    ensures Drained(c, arena, width, pool, dma + [copy])
         == Land(c, arena, width, Drained(c, arena, width, pool, dma), copy)
  {
    assert (dma + [copy])[..|dma|] == dma;
  }

  lemma {:induction false} DrainedInTurn(c: Config, arena: Bytes, width: nat, pool: Bytes, a: seq<Copy>, b: seq<Copy>)
    ensures Drained(c, arena, width, pool, a + b) == Drained(c, arena, width, Drained(c, arena, width, pool, a), b)
    decreases |b|
  {
    if b == [] {
      assert a + b == a;
    } else {
      var last := |b| - 1;
      assert (a + b)[..|a + b| - 1] == a + b[..last];
      DrainedInTurn(c, arena, width, pool, a, b[..last]);
    }
  }

  /** Nothing but copies of experts' slabs into slots has turned one into the other. */
  ghost predicate ByCopies(m: Machine, before: Bytes, after: Bytes) {
    exists dma: seq<Copy> :: after == Drained(m.c, m.arena, m.width, before, dma)
  }

  lemma {:induction false} ByNoCopies(m: Machine, pool: Bytes)
    ensures ByCopies(m, pool, pool)
  {
    assert pool == Drained(m.c, m.arena, m.width, pool, []);
  }

  lemma {:induction false} ByOneMoreCopy(m: Machine, pool: Bytes, dma: seq<Copy>, copy: Copy)
    ensures ByCopies(m, Drained(m.c, m.arena, m.width, pool, dma), Drained(m.c, m.arena, m.width, pool, dma + [copy]))
  {
    DrainedInTurn(m.c, m.arena, m.width, pool, dma, [copy]);
  }

  lemma {:induction false} ByCopiesInTurn(m: Machine, a: Bytes, b: Bytes, c: Bytes)
    requires ByCopies(m, a, b) && ByCopies(m, b, c)
    ensures ByCopies(m, a, c)
  {
    var d: seq<Copy> :| b == Drained(m.c, m.arena, m.width, a, d);
    var e: seq<Copy> :| c == Drained(m.c, m.arena, m.width, b, e);
    DrainedInTurn(m.c, m.arena, m.width, a, d, e);
  }

  // What the machine the manager runs on provides.
  datatype Machine = Machine(c: Config, t: Checkpoint, arena: Bytes, width: nat)

  ghost predicate Sound(m: Machine) {
    && Proper(m.c) && m.c.experts == EXPERTS && Matches(m.c, m.t) && ArenaHolds(m.c, m.t, m.arena)
    && WideEnough(m.c, m.width)
  }

  ghost predicate IsKey(m: Machine, k: Key) {
    k.layer >= 0 && k.expert >= 0 && IsExpert(m.c, k.layer, k.expert)
  }

  ghost predicate HoldsKey(m: Machine, pool: Bytes, slot: nat, k: Key)
    requires Sound(m) && IsKey(m, k)
  {
    SlotHolds(m.c, m.t, pool, m.width, slot, k.layer, k.expert)
  }

  /** Every occupied slot holds its expert's bytes, as soon as the queued copies have landed. */
  ghost predicate Settles(m: Machine, slots: seq<Slot>, pool: Bytes, dma: seq<Copy>)
    requires Sound(m)
  {
    && |pool| == |slots| * m.width
    && forall i :: 0 <= i < |slots| && !slots[i].Free() ==>
         && IsKey(m, slots[i].Holding())
         && HoldsKey(m, Drained(m.c, m.arena, m.width, pool, dma), i, slots[i].Holding())
  }

  lemma {:induction false} CopySettles(m: Machine, slots: seq<Slot>, pool: Bytes, dma: seq<Copy>, i: nat, s: Slot)
    requires Sound(m) && i < |slots| && Settles(m, slots, pool, dma)
    requires !s.Free() && IsKey(m, s.Holding())
    ensures Settles(m, slots[i := s], pool, dma + [Copy(i, s.Holding())])
  {
    var k := s.Holding();
    var before := Drained(m.c, m.arena, m.width, pool, dma);
    DrainedSize(m.c, m.arena, m.width, pool, dma);
    DrainedSnoc(m.c, m.arena, m.width, pool, dma, Copy(i, k));
    SlotIsFilled(m.c, m.t, m.arena, before, |slots|, m.width, i, k.layer, k.expert);
    var bytes := Read(m.arena, SlabAt(m.c, k.layer, k.expert), m.c.layouts[k.layer].stride);
    forall j | 0 <= j < |slots| && j != i && !slots[j].Free()
      ensures HoldsKey(m, Store(before, i * m.width, bytes), j, slots[j].Holding())
    {
      OtherSlotStays(m.c, m.t, before, |slots|, m.width, i, bytes, j, slots[j].layer, slots[j].expert);
    }
  }

  predicate SameHoldings(a: seq<Slot>, b: seq<Slot>) {
    && |a| == |b|
    && forall i :: 0 <= i < |a| ==> a[i].layer == b[i].layer && a[i].expert == b[i].expert && a[i].pinned == b[i].pinned
  }

  lemma {:induction false} CountPinnedSame(a: seq<Slot>, b: seq<Slot>)
    requires SameHoldings(a, b)
    ensures CountPinned(a) == CountPinned(b)
  {
    if a != [] { CountPinnedSame(a[..|a| - 1], b[..|b| - 1]); }
  }

  predicate InSlots(xs: seq<nat>, n: nat) {
    forall j :: 0 <= j < |xs| ==> xs[j] < n
  }

  predicate FreeUnpinned(slots: seq<Slot>) {
    forall i :: 0 <= i < |slots| && slots[i].Free() ==> !slots[i].pinned
  }

  predicate SameKeys(a: seq<Slot>, b: seq<Slot>) {
    |a| == |b| && forall i :: 0 <= i < |a| ==> a[i].layer == b[i].layer && a[i].expert == b[i].expert
  }

  /** What the map and the bytes say does not depend on heat, pins or reservations. */
  lemma {:induction false} InverseSame(a: seq<Slot>, b: seq<Slot>, where: map<Key, nat>)
    requires Inverse(a, where) && SameKeys(a, b)
    ensures Inverse(b, where)
  {
  }

  lemma {:induction false} InverseEvict(a: seq<Slot>, where: map<Key, nat>, v: nat, s: Slot)
    requires Inverse(a, where) && v < |a| && s.Free()
    ensures Inverse(a[v := s], where - {a[v].Holding()})
  {
  }

  lemma {:induction false} InverseFill(a: seq<Slot>, where: map<Key, nat>, v: nat, s: Slot)
    requires Inverse(a, where) && v < |a| && a[v].Free() && !s.Free() && s.Holding() !in where
    ensures Inverse(a[v := s], where[s.Holding() := v])
  {
  }

  lemma {:induction false} FreeUnpinnedUpdate(a: seq<Slot>, v: nat, s: Slot)
    requires FreeUnpinned(a) && v < |a| && (s.Free() ==> !s.pinned)
    ensures FreeUnpinned(a[v := s])
  {
  }

  predicate Stays(slots: seq<Slot>, i: nat, keep: seq<nat>, keepFree: bool)
    requires i < |slots|
  {
    i in keep || (keepFree && slots[i].Free())
  }

  /** Clears the busy flag of every listed slot, except those in `keep` and, if asked, free ones. */
  method Release(slots0: seq<Slot>, listed: seq<nat>, keep: seq<nat>, keepFree: bool) returns (slots: seq<Slot>)
    requires InSlots(listed, |slots0|)
    ensures |slots| == |slots0| && forall i :: 0 <= i < |slots| ==>
              slots[i] == slots0[i].(busy := slots0[i].busy && (i !in listed || Stays(slots0, i, keep, keepFree)))
  {
    slots := slots0;
    for j := 0 to |listed|
      invariant |slots| == |slots0| && forall i :: 0 <= i < |slots| ==>
                  slots[i] == slots0[i].(busy := slots0[i].busy
                                                 && (i !in listed[..j] || Stays(slots0, i, keep, keepFree)))
    {
      var i := listed[j];
      if i !in keep && !(keepFree && slots[i].Free()) { slots := slots[i := slots[i].(busy := false)]; }
      assert listed[..j + 1] == listed[..j] + [i];
    }
    assert listed[..|listed|] == listed;
  }

  predicate AllBusy(slots: seq<Slot>) {
    forall i :: 0 <= i < |slots| ==> slots[i].busy
  }

  // The slots once the copies in flight have landed: those the step does not hold are released.
  function Waited(slots: seq<Slot>, pending: seq<nat>, used: seq<nat>): (r: seq<Slot>)
    ensures |r| == |slots|
    ensures forall i :: 0 <= i < |r| ==> r[i] == slots[i].(busy := slots[i].busy && (i !in pending || i in used))
    ensures (forall i :: i in pending ==> i in used) ==> r == slots
  {
    seq(|slots|, i requires 0 <= i < |slots| => slots[i].(busy := slots[i].busy && (i !in pending || i in used)))
  }

  predicate AllHeld(slots: seq<Slot>, used: seq<nat>) {
    forall i :: 0 <= i < |slots| ==> i in used
  }

  predicate IsOldestUnheld(slots: seq<Slot>, used: seq<nat>, best: nat) {
    && best < |slots| && best !in used
    && forall i :: 0 <= i < |slots| && i !in used ==> slots[best].lastUsed <= slots[i].lastUsed
  }

  function LetGo(slots: seq<Slot>, i: nat): (r: seq<Slot>)
    requires i < |slots|
    ensures |r| == |slots| && !AllBusy(r)
    ensures !r[i].busy && !r[i].pinned && r[i].Holding() == slots[i].Holding() && r[i].lastUsed == slots[i].lastUsed
    ensures forall j :: 0 <= j < |slots| && j != i ==> r[j] == slots[j]
  {
    var r := slots[i := slots[i].(pinned := false, busy := false)];
    assert !r[i].busy;
    r
  }

  // A resident expert acquired again: here the heat wraps around.
  function UsedAgain(s: Slot, now: nat): Slot {
    s.(lastUsed := now, heat := (s.heat + 1) % (COUNT_MAX + 1))
  }

  // A slot after one more use.
  function Touched(s: Slot, now: nat, hot: bool, room: bool): Slot {
    s.(lastUsed := now, heat := if s.heat < HEAT_MAX then s.heat + 1 else s.heat, pinned := hot && (s.pinned || room))
  }

  // ------------------------------------------------------------------ the manager

  class SlotMgr {
    const m: Machine
    const maxPinned: nat
    var slots: seq<Slot>
    var where: map<Key, nat>
    var used: seq<nat>          // slots of the running step
    var pending: seq<nat>       // slots with a copy in flight
    var dma: seq<Copy>          // those copies
    var pool: Bytes
    var clock: nat
    var pinnedCount: nat
    var freq: seq<nat>
    var hot: seq<bool>
    ghost const start: seq<nat>   // the census on record
    ghost var log: seq<Key>       // the requests since

    ghost predicate Valid()
      reads this`slots, this`where, this`used, this`pending, this`dma, this`pool, this`pinnedCount, this`freq, this`hot
      reads this`log
    {
      && Sound(m)
      && Inverse(slots, where) && FreeUnpinned(slots)
      && pinnedCount == CountPinned(slots) <= maxPinned
      && |freq| == |hot| == |m.c.moe| * EXPERTS && freq == Noted(start, |m.c.moe|, log)
      && InSlots(used, |slots|) && InSlots(pending, |slots|) && |pending| == |dma|
      && Settles(m, slots, pool, dma)
    }

    // The pool's bytes once the copies in flight have landed.
    function Settled(): Bytes
      reads this`pool, this`dma
    {
      Drained(m.c, m.arena, m.width, pool, dma)
    }

    // Between steps: nothing is held and nothing is in flight.
    ghost predicate Quiet()
      reads this`slots, this`used, this`pending, this`dma
    {
      && used == [] && pending == [] && dma == []
      && forall i :: 0 <= i < |slots| ==> !slots[i].busy
    }

    constructor InitFromPool(machine: Machine, memory: Bytes, nSlots: nat, census: seq<nat>)
      requires Sound(machine) && nSlots >= 16 && |memory| == nSlots * machine.width
      requires |census| == |machine.c.moe| * EXPERTS
      ensures Valid() && Quiet() && m == machine && |slots| == nSlots && where == map[] && pool == memory
      ensures maxPinned == nSlots * 60 / 100 && start == census && log == [] && freq == census
    {
      m := machine;
      maxPinned := nSlots * 60 / 100;
      slots := seq(nSlots, _ => Slot(-1, -1, 0, 0, false, false));
      where, used, pending, dma, pool := map[], [], [], [], memory;
      clock, pinnedCount, freq, start, log := 0, 0, census, census, [];
      hot := seq(|census|, _ => false);
      new;
      NonePinned(slots);
      RecomputeHot();
    }

    predicate InTable(k: Key)
      reads this`freq
    {
      0 <= k.layer < |m.c.moe| && 0 <= k.expert < 288 && k.layer * 288 + k.expert < |freq|
    }

    predicate IsHot(k: Key)
      reads this`hot
    {
      && 0 <= k.layer < |m.c.moe| && 0 <= k.expert < EXPERTS
      && k.layer * EXPERTS + k.expert < |hot| && hot[k.layer * EXPERTS + k.expert]
    }

    /** Marks the most requested entries, as many as may be pinned; ties fall either way. */
    method RecomputeHot()
      requires |hot| == |freq|
      modifies this`hot
      ensures |hot| == |freq|
      ensures forall i :: 0 <= i < |hot| && hot[i] ==> freq[i] > 0
      ensures forall i, j :: 0 <= i < |hot| && 0 <= j < |hot| && hot[i] && !hot[j] ==> freq[j] <= freq[i]
      ensures forall a, b :: InTable(a) && InTable(b) && IsHot(a) && !IsHot(b) ==> Census(freq, b) <= Census(freq, a)
      ensures CountTrue(hot) <= maxPinned
      ensures CountTrue(hot) < maxPinned ==> forall i :: 0 <= i < |hot| && freq[i] > 0 ==> hot[i]
    {
      hot := seq(|freq|, _ => false);
      NoneTrue(hot);
      var k := 0;
      while k < maxPinned
        invariant |hot| == |freq| && k <= maxPinned && CountTrue(hot) == k
        invariant forall i :: 0 <= i < |hot| && hot[i] ==> freq[i] > 0
        invariant forall i, j :: 0 <= i < |hot| && 0 <= j < |hot| && hot[i] && !hot[j] ==> freq[j] <= freq[i]
      {
        var best := -1;
        for i := 0 to |freq|
          invariant -1 <= best < i
          invariant best == -1 ==> forall j :: 0 <= j < i ==> hot[j] || freq[j] == 0
          invariant best != -1 ==> !hot[best] && freq[best] > 0 && forall j :: 0 <= j < i && !hot[j] ==>
                freq[j] <= freq[best]
        {
          if freq[i] > 0 && !hot[i] && (best < 0 || freq[i] > freq[best]) { best := i; }
        }
        if best < 0 { break; }
        CountTrueUpdate(hot, best);
        hot := hot[best := true];
        k := k + 1;
      }
    }

    method NoteRequest(k: Key)
      requires Valid()
      modifies this`freq, this`log
      ensures Valid() && log == old(log) + [k]
      ensures var i := k.layer * EXPERTS + k.expert;
        if 0 <= k.layer < |m.c.moe| && 0 <= k.expert < EXPERTS
        then i < |freq| && freq == old(freq)[i := if old(freq)[i] < COUNT_MAX then old(freq)[i] + 1 else old(freq)[i]]
        else freq == old(freq)
    {
      assert (log + [k])[..|log|] == log;
      log := log + [k];
      if k.layer < 0 || k.layer >= |m.c.moe| || k.expert < 0 || k.expert >= EXPERTS { return; }
      var i := k.layer * EXPERTS + k.expert;
      if freq[i] < COUNT_MAX { freq := freq[i := freq[i] + 1]; }
    }

    /**
     The slot of a resident expert, or -1. A look-up counts as a use, and it is where slots are pinned and
     unpinned: hot experts are pinned while there is room, others are not.
    */
    method Find(k: Key) returns (slot: int)
      requires Valid()
      modifies this`slots, this`clock, this`pinnedCount
      ensures Valid()
      ensures slot == (if k in where then where[k] as int else -1)
      ensures slot == -1 ==> slots == old(slots) && clock == old(clock)
      ensures slot != -1 ==>
                && 0 <= slot < |slots| == |old(slots)| && clock == old(clock) + 1
                && slots[slot].Holding() == k && !slots[slot].Free() && slots[slot].busy == old(slots)[slot].busy
                && slots == old(slots)[slot := Touched(old(slots)[slot], clock, IsHot(k), old(pinnedCount) < maxPinned)]
                && slots[slot].lastUsed == clock && slots[slot].heat <= Max(0xffff, old(slots)[slot].heat)
                && (old(slots)[slot].heat < 0xffff ==> slots[slot].heat == old(slots)[slot].heat + 1)
                && (slots[slot].pinned <==> IsHot(k) && (old(slots)[slot].pinned || old(pinnedCount) < maxPinned))
    {
      hide Settles, Inverse, Sound, CountPinned, IsHot, FreeUnpinned;
      if k !in where { return -1; }
      WhereIs(k);
      var i := where[k];
      slot := i;
      clock := clock + 1;
      ghost var touched := Touched(slots[i], clock, IsHot(k), pinnedCount < maxPinned);
      var s := slots[i].(lastUsed := clock);
      if s.heat < HEAT_MAX { s := s.(heat := s.heat + 1); }
      if IsHot(k) {
        if !s.pinned && pinnedCount < maxPinned { s := s.(pinned := true); }
      } else if s.pinned {
        s := s.(pinned := false);
      }
      assert s == touched;
      Replace(i, s);
    }

    lemma {:induction false} WhereIs(k: Key)
      requires Valid() && k in where
      ensures where[k] < |slots| && !slots[where[k]].Free() && slots[where[k]].Holding() == k
    {
    }

    /** Rewrites an occupied slot's heat, time, pin and reservation; the pin count follows. */
    method Replace(i: nat, s: Slot)
      requires Valid() && i < |slots| && s.layer == slots[i].layer && s.expert == slots[i].expert
      requires s.Free() ==> !s.pinned
      requires s.pinned && !slots[i].pinned ==> pinnedCount < maxPinned
      modifies this`slots, this`pinnedCount
      ensures Valid() && slots == old(slots)[i := s]
    {
      hide Settles, Inverse, Sound, CountPinned;
      CountPinnedUpdate(slots, i, s);
      if s.pinned && !slots[i].pinned { pinnedCount := pinnedCount + 1; }
      if !s.pinned && slots[i].pinned { pinnedCount := pinnedCount - 1; }
      InverseSame(slots, slots[i := s], where);
      SettlesSame(m, slots, slots[i := s], pool, dma);
      FreeUnpinnedUpdate(slots, i, s);
      slots := slots[i := s];
    }

    lemma {:induction false} CensusSize()
      requires Valid()
      ensures |start| == |freq| == |m.c.moe| * 288
    {
      hide Settles, Inverse, Sound;
    }

    lemma {:induction false} LeastRequested(victim: int)
      requires Valid() && RightVictim(slots, freq, victim) && NoneFree(slots) && SomeUnpinned(slots)
      ensures |start| == |m.c.moe| * 288
      ensures victim >= 0 && FewestRequests(slots, start, |m.c.moe|, log, victim)
    {
      hide RightVictim, HoldsKey, Drained;
      assert forall i :: 0 <= i < |slots| && !slots[i].Free() ==> IsKey(m, slots[i].Holding());
      VictimIsRequestedLeast(slots, start, |m.c.moe|, log, victim);
    }

    /** Empties a slot and marks it busy; -1 exactly when every slot is busy. */
    method EvictOne() returns (victim: int)
      requires Valid()
      modifies this`slots, this`where, this`pinnedCount
      ensures Valid()
      ensures RightVictim(old(slots), freq, victim)
      ensures |start| == |m.c.moe| * 288
      ensures NoneFree(old(slots)) && SomeUnpinned(old(slots)) ==>
                victim >= 0 && FewestRequests(old(slots), start, |m.c.moe|, log, victim)
      ensures victim == -1 <==> AllBusy(old(slots))
      ensures victim == -1 ==> slots == old(slots) && where == old(where)
      ensures victim != -1 ==>
                && 0 <= victim < |slots| == |old(slots)| && !old(slots)[victim].busy
                && slots[victim].Free() && slots[victim].busy && !slots[victim].pinned
                && slots == old(slots)[victim := slots[victim]]
                && where == old(where) - {old(slots)[victim].Holding()}
    {
      hide Settles, Inverse, Sound, CountPinned, RightVictim, Noted, FewestRequests;
      CensusSize();
      victim := ChooseVictim(slots, freq);
      if NoneFree(slots) && SomeUnpinned(slots) { LeastRequested(victim); }
      if victim < 0 { return; }
      var s := slots[victim];
      var emptied := if s.Free() then s.(busy := true) else Slot(-1, -1, 0, s.lastUsed, false, true);
      CountPinnedUpdate(slots, victim, emptied);
      InverseEvict(slots, where, victim, emptied);
      SettlesFewer(m, slots, slots[victim := emptied], pool, dma);
      FreeUnpinnedUpdate(slots, victim, emptied);
      if s.pinned { pinnedCount := pinnedCount - 1; }
      where := where - {s.Holding()};
      slots := slots[victim := emptied];
    }

    /** Queues the copy of an expert's slab into a slot. */
    method StartCopy(slot: nat, k: Key)
      requires slot < |slots| && IsKey(m, k) && Sound(m)
      modifies this`pending, this`dma
      ensures pending == old(pending) + [slot] && dma == old(dma) + [Copy(slot, k)]
    {
      assert m.c.layouts[k.layer].stride <= m.width;   // the source aborts otherwise
      dma := dma + [Copy(slot, k)];
      pending := pending + [slot];
    }

    /** Waits for every queued copy, and releases the slots that the running step does not hold. */
    method SyncCopies()
      requires Valid()
      modifies this`slots, this`pending, this`dma, this`pool
      ensures Valid() && pending == [] && dma == []
      ensures pool == Drained(m.c, m.arena, m.width, old(pool), old(dma))
      ensures slots == Waited(old(slots), old(pending), used)
    {
      hide Settles, Inverse, Sound, CountPinned, Drained;
      NothingDrains(m, pool);
      if pending == [] { return; }
      var released := Release(slots, pending, used, false);
      CountPinnedSame(slots, released);
      InverseSame(slots, released, where);
      SettlesDrained(m, slots, released, pool, dma);
      slots := released;
      pool := Drained(m.c, m.arena, m.width, pool, dma);
      dma, pending := [], [];
    }

    /**
     Makes an expert resident and holds its slot for the running step.  A resident one is used once more, even
     if its slot is held; a missing one gets -1 when every slot is busy and stays so once the copies have landed.
    */
    method Acquire(k: Key) returns (slot: int)
      requires Valid() && IsKey(m, k)
      modifies this`slots, this`where, this`used, this`pending, this`dma, this`pool, this`clock, this`pinnedCount
      ensures Valid() && |slots| == |old(slots)|
      ensures slot != -1 ==> 0 <= slot < |slots| && k in where && where[k] == slot && used == old(used) + [slot]
      ensures old(k in where) ==>
                && slot == old(where[k]) && clock == old(clock) + 1
                && slots == old(slots)[slot := UsedAgain(old(slots)[slot], clock)]
                && slots[slot].heat == (old(slots)[slot].heat + 1) % 0x1_0000_0000 && slots[slot].lastUsed == clock
                && where == old(where) && pending == old(pending) && dma == old(dma) && pool == old(pool)
      ensures old(k !in where) ==> Fetched(k, old(slots), old(pending), old(used), old(where), old(clock), slot)
      ensures !AllBusy(old(slots)) ==> slot != -1
      ensures ByCopies(m, old(Settled()), Settled())
    {
      hide Settles, Inverse, Sound, CountPinned, IsKey, Valid, Fetched, ByCopies, Drained;
      ByNoCopies(m, Settled());
      if k in where { slot := AcquireResident(k); } else { slot := AcquireMissing(k); }
    }

    method AcquireResident(k: Key) returns (slot: int)
      requires Valid() && k in where
      modifies this`slots, this`used, this`clock, this`pinnedCount
      ensures Valid() && slot == where[k] && clock == old(clock) + 1 && used == old(used) + [slot] && slot < |slots|
      ensures |slots| == |old(slots)| && slots == old(slots)[slot := UsedAgain(old(slots)[slot], clock)]
    {
      hide Settles, Inverse, Sound, CountPinned;
      WhereIs(k);
      slot := where[k];
      clock := clock + 1;
      Replace(slot, UsedAgain(slots[slot], clock));
      used := used + [slot];
    }

    method AcquireMissing(k: Key) returns (slot: int)
      requires Valid() && IsKey(m, k) && k !in where
      modifies this`slots, this`where, this`used, this`pending, this`dma, this`pool, this`clock, this`pinnedCount
      ensures Valid() && Fetched(k, old(slots), old(pending), old(used), old(where), old(clock), slot)
      ensures |slots| == |old(slots)| && (!AllBusy(old(slots)) ==> slot != -1)
      ensures slot != -1 ==> 0 <= slot < |slots| && k in where && where[k] == slot && used == old(used) + [slot]
      ensures ByCopies(m, old(Settled()), Settled())
    {
      hide Settles, Inverse, Sound, CountPinned, RightVictim, IsKey, Valid, AllBusy, Waited, ByCopies, Drained;
      ByNoCopies(m, Settled());
      slot := EvictOne();
      if slot < 0 {
        SyncCopies();
        NothingDrains(m, pool);
        slot := EvictOne();
      }
      // The source scans once more for a slot that is not busy; EvictOne has just ruled that out.
      if slot < 0 { return; }
      clock := clock + 1;
      ByOneMoreCopy(m, pool, dma, Copy(slot, k));
      Fill(slot, k);
      HoldFilled(slot);
    }

    method HoldFilled(slot: nat)
      requires Valid() && slot < |slots|
      modifies this`used
      ensures Valid() && used == old(used) + [slot]
    {
      hide Settles, Inverse, Sound, CountPinned;
      used := used + [slot];
    }

    // What acquiring a missing expert leaves, given what there was: the victim is chosen among the slots as
    // they were, or, if all of those were busy, as they are when the copies in flight have landed.
    ghost predicate Fetched(k: Key, slots0: seq<Slot>, pending0: seq<nat>, used0: seq<nat>, where0: map<Key, nat>,
                            clock0: nat, slot: int)
      reads this`slots, this`pending, this`used, this`where, this`clock, this`freq
    {
      var from := if AllBusy(slots0) then Waited(slots0, pending0, used0) else slots0;
      if AllBusy(from) then
        slot == -1 && slots == from && where == where0 && used == used0 && clock == clock0 && pending == []
      else
        && 0 <= slot < |from| && !from[slot].busy && RightVictim(from, freq, slot)
        && clock == clock0 + 1 && slots == from[slot := Slot(k.layer, k.expert, 1, clock, false, true)]
        && where == (where0 - {from[slot].Holding()})[k := slot] && used == used0 + [slot]
        && pending == (if AllBusy(slots0) then [] else pending0) + [slot]
    }

    /** Puts an expert into an emptied slot and queues its copy. */
    method Fill(slot: nat, k: Key)
      requires slot < |slots| && slots[slot].Free() && k !in where
      requires Valid() && IsKey(m, k)
      modifies this`slots, this`where, this`pending, this`dma
      ensures |slots| == |old(slots)| && slots == old(slots)[slot := slots[slot]]
      ensures slots[slot] == Slot(k.layer, k.expert, 1, clock, old(slots)[slot].pinned, old(slots)[slot].busy)
      ensures slots[slot].Holding() == k && !slots[slot].Free()
      ensures where == old(where)[k := slot] && pending == old(pending) + [slot] && dma == old(dma) + [Copy(slot, k)]
      ensures Valid()
    {
      hide Valid, Settles, Inverse, CountPinned, FreeUnpinned, InSlots, Sound, IsKey;
      var filled := Slot(k.layer, k.expert, 1, clock, slots[slot].pinned, slots[slot].busy);
      FillKeeps(slot, k, filled);
      assert !filled.Free();
      slots := slots[slot := filled];
      where := where[k := slot];
      StartCopy(slot, k);
      PartsAreValid();
    }

    lemma {:induction false} FillKeeps(slot: nat, k: Key, filled: Slot)
      requires slot < |slots| && slots[slot].Free() && k !in where && Valid() && IsKey(m, k)
      requires filled == Slot(k.layer, k.expert, 1, clock, slots[slot].pinned, slots[slot].busy)
      ensures filled.Holding() == k && !filled.Free()
      ensures Sound(m) && Inverse(slots[slot := filled], where[k := slot]) && FreeUnpinned(slots[slot := filled])
      ensures pinnedCount == CountPinned(slots[slot := filled]) <= maxPinned
      ensures |freq| == |hot| == |m.c.moe| * EXPERTS && freq == Noted(start, |m.c.moe|, log)
      ensures InSlots(used, |slots|) && InSlots(pending + [slot], |slots|) && |pending| == |dma|
      ensures Settles(m, slots[slot := filled], pool, dma + [Copy(slot, k)])
    {
      assert filled.Holding() == k && !filled.Free();
      hide Settles, Inverse, Sound, CountPinned, IsKey;
      CountPinnedUpdate(slots, slot, filled);
      CopySettles(m, slots, pool, dma, slot, filled);
      InverseFill(slots, where, slot, filled);
      FreeUnpinnedUpdate(slots, slot, filled);
    }

    lemma {:induction false} PartsAreValid()
      requires Sound(m) && Inverse(slots, where) && FreeUnpinned(slots)
      requires pinnedCount == CountPinned(slots) <= maxPinned && |freq| == |hot| == |m.c.moe| * EXPERTS
      requires freq == Noted(start, |m.c.moe|, log)
      requires InSlots(used, |slots|) && InSlots(pending, |slots|) && |pending| == |dma|
      requires Settles(m, slots, pool, dma)
      ensures Valid()
    {
      hide Settles, Inverse, Sound, CountPinned, FreeUnpinned, InSlots;
    }

    /**
     The last resort of the source: let go of the least recently used slot that the step does not hold, and
     acquire once more, which now succeeds; it evicts by its own rule, so not always that slot.  When the step
     holds every slot there is none, and nothing changes.
    */
    method ForceResident(k: Key) returns (slot: int)
      requires Valid() && IsKey(m, k)
      modifies this`slots, this`where, this`used, this`pending, this`dma, this`pool, this`clock, this`pinnedCount
      ensures Valid() && |slots| == |old(slots)|
      ensures slot != -1 ==> 0 <= slot < |slots| && k in where && where[k] == slot
      ensures old(k in where) ==>
                && slot == old(where[k]) && clock == old(clock) + 1
                && slots == old(slots)[slot := Touched(old(slots)[slot], clock, IsHot(k), old(pinnedCount) < maxPinned)]
                && where == old(where) && used == old(used)
                && pending == old(pending) && dma == old(dma) && pool == old(pool)
      ensures old(k !in where && AllHeld(slots, used)) ==>
                && slot == -1 && slots == old(slots) && where == old(where) && used == old(used)
                && pending == old(pending) && dma == old(dma) && pool == old(pool)
      ensures old(k !in where && !AllHeld(slots, used)) ==>
                exists best :: IsOldestUnheld(old(slots), old(used), best) && slot != -1 &&
                  Fetched(k, LetGo(old(slots), best), old(pending), old(used), old(where), old(clock), slot)
    {
      hide Settles, Inverse, Sound, CountPinned, RightVictim, IsKey, Valid, Waited, IsHot, Touched;
      slot := Find(k);
      if slot >= 0 { return; }
      for attempt := 0 to 4
        invariant Valid() && slot == -1 && slots == old(slots) && where == old(where) && used == old(used)
        invariant pending == old(pending) && dma == old(dma) && pool == old(pool) && clock == old(clock)
        invariant attempt == 0
      {
        var best := OldestUnheld(slots, used);
        if best < 0 { return; }
        LetGoOf(best);
        slot := Acquire(k);
        if slot >= 0 { return; }
      }
    }

    method LetGoOf(i: nat)
      requires Valid() && i < |slots|
      modifies this`slots, this`pinnedCount
      ensures Valid() && slots == LetGo(old(slots), i) && clock == old(clock)
    {
      hide Settles, Inverse, Sound, CountPinned;
      Replace(i, slots[i].(pinned := false, busy := false));
    }

    method BeginStep()
      requires Valid()
      modifies this`used
      ensures Valid() && used == []
    {
      used := [];
    }

    /** Holds a resident slot for the running step. */
    method Reserve(slot: int)
      requires Valid()
      modifies this`slots, this`used, this`pinnedCount
      ensures Valid()
      ensures if 0 <= slot < |old(slots)| && !old(slots)[slot].busy
              then slots == old(slots)[slot := old(slots)[slot].(busy := true)] && used == old(used) + [slot]
              else slots == old(slots) && used == old(used)
    {
      if slot < 0 || slot >= |slots| || slots[slot].busy { return; }
      hide Settles, Inverse, Sound, CountPinned;
      Replace(slot, slots[slot].(busy := true));
      used := used + [slot];
    }

    /** Lets go of everything the step held; now and then the census is ranked anew. */
    method EndStep(rankAgain: bool)
      requires Valid()
      modifies this`slots, this`used, this`hot
      ensures Valid() && used == [] && (!rankAgain ==> hot == old(hot))
      ensures SameHoldings(old(slots), slots)
      ensures forall i :: 0 <= i < |slots| ==>
                slots[i].busy == (old(slots)[i].busy && (i !in old(used) || slots[i].Free()))
    {
      hide Settles, Inverse, Sound, CountPinned;
      var released := Release(slots, used, [], true);
      CountPinnedSame(slots, released);
      InverseSame(slots, released, where);
      SettlesSame(m, slots, released, pool, dma);
      slots := released;
      used := [];
      if rankAgain { RecomputeHot(); }
    }
  }

  /** What the bytes settle to does not depend on heat, pins or reservations. */
  lemma {:induction false} SettlesSame(m: Machine, a: seq<Slot>, b: seq<Slot>, pool: Bytes, dma: seq<Copy>)
    requires Sound(m) && Settles(m, a, pool, dma) && |a| == |b|
    requires forall i :: 0 <= i < |a| ==> a[i].layer == b[i].layer && a[i].expert == b[i].expert
    ensures Settles(m, b, pool, dma)
  {
    hide HoldsKey, Drained;
    forall i | 0 <= i < |b| && !b[i].Free()
      ensures IsKey(m, b[i].Holding()) && HoldsKey(m, Drained(m.c, m.arena, m.width, pool, dma), i, b[i].Holding())
    {
      assert a[i].Holding() == b[i].Holding();
    }
  }

  lemma {:induction false} SettlesFewer(m: Machine, a: seq<Slot>, b: seq<Slot>, pool: Bytes, dma: seq<Copy>)
    requires Sound(m) && Settles(m, a, pool, dma) && |a| == |b|
    requires forall i :: 0 <= i < |a| && !b[i].Free() ==> a[i] == b[i]
    ensures Settles(m, b, pool, dma)
  {
    hide HoldsKey, Drained;
  }

  lemma {:induction false} SettlesDrained(m: Machine, a: seq<Slot>, b: seq<Slot>, pool: Bytes, dma: seq<Copy>)
    requires Sound(m) && Settles(m, a, pool, dma) && SameHoldings(a, b)
    ensures Settles(m, b, Drained(m.c, m.arena, m.width, pool, dma), [])
  {
    SettlesSame(m, a, b, pool, dma);
    DrainedSize(m.c, m.arena, m.width, pool, dma);
  }

  function CountTrue(bs: seq<bool>): nat {
    if bs == [] then 0 else CountTrue(bs[..|bs| - 1]) + if bs[|bs| - 1] then 1 else 0
  }

  lemma {:induction false} NoneTrue(bs: seq<bool>)
    requires forall i :: 0 <= i < |bs| ==> !bs[i]
    ensures CountTrue(bs) == 0
  {
    if bs != [] { NoneTrue(bs[..|bs| - 1]); }
  }

  lemma {:induction false} CountTrueUpdate(bs: seq<bool>, i: nat)
    requires i < |bs| && !bs[i]
    ensures CountTrue(bs[i := true]) == CountTrue(bs) + 1
  {
    var last := |bs| - 1;
    if i < last {
      assert bs[i := true][..last] == bs[..last][i := true];
      CountTrueUpdate(bs[..last], i);
    } else {
      assert bs[i := true][..last] == bs[..last];
    }
  }
}
