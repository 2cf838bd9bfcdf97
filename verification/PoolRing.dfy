/** The ring of raw indexer rows. */
module PoolRing {
  /*
   The ring is indexed by position modulo its size; a pool key is computed by the call that writes the
   last row of its group.  One launch runs a block per group, in any order, and each block first writes
   its own rows and later reads its own group back.
  */

  import opened Counting
  import opened Transformer

  /** Rows of the ring for a given chunk size; a non-positive chunk size means the default of 512. */
  function RawRingRows(maxChunk: int): (rows: nat)
    ensures maxChunk >= 12 ==> rows == maxChunk + 4
    ensures 0 < maxChunk < 12 ==> rows == 16
    ensures maxChunk <= 0 ==> rows == 516
  {
    var rows := if maxChunk > 0 then maxChunk + POOL else 512 + POOL;
    if rows < 16 then 16 else rows
  }

  /** The ring slot of position `q`. */
  function Slot(q: nat, ring: nat): (k: nat)
    requires ring > 0
    ensures k < ring
  {
    q % ring
  }

  /** The first positions have the slots of the same numbers, and a ring further on they come again. */
  lemma {:induction false} SlotIs(q: nat, ring: nat)
    requires ring > 0
    ensures q < ring ==> Slot(q, ring) == q
    ensures Slot(q + ring, ring) == Slot(q, ring)
  {
    var d := (q + ring) / ring - q / ring - 1;
    assert ring * d == q % ring - (q + ring) % ring;
    MultipleBounds(ring, d);
    MultipleBounds(ring, -d);
    if q < ring { assert q / ring == 0; }
  }

  lemma {:induction false} MultipleBounds(m: nat, d: int)
    ensures d >= 2 ==> m * d >= 2 * m
    ensures d < 0 ==> m * d <= 0 - m
  {
  }

  /** Two positions less than a ring apart never share a slot. */
  lemma {:induction false} NoCollision(a: nat, b: nat, ring: nat)
    requires a < b < a + ring
    ensures Slot(a, ring) != Slot(b, ring)
  {
    var d := b / ring - a / ring;
    assert b - a == ring * d + (b % ring - a % ring);
    MultipleBounds(ring, d);
  }

  /** The slots of a whole window of positions are pairwise different. */
  lemma {:induction false} WindowIsInjective(lo: int, hi: int, ring: nat)
    requires hi - lo <= ring
    ensures forall q, r :: lo <= q < hi && lo <= r < hi && 0 <= q && 0 <= r && q != r && ring > 0 ==>
          Slot(q, ring) != Slot(r, ring)
  {
    forall q, r | lo <= q < hi && lo <= r < hi && 0 <= q && 0 <= r && q != r && ring > 0
      ensures Slot(q, ring) != Slot(r, ring)
    {
      if q < r { NoCollision(q, r, ring); } else { NoCollision(r, q, ring); }
    }
  }

  /** The row of position `q` as a launch at `pos` sees it: from the ring, or among its own rows. */
  function Member(ring: seq<Row>, pos: nat, added: seq<Row>, q: nat): Row
    requires |ring| > 0 && q < pos + |added|
  {
    if q < pos then ring[Slot(q, |ring|)] else added[q - pos]
  }

  function Group(ring: seq<Row>, pos: nat, added: seq<Row>, p: nat): seq<Row>
    requires |ring| > 0 && POOL * p + POOL <= pos + |added|
  {
    [Member(ring, pos, added, POOL * p), Member(ring, pos, added, POOL * p + 1),
     Member(ring, pos, added, POOL * p + 2), Member(ring, pos, added, POOL * p + 3)]
  }

  /** The pools whose last row the launch writes. */
  predicate Completes(pos: nat, n: nat, p: nat) {
    pos <= POOL * p + POOL - 1 < pos + n
  }

  /** What a launch leaves behind, whatever the order of its blocks. */
  ghost predicate Launched(layer: Layer, ring0: seq<Row>, pools0: seq<PoolKey>, pos: nat, added: seq<Row>,
                           ring: seq<Row>, pools: seq<PoolKey>)
    requires layer.Mla? && |ring0| > 0
  {
    && |ring| == |ring0| && |pools| == |pools0|
    && (forall q :: pos <= q < pos + |added| ==> ring[Slot(q, |ring|)] == added[q - pos])
    && (forall q :: 0 <= q < pos && pos + |added| - |ring| <= q ==> ring[Slot(q, |ring|)] == ring0[Slot(q, |ring|)])
    && (forall p :: 0 <= p < |pools| ==>
          pools[p] == if Completes(pos, |added|, p) then layer.key(Group(ring0, pos, added, p)) else pools0[p])
  }

  /** The ring while blocks are running: `unwritten` blocks have not stored their rows yet. */
  ghost predicate RingDuring(ring0: seq<Row>, ring: seq<Row>, pos: nat, added: seq<Row>, unwritten: set<nat>) {
    && |ring| == |ring0| > 0
    && forall q :: 0 <= q < pos + |added| && pos + |added| - |ring| <= q ==>
         ring[Slot(q, |ring|)] == if pos <= q && q / POOL !in unwritten then added[q - pos] else ring0[Slot(q, |ring|)]
  }

  /** The rows one block writes: those of its group that belong to this call. */
  method WriteBlock(ghost ring0: seq<Row>, before: seq<Row>, p: nat, pos: nat, added: seq<Row>,
        ghost unwritten: set<nat>)
    returns (ring: seq<Row>)
    requires |before| >= |added| + POOL && p in unwritten
    requires RingDuring(ring0, before, pos, added, unwritten)
    ensures RingDuring(ring0, ring, pos, added, unwritten - {p})
  {
    hide Slot;
    ring := before;
    ghost var hi := pos + |added|;
    WindowIsInjective(hi - |ring0|, hi, |ring0|);
    for j := 0 to POOL
      invariant |ring| == |ring0|
      invariant forall q :: 0 <= q < hi && hi - |ring| <= q ==>
                  ring[Slot(q, |ring|)] == if pos <= q && POOL * p <= q < POOL * p + j then added[q - pos]
                                      else before[Slot(q, |ring|)]
    {
      var src := POOL * p + j - pos;
      if 0 <= src < |added| {
        ring := ring[Slot(POOL * p + j, |ring|) := added[src]];
      }
    }
  }

  /** A block that has stored its rows reads its whole group back, old rows and new. */
  method ReadGroup(ghost ring0: seq<Row>, ring: seq<Row>, p: nat, ghost pos: nat, ghost added: seq<Row>,
                   ghost unwritten: set<nat>)
    returns (rows: seq<Row>)
    requires |ring| >= |added| + POOL && p !in unwritten && Completes(pos, |added|, p)
    requires RingDuring(ring0, ring, pos, added, unwritten)
    ensures rows == Group(ring0, pos, added, p)
  {
    hide Slot;
    rows := [];
    for j := 0 to POOL
      invariant rows == Group(ring0, pos, added, p)[..j]
    {
      rows := rows + [ring[Slot(POOL * p + j, |ring|)]];
      assert Group(ring0, pos, added, p)[j] == Member(ring0, pos, added, POOL * p + j);
    }
  }

  method KpoolWrite(layer: Layer, ring0: seq<Row>, pools0: seq<PoolKey>, pos: nat, added: seq<Row>)
    returns (ring: seq<Row>, pools: seq<PoolKey>)
    requires layer.Mla? && |ring0| >= |added| + POOL
    requires (pos + |added|) / POOL <= |pools0|
    ensures Launched(layer, ring0, pools0, pos, added, ring, pools)
  {
    hide Slot;
    ring, pools := ring0, pools0;
    var unwritten := Below((pos + |added| + POOL - 1) / POOL);
    var unread := unwritten;
    while unread != {}
      invariant unwritten <= unread <= Below((pos + |added| + POOL - 1) / POOL)
      invariant RingDuring(ring0, ring, pos, added, unwritten)
      invariant |pools| == |pools0|
      invariant forall p :: 0 <= p < |pools| ==>
                  pools[p] == if Completes(pos, |added|, p) && p !in unread
                              then layer.key(Group(ring0, pos, added, p)) else pools0[p]
      decreases |unwritten| + |unread|
    {
      var p :| p in unread;   // the scheduler's choice
      if p in unwritten {
        ring := WriteBlock(ring0, ring, p, pos, added, unwritten);
        unwritten := unwritten - {p};
      } else {
        if Completes(pos, |added|, p) {
          var rows := ReadGroup(ring0, ring, p, pos, added, unwritten);
          pools := pools[p := layer.key(rows)];
        }
        unread := unread - {p};
      }
    }
  }

  /**
   What a layer's planes hold for the inputs `past`: the recurrent state, the latent rows, every
   complete pool, and in the ring the rows of the group that is still open.
  */
  datatype LayerCache = LayerCache(kda: KdaState, ckv: seq<Row>, ring: seq<Row>, pools: seq<PoolKey>)

  ghost predicate Holds(layer: Layer, c: LayerCache, past: seq<Hidden>) {
    match layer
    case Kda(_, _, _) => c.kda == KdaAfter(layer, past)
    case Mla(_, _, _) =>
      && |past| <= |c.ckv|
      && |c.ckv| / POOL <= |c.pools|
      && |c.ring| > 0
      && c.ckv[..|past|] == Rows(layer, past)
      && c.pools[..|past| / POOL] == Pools(layer, Rows(layer, past))
      && forall q :: |past| / POOL * POOL <= q < |past| ==> c.ring[Slot(q, |c.ring|)] == layer.row(past[q])
  }

  /** The group that a pool key is computed from is the one of the whole history. */
  lemma {:induction false} GroupOfHistory(layer: Layer, c: LayerCache, past: seq<Hidden>, xs: seq<Hidden>, p: nat)
    requires layer.Mla? && Holds(layer, c, past) && Completes(|past|, |xs|, p)
    ensures POOL * p + POOL <= |past| + |xs|
    ensures Group(c.ring, |past|, Rows(layer, xs), p) == Rows(layer, past + xs)[POOL * p..POOL * p + POOL]
  {
    hide Slot;
    var members, group := Group(c.ring, |past|, Rows(layer, xs), p), Rows(layer, past + xs)[POOL * p..POOL * p + POOL];
    forall i | 0 <= i < POOL
      ensures members[i] == group[i]
    {
      assert members[i] == Member(c.ring, |past|, Rows(layer, xs), POOL * p + i);
      assert group[i] == layer.row((past + xs)[POOL * p + i]);
    }
  }

  lemma {:induction false} PoolAfterLaunch(layer: Layer, c: LayerCache, past: seq<Hidden>, xs: seq<Hidden>,
                        ring: seq<Row>, pools: seq<PoolKey>, p: nat)
    requires layer.Mla? && Holds(layer, c, past)
    requires |c.ring| >= |xs| + POOL && |past| + |xs| <= |c.ckv|
    requires Launched(layer, c.ring, c.pools, |past|, Rows(layer, xs), ring, pools)
    requires p < (|past| + |xs|) / POOL
    ensures pools[p] == layer.key(Rows(layer, past + xs)[POOL * p..POOL * p + POOL])
  {
    hide Slot, Group;
    if Completes(|past|, |xs|, p) {
      GroupOfHistory(layer, c, past, xs, p);
    } else {
      assert pools[p] == c.pools[..|past| / POOL][p];
      assert Rows(layer, past)[POOL * p..POOL * p + POOL] == Rows(layer, past + xs)[POOL * p..POOL * p + POOL];
    }
  }

  lemma {:induction false} OpenGroupAfterLaunch(layer: Layer, c: LayerCache, past: seq<Hidden>, xs: seq<Hidden>,
                             ring: seq<Row>, pools: seq<PoolKey>, q: nat)
    requires layer.Mla? && Holds(layer, c, past)
    requires |c.ring| >= |xs| + POOL
    requires Launched(layer, c.ring, c.pools, |past|, Rows(layer, xs), ring, pools)
    requires (|past| + |xs|) / POOL * POOL <= q < |past| + |xs|
    ensures ring[Slot(q, |ring|)] == layer.row((past + xs)[q])
  {
    hide Slot;
    if q < |past| {
      assert ring[Slot(q, |ring|)] == c.ring[Slot(q, |c.ring|)];
    } else {
      assert ring[Slot(q, |ring|)] == Rows(layer, xs)[q - |past|];
    }
  }

  /** A launch that extends planes holding `past` by the rows of `xs` leaves planes holding both. */
  lemma {:induction false} LaunchExtends(layer: Layer, c: LayerCache, past: seq<Hidden>, xs: seq<Hidden>,
                      ring: seq<Row>, pools: seq<PoolKey>)
    requires layer.Mla? && Holds(layer, c, past)
    requires |c.ring| >= |xs| + POOL && |past| + |xs| <= |c.ckv|
    requires Launched(layer, c.ring, c.pools, |past|, Rows(layer, xs), ring, pools)
    ensures pools[..(|past| + |xs|) / POOL] == Pools(layer, Rows(layer, past + xs))
    ensures forall q :: (|past| + |xs|) / POOL * POOL <= q < |past| + |xs| ==>
              ring[Slot(q, |ring|)] == layer.row((past + xs)[q])
  {
    hide Slot;
    var all, pos := past + xs, |past|;
    var rows := Rows(layer, all);
    forall p | 0 <= p < |all| / POOL
      ensures pools[p] == layer.key(rows[POOL * p..POOL * p + POOL])
    {
      PoolAfterLaunch(layer, c, past, xs, ring, pools, p);
    }
    forall q | |all| / POOL * POOL <= q < |all|
      ensures ring[Slot(q, |ring|)] == layer.row(all[q])
    {
      OpenGroupAfterLaunch(layer, c, past, xs, ring, pools, q);
    }
  }

  /** Rewinding to a multiple of four, or not at all, keeps the planes good for the shorter prefix. */
  lemma {:induction false} RewindKeepsPlanes(layer: Layer, c: LayerCache, past: seq<Hidden>, resume: nat)
    requires layer.Mla? && Holds(layer, c, past)
    requires resume <= |past| && (resume % POOL == 0 || resume == |past|)
    ensures Holds(layer, c, past[..resume])
  {
    assert c.ckv[..resume] == c.ckv[..|past|][..resume];
    assert Rows(layer, past[..resume]) == Rows(layer, past)[..resume];
    PoolsOfPrefix(layer, Rows(layer, past), resume);
    assert c.pools[..resume / POOL] == c.pools[..|past| / POOL][..resume / POOL];
  }

  /** The planes after one launch, before attention reads them. */
  method Write(layer: Layer, c: LayerCache, ghost past: seq<Hidden>, pos: nat, xs: seq<Hidden>) returns (c': LayerCache)
    requires layer.Mla? && Holds(layer, c, past) && pos == |past|
    requires |c.ring| >= |xs| + POOL && pos + |xs| <= |c.ckv|
    ensures Holds(layer, c', past + xs)
    ensures |c'.ckv| == |c.ckv| && |c'.ring| == |c.ring| && |c'.pools| == |c.pools|
    ensures Launched(layer, c.ring, c.pools, pos, Rows(layer, xs), c'.ring, c'.pools)
  {
    var added := Rows(layer, xs);
    var ring, pools := KpoolWrite(layer, c.ring, c.pools, pos, added);
    c' := c.(ckv := c.ckv[..pos] + added + c.ckv[pos + |xs|..], ring := ring, pools := pools);
    LaunchExtends(layer, c, past, xs, ring, pools);
    assert c'.ckv[..pos + |xs|] == Rows(layer, past + xs);
  }

  /**
   Without alignment it fails: twenty inputs in two launches on a ring of sixteen rows, the first two unlike the
   others.  The planes then hold all twenty, but not the first two, whose group has been recycled.
  */
  method RewindNeedsAlignment(layer: Layer, c: LayerCache, h0: Hidden, h1: Hidden)
    returns (c': LayerCache, past: seq<Hidden>)
    requires layer.Mla? && Holds(layer, c, []) && |c.ring| == 16 && |c.ckv| >= 20 && layer.row(h0) != layer.row(h1)
    ensures |past| == 20 && Holds(layer, c', past) && !Holds(layer, c', past[..2])
  {
    var first, second := [h0, h0] + seq(10, _ => h1), seq(8, _ => h1);
    c' := Write(layer, c, [], 0, first);
    assert [] + first == first;
    c' := Write(layer, c', first, 12, second);
    past := first + second;
    assert c'.ring[Slot(17, 16)] == Rows(layer, second)[17 - 12];
    assert Slot(17, 16) == Slot(1, 16) && past[..2][1] == h0;
  }

  // The latent rows and the complete pools of `all`.
  ghost predicate PlanesOf(layer: Layer, c: LayerCache, all: seq<Hidden>)
    requires layer.Mla?
  {
    && |all| <= |c.ckv| && |all| / POOL <= |c.pools|
    && c.ckv[..|all|] == Rows(layer, all)
    && c.pools[..|all| / POOL] == Pools(layer, Rows(layer, all))
  }

  lemma {:induction false} PlanesFromHolds(layer: Layer, c: LayerCache, all: seq<Hidden>)
    requires layer.Mla? && Holds(layer, c, all)
    ensures PlanesOf(layer, c, all)
  {
  }

  method KdaStep(layer: Layer, c: LayerCache, ghost past: seq<Hidden>, xs: seq<Hidden>)
    returns (c': LayerCache, ys: seq<Hidden>)
    requires layer.Kda? && Holds(layer, c, past)
    ensures c' == c.(kda := KdaAfter(layer, past + xs))
    ensures LayerOut(layer, past) + ys == LayerOut(layer, past + xs)
  {
    c', ys := c, [];
    ghost var base := LayerOut(layer, past);
    assert past + xs[..0] == past;
    for j := 0 to |xs|
      invariant c' == c.(kda := KdaAfter(layer, past + xs[..j]))
      invariant base + ys == LayerOut(layer, past + xs[..j])
    {
      ys := ys + [layer.emit(c'.kda, xs[j])];
      c' := c'.(kda := layer.step(c'.kda, xs[j]));
      ExtendByOne(past, xs, j);
      assert base + ys == (base + ys[..j]) + [ys[j]];
    }
    assert xs[..|xs|] == xs;
  }

  /** Attention over the planes once they hold the chunk: each row reads only what lies below it. */
  method AttendRows(layer: Layer, c: LayerCache, ghost past: seq<Hidden>, pos: nat, xs: seq<Hidden>)
    returns (ys: seq<Hidden>)
    requires layer.Mla? && Holds(layer, c, past + xs) && pos == |past|
    ensures LayerOut(layer, past) + ys == LayerOut(layer, past + xs)
  {
    hide Holds, LayerOut, Emit, Rows, Pools;
    PlanesFromHolds(layer, c, past + xs);
    ys := [];
    ghost var base := LayerOut(layer, past);
    assert past + xs[..0] == past;
    for j := 0 to |xs|
      invariant base + ys == LayerOut(layer, past + xs[..j])
    {
      var y := layer.attend(xs[j], c.ckv[..pos + j + 1], c.pools[..(pos + j + 1) / POOL]);
      RowAttends(layer, c, past, xs, j);
      assert base + (ys + [y]) == (base + ys) + [y];
      ys := ys + [y];
    }
    assert xs[..|xs|] == xs;
  }

  lemma {:induction false} LayerOutStep(layer: Layer, past: seq<Hidden>, x: Hidden)
    ensures LayerOut(layer, past + [x]) == LayerOut(layer, past) + [Emit(layer, past, x)]
  {
    assert (past + [x])[..|past|] == past;
  }

  lemma {:induction false} RowAttends(layer: Layer, c: LayerCache, past: seq<Hidden>, xs: seq<Hidden>, j: nat)
    requires layer.Mla? && PlanesOf(layer, c, past + xs) && j < |xs|
    ensures var q := |past| + j;
      LayerOut(layer, past + xs[..j + 1])
      == LayerOut(layer, past + xs[..j]) + [layer.attend(xs[j], c.ckv[..q + 1], c.pools[..(q + 1) / POOL])]
  {
    hide LayerOut, Rows, Pools;
    var before, q := past + xs[..j], |past| + j;
    ReadsAreBounded(layer, c, past + xs, q);
    hide PlanesOf;
    assert (past + xs)[..q + 1] == before + [xs[j]];
    assert past + xs[..j + 1] == before + [xs[j]];
    LayerOutStep(layer, before, xs[j]);
    assert Emit(layer, before, xs[j]) == layer.attend(xs[j], c.ckv[..q + 1], c.pools[..(q + 1) / POOL]);
  }

  /** One layer over one chunk: the planes gain the chunk, and the outputs are the cold pass's. */
  method LayerStep(layer: Layer, c: LayerCache, ghost past: seq<Hidden>, pos: nat, xs: seq<Hidden>)
    returns (c': LayerCache, ys: seq<Hidden>)
    requires Holds(layer, c, past) && pos == |past|
    requires layer.Mla? ==> |c.ring| >= |xs| + POOL && pos + |xs| <= |c.ckv|
    ensures Holds(layer, c', past + xs)
    ensures |c'.ckv| == |c.ckv| && |c'.ring| == |c.ring| && |c'.pools| == |c.pools|
    ensures LayerOut(layer, past) + ys == LayerOut(layer, past + xs)
  {
    if layer.Kda? {
      c', ys := KdaStep(layer, c, past, xs);
    } else {
      c' := Write(layer, c, past, pos, xs);
      ys := AttendRows(layer, c', past, pos, xs);
    }
  }

  /** What the row at `q` reads of the planes is what a pass that stops at `q` would have built. */
  lemma {:induction false} ReadsAreBounded(layer: Layer, c: LayerCache, all: seq<Hidden>, q: nat)
    requires layer.Mla? && q < |all| && PlanesOf(layer, c, all)
    ensures q + 1 <= |c.ckv| && (q + 1) / POOL <= |c.pools|
    ensures c.ckv[..q + 1] == Rows(layer, all[..q + 1])
    ensures c.pools[..(q + 1) / POOL] == Pools(layer, Rows(layer, all[..q + 1]))
  {
    assert c.ckv[..q + 1] == c.ckv[..|all|][..q + 1];
    assert Rows(layer, all[..q + 1]) == Rows(layer, all)[..q + 1];
    PoolsOfPrefix(layer, Rows(layer, all), q + 1);
    assert c.pools[..(q + 1) / POOL] == c.pools[..|all| / POOL][..(q + 1) / POOL];
  }

  lemma {:induction false} ExtendByOne(past: seq<Hidden>, xs: seq<Hidden>, j: nat)
    requires j < |xs|
    ensures var all := past + xs[..j + 1];
            all[..|all| - 1] == past + xs[..j] && all[|all| - 1] == xs[j] && all == past + xs[..j] + [xs[j]]
  {
  }
}
