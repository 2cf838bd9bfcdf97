/** A sparse layer, row by row. */
module MoeLayer {
  /*
   The rows of a chunk share the expert slots, so what a row gets may depend on its neighbours: when a chunk
   has more active experts than there are slots, the last experts are served as zeros.  Here is exactly when
   a row's result is a function of the row alone, which is what reuse of a prefix relies on.
  */

  import opened Arithmetic
  import opened Counting
  import opened ExpertArena
  import opened SlotManager
  import opened MoeStep
  import R = MoeRouting
  import S = MoeSums

  // How a row is routed, an expert given the nine pieces it reads, the sum, and the shared expert; `blank` is
  // the byte the zero slab is filled with.
  datatype Kernels<!H, !W, !V> = Kernels(topk: nat, ids: H -> seq<nat>, weights: H -> seq<W>,
    expert: (seq<Bytes>, H) -> V, scale: (W, V) -> V, add: (V, V) -> V, zero: V, shared: H -> V, blank: Byte)

  ghost predicate Routes<H(!new), W, V>(k: Kernels<H, W, V>) {
    k.topk > 0 && forall h :: RoutesRow(k, h)
  }

  predicate RoutesRow<H, W, V>(k: Kernels<H, W, V>, h: H) {
    |k.ids(h)| == |k.weights(h)| == k.topk && forall j :: 0 <= j < k.topk ==> k.ids(h)[j] < EXPERTS
  }

  // ------------------------------------------------------------------ one row

  // The row's contributions in order of rank, when expert `e` is given the pieces `given[e]`.
  function Shares<H, W, V>(k: Kernels<H, W, V>, given: seq<seq<Bytes>>, h: H): (row: seq<V>)
    requires RoutesRow(k, h) && |given| == EXPERTS
    ensures |row| == k.topk
  {
    seq(k.topk, j requires 0 <= j < k.topk => k.scale(k.weights(h)[j], k.expert(given[k.ids(h)[j]], h)))
  }

  /** What a row gets: the routed experts by rank, then the shared one. */
  function RowWith<H, W, V>(k: Kernels<H, W, V>, given: seq<seq<Bytes>>, h: H): V
    requires RoutesRow(k, h) && |given| == EXPERTS
  {
    k.add(S.Fold(k.add, k.zero, Shares(k, given, h)), k.shared(h))
  }

  /** The sums are taken by rank from zero on, each expert's result times its weight, and the shared expert last. */
  lemma {:induction false} RowIs<H, W, V>(k: Kernels<H, W, V>, given: seq<seq<Bytes>>, h: H, sums: seq<V>)
    requires RoutesRow(k, h) && |given| == EXPERTS && |sums| == k.topk + 1 && sums[0] == k.zero
    requires forall j :: 0 <= j < k.topk ==>
               sums[j + 1] == k.add(sums[j], k.scale(k.weights(h)[j], k.expert(given[k.ids(h)[j]], h)))
    ensures RowWith(k, given, h) == k.add(sums[k.topk], k.shared(h))
  {
    var row := Shares(k, given, h);
    S.FoldIs(k.add, k.zero, row, sums, k.topk);
    assert row[..k.topk] == row;
  }

  // What each expert reads of its own tensors.
  ghost function Own(m: Machine, layer: nat): (given: seq<seq<Bytes>>)
    requires Sound(m) && IsSparse(m, layer)
    ensures |given| == EXPERTS
  {
    seq(EXPERTS, e requires 0 <= e < EXPERTS => OwnPieces(m, layer, e))
  }

  ghost function OwnPieces(m: Machine, layer: nat, e: nat): (pieces: seq<Bytes>)
    requires Sound(m) && IsSparse(m, layer) && e < EXPERTS
    ensures |pieces| == TABLES
  {
    assert IsExpert(m.c, layer, e);
    seq(TABLES, t requires 0 <= t < TABLES => m.t(layer, e)[PieceOf(t)])
  }

  ghost function ZeroPieces(m: Machine, layer: nat, blank: Byte): (pieces: seq<Bytes>)
    requires Sound(m) && IsSparse(m, layer)
    ensures |pieces| == TABLES
  {
    seq(TABLES, t requires 0 <= t < TABLES => seq(m.c.layouts[layer].piece[PieceOf(t)], _ => blank))
  }

  // The expert is among the first active ones, as many as there are slots.
  predicate Kept(counts: seq<int>, nSlots: nat, e: nat)
    requires e < |counts|
  {
    |Actives(counts[..e])| < nSlots
  }

  // What the experts of a chunk are served.
  ghost function Served(m: Machine, layer: nat, blank: Byte, counts: seq<int>, nSlots: nat): (given: seq<seq<Bytes>>)
    requires Sound(m) && IsSparse(m, layer) && |counts| == EXPERTS
    ensures |given| == EXPERTS
  {
    seq(EXPERTS, e requires 0 <= e < EXPERTS =>
      if Kept(counts, nSlots, e) then OwnPieces(m, layer, e) else ZeroPieces(m, layer, blank))
  }

  // ------------------------------------------------------------------ what a launch serves

  // What the kernel reads through one entry of its tables.
  function ReadEntry(m: Machine, launch: Launch, blank: Byte, e: nat, t: nat): Bytes
    requires TableShape(launch.tables) && e < EXPERTS && t < TABLES
    requires IsSparse(m, launch.layer) && WellLaid(m.c.layouts[launch.layer])
  {
    var n := m.c.layouts[launch.layer].piece[PieceOf(t)];
    match Lookup(launch.tables, t, e)
    case Pool(at) => if InRange(launch.pool, at, n) then Read(launch.pool, at, n) else []
    case Zero(_) => seq(n, _ => blank)
    case Null => []
  }

  function ReadPieces(m: Machine, launch: Launch, blank: Byte, e: nat): (pieces: seq<Bytes>)
    requires TableShape(launch.tables) && e < EXPERTS
    requires IsSparse(m, launch.layer) && WellLaid(m.c.layouts[launch.layer])
    ensures |pieces| == TABLES
  {
    seq(TABLES, t requires 0 <= t < TABLES => ReadEntry(m, launch, blank, e, t))
  }

  /** A launch gives every expert with tokens its own pieces if it is kept, and zeros if not. */
  lemma {:induction false} LaunchServes(m: Machine, nSlots: nat, launch: Launch, blank: Byte, e: nat)
    requires Sound(m) && LaunchOk(m, nSlots, launch) && WellLaid(m.c.layouts[launch.layer])
    requires e < EXPERTS && launch.counts[e] > 0
    ensures ReadPieces(m, launch, blank, e) == Served(m, launch.layer, blank, launch.counts, nSlots)[e]
  {
    hide Sound, WellLaid, Actives, PieceOf, Lookup;
    ActivesPrefix(launch.counts, e);
    var j := |Actives(launch.counts[..e])|;
    forall t: nat | t < TABLES
      ensures ReadPieces(m, launch, blank, e)[t] == Served(m, launch.layer, blank, launch.counts, nSlots)[e][t]
    {
      assert EntryOk(m, nSlots, launch, j, t);
    }
  }

  /** In the tensors' own terms: a kept expert is given trellis, suh and svh of its gate, up and down projection. */
  lemma {:induction false} ReadsTensors(m: Machine, nSlots: nat, launch: Launch, blank: Byte, e: nat, j: nat, k: nat)
    requires Sound(m) && LaunchOk(m, nSlots, launch) && WellLaid(m.c.layouts[launch.layer])
    requires e < 288 && launch.counts[e] > 0 && j < 3 && k < 3 && |Actives(launch.counts[..e])| < nSlots
    ensures 4 * j + k < |m.t(launch.layer, e)|
    ensures ReadPieces(m, launch, blank, e)[3 * j + k] == m.t(launch.layer, e)[4 * j + k]
  {
    hide Actives, ReadPieces, WellLaid;
    LaunchServes(m, nSlots, launch, blank, e);
    PieceIs(j, k);
    assert IsExpert(m.c, launch.layer, e);
  }

  /** An expert for which there is no slot is given blanks instead, of the same length. */
  lemma {:induction false} ReadsBlanks(m: Machine, nSlots: nat, launch: Launch, blank: Byte, e: nat, j: nat, k: nat)
    requires Sound(m) && LaunchOk(m, nSlots, launch) && WellLaid(m.c.layouts[launch.layer])
    requires e < 288 && launch.counts[e] > 0 && j < 3 && k < 3 && |Actives(launch.counts[..e])| >= nSlots
    ensures 4 * j + k < |m.t(launch.layer, e)|
    ensures ReadPieces(m, launch, blank, e)[3 * j + k] == seq(|m.t(launch.layer, e)[4 * j + k]|, _ => blank)
  {
    hide Actives, ReadPieces, WellLaid;
    LaunchServes(m, nSlots, launch, blank, e);
    PieceIs(j, k);
    assert IsExpert(m.c, launch.layer, e);
  }

  // ------------------------------------------------------------------ the routes of a chunk

  lemma {:induction false} RankIsBounded(i: nat, tokens: nat, topk: nat)
    requires topk > 0 && i < S.RouteAt(tokens, 0, topk)
    ensures R.TokenOf(i, topk) < tokens && 0 <= i - R.TokenOf(i, topk) * topk < topk
  {
    S.TokenIsBounded(i, tokens, topk);
  }

  function Routed<H, W, V>(k: Kernels<H, W, V>, x: seq<H>, i: nat): (nat, W)
    requires k.topk > 0 && i < S.RouteAt(|x|, 0, k.topk) && forall h :: h in x ==> RoutesRow(k, h)
  {
    RankIsBounded(i, |x|, k.topk);
    var t := R.TokenOf(i, k.topk);
    var j := i - t * k.topk;
    assert x[t] in x && RoutesRow(k, x[t]);
    (k.ids(x[t])[j], k.weights(x[t])[j])
  }

  /** All routes of a chunk, row by row. */
  function ChunkRoutes<H, W, V>(k: Kernels<H, W, V>, x: seq<H>): (r: R.Routes<W>)
    requires k.topk > 0 && forall h :: h in x ==> RoutesRow(k, h)
    ensures r.topk == k.topk && r.experts == EXPERTS && |r.ids| == |r.weights| == S.RouteAt(|x|, 0, k.topk)
    ensures forall i :: 0 <= i < |r.ids| ==> (r.ids[i], r.weights[i]) == Routed(k, x, i)
  {
    var n := S.RouteAt(|x|, 0, k.topk);
    R.Routes(seq(n, i requires 0 <= i < n => Routed(k, x, i).0), seq(n, i requires 0 <= i < n => Routed(k, x, i).1),
             k.topk, EXPERTS)
  }

  lemma {:induction false} ChunkIsShaped<H, W, V>(k: Kernels<H, W, V>, x: seq<H>)
    requires k.topk > 0 && forall h :: h in x ==> RoutesRow(k, h)
    ensures S.Shaped(ChunkRoutes(k, x), x)
  {
    hide S.RouteAt, R.TokenOf;
    var r := ChunkRoutes(k, x);
    forall i | 0 <= i < |r.ids|
      ensures r.ids[i] < EXPERTS
    {
      RankIsBounded(i, |x|, k.topk);
      assert x[R.TokenOf(i, k.topk)] in x;
    }
  }

  lemma {:induction false} RouteOfRow<H, W, V>(k: Kernels<H, W, V>, x: seq<H>, t: nat, j: nat)
    requires k.topk > 0 && (forall h :: h in x ==> RoutesRow(k, h)) && t < |x| && j < k.topk
    ensures S.RouteAt(t, j, k.topk) < S.RouteAt(|x|, 0, k.topk) && x[t] in x
    ensures R.TokenOf(S.RouteAt(t, j, k.topk), k.topk) == t
    ensures Routed(k, x, S.RouteAt(t, j, k.topk)) == (k.ids(x[t])[j], k.weights(x[t])[j])
  {
    S.RouteIsTokens(t, j, k.topk, |x|);
  }

  /** How many tokens of the chunk go to each expert. */
  function ChunkCounts<H, W, V>(k: Kernels<H, W, V>, x: seq<H>): (counts: seq<nat>)
    requires k.topk > 0 && forall h :: h in x ==> RoutesRow(k, h)
    ensures |counts| == EXPERTS
  {
    var r := ChunkRoutes(k, x);
    seq(EXPERTS, e requires 0 <= e < EXPERTS => R.CountOf(r.ids, e, |r.ids|))
  }

  lemma {:induction false} CountedOnce(ids: seq<nat>, e: nat, n: nat, i: nat)
    requires i < n <= |ids| && ids[i] == e
    ensures R.CountOf(ids, e, n) > 0
  {
    if i < n - 1 { CountedOnce(ids, e, n - 1, i); }
  }

  lemma {:induction false} RouteIsCounted<H, W, V>(k: Kernels<H, W, V>, x: seq<H>, t: nat, j: nat)
    requires k.topk > 0 && (forall h :: h in x ==> RoutesRow(k, h)) && t < |x| && j < k.topk
    ensures x[t] in x && ChunkCounts(k, x)[k.ids(x[t])[j]] > 0
  {
    hide S.RouteAt, R.TokenOf, R.CountOf;
    RouteOfRow(k, x, t, j);
    var r := ChunkRoutes(k, x);
    CountedOnce(r.ids, k.ids(x[t])[j], |r.ids|, S.RouteAt(t, j, k.topk));
  }

  // ------------------------------------------------------------------ the layer

  // The fused kernel's scratch: how many tokens of an expert it holds, how many groups share the experts, and
  // what the contributions held before.
  datatype Buffer<!V> = Buffer(most: nat, nGroups: nat, stale: nat -> V)

  lemma {:induction false} CountsAreRoutes<H, W, V>(k: Kernels<H, W, V>, x: seq<H>, most: nat)
    requires k.topk > 0 && forall h :: h in x ==> RoutesRow(k, h)
    ensures S.NoneTooMany(ChunkRoutes(k, x), most) <==> forall e :: 0 <= e < EXPERTS ==> ChunkCounts(k, x)[e] <= most
  {
    hide R.CountOf;
    var r := ChunkRoutes(k, x);
    if S.NoneTooMany(r, most) {
      forall e | 0 <= e < EXPERTS
        ensures ChunkCounts(k, x)[e] <= most
      {
        assert R.CountOf(r.ids, e, |r.ids|) <= most;
      }
    } else {
      var e: nat :| e < r.experts && R.CountOf(r.ids, e, |r.ids|) > most;
      assert ChunkCounts(k, x)[e] > most;
    }
  }

  /** It is enough that a chunk is no longer than that and a row's experts are different. */
  lemma {:induction false} ShortChunksFit<H(!new), W, V>(k: Kernels<H, W, V>, x: seq<H>, most: nat)
    requires Routes(k) && PicksDifferent(k) && |x| <= most
    ensures forall e :: 0 <= e < EXPERTS ==> ChunkCounts(k, x)[e] <= most
  {
    hide ChunkRoutes, ChunkCounts, PicksDifferent, S.NoneTooMany, S.DistinctExperts, S.Shaped;
    RoutesAll(k, x);
    ChunkIsShaped(k, x);
    ChunkIsDistinct(k, x);
    S.DifferentExpertsFit(ChunkRoutes(k, x), x, most);
    CountsAreRoutes(k, x, most);
  }

  /**
   The layer over one chunk: routing and counting, a step of the slot manager, the grouped path over what the
   launch finds, and the shared expert.
  */
  method MoeFfn<H(!new), W, V>(mgr: SlotMgr, k: Kernels<H, W, V>, layer: nat, x: seq<H>, buffer: Buffer<V>,
          rankAgain: bool)
    returns (y: seq<V>)
    requires mgr.Valid() && mgr.Quiet() && IsSparse(mgr.m, layer) && Routes(k) && buffer.nGroups > 0
    requires forall e :: 0 <= e < EXPERTS ==> ChunkCounts(k, x)[e] <= buffer.most
    modifies mgr
    ensures mgr.Valid() && mgr.Quiet() && |mgr.slots| == old(|mgr.slots|) && |y| == |x|
    ensures forall t :: 0 <= t < |x| ==>
              y[t] == RowWith(k, Served(mgr.m, layer, k.blank, ChunkCounts(k, x), |mgr.slots|), x[t])
  {
    hide SlotMgr.Valid, SlotMgr.Quiet, Sound, LaunchOk, WellLaid, Served, RowWith, ReadPieces, S.Shaped, ChunkRoutes,
         Routes;
    RoutesAll(k, x);
    ValidIsSound(mgr);
    SparseIsLaid(mgr.m, layer);
    var r := ChunkRoutes(k, x);
    ChunkIsShaped(k, x);
    var counts := R.MoeCount(r.ids, EXPERTS);
    assert counts == ChunkCounts(k, x);
    var launch := Step(mgr, Request(layer, counts, rankAgain));
    LaunchIsShaped(mgr.m, |mgr.slots|, launch);
    var given := seq(EXPERTS, e requires 0 <= e < EXPERTS => ReadPieces(mgr.m, launch, k.blank, e));
    var l := GroupedLayer(k, given);
    var stale := seq(|r.ids|, i requires 0 <= i => buffer.stale(i));
    CountsAreRoutes(k, x, buffer.most);
    y := S.MoeGrouped(l, r, x, buffer.most, buffer.nGroups, stale);
    ghost var routed := y;
    for t := 0 to |x|
      invariant |y| == |x|
      invariant forall u :: 0 <= u < |x| ==> y[u] == if u < t then k.add(routed[u], k.shared(x[u])) else routed[u]
    {
      y := y[t := k.add(y[t], k.shared(x[t]))];
    }
    forall t | 0 <= t < |x|
      ensures y[t] == RowWith(k, Served(mgr.m, layer, k.blank, ChunkCounts(k, x), |mgr.slots|), x[t])
    {
      RowIsServed(mgr.m, |mgr.slots|, k, launch, given, x, t);
    }
  }

  lemma {:induction false} RoutesAll<H(!new), W, V>(k: Kernels<H, W, V>, x: seq<H>)
    requires Routes(k)
    ensures k.topk > 0 && forall h :: h in x ==> RoutesRow(k, h)
  {
  }

  lemma {:induction false} LaunchIsShaped(m: Machine, nSlots: nat, launch: Launch)
    requires Sound(m) && LaunchOk(m, nSlots, launch)
    ensures TableShape(launch.tables) && IsSparse(m, launch.layer) && |launch.counts| == EXPERTS
  {
    hide Sound;
  }

  function GroupedLayer<H, W, V>(k: Kernels<H, W, V>, given: seq<seq<Bytes>>): S.Layer<H, W, V> {
    S.Layer((e: nat, h: H) => if e < |given| then k.expert(given[e], h) else k.zero, k.scale, k.add, k.zero)
  }

  /** The grouped path's row is the row with what the launch serves. */
  lemma {:induction false} RowIsServed<H, W, V>(m: Machine, nSlots: nat, k: Kernels<H, W, V>, launch: Launch,
        given: seq<seq<Bytes>>, x: seq<H>, t: nat)
    requires Sound(m) && LaunchOk(m, nSlots, launch) && TableShape(launch.tables) && |launch.counts| == EXPERTS
    requires IsSparse(m, launch.layer) && WellLaid(m.c.layouts[launch.layer])
    requires k.topk > 0 && (forall h :: h in x ==> RoutesRow(k, h)) && t < |x| && launch.counts == ChunkCounts(k, x)
    requires |given| == EXPERTS && forall e :: 0 <= e < EXPERTS ==> given[e] == ReadPieces(m, launch, k.blank, e)
    requires S.Shaped(ChunkRoutes(k, x), x)
    ensures x[t] in x
    ensures k.add(S.Fold(k.add, k.zero, S.TokenRow(GroupedLayer(k, given), ChunkRoutes(k, x), x, t)), k.shared(x[t]))
         == RowWith(k, Served(m, launch.layer, k.blank, ChunkCounts(k, x), nSlots), x[t])
  {
    assert x[t] in x;
    hide Sound, LaunchOk, WellLaid, ReadPieces, Served, S.RouteAt, R.TokenOf, R.CountOf, ChunkCounts, S.Fold;
    var row := S.TokenRow(GroupedLayer(k, given), ChunkRoutes(k, x), x, t);
    var served := Served(m, launch.layer, k.blank, launch.counts, nSlots);
    var want := Shares(k, served, x[t]);
    forall j: nat | j < k.topk
      ensures row[j] == want[j]
    {
      assert S.IsRoute(ChunkRoutes(k, x), x, t, j);
      RouteOfRow(k, x, t, j);
      RouteIsCounted(k, x, t, j);
      LaunchServes(m, nSlots, launch, k.blank, k.ids(x[t])[j]);
    }
    assert row == want;
  }

  // ------------------------------------------------------------------ when a row stands alone

  /** With enough slots for the chunk every row gets what its own experts give it: a function of the row alone. */
  lemma {:induction false} EnoughSlots(m: Machine, layer: nat, blank: Byte, counts: seq<int>, nSlots: nat)
    requires Sound(m) && IsSparse(m, layer) && |counts| == EXPERTS && |Actives(counts)| <= nSlots
    ensures forall e :: 0 <= e < EXPERTS && counts[e] > 0 ==>
              Served(m, layer, blank, counts, nSlots)[e] == Own(m, layer)[e]
  {
    hide Sound, Actives, OwnPieces, ZeroPieces;
    forall e | 0 <= e < EXPERTS && counts[e] > 0
      ensures Served(m, layer, blank, counts, nSlots)[e] == Own(m, layer)[e]
    {
      ActivesPrefix(counts, e);
    }
  }

  // Every expert the row is routed to is served its own pieces.
  ghost predicate OwnExperts<H, W, V>(k: Kernels<H, W, V>, given: seq<seq<Bytes>>, own: seq<seq<Bytes>>, h: H)
    requires RoutesRow(k, h) && |given| == |own| == EXPERTS
  {
    forall j: nat :: j < k.topk ==> given[k.ids(h)[j]] == own[k.ids(h)[j]]
  }

  lemma {:induction false} SameShares<H, W, V>(k: Kernels<H, W, V>, given: seq<seq<Bytes>>, own: seq<seq<Bytes>>, h: H)
    requires RoutesRow(k, h) && |given| == |own| == EXPERTS && OwnExperts(k, given, own, h)
    ensures RowWith(k, given, h) == RowWith(k, own, h)
  {
    assert Shares(k, given, h) == Shares(k, own, h);
  }

  // The same routing with kernels that hide nothing: an expert's share is the pieces it has read.
  function Tracer<H, W, V>(k: Kernels<H, W, V>): Kernels<H, W, seq<seq<Bytes>>> {
    Kernels(k.topk, k.ids, k.weights, (pieces: seq<Bytes>, h: H) => [pieces],
            (w: W, v: seq<seq<Bytes>>) => v, (a: seq<seq<Bytes>>, b: seq<seq<Bytes>>) => a + b, [],
            (h: H) => [], k.blank)
  }

  lemma {:induction false} TraceOf(vs: seq<seq<seq<Bytes>>>, add: (seq<seq<Bytes>>, seq<seq<Bytes>>) -> seq<seq<Bytes>>)
    requires forall a, b :: add(a, b) == a + b
    requires forall j :: 0 <= j < |vs| ==> |vs[j]| == 1
    ensures |S.Fold(add, [], vs)| == |vs| && forall j :: 0 <= j < |vs| ==> S.Fold(add, [], vs)[j] == vs[j][0]
  {
    if vs != [] { TraceOf(vs[..|vs| - 1], add); }
  }

  /**
   A row that is given something else than its own experts gets the same result anyway under some kernels, but
   not under all: it is the row alone, whatever the kernels, exactly when all its experts are served their own.
  */
  lemma {:induction false} RowStandsAloneIff<H, W, V>(k: Kernels<H, W, V>, given: seq<seq<Bytes>>,
        own: seq<seq<Bytes>>, h: H)
    requires RoutesRow(k, h) && |given| == |own| == EXPERTS
    ensures RoutesRow(Tracer(k), h)
    ensures OwnExperts(k, given, own, h) ==> RowWith(k, given, h) == RowWith(k, own, h)
    ensures RowWith(Tracer(k), given, h) == RowWith(Tracer(k), own, h) <==> OwnExperts(k, given, own, h)
  {
    var tr := Tracer(k);
    if OwnExperts(k, given, own, h) { SameShares(k, given, own, h); SameShares(tr, given, own, h); }
    TraceOf(Shares(tr, given, h), tr.add);
    TraceOf(Shares(tr, own, h), tr.add);
    if RowWith(tr, given, h) == RowWith(tr, own, h) {
      forall j: nat | j < k.topk
        ensures given[k.ids(h)[j]] == own[k.ids(h)[j]]
      {
        assert RowWith(tr, given, h)[j] == given[k.ids(h)[j]];
        assert RowWith(tr, own, h)[j] == own[k.ids(h)[j]];
      }
    }
  }

  /** The kernel reads an expert's own pieces exactly when the expert is kept, or is all zeros itself. */
  lemma {:induction false} ReadsOwnIff(m: Machine, nSlots: nat, launch: Launch, blank: Byte, e: nat)
    requires Sound(m) && LaunchOk(m, nSlots, launch) && WellLaid(m.c.layouts[launch.layer])
    requires e < EXPERTS && launch.counts[e] > 0
    ensures ReadPieces(m, launch, blank, e) == OwnPieces(m, launch.layer, e)
        <==> Kept(launch.counts, nSlots, e) || OwnPieces(m, launch.layer, e) == ZeroPieces(m, launch.layer, blank)
  {
    LaunchServes(m, nSlots, launch, blank, e);
    hide Sound, Actives, OwnPieces, ZeroPieces, ReadPieces, LaunchOk, WellLaid;
  }

  /** No chunk has more active experts than there are experts, or routes. */
  lemma {:induction false} FewActives(ids: seq<nat>, counts: seq<nat>, n: nat)
    requires n <= |counts| && forall e :: 0 <= e < n ==> counts[e] == R.CountOf(ids, e, |ids|)
    ensures |Actives(counts[..n])| <= n && |Actives(counts[..n])| <= R.CountBelow(ids, n, |ids|)
  {
    if n == 0 {
      ActivesNone(counts);
    } else {
      hide R.CountOf, R.CountBelow;
      FewActives(ids, counts, n - 1);
      ActivesStep(counts, n - 1);
      R.NextOffset(ids, n - 1, |ids|);
    }
  }

  lemma {:induction false} SmallChunksFit<H, W, V>(k: Kernels<H, W, V>, x: seq<H>)
    requires k.topk > 0 && forall h :: h in x ==> RoutesRow(k, h)
    ensures |Actives(ChunkCounts(k, x))| <= Min(EXPERTS, |x| * k.topk)
  {
    hide R.CountOf, R.CountBelow;
    var r, counts := ChunkRoutes(k, x), ChunkCounts(k, x);
    FewActives(r.ids, counts, EXPERTS);
    R.OffsetsGrow(r.ids, EXPERTS, EXPERTS, |r.ids|);
    assert counts[..EXPERTS] == counts;
  }

  // ------------------------------------------------------------------ however the rows are cut

  function Flat<T>(xs: seq<seq<T>>): seq<T> {
    if xs == [] then [] else Flat(xs[..|xs| - 1]) + xs[|xs| - 1]
  }

  // The rows one by one, each with its own experts.
  ghost predicate Alone<H, W, V>(k: Kernels<H, W, V>, own: seq<seq<Bytes>>, x: seq<H>, y: seq<V>)
    requires (forall h :: h in x ==> RoutesRow(k, h)) && |own| == EXPERTS
  {
    |y| == |x| && forall t :: 0 <= t < |x| ==> x[t] in x && y[t] == RowWith(k, own, x[t])
  }

  /**
   Chunk after chunk of a layer, each with no more active experts than there are slots: the rows come out as if
   each had been computed alone, however they were cut into chunks and whatever the slots held.
  */
  method MoeChunks<H(!new), W, V>(mgr: SlotMgr, k: Kernels<H, W, V>, layer: nat, xs: seq<seq<H>>,
        buffer: Buffer<V>, rankAgain: seq<bool>)
    returns (ys: seq<seq<V>>)
    requires mgr.Valid() && mgr.Quiet() && IsSparse(mgr.m, layer) && Routes(k)
    requires PicksDifferent(k) && buffer.nGroups > 0 && forall i :: 0 <= i < |xs| ==> |xs[i]| <= buffer.most
    requires |rankAgain| == |xs| && forall i :: 0 <= i < |xs| ==> |Actives(ChunkCounts(k, xs[i]))| <= |mgr.slots|
    modifies mgr
    ensures mgr.Valid() && mgr.Quiet()
    ensures |ys| == |xs| && Alone(k, Own(mgr.m, layer), Flat(xs), Flat(ys))
  {
    hide SlotMgr.Valid, SlotMgr.Quiet, Sound, ChunkCounts, Own, RowWith, Actives, Served;
    ys := [];
    ValidIsSound(mgr);
    assert xs[..0] == [];
    for i := 0 to |xs|
      invariant mgr.Valid() && mgr.Quiet() && |mgr.slots| == old(|mgr.slots|) && |ys| == i
      invariant Alone(k, Own(mgr.m, layer), Flat(xs[..i]), Flat(ys))
    {
      ShortChunksFit(k, xs[i], buffer.most);
      var y := MoeFfn(mgr, k, layer, xs[i], buffer, rankAgain[i]);
      ChunkStandsAlone(mgr.m, |mgr.slots|, k, layer, xs[i], y);
      AloneMore(k, Own(mgr.m, layer), xs, ys, i, y);
      ys := ys + [y];
    }
    assert xs[..|xs|] == xs;
  }

  lemma {:induction false} AloneMore<H(!new), W, V>(k: Kernels<H, W, V>, own: seq<seq<Bytes>>,
        xs: seq<seq<H>>, ys: seq<seq<V>>,
        i: nat, y: seq<V>)
    requires Routes(k) && |own| == EXPERTS && i < |xs|
    requires Alone(k, own, Flat(xs[..i]), Flat(ys)) && Alone(k, own, xs[i], y)
    ensures Alone(k, own, Flat(xs[..i + 1]), Flat(ys + [y]))
  {
    hide RowWith, Flat;
    FlatMore(xs[..i], xs[i]);
    assert xs[..i] + [xs[i]] == xs[..i + 1];
    FlatMore(ys, y);
  }

  lemma {:induction false} FlatMore<T>(xs: seq<seq<T>>, x: seq<T>)
    ensures Flat(xs + [x]) == Flat(xs) + x
  {
    assert (xs + [x])[..|xs|] == xs;
  }

  lemma {:induction false} ChunkStandsAlone<H(!new), W, V>(m: Machine, nSlots: nat, k: Kernels<H, W, V>,
        layer: nat, x: seq<H>, y: seq<V>)
    requires Sound(m) && IsSparse(m, layer) && Routes(k) && |Actives(ChunkCounts(k, x))| <= nSlots && |y| == |x|
    requires forall t :: 0 <= t < |x| ==> y[t] == RowWith(k, Served(m, layer, k.blank, ChunkCounts(k, x), nSlots), x[t])
    ensures Alone(k, Own(m, layer), x, y)
  {
    hide Sound, ChunkCounts, Own, RowWith, Actives, Served;
    EnoughSlots(m, layer, k.blank, ChunkCounts(k, x), nSlots);
    forall t | 0 <= t < |x|
      ensures y[t] == RowWith(k, Own(m, layer), x[t])
    {
      assert x[t] in x && RoutesRow(k, x[t]);
      forall j: nat | j < k.topk
        ensures Served(m, layer, k.blank, ChunkCounts(k, x), nSlots)[k.ids(x[t])[j]] == Own(m, layer)[k.ids(x[t])[j]]
      {
        RouteIsCounted(k, x, t, j);
      }
      SameShares(k, Served(m, layer, k.blank, ChunkCounts(k, x), nSlots), Own(m, layer), x[t]);
    }
  }

  // ------------------------------------------------------------------ where it fails

  // One route per row, to the expert of the row's own number; a row's result is what its expert has read.
  function OneEach(blank: Byte): Kernels<nat, int, seq<seq<Bytes>>> {
    Kernels(1, (h: nat) => [h % EXPERTS], (h: nat) => [0], (pieces: seq<Bytes>, h: nat) => [pieces],
            (w: int, v: seq<seq<Bytes>>) => v, (a: seq<seq<Bytes>>, b: seq<seq<Bytes>>) => a + b, [],
            (h: nat) => [], blank)
  }

  lemma {:induction false} OneEachRow(blank: Byte, given: seq<seq<Bytes>>, h: nat)
    requires |given| == EXPERTS && h < EXPERTS
    ensures Routes(OneEach(blank)) && RoutesRow(OneEach(blank), h)
    ensures RowWith(OneEach(blank), given, h) == [given[h]]
  {
    var k := OneEach(blank);
    var shares := Shares(k, given, h);
    assert shares == [[given[h]]] && shares[..0] == [];
    assert S.Fold(k.add, k.zero, shares) == [given[h]];
  }

  lemma {:induction false} AllActive(counts: seq<int>, n: nat)
    requires n <= |counts| && forall e :: 0 <= e < n ==> counts[e] > 0
    ensures |Actives(counts[..n])| == n
  {
    if n == 0 {
      ActivesNone(counts);
    } else {
      AllActive(counts, n - 1);
      ActivesStep(counts, n - 1);
    }
  }

  /**
   A chunk with one more active expert than there are slots: its last row gets zeros, and the same row in a chunk
   of its own gets its expert.
  */
  method LastExpertIsLost(mgr: SlotMgr, layer: nat, blank: Byte) returns (y: seq<seq<seq<Bytes>>>,
          z: seq<seq<seq<Bytes>>>)
    requires mgr.Valid() && mgr.Quiet() && IsSparse(mgr.m, layer) && 0 < |mgr.slots| < EXPERTS
    requires OwnPieces(mgr.m, layer, |mgr.slots|) != ZeroPieces(mgr.m, layer, blank)
    modifies mgr
    ensures var n := |mgr.slots|; n == old(|mgr.slots|) && |y| == n + 1 && |z| == 1 && y[n] != z[0]
  {
    hide SlotMgr.Valid, SlotMgr.Quiet, Sound, OwnPieces, ZeroPieces, RowWith, Actives, ChunkCounts, Routes, OneEach;
    ValidIsSound(mgr);
    var n, k := |mgr.slots|, OneEach(blank);
    ghost var m := mgr.m;
    OneEachRow(blank, Own(m, layer), n);
    var x: seq<nat> := seq(n + 1, i requires 0 <= i <= n => i);
    var buffer := Buffer(n + 1, 1, (i: nat) => []);
    OneEachFits(blank, x, n + 1);
    OneEachFits(blank, [n], n + 1);
    y := MoeFfn(mgr, k, layer, x, buffer, false);
    z := MoeFfn(mgr, k, layer, [n], buffer, false);
    LastIsNotKept(k, blank, x, n);
    OneRowIsKept(k, blank, n);
    OneEachRow(blank, Served(m, layer, blank, ChunkCounts(k, x), n), n);
    OneEachRow(blank, Served(m, layer, blank, ChunkCounts(k, [n]), n), n);
    assert k.blank == blank by { BlankIs(blank); }
    assert x[n] == n;
  }

  lemma {:induction false} OneEachFits(blank: Byte, x: seq<nat>, most: nat)
    requires |x| <= most
    ensures Routes(OneEach(blank))
    ensures forall e :: 0 <= e < EXPERTS ==> ChunkCounts(OneEach(blank), x)[e] <= most
  {
    hide ChunkCounts;
    ShortChunksFit(OneEach(blank), x, most);
  }

  lemma {:induction false} BlankIs(blank: Byte)
    ensures OneEach(blank).blank == blank
  {
  }

  lemma {:induction false} LastIsNotKept(k: Kernels<nat, int, seq<seq<Bytes>>>, blank: Byte, x: seq<nat>, n: nat)
    requires k == OneEach(blank) && n < EXPERTS && |x| == n + 1 && forall i :: 0 <= i <= n ==> x[i] == i
    ensures k.topk > 0 && (forall h :: h in x ==> RoutesRow(k, h)) && !Kept(ChunkCounts(k, x), n, n)
  {
    hide ChunkCounts, Actives;
    forall e | 0 <= e < n
      ensures ChunkCounts(k, x)[e] > 0
    {
      RouteIsCounted(k, x, e, 0);
      assert k.ids(x[e])[0] == e;
    }
    AllActive(ChunkCounts(k, x), n);
  }

  lemma {:induction false} OneRowIsKept(k: Kernels<nat, int, seq<seq<Bytes>>>, blank: Byte, n: nat)
    requires k == OneEach(blank) && 0 < n < EXPERTS
    ensures k.topk > 0 && (forall h :: h in [n] ==> RoutesRow(k, h)) && Kept(ChunkCounts(k, [n]), n, n)
  {
    hide ChunkCounts, Actives;
    SmallChunksFit(k, [n]);
    RouteIsCounted(k, [n], 0, 0);
    assert k.ids([n][0])[0] == n;
    ActivesPrefix(ChunkCounts(k, [n]), n);
  }

  // ------------------------------------------------------------------ the dense path

  datatype Result<V> = Rows(y: seq<V>) | Aborted

  // Routing picks different experts for a row.
  ghost predicate PicksDifferent<H(!new), W, V>(k: Kernels<H, W, V>) {
    forall h, i, j :: 0 <= i < j < |k.ids(h)| ==> k.ids(h)[i] != k.ids(h)[j]
  }

  lemma {:induction false} ChunkIsDistinct<H(!new), W, V>(k: Kernels<H, W, V>, x: seq<H>)
    requires PicksDifferent(k) && k.topk > 0 && (forall h :: h in x ==> RoutesRow(k, h))
    requires S.Shaped(ChunkRoutes(k, x), x)
    ensures S.DistinctExperts(ChunkRoutes(k, x))
  {
    hide S.RouteAt, R.TokenOf;
    var r := ChunkRoutes(k, x);
    forall i: nat, j: nat | i < |r.ids| && j < |r.ids| && i != j && R.TokenOf(i, k.topk) == R.TokenOf(j, k.topk)
      ensures r.ids[i] != r.ids[j]
    {
      RankIsBounded(i, |x|, k.topk);
      RankIsBounded(j, |x|, k.topk);
      var t := R.TokenOf(i, k.topk);
      assert x[t] in x;
      var a, b := i - t * k.topk, j - t * k.topk;
      assert k.ids(x[t])[a] != k.ids(x[t])[b] by {
        if a < b { assert k.ids(x[t])[a] != k.ids(x[t])[b]; } else { assert k.ids(x[t])[b] != k.ids(x[t])[a]; }
      }
    }
  }

  // What a row gets when its experts are added in ascending order of number.
  ghost function DenseRow<H, W, V>(k: Kernels<H, W, V>, given: seq<seq<Bytes>>, x: seq<H>, t: nat): V
    requires k.topk > 0 && (forall h :: h in x ==> RoutesRow(k, h)) && S.Shaped(ChunkRoutes(k, x), x) && t < |x|
  {
    k.add(S.Fold(k.add, k.zero, S.ByExpert(GroupedLayer(k, given), ChunkRoutes(k, x), x, t, EXPERTS)), k.shared(x[t]))
  }

  lemma {:induction false} SameByExpert<H, W, V>(k: Kernels<H, W, V>, given: seq<seq<Bytes>>, own: seq<seq<Bytes>>,
        x: seq<H>, t: nat, e: nat)
    requires k.topk > 0 && (forall h :: h in x ==> RoutesRow(k, h)) && S.Shaped(ChunkRoutes(k, x), x) && t < |x|
    requires |given| == |own| == EXPERTS && e <= EXPERTS
    requires forall d :: 0 <= d < EXPERTS && ChunkCounts(k, x)[d] > 0 ==> given[d] == own[d]
    ensures S.ByExpert(GroupedLayer(k, given), ChunkRoutes(k, x), x, t, e)
         == S.ByExpert(GroupedLayer(k, own), ChunkRoutes(k, x), x, t, e)
  {
    hide S.RouteAt, R.TokenOf, R.CountOf, S.RankOf;
    if e > 0 {
      SameByExpert(k, given, own, x, t, e - 1);
      var r := ChunkRoutes(k, x);
      var j := S.RankOf(r, t, e - 1, r.topk);
      if j != -1 { CountedOnce(r.ids, e - 1, |r.ids|, S.RouteAt(t, j, r.topk)); }
    }
  }

  /** The first table says which experts have no slot. */
  lemma {:induction false} TableTells(m: Machine, nSlots: nat, launch: Launch, e: nat)
    requires Sound(m) && LaunchOk(m, nSlots, launch) && e < EXPERTS && launch.counts[e] > 0
    ensures Lookup(launch.tables, 0, e).Zero? <==> |Actives(launch.counts[..e])| >= nSlots
  {
    hide Sound, Actives, Lookup;
    ActivesPrefix(launch.counts, e);
    assert EntryOk(m, nSlots, launch, |Actives(launch.counts[..e])|, 0);
  }

  /** An active expert without a slot ends the dense path. */
  method AllResident(m: Machine, nSlots: nat, launch: Launch) returns (ok: bool)
    requires Sound(m) && LaunchOk(m, nSlots, launch)
    ensures ok <==> |Actives(launch.counts)| <= nSlots
  {
    hide Sound, Actives, LaunchOk, Lookup;
    LaunchIsShaped(m, nSlots, launch);
    ActivesNone(launch.counts);
    for e := 0 to EXPERTS
      invariant |Actives(launch.counts[..e])| <= nSlots
    {
      ActivesStep(launch.counts, e);
      if launch.counts[e] > 0 {
        TableTells(m, nSlots, launch, e);
        ActivesPrefix(launch.counts, e);
        if Lookup(launch.tables, 0, e).Zero? { return false; }
      }
    }
    assert launch.counts[..EXPERTS] == launch.counts;
    ok := true;
  }

  /**
   The layer over one chunk by the dense path: it aborts exactly when the chunk has more active experts than
   there are slots, and otherwise adds each row's own experts up in ascending order.
  */
  method MoeFfnDense<H(!new), W, V>(mgr: SlotMgr, k: Kernels<H, W, V>, layer: nat, x: seq<H>, rankAgain: bool)
    returns (y: Result<V>)
    requires mgr.Valid() && mgr.Quiet() && IsSparse(mgr.m, layer) && Routes(k) && PicksDifferent(k)
    modifies mgr
    ensures mgr.Valid() && |mgr.slots| == old(|mgr.slots|)
    ensures y.Aborted? <==> |Actives(ChunkCounts(k, x))| > |mgr.slots|
    ensures S.Shaped(ChunkRoutes(k, x), x)
    ensures y.Rows? ==>
              |y.y| == |x| && forall t :: 0 <= t < |x| ==> y.y[t] == DenseRow(k, Own(mgr.m, layer), x, t)
  {
    hide SlotMgr.Valid, SlotMgr.Quiet, Sound, LaunchOk, WellLaid, Served, Own, ReadPieces, S.Shaped, ChunkRoutes,
         Routes,
         S.Fold, S.ByExpert, Actives, S.DistinctExperts, PicksDifferent;
    RoutesAll(k, x);
    ValidIsSound(mgr);
    SparseIsLaid(mgr.m, layer);
    var r := ChunkRoutes(k, x);
    ChunkIsShaped(k, x);
    ChunkIsDistinct(k, x);
    var counts := R.MoeCount(r.ids, EXPERTS);
    assert counts == ChunkCounts(k, x);
    var launch := Step(mgr, Request(layer, counts, rankAgain));
    LaunchIsShaped(mgr.m, |mgr.slots|, launch);
    var ok := AllResident(mgr.m, |mgr.slots|, launch);
    if !ok { return Aborted; }
    var given := seq(EXPERTS, e requires 0 <= e < EXPERTS => ReadPieces(mgr.m, launch, k.blank, e));
    var l := GroupedLayer(k, given);
    var rows := S.MoeDense(l, r, x);
    y := Rows(seq(|x|, t requires 0 <= t < |x| && |rows| == |x| => k.add(rows[t], k.shared(x[t]))));
    OwnIsGiven(mgr.m, |mgr.slots|, launch, k.blank, given);
    forall t | 0 <= t < |x|
      ensures y.y[t] == DenseRow(k, Own(mgr.m, layer), x, t)
    {
      SameByExpert(k, given, Own(mgr.m, layer), x, t, EXPERTS);
    }
  }

  lemma {:induction false} OwnIsGiven(m: Machine, nSlots: nat, launch: Launch, blank: Byte, given: seq<seq<Bytes>>)
    requires Sound(m) && LaunchOk(m, nSlots, launch) && WellLaid(m.c.layouts[launch.layer])
    requires |Actives(launch.counts)| <= nSlots
    requires |given| == EXPERTS && forall e :: 0 <= e < EXPERTS ==> given[e] == ReadPieces(m, launch, blank, e)
    ensures forall e :: 0 <= e < EXPERTS && launch.counts[e] > 0 ==> given[e] == Own(m, launch.layer)[e]
  {
    hide Sound, Actives, ReadPieces, WellLaid, Served, Own;
    EnoughSlots(m, launch.layer, blank, launch.counts, nSlots);
    forall e | 0 <= e < EXPERTS && launch.counts[e] > 0
      ensures given[e] == Own(m, launch.layer)[e]
    {
      LaunchServes(m, nSlots, launch, blank, e);
    }
  }

  /** When the order of summands does not matter, that is the row alone, as on the grouped path. */
  lemma {:induction false} DenseRowIsAlone<H, W, V(!new)>(k: Kernels<H, W, V>, own: seq<seq<Bytes>>, x: seq<H>, t: nat)
    requires k.topk > 0 && (forall h :: h in x ==> RoutesRow(k, h)) && S.Shaped(ChunkRoutes(k, x), x) && t < |x|
    requires S.DistinctExperts(ChunkRoutes(k, x)) && S.OrderFree(GroupedLayer(k, own)) && |own| == EXPERTS
    ensures x[t] in x && DenseRow(k, own, x, t) == RowWith(k, own, x[t])
  {
    assert x[t] in x;
    hide S.Fold, S.ByExpert, S.DistinctExperts, S.RouteAt, R.TokenOf;
    S.DenseIsGrouped(GroupedLayer(k, own), ChunkRoutes(k, x), x, t);
    var row, want := S.TokenRow(GroupedLayer(k, own), ChunkRoutes(k, x), x, t), Shares(k, own, x[t]);
    forall j: nat | j < k.topk
      ensures row[j] == want[j]
    {
      assert S.IsRoute(ChunkRoutes(k, x), x, t, j);
      RouteOfRow(k, x, t, j);
    }
    assert row == want;
  }
}
