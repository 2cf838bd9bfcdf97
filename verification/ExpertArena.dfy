/** Where an expert's bytes live. */
module ExpertArena {
  /*
   Twelve pieces in a slab, one slab per expert in the host arena, and one slab at a time in a GPU slot.
  */

  import opened Arithmetic

  type Byte(!new)
  type Bytes = seq<Byte>

  // gate, up and down projection, each with trellis, suh, svh and mul1.
  const PIECES := 12

  datatype Layout = Layout(off: seq<nat>, piece: seq<nat>, stride: nat)

  function Align64(n: nat): (r: nat)
    ensures n <= r < n + 64 && r % 64 == 0
  {
    (n + 63) / 64 * 64
  }

  // The end of piece `q`, padded when it closes a projection.
  function PieceEnd(off: nat, piece: nat, q: nat): nat {
    if q % 4 == 3 then Align64(off + piece) else off + piece
  }

  predicate WellLaid(y: Layout) {
    && |y.off| == |y.piece| == PIECES && y.off[0] == 0
    && (forall q :: 0 <= q < PIECES - 1 ==> y.off[q + 1] == PieceEnd(y.off[q], y.piece[q], q))
    && y.stride == PieceEnd(y.off[11], y.piece[11], 11)
  }

  method ExpertLayout(piece: seq<nat>) returns (y: Layout)
    requires |piece| == PIECES
    ensures WellLaid(y) && y.piece == piece
  {
    var off, stride := [], 0;
    for q := 0 to PIECES
      invariant |off| == q
      invariant q > 0 ==> off[0] == 0 && stride == PieceEnd(off[q - 1], piece[q - 1], q - 1)
      invariant q == 0 ==> stride == 0
      invariant forall k :: 0 <= k < q - 1 ==> off[k + 1] == PieceEnd(off[k], piece[k], k)
    {
      off := off + [stride];
      stride := stride + piece[q];
      if q % 4 == 3 { stride := Align64(stride); }
    }
    y := Layout(off, piece, stride);
  }

  /** Pieces follow one another without overlap and stay inside the slab. */
  lemma {:induction false} PiecesAreDisjoint(y: Layout, a: nat, b: nat)
    requires WellLaid(y) && a < b <= PIECES
    ensures y.off[a] + y.piece[a] <= if b == PIECES then y.stride else y.off[b]
    decreases b
  {
    if a + 1 < b { PiecesAreDisjoint(y, a, b - 1); }
  }

  /** Every projection's trellis, and the slab after it, starts on a 64-byte boundary. */
  lemma {:induction false} ProjectionsAreAligned(y: Layout)
    requires WellLaid(y)
    ensures y.off[0] % 64 == 0 && y.off[4] % 64 == 0 && y.off[8] % 64 == 0 && y.stride % 64 == 0
  {
    assert y.off[4] == PieceEnd(y.off[3], y.piece[3], 3);
    assert y.off[8] == PieceEnd(y.off[7], y.piece[7], 7);
  }

  /** Pieces touch one another, but each of the three projections starts at the next multiple of 64. */
  lemma {:induction false} OffsetsAre(y: Layout, q: nat)
    requires WellLaid(y) && q < PIECES
    ensures var end, next := y.off[q] + y.piece[q], if q == 11 then y.stride else y.off[q + 1];
      if q in {3, 7, 11} then next % 64 == 0 && end <= next < end + 64 else next == end
  {
    assert q % 4 == 3 <==> q in {3, 7, 11};
    assert (if q == 11 then y.stride else y.off[q + 1]) == PieceEnd(y.off[q], y.piece[q], q);
  }

  // ------------------------------------------------------------------ memory

  predicate InRange(mem: Bytes, at: int, n: int) {
    0 <= at && 0 <= n && at + n <= |mem|
  }

  function Read(mem: Bytes, at: nat, n: nat): Bytes
    requires InRange(mem, at, n)
  {
    mem[at..at + n]
  }

  function Store(mem: Bytes, at: nat, bytes: Bytes): (r: Bytes)
    requires InRange(mem, at, |bytes|)
    ensures |r| == |mem|
  {
    mem[..at] + bytes + mem[at + |bytes|..]
  }

  lemma {:induction false} ReadBack(mem: Bytes, at: nat, bytes: Bytes)
    requires InRange(mem, at, |bytes|)
    ensures Read(Store(mem, at, bytes), at, |bytes|) == bytes
  {
  }

  lemma {:induction false} ReadElsewhere(mem: Bytes, at: nat, bytes: Bytes, from: nat, n: nat)
    requires InRange(mem, at, |bytes|) && InRange(mem, from, n)
    requires from + n <= at || at + |bytes| <= from
    ensures Read(Store(mem, at, bytes), from, n) == Read(mem, from, n)
  {
  }

  lemma {:induction false} ReadWithin(mem: Bytes, at: nat, n: nat, o: nat, m: nat)
    requires InRange(mem, at, n) && o + m <= n
    ensures Read(mem, at + o, m) == Read(mem, at, n)[o..o + m]
  {
    var part, whole := Read(mem, at + o, m), Read(mem, at, n);
    forall i | 0 <= i < |part|
      ensures part[i] == whole[o..o + m][i]
    {
    }
  }

  lemma {:induction false} StoreFrame(mem: Bytes, at: nat, bytes: Bytes, lo: nat, hi: nat)
    requires lo <= at && at + |bytes| <= hi <= |mem|
    ensures Store(mem, at, bytes)[..lo] == mem[..lo] && Store(mem, at, bytes)[hi..] == mem[hi..]
  {
  }

  // The tensor pieces of one expert.
  predicate Fits(tensors: seq<Bytes>, y: Layout) {
    && |tensors| == PIECES && WellLaid(y)
    && forall q :: 0 <= q < PIECES ==> |tensors[q]| == y.piece[q]
  }

  predicate PieceFits(y: Layout, q: nat, at: nat, mem: Bytes)
    requires WellLaid(y) && q < PIECES
  {
    InRange(mem, at + y.off[q], y.piece[q])
  }

  ghost predicate SlabHolds(mem: Bytes, at: nat, y: Layout, tensors: seq<Bytes>)
    requires Fits(tensors, y)
  {
    && InRange(mem, at, y.stride)
    && forall q :: 0 <= q < PIECES ==> PieceFits(y, q, at, mem) && Read(mem, at + y.off[q], y.piece[q]) == tensors[q]
  }

  lemma {:induction false} SlabHoldsInRange(mem: Bytes, at: nat, y: Layout, tensors: seq<Bytes>)
    requires Fits(tensors, y) && SlabHolds(mem, at, y, tensors)
    ensures InRange(mem, at, y.stride) && |Read(mem, at, y.stride)| == y.stride
  {
  }

  /** Slab contents depend on the slab's bytes alone. */
  lemma {:induction false} SlabMoves(mem: Bytes, at: nat, mem': Bytes, at': nat, y: Layout, tensors: seq<Bytes>)
    requires Fits(tensors, y) && SlabHolds(mem, at, y, tensors)
    requires InRange(mem', at', y.stride) && Read(mem', at', y.stride) == Read(mem, at, y.stride)
    ensures SlabHolds(mem', at', y, tensors)
  {
    forall q | 0 <= q < PIECES
      ensures PieceFits(y, q, at', mem') && Read(mem', at' + y.off[q], y.piece[q]) == tensors[q]
    {
      PiecesAreDisjoint(y, q, PIECES);
      ReadWithin(mem', at', y.stride, y.off[q], y.piece[q]);
      ReadWithin(mem, at, y.stride, y.off[q], y.piece[q]);
    }
  }

  // The first `n` pieces of a slab are in place.
  ghost predicate SlabHoldsUpTo(mem: Bytes, at: nat, y: Layout, tensors: seq<Bytes>, n: nat)
    requires Fits(tensors, y) && n <= PIECES
  {
    forall q :: 0 <= q < n ==> PieceFits(y, q, at, mem) && Read(mem, at + y.off[q], y.piece[q]) == tensors[q]
  }

  lemma {:induction false} NextPiece(mem: Bytes, at: nat, y: Layout, tensors: seq<Bytes>, n: nat)
    requires Fits(tensors, y) && n < PIECES && InRange(mem, at, y.stride)
    requires SlabHoldsUpTo(mem, at, y, tensors, n)
    ensures PieceFits(y, n, at, mem)
    ensures var r := Store(mem, at + y.off[n], tensors[n]);
      && SlabHoldsUpTo(r, at, y, tensors, n + 1)
      && r[..at] == mem[..at] && r[at + y.stride..] == mem[at + y.stride..]
  {
    hide PieceEnd, Store;
    PiecesAreDisjoint(y, n, PIECES);
    var r := Store(mem, at + y.off[n], tensors[n]);
    StoreFrame(mem, at + y.off[n], tensors[n], at, at + y.stride);
    forall q | 0 <= q < n + 1
      ensures PieceFits(y, q, at, r) && Read(r, at + y.off[q], y.piece[q]) == tensors[q]
    {
      if q < n {
        PiecesAreDisjoint(y, q, n);
        ReadElsewhere(mem, at + y.off[n], tensors[n], at + y.off[q], y.piece[q]);
      } else {
        ReadBack(mem, at + y.off[n], tensors[n]);
      }
    }
  }

  /** Loads one slab; nothing outside it changes. */
  method LoadSlab(mem0: Bytes, at: nat, y: Layout, tensors: seq<Bytes>) returns (mem: Bytes)
    requires Fits(tensors, y) && InRange(mem0, at, y.stride)
    ensures |mem| == |mem0| && SlabHolds(mem, at, y, tensors)
    ensures mem[..at] == mem0[..at] && mem[at + y.stride..] == mem0[at + y.stride..]
  {
    hide PieceEnd, Store;
    mem := mem0;
    for q := 0 to PIECES
      invariant |mem| == |mem0| && SlabHoldsUpTo(mem, at, y, tensors, q)
      invariant mem[..at] == mem0[..at] && mem[at + y.stride..] == mem0[at + y.stride..]
    {
      NextPiece(mem, at, y, tensors, q);
      mem := Store(mem, at + y.off[q], tensors[q]);
    }
  }

  // ------------------------------------------------------------------ the arena

  datatype Config = Config(experts: nat, moe: seq<bool>, layouts: seq<Layout>)

  predicate Proper(c: Config) {
    && c.experts > 0 && |c.moe| == |c.layouts|
    && forall l :: 0 <= l < |c.moe| && c.moe[l] ==> WellLaid(c.layouts[l]) && c.layouts[l].stride > 0
  }

  predicate IsExpert(c: Config, l: int, e: int) {
    0 <= l < |c.moe| && |c.moe| == |c.layouts| && c.moe[l] && 0 <= e < c.experts
  }

  function LayerBytes(c: Config, l: nat): nat
    requires l < |c.moe| == |c.layouts|
  {
    if c.moe[l] then c.experts * c.layouts[l].stride else 0
  }

  /** Bytes taken by the sparse layers below `l`. */
  function Base(c: Config, l: nat): nat
    requires l <= |c.moe| == |c.layouts|
  {
    if l == 0 then 0
    else Base(c, l - 1) + LayerBytes(c, l - 1)
  }

  /** How many experts the sparse layers below `l` have. */
  function ExpertsBelow(c: Config, l: nat): nat
    requires l <= |c.moe|
  {
    if l == 0 then 0
    else ExpertsBelow(c, l - 1) + if c.moe[l - 1] then c.experts else 0
  }

  function SlabAt(c: Config, l: nat, e: nat): nat
    requires IsExpert(c, l, e)
  {
    Base(c, l) + e * c.layouts[l].stride
  }

  lemma {:induction false} BaseSteps(c: Config, l: nat)
    requires l <= |c.moe| == |c.layouts|
    ensures l == 0 ==> Base(c, l) == 0
    ensures l > 0 ==> Base(c, l) == Base(c, l - 1) + LayerBytes(c, l - 1)
    ensures l > 0 && !c.moe[l - 1] ==> LayerBytes(c, l - 1) == 0
    ensures ExpertsBelow(c, l) == if l == 0 then 0 else ExpertsBelow(c, l - 1) + if c.moe[l - 1] then c.experts else 0
  {
  }

  // The first bytes and first experts of the sparse layers below `l`.
  ghost predicate PlannedUpTo(c: Config, base: seq<nat>, slotBase: seq<int>, l: nat) {
    && |base| == |slotBase| == |c.moe| == |c.layouts|
    && (forall k :: 0 <= k < |c.moe| && k < l && c.moe[k] ==>
          base[k] == Base(c, k) && slotBase[k] == ExpertsBelow(c, k))
    && (forall k :: 0 <= k < |c.moe| && !(k < l && c.moe[k]) ==> slotBase[k] == -1)
  }

  // The widest slab of the layers below `l`.
  ghost predicate WidestBelow(c: Config, width: nat, l: nat) {
    && l <= |c.moe| == |c.layouts|
    && (forall k :: 0 <= k < l && c.moe[k] ==> c.layouts[k].stride <= width)
    && (width == 0 || exists k :: 0 <= k < l && c.moe[k] && c.layouts[k].stride == width)
  }

  lemma {:induction false} WidestStep(c: Config, width: nat, l: nat)
    requires WidestBelow(c, width, l) && l < |c.moe|
    ensures WidestBelow(c, if c.moe[l] && width < c.layouts[l].stride then c.layouts[l].stride else width, l + 1)
  {
    if width != 0 { var k :| 0 <= k < l && c.moe[k] && c.layouts[k].stride == width; }
  }

  lemma {:induction false} PlanStep(c: Config, base: seq<nat>, slotBase: seq<int>, l: nat)
    requires PlannedUpTo(c, base, slotBase, l) && l < |c.moe|
    ensures if c.moe[l] then PlannedUpTo(c, base[l := Base(c, l)], slotBase[l := ExpertsBelow(c, l)], l + 1)
            else PlannedUpTo(c, base, slotBase, l + 1)
  {
    hide Base, ExpertsBelow;
  }

  /** The loop over layers: running totals, the widest slab and each layer's first expert. */
  method PlanArena(c: Config) returns (base: seq<nat>, slotBase: seq<int>, total: nat, slotStride: nat)
    requires Proper(c)
    ensures PlannedUpTo(c, base, slotBase, |c.moe|) && total == Base(c, |c.moe|)
    ensures WidestBelow(c, slotStride, |c.moe|)
  {
    hide Base, ExpertsBelow, WellLaid, LayerBytes, PlannedUpTo, WidestBelow;
    base, slotBase := seq(|c.moe|, _ => 0), seq(|c.moe|, _ => -1);
    total, slotStride := 0, 0;
    BaseSteps(c, 0);
    NothingPlanned(c, base, slotBase);
    var firstExpert := 0;
    for l := 0 to |c.moe|
      invariant PlannedUpTo(c, base, slotBase, l) && WidestBelow(c, slotStride, l)
      invariant |base| == |slotBase| == |c.moe| && total == Base(c, l) && firstExpert == ExpertsBelow(c, l)
    {
      PlanStep(c, base, slotBase, l);
      WidestStep(c, slotStride, l);
      if c.moe[l] {
        slotBase := slotBase[l := firstExpert];
        firstExpert := firstExpert + c.experts;
        base := base[l := total];
        total := total + LayerBytes(c, l);
        if slotStride < c.layouts[l].stride { slotStride := c.layouts[l].stride; }
      }
      BaseSteps(c, l + 1);
    }
  }

  lemma {:induction false} NothingPlanned(c: Config, base: seq<nat>, slotBase: seq<int>)
    requires |base| == |slotBase| == |c.moe| == |c.layouts| && forall k :: 0 <= k < |c.moe| ==> slotBase[k] == -1
    ensures PlannedUpTo(c, base, slotBase, 0) && WidestBelow(c, 0, 0)
  {
  }

  lemma {:induction false} BaseGrows(c: Config, l: nat, k: nat)
    requires l < k <= |c.moe| == |c.layouts|
    ensures Base(c, l) + LayerBytes(c, l) <= Base(c, k)
    decreases k
  {
    if l + 1 < k { BaseGrows(c, l, k - 1); }
  }

  lemma {:induction false} SlabInLayer(c: Config, l: nat, e: nat)
    requires IsExpert(c, l, e)
    ensures Base(c, l) <= SlabAt(c, l, e)
    ensures SlabAt(c, l, e) + c.layouts[l].stride <= Base(c, l) + c.experts * c.layouts[l].stride <= Base(c, |c.moe|)
  {
    hide Base;
    ProductGrows(e, c.experts, c.layouts[l].stride);
    BaseGrows(c, l, |c.moe|);
  }

  lemma {:induction false} SlabsAreOrdered(c: Config, k: nat, f: nat, l: nat, e: nat)
    requires IsExpert(c, k, f) && IsExpert(c, l, e) && (k < l || (k == l && f < e))
    ensures SlabAt(c, k, f) + c.layouts[k].stride <= SlabAt(c, l, e)
  {
    SlabInLayer(c, k, f);
    SlabInLayer(c, l, e);
    if k < l { BaseGrows(c, k, l); } else { ProductGrows(f, e, c.layouts[k].stride); }
  }

  /** Slabs of different experts are disjoint. */
  lemma {:induction false} SlabsAreDisjoint(c: Config, l: nat, e: nat, k: nat, f: nat)
    requires IsExpert(c, l, e) && IsExpert(c, k, f) && (l, e) != (k, f)
    ensures SlabAt(c, l, e) + c.layouts[l].stride <= SlabAt(c, k, f)
         || SlabAt(c, k, f) + c.layouts[k].stride <= SlabAt(c, l, e)
  {
    if l < k || (l == k && e < f) { SlabsAreOrdered(c, l, e, k, f); } else { SlabsAreOrdered(c, k, f, l, e); }
  }

  /** ... and together they leave no byte of the arena over. */
  lemma {:induction false} SlabsTile(c: Config, upTo: nat, at: nat) returns (l: nat, e: nat)
    requires Proper(c) && upTo <= |c.moe| && at < Base(c, upTo)
    ensures IsExpert(c, l, e) && SlabAt(c, l, e) <= at < SlabAt(c, l, e) + c.layouts[l].stride
    decreases upTo
  {
    l := upTo - 1;
    if at < Base(c, l) {
      l, e := SlabsTile(c, l, at);
    } else {
      var s := c.layouts[l].stride;
      e := WhichSlab(at - Base(c, l), c.experts, s);
    }
  }

  /** The first slab is at the start of the arena, and each one behind the slab before it. */
  lemma {:induction false} SlabsFollow(c: Config, k: nat, f: nat, l: nat, e: nat)
    requires IsExpert(c, l, e)
    ensures e == 0 && (forall j :: 0 <= j < l ==> !c.moe[j]) ==> SlabAt(c, l, e) == 0
    ensures k == l && f + 1 == e ==> SlabAt(c, l, e) == SlabAt(c, k, f) + c.layouts[k].stride
    ensures IsExpert(c, k, f) && k < l && f + 1 == c.experts && e == 0 && (forall j :: k < j < l ==> !c.moe[j]) ==>
      SlabAt(c, l, e) == SlabAt(c, k, f) + c.layouts[k].stride
  {
    if e == 0 && (forall j :: 0 <= j < l ==> !c.moe[j]) { BaseStays(c, 0, l); }
    if IsExpert(c, k, f) && k < l && f + 1 == c.experts && (forall j :: k < j < l ==> !c.moe[j]) {
      BaseStays(c, k + 1, l);
      assert (f + 1) * c.layouts[k].stride == f * c.layouts[k].stride + c.layouts[k].stride;
    }
  }

  lemma {:induction false} BaseStays(c: Config, k: nat, l: nat)
    requires k <= l <= |c.moe| == |c.layouts| && forall j :: k <= j < l ==> !c.moe[j]
    ensures Base(c, l) == Base(c, k)
    decreases l
  {
    if k < l { BaseStays(c, k, l - 1); }
  }

  lemma {:induction false} WhichSlab(x: nat, n: nat, s: nat) returns (e: nat)
    requires 0 < n && x < n * s
    ensures e < n && e * s <= x < e * s + s
    decreases n
  {
    assert n * s == (n - 1) * s + s;
    if n == 1 || x >= (n - 1) * s {
      e := n - 1;
    } else {
      e := WhichSlab(x, n - 1, s);
    }
  }

  // ------------------------------------------------------------------ loading

  // The checkpoint: the twelve tensors of every expert.
  type Checkpoint = (nat, nat) -> seq<Bytes>

  ghost predicate Matches(c: Config, t: Checkpoint) {
    forall l: nat, e: nat :: IsExpert(c, l, e) ==> Fits(t(l, e), c.layouts[l])
  }

  predicate Earlier(k: nat, f: nat, l: nat, e: nat) {
    k < l || (k == l && f < e)
  }

  ghost predicate HoldsBefore(c: Config, t: Checkpoint, arena: Bytes, l: nat, e: nat)
    requires Matches(c, t)
  {
    forall k: nat, f: nat :: IsExpert(c, k, f) && Earlier(k, f, l, e) ==>
      SlabHolds(arena, SlabAt(c, k, f), c.layouts[k], t(k, f))
  }

  ghost predicate ArenaHolds(c: Config, t: Checkpoint, arena: Bytes)
    requires Matches(c, t)
  {
    forall l: nat, e: nat :: IsExpert(c, l, e) ==> SlabHolds(arena, SlabAt(c, l, e), c.layouts[l], t(l, e))
  }

  lemma {:induction false} EarlierStays(c: Config, t: Checkpoint, before: Bytes, after: Bytes, k: nat, f: nat,
        l: nat, e: nat)
    requires Proper(c) && Matches(c, t) && IsExpert(c, k, f) && IsExpert(c, l, e) && Earlier(k, f, l, e)
    requires |before| == |after| && InRange(before, SlabAt(c, l, e), 0)
    requires after[..SlabAt(c, l, e)] == before[..SlabAt(c, l, e)]
    requires SlabHolds(before, SlabAt(c, k, f), c.layouts[k], t(k, f))
    ensures SlabHolds(after, SlabAt(c, k, f), c.layouts[k], t(k, f))
  {
    hide WellLaid, LayerBytes;
    SlabHoldsInRange(before, SlabAt(c, k, f), c.layouts[k], t(k, f));
    hide SlabHolds;
    var at, n, cut := SlabAt(c, k, f), c.layouts[k].stride, SlabAt(c, l, e);
    SlabInLayer(c, k, f);
    SlabInLayer(c, l, e);
    SlabsAreOrdered(c, k, f, l, e);
    assert Read(after, at, n) == after[..cut][at..at + n];
    assert Read(before, at, n) == before[..cut][at..at + n];
    SlabMoves(before, at, after, at, c.layouts[k], t(k, f));
  }

  /** Every expert's tensors end up in its own slab, and no load disturbs an earlier one. */
  method LoadArena(c: Config, t: Checkpoint, arena0: Bytes) returns (arena: Bytes)
    requires Proper(c) && Matches(c, t) && |arena0| == Base(c, |c.moe|)
    ensures |arena| == |arena0| && ArenaHolds(c, t, arena)
  {
    hide SlabHolds, Base;
    arena := arena0;
    for l := 0 to |c.moe|
      invariant |arena| == |arena0| && HoldsBefore(c, t, arena, l, 0)
    {
      if c.moe[l] {
        for e := 0 to c.experts
          invariant |arena| == |arena0| && HoldsBefore(c, t, arena, l, e)
        {
          ghost var before := arena;
          SlabInLayer(c, l, e);
          arena := LoadSlab(arena, SlabAt(c, l, e), c.layouts[l], t(l, e));
          forall k: nat, f: nat | IsExpert(c, k, f) && Earlier(k, f, l, e + 1)
            ensures SlabHolds(arena, SlabAt(c, k, f), c.layouts[k], t(k, f))
          {
            if Earlier(k, f, l, e) { EarlierStays(c, t, before, arena, k, f, l, e); }
          }
        }
      }
    }
  }

  // ------------------------------------------------------------------ slots

  /** A slot of width `width` can take every slab. */
  predicate WideEnough(c: Config, width: nat) {
    |c.moe| == |c.layouts| && forall l :: 0 <= l < |c.moe| && c.moe[l] ==> c.layouts[l].stride <= width
  }

  ghost predicate SlotHolds(c: Config, t: Checkpoint, pool: Bytes, width: nat, slot: nat, l: nat, e: nat)
    requires Matches(c, t) && IsExpert(c, l, e)
  {
    SlabHolds(pool, slot * width, c.layouts[l], t(l, e))
  }

  lemma {:induction false} SlotFits(pool: Bytes, slots: nat, width: nat, slot: nat, n: nat)
    requires |pool| == slots * width && slot < slots && n <= width
    ensures InRange(pool, slot * width, n)
  {
    ProductGrows(slot, slots, width);
  }

  /** Streaming a slab into a slot: the slot holds that expert, and no other slot is touched. */
  lemma {:induction false} SlotIsFilled(c: Config, t: Checkpoint, arena: Bytes, pool: Bytes, slots: nat, width: nat,
                                        slot: nat, l: nat, e: nat)
    requires Proper(c) && Matches(c, t) && ArenaHolds(c, t, arena) && WideEnough(c, width)
    requires |pool| == slots * width && slot < slots && IsExpert(c, l, e)
    ensures InRange(arena, SlabAt(c, l, e), c.layouts[l].stride) && InRange(pool, slot * width, c.layouts[l].stride)
    ensures var slab := Read(arena, SlabAt(c, l, e), c.layouts[l].stride);
            SlotHolds(c, t, Store(pool, slot * width, slab), width, slot, l, e)
  {
    hide WellLaid, Base, LayerBytes, Store;
    var at, n := SlabAt(c, l, e), c.layouts[l].stride;
    SlotFits(pool, slots, width, slot, n);
    assert SlabHolds(arena, at, c.layouts[l], t(l, e));
    SlabHoldsInRange(arena, at, c.layouts[l], t(l, e));
    hide SlabHolds, Read;
    var bytes := Read(arena, at, n);
    ReadBack(pool, slot * width, bytes);
    SlabMoves(arena, at, Store(pool, slot * width, bytes), slot * width, c.layouts[l], t(l, e));
  }

  lemma {:induction false} OtherSlotStays(c: Config, t: Checkpoint, pool: Bytes, slots: nat, width: nat,
                                          slot: nat, bytes: Bytes, other: nat, l: nat, e: nat)
    requires Proper(c) && Matches(c, t) && WideEnough(c, width) && |pool| == slots * width
    requires slot < slots && other < slots && other != slot && |bytes| <= width && IsExpert(c, l, e)
    requires InRange(pool, slot * width, |bytes|)
    requires SlotHolds(c, t, pool, width, other, l, e)
    ensures SlotHolds(c, t, Store(pool, slot * width, bytes), width, other, l, e)
  {
    var n := c.layouts[l].stride;
    SlotFits(pool, slots, width, other, n);
    if other < slot { ProductGrows(other, slot, width); } else { ProductGrows(slot, other, width); }
    ReadElsewhere(pool, slot * width, bytes, other * width, n);
    SlabMoves(pool, other * width, Store(pool, slot * width, bytes), other * width, c.layouts[l], t(l, e));
  }
}
