/** Adding up the experts, on the grouped path and on the dense one. */
module MoeSums {
  /*
   What a sparse layer adds up for each token, on the grouped path and on the dense one.  Rows of channels
   are single values here: every channel is treated alike.
  */

  import opened Arithmetic
  import opened Counting
  import opened MoeRouting
  import X = ExpertTickets

  // An expert applied to a hidden row, the routing weight applied to its result, and addition.
  datatype Layer<!H, !W, !V> = Layer(expert: (nat, H) -> V, scale: (W, V) -> V, add: (V, V) -> V, zero: V)

  function Contribution<H, W, V>(l: Layer<H, W, V>, e: nat, h: H, w: W): V {
    l.scale(w, l.expert(e, h))
  }

  // Every token has `topk` routes.
  ghost predicate Shaped<H, W>(r: Routes<W>, x: seq<H>) {
    Proper(r) && |r.ids| == RouteAt(|x|, 0, r.topk)
  }

  function RouteAt(t: nat, j: nat, topk: nat): nat {
    t * topk + j
  }

  lemma {:induction false} RouteIsTokens(t: nat, j: nat, topk: nat, tokens: nat)
    requires t < tokens && j < topk
    ensures RouteAt(t, j, topk) < RouteAt(tokens, 0, topk) && TokenOf(RouteAt(t, j, topk), topk) == t
  {
    ProductGrows(t, tokens, topk);
    Quotient(t, topk, j);
  }

  lemma {:induction false} TokenIsBounded(i: nat, tokens: nat, topk: nat)
    requires topk > 0 && i < RouteAt(tokens, 0, topk)
    ensures TokenOf(i, topk) < tokens
    ensures i == RouteAt(TokenOf(i, topk), i % topk, topk)
  {
    var q := i / topk;
    QuotientBounds(i, topk);
    if tokens < q { ProductGrows(tokens, q, topk); }
  }

  // What route `i` contributes, whatever place it was given.
  function RouteValue<H, W, V>(l: Layer<H, W, V>, r: Routes<W>, x: seq<H>, i: nat): V
    requires Proper(r) && i < |r.ids| && TokenOf(i, r.topk) < |x|
  {
    Contribution(l, r.ids[i], x[TokenOf(i, r.topk)], r.weights[i])
  }

  function Fold<V>(add: (V, V) -> V, zero: V, vs: seq<V>): V {
    if vs == [] then zero else add(Fold(add, zero, vs[..|vs| - 1]), vs[|vs| - 1])
  }

  // The contributions to a token, in the order its experts were ranked.
  ghost function TokenRow<H, W, V>(l: Layer<H, W, V>, r: Routes<W>, x: seq<H>, t: nat): (row: seq<V>)
    requires Shaped(r, x) && t < |x|
    ensures |row| == r.topk
    ensures forall j: nat :: j < r.topk ==> IsRoute(r, x, t, j) && row[j] == RouteValue(l, r, x, RouteAt(t, j, r.topk))
  {
    forall j: nat | j < r.topk
      ensures IsRoute(r, x, t, j)
    {
      RouteIsTokens(t, j, r.topk, |x|);
    }
    seq(r.topk, j requires 0 <= j < r.topk && IsRoute(r, x, t, j) => RouteValue(l, r, x, RouteAt(t, j, r.topk)))
  }

  ghost predicate IsRoute<H, W>(r: Routes<W>, x: seq<H>, t: nat, j: nat) {
    Proper(r) && RouteAt(t, j, r.topk) < |r.ids| && TokenOf(RouteAt(t, j, r.topk), r.topk) == t < |x|
  }

  // ------------------------------------------------------------------ the grouped path

  // What the fused kernel is to write: experts with more than `most` tokens are not run.
  function KernelWork<H, W, V>(l: Layer<H, W, V>, x: seq<H>, count: seq<nat>, tokens: seq<nat>, weights: seq<W>,
                               most: nat): X.Work<V> {
    X.Work(count, most, (e: nat, p: nat) =>
      if p < |tokens| && p < |weights| && tokens[p] < |x| then Contribution(l, e, x[tokens[p]], weights[p]) else l.zero)
  }

  lemma {:induction false} BlocksStart<W, V>(w: X.Work<V>, r: Routes<W>, e: nat)
    requires Proper(r) && |w.count| == r.experts && e <= r.experts
    requires forall d :: 0 <= d < r.experts ==> w.count[d] == CountOf(r.ids, d, |r.ids|)
    ensures X.Start(w, e) == Offset(r.ids, e)
  {
    hide CountBelow, CountOf;
    EdgeOffsets(r);
    if e > 0 {
      BlocksStart(w, r, e - 1);
      BlockBounds(r, e - 1);
    }
  }

  /**
   The fused kernel, whatever order its groups advance in: every place gets the contribution of its own expert,
   token and weight, except for experts with too many tokens, whose places keep what was there.
  */
  method GroupedKernel<H, W, V>(l: Layer<H, W, V>, ghost r: Routes<W>, x: seq<H>, count: seq<nat>, tokens: seq<nat>,
                                weights: seq<W>, most: nat, nGroups: nat, stale: seq<V>)
    returns (contributions: seq<V>)
    requires Shaped(r, x) && |count| == r.experts && |tokens| == |weights| == |r.ids| && nGroups > 0
    requires forall e :: 0 <= e < r.experts ==> count[e] == CountOf(r.ids, e, |r.ids|)
    requires forall p :: 0 <= p < |tokens| ==> tokens[p] < |x|
    requires |stale| == |r.ids|
    ensures |contributions| == |r.ids|
    ensures forall p: nat, e: nat :: p < |r.ids| && e < r.experts && InBlock(r.ids, e, p) ==>
              contributions[p] == if count[e] <= most then Contribution(l, e, x[tokens[p]], weights[p]) else stale[p]
  {
    hide CountOf, CountBelow, Offset, Contribution, TokenOf, RouteAt, X.Start, X.Spared, X.Complete;
    var w := KernelWork(l, x, count, tokens, weights, most);
    var out := new V[|stale|](i requires 0 <= i < |stale| => stale[i]);
    assert out[..] == stale;
    BlocksStart(w, r, r.experts);
    EdgeOffsets(r);
    X.RunGroups(w, nGroups, out);
    contributions := out[..];
    forall p: nat, e: nat | p < |r.ids| && e < r.experts && InBlock(r.ids, e, p)
      ensures contributions[p] == if count[e] <= most then Contribution(l, e, x[tokens[p]], weights[p]) else stale[p]
    {
      BlocksStart(w, r, e);
      BlockBounds(r, e);
      PlaceIs(w, stale, contributions, e, p);
    }
  }

  lemma {:induction false} PlaceIs<V>(w: X.Work<V>, stale: seq<V>, out: seq<V>, e: nat, p: nat)
    requires X.InBlock(w, e, p) && p < |out| && X.Spared(w, stale, out)
    requires X.Runs(w, e) ==> X.Complete(w, out, e)
    ensures out[p] == if w.count[e] <= w.most then w.value(e, p) else stale[p]
  {
    hide X.Start;
    if w.count[e] > w.most && out[p] != stale[p] {
      var d: nat :| X.Runs(w, d) && X.InBlock(w, d, p);
      X.OneBlock(w, d, e, p);
      assert false;
    }
  }

  lemma {:induction false} EdgeOffsets<W>(r: Routes<W>)
    requires Proper(r)
    ensures Offset(r.ids, 0) == 0 && Offset(r.ids, r.experts) == |r.ids|
  {
    hide CountBelow;
    OffsetsGrow(r.ids, 0, 0, |r.ids|);
    OffsetTotal(r.ids, r.experts, |r.ids|);
  }

  lemma {:induction false} BlockBounds<W>(r: Routes<W>, e: nat)
    requires Proper(r) && e < r.experts
    ensures Offset(r.ids, e + 1) == Offset(r.ids, e) + CountOf(r.ids, e, |r.ids|) <= |r.ids|
  {
    hide CountBelow, CountOf;
    NextOffset(r.ids, e, |r.ids|);
    OffsetsGrow(r.ids, e, e + 1, |r.ids|);
  }

  /** The ordered reduction: one thread per token adds its contributions up, by rank. */
  method ReduceSorted<V>(add: (V, V) -> V, zero: V, contributions: seq<V>, routes: seq<nat>, tokens: nat, topk: nat)
    returns (y: seq<V>)
    requires |routes| == RouteAt(tokens, 0, topk) && AllBelow(routes, |contributions|)
    ensures |y| == tokens
    ensures forall t: nat, row: seq<V> :: t < tokens && GatheredRow(contributions, routes, t, topk, row) ==>
              y[t] == Fold(add, zero, row)
  {
    hide RouteAt, TokenOf;
    y := [];
    for t := 0 to tokens
      invariant |y| == t
      invariant forall u: nat, row: seq<V> :: u < t && GatheredRow(contributions, routes, u, topk, row) ==>
                  y[u] == Fold(add, zero, row)
    {
      var acc, row := zero, [];
      for j := 0 to topk
        invariant |row| == j && acc == Fold(add, zero, row)
        invariant forall k: nat :: k < j ==>
              RouteAt(t, k, topk) < |routes| && row[k] == contributions[routes[RouteAt(t, k, topk)]]
      {
        RouteIsTokens(t, j, topk, tokens);
        var c := contributions[routes[RouteAt(t, j, topk)]];
        acc := add(acc, c);
        assert (row + [c])[..j] == row;
        row := row + [c];
      }
      forall row' | GatheredRow(contributions, routes, t, topk, row')
        ensures row' == row
      {
      }
      y := y + [acc];
    }
  }

  ghost predicate GatheredRow<V>(contributions: seq<V>, routes: seq<nat>, t: nat, topk: nat, row: seq<V>) {
    && |row| == topk && AllBelow(routes, |contributions|)
    && forall j: nat :: j < topk ==>
         RouteAt(t, j, topk) < |routes| && row[j] == contributions[routes[RouteAt(t, j, topk)]]
  }

  /** A route finds its own contribution at its place, whichever place that is. */
  lemma {:induction false} RowIsGathered<H, W, V>(l: Layer<H, W, V>, r: Routes<W>, x: seq<H>, tokens: seq<nat>,
                                                  weights: seq<W>, routes: seq<nat>, contributions: seq<V>, t: nat)
    requires Shaped(r, x) && t < |x| && Permuted(r, tokens, weights, routes) && |contributions| == |r.ids|
    requires forall p :: 0 <= p < |tokens| ==> tokens[p] < |x|
    requires forall p: nat, e: nat :: p < |r.ids| && e < r.experts && InBlock(r.ids, e, p) ==>
               contributions[p] == Contribution(l, e, x[tokens[p]], weights[p])
    ensures GatheredRow(contributions, routes, t, r.topk, TokenRow(l, r, x, t))
  {
    hide InBlock, TokenOf, RouteAt, Contribution;
    var row := TokenRow(l, r, x, t);
    forall j: nat | j < r.topk
      ensures RouteAt(t, j, r.topk) < |routes| && row[j] == contributions[routes[RouteAt(t, j, r.topk)]]
    {
      assert IsRoute(r, x, t, j);
      var i := RouteAt(t, j, r.topk);
      assert InBlock(r.ids, r.ids[i], routes[i]);
    }
  }

  lemma {:induction false} TokensAreBounded<H, W>(r: Routes<W>, x: seq<H>, tokens: seq<nat>, weights: seq<W>,
        routes: seq<nat>)
    requires Shaped(r, x) && Permuted(r, tokens, weights, routes)
    ensures forall p :: 0 <= p < |tokens| ==> tokens[p] < |x|
  {
    hide InBlock, TokenOf, RouteAt;
    forall p | 0 <= p < |tokens|
      ensures tokens[p] < |x|
    {
      var i := PermutedIsOnto(r, tokens, weights, routes, p);
      TokenIsBounded(i, |x|, r.topk);
    }
  }

  /** The permutation: counting, offsets, and the scatter under any schedule. */
  method Permute<W>(r: Routes<W>) returns (count: seq<nat>, tokens: seq<nat>, weights: seq<W>, routes: seq<nat>)
    requires Proper(r)
    ensures |count| == r.experts && forall e :: 0 <= e < r.experts ==> count[e] == CountOf(r.ids, e, |r.ids|)
    ensures Permuted(r, tokens, weights, routes)
  {
    hide CountOf, CountBelow, Permuted;
    count := MoeCount(r.ids, r.experts);
    var offset, expertCount := MoeOffset(r.ids, count, r.experts);
    var n := |r.ids|;
    var cursor := new nat[r.experts + 1](e requires 0 <= e <= r.experts => offset[e]);
    var ts, rs := new nat[n](_ => 0), new nat[n](_ => 0);
    var ws := new W[n](i requires 0 <= i < n => r.weights[i]);
    Scatter(r, cursor, ts, ws, rs);
    tokens, weights, routes := ts[..], ws[..], rs[..];
  }

  // No expert has more tokens than the kernel runs.
  ghost predicate NoneTooMany<W>(r: Routes<W>, most: nat) {
    forall e: nat :: e < r.experts ==> CountOf(r.ids, e, |r.ids|) <= most
  }

  /**
   The grouped path: for every order in which the threads of the scatter and the groups of the kernel run, each token
   gets the same left fold of its own routes' contributions, whatever the buffer held before.
  */
  method MoeGrouped<H, W, V>(l: Layer<H, W, V>, r: Routes<W>, x: seq<H>, most: nat, nGroups: nat, stale: seq<V>)
    returns (y: seq<V>)
    requires Shaped(r, x) && NoneTooMany(r, most) && nGroups > 0 && |stale| == |r.ids|
    ensures |y| == |x| && forall t: nat :: t < |x| ==> y[t] == Fold(l.add, l.zero, TokenRow(l, r, x, t))
  {
    hide CountOf, CountBelow, InBlock, Permuted, TokenOf, RouteAt, Fold, Contribution;
    var count, tokens, weights, routes := Permute(r);
    TokensAreBounded(r, x, tokens, weights, routes);
    PermutedIsBounded(r, tokens, weights, routes);
    var contributions := GroupedKernel(l, r, x, count, tokens, weights, most, nGroups, stale);
    y := ReduceSorted(l.add, l.zero, contributions, routes, |x|, r.topk);
    forall t: nat | t < |x|
      ensures y[t] == Fold(l.add, l.zero, TokenRow(l, r, x, t))
    {
      RowIsGathered(l, r, x, tokens, weights, routes, contributions, t);
    }
  }

  lemma {:induction false} PermutedIsBounded<W>(r: Routes<W>, tokens: seq<nat>, weights: seq<W>, routes: seq<nat>)
    requires Proper(r) && Permuted(r, tokens, weights, routes)
    ensures AllBelow(routes, |r.ids|) && |tokens| == |weights| == |routes| == |r.ids|
  {
    hide InBlock, TokenOf;
  }

  // ------------------------------------------------------------------ the dense path

  // The threads of one scatter call: each reads its row of `y`, then writes it back with its share added.
  datatype Adders<!V> = Adders(pc: seq<nat>, seen: seq<V>, y: seq<V>)

  ghost predicate Adding<W, V>(add: (V, V) -> V, scale: (W, V) -> V, y0: seq<V>, src: seq<V>, idx: seq<nat>,
        w: seq<W>, s: Adders<V>)
    requires |src| == |idx| == |w| && AllBelow(idx, |y0|)
  {
    && |s.y| == |y0| && |s.pc| == |s.seen| == |idx|
    && (forall t :: 0 <= t < |y0| && t !in idx ==> s.y[t] == y0[t])
    && (forall r :: 0 <= r < |idx| ==> s.pc[r] <= 2)
    && (forall r :: 0 <= r < |idx| && s.pc[r] < 2 ==> s.y[idx[r]] == y0[idx[r]])
    && (forall r :: 0 <= r < |idx| && s.pc[r] == 1 ==> s.seen[r] == y0[idx[r]])
    && (forall r :: 0 <= r < |idx| && s.pc[r] == 2 ==> s.y[idx[r]] == add(y0[idx[r]], scale(w[r], src[r])))
  }

  predicate SomeAdder(pc: seq<nat>) {
    exists i :: 0 <= i < |pc| && pc[i] < 2
  }

  function LeftToAdd(pc: seq<nat>): nat {
    if pc == [] then 0
    else LeftToAdd(pc[..|pc| - 1]) + if pc[|pc| - 1] < 2 then 2 - pc[|pc| - 1] else 0
  }

  lemma {:induction false} LeftToAddStep(pc: seq<nat>, i: nat)
    requires i < |pc| && pc[i] < 2
    ensures LeftToAdd(pc[i := pc[i] + 1]) < LeftToAdd(pc)
  {
    var last := |pc| - 1;
    var pc' := pc[i := pc[i] + 1];
    if i == last {
      assert pc'[..last] == pc[..last];
    } else {
      assert pc'[..last] == pc[..last][i := pc[i] + 1];
      LeftToAddStep(pc[..last], i);
    }
  }

  lemma {:induction false} ReadStep<W, V>(add: (V, V) -> V, scale: (W, V) -> V, y0: seq<V>, src: seq<V>,
        idx: seq<nat>, w: seq<W>,
                                          s: Adders<V>, r: nat)
    requires |src| == |idx| == |w| && AllBelow(idx, |y0|) && Adding(add, scale, y0, src, idx, w, s)
    requires r < |idx| && s.pc[r] == 0
    ensures Adding(add, scale, y0, src, idx, w, Adders(s.pc[r := 1], s.seen[r := s.y[idx[r]]], s.y))
  {
  }

  lemma {:induction false} WriteStep<W, V>(add: (V, V) -> V, scale: (W, V) -> V, y0: seq<V>, src: seq<V>,
        idx: seq<nat>, w: seq<W>,
                                           s: Adders<V>, r: nat)
    requires |src| == |idx| == |w| && AllBelow(idx, |y0|) && Adding(add, scale, y0, src, idx, w, s)
    requires Distinct(idx) && r < |idx| && s.pc[r] == 1
    ensures var y := s.y[idx[r] := add(s.seen[r], scale(w[r], src[r]))];
            Adding(add, scale, y0, src, idx, w, Adders(s.pc[r := 2], s.seen, y))
  {
    forall q | 0 <= q < |idx| && q != r
      ensures idx[q] != idx[r]
    {
      if q < r { assert idx[q] != idx[r]; } else { assert idx[r] != idx[q]; }
    }
  }

  /**
   Adding the rows of one expert.  The reads and writes of the threads may interleave at will: with one
   writer per row, no addition is lost.
  */
  method ScatterAdd<W, V>(add: (V, V) -> V, scale: (W, V) -> V, y: array<V>, src: seq<V>, idx: seq<nat>, w: seq<W>)
    requires |src| == |idx| == |w| && AllBelow(idx, y.Length) && Distinct(idx)
    modifies y
    ensures forall t :: 0 <= t < y.Length && t !in idx ==> y[t] == old(y[t])
    ensures forall r :: 0 <= r < |idx| ==> y[idx[r]] == add(old(y[idx[r]]), scale(w[r], src[r]))
  {
    hide Adding, LeftToAdd;
    var pc: seq<nat> := seq(|idx|, _ => 0);
    var seen: seq<V> := src;   // not read before it is set
    ghost var y0 := y[..];
    BeforeAdding(add, scale, y0, src, idx, w);
    while SomeAdder(pc)
      invariant |pc| == |seen| == |idx|
      invariant Adding(add, scale, y0, src, idx, w, Adders(pc, seen, y[..]))
      decreases LeftToAdd(pc)
    {
      var r: nat :| r < |pc| && pc[r] < 2;
      LeftToAddStep(pc, r);
      ghost var s := Adders(pc, seen, y[..]);
      if pc[r] == 0 {
        ReadStep(add, scale, y0, src, idx, w, s, r);
        seen := seen[r := y[idx[r]]];
        pc := pc[r := 1];
      } else {
        WriteStep(add, scale, y0, src, idx, w, s, r);
        y[idx[r]] := add(seen[r], scale(w[r], src[r]));
        pc := pc[r := 2];
        assert y[..] == s.y[idx[r] := add(seen[r], scale(w[r], src[r]))];
      }
    }
    AfterAdding(add, scale, y0, src, idx, w, Adders(pc, seen, y[..]));
    forall t | 0 <= t < y.Length && t !in idx
      ensures y[t] == old(y[t])
    {
      assert y[..][t] == y0[t];
    }
  }

  lemma {:induction false} BeforeAdding<W, V>(add: (V, V) -> V, scale: (W, V) -> V, y0: seq<V>, src: seq<V>,
        idx: seq<nat>, w: seq<W>)
    requires |src| == |idx| == |w| && AllBelow(idx, |y0|)
    ensures Adding(add, scale, y0, src, idx, w, Adders(seq(|idx|, _ => 0), src, y0))
  {
  }

  lemma {:induction false} AfterAdding<W, V>(add: (V, V) -> V, scale: (W, V) -> V, y0: seq<V>, src: seq<V>,
        idx: seq<nat>, w: seq<W>,
                                             s: Adders<V>)
    requires |src| == |idx| == |w| && AllBelow(idx, |y0|) && Adding(add, scale, y0, src, idx, w, s) && !SomeAdder(s.pc)
    ensures forall t :: 0 <= t < |y0| && t !in idx ==> s.y[t] == y0[t]
    ensures forall r :: 0 <= r < |idx| ==> s.y[idx[r]] == add(y0[idx[r]], scale(w[r], src[r]))
  {
    forall r | 0 <= r < |idx|
      ensures s.pc[r] == 2
    {
      assert !(s.pc[r] < 2);
    }
  }

  // Routing picks `topk` different experts for a token.
  ghost predicate DistinctExperts<W>(r: Routes<W>)
    requires Proper(r)
  {
    forall i: nat, j: nat :: i < |r.ids| && j < |r.ids| && i != j && TokenOf(i, r.topk) == TokenOf(j, r.topk) ==>
          r.ids[i] != r.ids[j]
  }

  // The rank below `n` at which token `t` chose expert `e`; -1 if none.
  function RankOf<W>(r: Routes<W>, t: nat, e: nat, n: nat): (j: int)
    ensures j == -1 ==> forall k: nat :: k < n && RouteAt(t, k, r.topk) < |r.ids| ==> r.ids[RouteAt(t, k, r.topk)] != e
    ensures j != -1 ==> 0 <= j < n && RouteAt(t, j, r.topk) < |r.ids| && r.ids[RouteAt(t, j, r.topk)] == e
  {
    if n == 0 then -1
    else if RouteAt(t, n - 1, r.topk) < |r.ids| && r.ids[RouteAt(t, n - 1, r.topk)] == e then n - 1
    else RankOf(r, t, e, n - 1)
  }

  // The contributions of the experts below `e` to token `t`, in ascending order of expert.
  function ByExpert<H, W, V>(l: Layer<H, W, V>, r: Routes<W>, x: seq<H>, t: nat, e: nat): seq<V>
    requires Proper(r) && t < |x|
  {
    if e == 0 then []
    else
      var j := RankOf(r, t, e - 1, r.topk);
      ByExpert(l, r, x, t, e - 1)
      + if j == -1 then [] else [Contribution(l, e - 1, x[t], r.weights[RouteAt(t, j, r.topk)])]
  }

  lemma {:induction false} FoldMore<V>(add: (V, V) -> V, zero: V, vs: seq<V>, v: V)
    ensures Fold(add, zero, vs + [v]) == add(Fold(add, zero, vs), v)
  {
    assert (vs + [v])[..|vs|] == vs;
  }

  // The rows of `y` after the experts below `e`.
  ghost predicate DenseUpTo<H, W, V>(l: Layer<H, W, V>, r: Routes<W>, x: seq<H>, y: seq<V>, e: nat)
    requires Proper(r)
  {
    |y| == |x| && forall t: nat :: t < |x| ==> y[t] == Fold(l.add, l.zero, ByExpert(l, r, x, t, e))
  }

  lemma {:induction false} NoneBetween(ids: seq<nat>, e: nat, a: nat, b: nat)
    requires a <= b <= |ids| && forall i :: a <= i < b ==> ids[i] != e
    ensures CountOf(ids, e, b) == CountOf(ids, e, a)
  {
    if a < b { NoneBetween(ids, e, a, b - 1); }
  }

  lemma {:induction false} AtMostOne(ids: seq<nat>, e: nat, a: nat, b: nat)
    requires a <= b <= |ids| && forall i, j :: a <= i < j < b ==> ids[i] != ids[j]
    ensures CountOf(ids, e, b) <= CountOf(ids, e, a) + 1
  {
    if a < b {
      if ids[b - 1] == e { NoneBetween(ids, e, a, b - 1); } else { AtMostOne(ids, e, a, b - 1); }
    }
  }

  /** An expert has at most one route of every token, so no more tokens than the chunk has. */
  lemma {:induction false} OneRoutePerToken<H, W>(r: Routes<W>, x: seq<H>, e: nat, t: nat)
    requires Shaped(r, x) && DistinctExperts(r) && t <= |x|
    ensures RouteAt(t, 0, r.topk) <= |r.ids| && CountOf(r.ids, e, RouteAt(t, 0, r.topk)) <= t
  {
    if t > 0 {
      OneRoutePerToken(r, x, e, t - 1);
      var a, b := RouteAt(t - 1, 0, r.topk), RouteAt(t, 0, r.topk);
      assert b == a + r.topk;
      if t < |x| { RouteIsTokens(t, 0, r.topk, |x|); }
      forall i, j | a <= i < j < b
        ensures r.ids[i] != r.ids[j]
      {
        RouteIsTokens(t - 1, i - a, r.topk, |x|);
        RouteIsTokens(t - 1, j - a, r.topk, |x|);
      }
      AtMostOne(r.ids, e, a, b);
    }
  }

  lemma {:induction false} DifferentExpertsFit<H, W>(r: Routes<W>, x: seq<H>, most: nat)
    requires Shaped(r, x) && DistinctExperts(r) && |x| <= most
    ensures NoneTooMany(r, most)
  {
    hide CountOf, RouteAt, TokenOf, DistinctExperts;
    forall e: nat | e < r.experts
      ensures CountOf(r.ids, e, |r.ids|) <= most
    {
      OneRoutePerToken(r, x, e, |x|);
    }
  }

  /** The sorted route at `p`, in expert `e`'s block, is the token's only route to that expert. */
  lemma {:induction false} RouteInBlock<H, W>(r: Routes<W>, x: seq<H>, tokens: seq<nat>, weights: seq<W>,
        routes: seq<nat>, e: nat, p: nat)
    returns (j: nat)
    requires Shaped(r, x) && DistinctExperts(r) && Permuted(r, tokens, weights, routes)
    requires p < |r.ids| && InBlock(r.ids, e, p)
    ensures tokens[p] < |x| && j < r.topk && RankOf(r, tokens[p], e, r.topk) == j
    ensures RouteAt(tokens[p], j, r.topk) < |r.ids| && routes[RouteAt(tokens[p], j, r.topk)] == p
    ensures weights[p] == r.weights[RouteAt(tokens[p], j, r.topk)]
  {
    hide InBlock, TokenOf, RouteAt;
    var i := PermutedIsOnto(r, tokens, weights, routes, p);
    BlocksAreDisjoint(r.ids, r.ids[i], e, p);
    TokenIsBounded(i, |x|, r.topk);
    var t := tokens[p];
    j := i % r.topk;
    var k := RankOf(r, t, e, r.topk);
    assert k != -1;
    var i' := RouteAt(t, k, r.topk);
    RouteIsTokens(t, k, r.topk, |x|);
    assert i' == i;
    j := k;
  }

  /** Within a block no token occurs twice: one writer per row. */
  lemma {:induction false} OneWriterPerRow<H, W>(r: Routes<W>, x: seq<H>, tokens: seq<nat>, weights: seq<W>,
        routes: seq<nat>, e: nat)
    requires Shaped(r, x) && DistinctExperts(r) && Permuted(r, tokens, weights, routes)
    requires e < r.experts && Offset(r.ids, e) <= Offset(r.ids, e + 1) <= |r.ids|
    ensures Distinct(tokens[Offset(r.ids, e)..Offset(r.ids, e + 1)])
  {
    hide CountBelow, TokenOf, RouteAt, RankOf;
    var from, to := Offset(r.ids, e), Offset(r.ids, e + 1);
    hide Offset;
    var idx := tokens[from..to];
    forall a, b | 0 <= a < b < |idx|
      ensures idx[a] != idx[b]
    {
      var j := RouteInBlock(r, x, tokens, weights, routes, e, from + a);
      var k := RouteInBlock(r, x, tokens, weights, routes, e, from + b);
    }
  }

  method GatherRows<H>(src: seq<H>, idx: seq<nat>) returns (dst: seq<H>)
    requires AllBelow(idx, |src|)
    ensures |dst| == |idx| && forall k :: 0 <= k < |idx| ==> dst[k] == src[idx[k]]
  {
    dst := [];
    for k := 0 to |idx|
      invariant |dst| == k && forall i :: 0 <= i < k ==> dst[i] == src[idx[i]]
    {
      dst := dst + [src[idx[k]]];
    }
  }

  /** What the scatter call of one expert does to the rows. */
  lemma {:induction false} DenseStep<H, W, V>(l: Layer<H, W, V>, r: Routes<W>, x: seq<H>, tokens: seq<nat>,
        weights: seq<W>,
                                              routes: seq<nat>, e: nat, idx: seq<nat>, w: seq<W>, src: seq<V>,
                                                  y: seq<V>, y': seq<V>)
    requires Shaped(r, x) && DistinctExperts(r) && Permuted(r, tokens, weights, routes) && DenseUpTo(l, r, x, y, e)
    requires e < r.experts && Offset(r.ids, e) <= Offset(r.ids, e + 1) <= |r.ids| && |y'| == |y|
    requires idx == tokens[Offset(r.ids, e)..Offset(r.ids, e + 1)] && AllBelow(idx, |x|)
    requires w == weights[Offset(r.ids, e)..Offset(r.ids, e + 1)]
    requires |src| == |idx| && forall k :: 0 <= k < |src| ==> src[k] == l.expert(e, x[idx[k]])
    requires forall t :: 0 <= t < |y| && t !in idx ==> y'[t] == y[t]
    requires forall k :: 0 <= k < |src| ==> y'[idx[k]] == l.add(y[idx[k]], l.scale(w[k], src[k]))
    ensures DenseUpTo(l, r, x, y', e + 1)
  {
    hide CountBelow, TokenOf, RouteAt, RankOf, Fold, Permuted, DistinctExperts, Offset, ByExpert, Contribution;
    PermutedIsBounded(r, tokens, weights, routes);
    var from := Offset(r.ids, e);
    forall t: nat | t < |x|
      ensures y'[t] == Fold(l.add, l.zero, ByExpert(l, r, x, t, e + 1))
    {
      if t in idx {
        var k: nat :| k < |idx| && idx[k] == t;
        SliceIndex(tokens, from, Offset(r.ids, e + 1), k);
        SliceIndex(weights, from, Offset(r.ids, e + 1), k);
        var j := RouteInBlock(r, x, tokens, weights, routes, e, from + k);
        OneMore(l, r, x, t, e, w[k]);
        ContributionIs(l, e, x[t], w[k]);
      } else {
        if RankOf(r, t, e, r.topk) != -1 { RouteIsSeen(r, x, tokens, weights, routes, e, t); }
        NoneMore(l, r, x, t, e);
      }
    }
  }

  lemma {:induction false} SliceIndex<X>(s: seq<X>, a: nat, b: nat, k: nat)
    requires a <= b <= |s| && k < b - a
    ensures s[a..b][k] == s[a + k]
  {
  }

  lemma {:induction false} ContributionIs<H, W, V>(l: Layer<H, W, V>, e: nat, h: H, w: W)
    ensures Contribution(l, e, h, w) == l.scale(w, l.expert(e, h))
  {
  }

  lemma {:induction false} OneMore<H, W, V>(l: Layer<H, W, V>, r: Routes<W>, x: seq<H>, t: nat, e: nat, w: W)
    requires Proper(r) && t < |x| && RankOf(r, t, e, r.topk) != -1
    requires w == r.weights[RouteAt(t, RankOf(r, t, e, r.topk), r.topk)]
    ensures Fold(l.add, l.zero, ByExpert(l, r, x, t, e + 1))
         == l.add(Fold(l.add, l.zero, ByExpert(l, r, x, t, e)), Contribution(l, e, x[t], w))
  {
    hide Fold, RankOf, RouteAt, Contribution;
    FoldMore(l.add, l.zero, ByExpert(l, r, x, t, e), Contribution(l, e, x[t], w));
  }

  lemma {:induction false} NoneMore<H, W, V>(l: Layer<H, W, V>, r: Routes<W>, x: seq<H>, t: nat, e: nat)
    requires Proper(r) && t < |x| && RankOf(r, t, e, r.topk) == -1
    ensures ByExpert(l, r, x, t, e + 1) == ByExpert(l, r, x, t, e)
  {
    hide RankOf, RouteAt, Contribution;
    var before := ByExpert(l, r, x, t, e);
    assert before + [] == before;
  }

  lemma {:induction false} RouteIsSeen<H, W>(r: Routes<W>, x: seq<H>, tokens: seq<nat>, weights: seq<W>,
        routes: seq<nat>, e: nat, t: nat)
    requires Shaped(r, x) && Permuted(r, tokens, weights, routes) && t < |x|
    requires e < r.experts && Offset(r.ids, e) <= Offset(r.ids, e + 1) <= |r.ids|
    requires RankOf(r, t, e, r.topk) != -1
    ensures t in tokens[Offset(r.ids, e)..Offset(r.ids, e + 1)]
  {
    hide CountBelow, TokenOf, RouteAt;
    var j := RankOf(r, t, e, r.topk);
    RouteIsTokens(t, j, r.topk, |x|);
    var p := routes[RouteAt(t, j, r.topk)];
    assert tokens[Offset(r.ids, e)..Offset(r.ids, e + 1)][p - Offset(r.ids, e)] == t;
  }

  /** The dense path: expert by expert, in ascending order. */
  method MoeDense<H, W, V>(l: Layer<H, W, V>, r: Routes<W>, x: seq<H>) returns (out: seq<V>)
    requires Shaped(r, x) && DistinctExperts(r)
    ensures DenseUpTo(l, r, x, out, r.experts)
  {
    hide CountOf, CountBelow, Permuted, TokenOf, RouteAt, Fold, Offset, ByExpert, DistinctExperts, Distinct;
    var count, tokens, weights, routes := Permute(r);
    TokensAreBounded(r, x, tokens, weights, routes);
    PermutedIsBounded(r, tokens, weights, routes);
    EdgeOffsets(r);
    var y := new V[|x|](_ => l.zero);
    var off := 0;
    ZeroRows(l, r, x, y[..]);
    for e := 0 to r.experts
      invariant off == Offset(r.ids, e)
      invariant DenseUpTo(l, r, x, y[..], e)
    {
      BlockBounds(r, e);
      var cnt := count[e];
      var idx, w := tokens[off..off + cnt], weights[off..off + cnt];
      ghost var before := y[..];
      var rows := GatherRows(x, idx);
      var src := seq(cnt, k requires 0 <= k < |rows| => l.expert(e, rows[k]));
      OneWriterPerRow(r, x, tokens, weights, routes, e);
      // an expert without tokens is skipped by the source; for it the call below adds nothing
      if cnt > 0 { ScatterAdd(l.add, l.scale, y, src, idx, w); }
      DenseStep(l, r, x, tokens, weights, routes, e, idx, w, src, before, y[..]);
      off := off + cnt;
    }
    out := y[..];
  }

  lemma {:induction false} ZeroRows<H, W, V>(l: Layer<H, W, V>, r: Routes<W>, x: seq<H>, y: seq<V>)
    requires Proper(r) && |y| == |x| && forall t :: 0 <= t < |y| ==> y[t] == l.zero
    ensures DenseUpTo(l, r, x, y, 0)
  {
  }

  // ------------------------------------------------------------------ the sums, step by step

  lemma {:induction false} FoldIs<V>(add: (V, V) -> V, zero: V, vs: seq<V>, sums: seq<V>, n: nat)
    requires n <= |vs| && |sums| > n && sums[0] == zero
    requires forall j :: 0 <= j < n ==> sums[j + 1] == add(sums[j], vs[j])
    ensures Fold(add, zero, vs[..n]) == sums[n]
  {
    if n > 0 {
      FoldIs(add, zero, vs, sums, n - 1);
      assert vs[..n][..n - 1] == vs[..n - 1] && sums[n - 1 + 1] == add(sums[n - 1], vs[n - 1]);
    }
  }

  // The routes of token `t`.
  predicate RowAt<W(==)>(r: Routes<W>, t: nat, ids: seq<nat>, weights: seq<W>) {
    var first := t * r.topk;
    && first + r.topk <= |r.ids| == |r.weights|
    && ids == r.ids[first..first + r.topk] && weights == r.weights[first..first + r.topk]
  }

  // Starting from zero, the weighted result of the next expert is added.
  ghost predicate RanksAdded<H, W, V>(l: Layer<H, W, V>, ids: seq<nat>, weights: seq<W>, h: H, sums: seq<V>) {
    && |sums| == |ids| + 1 == |weights| + 1 && sums[0] == l.zero
    && forall j :: 0 <= j < |ids| ==> sums[j + 1] == l.add(sums[j], l.scale(weights[j], l.expert(ids[j], h)))
  }

  /** What the grouped path leaves for a token is the last of these sums. */
  lemma {:induction false} GroupedSum<H, W, V>(l: Layer<H, W, V>, r: Routes<W>, x: seq<H>, t: nat, ids: seq<nat>,
        weights: seq<W>, sums: seq<V>)
    requires Shaped(r, x) && t < |x| && RowAt(r, t, ids, weights) && RanksAdded(l, ids, weights, x[t], sums)
    ensures Fold(l.add, l.zero, TokenRow(l, r, x, t)) == sums[r.topk]
  {
    hide Fold;
    var row := TokenRow(l, r, x, t);
    forall j: nat | j < r.topk
      ensures sums[j + 1] == l.add(sums[j], row[j])
    {
      assert IsRoute(r, x, t, j);
    }
    FoldIs(l.add, l.zero, row, sums, r.topk);
    assert row[..r.topk] == row;
  }

  // Starting from zero, expert after expert is added if it is one of those chosen.
  ghost predicate ExpertsAdded<H, W, V>(l: Layer<H, W, V>, ids: seq<nat>, weights: seq<W>, h: H, sums: seq<V>) {
    && |ids| == |weights| && |sums| > 0 && sums[0] == l.zero
    && forall e: nat :: e + 1 < |sums| ==> ExpertStep(l, ids, weights, h, sums[e], e, sums[e + 1])
  }

  ghost predicate ExpertStep<H, W, V>(l: Layer<H, W, V>, ids: seq<nat>, weights: seq<W>, h: H, before: V, e: nat,
                                      after: V)
    requires |ids| == |weights|
  {
    && (e !in ids ==> after == before)
    && forall j :: 0 <= j < |ids| && ids[j] == e ==> after == l.add(before, l.scale(weights[j], l.expert(e, h)))
  }

  /** What the dense path leaves for a token is the last of these sums. */
  lemma {:induction false} DenseSum<H, W, V>(l: Layer<H, W, V>, r: Routes<W>, x: seq<H>, t: nat, ids: seq<nat>,
        weights: seq<W>, sums: seq<V>, e: nat)
    requires Shaped(r, x) && t < |x| && RowAt(r, t, ids, weights) && ExpertsAdded(l, ids, weights, x[t], sums)
    requires e < |sums|
    ensures Fold(l.add, l.zero, ByExpert(l, r, x, t, e)) == sums[e]
    decreases e
  {
    ShapedIsProper(r, x);
    hide Fold, RowAt, Shaped, ByExpert, ExpertStep;
    if e == 0 {
      NoExpertYet(l, r, x, t);
      FoldNothing(l.add, l.zero);
    } else {
      DenseSum(l, r, x, t, ids, weights, sums, e - 1);
      assert ExpertStep(l, ids, weights, x[t], sums[e - 1], e - 1, sums[e - 1 + 1]);
      NextSum(l, r, x, t, ids, weights, e - 1, sums[e]);
    }
  }

  lemma {:induction false} NoExpertYet<H, W, V>(l: Layer<H, W, V>, r: Routes<W>, x: seq<H>, t: nat)
    requires Proper(r) && t < |x|
    ensures ByExpert(l, r, x, t, 0) == []
  {
  }

  lemma {:induction false} ShapedIsProper<H, W>(r: Routes<W>, x: seq<H>)
    requires Shaped(r, x)
    ensures Proper(r)
  {
  }

  lemma {:induction false} NextSum<H, W, V>(l: Layer<H, W, V>, r: Routes<W>, x: seq<H>, t: nat, ids: seq<nat>,
        weights: seq<W>, e: nat, after: V)
    requires Proper(r) && t < |x| && RowAt(r, t, ids, weights) && |ids| == |weights|
    requires ExpertStep(l, ids, weights, x[t], Fold(l.add, l.zero, ByExpert(l, r, x, t, e)), e, after)
    ensures Fold(l.add, l.zero, ByExpert(l, r, x, t, e + 1)) == after
  {
    RankInRow(r, t, ids, weights, e);
    hide Fold, ByExpert, RankOf, Contribution, RouteAt, RowAt;
    var j := RankOf(r, t, e, r.topk);
    if j == -1 {
      NoneMore(l, r, x, t, e);
    } else {
      OneMore(l, r, x, t, e, weights[j]);
      ContributionIs(l, e, x[t], weights[j]);
      assert ids[j] == e;
    }
  }

  lemma {:induction false} RankInRow<W>(r: Routes<W>, t: nat, ids: seq<nat>, weights: seq<W>, e: nat)
    requires RowAt(r, t, ids, weights)
    ensures var j := RankOf(r, t, e, r.topk);
      if j == -1 then e !in ids else ids[j] == e && weights[j] == r.weights[RouteAt(t, j, r.topk)]
  {
    if RankOf(r, t, e, r.topk) == -1 {
      forall k: nat | k < r.topk
        ensures ids[k] != e
      {
        assert r.ids[RouteAt(t, k, r.topk)] != e;
      }
    }
  }

  // ------------------------------------------------------------------ both paths give the same sum

  // The order of two summands does not matter, as with any associative and commutative addition.
  ghost predicate OrderFree<H, W, V(!new)>(l: Layer<H, W, V>) {
    forall a, b, c :: l.add(l.add(a, b), c) == l.add(l.add(a, c), b)
  }

  lemma {:induction false} ExactIsOrderFree<H, W, V(!new)>(l: Layer<H, W, V>)
    requires forall a, b, c :: l.add(l.add(a, b), c) == l.add(a, l.add(b, c))
    requires forall a, b :: l.add(a, b) == l.add(b, a)
    ensures OrderFree(l)
  {
    forall a, b, c
      ensures l.add(l.add(a, b), c) == l.add(l.add(a, c), b)
    {
      assert l.add(l.add(a, b), c) == l.add(a, l.add(b, c)) == l.add(a, l.add(c, b));
    }
  }

  // The sum of those of the first `n` values whose expert is below `e`.
  function SumBelow<H, W, V>(l: Layer<H, W, V>, es: seq<nat>, vs: seq<V>, e: nat, n: nat): V
    requires n <= |es| == |vs|
  {
    if n == 0 then l.zero
    else if es[n - 1] < e then l.add(SumBelow(l, es, vs, e, n - 1), vs[n - 1])
    else SumBelow(l, es, vs, e, n - 1)
  }

  lemma {:induction false} SumOfAll<H, W, V>(l: Layer<H, W, V>, es: seq<nat>, vs: seq<V>, e: nat, n: nat)
    requires n <= |es| == |vs| && forall j :: 0 <= j < |es| ==> es[j] < e
    ensures SumBelow(l, es, vs, e, n) == Fold(l.add, l.zero, vs[..n])
  {
    if n > 0 {
      SumOfAll(l, es, vs, e, n - 1);
      assert vs[..n][..n - 1] == vs[..n - 1];
    }
  }

  lemma {:induction false} SumOfNone<H, W, V>(l: Layer<H, W, V>, es: seq<nat>, vs: seq<V>, n: nat)
    requires n <= |es| == |vs|
    ensures SumBelow(l, es, vs, 0, n) == l.zero
  {
    if n > 0 { SumOfNone(l, es, vs, n - 1); }
  }

  /** One more expert adds the value of its rank, if it has one, at the end. */
  lemma {:induction false} SumNext<H, W, V(!new)>(l: Layer<H, W, V>, es: seq<nat>, vs: seq<V>, e: nat, n: nat, j: int)
    requires n <= |es| == |vs| && Distinct(es) && OrderFree(l)
    requires if j == -1 then forall k :: 0 <= k < |es| ==> es[k] != e else 0 <= j < |es| && es[j] == e
    ensures SumBelow(l, es, vs, e + 1, n)
         == if 0 <= j < n then l.add(SumBelow(l, es, vs, e, n), vs[j]) else SumBelow(l, es, vs, e, n)
  {
    if n > 0 {
      SumNext(l, es, vs, e, n - 1, j);
      if j != -1 && es[n - 1] == e { assert j == n - 1; }
    }
  }

  ghost function Chosen<H, W>(r: Routes<W>, x: seq<H>, t: nat): (es: seq<nat>)
    requires Shaped(r, x) && t < |x|
    ensures |es| == r.topk
    ensures forall j: nat :: j < r.topk ==> RouteAt(t, j, r.topk) < |r.ids| && es[j] == r.ids[RouteAt(t, j, r.topk)]
  {
    forall j: nat | j < r.topk
      ensures RouteAt(t, j, r.topk) < |r.ids|
    {
      RouteIsTokens(t, j, r.topk, |x|);
    }
    seq(r.topk, j requires 0 <= j < r.topk && RouteAt(t, j, r.topk) < |r.ids| => r.ids[RouteAt(t, j, r.topk)])
  }

  lemma {:induction false} ChosenAreDistinct<H, W>(r: Routes<W>, x: seq<H>, t: nat)
    requires Shaped(r, x) && DistinctExperts(r) && t < |x|
    ensures Distinct(Chosen(r, x, t))
  {
    hide TokenOf;
    var es := Chosen(r, x, t);
    forall i, j | 0 <= i < j < |es|
      ensures es[i] != es[j]
    {
      RouteIsTokens(t, i, r.topk, |x|);
      RouteIsTokens(t, j, r.topk, |x|);
    }
  }

  lemma {:induction false} ByExpertSums<H, W, V(!new)>(l: Layer<H, W, V>, r: Routes<W>, x: seq<H>, t: nat, e: nat)
    requires Shaped(r, x) && DistinctExperts(r) && OrderFree(l) && t < |x|
    ensures Fold(l.add, l.zero, ByExpert(l, r, x, t, e))
         == SumBelow(l, Chosen(r, x, t), TokenRow(l, r, x, t), e, r.topk)
  {
    hide DistinctExperts, RankOf, RouteAt, TokenOf, Fold, SumBelow, TokenRow, Chosen;
    var es, vs := Chosen(r, x, t), TokenRow(l, r, x, t);
    if e == 0 {
      SumOfNone(l, es, vs, r.topk);
      FoldNothing(l.add, l.zero);
    } else {
      ByExpertSums(l, r, x, t, e - 1);
      ChosenAreDistinct(r, x, t);
      var j := RankOf(r, t, e - 1, r.topk);
      SumNext(l, es, vs, e - 1, r.topk, j);
      var before := ByExpert(l, r, x, t, e - 1);
      if j == -1 {
        assert before + [] == before;
      } else {
        assert IsRoute(r, x, t, j);
        FoldMore(l.add, l.zero, before, Contribution(l, e - 1, x[t], r.weights[RouteAt(t, j, r.topk)]));
      }
    }
  }

  lemma {:induction false} FoldNothing<V>(add: (V, V) -> V, zero: V)
    ensures Fold(add, zero, []) == zero
  {
  }

  /** When the order of summands does not matter, the dense path gives what the grouped one gives. */
  lemma {:induction false} DenseIsGrouped<H, W, V(!new)>(l: Layer<H, W, V>, r: Routes<W>, x: seq<H>, t: nat)
    requires Shaped(r, x) && DistinctExperts(r) && OrderFree(l) && t < |x|
    ensures Fold(l.add, l.zero, ByExpert(l, r, x, t, r.experts)) == Fold(l.add, l.zero, TokenRow(l, r, x, t))
  {
    hide RankOf, RouteAt, TokenOf, Fold, SumBelow;
    ByExpertSums(l, r, x, t, r.experts);
    SumOfAll(l, Chosen(r, x, t), TokenRow(l, r, x, t), r.experts, r.topk);
    assert TokenRow(l, r, x, t)[..r.topk] == TokenRow(l, r, x, t);
  }
}
