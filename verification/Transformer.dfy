/** The causal forward pass. */
module Transformer {
  /*
   Every numeric kernel is left as a function value.  A layer is either a KDA recurrence, whose state
   is a fold over the whole prefix, or an MLA attention sublayer, whose planes hold one raw row per
   position and one pool key per group of four rows.  The functions below say what a pass over a whole
   prefix computes; they know nothing of chunks, of rings or of resuming.
  */

  type Hidden(!new)    // one residual row
  type KdaState(!new)  // one KDA layer's conv window and recurrent matrix
  type Row(!new)       // one MLA position: latent row and indexer key and gate
  type PoolKey(!new)
  type Logits(!new)

  // Tokens per indexer pool.
  const POOL := 4

  datatype Layer =
    | Kda(zero: KdaState, step: (KdaState, Hidden) -> KdaState, emit: (KdaState, Hidden) -> Hidden)
    | Mla(row: Hidden -> Row, key: seq<Row> -> PoolKey, attend: (Hidden, seq<Row>, seq<PoolKey>) -> Hidden)

  /** The recurrent state after a KDA layer has seen all of `xs`. */
  function KdaAfter(layer: Layer, xs: seq<Hidden>): KdaState
    requires layer.Kda?
  {
    if xs == [] then layer.zero
    else layer.step(KdaAfter(layer, xs[..|xs| - 1]), xs[|xs| - 1])
  }

  function Rows(layer: Layer, xs: seq<Hidden>): (rows: seq<Row>)
    requires layer.Mla?
    ensures |rows| == |xs|
    ensures forall i :: 0 <= i < |xs| ==> rows[i] == layer.row(xs[i])
  {
    seq(|xs|, i requires 0 <= i < |xs| => layer.row(xs[i]))
  }

  /** The key of every complete group of four rows. */
  function Pools(layer: Layer, rows: seq<Row>): (pools: seq<PoolKey>)
    requires layer.Mla?
    ensures |pools| == |rows| / POOL
    ensures forall p :: 0 <= p < |rows| / POOL ==> pools[p] == layer.key(rows[POOL * p..POOL * p + POOL])
  {
    seq(|rows| / POOL, p requires 0 <= p < |rows| / POOL => layer.key(rows[POOL * p..POOL * p + POOL]))
  }

  /** What a layer emits for input `x` when the inputs before it were `past`. */
  function Emit(layer: Layer, past: seq<Hidden>, x: Hidden): Hidden {
    match layer
    case Kda(_, _, emit) => emit(KdaAfter(layer, past), x)
    case Mla(_, _, attend) =>
      var rows := Rows(layer, past + [x]);
      attend(x, rows, Pools(layer, rows))
  }

  function LayerOut(layer: Layer, xs: seq<Hidden>): (ys: seq<Hidden>)
    ensures |ys| == |xs|
  {
    if xs == [] then [] else
      var past := xs[..|xs| - 1];
      LayerOut(layer, past) + [Emit(layer, past, xs[|xs| - 1])]
  }

  /** The residual rows that enter layer `depth`, for every position of `inputs`. */
  function HiddenAt(layers: seq<Layer>, inputs: seq<Hidden>, depth: nat): (xs: seq<Hidden>)
    requires depth <= |layers|
    ensures |xs| == |inputs|
  {
    if depth == 0 then inputs
    else LayerOut(layers[depth - 1], HiddenAt(layers, inputs, depth - 1))
  }

  /** A layer's output at a position depends only on inputs up to it. */
  lemma {:induction false} LayerOutIsCausal(layer: Layer, xs: seq<Hidden>, k: nat)
    requires k <= |xs|
    ensures LayerOut(layer, xs)[..k] == LayerOut(layer, xs[..k])
  {
    if k < |xs| {
      var past := xs[..|xs| - 1];
      LayerOutIsCausal(layer, past, k);
      assert past[..k] == xs[..k];
    } else {
      assert xs[..k] == xs;
    }
  }

  /** The whole stack is causal: truncating the inputs truncates every layer's rows. */
  lemma {:induction false} ForwardIsCausal(layers: seq<Layer>, inputs: seq<Hidden>, depth: nat, k: nat)
    requires depth <= |layers| && k <= |inputs|
    ensures HiddenAt(layers, inputs, depth)[..k] == HiddenAt(layers, inputs[..k], depth)
  {
    if depth != 0 {
      ForwardIsCausal(layers, inputs, depth - 1, k);
      LayerOutIsCausal(layers[depth - 1], HiddenAt(layers, inputs, depth - 1), k);
    }
  }

  lemma {:induction false} PoolsOfPrefix(layer: Layer, rows: seq<Row>, k: nat)
    requires layer.Mla? && k <= |rows|
    ensures Pools(layer, rows[..k]) == Pools(layer, rows)[..k / POOL]
  {
    forall p | 0 <= p < k / POOL
      ensures Pools(layer, rows[..k])[p] == Pools(layer, rows)[p]
    {
      assert rows[..k][POOL * p..POOL * p + POOL] == rows[POOL * p..POOL * p + POOL];
    }
  }

  // ------------------------------------------------------------------ in the kernels' own terms

  /** A recurrence, step by step: `states[i]` is what it has before input `i`. */
  ghost predicate Recurs(layer: Layer, xs: seq<Hidden>, states: seq<KdaState>, ys: seq<Hidden>)
    requires layer.Kda?
  {
    && |states| == |xs| + 1 && |ys| == |xs| && states[0] == layer.zero
    && forall i :: 0 <= i < |xs| ==>
         states[i + 1] == layer.step(states[i], xs[i]) && ys[i] == layer.emit(states[i], xs[i])
  }

  /** A KDA layer is that recurrence. */
  lemma {:induction false} KdaRecurs(layer: Layer, xs: seq<Hidden>, states: seq<KdaState>, ys: seq<Hidden>)
    requires layer.Kda? && Recurs(layer, xs, states, ys)
    ensures LayerOut(layer, xs) == ys && KdaAfter(layer, xs) == states[|xs|]
  {
    if xs != [] {
      var n := |xs| - 1;
      KdaRecurs(layer, xs[..n], states[..n + 1], ys[..n]);
      assert ys == ys[..n] + [ys[n]];
    }
  }

  // What MLA attention sees from position `i`: the rows up to it, and a key for each four of them.
  ghost predicate Sees(layer: Layer, xs: seq<Hidden>, i: nat, rows: seq<Row>, pools: seq<PoolKey>)
    requires layer.Mla? && i < |xs|
  {
    && |rows| == i + 1 && (forall j :: 0 <= j <= i ==> rows[j] == layer.row(xs[j]))
    && |pools| == (i + 1) / 4
    && forall p :: 0 <= p < |pools| ==>
         pools[p] == layer.key([layer.row(xs[4 * p]), layer.row(xs[4 * p + 1]), layer.row(xs[4 * p + 2]),
                                 layer.row(xs[4 * p + 3])])
  }

  lemma {:induction false} LastOut(layer: Layer, xs: seq<Hidden>)
    requires xs != []
    ensures LayerOut(layer, xs)[|xs| - 1] == Emit(layer, xs[..|xs| - 1], xs[|xs| - 1])
  {
  }

  /** An MLA layer attends from every position to exactly that. */
  lemma {:induction false} MlaAttends(layer: Layer, xs: seq<Hidden>, i: nat, rows: seq<Row>, pools: seq<PoolKey>)
    requires layer.Mla? && i < |xs| && Sees(layer, xs, i, rows, pools)
    ensures LayerOut(layer, xs)[i] == layer.attend(xs[i], rows, pools)
  {
    hide LayerOut;
    var upTo := xs[..i + 1];
    LayerOutIsCausal(layer, xs, i + 1);
    assert LayerOut(layer, xs)[i] == LayerOut(layer, xs)[..i + 1][i] == LayerOut(layer, upTo)[i];
    LastOut(layer, upTo);
    assert upTo[..i] + [xs[i]] == upTo;
    assert rows == Rows(layer, upTo);
    forall p | 0 <= p < |pools|
      ensures pools[p] == Pools(layer, rows)[p]
    {
      assert rows[POOL * p..POOL * p + POOL] == [rows[4 * p], rows[4 * p + 1], rows[4 * p + 2], rows[4 * p + 3]];
    }
    assert pools == Pools(layer, rows);
  }

  /** The stack feeds each layer's output to the next one. */
  lemma {:induction false} StackIs(layers: seq<Layer>, inputs: seq<Hidden>, table: seq<seq<Hidden>>, depth: nat)
    requires depth <= |layers| && |table| == |layers| + 1 && table[0] == inputs
    requires forall d :: 0 <= d < |layers| ==> table[d + 1] == LayerOut(layers[d], table[d])
    ensures HiddenAt(layers, inputs, depth) == table[depth]
  {
    if depth > 0 { StackIs(layers, inputs, table, depth - 1); }
  }
}
