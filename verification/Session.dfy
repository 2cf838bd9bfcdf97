/** The single-sequence engine. */
module Session {
  /*
   Its planes survive from request to request; the KDA recurrence, which is not addressed by position,
   is rewound from a ring of snapshots.  The result to prove is that none of this can be seen: a
   request is answered as by an engine that has just been reset.
  */

  import opened Arithmetic
  import opened Transformer
  import opened PoolRing
  import opened ImageInputs
  import opened PrefixPolicy
  import opened Captures

  type SamplerState(!new)

  datatype Model = Model(layers: seq<Layer>, hidden: nat, embed: int -> Hidden,
                         place: seq<Half> -> Hidden, head: Hidden -> Logits)

  datatype Sampler = Sampler(start: SamplerState, next: (SamplerState, Logits, seq<int>) -> (int, SamplerState))

  // `proceed` is the client: given everything emitted so far, does generation go on?
  datatype GenParams = GenParams(maxTokens: int, ignoreEos: bool, eos: int, sampler: Sampler, proceed: seq<int> -> bool)

  datatype Outcome = Tokens(out: seq<int>) | ImageMismatch

  // ------------------------------------------------------------------ the cold engine

  /** What enters the model for token `tok` at position `p`. */
  function InputAt(m: Model, tok: int, images: seq<Image>, p: nat): Hidden
    requires Storable(images)
  {
    match RowAt(images, p)
    case Untouched => m.embed(tok)
    case Replaced(row) => m.place(row)
  }

  /** Everything that has entered the model once `tokens` have followed `base`. */
  function Feed(m: Model, base: seq<Hidden>, tokens: seq<int>, images: seq<Image>): (xs: seq<Hidden>)
    requires Storable(images)
    ensures |xs| == |base| + |tokens|
  {
    if tokens == [] then base
    else
      var xs := Feed(m, base, tokens[..|tokens| - 1], images);
      xs + [InputAt(m, tokens[|tokens| - 1], images, |xs|)]
  }

  lemma {:induction false} FeedAt(m: Model, base: seq<Hidden>, tokens: seq<int>, images: seq<Image>)
    requires Storable(images)
    ensures Feed(m, base, tokens, images)[..|base|] == base
    ensures forall i :: 0 <= i < |tokens| ==>
              Feed(m, base, tokens, images)[|base| + i] == InputAt(m, tokens[i], images, |base| + i)
  {
    if tokens != [] {
      FeedAt(m, base, tokens[..|tokens| - 1], images);
    }
  }

  // No image over the position; or this one, and none that comes later in the list.
  predicate Bare(images: seq<Image>, p: int) {
    forall k :: 0 <= k < |images| ==> !Covers(images[k], p)
  }

  predicate OnTop(images: seq<Image>, k: int, p: int) {
    0 <= k < |images| && Covers(images[k], p) && forall j :: k < j < |images| ==> !Covers(images[j], p)
  }

  /** What enters at a position: where there is no image the token's embedding, else the row of the image on top. */
  ghost predicate EntersAt(m: Model, tok: int, images: seq<Image>, p: int, x: Hidden)
    requires Storable(images)
  {
    && (Bare(images, p) ==> x == m.embed(tok))
    && forall k :: OnTop(images, k, p) ==> x == m.place(ImageRow(images[k], p))
  }

  lemma {:induction false} EntersIff(m: Model, tok: int, images: seq<Image>, p: nat, x: Hidden)
    requires Storable(images)
    ensures EntersAt(m, tok, images, p, x) <==> x == InputAt(m, tok, images, p)
  {
    hide ImageRow, RowAt;
    var last := RowAtIsLast(images, p);
    if last != -1 { assert OnTop(images, last, p); }
  }

  ghost predicate Enters(m: Model, at: nat, tokens: seq<int>, images: seq<Image>, xs: seq<Hidden>)
    requires Storable(images)
  {
    |xs| == |tokens| && forall i :: 0 <= i < |xs| ==> EntersAt(m, tokens[i], images, at + i, xs[i])
  }

  lemma {:induction false} FeedEnters(m: Model, base: seq<Hidden>, tokens: seq<int>, images: seq<Image>,
        xs: seq<Hidden>)
    requires Storable(images)
    ensures base + xs == Feed(m, base, tokens, images) <==> Enters(m, |base|, tokens, images, xs)
  {
    hide Feed, InputAt, EntersAt;
    FeedAt(m, base, tokens, images);
    var all := Feed(m, base, tokens, images);
    var ys := all[|base|..];
    assert all == base + ys;
    forall i | 0 <= i < |tokens| && |xs| == |tokens|
      ensures EntersAt(m, tokens[i], images, |base| + i, xs[i]) <==> xs[i] == ys[i]
    {
      EntersIff(m, tokens[i], images, |base| + i, xs[i]);
    }
    assert base + xs == all <==> xs == ys;
  }

  /** Without images every position gets the embedding of its own token, so that no two prompts enter alike. */
  lemma {:induction false} TokensEnter(m: Model, tokens: seq<int>)
    ensures |Feed(m, [], tokens, [])| == |tokens|
    ensures forall i :: 0 <= i < |tokens| ==> Feed(m, [], tokens, [])[i] == m.embed(tokens[i])
  {
    var xs := Feed(m, [], tokens, []);
    assert [] + xs == xs;
    FeedEnters(m, [], tokens, [], xs);
    assert forall i :: 0 <= i < |tokens| ==> EntersAt(m, tokens[i], [], i, xs[i]);
  }

  lemma {:induction false} PromptsEnterApart(m: Model, a: seq<int>, b: seq<int>)
    requires forall t, u :: m.embed(t) == m.embed(u) ==> t == u
    requires Feed(m, [], a, []) == Feed(m, [], b, [])
    ensures a == b
  {
    TokensEnter(m, a);
    TokensEnter(m, b);
    forall i | 0 <= i < |a|
      ensures a[i] == b[i]
    {
      assert m.embed(a[i]) == m.embed(b[i]);
    }
  }

  lemma {:induction false} FeedIs(m: Model, base: seq<Hidden>, tokens: seq<int>, images: seq<Image>, xh: seq<Hidden>)
    requires Storable(images) && |xh| == |tokens|
    requires forall j :: 0 <= j < |xh| ==> xh[j] == InputAt(m, tokens[j], images, |base| + j)
    ensures base + xh == Feed(m, base, tokens, images)
  {
    FeedAt(m, base, tokens, images);
  }

  lemma {:induction false} FeedJoin(m: Model, base: seq<Hidden>, xs: seq<int>, ys: seq<int>, images: seq<Image>)
    requires Storable(images)
    ensures Feed(m, Feed(m, base, xs, images), ys, images) == Feed(m, base, xs + ys, images)
  {
    if ys == [] {
      assert xs + ys == xs;
    } else {
      FeedJoin(m, base, xs, ys[..|ys| - 1], images);
      assert (xs + ys)[..|xs + ys| - 1] == xs + ys[..|ys| - 1];
    }
  }

  /** Feeding `ids` piece by piece. */
  lemma {:induction false} FeedPiece(m: Model, base: seq<Hidden>, now: seq<Hidden>, hist: seq<int>, histNow: seq<int>,
                  ids: seq<int>, piece: seq<int>, a: nat, b: nat, images: seq<Image>)
    requires Storable(images) && a <= b <= |ids| && piece == ids[a..b]
    requires now == Feed(m, base, ids[..a], images) && histNow == hist + ids[..a]
    ensures Feed(m, now, piece, images) == Feed(m, base, ids[..b], images)
    ensures histNow + piece == hist + ids[..b]
  {
    FeedJoin(m, base, ids[..a], ids[a..b], images);
    assert ids[..a] + ids[a..b] == ids[..b];
  }

  function LogitsAfter(m: Model, inputs: seq<Hidden>): Logits
    requires |inputs| > 0
  {
    m.head(HiddenAt(m.layers, inputs, |m.layers|)[|inputs| - 1])
  }

  /** The logits are the head's, of the last row that leaves the last layer. */
  lemma {:induction false} LogitsAre(m: Model, inputs: seq<Hidden>, table: seq<seq<Hidden>>)
    requires inputs != [] && |table| == |m.layers| + 1 && table[0] == inputs
    requires forall d :: 0 <= d < |m.layers| ==> table[d + 1] == LayerOut(m.layers[d], table[d])
    ensures |table[|m.layers|]| == |inputs|
    ensures LogitsAfter(m, inputs) == m.head(table[|m.layers|][|inputs| - 1])
  {
    StackIs(m.layers, inputs, table, |m.layers|);
  }

  predicate IsLayer(m: Model, l: int) {
    0 <= l < |m.layers|
  }

  function KdaStates(m: Model, inputs: seq<Hidden>): map<nat, KdaState> {
    map l: nat | l < |m.layers| && IsLayer(m, l) && m.layers[l].Kda? ::
      KdaAfter(m.layers[l], HiddenAt(m.layers, inputs, l))
  }

  /** Sampling from a sequence of inputs that is computed in one piece, with no cache at all. */
  function ColdTail(m: Model, cap: nat, p: GenParams, images: seq<Image>, inputs: seq<Hidden>,
                    st: SamplerState, recent: seq<int>, out: seq<int>): seq<int>
    requires Storable(images) && (inputs == [] ==> cap == 0)
    decreases p.maxTokens - |out|
  {
    if |out| >= p.maxTokens || |inputs| >= cap then out
    else
      var (tok, st') := p.sampler.next(st, LogitsAfter(m, inputs), recent);
      if tok == p.eos && !p.ignoreEos then out
      else
        var out' := out + [tok];
        if !p.proceed(out') || |out'| >= p.maxTokens then out'
        else ColdTail(m, cap, p, images, inputs + [InputAt(m, tok, images, |inputs|)], st', recent + [tok], out')
  }

  function ColdGenerate(m: Model, cap: nat, p: GenParams, prompt: seq<int>, images: seq<Image>): seq<int>
    requires Storable(images) && prompt != []
  {
    var n := if |prompt| <= cap then |prompt| else cap;
    ColdTail(m, cap, p, images, Feed(m, [], prompt[..n], images), p.sampler.start, prompt, [])
  }

  // ------------------------------------------------------------------ the answer, by what can be observed of it

  // The tokens that hold after the first `k` of `out` have been decoded.
  function Held(prompt: seq<int>, cap: nat, out: seq<int>, k: nat): seq<int>
    requires k <= |out|
  {
    prompt[..Min(|prompt|, cap)] + out[..k]
  }

  // The sampler's choice after the first `k` tokens of `out`, and the state it is then in.
  function Choice(m: Model, cap: nat, p: GenParams, prompt: seq<int>, images: seq<Image>, out: seq<int>,
                  states: seq<SamplerState>, k: nat): (int, SamplerState)
    requires Storable(images) && k <= |out| && k < |states| && Held(prompt, cap, out, k) != []
  {
    p.sampler.next(states[k], LogitsAfter(m, Feed(m, [], Held(prompt, cap, out, k), images)), prompt + out[..k])
  }

  /** After `k` tokens there is another one to come. */
  predicate AnotherComes(m: Model, cap: nat, p: GenParams, prompt: seq<int>, images: seq<Image>, out: seq<int>,
                         states: seq<SamplerState>, k: nat)
    requires Storable(images) && k <= |out| && k < |states|
  {
    && k < p.maxTokens && |Held(prompt, cap, out, k)| < cap && (k > 0 ==> p.proceed(out[..k]))
    && Held(prompt, cap, out, k) != []
    && (Choice(m, cap, p, prompt, images, out, states, k).0 != p.eos || p.ignoreEos)
  }

  /**
   Each token is the sampler's choice given everything before it, another one comes after each but the last, and
   none after that: the limit or the context is used up, the client has had enough, or the choice is the end token.
  */
  ghost predicate IsAnswer(m: Model, cap: nat, p: GenParams, prompt: seq<int>, images: seq<Image>, out: seq<int>,
                           states: seq<SamplerState>)
    requires Storable(images)
  {
    IsRun(m, cap, p, prompt, images, out, states) && !AnotherComes(m, cap, p, prompt, images, out, states, |out|)
  }

  // The first steps of an answer.
  ghost predicate IsRun(m: Model, cap: nat, p: GenParams, prompt: seq<int>, images: seq<Image>, out: seq<int>,
                        states: seq<SamplerState>)
    requires Storable(images)
  {
    && |states| == |out| + 1 && states[0] == p.sampler.start
    && forall k :: 0 <= k < |out| ==> StepOk(m, cap, p, prompt, images, out, states, k)
  }

  ghost predicate StepOk(m: Model, cap: nat, p: GenParams, prompt: seq<int>, images: seq<Image>, out: seq<int>,
                         states: seq<SamplerState>, k: nat)
    requires Storable(images) && k < |out| && |states| == |out| + 1
  {
    && AnotherComes(m, cap, p, prompt, images, out, states, k)
    && Choice(m, cap, p, prompt, images, out, states, k) == (out[k], states[k + 1])
  }

  lemma {:induction false} RunGoesOn(m: Model, cap: nat, p: GenParams, prompt: seq<int>, images: seq<Image>,
        out: seq<int>, states: seq<SamplerState>) returns (out': seq<int>, states': seq<SamplerState>)
    requires Storable(images) && IsRun(m, cap, p, prompt, images, out, states)
    requires AnotherComes(m, cap, p, prompt, images, out, states, |out|)
    ensures IsRun(m, cap, p, prompt, images, out', states') && |out'| == |out| + 1 <= p.maxTokens
  {
    var (tok, st) := Choice(m, cap, p, prompt, images, out, states, |out|);
    out', states' := out + [tok], states + [st];
    forall k | 0 <= k < |out'|
      ensures StepOk(m, cap, p, prompt, images, out', states', k)
    {
      assert out'[..k] == out[..k] && states'[k] == states[k];
      if k < |out| { assert StepOk(m, cap, p, prompt, images, out, states, k); }
    }
  }

  lemma {:induction false} SomeAnswer(m: Model, cap: nat, p: GenParams, prompt: seq<int>, images: seq<Image>,
        out0: seq<int>, states0: seq<SamplerState>) returns (out: seq<int>, states: seq<SamplerState>)
    requires Storable(images) && IsRun(m, cap, p, prompt, images, out0, states0)
    ensures IsAnswer(m, cap, p, prompt, images, out, states)
    decreases p.maxTokens - |out0|
  {
    hide AnotherComes, Choice;
    if AnotherComes(m, cap, p, prompt, images, out0, states0, |out0|) {
      out, states := RunGoesOn(m, cap, p, prompt, images, out0, states0);
      out, states := SomeAnswer(m, cap, p, prompt, images, out, states);
    } else {
      out, states := out0, states0;
    }
  }

  lemma {:induction false} AnswerFrom(m: Model, cap: nat, p: GenParams, prompt: seq<int>, images: seq<Image>,
        out: seq<int>, states: seq<SamplerState>, k: nat)
    requires Storable(images) && IsAnswer(m, cap, p, prompt, images, out, states) && prompt != []
    requires k <= |out| && (k == |out| ==> k == 0 || p.proceed(out))
    ensures var inputs := Feed(m, [], Held(prompt, cap, out, k), images);
      && (inputs == [] ==> cap == 0)
      && ColdTail(m, cap, p, images, inputs, states[k], prompt + out[..k], out[..k]) == out
    decreases |out| - k
  {
    hide LogitsAfter, Feed, InputAt;
    var held := Held(prompt, cap, out, k);
    assert out[..|out|] == out;
    if k < |out| {
      assert StepOk(m, cap, p, prompt, images, out, states, k);
      if k + 1 < |out| { assert StepOk(m, cap, p, prompt, images, out, states, k + 1); }
      var tok := out[k];
      assert out[..k + 1] == out[..k] + [tok];
      assert Held(prompt, cap, out, k + 1) == held + [tok] && prompt + out[..k + 1] == prompt + out[..k] + [tok];
      FeedJoin(m, [], held, [tok], images);
      FeedOne(m, Feed(m, [], held, images), tok, images);
      if k + 1 < |out| || p.proceed(out) { AnswerFrom(m, cap, p, prompt, images, out, states, k + 1); }
    }
  }

  /** The cold answer is the one and only sequence of tokens with these properties. */
  lemma {:induction false} ColdAnswerIff(m: Model, cap: nat, p: GenParams, prompt: seq<int>, images: seq<Image>,
        out: seq<int>)
    requires Storable(images) && prompt != []
    ensures out == ColdGenerate(m, cap, p, prompt, images)
        <==> exists states :: IsAnswer(m, cap, p, prompt, images, out, states)
  {
    var out0, states0 := SomeAnswer(m, cap, p, prompt, images, [], [p.sampler.start]);
    AnswerIsCold(m, cap, p, prompt, images, out0, states0);
    if exists states :: IsAnswer(m, cap, p, prompt, images, out, states) {
      var states :| IsAnswer(m, cap, p, prompt, images, out, states);
      AnswerIsCold(m, cap, p, prompt, images, out, states);
    }
  }

  lemma {:induction false} AnswerIsCold(m: Model, cap: nat, p: GenParams, prompt: seq<int>, images: seq<Image>,
        out: seq<int>, states: seq<SamplerState>)
    requires Storable(images) && IsAnswer(m, cap, p, prompt, images, out, states) && prompt != []
    ensures out == ColdGenerate(m, cap, p, prompt, images)
  {
    hide ColdTail, AnotherComes, Choice, Feed;
    AnswerFrom(m, cap, p, prompt, images, out, states, 0);
    assert Held(prompt, cap, out, 0) == prompt[..Min(|prompt|, cap)] && prompt + out[..0] == prompt;
  }

  // ------------------------------------------------------------------ what the device holds

  ghost predicate Sized(m: Model, cache: seq<LayerCache>, cap: nat, maxChunk: nat) {
    && |cache| == |m.layers|
    && forall l {:trigger IsLayer(m, l)} :: IsLayer(m, l) && m.layers[l].Mla? ==>
         && |cache[l].ckv| == cap && |cache[l].pools| == cap / POOL
         && |cache[l].ring| == RawRingRows(maxChunk)
  }

  ghost predicate PlanesHold(m: Model, cache: seq<LayerCache>, inputs: seq<Hidden>) {
    && |cache| == |m.layers|
    && forall l {:trigger IsLayer(m, l)} :: IsLayer(m, l) ==>
          Holds(m.layers[l], cache[l], HiddenAt(m.layers, inputs, l))
  }

  /** Every live snapshot is aligned, lies within the history and is the state at its own position. */
  ghost predicate SnapshotsHold(m: Model, snapPos: seq<int>, snapHost: seq<map<nat, KdaState>>, inputs: seq<Hidden>) {
    && |snapHost| == |snapPos|
    && forall i :: 0 <= i < |snapPos| && snapPos[i] != -1 ==>
         && 0 < snapPos[i] <= |inputs| && snapPos[i] % POOL == 0
         && snapHost[i] == KdaStates(m, inputs[..snapPos[i]])
  }

  function LoadKda(cache: seq<LayerCache>, buf: map<nat, KdaState>): (r: seq<LayerCache>)
    ensures |r| == |cache|
    ensures forall l :: 0 <= l < |r| ==> r[l] == if l in buf then cache[l].(kda := buf[l]) else cache[l]
  {
    seq(|cache|, l requires 0 <= l < |cache| => if l in buf then cache[l].(kda := buf[l]) else cache[l])
  }

  /** Planes for a prefix: rewound planes together with the recurrent states of exactly that prefix. */
  lemma {:induction false} RewoundPlanesHold(m: Model, cache: seq<LayerCache>, cap: nat, maxChunk: nat,
                          inputs: seq<Hidden>, resume: nat, buf: map<nat, KdaState>)
    requires PlanesHold(m, cache, inputs) && Sized(m, cache, cap, maxChunk)
    requires resume <= |inputs| && resume % POOL == 0
    requires buf == KdaStates(m, inputs[..resume])
    ensures PlanesHold(m, LoadKda(cache, buf), inputs[..resume])
    ensures Sized(m, LoadKda(cache, buf), cap, maxChunk)
  {
    forall l | IsLayer(m, l)
      ensures Holds(m.layers[l], LoadKda(cache, buf)[l], HiddenAt(m.layers, inputs[..resume], l))
    {
      ForwardIsCausal(m.layers, inputs, l, resume);
      if m.layers[l].Mla? {
        RewindKeepsPlanes(m.layers[l], cache[l], HiddenAt(m.layers, inputs, l), resume);
      }
    }
  }

  lemma {:induction false} SnapshotsAfterDiscard(m: Model, snapPos0: seq<int>, snapPos: seq<int>,
        snapHost: seq<map<nat, KdaState>>,
                              inputs: seq<Hidden>, resume: nat)
    requires SnapshotsHold(m, snapPos0, snapHost, inputs) && resume <= |inputs| && |snapPos| == |snapPos0|
    requires forall i :: 0 <= i < |snapPos| ==> snapPos[i] == if snapPos0[i] > resume then -1 else snapPos0[i]
    ensures SnapshotsHold(m, snapPos, snapHost, inputs[..resume])
  {
    hide KdaStates;
    forall i | 0 <= i < |snapPos| && snapPos[i] != -1
      ensures snapHost[i] == KdaStates(m, inputs[..resume][..snapPos[i]])
    {
      assert inputs[..resume][..snapPos[i]] == inputs[..snapPos[i]];
    }
  }

  lemma {:induction false} SnapshotsArePositive(m: Model, snapPos: seq<int>, snapHost: seq<map<nat, KdaState>>,
        inputs: seq<Hidden>)
    requires SnapshotsHold(m, snapPos, snapHost, inputs)
    ensures forall i :: 0 <= i < |snapPos| ==> snapPos[i] == -1 || snapPos[i] > 0
  {
    hide KdaStates;
  }

  lemma {:induction false} AllKept(m: Model, snapPos: seq<int>, kept: seq<int>, snapHost: seq<map<nat, KdaState>>,
        inputs: seq<Hidden>)
    requires SnapshotsHold(m, snapPos, snapHost, inputs) && |kept| == |snapPos|
    requires forall i :: 0 <= i < |kept| ==> kept[i] == if snapPos[i] > |inputs| then -1 else snapPos[i]
    ensures kept == snapPos
  {
    hide KdaStates;
  }

  lemma {:induction false} LatestIsHere(latest: int, kept: seq<int>, slot: nat, resume: nat)
    requires IsLatest(latest, kept) && slot < |kept| && kept[slot] == resume
    requires forall i :: 0 <= i < |kept| ==> kept[i] <= resume
    ensures latest == resume
  {
  }

  lemma {:induction false} NoneKept(latest: int, kept: seq<int>)
    requires IsLatest(latest, kept) && forall i :: 0 <= i < |kept| ==> kept[i] == -1
    ensures latest == 0
  {
  }

  lemma {:induction false} SnapshotsAfterGrowth(m: Model, snapPos: seq<int>, snapHost: seq<map<nat, KdaState>>,
                             inputs: seq<Hidden>, grown: seq<Hidden>)
    requires SnapshotsHold(m, snapPos, snapHost, inputs)
    requires |inputs| <= |grown| && grown[..|inputs|] == inputs
    ensures SnapshotsHold(m, snapPos, snapHost, grown)
  {
    hide KdaStates;
    forall i | 0 <= i < |snapPos| && snapPos[i] != -1
      ensures snapHost[i] == KdaStates(m, grown[..snapPos[i]])
    {
      assert grown[..snapPos[i]] == inputs[..snapPos[i]];
    }
  }

  // ------------------------------------------------------------------ one chunk

  /** Overwrites the rows of a chunk that images occupy, image by image. */
  method InjectImages(m: Model, images: seq<Image>, pos: nat, xh0: seq<Hidden>) returns (xh: seq<Hidden>)
    requires Storable(images)
    ensures |xh| == |xh0|
    ensures forall j :: 0 <= j < |xh| ==>
              xh[j] == match RowAt(images, pos + j) case Untouched => xh0[j] case Replaced(row) => m.place(row)
  {
    xh := xh0;
    for i := 0 to |images|
      invariant |xh| == |xh0|
      invariant forall j :: 0 <= j < |xh| ==>
        xh[j] == match RowAt(images[..i], pos + j) case Untouched => xh0[j] case Replaced(row) => m.place(row)
    {
      var image := images[i];
      var first := Max(pos, image.start);
      var last := Min(pos + |xh|, image.start + image.rows);
      ghost var before := xh;
      if first < last {
        for q := first to last
          invariant |xh| == |xh0|
          invariant forall j :: 0 <= j < |xh| ==>
                      xh[j] == if first <= pos + j < q then m.place(ImageRow(image, pos + j)) else before[j]
        {
          xh := xh[q - pos := m.place(ImageRow(image, q))];
        }
      }
      assert images[..i + 1][..i] == images[..i];
    }
    assert images[..|images|] == images;
  }

  /** The input rows of a chunk: token embeddings, then the images over them. */
  method EmbedChunk(m: Model, images: seq<Image>, tokens: seq<int>, pos: nat) returns (xh: seq<Hidden>)
    requires Storable(images)
    ensures |xh| == |tokens|
    ensures forall j :: 0 <= j < |xh| ==> xh[j] == InputAt(m, tokens[j], images, pos + j)
  {
    xh := seq(|tokens|, i requires 0 <= i < |tokens| => m.embed(tokens[i]));
    xh := InjectImages(m, images, pos, xh);
  }

  // Half way up the stack: the layers below `l` hold `all`, the others still `inputs`.
  ghost predicate HalfWay(m: Model, cache: seq<LayerCache>, inputs: seq<Hidden>, all: seq<Hidden>, l: nat) {
    && |cache| == |m.layers|
    && (forall k {:trigger IsLayer(m, k)} :: IsLayer(m, k) && k < l ==>
          Holds(m.layers[k], cache[k], HiddenAt(m.layers, all, k)))
    && (forall k {:trigger IsLayer(m, k)} :: IsLayer(m, k) && l <= k ==>
          Holds(m.layers[k], cache[k], HiddenAt(m.layers, inputs, k)))
  }

  lemma {:induction false} NextLayer(m: Model, cache: seq<LayerCache>, inputs: seq<Hidden>, all: seq<Hidden>, l: nat,
        c: LayerCache)
    requires l < |m.layers| && HalfWay(m, cache, inputs, all, l)
    requires Holds(m.layers[l], c, HiddenAt(m.layers, all, l))
    ensures HalfWay(m, cache[l := c], inputs, all, l + 1)
  {
  }

  method OneLayer(m: Model, cache0: seq<LayerCache>, ghost inputs: seq<Hidden>, ghost all: seq<Hidden>,
                  cap: nat, maxChunk: nat, pos: nat, l: nat, xh0: seq<Hidden>)
    returns (cache: seq<LayerCache>, xh: seq<Hidden>)
    requires l < |m.layers| && Sized(m, cache0, cap, maxChunk) && HalfWay(m, cache0, inputs, all, l)
    requires pos == |inputs| && |all| == pos + |xh0| <= cap && |xh0| <= maxChunk
    requires HiddenAt(m.layers, inputs, l) + xh0 == HiddenAt(m.layers, all, l)
    ensures Sized(m, cache, cap, maxChunk) && HalfWay(m, cache, inputs, all, l + 1) && |xh| == |xh0|
    ensures HiddenAt(m.layers, inputs, l + 1) + xh == HiddenAt(m.layers, all, l + 1)
  {
    assert IsLayer(m, l);
    ghost var past := HiddenAt(m.layers, inputs, l);
    var c, ys := LayerStep(m.layers[l], cache0[l], past, pos, xh0);
    NextLayer(m, cache0, inputs, all, l, c);
    cache, xh := cache0[l := c], ys;
  }

  /** The layer stack over one chunk; what it computes does not depend on where chunks are cut. */
  method Forward(m: Model, cache0: seq<LayerCache>, ghost inputs: seq<Hidden>, cap: nat, maxChunk: nat, pos: nat,
        xh0: seq<Hidden>)
    returns (cache: seq<LayerCache>, xh: seq<Hidden>)
    requires Sized(m, cache0, cap, maxChunk) && PlanesHold(m, cache0, inputs) && pos == |inputs|
    requires |xh0| <= maxChunk && pos + |xh0| <= cap
    ensures Sized(m, cache, cap, maxChunk) && PlanesHold(m, cache, inputs + xh0)
    ensures HiddenAt(m.layers, inputs, |m.layers|) + xh == HiddenAt(m.layers, inputs + xh0, |m.layers|)
  {
    hide Holds, LayerOut, Sized;
    cache, xh := cache0, xh0;
    ghost var all := inputs + xh0;
    for l := 0 to |m.layers|
      invariant Sized(m, cache, cap, maxChunk) && |xh| == |xh0|
      invariant HalfWay(m, cache, inputs, all, l)
      invariant HiddenAt(m.layers, inputs, l) + xh == HiddenAt(m.layers, all, l)
    {
      cache, xh := OneLayer(m, cache, inputs, all, cap, maxChunk, pos, l, xh);
    }
  }

  // ------------------------------------------------------------------ recurrent states

  lemma {:induction false} KdaHolds(m: Model, cache: seq<LayerCache>, inputs: seq<Hidden>, l: nat)
    requires PlanesHold(m, cache, inputs) && l < |cache| && m.layers[l].Kda?
    ensures cache[l].kda == KdaAfter(m.layers[l], HiddenAt(m.layers, inputs, l))
  {
    assert IsLayer(m, l);
  }

  /** Copies every KDA layer's state, and nothing else, into one buffer. */
  method SaveKda(m: Model, cache: seq<LayerCache>, ghost inputs: seq<Hidden>) returns (buf: map<nat, KdaState>)
    requires PlanesHold(m, cache, inputs)
    ensures buf == KdaStates(m, inputs)
  {
    hide HiddenAt, KdaAfter;
    buf := map[];
    ghost var want := KdaStates(m, inputs);
    for l := 0 to |cache|
      invariant forall k: nat :: k in buf <==> k < l && k in want
      invariant forall k :: k in buf ==> buf[k] == want[k]
    {
      if m.layers[l].Kda? {
        KdaHolds(m, cache, inputs, l);
        buf := buf[l := cache[l].kda];
      }
    }
  }

  /** Clears the recurrent states: with nothing read, every plane is good for the empty history. */
  method ZeroKda(m: Model, cache0: seq<LayerCache>, cap: nat, maxChunk: nat) returns (cache: seq<LayerCache>)
    requires Sized(m, cache0, cap, maxChunk)
    ensures Sized(m, cache, cap, maxChunk) && PlanesHold(m, cache, [])
  {
    cache := cache0;
    for l := 0 to |cache|
      invariant Sized(m, cache, cap, maxChunk)
      invariant forall k {:trigger IsLayer(m, k)} :: IsLayer(m, k) && k < l ==> Holds(m.layers[k], cache[k], [])
    {
      assert IsLayer(m, l);
      if m.layers[l].Kda? {
        cache := cache[l := cache[l].(kda := m.layers[l].zero)];
      }
    }
  }

  // ------------------------------------------------------------------ bookkeeping

  lemma {:induction false} LatestIsAligned(m: Model, snapPos: seq<int>, snapHost: seq<map<nat, KdaState>>,
        inputs: seq<Hidden>, latest: int)
    requires SnapshotsHold(m, snapPos, snapHost, inputs) && IsLatest(latest, snapPos)
    ensures 0 <= latest <= |inputs| && latest % POOL == 0
  {
    hide KdaStates;
    if latest != 0 {
      var i :| 0 <= i < |snapPos| && snapPos[i] == latest;
    }
  }

  // ------------------------------------------------------------------ the engine

  class Runner {
    const model: Model
    const cap: nat
    const maxChunk: nat
    const nSnaps: nat
    const interval: nat

    var pos: nat                              // computed rows
    var hist: seq<int>                        // the tokens they hold
    var cache: seq<LayerCache>
    var xh: seq<Hidden>                       // the current chunk's rows
    var hostLogits: Logits
    var snapHost: seq<map<nat, KdaState>>
    var snapPos: seq<int>                     // -1 when empty
    var snapNext: nat
    var snapLast: int
    var resume: nat
    var images: seq<Image>                    // of the request being served
    var cachedImages: seq<Image>              // of the last request
    ghost var inputs: seq<Hidden>             // what entered the model, position by position

    ghost predicate Configured()
      reads this`cache, this`snapPos, this`snapHost, this`snapNext
    {
      && 1 <= maxChunk && 1 <= interval
      && |snapPos| == |snapHost| == nSnaps && (nSnaps > 0 ==> snapNext < nSnaps)
      && Sized(model, cache, cap, maxChunk)
    }

    ghost predicate Valid()
      reads this`pos, this`hist, this`inputs, this`cachedImages, this`snapLast
      reads this`cache, this`snapPos, this`snapHost, this`snapNext
    {
      && Configured()
      && |hist| == pos == |inputs| <= cap
      && Storable(cachedImages)
      && PlanesHold(model, cache, inputs)
      && SnapshotsHold(model, snapPos, snapHost, inputs)
      && IsLatest(snapLast, snapPos)
    }

    /** The history says which inputs the planes hold. */
    ghost predicate Coherent()
      reads this`hist, this`inputs, this`cachedImages
    {
      && Storable(cachedImages)
      && inputs == Feed(model, [], hist, cachedImages)
    }

    /** Nothing resident and no snapshot, as at the start. */
    ghost predicate Fresh()
      reads this`pos, this`hist, this`inputs, this`snapPos, this`snapNext, this`snapLast
    {
      && pos == 0 && hist == [] && inputs == [] && |snapPos| == nSnaps && snapNext == 0 && snapLast == 0
      && forall i :: 0 <= i < |snapPos| ==> snapPos[i] == -1
    }

    /** How the prefill of a request would begin, by the bookkeeping as it is now. */
    function Begins(prompt: seq<int>, imgs: seq<Image>): (s: Span)
      reads this`hist, this`snapPos, this`snapNext, this`snapLast, this`cachedImages
      ensures |s.ring0| == |snapPos|
    {
      Begin(hist, snapPos, snapNext, snapLast, prompt, PrefixLimit(cachedImages, imgs), cap, interval)
    }

    lemma {:induction false} BeginsProper(prompt: seq<int>, imgs: seq<Image>)
      requires Valid() && nSnaps > 0 && Begins(prompt, imgs).start < Begins(prompt, imgs).end
      ensures Proper(Begins(prompt, imgs)) && Begins(prompt, imgs).gap == RoundUp(interval)
      ensures Begins(prompt, imgs).interval == interval && |Begins(prompt, imgs).ring0| == nSnaps
    {
      hide PlanesHold, Sized, RoundUp, CheckpointBefore, SnapshotsHold, ResumeFor, Extends, PrefixLimit;
      LatestIsAligned(model, snapPos, snapHost, inputs, snapLast);
      var s := Begins(prompt, imgs);
      if Extends(hist, prompt, PrefixLimit(cachedImages, imgs)) {
        assert s.ring0 == snapPos;
      } else if s.start != 0 {
        var i :| 0 <= i < |snapPos| && snapPos[i] == s.start;
        assert s.ring0[i] == s.start;
      }
    }

    lemma {:induction false} BeginsInTime(prompt: seq<int>, imgs: seq<Image>)
      requires Valid() && prompt != []
      ensures Begins(prompt, imgs).start <= Begins(prompt, imgs).end
    {
      hide PlanesHold, Sized, RoundUp, CheckpointBefore, SnapshotsHold, PrefixLimit;
      LatestIsAligned(model, snapPos, snapHost, inputs, snapLast);
    }

    lemma {:induction false} BeginsProperOrNot(prompt: seq<int>, imgs: seq<Image>)
      requires Valid() && Begins(prompt, imgs).start <= Begins(prompt, imgs).end
      ensures Proper(Begins(prompt, imgs)) || NothingToRun(Begins(prompt, imgs))
      ensures Begins(prompt, imgs).gap == RoundUp(interval) && Begins(prompt, imgs).interval == interval
    {
      hide PlanesHold, Sized, RoundUp, CheckpointBefore, SnapshotsHold, ResumeFor, Extends, PrefixLimit, Proper;
      var s := Begins(prompt, imgs);
      if nSnaps > 0 && s.start < s.end { BeginsProper(prompt, imgs); }
      LatestIsAligned(model, snapPos, snapHost, inputs, snapLast);
    }

    lemma {:induction false} BoundsOfBegins(prompt: seq<int>, imgs: seq<Image>)
      requires Valid()
      ensures |snapPos| == nSnaps && |Begins(prompt, imgs).ring0| == nSnaps
      ensures Begins(prompt, imgs).end == Min(|prompt|, cap)
      ensures Begins(prompt, imgs).tail == CheckpointBefore(Min(|prompt|, cap))
    {
      hide PlanesHold, Sized, RoundUp, CheckpointBefore, SnapshotsHold, ResumeFor, Extends, PrefixLimit, ResumePoint;
    }

    lemma {:induction false} PositiveInterval()
      requires Valid()
      ensures interval > 0 && |snapPos| == nSnaps
    {
      hide PlanesHold, SnapshotsHold, Sized;
    }

    lemma {:induction false} FreshBegins(prompt: seq<int>, imgs: seq<Image>)
      requires Fresh() && prompt != []
      ensures Begins(prompt, imgs) ==
              var end := Min(|prompt|, cap);
              Span(0, end, CheckpointBefore(end), interval, RoundUp(interval), 0, 0, snapPos)
    {
      hide PrefixLimit, RoundUp, CheckpointBefore, ResumeFor;
      var s := Begins(prompt, imgs);
      assert s.start == 0;
      assert s.ring0 == snapPos;
    }

    // The ring is as the prefill `s` leaves it.
    predicate HasRing(s: Span, cs: seq<int>)
      reads this`snapPos, this`snapNext, this`snapLast
    {
      (snapPos, snapNext, snapLast) == LeftBy(s, cs)
    }

    constructor (m: Model, cap: nat, maxChunk: nat, nSnaps: nat, interval: nat,
                 planes: seq<LayerCache>, logits: Logits, host: seq<map<nat, KdaState>>)
      requires 1 <= maxChunk && 1 <= interval && Sized(m, planes, cap, maxChunk) && |host| == nSnaps
      ensures Valid() && Coherent() && Fresh()
      ensures model == m && this.cap == cap && this.maxChunk == maxChunk && this.nSnaps == nSnaps
      ensures this.interval == interval
    {
      model, this.cap, this.maxChunk, this.nSnaps, this.interval := m, cap, maxChunk, nSnaps, interval;
      cache, hostLogits, snapHost, xh, images, cachedImages := planes, logits, host, [], [], [];
      snapPos, snapNext, snapLast, resume := seq(nSnaps, _ => -1), 0, 0, 0;
      pos, hist, inputs := 0, [], [];
      new;
      Reset();
    }

    /** Forgets everything: only the recurrent states have to be cleared, the planes may stay stale. */
    method Reset()
      requires Configured()
      modifies this`pos, this`hist, this`cache, this`inputs, this`cachedImages, this`snapPos, this`snapNext,
               this`snapLast
      ensures Valid() && Coherent()
      ensures Fresh()
    {
      hide HiddenAt, PlanesHold, Sized, KdaStates, Valid, Coherent, SnapshotsHold, IsLatest, Storable, Feed;
      snapPos := seq(nSnaps, _ => -1);
      snapNext, snapLast, pos, hist, cachedImages := 0, 0, 0, [], [];
      inputs := [];
      cache := ZeroKda(model, cache, cap, maxChunk);
      EmptyIsValid();
    }

    lemma {:induction false} EmptyIsValid()
      requires Configured() && pos == 0 && hist == [] && inputs == [] && cachedImages == [] && snapLast == 0
      requires PlanesHold(model, cache, []) && snapNext == 0 && forall i :: 0 <= i < |snapPos| ==> snapPos[i] == -1
      ensures Valid() && Coherent() && Fresh()
    {
      hide PlanesHold, Sized;
    }

    lemma {:induction false} PartsAreValid()
      requires Configured() && |hist| == pos == |inputs| <= cap && Storable(cachedImages)
      requires PlanesHold(model, cache, inputs) && SnapshotsHold(model, snapPos, snapHost, inputs)
      requires IsLatest(snapLast, snapPos)
      ensures Valid()
    {
      hide PlanesHold, Sized, SnapshotsHold, IsLatest;
    }

    method SnapCapture(p: nat)
      requires Valid() && p == pos && p > 0 && (forall i :: 0 <= i < |snapPos| ==> snapPos[i] < p)
      modifies this`snapHost, this`snapPos, this`snapNext, this`snapLast
      ensures Valid()
      ensures if nSnaps == 0 || p % POOL != 0 then
                snapPos == old(snapPos) && snapNext == old(snapNext) && snapLast == old(snapLast)
              else
                && snapPos == old(snapPos)[old(snapNext) := p] && snapLast == p
                && snapNext == Following(old(snapNext), nSnaps)
    {
      if nSnaps <= 0 || p % POOL != 0 { return; }
      var buf := SaveKda(model, cache, inputs);
      assert inputs[..pos] == inputs;
      snapHost := snapHost[snapNext := buf];
      snapPos := snapPos[snapNext := p];
      if p > snapLast { snapLast := p; }
      RemainderIs(snapNext, 0, snapNext, nSnaps);
      FollowingIsModular(snapNext, nSnaps);
      snapNext := (snapNext + 1) % nSnaps;
      assert snapPos[old(snapNext)] == p;
    }

    lemma {:induction false} LatestIsUnique(a: int, b: int, ring: seq<int>)
      requires IsLatest(a, ring) && IsLatest(b, ring)
      ensures a == b
    {
    }

    /** Brings the recurrent states back to the planned position; the history is cut afterwards. */
    method Rewind(plan: Plan, prompt: seq<int>, limit: int)
      requires Valid() && prompt != [] && IsPlan(plan, hist, pos, prompt, snapPos, limit)
      modifies this`pos, this`hist, this`cache, this`inputs, this`cachedImages, this`snapPos, this`snapNext,
               this`snapLast,
               this`resume
      ensures resume == plan.resume && Configured()
      ensures plan.resume <= old(pos) && PlanesHold(model, cache, old(inputs)[..plan.resume])
      ensures if !plan.extend && plan.slot < 0 then
                Valid() && Fresh()
              else
                && pos == old(pos) && hist == old(hist) && inputs == old(inputs) && Storable(cachedImages)
                && snapPos == old(snapPos) && snapHost == old(snapHost) && snapLast == old(snapLast)
                && snapNext == old(snapNext)
    {
      hide HiddenAt, IsPlan, PlanesHold, Sized, KdaStates;
      PlanIsSafe(plan, hist, pos, prompt, snapPos, limit);
      if plan.extend {
        assert inputs[..plan.resume] == inputs;
        resume := plan.resume;
      } else if plan.slot >= 0 {
        RewoundPlanesHold(model, cache, cap, maxChunk, inputs, plan.resume, snapHost[plan.slot]);
        cache := LoadKda(cache, snapHost[plan.slot]);
        resume := plan.resume;
      } else {
        Reset();
        assert old(inputs)[..0] == [];
        resume := 0;
      }
      assert resume <= cap;   // so the second reset of the source never happens
    }

    method PrefixBegin(prompt: seq<int>, limit: int) returns (ghost pl: Plan)
      requires Valid() && prompt != []
      modifies this`pos, this`hist, this`cache, this`inputs, this`cachedImages, this`snapPos, this`snapNext,
               this`snapLast,
               this`resume
      ensures Valid() && resume == pos < |prompt| && pos <= old(pos)
      ensures inputs == old(inputs)[..pos] && hist == old(hist)[..pos] == prompt[..pos]
      ensures pos > 0 ==> pos <= limit
      ensures IsPlan(pl, old(hist), old(pos), prompt, old(snapPos), limit) && pl.resume == pos
      ensures snapLast == if pl.extend then old(snapLast) else pos
      ensures snapNext == if !pl.extend && pos == 0 then 0 else old(snapNext)
      ensures |snapPos| == |old(snapPos)|
      ensures forall i :: 0 <= i < |snapPos| ==>
                snapPos[i] == if old(snapPos[i]) > pos then -1 else old(snapPos[i])
    {
      hide HiddenAt, PlanesHold, SnapshotsHold, Sized, Feed, KdaStates, IsPlan, IsLatest;
      var plan := PrefixPlan(hist, pos, prompt, snapPos, limit);
      pl := plan;
      PlanIsSafe(pl, hist, pos, prompt, snapPos, limit);
      SnapshotsArePositive(model, snapPos, snapHost, inputs);
      Rewind(plan, prompt, limit);
      var kept, latest := DiscardSuffix(snapPos, resume);
      SnapshotsAfterDiscard(model, snapPos, kept, snapHost, inputs, resume);
      if plan.extend {
        AllKept(model, snapPos, kept, snapHost, inputs);
        LatestIsUnique(latest, snapLast, kept);
      } else if plan.slot >= 0 {
        LatestIsHere(latest, kept, plan.slot, resume);
      } else {
        NoneKept(latest, kept);
      }
      snapPos, snapLast := kept, latest;
      pos := resume;
      hist := hist[..resume];
      inputs := inputs[..resume];
      PartsAreValid();
    }

    /** Runs tokens at `p`, clamped to the context; the planes gain exactly their inputs. */
    method RunChunk(tokens: seq<int>, p: nat)
      requires Sized(model, cache, cap, maxChunk) && PlanesHold(model, cache, inputs)
      requires p == |inputs| && |tokens| <= maxChunk && Storable(images)
      modifies this`cache, this`xh, this`inputs
      ensures Sized(model, cache, cap, maxChunk) && PlanesHold(model, cache, inputs)
      ensures p >= cap ==> inputs == old(inputs) && xh == old(xh)
      ensures p < cap ==>
                var n := Min(|tokens|, cap - p);
                && inputs == Feed(model, old(inputs), tokens[..n], images)
                && |inputs| == p + n && Enters(model, p, tokens[..n], images, inputs[p..])
                && HiddenAt(model.layers, old(inputs), |model.layers|) + xh
                   == HiddenAt(model.layers, inputs, |model.layers|)
    {
      if p >= cap { return; }
      var n := Min(|tokens|, cap - p);
      hide HiddenAt, PlanesHold, Sized, Feed;
      xh := EmbedChunk(model, images, tokens[..n], p);
      ghost var all := inputs + xh;
      FeedIs(model, inputs, tokens[..n], images, xh);
      FeedEnters(model, inputs, tokens[..n], images, xh);
      assert all[p..] == xh;
      cache, xh := Forward(model, cache, inputs, cap, maxChunk, p, xh);
      inputs := all;
    }

    /** The logits come from the last row of the last chunk. */
    method FinalHead(n: nat)
      requires n == |xh| > 0 && |inputs| >= n
      requires HiddenAt(model.layers, inputs, |model.layers|)[|inputs| - n..] == xh
      modifies this`hostLogits
      ensures hostLogits == LogitsAfter(model, inputs)
    {
      hostLogits := model.head(xh[n - 1]);
    }

    // The ring holds the captures `cs` of the prefill `s`, and those that its walk has not come to are to follow.
    predicate OnTrack(s: Span, cs: seq<int>)
      reads this`pos, this`snapPos, this`snapNext, this`snapLast
    {
      && s.interval == interval && |s.ring0| == nSnaps && (nSnaps > 0 ==> s.next0 < nSnaps)
      && 0 <= s.start && 0 <= s.last0 && 0 <= snapLast && maxChunk > 0
      && HasRing(s, cs)
      && (nSnaps > 0 ==> cs + Walk(s, maxChunk, pos, snapLast) == Taken(s, maxChunk))
    }

    /** The capture that may be due at a chunk's end. */
    method CaptureIfDue(tail: nat, ghost s: Span, ghost cs0: seq<int>, ghost from: nat) returns (ghost cs: seq<int>)
      requires Valid() && s.interval == interval && s.tail == tail && |s.ring0| == nSnaps > 0 && s.next0 < nSnaps
      requires 0 <= s.start && 0 <= s.last0 && maxChunk > 0 && 0 <= snapLast && from < s.end
      requires forall i :: 0 <= i < |snapPos| ==> snapPos[i] < pos
      requires HasRing(s, cs0) && pos == ChunkEnd(s, maxChunk, from, snapLast)
      requires cs0 + Walk(s, maxChunk, from, snapLast) == Taken(s, maxChunk)
      modifies this`snapHost, this`snapPos, this`snapNext, this`snapLast
      ensures Valid() && OnTrack(s, cs)
    {
      hide HiddenAt, PlanesHold, SnapshotsHold, Sized, Feed, KdaStates, IsLatest, RingAfter, Taken, Valid, ChunkEnd;
      cs := cs0;
      ghost var last0 := snapLast;
      if pos - snapLast >= interval || pos == tail {
        if pos % POOL == 0 {
          CapturesMore(s, cs, pos);
          cs := cs + [pos];
          assert cs0 + ([pos] + Walk(s, maxChunk, pos, pos)) == cs + Walk(s, maxChunk, pos, pos);
        }
        SnapCapture(pos);
      }
    }

    lemma {:induction false} CapturesMore(s: Span, cs: seq<int>, p: int)
      requires s.next0 < |s.ring0|
      ensures var (ring, next, last) := LeftBy(s, cs);
              next < |ring| && LeftBy(s, cs + [p]) == (ring[next := p], Following(next, |ring|), p)
    {
      assert (cs + [p])[..|cs|] == cs;
    }

    /** One chunk: its tokens join the history. */
    method Append(tokens: seq<int>)
      requires Valid() && Storable(images)
      requires 0 < |tokens| <= maxChunk && pos + |tokens| <= cap
      modifies this`pos, this`hist, this`cache, this`xh, this`inputs
      ensures Valid() && pos == old(pos) + |tokens| && hist == old(hist) + tokens
      ensures inputs == Feed(model, old(inputs), tokens, images)
      ensures HiddenAt(model.layers, old(inputs), |model.layers|) + xh == HiddenAt(model.layers, inputs, |model.layers|)
      ensures forall i :: 0 <= i < |snapPos| ==> snapPos[i] < pos
    {
      hide HiddenAt, PlanesHold, Sized, Feed, KdaStates;
      ghost var before := inputs;
      assert forall i :: 0 <= i < |snapPos| ==> snapPos[i] <= pos;
      RunChunk(tokens, pos);
      assert tokens[..|tokens|] == tokens;
      FeedAt(model, before, tokens, images);
      SnapshotsAfterGrowth(model, snapPos, snapHost, before, inputs);
      pos := pos + |tokens|;
      hist := hist + tokens;
    }

    /** The next chunk of `ids`, cut at the next checkpoint, and the capture that may be due after it. */
    method PrefillStep(ids: seq<int>, tail: nat, ghost s: Span, ghost cs0: seq<int>)
      returns (chunk: nat, ghost cs: seq<int>)
      requires Valid() && Storable(images) && ids != [] && pos + |ids| <= cap
      requires tail == s.tail && s.end == pos + |ids| && OnTrack(s, cs0)
      modifies this`pos, this`hist, this`cache, this`xh, this`inputs,
               this`snapHost, this`snapPos, this`snapNext, this`snapLast
      ensures Valid() && 0 < chunk <= |ids| && pos == old(pos) + chunk
      ensures hist == old(hist) + ids[..chunk]
      ensures inputs == Feed(model, old(inputs), ids[..chunk], images)
      ensures |xh| == chunk && HiddenAt(model.layers, inputs, |model.layers|)[pos - chunk..] == xh
      ensures OnTrack(s, cs)
    {
      hide HiddenAt, PlanesHold, SnapshotsHold, Sized, Feed, RoundUp, KdaStates, Walk, Taken, LeftBy;
      var byInterval := if nSnaps > 0 then RoundUp(snapLast + interval) else 0;
      chunk := ChunkSize(maxChunk, |ids|, pos, byInterval, if nSnaps > 0 then tail else 0);
      Append(ids[..chunk]);
      cs := cs0;
      if nSnaps > 0 {
        cs := CaptureIfDue(tail, s, cs, pos - chunk);
      }
    }

    // The prefill that would run `n` tokens from here.
    function FromHere(n: nat): (s: Span)
      reads this`pos, this`snapPos, this`snapNext, this`snapLast
    {
      var end := pos + n;
      Span(pos, end, CheckpointBefore(end), interval, RoundUp(interval), snapLast, snapNext, snapPos)
    }

    lemma {:induction false} StartsOnTrack(n: nat)
      requires Valid()
      ensures OnTrack(FromHere(n), [])
    {
      hide PlanesHold, Sized, SnapshotsHold, Walk;
    }

    /** Chunk by chunk, with a capture at every checkpoint; the ring then holds what the walk says. */
    method Prefill(ids: seq<int>)
      requires Valid() && Storable(images)
      modifies this`pos, this`hist, this`cache, this`xh, this`inputs, this`hostLogits,
               this`snapHost, this`snapPos, this`snapNext, this`snapLast
      ensures Valid() && pos == old(pos) + Min(|ids|, cap - old(pos))
      ensures hist == old(hist) + ids[..pos - old(pos)]
      ensures inputs == Feed(model, old(inputs), ids[..pos - old(pos)], images)
      ensures pos > old(pos) ==> hostLogits == LogitsAfter(model, inputs)
      ensures var s := old(FromHere(Min(|ids|, cap - pos)));
              maxChunk > 0 && 0 <= s.last0 && HasRing(s, Taken(s, maxChunk))
    {
      hide HiddenAt, PlanesHold, SnapshotsHold, Sized, Feed, LogitsAfter, Valid, Storable, Walk, HasRing,
           CheckpointBefore,
           RoundUp, Taken;
      ghost var inputs0, inputsNow := inputs, inputs;
      ValidBounds();
      var n := Min(|ids|, cap - pos);
      assert ids[..0] == [];
      FeedNothing(model, inputs, images);
      assert hist + [] == hist;
      ghost var s, cs := FromHere(n), [];
      StartsOnTrack(n);
      if n <= 0 { TrackEnds(s, cs); return; }
      var tail := CheckpointBefore(pos + n);
      var done, last := 0, 0;
      while done < n
        invariant 0 <= done <= n && pos == old(pos) + done && Valid()
        invariant hist == old(hist) + ids[..done] && inputs == inputsNow == Feed(model, inputs0, ids[..done], images)
        invariant done > 0 ==> 0 < last == |xh| <= pos == |inputs| &&
                               HiddenAt(model.layers, inputs, |model.layers|)[pos - last..] == xh
        invariant OnTrack(s, cs)
      {
        var chunk;
        chunk, cs := PrefillStep(ids[done..n], tail, s, cs);
        ghost var piece := ids[done..n][..chunk];
        PrefixOfSlice(ids, done, n, chunk);
        FeedPiece(model, inputs0, inputsNow, old(hist), old(hist) + ids[..done], ids, piece, done, done + chunk,
            images);
        inputsNow := Feed(model, inputsNow, piece, images);
        ValidBounds();
        done, last := done + chunk, chunk;
      }
      ValidBounds();
      TrackEnds(s, cs);
      FinalHead(last);
    }

    lemma {:induction false} TrackEnds(s: Span, cs: seq<int>)
      requires OnTrack(s, cs) && pos == s.end && |snapPos| == nSnaps
      ensures HasRing(s, Taken(s, maxChunk))
    {
      hide RingAfter, Taken;
      assert cs + [] == cs;
    }

    lemma {:induction false} ValidBounds()
      requires Valid()
      ensures pos == |hist| == |inputs| <= cap && |snapPos| == nSnaps && maxChunk > 0
    {
      hide PlanesHold, SnapshotsHold, Sized, IsLatest;
    }

    /** Settles how much of the prompt is reused, and brings the bookkeeping there. */
    method Resume(prompt: seq<int>, imgs: seq<Image>)
      requires Valid() && prompt != [] && Storable(imgs)
      modifies this
      ensures Valid() && images == cachedImages == imgs && resume == pos < |prompt| && hist == prompt[..pos]
      ensures pos <= old(pos) && inputs == old(inputs)[..pos]
      ensures old(Coherent()) && (Compatible(old(cachedImages), imgs) || pos == 0) ==>
                inputs == Feed(model, [], prompt[..pos], imgs)
      ensures var s := old(Begins(prompt, imgs));
              pos == s.start && snapPos == s.ring0 && snapNext == s.next0 && snapLast == s.last0
    {
      hide HiddenAt, PlanesHold, SnapshotsHold, Sized, Feed, IsPlan, KdaStates, IsLatest, Unambiguous, ResumePoint,
           Extends,
           PrefixLimit;
      var limit := ImagePrefixLimit(cachedImages, imgs);
      images := imgs;
      ghost var hist0, images0, ring0, coherent := hist, cachedImages, snapPos, Coherent();
      ghost var pl := PrefixBegin(prompt, limit);
      PlanIsDetermined(pl, hist0, prompt, ring0, limit);
      if coherent && pos == 0 {
        assert prompt[..0] == [];
      } else if coherent && Compatible(images0, imgs) {
        ReusedInputs(model, hist0, prompt, images0, imgs, limit, pos);
      }
      cachedImages := imgs;
    }

    /** The whole prompt enters the planes, reusing of it what the history already holds. */
    method Ingest(prompt: seq<int>, imgs: seq<Image>)
      requires Valid() && prompt != [] && Storable(imgs)
      modifies this
      ensures Valid() && images == cachedImages == imgs
      ensures pos == Min(|prompt|, cap) && hist == prompt[..pos] && resume < |prompt|
      ensures old(Coherent()) && (Compatible(old(cachedImages), imgs) || resume == 0) ==>
                inputs == Feed(model, [], prompt[..pos], imgs)
      ensures resume <= old(pos) && resume <= pos && inputs[..resume] == old(inputs)[..resume]
      ensures pos < cap ==> pos > 0 && hostLogits == LogitsAfter(model, inputs)
      ensures var s := old(Begins(prompt, imgs));
              && resume == s.start && s.end == pos && 0 <= s.last0 && maxChunk > 0
              && HasRing(s, Taken(s, maxChunk))
    {
      hide HiddenAt, PlanesHold, SnapshotsHold, Sized, Feed, LogitsAfter, CheckpointBefore, Valid, Coherent,
           ResumePoint,
           Extends, PrefixLimit, Compatible, Unambiguous, HasRing, Taken, RoundUp;
      Resume(prompt, imgs);
      ghost var start, kept := pos, inputs;
      var rest := prompt[pos..];
      ValidBounds();
      ghost var s := FromHere(Min(|rest|, cap - pos));
      Prefill(rest);
      assert prompt[..start] + rest[..pos - start] == prompt[..pos];
      FeedJoin(model, [], prompt[..start], rest[..pos - start], imgs);
      FeedAt(model, kept, rest[..pos - start], imgs);
      ValidBounds();
    }

    /** A request: the prompt is ingested, then tokens are sampled and decoded one by one. */
    method Generate(prompt: seq<int>, p: GenParams, imgs: seq<Image>) returns (r: Outcome)
      requires Valid()
      modifies this
      ensures Valid()
      ensures r.ImageMismatch? <==> prompt != [] && !AllWellFormed(imgs, |prompt|, model.hidden)
      ensures prompt == [] ==> r == Tokens([])
      ensures !Accepted(model, prompt, imgs) ==> cachedImages == old(cachedImages) && (old(Coherent()) ==> Coherent())
      ensures Accepted(model, prompt, imgs) ==> cachedImages == imgs
      ensures Accepted(model, prompt, imgs) && old(Coherent())
                && (Compatible(old(cachedImages), imgs) || resume == 0) ==>
                Coherent() && r == Tokens(ColdGenerate(model, cap, p, prompt, imgs))
      ensures Accepted(model, prompt, imgs) ==>
                var s := old(Begins(prompt, imgs));
                && resume == s.start < |prompt| && s.end <= pos && hist[..s.end] == prompt[..s.end]
                && resume <= old(pos) && inputs[..resume] == old(inputs)[..resume]
                && 0 <= s.last0 && maxChunk > 0 && HasRing(s, Taken(s, maxChunk))
                && r.Tokens? && pos - s.end <= |r.out| && hist[s.end..] == r.out[..pos - s.end]
                && (GoesOn(p) && s.end + p.maxTokens <= cap ==> pos == s.end + p.maxTokens - 1)
    {
      hide HiddenAt, PlanesHold, SnapshotsHold, Sized, Feed, LogitsAfter, Valid, ColdGenerate, CheckpointBefore,
           ResumePoint, Extends, PrefixLimit, AllWellFormed, Compatible, Unambiguous, HasRing, Taken, RoundUp, GoesOn;
      if prompt == [] { return Tokens([]); }
      if !AllWellFormed(imgs, |prompt|, model.hidden) { return ImageMismatch; }
      WellFormedIsStorable(imgs, |prompt|, model.hidden);
      ghost var exact := Coherent();
      ghost var images0 := cachedImages;
      ghost var s := Begins(prompt, imgs);
      Ingest(prompt, imgs);
      exact := exact && (Compatible(images0, imgs) || resume == 0);
      ValidBounds();
      assert prompt[..|prompt|] == prompt;
      var out := Sample(prompt, p, exact);
      ValidBounds();
      images := [];
      r := Tokens(out);
    }

    method Sample(prompt: seq<int>, p: GenParams, ghost exact: bool) returns (out: seq<int>)
      requires Valid() && images == cachedImages && prompt != [] && Storable(images)
      requires pos == Min(|prompt|, cap) && hist == prompt[..pos]
      requires pos < cap ==> pos > 0 && hostLogits == LogitsAfter(model, inputs)
      requires exact ==> inputs == Feed(model, [], prompt[..pos], images)
      modifies this`pos, this`hist, this`cache, this`xh, this`inputs, this`hostLogits
      ensures Valid() && old(pos) <= pos && pos - old(pos) <= |out| && hist == old(hist) + out[..pos - old(pos)]
      ensures |old(inputs)| <= |inputs| && inputs[..|old(inputs)|] == old(inputs)
      ensures GoesOn(p) && old(pos) + p.maxTokens <= cap ==> pos == old(pos) + p.maxTokens - 1
      ensures exact ==> Coherent() && out == ColdGenerate(model, cap, p, prompt, images)
    {
      hide HiddenAt, PlanesHold, SnapshotsHold, Sized, Feed, LogitsAfter;
      out := [];
      var st := p.sampler.start;
      var recent := prompt;
      ghost var cold := ColdGenerate(model, cap, p, prompt, images);
      var i := 0;
      while i < p.maxTokens
        invariant Valid() && i == |out| && (p.maxTokens > 0 ==> i < p.maxTokens)
        invariant pos == old(pos) + i && hist == old(hist) + out
        invariant |old(inputs)| <= |inputs| && inputs[..|old(inputs)|] == old(inputs)
        invariant pos < cap ==> pos > 0 && hostLogits == LogitsAfter(model, inputs)
        invariant exact ==> inputs == Feed(model, [], hist, images)
        invariant exact ==> cold == ColdTail(model, cap, p, images, inputs, st, recent, out)
        decreases p.maxTokens - i
      {
        if pos >= cap { break; }
        var (tok, st') := p.sampler.next(st, hostLogits, recent);
        if tok == p.eos && !p.ignoreEos { break; }
        st := st';
        out := out + [tok];
        recent := recent + [tok];
        if !p.proceed(out) { break; }
        if |out| >= p.maxTokens { break; }
        FeedOne(model, inputs, tok, images);
        FeedJoin(model, [], hist, [tok], images);
        FeedAt(model, inputs, [tok], images);
        Decode([tok]);
        i := i + 1;
      }
    }

    /** Tokens that extend the sequence. */
    method Decode(ids: seq<int>)
      requires Valid() && Storable(images)
      requires 0 < |ids| <= maxChunk && pos + |ids| <= cap
      modifies this`pos, this`hist, this`cache, this`xh, this`inputs, this`hostLogits
      ensures Valid() && pos == old(pos) + |ids| && hist == old(hist) + ids
      ensures inputs == Feed(model, old(inputs), ids, images)
      ensures hostLogits == LogitsAfter(model, inputs)
    {
      hide HiddenAt, PlanesHold, SnapshotsHold, Sized, Feed, LogitsAfter;
      Append(ids);
      FinalHead(|ids|);
    }
  }

  // Nothing but the number of tokens ends the generation.
  ghost predicate GoesOn(p: GenParams) {
    p.maxTokens > 0 && p.ignoreEos && forall out :: p.proceed(out)
  }

  lemma {:induction false} PrefixOfSlice(ids: seq<int>, a: nat, b: nat, k: nat)
    requires a <= b <= |ids| && k <= b - a
    ensures ids[a..b][..k] == ids[a..a + k]
  {
  }

  // A request that is served rather than turned away.
  predicate Accepted(m: Model, prompt: seq<int>, imgs: seq<Image>) {
    prompt != [] && AllWellFormed(imgs, |prompt|, m.hidden)
  }

  lemma {:induction false} WellFormedIsStorable(imgs: seq<Image>, n: nat, hidden: nat)
    requires AllWellFormed(imgs, n, hidden)
    ensures Storable(imgs)
  {
  }

  /** A prefix that is reused under other images is the prefix they would have produced. */
  lemma {:induction false} ReusedInputs(m: Model, hist: seq<int>, prompt: seq<int>, before: seq<Image>, now: seq<Image>,
                                        limit: int, resume: nat)
    requires Storable(before) && Storable(now) && Compatible(before, now) && Bounded(limit, before, now)
    requires resume <= |hist| && resume <= |prompt| && hist[..resume] == prompt[..resume]
    requires resume > 0 ==> resume <= limit
    ensures Feed(m, [], hist, before)[..resume] == Feed(m, [], prompt[..resume], now)
  {
    FeedAt(m, [], hist, before);
    FeedAt(m, [], prompt[..resume], now);
    forall p | 0 <= p < resume
      ensures Feed(m, [], hist, before)[p] == Feed(m, [], prompt[..resume], now)[p]
    {
      assert hist[p] == hist[..resume][p] == prompt[..resume][p];
      ReuseIsSound(before, now, limit, p);
    }
  }

  lemma {:induction false} FeedOne(m: Model, base: seq<Hidden>, tok: int, images: seq<Image>)
    requires Storable(images)
    ensures Feed(m, base, [tok], images) == base + [InputAt(m, tok, images, |base|)]
  {
  }

  lemma {:induction false} FeedNothing(m: Model, base: seq<Hidden>, images: seq<Image>)
    requires Storable(images)
    ensures Feed(m, base, [], images) == base
  {
  }

  // ------------------------------------------------------------------ runs of requests

  datatype Request = Request(prompt: seq<int>, params: GenParams, images: seq<Image>)

  /** What an engine without any history answers. */
  function ColdAnswer(m: Model, cap: nat, q: Request): Outcome {
    if q.prompt == [] then Tokens([])
    else if !AllWellFormed(q.images, |q.prompt|, m.hidden) then ImageMismatch
    else Tokens(ColdGenerate(m, cap, q.params, q.prompt, q.images))
  }

  /**
   Of every two accepted requests in a row, one has unambiguous images, or both have the same; `before` are
   the images of the last one accepted.
  */
  ghost predicate Flow(m: Model, before: seq<Image>, requests: seq<Request>)
    requires Storable(before)
    decreases |requests|
  {
    requests == [] ||
      var q := requests[0];
      if Accepted(m, q.prompt, q.images) then Compatible(before, q.images) && Flow(m, q.images, requests[1..])
      else Flow(m, before, requests[1..])
  }

  /** Requests are served one after another by one engine, and each is answered as if it were the first. */
  method Serve(engine: Runner, requests: seq<Request>) returns (answers: seq<Outcome>)
    requires engine.Valid() && engine.Coherent() && Flow(engine.model, engine.cachedImages, requests)
    modifies engine
    ensures engine.Valid() && engine.Coherent()
    ensures |answers| == |requests|
    ensures forall i :: 0 <= i < |requests| ==> answers[i] == ColdAnswer(engine.model, engine.cap, requests[i])
  {
    hide HiddenAt, PlanesHold, SnapshotsHold, Sized, Feed, ColdGenerate, Compatible;
    answers := [];
    assert requests[0..] == requests;
    for i := 0 to |requests|
      invariant engine.Valid() && engine.Coherent() && Flow(engine.model, engine.cachedImages, requests[i..])
      invariant |answers| == i
      invariant forall k :: 0 <= k < i ==> answers[k] == ColdAnswer(engine.model, engine.cap, requests[k])
    {
      var q := requests[i];
      assert requests[i..][0] == q && requests[i..][1..] == requests[i + 1..];
      var r := engine.Generate(q.prompt, q.params, q.images);
      answers := answers + [r];
    }
  }

  /** Enough for that: no request has images that disagree. */
  lemma {:induction false} UnambiguousFlows(m: Model, before: seq<Image>, requests: seq<Request>)
    requires Storable(before)
    requires forall q :: q in requests && Accepted(m, q.prompt, q.images) ==>
              Storable(q.images) && Unambiguous(q.images)
    ensures Flow(m, before, requests)
    decreases |requests|
  {
    hide Unambiguous;
    if requests != [] {
      var q := requests[0];
      UnambiguousFlows(m, if Accepted(m, q.prompt, q.images) then q.images else before, requests[1..]);
    }
  }

  // ------------------------------------------------------------------ how much a later request replays

  /**
   The same prompt with the same images again, whatever was resident before and whatever was generated in
   between: where it resumes, and that this is its last pool boundary, so that 1 to 4 tokens are replayed, exactly
   when a condition holds of the engine as it was before the first of the two.
  */
  method Resend(engine: Runner, prompt: seq<int>, p: GenParams, again: GenParams, images: seq<Image>)
    requires engine.Valid() && |prompt| <= engine.cap && |prompt| <= INT_MAX
    requires Accepted(engine.model, prompt, images)
    modifies engine
    ensures engine.Valid() && engine.cachedImages == images
    ensures var s, tail := old(engine.Begins(prompt, images)), CheckpointBefore(|prompt|);
      && 1 <= |prompt| - tail <= POOL && engine.maxChunk > 0 && 0 <= s.last0
      && engine.resume == ResumeFor(LeftBy(s, Taken(s, engine.maxChunk)).0, |prompt| - 1)
      && (engine.resume == tail <==> tail == 0 || (engine.nSnaps > 0 && TailKept(s)))
  {
    hide HiddenAt, PlanesHold, SnapshotsHold, Sized, Feed, ColdGenerate, TailKept, Runner.Valid, Runner.Coherent, Taken,
         ResumePoint, ResumeFor, Extends, PrefixLimit, RoundUp, GoesOn, Proper;
    ghost var s := engine.Begins(prompt, images);
    engine.BoundsOfBegins(prompt, images);
    if s.start < s.end && engine.nSnaps > 0 { engine.BeginsProper(prompt, images); }
    var r := engine.Generate(prompt, p, images);
    ghost var hist, ring := engine.hist, engine.snapPos;
    engine.ValidBounds();
    assert prompt[..|prompt|] == prompt;
    NothingChanged(images);
    ResendReplaysTail(hist, ring, prompt, INT_MAX);
    if engine.nSnaps > 0 { TailStaysIff(s, engine.maxChunk); }
    r := engine.Generate(prompt, again, images);
  }

  /** On an engine without history: exactly when no capture at the prompt's end can take the only slot from its tail. */
  method ResendOnFresh(engine: Runner, prompt: seq<int>, p: GenParams, again: GenParams, images: seq<Image>)
    requires engine.Valid() && engine.Fresh() && |prompt| <= engine.cap && |prompt| <= INT_MAX
    requires Accepted(engine.model, prompt, images)
    modifies engine
    ensures var tail := CheckpointBefore(|prompt|);
      engine.resume == tail <==>
        tail == 0 || engine.nSnaps >= 2 || (engine.nSnaps == 1 && (engine.interval > POOL || |prompt| % POOL != 0))
  {
    hide HiddenAt, PlanesHold, SnapshotsHold, Sized, Feed, ColdGenerate, Runner.Valid, Runner.Coherent, Taken,
         ResumePoint,
         ResumeFor, Extends, PrefixLimit, RoundUp;
    engine.FreshBegins(prompt, images);
    Resend(engine, prompt, p, again, images);
  }

  /**
   A second prompt with the same images that shares exactly `c` tokens with the first and parts from it there: where
   it resumes, and how far that is below `c`, in terms of the engine as it was before the first.
  */
  method Branch(engine: Runner, first: Request, second: Request, c: nat)
    requires engine.Valid() && first.images == second.images && |second.prompt| <= INT_MAX
    requires Accepted(engine.model, first.prompt, first.images) && Accepted(engine.model, second.prompt, second.images)
    requires SharesExactly(first.prompt, second.prompt, c)
    requires c < |first.prompt| && c < engine.cap && c < |second.prompt|
    modifies engine
    ensures engine.Valid() && engine.cachedImages == first.images
    ensures var s := old(engine.Begins(first.prompt, first.images));
      && engine.maxChunk > 0 && 0 <= s.last0
      && var cs := Taken(s, engine.maxChunk); var ring := LeftBy(s, cs).0;
      && engine.resume == ResumeFor(ring, c)
      && (InReach(s, ring, cs, c) ==> c - engine.resume < RoundUp(engine.interval))
      && (c == s.start >= s.last0 + RoundUp(engine.interval) ==> c - engine.resume >= RoundUp(engine.interval))
      && (s.end - s.last0 < engine.nSnaps * engine.interval ==> |cs| <= engine.nSnaps)
  {
    hide HiddenAt, PlanesHold, SnapshotsHold, Sized, Feed, ColdGenerate, Runner.Valid, Runner.Coherent, Taken,
         ResumePoint,
         ResumeFor, Extends, PrefixLimit, RoundUp, GoesOn, Proper, InReach;
    ghost var s := engine.Begins(first.prompt, first.images);
    engine.BoundsOfBegins(first.prompt, first.images);
    engine.ValidBounds();
    engine.BeginsInTime(first.prompt, first.images);
    engine.BeginsProperOrNot(first.prompt, first.images);
    LaterDivergence(s, engine.maxChunk, c);
    var r := engine.Generate(first.prompt, first.params, first.images);
    ghost var hist, ring := engine.hist, engine.snapPos;
    engine.ValidBounds();
    SharesMore(first.prompt, hist, second.prompt, s.end, c);
    NothingChanged(first.images);
    PartingResumes(hist, ring, second.prompt, INT_MAX, c);
    r := engine.Generate(second.prompt, second.params, second.images);
  }

  /** What parts from the prompt parts from every history that begins as the prompt does. */
  lemma {:induction false} SharesMore(a: seq<int>, hist: seq<int>, b: seq<int>, n: nat, c: nat)
    requires SharesExactly(a, b, c) && c < n <= |a| && n <= |hist| && hist[..n] == a[..n] && c < |b|
    ensures SharesExactly(hist, b, c)
  {
    assert hist[..c] == hist[..n][..c] && a[..c] == a[..n][..c];
    assert hist[c] == hist[..n][c] && a[c] == a[..n][c];
  }

  /** On an engine without history whose ring has a slot for every interval of the prompt, no branch rewinds further. */
  method BranchOnFresh(engine: Runner, first: Request, second: Request, c: nat)
    requires engine.Valid() && engine.Fresh() && first.images == second.images && |second.prompt| <= INT_MAX
    requires Accepted(engine.model, first.prompt, first.images) && Accepted(engine.model, second.prompt, second.images)
    requires SharesExactly(first.prompt, second.prompt, c)
    requires c < |first.prompt| && c < engine.cap && c < |second.prompt|
    requires Min(|first.prompt|, engine.cap) < engine.nSnaps * engine.interval
    modifies engine
    ensures c - engine.resume < RoundUp(engine.interval)
  {
    hide HiddenAt, PlanesHold, SnapshotsHold, Sized, Feed, ColdGenerate, Runner.Valid, Runner.Coherent, Taken,
         ResumePoint,
         ResumeFor, Extends, PrefixLimit, RoundUp;
    engine.FreshBegins(first.prompt, first.images);
    engine.PositiveInterval();
    Branch(engine, first, second, c);
  }

  // ------------------------------------------------------------------ where the bounds fail

  /**
   An ordinary second turn: a prompt of five tokens, decoded to nine, and then those nine with one more.  When the
   ten are sent again they resume at 4, not at their last pool boundary, and six tokens are replayed.
  */
  method SecondTurn(engine: Runner, prompt: seq<int>, tok: int, p: GenParams, p1: GenParams, p2: GenParams)
    requires engine.Valid() && engine.Fresh() && engine.nSnaps > 0 && engine.interval == 8 && engine.maxChunk >= 5
    requires engine.cap >= 10 && |prompt| == 5 && GoesOn(p) && p.maxTokens == 5
    modifies engine
    ensures engine.resume == 4 < CheckpointBefore(10)
  {
    hide HiddenAt, PlanesHold, SnapshotsHold, Sized, Feed, ColdGenerate, Runner.Valid, Runner.Coherent, Taken, GoesOn,
         ResumePoint, ResumeFor, Extends, PrefixLimit;
    engine.FreshBegins(prompt, []);
    ShortTurns(engine.snapPos, 0, engine.maxChunk);
    CapturesOne(engine.Begins(prompt, []), 4);
    ghost var ring0 := engine.snapPos;
    var r := engine.Generate(prompt, p, []);
    engine.ValidBounds();
    var ten := engine.hist + [tok];
    assert engine.snapPos == ring0[0 := 4];
    assert engine.snapPos[0] == 4;
    NothingChanged([]);
    ExtensionBegins(engine.hist, engine.snapPos, engine.snapNext, engine.snapLast, ten, INT_MAX, engine.cap,
        engine.interval);
    UnpassedTailIsLost(engine.snapPos, engine.snapNext, engine.maxChunk);
    Resend(engine, ten, p1, p2, []);
  }

  lemma {:induction false} CapturesOne(s: Span, c: int)
    requires s.next0 < |s.ring0|
    ensures LeftBy(s, [c]) == (s.ring0[s.next0 := c], Following(s.next0, |s.ring0|), c)
    ensures LeftBy(s, []) == (s.ring0, s.next0, s.last0)
  {
    assert RingAfter(s.ring0, s.next0, []) == (s.ring0, s.next0);
    assert [c][..|[c]| - 1] == [];
  }

  /**
   A turn that begins too late: a prompt of three tokens, decoded to nine, and then those nine with one more.  What
   parts from it after nine tokens resumes at 0, more than the interval of eight below.
  */
  method LateTurn(engine: Runner, prompt: seq<int>, tok: int, other: int, p: GenParams, p1: GenParams, p2: GenParams)
    requires engine.Valid() && engine.Fresh() && engine.nSnaps > 0 && engine.interval == 8 && engine.maxChunk >= 5
    requires engine.cap >= 10 && |prompt| == 3 && GoesOn(p) && p.maxTokens == 7 && tok != other
    modifies engine
    ensures engine.resume == 0
  {
    hide HiddenAt, PlanesHold, SnapshotsHold, Sized, Feed, ColdGenerate, Runner.Valid, Runner.Coherent, Taken, GoesOn,
         ResumePoint, ResumeFor, Extends, PrefixLimit, InReach;
    engine.FreshBegins(prompt, []);
    ShortTurns(engine.snapPos, 0, engine.maxChunk);
    CapturesOne(engine.Begins(prompt, []), 4);
    var r := engine.Generate(prompt, p, []);
    engine.ValidBounds();
    var ten, another := engine.hist + [tok], engine.hist + [other];
    NothingChanged([]);
    ExtensionBegins(engine.hist, engine.snapPos, engine.snapNext, engine.snapLast, ten, INT_MAX, engine.cap,
        engine.interval);
    assert ten[..9] == engine.hist == another[..9];
    Branch(engine, Request(ten, p1, []), Request(another, p2, []), 9);
  }

  /** The same prompt under other images that the limit cannot tell apart: what entered the model first is kept. */
  method KeptRow(engine: Runner, prompt: seq<int>, first: seq<Image>, second: seq<Image>, k: nat, p: GenParams,
          p1: GenParams)
    requires engine.Valid() && engine.Coherent() && engine.Fresh() && engine.nSnaps >= 2
    requires |prompt| <= engine.cap && |prompt| <= INT_MAX && k < CheckpointBefore(|prompt|)
    requires AllWellFormed(first, |prompt|, engine.model.hidden) && AllWellFormed(second, |prompt|, engine.model.hidden)
    requires PrefixLimit(first, second) == INT_MAX && Storable(first)
    modifies engine
    ensures engine.Valid() && engine.cachedImages == second && engine.resume == CheckpointBefore(|prompt|)
    ensures k < |engine.inputs| == |engine.hist| && engine.hist[k] == prompt[k]
    ensures engine.inputs[k] == InputAt(engine.model, prompt[k], first, k)
  {
    hide HiddenAt, PlanesHold, SnapshotsHold, Sized, Feed, ColdGenerate, Runner.Valid, Taken, GoesOn, InputAt, LeftBy,
         ResumePoint, ResumeFor, Extends, PrefixLimit, RoundUp, CheckpointBefore, Compatible, Unambiguous,
             AllWellFormed;
    engine.FreshBegins(prompt, first);
    ghost var s := engine.Begins(prompt, first);
    TailIsPositive(|prompt|, k);
    engine.BeginsProper(prompt, first);
    engine.PositiveInterval();
    var r := engine.Generate(prompt, p, first);
    engine.ValidBounds();
    assert prompt[..|prompt|] == prompt;
    TailStaysIff(s, engine.maxChunk);
    ResendReplaysTail(engine.hist, engine.snapPos, prompt, INT_MAX);
    assert engine.hist[k] == prompt[k];
    FeedAt(engine.model, [], engine.hist, first);
    ghost var inputs := engine.inputs;
    r := engine.Generate(prompt, p1, second);
    engine.ValidBounds();
    assert engine.inputs[k] == engine.inputs[..engine.resume][k] == inputs[..engine.resume][k];
    assert engine.hist[k] == engine.hist[..|prompt|][k];
  }

  lemma {:induction false} TailIsPositive(n: nat, k: nat)
    requires k < CheckpointBefore(n)
    ensures 0 < CheckpointBefore(n) < n
  {
  }

  /**
   Two images over one position, listed in the other order the second time: what entered the model there the
   first time is kept, and is not what the images now say.
  */
  method StaleImage(engine: Runner, prompt: seq<int>, a: seq<Half>, b: seq<Half>, k: nat, p: GenParams, p1: GenParams)
    requires engine.Valid() && engine.Coherent() && engine.Fresh() && engine.nSnaps >= 2
    requires |prompt| <= engine.cap && |prompt| <= INT_MAX && k < CheckpointBefore(|prompt|)
    requires |a| == |b| == engine.model.hidden && a != b
    modifies engine
    ensures k < engine.resume && k < |engine.inputs| && engine.inputs[k] == engine.model.place(b)
    ensures Storable(engine.cachedImages) && RowAt(engine.cachedImages, k) == Replaced(a)
    ensures engine.model.place(a) != engine.model.place(b) ==> !engine.Coherent()
  {
    hide HiddenAt, PlanesHold, SnapshotsHold, Sized, Feed, Runner.Valid, PrefixLimit, RowAt, AllWellFormed,
         CheckpointBefore;
    var x, y := Image(k, 1, |a|, a), Image(k, 1, |a|, b);
    TailIsPositive(|prompt|, k);
    OverlapEscapesTheLimit(a, b, k, |prompt|);
    KeptRow(engine, prompt, [x, y], [y, x], k, p, p1);
    FeedAt(engine.model, [], engine.hist, [y, x]);
  }
}
