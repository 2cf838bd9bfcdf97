/** Sorting routes by expert. */
module MoeRouting {
  /*
   The sort takes places with atomic cursors, and the order of the increments is up to the hardware.
   Whatever it is, the places must be right.
  */

  import opened Counting

  // ------------------------------------------------------------------ counting routes

  // Among the first `n` routes: those to expert `e`, and those to experts below `e`.
  function CountOf(ids: seq<nat>, e: nat, n: nat): (c: nat)
    requires n <= |ids|
  {
    if n == 0 then 0 else CountOf(ids, e, n - 1) + if ids[n - 1] == e then 1 else 0
  }

  function CountBelow(ids: seq<nat>, e: nat, n: nat): (c: nat)
    requires n <= |ids|
  {
    if n == 0 then 0 else CountBelow(ids, e, n - 1) + if ids[n - 1] < e then 1 else 0
  }

  // Where the block of expert `e` starts.
  function Offset(ids: seq<nat>, e: nat): nat {
    CountBelow(ids, e, |ids|)
  }

  lemma {:induction false} NextOffset(ids: seq<nat>, e: nat, n: nat)
    requires n <= |ids|
    ensures CountBelow(ids, e + 1, n) == CountBelow(ids, e, n) + CountOf(ids, e, n)
  {
    if n > 0 { NextOffset(ids, e, n - 1); }
  }

  lemma {:induction false} OffsetsGrow(ids: seq<nat>, d: nat, e: nat, n: nat)
    requires n <= |ids| && d <= e
    ensures CountBelow(ids, d, n) <= CountBelow(ids, e, n) <= n
    ensures d == 0 ==> CountBelow(ids, d, n) == 0
  {
    if n > 0 { OffsetsGrow(ids, d, e, n - 1); }
  }

  lemma {:induction false} OffsetTotal(ids: seq<nat>, e: nat, n: nat)
    requires n <= |ids| && forall i :: 0 <= i < n ==> ids[i] < e
    ensures CountBelow(ids, e, n) == n
  {
    if n > 0 { OffsetTotal(ids, e, n - 1); }
  }

  /** One thread per expert counts its routes. */
  method MoeCount(ids: seq<nat>, E: nat) returns (count: seq<nat>)
    ensures |count| == E && forall e :: 0 <= e < E ==> count[e] == CountOf(ids, e, |ids|)
  {
    count := [];
    for e := 0 to E
      invariant |count| == e && forall d :: 0 <= d < e ==> count[d] == CountOf(ids, d, |ids|)
    {
      var c := 0;
      for i := 0 to |ids|
        invariant c == CountOf(ids, e, i)
      {
        if ids[i] == e { c := c + 1; }
      }
      count := count + [c];
    }
  }

  method MoeOffset(ids: seq<nat>, count: seq<nat>, E: nat) returns (offset: seq<nat>, expertCount: seq<nat>)
    requires |count| == E && forall e :: 0 <= e < E ==> count[e] == CountOf(ids, e, |ids|)
    ensures |offset| == |expertCount| == E + 1 && expertCount[..E] == count && expertCount[E] == 0
    ensures forall e :: 0 <= e <= E ==> offset[e] == Offset(ids, e)
  {
    hide CountOf, CountBelow;
    offset, expertCount := [], [];
    var acc := 0;
    OffsetsGrow(ids, 0, 0, |ids|);
    for e := 0 to E
      invariant |offset| == |expertCount| == e && expertCount == count[..e] && acc == Offset(ids, e)
      invariant forall d :: 0 <= d < e ==> offset[d] == Offset(ids, d)
    {
      offset := offset + [acc];
      acc := acc + count[e];
      expertCount := expertCount + [count[e]];
      NextOffset(ids, e, |ids|);
    }
    expertCount := expertCount + [0];
    offset := offset + [acc];
  }

  // ------------------------------------------------------------------ the scatter

  // Threads that have taken their place, among the first `n` routed to `e`.
  function Started(ids: seq<nat>, pc: seq<nat>, e: nat, n: nat): nat
    requires n <= |ids| == |pc|
  {
    if n == 0 then 0 else Started(ids, pc, e, n - 1) + if ids[n - 1] == e && pc[n - 1] >= 1 then 1 else 0
  }

  lemma {:induction false} StartedBound(ids: seq<nat>, pc: seq<nat>, i: nat, e: nat, n: nat)
    requires n <= |ids| == |pc| && i < |ids|
    ensures Started(ids, pc, e, n) <= CountOf(ids, e, n)
    ensures i < n && ids[i] == e && pc[i] == 0 ==> Started(ids, pc, e, n) < CountOf(ids, e, n)
  {
    if n > 0 { StartedBound(ids, pc, i, e, n - 1); }
  }

  lemma {:induction false} StartedUpdate(ids: seq<nat>, pc: seq<nat>, i: nat, v: nat, e: nat, n: nat)
    requires n <= |ids| == |pc| && i < |ids| && v >= 1
    ensures Started(ids, pc[i := v], e, n)
         == Started(ids, pc, e, n) + if i < n && ids[i] == e && pc[i] == 0 then 1 else 0
  {
    if n > 0 { StartedUpdate(ids, pc, i, v, e, n - 1); }
  }

  lemma {:induction false} NobodyStarted(ids: seq<nat>, pc: seq<nat>, e: nat, n: nat)
    requires n <= |ids| == |pc| && forall i :: 0 <= i < |pc| ==> pc[i] == 0
    ensures Started(ids, pc, e, n) == 0
  {
    if n > 0 { NobodyStarted(ids, pc, e, n - 1); }
  }

  predicate InBlock(ids: seq<nat>, e: nat, p: nat) {
    Offset(ids, e) <= p < Offset(ids, e + 1)
  }

  lemma {:induction false} BlocksAreDisjoint(ids: seq<nat>, d: nat, e: nat, p: nat)
    requires InBlock(ids, d, p) && InBlock(ids, e, p)
    ensures d == e && p < |ids|
  {
    OffsetsGrow(ids, d + 1, d + 1, |ids|);
    if d < e { OffsetsGrow(ids, d + 1, e, |ids|); }
    if e < d { OffsetsGrow(ids, e + 1, d, |ids|); }
  }

  // What the layer was asked for: routes `i` belong to token `i / topk`.
  datatype Routes<W> = Routes(ids: seq<nat>, weights: seq<W>, topk: nat, experts: nat)

  ghost predicate Proper<W>(r: Routes<W>) {
    && |r.weights| == |r.ids| && r.topk > 0
    && forall i :: 0 <= i < |r.ids| ==> r.ids[i] < r.experts
  }

  function TokenOf(i: nat, topk: nat): nat
    requires topk > 0
  {
    i / topk
  }

  // The progress of the threads: `pc` steps done, places taken.
  ghost predicate Placed<W>(r: Routes<W>, pc: seq<nat>, place: seq<nat>, cursor: seq<nat>)
    requires Proper(r)
  {
    && |pc| == |place| == |r.ids| && |cursor| >= r.experts
    && (forall i :: 0 <= i < |pc| ==> pc[i] <= 4)
    && (forall e :: 0 <= e < r.experts ==> cursor[e] == Offset(r.ids, e) + Started(r.ids, pc, e, |r.ids|))
    && (forall i :: 0 <= i < |pc| && pc[i] >= 1 ==>
          InBlock(r.ids, r.ids[i], place[i]) && place[i] < cursor[r.ids[i]])
    && (forall i, j :: 0 <= i < j < |pc| && pc[i] >= 1 && pc[j] >= 1 ==> place[i] != place[j])
  }

  ghost predicate Written<W>(r: Routes<W>, pc: seq<nat>, place: seq<nat>, tokens: seq<nat>, weights: seq<W>,
        routes: seq<nat>)
    requires Proper(r) && |pc| == |place| == |r.ids|
  {
    && |tokens| == |weights| == |routes| == |r.ids|
    && (forall i :: 0 <= i < |pc| && pc[i] >= 1 ==> place[i] < |r.ids|)
    && (forall i :: 0 <= i < |pc| && pc[i] >= 2 ==> tokens[place[i]] == TokenOf(i, r.topk))
    && (forall i :: 0 <= i < |pc| && pc[i] >= 3 ==> weights[place[i]] == r.weights[i])
    && (forall i :: 0 <= i < |pc| && pc[i] >= 4 ==> routes[i] == place[i])
  }

  /** Taking a place: the cursor of the expert moves on, and no other thread has that place. */
  lemma {:induction false} TakePlace<W>(r: Routes<W>, pc: seq<nat>, place: seq<nat>, cursor: seq<nat>, i: nat)
    requires Proper(r) && Placed(r, pc, place, cursor) && i < |pc| && pc[i] == 0
    ensures var e := r.ids[i];
      && cursor[e] < |r.ids|
      && Placed(r, pc[i := 1], place[i := cursor[e]], cursor[e := cursor[e] + 1])
  {
    var e, n := r.ids[i], |r.ids|;
    hide CountOf, CountBelow, Started;
    StartedBound(r.ids, pc, i, e, n);
    NextOffset(r.ids, e, n);
    assert InBlock(r.ids, e, cursor[e]);
    BlocksAreDisjoint(r.ids, e, e, cursor[e]);
    forall d | 0 <= d < r.experts
      ensures Started(r.ids, pc[i := 1], d, n) == Started(r.ids, pc, d, n) + if d == e then 1 else 0
    {
      StartedUpdate(r.ids, pc, i, 1, d, n);
    }
    forall j | 0 <= j < |pc| && pc[j] >= 1
      ensures place[j] != cursor[e]
    {
      if place[j] == cursor[e] { BlocksAreDisjoint(r.ids, r.ids[j], e, cursor[e]); }
    }
  }

  /** The later steps of a thread do not move anybody. */
  lemma {:induction false} StepOn<W>(r: Routes<W>, pc: seq<nat>, place: seq<nat>, cursor: seq<nat>, i: nat)
    requires Proper(r) && Placed(r, pc, place, cursor) && i < |pc| && 1 <= pc[i] < 4
    ensures Placed(r, pc[i := pc[i] + 1], place, cursor)
  {
    hide CountOf, CountBelow, Started, InBlock;
    forall e | 0 <= e < r.experts
      ensures Started(r.ids, pc[i := pc[i] + 1], e, |r.ids|) == Started(r.ids, pc, e, |r.ids|)
    {
      StartedUpdate(r.ids, pc, i, pc[i] + 1, e, |r.ids|);
    }
  }

  lemma {:induction false} PlacesAreInside<W>(r: Routes<W>, pc: seq<nat>, place: seq<nat>, cursor: seq<nat>)
    requires Proper(r) && Placed(r, pc, place, cursor)
    ensures forall i :: 0 <= i < |pc| && pc[i] >= 1 ==> place[i] < |r.ids|
    ensures forall i, j :: 0 <= i < j < |pc| && pc[i] >= 1 && pc[j] >= 1 ==> place[i] != place[j]
  {
    hide CountBelow, Started, InBlock;
    forall i | 0 <= i < |pc| && pc[i] >= 1
      ensures place[i] < |r.ids|
    {
      BlocksAreDisjoint(r.ids, r.ids[i], r.ids[i], place[i]);
    }
  }

  /** The routes are a bijection into their experts' blocks, and tokens and weights went along. */
  ghost predicate Permuted<W>(r: Routes<W>, tokens: seq<nat>, weights: seq<W>, routes: seq<nat>)
    requires Proper(r)
  {
    && |tokens| == |weights| == |routes| == |r.ids|
    && AllBelow(routes, |r.ids|) && Distinct(routes)
    && forall i :: 0 <= i < |routes| ==>
         && InBlock(r.ids, r.ids[i], routes[i])
         && tokens[routes[i]] == TokenOf(i, r.topk) && weights[routes[i]] == r.weights[i]
  }

  /** Every place is taken. */
  lemma {:induction false} PermutedIsOnto<W>(r: Routes<W>, tokens: seq<nat>, weights: seq<W>, routes: seq<nat>, p: nat)
    returns (i: nat)
    requires Proper(r) && Permuted(r, tokens, weights, routes) && p < |r.ids|
    ensures i < |routes| && routes[i] == p
  {
    hide InBlock, TokenOf;
    Pigeonhole(routes, |routes|);
    assert p in routes;
    i :| i < |routes| && routes[i] == p;
  }

  predicate SomeThread(pc: seq<nat>) {
    exists i :: 0 <= i < |pc| && pc[i] < 4
  }

  function Remaining(pc: seq<nat>): nat {
    if pc == [] then 0
    else Remaining(pc[..|pc| - 1]) + if pc[|pc| - 1] < 4 then 4 - pc[|pc| - 1] else 0
  }

  lemma {:induction false} RemainingStep(pc: seq<nat>, i: nat)
    requires i < |pc| && pc[i] < 4
    ensures Remaining(pc[i := pc[i] + 1]) < Remaining(pc)
  {
    var last := |pc| - 1;
    var pc' := pc[i := pc[i] + 1];
    if i == last {
      assert pc'[..last] == pc[..last];
    } else {
      assert pc'[..last] == pc[..last][i := pc[i] + 1];
      RemainingStep(pc[..last], i);
    }
  }

  // ------------------------------------------------------------------ the steps of a thread

  // Program counters, the places the threads have taken, and the memory they share.
  datatype Threads<W> = Threads(pc: seq<nat>, place: seq<nat>, cursor: seq<nat>,
                                tokens: seq<nat>, weights: seq<W>, routes: seq<nat>)

  ghost predicate Good<W>(r: Routes<W>, s: Threads<W>) {
    Proper(r) && Placed(r, s.pc, s.place, s.cursor) && Written(r, s.pc, s.place, s.tokens, s.weights, s.routes)
  }

  predicate CanStep<W>(r: Routes<W>, s: Threads<W>, i: nat) {
    && |s.weights| == |s.tokens| == |s.routes| == |s.pc| == |s.place| == |r.ids| == |r.weights| && r.topk > 0
    && i < |s.pc| && s.pc[i] < 4
    && (s.pc[i] == 0 ==> r.ids[i] < |s.cursor|)
    && (s.pc[i] >= 1 ==> s.place[i] < |s.tokens|)
  }

  // An atomic increment, then three writes.
  function Step<W>(r: Routes<W>, s: Threads<W>, i: nat): Threads<W>
    requires CanStep(r, s, i)
  {
    var t := s.(pc := s.pc[i := s.pc[i] + 1]);
    if s.pc[i] == 0 then
      var e := r.ids[i];
      t.(place := s.place[i := s.cursor[e]], cursor := s.cursor[e := s.cursor[e] + 1])
    else if s.pc[i] == 1 then t.(tokens := s.tokens[s.place[i] := TokenOf(i, r.topk)])
    else if s.pc[i] == 2 then t.(weights := s.weights[s.place[i] := r.weights[i]])
    else t.(routes := s.routes[i := s.place[i]])
  }

  lemma {:induction false} GoodCanStep<W>(r: Routes<W>, s: Threads<W>, i: nat)
    requires Good(r, s) && i < |s.pc| && s.pc[i] < 4
    ensures CanStep(r, s, i)
  {
    hide CountBelow, Started, InBlock, Offset;
  }

  /** Whichever thread goes next, everything done so far stays right. */
  lemma {:induction false} StepKeepsGood<W>(r: Routes<W>, s: Threads<W>, i: nat)
    requires Good(r, s) && i < |s.pc| && s.pc[i] < 4
    ensures CanStep(r, s, i) && Good(r, Step(r, s, i))
  {
    GoodCanStep(r, s, i);
    hide Placed, Written, TokenOf;
    PlacesAreInside(r, s.pc, s.place, s.cursor);
    if s.pc[i] == 0 { TakePlace(r, s.pc, s.place, s.cursor, i); } else { StepOn(r, s.pc, s.place, s.cursor, i); }
    StepWrites(r, s, i);
  }

  lemma {:induction false} StepWrites<W>(r: Routes<W>, s: Threads<W>, i: nat)
    requires CanStep(r, s, i) && Proper(r) && Written(r, s.pc, s.place, s.tokens, s.weights, s.routes)
    requires s.pc[i] == 0 ==> s.cursor[r.ids[i]] < |r.ids|
    requires forall j, k :: 0 <= j < k < |s.pc| && s.pc[j] >= 1 && s.pc[k] >= 1 ==> s.place[j] != s.place[k]
    ensures var t := Step(r, s, i); Written(r, t.pc, t.place, t.tokens, t.weights, t.routes)
  {
    hide TokenOf;
    var t := Step(r, s, i);
    forall j | 0 <= j < |t.pc|
      ensures t.pc[j] >= 1 ==> t.place[j] < |r.ids|
      ensures t.pc[j] >= 2 ==> t.tokens[t.place[j]] == TokenOf(j, r.topk)
      ensures t.pc[j] >= 3 ==> t.weights[t.place[j]] == r.weights[j]
      ensures t.pc[j] >= 4 ==> t.routes[j] == t.place[j]
    {
      if j != i { assert t.pc[j] == s.pc[j] && t.place[j] == s.place[j]; }
    }
  }

  lemma {:induction false} StartIsGood<W>(r: Routes<W>, s: Threads<W>)
    requires Proper(r) && |s.pc| == |s.place| == |s.tokens| == |s.weights| == |s.routes| == |r.ids|
    requires |s.cursor| >= r.experts && forall e :: 0 <= e < r.experts ==> s.cursor[e] == Offset(r.ids, e)
    requires forall i :: 0 <= i < |s.pc| ==> s.pc[i] == 0
    ensures Good(r, s)
  {
    hide CountBelow, Started, InBlock, Offset;
    forall e | 0 <= e < r.experts
      ensures Started(r.ids, s.pc, e, |r.ids|) == 0
    {
      NobodyStarted(r.ids, s.pc, e, |r.ids|);
    }
  }

  lemma {:induction false} DoneIsPermuted<W>(r: Routes<W>, s: Threads<W>)
    requires Good(r, s) && !SomeThread(s.pc)
    ensures Permuted(r, s.tokens, s.weights, s.routes)
  {
    hide CountBelow, Started, InBlock, Offset, TokenOf;
    forall i | 0 <= i < |s.pc|
      ensures s.pc[i] == 4
    {
      assert !(s.pc[i] < 4);
    }
  }

  /**
   The scatter kernel: a thread per route takes a place with an atomic increment and then makes its
   three writes.  Any thread may take the next step.
  */
  method Scatter<W>(r: Routes<W>, cursor: array<nat>, tokens: array<nat>, weights: array<W>, routes: array<nat>)
    requires Proper(r) && cursor.Length >= r.experts
    requires tokens.Length == weights.Length == routes.Length == |r.ids|
    requires cursor != tokens && cursor != routes && tokens != routes
    requires (weights as object) != cursor && (weights as object) != tokens && (weights as object) != routes
    requires forall e :: 0 <= e < r.experts ==> cursor[e] == Offset(r.ids, e)
    modifies cursor, tokens, weights, routes
    ensures Permuted(r, tokens[..], weights[..], routes[..])
  {
    hide Offset, Remaining, Good, Permuted;
    var pc: seq<nat>, place: seq<nat> := seq(|r.ids|, _ => 0), seq(|r.ids|, _ => 0);
    ghost var s := Threads(pc, place, cursor[..], tokens[..], weights[..], routes[..]);
    StartIsGood(r, s);
    while SomeThread(pc)
      invariant |pc| == |place| == |r.ids|
      invariant s == Threads(pc, place, cursor[..], tokens[..], weights[..], routes[..])
      invariant Good(r, s)
      decreases Remaining(pc)
    {
      var i: nat :| i < |pc| && pc[i] < 4;
      RemainingStep(pc, i);
      StepKeepsGood(r, s, i);
      match pc[i] {
        case 0 =>
          var e := r.ids[i];
          place := place[i := cursor[e]];
          cursor[e] := cursor[e] + 1;
          assert cursor[..] == s.cursor[e := s.cursor[e] + 1];
        case 1 =>
          tokens[place[i]] := TokenOf(i, r.topk);
          assert tokens[..] == s.tokens[place[i] := TokenOf(i, r.topk)];
        case 2 =>
          weights[place[i]] := r.weights[i];
          assert weights[..] == s.weights[place[i] := r.weights[i]];
        case _ =>
          routes[i] := place[i];
          assert routes[..] == s.routes[i := place[i]];
      }
      pc := pc[i := pc[i] + 1];
      s := Step(r, s, i);
    }
    DoneIsPermuted(r, s);
  }
}
