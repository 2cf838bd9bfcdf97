/** Sharing out experts. */
module ExpertTickets {
  /*
   Inside the fused kernel groups of blocks share the experts out among themselves.  Every group scans all
   experts and numbers those it may run; it runs the one whose number is its ticket, and then draws the next
   ticket with an atomic increment.  Groups advance in any order.
  */

  // The experts' token counts, the most tokens an expert may have to be run here, and what belongs into
  // place `p` when it is in the block of expert `e`.
  datatype Work<!V> = Work(count: seq<nat>, most: nat, value: (nat, nat) -> V)

  function Start<V>(w: Work<V>, e: nat): nat
    requires e <= |w.count|
  {
    if e == 0 then 0 else Start(w, e - 1) + w.count[e - 1]
  }

  predicate Runs<V>(w: Work<V>, e: nat) {
    e < |w.count| && 0 < w.count[e] <= w.most
  }

  // The number of an expert: how many before it are run.
  function Number<V>(w: Work<V>, e: nat): nat
    requires e <= |w.count|
  {
    if e == 0 then 0 else Number(w, e - 1) + if Runs(w, e - 1) then 1 else 0
  }

  predicate InBlock<V>(w: Work<V>, e: nat, p: nat) {
    e < |w.count| && Start(w, e) <= p < Start(w, e) + w.count[e]
  }

  lemma {:induction false} StartsGrow<V>(w: Work<V>, d: nat, e: nat)
    requires d <= e <= |w.count|
    ensures Start(w, d) <= Start(w, e)
    ensures d < e ==> Start(w, d) + w.count[d] <= Start(w, e)
  {
    if d < e { StartsGrow(w, d, e - 1); }
  }

  lemma {:induction false} OneBlock<V>(w: Work<V>, d: nat, e: nat, p: nat)
    requires InBlock(w, d, p) && InBlock(w, e, p)
    ensures d == e
  {
    if d < e { StartsGrow(w, d, e); }
    if e < d { StartsGrow(w, e, d); }
  }

  lemma {:induction false} NumbersGrow<V>(w: Work<V>, d: nat, e: nat)
    requires d <= e <= |w.count|
    ensures Number(w, d) <= Number(w, e)
    ensures d < e && Runs(w, d) ==> Number(w, d) < Number(w, e)
  {
    if d < e { NumbersGrow(w, d, e - 1); }
  }

  // ------------------------------------------------------------------ groups

  // The expert a group looks at, where its block starts, how many it has numbered, its ticket, and how many
  // rows of the block it has written.
  datatype Group = Group(expert: nat, start: nat, numbered: nat, ticket: nat, row: nat)

  ghost predicate GroupOk<V>(w: Work<V>, out: seq<V>, issued: nat, g: Group) {
    && g.expert <= |w.count| && g.start == Start(w, g.expert) && g.numbered == Number(w, g.expert)
    && g.numbered <= g.ticket < issued
    && (g.row > 0 ==> Runs(w, g.expert) && g.numbered == g.ticket && g.row <= w.count[g.expert])
    && forall p :: g.start <= p < g.start + g.row && p < |out| ==> out[p] == w.value(g.expert, p)
  }

  ghost predicate Complete<V>(w: Work<V>, out: seq<V>, e: nat) {
    forall p :: 0 <= p < |out| && InBlock(w, e, p) ==> out[p] == w.value(e, p)
  }

  // Every ticket given out so far is held by a group, or its expert is complete.
  ghost predicate Accounted<V>(w: Work<V>, out: seq<V>, groups: seq<Group>, issued: nat) {
    forall e :: Runs(w, e) && Number(w, e) < issued && NobodyHolds(groups, Number(w, e)) ==> Complete(w, out, e)
  }

  predicate NobodyHolds(groups: seq<Group>, ticket: nat) {
    forall i :: 0 <= i < |groups| ==> groups[i].ticket != ticket
  }

  // Places of experts that are not run stay as they were.
  ghost predicate Spared<V>(w: Work<V>, out0: seq<V>, out: seq<V>) {
    |out| == |out0| && forall p :: 0 <= p < |out| && out[p] != out0[p] ==> exists e :: Runs(w, e) && InBlock(w, e, p)
  }

  ghost predicate Good<V>(w: Work<V>, out0: seq<V>, out: seq<V>, groups: seq<Group>, issued: nat) {
    && Start(w, |w.count|) <= |out|
    && (forall i :: 0 <= i < |groups| ==> GroupOk(w, out, issued, groups[i]))
    && Accounted(w, out, groups, issued) && Spared(w, out0, out)
  }

  // What a write of the right value does to the others: nothing.
  lemma {:induction false} RightWrite<V>(w: Work<V>, out: seq<V>, e: nat, p: nat, issued: nat, g: Group, d: nat)
    requires Runs(w, e) && InBlock(w, e, p) && p < |out| && GroupOk(w, out, issued, g)
    ensures GroupOk(w, out[p := w.value(e, p)], issued, g)
    ensures Complete(w, out, d) ==> Complete(w, out[p := w.value(e, p)], d)
  {
    hide Start, Number;
    if g.row > 0 && g.start <= p < g.start + g.row { OneBlock(w, g.expert, e, p); }
    if InBlock(w, d, p) { OneBlock(w, d, e, p); }
  }

  lemma {:induction false} BlockFits<V>(w: Work<V>, e: nat)
    requires e < |w.count|
    ensures Start(w, e) + w.count[e] <= Start(w, |w.count|)
  {
    StartsGrow(w, e, |w.count|);
  }

  // One move of a group; the ticket it would draw is `issued`.
  function Move<V>(w: Work<V>, g: Group, issued: nat): Group
    requires g.expert < |w.count|
  {
    var n := w.count[g.expert];
    if !Runs(w, g.expert) then g.(expert := g.expert + 1, start := g.start + n)
    else if g.numbered != g.ticket then g.(expert := g.expert + 1, start := g.start + n, numbered := g.numbered + 1)
    else if g.row < n then g.(row := g.row + 1)
    else Group(g.expert + 1, g.start + n, g.numbered + 1, issued, 0)
  }

  predicate Writes<V>(w: Work<V>, g: Group) {
    Runs(w, g.expert) && g.numbered == g.ticket && g.row < w.count[g.expert]
  }

  predicate Draws<V>(w: Work<V>, g: Group) {
    Runs(w, g.expert) && g.numbered == g.ticket && g.row >= w.count[g.expert]
  }

  lemma {:induction false} WriteKeepsGood<V>(w: Work<V>, out0: seq<V>, out: seq<V>, groups: seq<Group>, issued: nat,
          i: nat)
    requires Good(w, out0, out, groups, issued) && i < |groups| && Writes(w, groups[i])
    ensures groups[i].start + groups[i].row < |out|
    ensures var g := groups[i]; var p := g.start + g.row;
            Good(w, out0, out[p := w.value(g.expert, p)], groups[i := Move(w, g, issued)], issued)
  {
    hide Start, Number;
    var g := groups[i];
    var p := g.start + g.row;
    BlockFits(w, g.expert);
    var out' := out[p := w.value(g.expert, p)];
    var groups' := groups[i := Move(w, g, issued)];
    forall j | 0 <= j < |groups'|
      ensures GroupOk(w, out', issued, groups'[j])
    {
      RightWrite(w, out, g.expert, p, issued, groups[j], 0);
    }
    forall e | Runs(w, e) && Number(w, e) < issued && NobodyHolds(groups', Number(w, e))
      ensures Complete(w, out', e)
    {
      forall j | 0 <= j < |groups|
        ensures groups[j].ticket != Number(w, e)
      {
        assert groups'[j].ticket == groups[j].ticket;
      }
      RightWrite(w, out, g.expert, p, issued, g, e);
    }
    assert InBlock(w, g.expert, p);
  }

  lemma {:induction false} PassKeepsGood<V>(w: Work<V>, out0: seq<V>, out: seq<V>, groups: seq<Group>, issued: nat,
          i: nat)
    requires Good(w, out0, out, groups, issued) && i < |groups| && groups[i].expert < |w.count|
    requires !Writes(w, groups[i]) && !Draws(w, groups[i])
    ensures Good(w, out0, out, groups[i := Move(w, groups[i], issued)], issued)
  {
    var g := groups[i];
    var groups' := groups[i := Move(w, g, issued)];
    assert GroupOk(w, out, issued, g);
    assert forall j :: 0 <= j < |groups| ==> groups'[j].ticket == groups[j].ticket;
    hide Complete;
  }

  /** The atomic increment: the ticket that is given up has been worked off. */
  lemma {:induction false} DrawKeepsGood<V>(w: Work<V>, out0: seq<V>, out: seq<V>, groups: seq<Group>, issued: nat,
          i: nat)
    requires Good(w, out0, out, groups, issued) && i < |groups| && Draws(w, groups[i])
    ensures Good(w, out0, out, groups[i := Move(w, groups[i], issued)], issued + 1)
  {
    var g := groups[i];
    var groups' := groups[i := Move(w, g, issued)];
    assert GroupOk(w, out, issued, g);
    forall j | 0 <= j < |groups'|
      ensures GroupOk(w, out, issued + 1, groups'[j])
    {
      assert GroupOk(w, out, issued, groups[j]);
    }
    forall e | Runs(w, e) && Number(w, e) < issued + 1 && NobodyHolds(groups', Number(w, e))
      ensures Complete(w, out, e)
    {
      assert groups'[i].ticket == issued;
      if Number(w, e) == g.ticket {
        SameNumber(w, e, g.expert);
      } else {
        forall j | 0 <= j < |groups|
          ensures groups[j].ticket != Number(w, e)
        {
          if j != i { assert groups'[j].ticket == groups[j].ticket; }
        }
      }
    }
  }

  lemma {:induction false} SameNumber<V>(w: Work<V>, d: nat, e: nat)
    requires Runs(w, d) && Runs(w, e) && Number(w, d) == Number(w, e)
    ensures d == e
  {
    if d < e { NumbersGrow(w, d, e); }
    if e < d { NumbersGrow(w, e, d); }
  }

  predicate SomeGroup(groups: seq<Group>, experts: nat) {
    exists i :: 0 <= i < |groups| && groups[i].expert < experts
  }

  /** When every group has scanned to the end, every expert that is run is complete. */
  lemma {:induction false} AllAreDone<V>(w: Work<V>, out0: seq<V>, out: seq<V>, groups: seq<Group>, issued: nat, e: nat)
    requires Good(w, out0, out, groups, issued) && groups != [] && !SomeGroup(groups, |w.count|) && Runs(w, e)
    ensures Complete(w, out, e)
  {
    hide Start, Number, Complete;
    NumbersGrow(w, e, |w.count|);
    forall i | 0 <= i < |groups|
      ensures groups[i].ticket > Number(w, e) && groups[i].ticket < issued
    {
      assert GroupOk(w, out, issued, groups[i]);
      assert !(groups[i].expert < |w.count|);
    }
    assert groups[0].ticket < issued;
  }

  // ------------------------------------------------------------------ any order

  predicate Within<V>(w: Work<V>, g: Group) {
    && g.expert <= |w.count|
    && (g.row > 0 ==> Runs(w, g.expert) && g.numbered == g.ticket && g.row <= w.count[g.expert])
  }

  // Moves from expert `e` on, if all of them were run by one group.
  function MovesFrom<V>(w: Work<V>, e: nat): nat
    requires e <= |w.count|
    decreases |w.count| - e
  {
    if e == |w.count| then 0 else w.count[e] + 1 + MovesFrom(w, e + 1)
  }

  function MovesLeft<V>(w: Work<V>, groups: seq<Group>): int {
    if groups == [] then 0
    else
      var g := groups[|groups| - 1];
      MovesLeft(w, groups[..|groups| - 1]) + if g.expert <= |w.count| then MovesFrom(w, g.expert) - g.row else 0
  }

  lemma {:induction false} MoveShrinks<V>(w: Work<V>, g: Group, issued: nat)
    requires g.expert < |w.count| && Within(w, g)
    ensures var t := Move(w, g, issued);
      t.expert <= |w.count| && MovesFrom(w, t.expert) - t.row < MovesFrom(w, g.expert) - g.row
  {
  }

  lemma {:induction false} LeftShrinks<V>(w: Work<V>, groups: seq<Group>, i: nat, t: Group)
    requires i < |groups| && groups[i].expert <= |w.count| && t.expert <= |w.count|
    requires MovesFrom(w, t.expert) - t.row < MovesFrom(w, groups[i].expert) - groups[i].row
    ensures MovesLeft(w, groups[i := t]) < MovesLeft(w, groups)
  {
    hide MovesFrom;
    var last := |groups| - 1;
    if i == last {
      assert groups[i := t][..last] == groups[..last];
    } else {
      assert groups[i := t][..last] == groups[..last][i := t];
      LeftShrinks(w, groups[..last], i, t);
    }
  }

  lemma {:induction false} LeftIsNatural<V>(w: Work<V>, groups: seq<Group>)
    requires forall i :: 0 <= i < |groups| ==> Within(w, groups[i])
    ensures MovesLeft(w, groups) >= 0
  {
    if groups != [] { LeftIsNatural(w, groups[..|groups| - 1]); }
  }

  lemma {:induction false} GoodLeft<V>(w: Work<V>, out0: seq<V>, out: seq<V>, groups: seq<Group>, issued: nat)
    requires Good(w, out0, out, groups, issued)
    ensures MovesLeft(w, groups) >= 0
    ensures forall i :: 0 <= i < |groups| ==> Within(w, groups[i])
  {
    hide MovesLeft, Start, Number;
    LeftIsNatural(w, groups);
  }

  lemma {:induction false} StartIsGood<V>(w: Work<V>, out: seq<V>, groups: seq<Group>)
    requires Start(w, |w.count|) <= |out|
    requires forall i :: 0 <= i < |groups| ==> groups[i] == Group(0, 0, 0, i, 0)
    ensures Good(w, out, out, groups, |groups|)
  {
    // the first tickets are all held
    forall e | Runs(w, e) && Number(w, e) < |groups|
      ensures groups[Number(w, e)].ticket == Number(w, e)
    {
    }
  }

  /**
   The groups of one launch, advancing in any order: every expert that is run has its whole block written, and
   nothing else is touched.
  */
  method RunGroups<V>(w: Work<V>, nGroups: nat, out: array<V>)
    requires nGroups > 0 && Start(w, |w.count|) <= out.Length
    modifies out
    ensures forall e :: Runs(w, e) ==> Complete(w, out[..], e)
    ensures Spared(w, old(out[..]), out[..])
  {
    hide Good, MovesLeft, MovesFrom, Spared, Complete, Start, Number;
    var groups := seq(nGroups, i requires 0 <= i < nGroups => Group(0, 0, 0, i, 0));
    var next := nGroups;
    ghost var out0 := out[..];
    StartIsGood(w, out0, groups);
    while SomeGroup(groups, |w.count|)
      invariant |groups| == nGroups && Good(w, out0, out[..], groups, next)
      decreases MovesLeft(w, groups)
    {
      var i: nat :| i < |groups| && groups[i].expert < |w.count|;   // the scheduler's choice
      var g := groups[i];
      ghost var before := out[..];
      GoodLeft(w, out0, before, groups, next);
      var moved := Move(w, g, next);
      MoveShrinks(w, g, next);
      LeftShrinks(w, groups, i, moved);
      if Writes(w, g) {
        WriteKeepsGood(w, out0, before, groups, next, i);
        var p := g.start + g.row;
        out[p] := w.value(g.expert, p);
        assert out[..] == before[p := w.value(g.expert, p)];
      } else if Draws(w, g) {
        DrawKeepsGood(w, out0, before, groups, next, i);
        next := next + 1;
      } else {
        PassKeepsGood(w, out0, before, groups, next, i);
      }
      groups := groups[i := moved];
    }
    forall e | Runs(w, e)
      ensures Complete(w, out[..], e)
    {
      AllAreDone(w, out0, out[..], groups, next, e);
    }
    GoodSpares(w, out0, out[..], groups, next);
  }

  lemma {:induction false} GoodSpares<V>(w: Work<V>, out0: seq<V>, out: seq<V>, groups: seq<Group>, issued: nat)
    requires Good(w, out0, out, groups, issued)
    ensures Spared(w, out0, out)
  {
    hide Start, Number, Complete;
  }
}
