/**
 Where a request resumes in the resident history, as a decision on positions only.
*/
module PrefixPolicy {
  import opened Arithmetic
  import opened Transformer

  /** The last pool boundary strictly before `end`; 0 when there is nothing before it. */
  function CheckpointBefore(end: int): (c: nat)
    ensures c % POOL == 0
    ensures end > 0 ==> c < end && end - c <= POOL
    ensures end <= 0 ==> c == 0
  {
    if end > 0 then (end - 1) / POOL * POOL else 0
  }

  function RoundUp(n: nat): (r: nat)
    ensures n <= r < n + POOL && r % POOL == 0
  {
    var q := (n + POOL - 1) / POOL;
    assert q * POOL <= n + POOL - 1 < q * POOL + POOL;
    q * POOL
  }

  datatype Plan = Plan(common: nat, resume: nat, slot: int, extend: bool)

  // Usable to resume at or below `upTo`.
  predicate Usable(snapPos: seq<int>, i: int, upTo: int)
    requires 0 <= i < |snapPos|
  {
    0 <= snapPos[i] <= upTo && snapPos[i] % POOL == 0
  }

  // The divergence point: the shared prefix, but never the prompt's last token.
  function Divergence(common: nat, prompt: seq<int>): nat {
    if common >= |prompt| then (if |prompt| == 0 then 0 else |prompt| - 1) else common
  }

  /** What a plan must be, without saying how it is found. */
  ghost predicate IsPlan(pl: Plan, hist: seq<int>, pos: nat, prompt: seq<int>, snapPos: seq<int>, limit: int) {
    var bound := Max(0, Min(Min(|hist|, pos), limit));
    var L := Divergence(pl.common, prompt);
    // the shared prefix is common, within bounds and cannot be longer
    && pl.common <= bound && pl.common <= |prompt| && pl.common <= |hist|
    && hist[..pl.common] == prompt[..pl.common]
    && (pl.common == bound || pl.common == |prompt| || hist[pl.common] != prompt[pl.common])
    && (pl.extend <==> L == pos == |hist|)
    && (pl.extend ==> pl.resume == L && pl.slot == -1)
    && (!pl.extend ==>
         if pl.slot == -1 then
           pl.resume == 0 && forall i :: 0 <= i < |snapPos| ==> !Usable(snapPos, i, L)
         else
           && 0 <= pl.slot < |snapPos| && Usable(snapPos, pl.slot, L) && pl.resume == snapPos[pl.slot]
           && forall i :: 0 <= i < |snapPos| && Usable(snapPos, i, L) ==> snapPos[i] <= pl.resume)
  }

  method PrefixPlan(hist: seq<int>, pos: nat, prompt: seq<int>, snapPos: seq<int>, limit: int) returns (pl: Plan)
    ensures IsPlan(pl, hist, pos, prompt, snapPos, limit)
  {
    var ps := |prompt|;
    var lim := Max(0, Min(Min(|hist|, pos), limit));
    var L := 0;
    while L < lim && L < ps && prompt[L] == hist[L]
      invariant 0 <= L <= lim && L <= ps
      invariant hist[..L] == prompt[..L]
    {
      L := L + 1;
    }
    var common := L;
    if L >= ps { L := ps - 1; }
    if L < 0 { L := 0; }
    if L == pos && L == |hist| {
      return Plan(common, L, -1, true);
    }
    var best := -1;
    for i := 0 to |snapPos|
      invariant -1 <= best < i
      invariant best == -1 ==> forall k :: 0 <= k < i ==> !Usable(snapPos, k, L)
      invariant best >= 0 ==> Usable(snapPos, best, L) &&
                              forall k :: 0 <= k < i && Usable(snapPos, k, L) ==> snapPos[k] <= snapPos[best]
    {
      if snapPos[i] >= 0 && snapPos[i] <= L && snapPos[i] % POOL == 0 && (best < 0 || snapPos[i] > snapPos[best]) {
        best := i;
      }
    }
    if best >= 0 {
      pl := Plan(common, snapPos[best], best, false);
    } else {
      pl := Plan(common, 0, -1, false);
    }
  }

  /** A plan never resumes past what is shared, past what is computed, or at the end of the prompt. */
  lemma {:induction false} PlanIsSafe(pl: Plan, hist: seq<int>, pos: nat, prompt: seq<int>, snapPos: seq<int>,
        limit: int)
    requires IsPlan(pl, hist, pos, prompt, snapPos, limit) && |prompt| > 0
    ensures pl.resume <= pl.common && pl.resume < |prompt| && pl.resume <= pos && pl.resume <= |hist|
    ensures pl.resume > 0 ==> pl.resume <= limit
    ensures hist[..pl.resume] == prompt[..pl.resume]
    ensures pl.resume % POOL == 0 || pl.resume == pos
    ensures pl.extend ==> pl.slot == -1 && pl.resume == pos
    ensures pl.slot != -1 ==> 0 <= pl.slot < |snapPos| && snapPos[pl.slot] == pl.resume && pl.resume % POOL == 0
    ensures !pl.extend && pl.slot == -1 ==> pl.resume == 0
  {
    assert hist[..pl.resume] == hist[..pl.common][..pl.resume];
    assert prompt[..pl.resume] == prompt[..pl.common][..pl.resume];
  }

  /** The newest position a ring holds, 0 when it holds none. */
  ghost predicate IsLatest(latest: int, snapPos: seq<int>) {
    && 0 <= latest && (forall i :: 0 <= i < |snapPos| ==> snapPos[i] <= latest)
    && (latest == 0 || latest in snapPos)
  }

  /** Forgets every snapshot of the suffix that the resume abandons. */
  method DiscardSuffix(snapPos0: seq<int>, resume: nat) returns (snapPos: seq<int>, latest: int)
    ensures |snapPos| == |snapPos0|
    ensures forall i :: 0 <= i < |snapPos| ==> snapPos[i] == if snapPos0[i] > resume then -1 else snapPos0[i]
    ensures IsLatest(latest, snapPos)
  {
    snapPos, latest := snapPos0, 0;
    for i := 0 to |snapPos|
      invariant |snapPos| == |snapPos0|
      invariant forall k :: 0 <= k < |snapPos| ==>
                  snapPos[k] == if k < i && snapPos0[k] > resume then -1 else snapPos0[k]
      invariant 0 <= latest && (forall k :: 0 <= k < i ==> snapPos[k] <= latest)
      invariant latest == 0 || latest in snapPos[..i]
    {
      if snapPos[i] > resume { snapPos := snapPos[i := -1]; }
      latest := Max(latest, snapPos[i]);
      assert snapPos[..i + 1] == snapPos[..i] + [snapPos[i]];
    }
  }

  // ------------------------------------------------------------------ what a plan amounts to

  // `c` tokens are shared, and no more.
  predicate SharesExactly(a: seq<int>, b: seq<int>, c: nat) {
    && c <= |a| && c <= |b| && a[..c] == b[..c]
    && (c == |a| || c == |b| || a[c] != b[c])
  }

  lemma {:induction false} SharesAtMost(a: seq<int>, b: seq<int>, c: nat, d: nat)
    requires SharesExactly(a, b, c) && d <= |a| && d <= |b| && a[..d] == b[..d]
    ensures d <= c
  {
    assert forall i :: 0 <= i < d ==> a[i] == a[..d][i] == b[..d][i] == b[i];
  }

  /** How many of the first `bound` tokens are shared. */
  function Shared(hist: seq<int>, prompt: seq<int>, bound: nat): (c: nat)
    requires bound <= |hist|
    ensures c <= bound && c <= |prompt| && hist[..c] == prompt[..c]
    ensures c == bound || c == |prompt| || hist[c] != prompt[c]
  {
    SharedFrom(hist, prompt, bound, 0)
  }

  function SharedFrom(hist: seq<int>, prompt: seq<int>, bound: nat, k: nat): (c: nat)
    requires k <= bound <= |hist| && k <= |prompt| && hist[..k] == prompt[..k]
    ensures k <= c <= bound && c <= |prompt| && hist[..c] == prompt[..c]
    ensures c == bound || c == |prompt| || hist[c] != prompt[c]
    decreases bound - k
  {
    if k < bound && k < |prompt| && hist[k] == prompt[k] then SharedFrom(hist, prompt, bound, k + 1) else k
  }

  // Where a request for `prompt` diverges from the resident tokens, and whether it just extends them.
  function DivergesAt(hist: seq<int>, prompt: seq<int>, limit: int): nat {
    Divergence(Shared(hist, prompt, Max(0, Min(|hist|, limit))), prompt)
  }

  predicate Extends(hist: seq<int>, prompt: seq<int>, limit: int) {
    DivergesAt(hist, prompt, limit) == |hist|
  }

  /** The resume point, as a function of the bookkeeping before the request. */
  function ResumePoint(hist: seq<int>, ring: seq<int>, prompt: seq<int>, limit: int): nat {
    if Extends(hist, prompt, limit) then |hist| else ResumeFor(ring, DivergesAt(hist, prompt, limit))
  }

  /** Every plan goes there. */
  lemma {:induction false} PlanIsDetermined(pl: Plan, hist: seq<int>, prompt: seq<int>, ring: seq<int>, limit: int)
    requires IsPlan(pl, hist, |hist|, prompt, ring, limit)
    ensures pl.resume == ResumePoint(hist, ring, prompt, limit) && (pl.extend <==> Extends(hist, prompt, limit))
  {
    var bound := Max(0, Min(|hist|, limit));
    var c := Shared(hist, prompt, bound);
    LongestIsOne(hist, prompt, bound, c, pl.common);
    hide ResumeFor;
    PlanResumes(pl, hist, |hist|, prompt, ring, limit);
  }

  lemma {:induction false} LongestIsOne(a: seq<int>, b: seq<int>, bound: nat, c: nat, d: nat)
    requires bound <= |a| && c <= bound && c <= |b| && d <= bound && d <= |b| && a[..c] == b[..c] && a[..d] == b[..d]
    requires c == bound || c == |b| || a[c] != b[c]
    requires d == bound || d == |b| || a[d] != b[d]
    ensures c == d
  {
    assert forall i :: 0 <= i < c ==> a[i] == a[..c][i] == b[..c][i] == b[i];
    assert forall i :: 0 <= i < d ==> a[i] == a[..d][i] == b[..d][i] == b[i];
  }

  /**
   With no limit in the way, a prompt that parts from the resident tokens after `c` resumes at the newest
   snapshot there.
  */
  lemma {:induction false} PartingResumes(hist: seq<int>, ring: seq<int>, prompt: seq<int>, limit: int, c: nat)
    requires SharesExactly(hist, prompt, c) && c < |hist| && c < |prompt| <= limit
    ensures ResumePoint(hist, ring, prompt, limit) == ResumeFor(ring, c) && !Extends(hist, prompt, limit)
  {
    LongestIsOne(hist, prompt, Max(0, Min(|hist|, limit)), c, Shared(hist, prompt, Max(0, Min(|hist|, limit))));
  }

  /** The newest usable snapshot at or below `L`; 0 when there is none. */
  function ResumeFor(snapPos: seq<int>, L: nat): (r: nat)
    ensures r <= L && r % POOL == 0 && (r == 0 || r in snapPos)
    ensures forall i :: 0 <= i < |snapPos| && Usable(snapPos, i, L) ==> snapPos[i] <= r
  {
    if snapPos == [] then 0
    else
      var last := |snapPos| - 1;
      assert forall i :: 0 <= i < last && Usable(snapPos, i, L) ==> Usable(snapPos[..last], i, L);
      var r, x := ResumeFor(snapPos[..|snapPos| - 1], L), snapPos[|snapPos| - 1];
      if 0 <= x <= L && x % POOL == 0 && x > r then x else r
  }

  /** A plan resumes at the divergence if it extends the resident history, else at that snapshot. */
  lemma {:induction false} PlanResumes(pl: Plan, hist: seq<int>, pos: nat, prompt: seq<int>, snapPos: seq<int>,
        limit: int)
    requires IsPlan(pl, hist, pos, prompt, snapPos, limit)
    ensures var L := Divergence(pl.common, prompt); pl.resume == if pl.extend then L else ResumeFor(snapPos, L)
  {
    var L := Divergence(pl.common, prompt);
    hide ResumeFor;
    var r := ResumeFor(snapPos, L);
    if !pl.extend && r in snapPos {
      var i :| 0 <= i < |snapPos| && snapPos[i] == r;
      assert Usable(snapPos, i, L);
    }
  }

  /**
   Re-sending a resident prompt resumes at its last pool boundary, and so replays 1 to 4 tokens, exactly when
   there is a snapshot there or nothing to restore.
  */
  lemma {:induction false} ResendReplaysTail(hist: seq<int>, ring: seq<int>, prompt: seq<int>, limit: int)
    requires 0 < |prompt| <= |hist| && hist[..|prompt|] == prompt && limit >= |prompt|
    ensures var tail := CheckpointBefore(|prompt|);
            ResumePoint(hist, ring, prompt, limit) == tail <==> tail == 0 || tail in ring
    ensures ResumePoint(hist, ring, prompt, limit) == ResumeFor(ring, |prompt| - 1) && !Extends(hist, prompt, limit)
  {
    var n := |prompt|;
    assert forall i :: 0 <= i < n ==> hist[i] == hist[..n][i];
    assert Shared(hist, prompt, Max(0, Min(|hist|, limit))) == n;
    NothingBetween(ring, n - 1, CheckpointBefore(n));
  }

  lemma {:induction false} NothingBetween(snapPos: seq<int>, L: nat, tail: nat)
    requires tail <= L < tail + POOL && tail % POOL == 0
    ensures ResumeFor(snapPos, L) == tail <==> tail == 0 || tail in snapPos
  {
    hide ResumeFor;
    if tail in snapPos {
      var i :| 0 <= i < |snapPos| && snapPos[i] == tail;
      assert Usable(snapPos, i, L);
    }
  }
}
