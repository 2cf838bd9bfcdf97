/** The ring of snapshots. */
module Captures {
  /*
   A prefill captures the recurrent state at some of its chunk boundaries.  Here is which positions those
   are, which of them the ring still has at the end, and what that means for a later request: how far a
   divergence rewinds, and whether sending the prompt again replays its tail only.
  */

  import opened Arithmetic
  import opened Transformer
  import opened PoolRing
  import opened PrefixPolicy

  // ------------------------------------------------------------------ the ring of slots

  // The slot written after slot `i` of `n`.
  function Following(i: nat, n: nat): nat
    requires i < n
  {
    if i + 1 == n then 0 else i + 1
  }

  /** The ring and its write position after the captures `cs`. */
  function RingAfter(ring: seq<int>, next: nat, cs: seq<int>): (r: (seq<int>, nat))
    requires next < |ring|
    ensures |r.0| == |ring| && r.1 < |ring|
  {
    if cs == [] then (ring, next)
    else
      var (r, n) := RingAfter(ring, next, cs[..|cs| - 1]);
      (r[n := cs[|cs| - 1]], Following(n, |ring|))
  }

  /** The newest captures, as many as the ring has slots, are live. */
  lemma {:induction false} NewestAreLive(ring: seq<int>, next: nat, cs: seq<int>, k: nat)
    requires next < |ring|
    ensures RingAfter(ring, next, cs).1 == (next + |cs|) % |ring|
    ensures k < |cs| && |cs| - |ring| <= k ==> RingAfter(ring, next, cs).0[(next + k) % |ring|] == cs[k]
  {
    var n, m := |ring|, |cs|;
    if m == 0 {
      RemainderIs(next, 0, next, n);
    } else {
      NewestAreLive(ring, next, cs[..m - 1], k);
      FollowingIsModular(next + m - 1, n);
      if k < m - 1 && m - n <= k { NoCollision(next + k, next + m - 1, n); }
    }
  }

  lemma {:induction false} NewestIsIn(ring: seq<int>, next: nat, cs: seq<int>, k: nat)
    requires next < |ring| && k < |cs| && |cs| - |ring| <= k
    ensures cs[k] in RingAfter(ring, next, cs).0
  {
    hide RingAfter;
    NewestAreLive(ring, next, cs, k);
  }

  /** Everything in the ring was there before or has been captured. */
  lemma {:induction false} RingEntries(ring: seq<int>, next: nat, cs: seq<int>, x: int)
    requires next < |ring| && x in RingAfter(ring, next, cs).0
    ensures x in ring || x in cs
  {
    if cs != [] {
      var m := |cs| - 1;
      var (r, n) := RingAfter(ring, next, cs[..m]);
      if x != cs[m] {
        var i :| 0 <= i < |r| && r[n := cs[m]][i] == x;
        assert r[i] == x;
        RingEntries(ring, next, cs[..m], x);
      }
    }
  }

  lemma {:induction false} FollowingIsModular(a: nat, n: nat)
    requires n > 0
    ensures Following(a % n, n) == (a + 1) % n
  {
    if a % n + 1 < n {
      RemainderIs(a + 1, a / n, a % n + 1, n);
    } else {
      RemainderIs(a + 1, a / n + 1, 0, n);
    }
  }

  lemma {:induction false} RemainderIs(x: nat, q: nat, r: nat, n: nat)
    requires r < n && x == n * q + r
    ensures x % n == r
  {
    var d := x / n - q;
    assert n * d == r - x % n;
    MultipleBounds(n, d);
  }

  // ------------------------------------------------------------------ one prefill

  // One prefill as the ring sees it: where it starts and ends, the last pool boundary before its
  // end, the interval as given and rounded up, and the latest snapshot, write position and ring it
  // starts with.
  datatype Span = Span(start: int, end: int, tail: int, interval: nat, gap: nat,
                       last0: int, next0: nat, ring0: seq<int>)

  ghost predicate Proper(s: Span) {
    && 0 <= s.start < s.end && 0 <= s.tail < s.end <= s.tail + POOL && s.tail % POOL == 0
    && 0 < s.interval <= s.gap < s.interval + POOL && s.gap % POOL == 0
    && 0 <= s.last0 <= s.start && s.last0 % POOL == 0 && IsLatest(s.last0, s.ring0) && s.next0 < |s.ring0|
  }

  // The newest capture, or the latest snapshot from before.
  function Newest(s: Span, cs: seq<int>): int {
    if cs == [] then s.last0 else cs[|cs| - 1]
  }

  /** Chunks stop at the next checkpoint, be it the interval's or the one before the end. */
  function ChunkSize(maxChunk: nat, remaining: nat, pos: nat, byInterval: int, tail: int): (c: nat)
    requires maxChunk > 0 && remaining > 0
    ensures 1 <= c <= maxChunk && c <= remaining
    ensures byInterval <= pos || pos + c <= byInterval
    ensures tail <= pos || pos + c <= tail
    ensures c < maxChunk && c < remaining ==> pos + c == byInterval || pos + c == tail
  {
    var c0 := Min(maxChunk, remaining);
    var c1 := if pos < byInterval < pos + c0 then byInterval - pos else c0;
    if pos < tail < pos + c1 then tail - pos else c1
  }

  /** What a request finds when its prefill begins, as a function of the bookkeeping before it. */
  function Begin(hist: seq<int>, ring: seq<int>, next: nat, last: int, prompt: seq<int>, limit: int, cap: nat,
                 interval: nat): (s: Span)
    ensures |s.ring0| == |ring|
    ensures forall i :: 0 <= i < |ring| ==> s.ring0[i] == if ring[i] > s.start then -1 else ring[i]
  {
    var resume, extend, end := ResumePoint(hist, ring, prompt, limit), Extends(hist, prompt, limit), Min(|prompt|, cap);
    Span(resume, end, CheckpointBefore(end), interval, RoundUp(interval), if extend then last else resume,
         if !extend && resume == 0 then 0 else next,
         seq(|ring|, i requires 0 <= i < |ring| => if ring[i] > resume then -1 else ring[i]))
  }

  // The end of the chunk that starts at `pos`, when `last` is the latest snapshot.
  function ChunkEnd(s: Span, maxChunk: nat, pos: int, last: int): (to: int)
    requires maxChunk > 0 && 0 <= pos < s.end && 0 <= last
    ensures pos < to <= s.end
  {
    pos + ChunkSize(maxChunk, s.end - pos, pos, RoundUp(last + s.interval), s.tail)
  }

  /** The captures still to come from `pos` on. */
  function Walk(s: Span, maxChunk: nat, pos: int, last: int): seq<int>
    requires maxChunk > 0 && 0 <= pos && 0 <= last
    decreases s.end - pos
  {
    if pos >= s.end then [] else
      var to := ChunkEnd(s, maxChunk, pos, last);
      if CaptureDue(s, last, to) && to % POOL == 0 then [to] + Walk(s, maxChunk, to, to)
      else Walk(s, maxChunk, to, last)
  }

  /** All captures of a prefill, as a function of how it begins. */
  function Taken(s: Span, maxChunk: nat): seq<int>
    requires maxChunk > 0 && 0 <= s.start && 0 <= s.last0
  {
    Walk(s, maxChunk, s.start, s.last0)
  }

  /** The ring, the write position and the latest snapshot that captures leave. */
  function LeftBy(s: Span, cs: seq<int>): (r: (seq<int>, nat, int))
    ensures |r.0| == |s.ring0|
  {
    if s.next0 < |s.ring0| then
      var (ring, next) := RingAfter(s.ring0, s.next0, cs);
      (ring, next, Newest(s, cs))
    else (s.ring0, s.next0, s.last0)
  }

  predicate CaptureDue(s: Span, last: int, pos: int) {
    pos - last >= s.interval || pos == s.tail
  }

  // Captures are aligned and ascending, and each was due when it was taken.
  ghost predicate AllDue(s: Span, cs: seq<int>, pos: int) {
    cs == [] ||
      var shorter, c := cs[..|cs| - 1], cs[|cs| - 1];
      && AllDue(s, shorter, pos)
      && s.start < c <= pos && c % POOL == 0 && Newest(s, shorter) < c && CaptureDue(s, Newest(s, shorter), c)
  }

  // Ascending, and never more than `gap` apart.
  ghost predicate Spaced(cs: seq<int>, gap: nat) {
    var n := |cs|;
    n <= 1 || (Spaced(cs[..n - 1], gap) && cs[n - 2] < cs[n - 1] <= cs[n - 2] + gap)
  }

  // Begun before the pending checkpoint, captures are never more than the rounded interval apart.
  ghost predicate WellSpaced(s: Span, pos: int, cs: seq<int>) {
    s.start < s.last0 + s.gap ==> Spaced([s.last0] + cs, s.gap) && pos < Newest(s, cs) + s.gap
  }

  /** What the captures `cs` taken so far guarantee when the prefill has reached `pos`. */
  ghost predicate Tracking(s: Span, snapPos: seq<int>, next: nat, last: int, pos: int, cs: seq<int>) {
    && s.next0 < |s.ring0| && RingAfter(s.ring0, s.next0, cs) == (snapPos, next)
    && last == Newest(s, cs) && last % POOL == 0 && 0 <= last <= pos
    && AllDue(s, cs, pos)
    && NoneMissed(s, last, pos, cs)
    && WellSpaced(s, pos, cs)
  }

  // What is due and aligned has been captured, and so has the last pool boundary once it is passed.
  ghost predicate NoneMissed(s: Span, last: int, pos: int, cs: seq<int>) {
    && (s.start < pos && pos % POOL == 0 ==> pos - last < s.interval)
    && (s.start < s.tail <= pos ==> s.tail in cs)
  }

  // A chunk from `pos` to `to` that no checkpoint cuts.
  predicate Uncut(s: Span, last: int, pos: int, to: int) {
    && s.start <= pos < to <= s.end
    && (last + s.gap <= pos || to <= last + s.gap)
    && (s.tail <= pos || to <= s.tail)
  }

  lemma {:induction false} StartTracking(s: Span)
    requires Proper(s)
    ensures Tracking(s, s.ring0, s.next0, s.last0, s.start, [])
  {
  }

  lemma {:induction false} NoCaptureStep(s: Span, snapPos: seq<int>, next: nat, last: int, pos: int, cs: seq<int>,
        to: int)
    requires Proper(s) && Tracking(s, snapPos, next, last, pos, cs) && Uncut(s, last, pos, to)
    requires !CaptureDue(s, last, to) || to % POOL != 0
    ensures Tracking(s, snapPos, next, last, to, cs)
  {
    hide RingAfter, AllDue, Spaced;
    StillDue(s, cs, pos, to);
  }

  lemma {:induction false} StillDue(s: Span, cs: seq<int>, pos: int, to: int)
    requires AllDue(s, cs, pos) && pos <= to
    ensures AllDue(s, cs, to)
    decreases |cs|
  {
    if cs != [] { StillDue(s, cs[..|cs| - 1], pos, to); }
  }

  lemma {:induction false} CaptureStep(s: Span, snapPos: seq<int>, next: nat, last: int, pos: int, cs: seq<int>,
        to: int)
    requires Proper(s) && Tracking(s, snapPos, next, last, pos, cs) && Uncut(s, last, pos, to)
    requires CaptureDue(s, last, to) && to % POOL == 0
    ensures Tracking(s, snapPos[next := to], Following(next, |snapPos|), to, to, cs + [to])
  {
    var cs' := cs + [to];
    assert cs'[..|cs|] == cs && cs'[|cs|] == to;
    hide Spaced, CaptureDue;
    StillDue(s, cs, pos, to);
    if s.start < s.last0 + s.gap { SpacedMore(s.last0, cs, s.gap, to); }
    hide AllDue;
    if s.start < s.tail <= pos { InMore(cs, to, s.tail); }
  }

  lemma {:induction false} InMore(cs: seq<int>, c: int, x: int)
    requires x in cs
    ensures x in cs + [c]
  {
  }

  lemma {:induction false} SpacedMore(a: int, cs: seq<int>, gap: nat, c: int)
    requires Spaced([a] + cs, gap)
    requires var last := if cs == [] then a else cs[|cs| - 1]; last < c <= last + gap
    ensures Spaced([a] + (cs + [c]), gap)
  {
    var before := [a] + cs;
    assert [a] + (cs + [c]) == before + [c];
    assert (before + [c])[..|before|] == before;
  }

  lemma {:induction false} WalkIsTracked(s: Span, maxChunk: nat, ring: seq<int>, next: nat, last: int, pos: int,
          cs: seq<int>)
    requires Proper(s) && s.gap == RoundUp(s.interval) && maxChunk > 0 && s.start <= pos <= s.end
    requires Tracking(s, ring, next, last, pos, cs)
    ensures Tracked(s, cs + Walk(s, maxChunk, pos, last))
    decreases s.end - pos
  {
    hide RingAfter, AllDue, WellSpaced, NoneMissed, RoundUp;
    if pos >= s.end {
      assert cs + [] == cs;
    } else {
      var to := ChunkEnd(s, maxChunk, pos, last);
      RoundUpShift(last, s.interval);
      if CaptureDue(s, last, to) && to % POOL == 0 {
        CaptureStep(s, ring, next, last, pos, cs, to);
        WalkIsTracked(s, maxChunk, ring[next := to], Following(next, |ring|), to, to, cs + [to]);
        assert cs + ([to] + Walk(s, maxChunk, to, to)) == cs + [to] + Walk(s, maxChunk, to, to);
      } else {
        NoCaptureStep(s, ring, next, last, pos, cs, to);
        WalkIsTracked(s, maxChunk, ring, next, last, to, cs);
      }
    }
  }

  // A whole prefill with the captures `cs`.
  ghost predicate Tracked(s: Span, cs: seq<int>) {
    Tracking(s, LeftBy(s, cs).0, LeftBy(s, cs).1, LeftBy(s, cs).2, s.end, cs)
  }

  lemma {:induction false} RoundUpShift(a: nat, b: nat)
    ensures a % POOL == 0 ==> RoundUp(a + b) == a + RoundUp(b)
  {
  }

  /** What the captures of a prefill guarantee, whatever the chunk size. */
  lemma {:induction false} TakenIsTracked(s: Span, maxChunk: nat)
    requires Proper(s) && s.gap == RoundUp(s.interval) && maxChunk > 0
    ensures Tracked(s, Taken(s, maxChunk))
  {
    hide Tracking, Walk;
    StartTracking(s);
    WalkIsTracked(s, maxChunk, s.ring0, s.next0, s.last0, s.start, []);
    assert [] + Taken(s, maxChunk) == Taken(s, maxChunk);
  }

  // ------------------------------------------------------------------ how far a divergence rewinds

  /** Between spaced captures no position is `gap` or more above the newest capture below it. */
  lemma {:induction false} SpacedCovers(cs: seq<int>, gap: nat, upTo: int, L: int) returns (k: nat)
    requires Spaced(cs, gap) && cs != [] && gap > 0
    requires cs[0] <= L <= upTo < cs[|cs| - 1] + gap
    ensures k < |cs| && cs[k] <= L < cs[k] + gap
  {
    if L >= cs[|cs| - 1] {
      k := |cs| - 1;
    } else {
      var shorter := cs[..|cs| - 1];
      k := SpacedCovers(shorter, gap, L, L);
    }
  }

  lemma {:induction false} DueFacts(s: Span, cs: seq<int>, pos: int, k: nat)
    requires AllDue(s, cs, pos) && k < |cs|
    ensures s.start < cs[k] <= pos && cs[k] % POOL == 0
    ensures k > 0 ==> cs[k - 1] < cs[k]
    ensures CaptureDue(s, if k == 0 then s.last0 else cs[k - 1], cs[k])
    decreases |cs|
  {
    if k < |cs| - 1 { DueFacts(s, cs[..|cs| - 1], pos, k); }
  }

  // The latest snapshot from before is still there, or was the start of everything.
  predicate StartIsLive(s: Span, snapPos: seq<int>) {
    s.last0 == 0 || s.last0 in snapPos
  }

  // From every divergence in [lo, hi] a request resumes less than `gap` below it.
  ghost predicate Covered(snapPos: seq<int>, gap: nat, lo: int, hi: int) {
    forall L: nat :: lo <= L <= hi ==> L < ResumeFor(snapPos, L) + gap
  }

  // The index of the oldest capture that is still in a ring of `n` slots.
  function OldestLive(cs: seq<int>, n: nat): (k: nat)
    ensures cs != [] && n > 0 ==> k < |cs|
  {
    if |cs| <= n then 0 else |cs| - n
  }

  /**
   The prefill began before the pending checkpoint and leaves something near enough below L: the latest snapshot
   of before, if it is live and no capture has been lost, or else the oldest capture that is live.
  */
  predicate InReach(s: Span, ring: seq<int>, cs: seq<int>, L: int) {
    && s.start < s.last0 + s.gap && s.last0 <= L <= s.end && ring != []
    && ((|cs| <= |ring| && StartIsLive(s, ring)) || (cs != [] && cs[OldestLive(cs, |ring|)] <= L))
  }

  /** There a divergence resumes less than one rounded interval below itself. */
  lemma {:induction false} DivergenceResumesNear(s: Span, snapPos: seq<int>, next: nat, last: int, cs: seq<int>, L: nat)
    requires Proper(s) && Tracking(s, snapPos, next, last, s.end, cs) && InReach(s, snapPos, cs, L)
    ensures L < ResumeFor(snapPos, L) + s.gap
  {
    hide RingAfter, Spaced, AllDue;
    var all := [s.last0] + cs;
    var k := SpacedCovers(all, s.gap, s.end, L);
    var oldest := OldestLive(cs, |snapPos|);
    if k == 0 && |cs| <= |snapPos| && StartIsLive(s, snapPos) {
      LiveBelow(snapPos, s.last0, L);
    } else {
      // the live capture to go by: the one found, or the oldest one if that is newer
      var j := if k <= oldest then oldest else k - 1;
      DueFacts(s, cs, s.end, 0);
      DueFacts(s, cs, s.end, j);
      if k > 0 && k - 1 < j { Ascending(s, cs, s.end, k - 1, j); }
      if k == 0 && 0 < j { Ascending(s, cs, s.end, 0, j); }
      NewestIsIn(s.ring0, s.next0, cs, j);
      LiveBelow(snapPos, cs[j], L);
    }
  }

  lemma {:induction false} LiveBelow(snapPos: seq<int>, c: int, L: nat)
    requires 0 <= c <= L && c % POOL == 0 && (c == 0 || c in snapPos)
    ensures c <= ResumeFor(snapPos, L)
  {
    hide ResumeFor;
    if c != 0 {
      var i :| 0 <= i < |snapPos| && snapPos[i] == c;
      assert Usable(snapPos, i, L);
    }
  }

  /** Begun at or behind the pending checkpoint, the prefill leaves its own start uncovered. */
  lemma {:induction false} LateStartIsUncovered(s: Span, snapPos: seq<int>, next: nat, last: int, cs: seq<int>)
    requires Proper(s) && Tracking(s, snapPos, next, last, s.end, cs) && s.start >= s.last0 + s.gap
    ensures ResumeFor(snapPos, s.start) + s.gap <= s.start
  {
    hide RingAfter, Spaced, AllDue, ResumeFor;
    var r := ResumeFor(snapPos, s.start);
    if r != 0 {
      RingEntries(s.ring0, s.next0, cs, r);
      if r in cs {
        var k :| 0 <= k < |cs| && cs[k] == r;
        DueFacts(s, cs, s.end, k);
      }
    }
  }

  /**
   Coverage, exactly: when the captures fit the ring and the latest snapshot of before is live, every divergence
   from that snapshot to the end resumes less than one rounded interval below if and only if the prefill began
   before the checkpoint that was pending.
  */
  lemma {:induction false} CoverageIff(s: Span, snapPos: seq<int>, next: nat, last: int, cs: seq<int>)
    requires Proper(s) && Tracking(s, snapPos, next, last, s.end, cs) && |cs| <= |snapPos| && StartIsLive(s, snapPos)
    ensures Covered(snapPos, s.gap, s.last0, s.end) <==> s.start < s.last0 + s.gap
  {
    hide ResumeFor, StartIsLive, RingAfter, AllDue, WellSpaced, NoneMissed;
    if s.start < s.last0 + s.gap {
      forall L: nat | s.last0 <= L <= s.end
        ensures L < ResumeFor(snapPos, L) + s.gap
      {
        DivergenceResumesNear(s, snapPos, next, last, cs, L);
      }
    } else {
      LateStartIsUncovered(s, snapPos, next, last, cs);
    }
  }

  /** Captures other than the tail's are at least an interval apart, so a ring that is large enough holds them all. */
  lemma {:induction false} CapturesFit(s: Span, cs: seq<int>, pos: int, slots: nat)
    requires Proper(s) && AllDue(s, cs, pos) && pos <= s.end && s.end - s.last0 < slots * s.interval
    ensures |cs| <= slots
  {
    if cs != [] {
      hide AllDue;
      CapturesAdvance(s, cs, pos);
      DueFacts(s, cs, pos, |cs| - 1);
      FewerThan(|cs| - if s.tail in cs then 1 else 0, slots, s.interval, Newest(s, cs) - s.last0);
    }
  }

  lemma {:induction false} FewerThan(a: nat, slots: nat, m: nat, total: int)
    requires a * m <= total < slots * m
    ensures a < slots
  {
    if slots <= a { ProductOrder(slots, a, m); }
  }

  lemma {:induction false} ProductOrder(a: nat, b: nat, m: nat)
    requires a <= b
    ensures a * m <= b * m
  {
    if a < b { ProductGrows(a, b, m); }
  }

  lemma {:induction false} CapturesAdvance(s: Span, cs: seq<int>, pos: int)
    requires AllDue(s, cs, pos)
    ensures Newest(s, cs) - s.last0 >= (|cs| - if s.tail in cs then 1 else 0) * s.interval
    decreases |cs|
  {
    if cs != [] {
      var m := |cs| - 1;
      CapturesAdvance(s, cs[..m], pos);
      assert cs == cs[..m] + [cs[m]];
      var a := m - if s.tail in cs[..m] then 1 else 0;
      assert (a + 1) * s.interval == a * s.interval + s.interval;
      if cs[m] == s.tail && s.tail in cs[..m] {
        var k :| 0 <= k < m && cs[k] == s.tail;
        Ascending(s, cs, pos, k, m);
      }
    }
  }

  lemma {:induction false} Ascending(s: Span, cs: seq<int>, pos: int, i: nat, j: nat)
    requires AllDue(s, cs, pos) && i < j < |cs|
    ensures cs[i] < cs[j]
    decreases j
  {
    hide AllDue;
    DueFacts(s, cs, pos, j);
    if i < j - 1 { Ascending(s, cs, pos, i, j - 1); }
  }

  // ------------------------------------------------------------------ whether the tail stays

  predicate ElsewhereIn(ring: seq<int>, next: nat, x: int) {
    exists i :: 0 <= i < |ring| && i != next && ring[i] == x
  }

  /**
   Whether the last pool boundary before the end has a snapshot when the prefill is over: passed, it is captured,
   and stays unless a capture at the very end falls due and takes the only slot; not passed, it stays
   if it was there, unless that capture takes its slot.
  */
  predicate TailKept(s: Span) {
    || s.tail == 0
    || if s.start < s.tail then s.interval > POOL || s.end % POOL != 0 || |s.ring0| >= 2
       else if s.end % POOL == 0 && s.end - s.last0 >= s.interval then ElsewhereIn(s.ring0, s.next0, s.tail)
       else s.tail in s.ring0
  }

  lemma {:induction false} PassedTailIff(s: Span, snapPos: seq<int>, next: nat, last: int, cs: seq<int>)
    requires Proper(s) && Tracking(s, snapPos, next, last, s.end, cs) && s.start < s.tail
    ensures s.tail in snapPos <==> s.interval > POOL || s.end % POOL != 0 || |s.ring0| >= 2
  {
    hide RingAfter, AllDue, WellSpaced;
    var m := |cs| - 1;
    var k :| 0 <= k < |cs| && cs[k] == s.tail;
    DueFacts(s, cs, s.end, m);
    if k == m {
      NewestIsIn(s.ring0, s.next0, cs, m);
    } else {
      Ascending(s, cs, s.end, k, m);
      if k < m - 1 {
        DueFacts(s, cs, s.end, m - 1);
        Ascending(s, cs, s.end, k, m - 1);
      }
      // a capture beyond the tail can only be at the end
      assert cs[m] == s.end && k == m - 1;
      if |s.ring0| >= 2 { NewestIsIn(s.ring0, s.next0, cs, m - 1); } else { OneSlot(s.ring0, s.next0, cs); }
    }
  }

  lemma {:induction false} OneSlot(ring: seq<int>, next: nat, cs: seq<int>)
    requires next < |ring| == 1 && cs != []
    ensures RingAfter(ring, next, cs).0 == [cs[|cs| - 1]]
  {
    hide RingAfter;
    NewestAreLive(ring, next, cs, |cs| - 1);
  }

  lemma {:induction false} UnpassedTailIff(s: Span, snapPos: seq<int>, next: nat, last: int, cs: seq<int>)
    requires Proper(s) && Tracking(s, snapPos, next, last, s.end, cs) && s.tail <= s.start
    ensures s.tail in snapPos <==>
              if s.end % POOL == 0 && s.end - s.last0 >= s.interval then ElsewhereIn(s.ring0, s.next0, s.tail)
              else s.tail in s.ring0
  {
    hide AllDue, WellSpaced, RingAfter, ElsewhereIn;
    if cs == [] {
      FirstCapture(s.ring0, s.next0, s.end);
    } else {
      DueFacts(s, cs, s.end, 0);
      if |cs| > 1 {
        DueFacts(s, cs, s.end, 1);
      }
      assert cs == [s.end];
      FirstCapture(s.ring0, s.next0, s.end);
      TailElsewhere(s.ring0, s.next0, s.end, s.tail);
    }
  }

  lemma {:induction false} FirstCapture(ring: seq<int>, next: nat, c: int)
    requires next < |ring|
    ensures RingAfter(ring, next, []) == (ring, next) && RingAfter(ring, next, [c]).0 == ring[next := c]
  {
    assert [c][..0] == [];
  }

  lemma {:induction false} TailElsewhere(ring: seq<int>, next: nat, end: int, tail: int)
    requires next < |ring| && tail != end
    ensures tail in ring[next := end] <==> ElsewhereIn(ring, next, tail)
  {
    if ElsewhereIn(ring, next, tail) {
      var i :| 0 <= i < |ring| && i != next && ring[i] == tail;
      assert ring[next := end][i] == tail;
    }
  }

  /** The tail has a snapshot, or needs none, exactly under that condition. */
  lemma {:induction false} TailIsLiveIff(s: Span, snapPos: seq<int>, next: nat, last: int, cs: seq<int>)
    requires Proper(s) && Tracking(s, snapPos, next, last, s.end, cs)
    ensures (s.tail == 0 || s.tail in snapPos) <==> TailKept(s)
  {
    hide Tracking, ElsewhereIn;
    if s.start < s.tail {
      PassedTailIff(s, snapPos, next, last, cs);
    } else {
      UnpassedTailIff(s, snapPos, next, last, cs);
    }
  }

  // ------------------------------------------------------------------ whole prefills

  /** What a later request finds of a prefill, in terms of how the prefill began. */
  lemma {:induction false} TailStaysIff(s: Span, maxChunk: nat)
    requires Proper(s) && s.gap == RoundUp(s.interval) && maxChunk > 0
    ensures var ring := LeftBy(s, Taken(s, maxChunk)).0; (s.tail == 0 || s.tail in ring) <==> TailKept(s)
  {
    hide Tracking, RingAfter, TailKept, Taken, RoundUp;
    TakenIsTracked(s, maxChunk);
    var cs := Taken(s, maxChunk);
    TailIsLiveIff(s, LeftBy(s, cs).0, LeftBy(s, cs).1, LeftBy(s, cs).2, cs);
  }

  // The context is full, or there is no ring.
  predicate NothingToRun(s: Span) {
    0 <= s.last0 <= s.start && s.last0 % POOL == 0 && s.start <= s.end && (s.start == s.end || s.ring0 == [])
  }

  lemma {:induction false} NothingRuns(s: Span, maxChunk: nat, L: nat)
    requires NothingToRun(s) && !Proper(s) && maxChunk > 0 && L <= s.end
    ensures var cs := Taken(s, maxChunk); var ring := LeftBy(s, cs).0;
      && (InReach(s, ring, cs, L) ==> L - ResumeFor(ring, L) < s.gap)
      && (L == s.start >= s.last0 + s.gap && s.start < s.end ==> L - ResumeFor(ring, L) >= s.gap)
      && (s.end - s.last0 < |ring| * s.interval ==> |cs| <= |ring|)
  {
    hide ResumeFor, RingAfter, Walk, InReach;
    var cs := Taken(s, maxChunk);
    var ring := LeftBy(s, cs).0;
    if s.ring0 == [] {
      hide Taken;
      NotInReach(s, cs, L);
      assert ring == [] && |ring| * s.interval == 0;
    } else {
      NothingWalks(s, maxChunk);
      if InReach(s, ring, cs, L) { InReachOfOld(s, ring, L); }
    }
  }

  lemma {:induction false} NotInReach(s: Span, cs: seq<int>, L: int)
    ensures !InReach(s, [], cs, L)
  {
  }

  lemma {:induction false} NothingWalks(s: Span, maxChunk: nat)
    requires maxChunk > 0 && 0 <= s.last0 && 0 <= s.start == s.end
    ensures Taken(s, maxChunk) == []
  {
  }

  lemma {:induction false} InReachOfOld(s: Span, ring: seq<int>, L: nat)
    requires InReach(s, ring, [], L) && 0 <= s.last0 && s.last0 % POOL == 0 && s.start == s.end
    ensures L - ResumeFor(ring, L) < s.gap
  {
    LiveBelow(ring, s.last0, L);
  }

  lemma {:induction false} LaterDivergence(s: Span, maxChunk: nat, L: nat)
    requires Proper(s) || NothingToRun(s)
    requires s.gap == RoundUp(s.interval) && maxChunk > 0 && L <= s.end
    ensures var cs := Taken(s, maxChunk); var ring := LeftBy(s, cs).0;
      && (InReach(s, ring, cs, L) ==> L - ResumeFor(ring, L) < s.gap)
      && (L == s.start >= s.last0 + s.gap && s.start < s.end ==> L - ResumeFor(ring, L) >= s.gap)
      && (s.end - s.last0 < |ring| * s.interval ==> |cs| <= |ring|)
  {
    hide RingAfter, Taken, RoundUp, InReach, AllDue, WellSpaced, NoneMissed, ResumeFor;
    if !Proper(s) {
      NothingRuns(s, maxChunk, L);
      return;
    }
    TakenIsTracked(s, maxChunk);
    var cs := Taken(s, maxChunk);
    var (ring, next, last) := LeftBy(s, cs);
    if InReach(s, ring, cs, L) { DivergenceResumesNear(s, ring, next, last, cs, L); }
    if L == s.start >= s.last0 + s.gap { LateStartIsUncovered(s, ring, next, last, cs); }
    if s.end - s.last0 < |ring| * s.interval { CapturesFit(s, cs, s.end, |ring|); }
  }

  /** A prompt that only adds to the resident tokens. */
  lemma {:induction false} ExtensionBegins(hist: seq<int>, ring: seq<int>, next: nat, last: int, prompt: seq<int>,
          limit: int,
                                           cap: nat, interval: nat)
    requires |hist| < |prompt| && prompt[..|hist|] == hist && |hist| <= limit
    requires forall i :: 0 <= i < |ring| ==> ring[i] <= |hist|
    ensures var end := Min(|prompt|, cap);
            Begin(hist, ring, next, last, prompt, limit, cap, interval)
            == Span(|hist|, end, CheckpointBefore(end), interval, RoundUp(interval), last, next, ring)
  {
    hide RoundUp, CheckpointBefore, ResumeFor;
    assert forall i :: 0 <= i < |hist| ==> prompt[i] == prompt[..|hist|][i];
    assert Shared(hist, prompt, |hist|) == |hist|;
    var s := Begin(hist, ring, next, last, prompt, limit, cap, interval);
    assert s.ring0 == ring;
  }

  // ------------------------------------------------------------------ where the bounds fail

  // A first turn of five tokens from scratch takes a snapshot at 4; the next, of one token from 9 on, none.
  lemma {:induction false} ShortTurns(ring: seq<int>, next: nat, maxChunk: nat)
    requires ring != [] && next < |ring| && maxChunk >= 5
    ensures Taken(Span(0, 5, 4, 8, 8, 0, 0, ring), maxChunk) == [4]
    ensures Taken(Span(9, 10, 8, 8, 8, 4, next, ring), maxChunk) == []
    ensures Taken(Span(0, 3, 0, 8, 8, 0, 0, ring), maxChunk) == []
    ensures Taken(Span(9, 10, 8, 8, 8, 0, next, ring), maxChunk) == []
  {
    var s := Span(0, 5, 4, 8, 8, 0, 0, ring);
    assert ChunkEnd(s, maxChunk, 0, 0) == 4;
    assert Walk(s, maxChunk, 5, 4) == [];
    assert Walk(s, maxChunk, 4, 4) == [];
    var t := Span(9, 10, 8, 8, 8, 4, next, ring);
    assert ChunkEnd(t, maxChunk, 9, 4) == 10 && Walk(t, maxChunk, 10, 4) == [];
    var v := Span(0, 3, 0, 8, 8, 0, 0, ring);
    assert ChunkEnd(v, maxChunk, 0, 0) == 3 && Walk(v, maxChunk, 3, 0) == [];
    var w := Span(9, 10, 8, 8, 8, 0, next, ring);
    assert ChunkEnd(w, maxChunk, 9, 0) == 10 && Walk(w, maxChunk, 10, 0) == [];
  }

  /** After them the tail of ten tokens, at 8, has no snapshot, and a request for the ten resumes at 4. */
  lemma {:induction false} UnpassedTailIsLost(ring: seq<int>, next: nat, maxChunk: nat)
    requires ring != [] && next < |ring| && maxChunk >= 5 && 4 in ring && forall x :: x in ring ==> x == 4 || x == -1
    ensures var s := Span(9, 10, 8, 8, 8, 4, next, ring);
      && Proper(s) && !TailKept(s) && ResumeFor(LeftBy(s, Taken(s, maxChunk)).0, 9) == 4
  {
    hide ResumeFor, Taken;
    ShortTurns(ring, next, maxChunk);
    forall i | 0 <= i < |ring|
      ensures ring[i] <= 4
    {
      assert ring[i] in ring;
    }
    assert IsLatest(4, ring);
    LiveBelow(ring, 4, 9);
  }
}
