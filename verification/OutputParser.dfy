/** The incremental output parser. */
module OutputParser {
  /*
   It receives the text in arbitrary pieces and holds back whatever could still become a marker.  Its
   result must be the one of reading the whole text at once.
  */

  import opened Strings
  import opened ToolCalls
  import opened Utf8

  // ------------------------------------------------------------------ markers

  const THINK_END := 0
  const TOOL_BEGIN := 1
  const TOOL_END := 8
  const MARKS := 9

  function Mark(m: nat): string
    requires m < MARKS
  {
    ["</think>", "<tool_call>", "<|observation|>", "<|endoftext|>", "<|end|>", "<|user|>", "<|assistant|>",
     "<|system|>", "</tool_call>"][m]
  }

  lemma {:induction false} MarksAreTags(m: nat)
    requires m < MARKS
    ensures Tag(Mark(m))
    ensures forall i :: 0 <= i < |Mark(m)| ==> Mark(m)[i] as int < 0x80
  {
  }

  /** No marker is a prefix of another one. */
  lemma {:induction false} MarksDiffer(m: nat, n: nat) returns (d: nat)
    requires m < MARKS && n < MARKS && m != n
    ensures DifferAt(Mark(m), Mark(n), d)
  {
    if {
      case DifferAt(Mark(m), Mark(n), 1) => d := 1;
      case DifferAt(Mark(m), Mark(n), 2) => d := 2;
      case DifferAt(Mark(m), Mark(n), 3) => d := 3;
      case DifferAt(Mark(m), Mark(n), 5) => d := 5;
    }
  }

  // Inside a tool call only its end matters; elsewhere, all the others do.
  predicate Relevant(inTool: bool, m: nat) {
    m < MARKS && (inTool <==> m == TOOL_END)
  }

  ghost predicate MarkAt(inTool: bool, s: string, i: int) {
    exists m: nat :: Relevant(inTool, m) && At(Mark(m), s, i)
  }

  // Which relevant marker starts at `i`, -1 if none; `m` and above are considered.
  function Which(inTool: bool, s: string, i: int, m: nat): (r: int)
    requires m <= MARKS
    ensures r == -1 ==> forall n: nat :: m <= n && Relevant(inTool, n) ==> !At(Mark(n), s, i)
    ensures r != -1 ==> m <= r && Relevant(inTool, r) && At(Mark(r), s, i)
    decreases MARKS - m
  {
    if m == MARKS then -1
    else if Relevant(inTool, m) && At(Mark(m), s, i) then m
    else Which(inTool, s, i, m + 1)
  }

  lemma {:induction false} WhichIsUnique(inTool: bool, s: string, i: int, m: nat)
    requires Relevant(inTool, m) && At(Mark(m), s, i)
    ensures Which(inTool, s, i, 0) == m
  {
    var n := Which(inTool, s, i, 0);
    if n != m {
      var d := MarksDiffer(m, n);
      AtIndex(Mark(m), s, i, d);
      AtIndex(Mark(n), s, i, d);
    }
  }

  // ------------------------------------------------------------------ reading a whole text

  datatype ToolCall = ToolCall(id: string, name: string, args: Args)

  datatype Output = Output(reasoning: string, content: string, calls: seq<ToolCall>)

  datatype State = State(inThink: bool, inTool: bool, body: string, done: bool, out: Output)

  function CallId(n: nat): string {
    "call_" + Decimal(n)
  }

  function Start(inThink: bool): State {
    State(inThink, false, "", false, Output("", "", []))
  }

  // Text between markers belongs to the open tool call, the reasoning or the answer.
  function Emit(st: State, text: string): State {
    if st.inTool then st.(body := st.body + text)
    else if st.inThink then st.(out := st.out.(reasoning := st.out.reasoning + text))
    else st.(out := st.out.(content := st.out.content + text))
  }

  function CloseCall(st: State): State {
    var call := ToolCall(CallId(|st.out.calls|), NameOf(st.body), ObjectOf(ArgsFrom(st.body, 0)));
    st.(inTool := false, body := "", out := st.out.(calls := st.out.calls + [call]))
  }

  function Pass(st: State, m: nat): State
    requires Relevant(st.inTool, m)
  {
    if m == TOOL_END then CloseCall(st)
    else if m == THINK_END then st.(inThink := false)
    else if m == TOOL_BEGIN then st.(inTool := true, body := "")
    else st.(done := true)   // a turn boundary
  }

  /** Reads a text from the left: a marker changes the state, any other byte is text. */
  function Scan(st: State, s: string): State
    decreases |s|
  {
    if st.done || s == "" then st
    else
      var m := Which(st.inTool, s, 0, 0);
      if m >= 0 then Scan(Pass(st, m), s[|Mark(m)|..])
      else Scan(Emit(st, s[..1]), s[1..])
  }

  // An unterminated tool call is closed at the end of the text, unless it is empty.
  function Final(st: State): State {
    if st.inTool && st.body != "" then CloseCall(st) else st
  }

  function Parsed(inThink: bool, text: string): State {
    Final(Scan(Start(inThink), text))
  }

  lemma {:induction false} MarkAtSuffix(inTool: bool, s: string, pos: nat, i: nat)
    requires pos <= |s|
    ensures MarkAt(inTool, s[pos..], i) <==> MarkAt(inTool, s, pos + i)
  {
    hide Mark, At;
    forall m: nat | m < MARKS
      ensures At(Mark(m), s[pos..], i) <==> At(Mark(m), s, pos + i)
    {
      AtSuffix(Mark(m), s, pos, i);
    }
  }

  lemma {:induction false} WhichShows(inTool: bool, s: string, i: int)
    requires Which(inTool, s, i, 0) != -1
    ensures MarkAt(inTool, s, i)
  {
    hide Mark, At;
    assert At(Mark(Which(inTool, s, i, 0)), s, i);
  }

  lemma {:induction false} ScanByte(st: State, s: string)
    requires !st.done && s != "" && !MarkAt(st.inTool, s, 0)
    ensures Scan(st, s) == Scan(Emit(st, s[..1]), s[1..])
  {
    hide Mark, At;
    var m := Which(st.inTool, s, 0, 0);
    if m != -1 { WhichShows(st.inTool, s, 0); }
  }

  lemma {:induction false} ScanText(st: State, s: string, k: nat)
    requires !st.done && k <= |s| && forall i: int :: 0 <= i < k ==> !MarkAt(st.inTool, s, i)
    ensures Scan(st, s) == Scan(Emit(st, s[..k]), s[k..])
    decreases k
  {
    hide MarkAt, Which, Mark, Scan;
    if k == 0 {
      assert s[..0] == "" && s[0..] == s;
      EmitNothing(st);
    } else {
      var t := s[1..];
      ScanByte(st, s);
      forall i: int | 0 <= i < k - 1
        ensures !MarkAt(st.inTool, t, i)
      {
        MarkAtSuffix(st.inTool, s, 1, i);
        assert !MarkAt(st.inTool, s, 1 + i);
      }
      ScanText(Emit(st, s[..1]), t, k - 1);
      assert s[..1] + t[..k - 1] == s[..k];
      EmitTwice(st, s[..1], t[..k - 1]);
      assert t[k - 1..] == s[k..];
    }
  }

  lemma {:induction false} EmitNothing(st: State)
    ensures Emit(st, "") == st
  {
    assert st.body + "" == st.body;
    assert st.out.reasoning + "" == st.out.reasoning && st.out.content + "" == st.out.content;
  }

  lemma {:induction false} EmitTwice(st: State, a: string, b: string)
    ensures Emit(Emit(st, a), b) == Emit(st, a + b)
  {
    Regroup(st.body, a, b);
    Regroup(st.out.reasoning, a, b);
    Regroup(st.out.content, a, b);
  }

  lemma {:induction false} ScanMark(st: State, s: string, m: nat)
    requires !st.done && Relevant(st.inTool, m) && At(Mark(m), s, 0)
    ensures Scan(st, s) == Scan(Pass(st, m), s[|Mark(m)|..])
  {
    WhichIsUnique(st.inTool, s, 0, m);
    hide Which;
    MarksAreTags(m);
  }

  // ------------------------------------------------------------------ holding back

  // The last `n` bytes of `s` could be the beginning of a marker.
  predicate EndsLike(s: string, n: nat, m: nat)
    requires m < MARKS
  {
    0 < n < |Mark(m)| && n <= |s| && s[|s| - n..] == Mark(m)[..n]
  }

  ghost predicate IsHoldback(s: string, k: nat) {
    && k <= |s|
    && (k > 0 ==> exists m: nat :: m < MARKS && EndsLike(s, k, m))
    && (forall n: nat, m: nat :: m < MARKS && EndsLike(s, n, m) ==> n <= k)
  }

  /** The longest end of `s` that is a proper prefix of some marker. */
  method HoldbackLen(s: string) returns (best: nat)
    ensures IsHoldback(s, best)
  {
    hide Mark;
    best := 0;
    for m := 0 to MARKS
      invariant best <= |s| && (best > 0 ==> exists k: nat :: k < MARKS && EndsLike(s, best, k))
      invariant forall n: nat, k: nat :: k < m && EndsLike(s, n, k) ==> n <= best
    {
      var len := 1;
      while len < |Mark(m)| && len <= |s|
        invariant 1 <= len && best <= |s| && (best > 0 ==> exists k: nat :: k < MARKS && EndsLike(s, best, k))
        invariant forall n: nat, k: nat :: k < m && EndsLike(s, n, k) ==> n <= best
        invariant forall n: nat :: n < len && EndsLike(s, n, m) ==> n <= best
      {
        if s[|s| - len..] == Mark(m)[..len] {
          assert EndsLike(s, len, m);
          if best < len { best := len; }
        }
        len := len + 1;
      }
    }
  }

  // A text that is all held back.
  ghost predicate Partial(s: string) {
    s == "" || exists m: nat :: m < MARKS && |s| < |Mark(m)| && s == Mark(m)[..|s|]
  }

  /** There is no marker in what is held back. */
  lemma {:induction false} PartialIsCalm(inTool: bool, s: string, i: int)
    requires Partial(s)
    ensures !MarkAt(inTool, s, i)
  {
    hide Partial, Mark;
    forall n: nat | n < MARKS
      ensures !At(Mark(n), s, i)
    {
      PartialHasNo(s, n, i);
    }
  }

  lemma {:induction false} PartialHasNo(s: string, n: nat, i: int)
    requires Partial(s) && n < MARKS
    ensures !At(Mark(n), s, i)
  {
    hide Mark;
    MarksAreTags(n);
    if s != "" && 0 <= i && i + |Mark(n)| <= |s| {
      var m: nat :| m < MARKS && |s| < |Mark(m)| && s == Mark(m)[..|s|];
      MarksAreTags(m);
      var d := 0;
      if i == 0 { d := MarksDiffer(m, n); }
      assert s[i..i + |Mark(n)|][d] == s[i + d] == Mark(m)[i + d];
    }
  }

  lemma {:induction false} EndsLikeCut(b: string, rest: string, i: nat, m: nat)
    requires m < MARKS && At(Mark(m), b + rest, i) && i < |b| < i + |Mark(m)|
    ensures EndsLike(b, |b| - i, m)
  {
    hide Mark;
    var n := |b| - i;
    SliceOfSlice(b + rest, i, i + |Mark(m)|, 0, n);
    assert b[|b| - n..] == (b + rest)[i..i + n];
  }

  /** Nothing before the held-back end can become a marker, whatever follows. */
  lemma {:induction false} HeldIsSafe(inTool: bool, b: string, keep: nat, rest: string, i: nat)
    requires IsHoldback(b, keep) && i < |b| - keep && !MarkAt(inTool, b, i)
    ensures !MarkAt(inTool, b + rest, i)
  {
    hide Mark, EndsLike;
    forall m: nat | Relevant(inTool, m)
      ensures !At(Mark(m), b + rest, i)
    {
      if i + |Mark(m)| <= |b| {
        AtPrefix(Mark(m), b, rest, i);
      } else if At(Mark(m), b + rest, i) {
        EndsLikeCut(b, rest, i, m);
      }
    }
  }

  /** The first marker found stays the first, whatever follows. */
  lemma {:induction false} FoundIsFirst(inTool: bool, b: string, k: nat, n: nat, rest: string, i: nat)
    requires n < MARKS && At(Mark(n), b, k) && i < k && !MarkAt(inTool, b, i)
    ensures !MarkAt(inTool, b + rest, i)
  {
    hide Mark, At;
    MarksAreTags(n);
    AtIndex(Mark(n), b, k, 0);
    AtFits(Mark(n), b, k);
    forall m: nat | Relevant(inTool, m)
      ensures !At(Mark(m), b + rest, i)
    {
      MarksAreTags(m);
      if i + |Mark(m)| <= |b| {
        AtPrefix(Mark(m), b, rest, i);
      } else {
        NotAt(Mark(m), b + rest, i, k - i);
      }
    }
  }

  // ------------------------------------------------------------------ one step of the parser

  function Continue(st: State, b: string, rest: string): State {
    Scan(st, b + rest)
  }

  // A state with unread text is as good as another one, whatever text follows; none does on a flush.
  ghost predicate Agree(flush: bool, st: State, b: string, st': State, b': string) {
    forall rest: string :: (flush ==> rest == "") ==> Continue(st, b, rest) == Continue(st', b', rest)
  }

  lemma {:induction false} TextThenMark(flush: bool, st: State, b: string, k: nat, m: nat)
    requires !st.done && Relevant(st.inTool, m) && At(Mark(m), b, k)
    requires forall i: int :: 0 <= i < k ==> !MarkAt(st.inTool, b, i)
    ensures Agree(flush, Pass(Emit(st, b[..k]), m), b[k + |Mark(m)|..], st, b)
  {
    forall rest: string
      ensures Continue(Pass(Emit(st, b[..k]), m), b[k + |Mark(m)|..], rest) == Continue(st, b, rest)
    {
      forall i: int | 0 <= i < k
        ensures !MarkAt(st.inTool, b + rest, i)
      {
        FoundIsFirst(st.inTool, b, k, m, rest, i);
      }
      TextThenMarkIn(st, b, k, m, rest);
    }
  }

  lemma {:induction false} TextThenMarkIn(st: State, b: string, k: nat, m: nat, rest: string)
    requires !st.done && Relevant(st.inTool, m) && At(Mark(m), b, k)
    requires forall i: int :: 0 <= i < k ==> !MarkAt(st.inTool, b + rest, i)
    ensures Scan(Pass(Emit(st, b[..k]), m), b[k + |Mark(m)|..] + rest) == Scan(st, b + rest)
  {
    hide Mark, Scan, MarkAt, Pass;
    ScanText(st, b + rest, k);
    assert (b + rest)[..k] == b[..k];
    AtPrefix(Mark(m), b, rest, k);
    AtSuffix(Mark(m), b + rest, k, 0);
    ScanMark(Emit(st, b[..k]), (b + rest)[k..], m);
    assert (b + rest)[k..][|Mark(m)|..] == b[k + |Mark(m)|..] + rest;
  }

  lemma {:induction false} TextThenHold(flush: bool, st: State, b: string, keep: nat)
    requires !st.done && if flush then keep == 0 else IsHoldback(b, keep)
    requires forall i: int :: 0 <= i < |b| - keep ==> !MarkAt(st.inTool, b, i)
    ensures Agree(flush, Emit(st, b[..|b| - keep]), b[|b| - keep..], st, b) && Partial(b[|b| - keep..])
    ensures keep > 0 ==> b[|b| - keep] == '<'
  {
    hide MarkAt, Scan;
    var k := |b| - keep;
    forall rest: string | flush ==> rest == ""
      ensures Continue(Emit(st, b[..k]), b[k..], rest) == Continue(st, b, rest)
    {
      forall i: int | 0 <= i < k
        ensures !MarkAt(st.inTool, b + rest, i)
      {
        if flush { assert b + rest == b; } else { HeldIsSafe(st.inTool, b, keep, rest, i); }
      }
      ScanText(st, b + rest, k);
      assert (b + rest)[..k] == b[..k] && (b + rest)[k..] == b[k..] + rest;
    }
    HeldIsPartial(flush, b, keep);
  }

  lemma {:induction false} HeldIsPartial(flush: bool, b: string, keep: nat)
    requires if flush then keep == 0 else IsHoldback(b, keep)
    ensures Partial(b[|b| - keep..])
    ensures keep > 0 ==> b[|b| - keep] == '<'
  {
    if keep > 0 {
      var m: nat :| m < MARKS && EndsLike(b, keep, m);
      MarksAreTags(m);
      hide Mark;
      var k := |b| - keep;
      assert b[k..] == Mark(m)[..keep] && b[k] == Mark(m)[..keep][0];
    }
  }

  lemma {:induction false} AgreeSelf(flush: bool, st: State, b: string)
    ensures Agree(flush, st, b, st, b)
  {
  }

  /** After a turn boundary nothing that follows counts. */
  lemma {:induction false} DoneAgrees(flush: bool, st: State, b: string)
    requires st.done
    ensures Agree(flush, st, "", st, b)
  {
  }

  lemma {:induction false} EmptyIsPartial()
    ensures Partial("")
  {
  }

  lemma {:induction false} EmptyIsWhole()
    ensures Whole("")
  {
  }

  lemma {:induction false} AgreeTrans(flush: bool, s1: State, b1: string, s2: State, b2: string, s3: State, b3: string)
    requires Agree(flush, s1, b1, s2, b2) && Agree(flush, s2, b2, s3, b3)
    ensures Agree(flush, s1, b1, s3, b3)
  {
    hide Continue;
  }

  // ------------------------------------------------------------------ deltas

  datatype Delta = Delta(reasoning: string, content: string, toolBegin: bool, toolName: string, toolId: string,
                         toolArgs: Args, stop: bool)

  const NO_DELTA := Delta("", "", false, "", "", [], false)

  // What a client has after receiving one more delta.
  function Receive(o: Output, d: Delta): Output {
    Output(o.reasoning + d.reasoning, o.content + d.content,
           o.calls + if d.toolBegin then [ToolCall(d.toolId, d.toolName, d.toolArgs)] else [])
  }

  function ReceiveAll(o: Output, ds: seq<Delta>): Output {
    if ds == [] then o else Receive(ReceiveAll(o, ds[..|ds| - 1]), ds[|ds| - 1])
  }

  /** Texts are put together in the order they come, and every delta that begins a call brings the whole call. */
  lemma {:induction false} NextReceived(o: Output, ds: seq<Delta>, d: Delta)
    ensures ReceiveAll(o, []) == o
    ensures var had, has := ReceiveAll(o, ds), ReceiveAll(o, ds + [d]);
      && has.reasoning == had.reasoning + d.reasoning && has.content == had.content + d.content
      && has.calls == if d.toolBegin then had.calls + [ToolCall(d.toolId, d.toolName, d.toolArgs)] else had.calls
  {
    assert (ds + [d])[..|ds|] == ds;
  }

  predicate Stops(ds: seq<Delta>) {
    exists i :: 0 <= i < |ds| && ds[i].stop
  }

  predicate WholeTexts(ds: seq<Delta>) {
    forall i :: 0 <= i < |ds| ==> Whole(ds[i].reasoning) && Whole(ds[i].content)
  }

  lemma {:induction false} ReceiveMore(o: Output, ds: seq<Delta>, d: Delta)
    ensures ReceiveAll(o, ds + [d]) == Receive(ReceiveAll(o, ds), d)
    ensures Stops(ds + [d]) <==> Stops(ds) || d.stop
    ensures WholeTexts(ds + [d]) <==> WholeTexts(ds) && Whole(d.reasoning) && Whole(d.content)
  {
    var es := ds + [d];
    assert es[..|ds|] == ds && es[|ds|] == d;
    assert forall i :: 0 <= i < |ds| ==> es[i] == ds[i];
  }

  lemma {:induction false} ReceiveConcat(o: Output, ds: seq<Delta>, es: seq<Delta>)
    ensures ReceiveAll(o, ds + es) == ReceiveAll(ReceiveAll(o, ds), es)
    decreases |es|
  {
    if es == [] {
      assert ds + es == ds;
    } else {
      var last := |es| - 1;
      ReceiveConcat(o, ds, es[..last]);
      assert (ds + es)[..|ds + es| - 1] == ds + es[..last];
    }
  }

  /** The deltas `ds` took the client from `o` to `out`, and told it if the turn has ended since. */
  ghost predicate Told(o: Output, was: bool, ds: seq<Delta>, out: Output, done: bool) {
    ReceiveAll(o, ds) == out && (done <==> was || Stops(ds)) && forall i :: 0 <= i < |ds| - 1 ==> !ds[i].stop
  }

  lemma {:induction false} ToldText(o: Output, was: bool, ds: seq<Delta>, st: State, text: string, d: Delta)
    requires Told(o, was, ds, st.out, st.done) && !st.done && !st.inTool
    requires d == if st.inThink then NO_DELTA.(reasoning := text) else NO_DELTA.(content := text)
    ensures Told(o, was, ds + [d], Emit(st, text).out, st.done)
    ensures WholeTexts(ds) && Whole(text) ==> WholeTexts(ds + [d])
  {
    ReceiveMore(o, ds, d);
    Unchanged(st.out);
  }

  lemma {:induction false} Unchanged(o: Output)
    ensures o.reasoning + "" == o.reasoning && o.content + "" == o.content && o.calls + [] == o.calls
  {
  }

  lemma {:induction false} ToldCall(o: Output, was: bool, ds: seq<Delta>, st: State, d: Delta)
    requires Told(o, was, ds, st.out, st.done) && !st.done
    requires d == NO_DELTA.(toolBegin := true, toolName := NameOf(st.body), toolArgs := ObjectOf(ArgsFrom(st.body, 0)),
                            toolId := CallId(|st.out.calls|))
    ensures Told(o, was, ds + [d], CloseCall(st).out, st.done)
    ensures WholeTexts(ds) ==> WholeTexts(ds + [d])
  {
    ReceiveMore(o, ds, d);
    Unchanged(st.out);
  }

  lemma {:induction false} ToldStop(o: Output, was: bool, ds: seq<Delta>, out: Output, done: bool)
    requires Told(o, was, ds, out, done) && !done
    ensures Told(o, was, ds + [NO_DELTA.(stop := true)], out, true)
    ensures WholeTexts(ds) ==> WholeTexts(ds + [NO_DELTA.(stop := true)])
  {
    ReceiveMore(o, ds, NO_DELTA.(stop := true));
    Unchanged(out);
  }

  // ------------------------------------------------------------------ the search for a marker

  /** The first marker that is relevant outside a tool call and starts in [pos, limit). */
  method EarliestMark(buf: string, pos: nat, limit: nat) returns (best: int, which: nat)
    requires pos <= limit <= |buf|
    ensures best == -1 ==> forall i :: pos <= i < limit ==> !MarkAt(false, buf, i)
    ensures best != -1 ==> pos <= best < limit && Relevant(false, which) && At(Mark(which), buf, best)
    ensures best != -1 ==> forall i :: pos <= i < best ==> !MarkAt(false, buf, i)
  {
    hide Mark, At;
    best, which := -1, 0;
    for m := 0 to MARKS
      invariant best == -1 ==> forall i, n: nat :: pos <= i < limit && n < m && Relevant(false, n) ==>
            !At(Mark(n), buf, i)
      invariant best != -1 ==>
                  && pos <= best < limit && Relevant(false, which) && At(Mark(which), buf, best)
                  && forall i, n: nat :: pos <= i < best && n < m && Relevant(false, n) ==> !At(Mark(n), buf, i)
    {
      if m == TOOL_END { continue; }
      var f := Find(Mark(m), buf, pos);
      if f != -1 && f < limit && (best == -1 || f < best) { best, which := f, m; }
    }
  }

  lemma {:induction false} NoCallEnd(s: string, i: int)
    requires !At(Mark(TOOL_END), s, i)
    ensures !MarkAt(true, s, i)
  {
  }

  lemma {:induction false} WholeAtMark(s: string, k: nat, m: nat)
    requires Whole(s) && m < MARKS && At(Mark(m), s, k)
    ensures Whole(s[..k]) && Whole(s[k + |Mark(m)|..])
  {
    hide Mark, Whole;
    MarksAreTags(m);
    AtIndex(Mark(m), s, k, 0);
    WholeCut(s, k);
    AsciiIsWhole(Mark(m));
    assert Mark(m) + s[k + |Mark(m)|..] == s[k..];
    WholeTail(Mark(m), s[k + |Mark(m)|..]);
  }

  /** A turn of the loop that meets a marker at `k`, seen from the whole buffer. */
  lemma {:induction false} TurnMark(flush: bool, st: State, buf: string, pos: nat, k: int, m: nat)
    requires !st.done && Relevant(st.inTool, m) && pos <= k && At(Mark(m), buf, k)
    requires forall i :: pos <= i < k ==> !MarkAt(st.inTool, buf, i)
    ensures k < k + |Mark(m)| <= |buf|
    ensures Agree(flush, Pass(Emit(st, buf[pos..k]), m), buf[k + |Mark(m)|..], st, buf[pos..])
    ensures Whole(buf[pos..]) ==> Whole(buf[pos..k]) && Whole(buf[k + |Mark(m)|..])
  {
    hide Mark, At, Agree, MarkAt, Whole, Pass, Emit;
    AtFits(Mark(m), buf, k);
    MarksAreTags(m);
    var b, j := buf[pos..], k - pos;
    forall i: int | 0 <= i < j
      ensures !MarkAt(st.inTool, b, i)
    {
      MarkAtSuffix(st.inTool, buf, pos, i);
      assert !MarkAt(st.inTool, buf, pos + i);
    }
    AtSuffix(Mark(m), buf, pos, j);
    Cuts(buf, pos, k, k + |Mark(m)|);
    TextThenMark(flush, st, b, j, m);
    if Whole(b) { WholeAtMark(b, j, m); }
  }

  lemma {:induction false} AtFits(p: string, s: string, i: int)
    requires At(p, s, i)
    ensures 0 <= i && i + |p| <= |s|
  {
  }

  lemma {:induction false} Cuts(s: string, pos: nat, k: nat, e: nat)
    requires pos <= k <= e <= |s|
    ensures s[pos..][..k - pos] == s[pos..k] && s[pos..][e - pos..] == s[e..]
  {
  }

  /** A turn that meets none, and keeps the end back. */
  lemma {:induction false} TurnHold(flush: bool, st: State, buf: string, pos: nat, keep: nat)
    requires !st.done && pos <= |buf| && if flush then keep == 0 else IsHoldback(buf[pos..], keep)
    requires forall i :: pos <= i < |buf| - keep ==> !MarkAt(st.inTool, buf, i)
    ensures pos <= |buf| - keep
    ensures Agree(flush, Emit(st, buf[pos..|buf| - keep]), buf[|buf| - keep..], st, buf[pos..])
    ensures Partial(buf[|buf| - keep..])
    ensures Whole(buf[pos..]) ==> Whole(buf[pos..|buf| - keep]) && Whole(buf[|buf| - keep..])
  {
    hide Mark, Agree, MarkAt, Whole, Emit, Partial;
    var b := buf[pos..];
    forall i: int | 0 <= i < |b| - keep
      ensures !MarkAt(st.inTool, b, i)
    {
      MarkAtSuffix(st.inTool, buf, pos, i);
      assert !MarkAt(st.inTool, buf, pos + i);
    }
    TextThenHold(flush, st, b, keep);
    Cuts(buf, pos, |buf| - keep, |buf| - keep);
    if Whole(b) { WholeCut(b, |b| - keep); }
  }

  // ------------------------------------------------------------------ the parser

  class OutputParser {
    var buf: string
    var inThink: bool
    var inTool: bool
    var done: bool
    var toolBody: string
    var out: Output
    var pending: seq<Delta>

    function St(): State
      reads this
    {
      State(inThink, inTool, toolBody, done, out)
    }

    // Only what could become a marker is held back, and nothing after a turn boundary.
    ghost predicate Valid()
      reads this
    {
      Partial(buf) && (done ==> buf == "" && !inTool)
    }

    constructor (startInThink: bool)
      ensures Valid() && buf == "" && pending == [] && St() == Start(startInThink)
    {
      buf, toolBody, pending := "", "", [];
      inThink, inTool, done := startInThink, false, false;
      out := Output("", "", []);
    }

    method EmitText(text: string, ghost o: Output, ghost was: bool)
      requires Told(o, was, pending, out, done) && !done
      modifies this`toolBody, this`out, this`pending
      ensures St() == Emit(old(St()), text) && Told(o, was, pending, out, done)
      ensures WholeTexts(old(pending)) && Whole(text) ==> WholeTexts(pending)
    {
      hide Told, Whole;
      if inTool { toolBody := toolBody + text; return; }
      EmitNothing(St());
      if text == "" { return; }
      var d := if inThink then NO_DELTA.(reasoning := text) else NO_DELTA.(content := text);
      ToldText(o, was, pending, St(), text, d);
      out := if inThink then out.(reasoning := out.reasoning + text) else out.(content := out.content + text);
      pending := pending + [d];
    }

    method EndCall(ghost o: Output, ghost was: bool)
      requires Told(o, was, pending, out, done) && !done
      modifies this`toolBody, this`inTool, this`out, this`pending
      ensures St() == CloseCall(old(St())) && Told(o, was, pending, out, done)
      ensures WholeTexts(old(pending)) ==> WholeTexts(pending)
    {
      hide Told, Whole, ArgsFrom, NameOf, ObjectOf;
      var args := ReadArgs(toolBody);
      var call := ToolCall(CallId(|out.calls|), NameOf(toolBody), args);
      var d := NO_DELTA.(toolBegin := true, toolName := call.name, toolArgs := args, toolId := call.id);
      ToldCall(o, was, pending, St(), d);
      out := out.(calls := out.calls + [call]);
      pending := pending + [d];
      toolBody := "";
      inTool := false;
    }

    method PassMark(m: nat, ghost o: Output, ghost was: bool)
      requires Told(o, was, pending, out, done) && Relevant(inTool, m) && !done
      modifies this`toolBody, this`inTool, this`inThink, this`done, this`out, this`pending
      ensures St() == Pass(old(St()), m) && Told(o, was, pending, out, done) && (done ==> !inTool)
      ensures WholeTexts(old(pending)) ==> WholeTexts(pending)
    {
      hide Told, Whole, CloseCall;
      if m == TOOL_END {
        EndCall(o, was);
      } else if m == THINK_END {
        inThink := false;
      } else if m == TOOL_BEGIN {
        inTool := true;
        toolBody := "";
      } else {
        ToldStop(o, was, pending, out, done);
        pending := pending + [NO_DELTA.(stop := true)];
        done := true;
      }
    }

    /** The next marker that matters, if it is there yet. */
    method FirstMark(pos: nat, limit: nat) returns (best: int, which: nat)
      requires pos <= limit <= |buf|
      ensures best == -1 ==> forall i :: pos <= i < limit ==> !MarkAt(inTool, buf, i)
      ensures best != -1 ==> pos <= best && Relevant(inTool, which) && At(Mark(which), buf, best)
      ensures best != -1 ==> forall i :: pos <= i < best ==> !MarkAt(inTool, buf, i)
    {
      hide MarkAt, Mark, At;
      if inTool {
        best, which := Find(Mark(TOOL_END), buf, pos), TOOL_END;
        forall i | pos <= i < if best == -1 then limit else best
          ensures !MarkAt(true, buf, i)
        {
          NoCallEnd(buf, i);
        }
        return;
      }
      best, which := EarliestMark(buf, pos, limit);
    }

    /** Consumes the buffer, except for the end that could still become a marker. */
    method Drain(flush: bool, ghost o: Output, ghost was: bool)
      requires Told(o, was, pending, out, done) && (done ==> buf == "" && !inTool)
      modifies this
      ensures Valid() && (flush ==> buf == "") && Told(o, was, pending, out, done)
      ensures Agree(flush, St(), buf, old(St()), old(buf))
      ensures Whole(old(buf)) && WholeTexts(old(pending)) ==> Whole(buf) && WholeTexts(pending)
    {
      hide Told, Whole, Agree, Partial, Pass, Emit, Mark, At, MarkAt;
      ghost var st0 := St();
      EmptyIsPartial();
      AgreeSelf(flush, st0, buf);
      assert buf[0..] == buf;
      var pos := 0;
      while pos < |buf|
        invariant buf == old(buf) && pos <= |buf| && (done ==> buf == "" && !inTool)
        invariant Told(o, was, pending, out, done)
        invariant Agree(flush, St(), buf[pos..], st0, buf)
        invariant Whole(buf) && WholeTexts(old(pending)) ==> Whole(buf[pos..]) && WholeTexts(pending)
        decreases |buf| - pos
      {
        var keep := 0;
        if !flush { keep := HoldbackLen(buf[pos..]); }
        var limit := |buf| - keep;
        ghost var st := St();
        var best, which := FirstMark(pos, limit);
        if best == -1 {
          TurnHold(flush, st, buf, pos, keep);
          EmitText(buf[pos..limit], o, was);
          AgreeTrans(flush, St(), buf[limit..], st, buf[pos..], st0, buf);
          pos := limit;
          break;
        }
        TurnMark(flush, st, buf, pos, best, which);
        EmitText(buf[pos..best], o, was);
        PassMark(which, o, was);
        AgreeTrans(flush, St(), buf[best + |Mark(which)|..], st, buf[pos..], st0, buf);
        pos := best + |Mark(which)|;
        if done {
          DoneAgrees(flush, St(), buf[pos..]);
          AgreeTrans(flush, St(), "", St(), buf[pos..], st0, buf);
          buf := "";
          EmptyIsWhole();
          return;
        }
      }
      assert pos == |buf| ==> buf[pos..] == "";
      buf := buf[pos..];
    }

    /** One more piece of text. */
    method Feed(piece: string) returns (ds: seq<Delta>)
      requires Valid()
      modifies this
      ensures Valid() && ds == pending && Told(old(out), old(done), ds, out, done)
      ensures Agree(false, St(), buf, old(St()), old(buf) + piece)
      ensures Whole(old(buf)) && Whole(piece) ==> Whole(buf) && WholeTexts(ds)
    {
      hide Whole, Agree, Partial;
      pending := [];
      if done {
        EmptyIsWhole();
        DoneAgrees(false, St(), piece);
        assert "" + piece == piece;
        return [];
      }
      if Whole(buf) && Whole(piece) { WholeConcat(buf, piece); }
      buf := buf + piece;
      Drain(false, out, false);
      ds := pending;
    }

    /** The end of the text. No turn boundary comes to light only here. */
    method Finish() returns (ds: seq<Delta>)
      requires Valid()
      modifies this
      ensures Valid() && buf == "" && ds == pending && Told(old(out), old(done), ds, out, done)
      ensures St() == Final(Scan(old(St()), old(buf)))
      ensures done == old(done)
      ensures Whole(old(buf)) ==> WholeTexts(ds)
    {
      hide Whole, Partial, Scan, Told;
      TellNothing(out, done);
      PartialIsText(St(), buf);
      ghost var o, was, text := out, done, buf;
      pending := [];
      Drain(true, o, was);
      FlushedAgree(St(), buf, old(St()), text);
      if inTool && toolBody != "" { EndCall(o, was); }
      ds := pending;
    }
  }

  lemma {:induction false} TellNothing(o: Output, done: bool)
    ensures Told(o, done, [], o, done) && WholeTexts([])
  {
  }

  lemma {:induction false} PartialIsText(st: State, s: string)
    requires Partial(s) && (st.done ==> s == "")
    ensures Scan(st, s) == Emit(st, s)
  {
    if st.done {
      EmitNothing(st);
    } else {
      forall i: int | 0 <= i < |s|
        ensures !MarkAt(st.inTool, s, i)
      {
        PartialIsCalm(st.inTool, s, i);
      }
      ScanText(st, s, |s|);
      assert s[..|s|] == s && s[|s|..] == "";
    }
  }

  lemma {:induction false} FlushedAgree(st: State, b: string, st': State, b': string)
    requires Agree(true, st, b, st', b') && b == ""
    ensures st == Scan(st', b')
  {
    assert Continue(st, b, "") == Continue(st', b', "");
    assert b + "" == b && b' + "" == b';
  }

  lemma {:induction false} AgreeExtend(st: State, b: string, st': State, b': string, piece: string)
    requires Agree(false, st, b, st', b')
    ensures Agree(false, st, b + piece, st', b' + piece)
  {
    forall rest: string
      ensures Continue(st, b + piece, rest) == Continue(st', b' + piece, rest)
    {
      Regroup(b, piece, rest);
      Regroup(b', piece, rest);
      assert Continue(st, b, piece + rest) == Continue(st', b', piece + rest);
    }
  }

  lemma {:induction false} AgreeNow(st: State, b: string, st': State, b': string)
    requires Agree(false, st, b, st', b')
    ensures Scan(st, b) == Scan(st', b')
  {
    assert Continue(st, b, "") == Continue(st', b', "");
    assert b + "" == b && b' + "" == b';
  }

  // ------------------------------------------------------------------ whole texts and streams

  const NOTHING := Output("", "", [])

  /** Parsing in one go. */
  method ParseOutput(text: string, startInThink: bool) returns (o: Output)
    ensures o == Parsed(startInThink, text).out
  {
    hide Scan, Agree, Partial;
    var p := new OutputParser(startInThink);
    var ds := p.Feed(text);
    assert "" + text == text;
    AgreeNow(p.St(), p.buf, Start(startInThink), text);
    ds := p.Finish();
    o := p.out;
  }

  /**
   Parsing in pieces, however the text is cut: the result and the decision to stop are those of the
   whole text, and the deltas add up to the result.
  */
  method Stream(pieces: seq<string>, startInThink: bool) returns (o: Output, ds: seq<Delta>)
    ensures o == Parsed(startInThink, Join(pieces)).out == ReceiveAll(NOTHING, ds)
    ensures Stops(ds) <==> Parsed(startInThink, Join(pieces)).done
    ensures (forall i :: 0 <= i < |pieces| ==> Whole(pieces[i])) ==> WholeTexts(ds)
  {
    hide Scan, Agree, Partial, Whole, Join, Receive, ReceiveAll, Stops;
    var p := new OutputParser(startInThink);
    ds := [];
    StreamStarts(Start(startInThink));
    ghost var allWhole := forall i :: 0 <= i < |pieces| ==> Whole(pieces[i]);
    for i := 0 to |pieces|
      invariant p.Valid() && fresh(p)
      invariant Agree(false, p.St(), p.buf, Start(startInThink), Join(pieces[..i]))
      invariant ReceiveAll(NOTHING, ds) == p.out && (Stops(ds) <==> p.done)
      invariant allWhole ==> Whole(p.buf) && WholeTexts(ds)
    {
      ghost var st, b := p.St(), p.buf;
      var more := p.Feed(pieces[i]);
      AgreeExtend(st, b, Start(startInThink), Join(pieces[..i]), pieces[i]);
      AgreeTrans(false, p.St(), p.buf, st, b + pieces[i], Start(startInThink), Join(pieces[..i]) + pieces[i]);
      JoinMore(pieces, i);
      MoreDeltas(ds, more);
      ds := ds + more;
    }
    assert pieces[..|pieces|] == pieces;
    AgreeNow(p.St(), p.buf, Start(startInThink), Join(pieces));
    ghost var st, b := p.St(), p.buf;
    var more := p.Finish();
    MoreDeltas(ds, more);
    ds := ds + more;
    o := p.out;
    FinalKeepsDone(Scan(st, b));
  }

  lemma {:induction false} StreamStarts(st: State)
    ensures Agree(false, st, "", st, Join([])) && Whole("") && WholeTexts([])
    ensures ReceiveAll(NOTHING, []) == NOTHING && !Stops([])
    ensures forall pieces: seq<string> :: Join(pieces[..0]) == ""
  {
  }

  lemma {:induction false} JoinMore(pieces: seq<string>, i: nat)
    requires i < |pieces|
    ensures Join(pieces[..i + 1]) == Join(pieces[..i]) + pieces[i]
  {
    assert pieces[..i + 1][..i] == pieces[..i];
  }

  lemma {:induction false} MoreDeltas(ds: seq<Delta>, more: seq<Delta>)
    ensures ReceiveAll(NOTHING, ds + more) == ReceiveAll(ReceiveAll(NOTHING, ds), more)
    ensures Stops(ds + more) <==> Stops(ds) || Stops(more)
    ensures WholeTexts(ds) && WholeTexts(more) ==> WholeTexts(ds + more)
  {
    ReceiveConcat(NOTHING, ds, more);
    var all := ds + more;
    assert forall i :: 0 <= i < |ds| ==> all[i] == ds[i];
    assert forall i :: 0 <= i < |more| ==> all[|ds| + i] == more[i];
  }

  lemma {:induction false} FinalKeepsDone(st: State)
    ensures Final(st).done == st.done
  {
  }

  // ------------------------------------------------------------------ calls

  ghost predicate Numbered(o: Output) {
    forall i :: 0 <= i < |o.calls| ==> o.calls[i].id == CallId(i)
  }

  lemma {:induction false} ScanNumbers(st: State, s: string)
    requires Numbered(st.out)
    ensures Numbered(Scan(st, s).out)
    decreases |s|
  {
    hide Mark, Which, ArgsFrom, NameOf, Decimal;
    if !st.done && s != "" {
      var m := Which(st.inTool, s, 0, 0);
      if m >= 0 { MarksAreTags(m); }
      if m >= 0 { ScanNumbers(Pass(st, m), s[|Mark(m)|..]); } else { ScanNumbers(Emit(st, s[..1]), s[1..]); }
    }
  }

  /** Within a turn no two calls have the same id, a call cut short included. */
  lemma {:induction false} CallIdsAreDistinct(startInThink: bool, text: string, i: nat, j: nat)
    requires i < j < |Parsed(startInThink, text).out.calls|
    ensures Parsed(startInThink, text).out.calls[i].id != Parsed(startInThink, text).out.calls[j].id
  {
    hide Scan, NameOf, ArgsFrom;
    ScanNumbers(Start(startInThink), text);
    if CallId(i) == CallId(j) {
      assert Decimal(i) == CallId(i)[5..] && Decimal(j) == CallId(j)[5..];
      DecimalIsInjective(i, j);
    }
  }

  /** A call as the template writes it is read back with its name and its arguments, in order. */
  lemma {:induction false} CallReadBack(st: State, name: string, args: Args, rest: string)
    requires !st.done && !st.inTool
    requires Free(KEY, name) && Readable(args)
    requires Free(CALL_END, name) && forall i :: 0 <= i < |args| ==>
          Free(CALL_END, args[i].0) && Free(CALL_END, args[i].1)
    ensures var call := ToolCall(CallId(|st.out.calls|), Strip(name), ObjectOf(args));
            Scan(st, "<tool_call>" + WriteBody(name, args) + "</tool_call>" + rest)
            == Scan(st.(body := "", out := st.out.(calls := st.out.calls + [call])), rest)
  {
    hide Scan, Free, Readable, WriteArgs, WriteArg, NameOf, ArgsFrom, ObjectOf, Mark;
    NameReadBack(name, args);
    CallArgsReadBack(name, args);
    BodyIsOpen(name, args);
    CallIsScanned(st, WriteBody(name, args), rest);
  }

  lemma {:induction false} MarksOfCalls()
    ensures Mark(TOOL_BEGIN) == "<tool_call>" && Mark(TOOL_END) == CALL_END
  {
  }

  lemma {:induction false} ScanHead(st: State, m: nat, rest: string)
    requires !st.done && Relevant(st.inTool, m)
    ensures Scan(st, Mark(m) + rest) == Scan(Pass(st, m), rest)
  {
    hide Mark, Scan;
    var s := Mark(m) + rest;
    assert s[0..0 + |Mark(m)|] == Mark(m);
    ScanMark(st, s, m);
    assert s[|Mark(m)|..] == rest;
  }

  lemma {:induction false} ScanBody(st: State, body: string, rest: string)
    requires !st.done && st.inTool && Free(CALL_END, body)
    ensures Scan(st, body + (CALL_END + rest)) == Scan(Emit(st, body), CALL_END + rest)
  {
    hide Scan, MarkAt, Free, Emit;
    var s := body + (CALL_END + rest);
    MarksAreTags(TOOL_END);
    MarksOfCalls();
    hide Mark;
    assert s[0..|body|] == body;
    assert s[|body|] == CALL_END[0];
    forall i: int | 0 <= i < |body|
      ensures !MarkAt(true, s, i)
    {
      NotWithin(CALL_END, s, 0, |body|, i);
      NoCallEnd(s, i);
    }
    ScanText(st, s, |body|);
    assert s[..|body|] == body && s[|body|..] == CALL_END + rest;
  }

  lemma {:induction false} CallIsScanned(st: State, body: string, rest: string)
    requires !st.done && !st.inTool && Free(CALL_END, body)
    ensures Scan(st, "<tool_call>" + body + "</tool_call>" + rest)
         == Scan(CloseCall(st.(inTool := true, body := body)), rest)
  {
    hide Scan, Free, Mark, NameOf, ArgsFrom;
    MarksOfCalls();
    var st1 := Pass(st, TOOL_BEGIN);
    Regroup("<tool_call>" + body, CALL_END, rest);
    Regroup("<tool_call>", body, CALL_END + rest);
    ScanHead(st, TOOL_BEGIN, body + (CALL_END + rest));
    ScanBody(st1, body, rest);
    assert "" + body == body;
    ScanHead(Emit(st1, body), TOOL_END, rest);
  }
}
