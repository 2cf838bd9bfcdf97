/** The parser's rules as texts. */
module ChatTexts {
  /*
   What comes of a text, said in strings alone: where reasoning ends, what ends a turn, how a call reads.
  */

  import opened Strings
  import opened ToolCalls
  import opened OutputParser

  // What counts outside a call; "</tool_call>" is ordinary text there.
  const OUTSIDE: seq<string> := ["</think>", "<tool_call>", "<|observation|>", "<|endoftext|>", "<|end|>", "<|user|>",
                                 "<|assistant|>", "<|system|>"]

  // What ends a turn.
  const BOUNDARIES: seq<string> := ["<|observation|>", "<|endoftext|>", "<|end|>", "<|user|>", "<|assistant|>",
                                    "<|system|>"]

  ghost predicate Plain(s: string) {
    forall t :: t in OUTSIDE ==> Free(t, s)
  }

  lemma {:induction false} MarksAreListed(m: nat)
    requires Relevant(false, m)
    ensures Mark(m) in OUTSIDE && Tag(Mark(m))
  {
    MarksAreTags(m);
    assert Mark(m) == OUTSIDE[m];
  }

  lemma {:induction false} PlainHasNoMarks(s: string, x: string, i: nat)
    requires Plain(s) && i < |s| && (x == "" || x[0] == '<')
    ensures !MarkAt(false, s + x, i)
  {
    hide Mark, At;
    forall m: nat | Relevant(false, m)
      ensures !At(Mark(m), s + x, i)
    {
      MarksAreListed(m);
      var q := Mark(m);
      assert Free(q, s);
      if i + |q| <= |s| {
        AtPrefix(q, s, x, i);
      } else if i + |q| <= |s + x| {
        NotAt(q, s + x, i, |s| - i);
      } else {
        TooLong(q, s + x, i);
      }
    }
  }

  lemma {:induction false} TooLong(q: string, s: string, i: nat)
    requires i + |q| > |s|
    ensures !At(q, s, i)
  {
  }

  // ------------------------------------------------------------------ one tag after another

  /** A tag starts afresh whatever stood before it, the beginning of another tag included. */
  lemma {:induction false} TagStartsAfresh(st: State, p: string, x: string)
    requires x != "" && x[0] == '<'
    ensures Scan(st, p + x) == Scan(Scan(st, p), x)
    decreases |p|
  {
    hide Mark, At, Which, Pass, Emit;
    if st.done {
      ScanIsOver(st, p + x);
      ScanIsOver(st, p);
      ScanIsOver(st, x);
    } else if p == "" {
      assert p + x == x;
      NothingToScan(st);
    } else {
      SameMark(st.inTool, p, x);
      var m := Which(st.inTool, p, 0, 0);
      ScanOnce(st, p);
      ScanOnce(st, p + x);
      if m >= 0 {
        AtLength(Mark(m), p);
        assert (p + x)[|Mark(m)|..] == p[|Mark(m)|..] + x;
        MarksAreTags(m);
        TagStartsAfresh(Pass(st, m), p[|Mark(m)|..], x);
      } else {
        assert (p + x)[..1] == p[..1] && (p + x)[1..] == p[1..] + x;
        TagStartsAfresh(Emit(st, p[..1]), p[1..], x);
      }
    }
  }

  lemma {:induction false} ScanOnce(st: State, s: string)
    requires !st.done && s != ""
    ensures var m := Which(st.inTool, s, 0, 0);
      && (m >= 0 ==> |Mark(m)| <= |s|)
      && Scan(st, s) == if m >= 0 then Scan(Pass(st, m), s[|Mark(m)|..]) else Scan(Emit(st, s[..1]), s[1..])
  {
    hide Which, Mark;
  }

  lemma {:induction false} ScanIsOver(st: State, s: string)
    requires st.done
    ensures Scan(st, s) == st
  {
  }

  lemma {:induction false} NothingToScan(st: State)
    ensures Scan(st, "") == st
  {
  }

  lemma {:induction false} AtLength(p: string, s: string)
    requires At(p, s, 0)
    ensures |p| <= |s|
  {
  }

  // What follows does not make a marker out of the beginning of one.
  lemma {:induction false} SameMark(inTool: bool, p: string, x: string)
    requires p != "" && x != "" && x[0] == '<'
    ensures Which(inTool, p + x, 0, 0) == Which(inTool, p, 0, 0)
  {
    hide Mark, At;
    forall m: nat | m < MARKS
      ensures At(Mark(m), p + x, 0) <==> At(Mark(m), p, 0)
    {
      var q := Mark(m);
      MarksAreTags(m);
      if |q| <= |p| {
        AtPrefix(q, p, x, 0);
      } else {
        TooLong(q, p, 0);
        if |q| <= |p + x| { NotAt(q, p + x, 0, |p|); } else { TooLong(q, p + x, 0); }
      }
    }
    SameWhich(inTool, p + x, p, 0);
  }

  lemma {:induction false} SameWhich(inTool: bool, s: string, t: string, m: nat)
    requires m <= MARKS && forall n: nat :: n < MARKS ==> (At(Mark(n), s, 0) <==> At(Mark(n), t, 0))
    ensures Which(inTool, s, 0, m) == Which(inTool, t, 0, m)
    decreases MARKS - m
  {
    hide Mark, At;
    if m < MARKS { SameWhich(inTool, s, t, m + 1); }
  }

  // ------------------------------------------------------------------ the rules

  lemma {:induction false} ScanPlain(st: State, a: string)
    requires !st.done && !st.inTool && Plain(a)
    ensures Scan(st, a) == if st.inThink then st.(out := st.out.(reasoning := st.out.reasoning + a))
                           else st.(out := st.out.(content := st.out.content + a))
  {
    hide MarkAt, Scan;
    assert a + "" == a;
    forall i: int | 0 <= i < |a|
      ensures !MarkAt(false, a, i)
    {
      PlainHasNoMarks(a, "", i);
    }
    ScanText(st, a, |a|);
    assert a[..|a|] == a && a[|a|..] == "";
    NothingToScan(Emit(st, a));
  }

  /** The end of reasoning, wherever it comes outside a call: what follows is content, and the tag itself is neither. */
  lemma {:induction false} ThinkEnds(st: State)
    requires !st.done && !st.inTool
    ensures Scan(st, "</think>") == st.(inThink := false)
  {
    ScanTag(st, THINK_END, "</think>");
  }

  lemma {:induction false} ScanTag(st: State, m: nat, t: string)
    requires !st.done && Relevant(st.inTool, m) && t == Mark(m)
    ensures Scan(st, t) == Pass(st, m)
  {
    hide Mark, Scan, Pass;
    assert t[0..|t|] == t;
    ScanMark(st, t, m);
    assert t[|t|..] == "";
    NothingToScan(Pass(st, m));
  }

  /** Text of a reasoning turn: what is before the tag is reasoning, what is behind it content. */
  lemma {:induction false} ReasoningThenContent(a: string, b: string)
    requires Plain(a) && Plain(b)
    ensures Parsed(true, a + "</think>" + b).out == Output(a, b, []) && !Parsed(true, a + "</think>" + b).done
    ensures Parsed(false, a + "</think>" + b).out == Output("", a + b, [])
  {
    hide Scan;
    ScanPlain(Start(true), a);
    ScanPlain(Start(false), a);
    SplitsInThree(Start(true), a, "</think>", b);
    SplitsInThree(Start(false), a, "</think>", b);
    ThinkEnds(Scan(Start(true), a));
    ThinkEnds(Scan(Start(false), a));
    ScanPlain(Scan(Scan(Start(true), a), "</think>"), b);
    ScanPlain(Scan(Scan(Start(false), a), "</think>"), b);
    assert "" + a == a && "" + b == b && "" + a + b == a + b;
  }

  lemma {:induction false} SplitsInThree(st: State, a: string, t: string, b: string)
    requires !Scan(st, a).done && !Scan(st, a).inTool && t in OUTSIDE
    ensures Scan(st, a + t + b) == Scan(Scan(Scan(st, a), t), b)
  {
    hide Scan;
    var m: nat :| m < |OUTSIDE| && OUTSIDE[m] == t;
    assert Mark(m) == t && Relevant(false, m);
    MarksAreTags(m);
    hide Mark;
    Regroup(a, t, b);
    TagStartsAfresh(st, a, t + b);
    ScanHead(Scan(st, a), m, b);
    ScanTag(Scan(st, a), m, t);
  }

  /**
   Each of the six tags ends the turn, wherever it comes outside a call: only what stands before it counts,
   whatever follows.
  */
  lemma {:induction false} BoundaryEndsTurn(inThink: bool, p: string, t: string, rest: string)
    requires t in BOUNDARIES && !Scan(Start(inThink), p).done && !Scan(Start(inThink), p).inTool
    ensures Parsed(inThink, p + t + rest).done && Parsed(inThink, p + t + rest).out == Parsed(inThink, p).out
  {
    hide Scan;
    var st := Scan(Start(inThink), p);
    var m: nat :| m < |BOUNDARIES| && BOUNDARIES[m] == t;
    assert OUTSIDE[m + 2] == t && Mark(m + 2) == t;
    SplitsInThree(Start(inThink), p, t, rest);
    ScanTag(st, m + 2, t);
    ScanIsOver(Pass(st, m + 2), rest);
  }

  /** A turn of plain text ended by one of them. */
  lemma {:induction false} PlainTurn(inThink: bool, a: string, t: string, rest: string)
    requires Plain(a) && t in BOUNDARIES
    ensures Parsed(inThink, a + t + rest).done
    ensures Parsed(inThink, a + t + rest).out == if inThink then Output(a, "", []) else Output("", a, [])
  {
    hide Scan;
    ScanPlain(Start(inThink), a);
    BoundaryEndsTurn(inThink, a, t, rest);
    assert "" + a == a;
  }

  /**
   A call with one argument, letter by letter; white space around the name does not count, its text is no content,
   and its id is its number in the turn.
  */
  lemma {:induction false} OneCall(a: string, before: string, name: string, after: string, k: string, v: string)
    requires Plain(a) && name != "" && name[0] !in " \t\r\n" && name[|name| - 1] !in " \t\r\n"
    requires AllWhite(before) && AllWhite(after) && Free("<arg_key>", before + name + after)
    requires Free("</arg_key>", k) && Free("</arg_value>", v)
    requires Free("</tool_call>", before + name + after) && Free("</tool_call>", k) && Free("</tool_call>", v)
    ensures var text := a + "<tool_call>" + (before + name + after
              + ("<arg_key>" + k + "</arg_key>" + "<arg_value>" + v + "</arg_value>")) + "</tool_call>";
            Parsed(false, text).out == Output("", a, [ToolCall("call_0", name, [(k, v)])])
  {
    StripIs(before, name, after);
    hide Scan, Free, Strip, AllWhite;
    OneCallIsRead(a, before + name + after, k, v);
  }

  lemma {:induction false} OneCallIsRead(a: string, title: string, k: string, v: string)
    requires Plain(a) && Free("<arg_key>", title) && Free("</arg_key>", k) && Free("</arg_value>", v)
    requires Free("</tool_call>", title) && Free("</tool_call>", k) && Free("</tool_call>", v)
    ensures var w := "<arg_key>" + k + "</arg_key>" + "<arg_value>" + v + "</arg_value>";
      Parsed(false, a + "<tool_call>" + (title + w) + "</tool_call>").out
      == Output("", a, [ToolCall("call_0", Strip(title), [(k, v)])])
  {
    hide Scan, Free, Strip;
    var args := [(k, v)];
    WrittenOnce(k, v);
    var body := WriteBody(title, args);
    var st := Scan(Start(false), a);
    ScanPlain(Start(false), a);
    CallReadBack(st, title, args, "");
    DistinctIsObject(args);
    ZeroIsWritten();
    var call := "<tool_call>" + body + "</tool_call>";
    assert call + "" == call;
    TagStartsAfresh(Start(false), a, call);
    assert a + "<tool_call>" + body + "</tool_call>" == a + call;
    var one := ToolCall("call_0", Strip(title), args);
    NothingToScan(st.(body := "", out := st.out.(calls := st.out.calls + [one])));
    assert "" + a == a && [] + [one] == [one];
  }

  lemma {:induction false} WrittenOnce(k: string, v: string)
    ensures WriteArgs([(k, v)]) == "<arg_key>" + k + "</arg_key>" + "<arg_value>" + v + "</arg_value>"
  {
    var args := [(k, v)];
    assert args[1..] == [];
    var w := WriteArg(k, v);
    assert w + "" == w;
  }

  lemma {:induction false} ZeroIsWritten()
    ensures CallId(0) == "call_0"
  {
  }

  /** A call that the text does not close is read as if it were closed there, unless nothing has come of it yet. */
  lemma {:induction false} CallCutShort(a: string, body: string)
    requires Plain(a) && Free("</tool_call>", body)
    ensures Parsed(false, a + "<tool_call>" + body).out
         == if body == "" then Output("", a, []) else Parsed(false, a + "<tool_call>" + body + "</tool_call>").out
  {
    hide Scan, Free, NameOf, ArgsFrom, ObjectOf;
    var st := Scan(Start(false), a);
    ScanPlain(Start(false), a);
    assert "" + a == a;
    SplitsInThree(Start(false), a, "<tool_call>", body);
    ScanTag(st, TOOL_BEGIN, "<tool_call>");
    var inCall := Pass(st, TOOL_BEGIN);
    ScanInCall(inCall, body);
    CallIsScanned(st, body, "");
    var call := "<tool_call>" + body + "</tool_call>";
    assert call + "" == call && a + "<tool_call>" + body + "</tool_call>" == a + call;
    TagStartsAfresh(Start(false), a, call);
    NothingToScan(CloseCall(st.(inTool := true, body := body)));
  }

  lemma {:induction false} ScanInCall(st: State, body: string)
    requires !st.done && st.inTool && st.body == "" && Free("</tool_call>", body)
    ensures Scan(st, body) == st.(body := body)
  {
    hide MarkAt, Scan, Free;
    forall i: int | 0 <= i < |body|
      ensures !MarkAt(true, body, i)
    {
      NoCallEndHere(body, i);
    }
    ScanText(st, body, |body|);
    assert body[..|body|] == body && body[|body|..] == "" && "" + body == body;
    NothingToScan(Emit(st, body));
  }

  lemma {:induction false} NoCallEndHere(s: string, i: int)
    requires Free("</tool_call>", s)
    ensures !MarkAt(true, s, i)
  {
    hide At;
    forall m: nat | Relevant(true, m)
      ensures !At(Mark(m), s, i)
    {
      assert Mark(m) == "</tool_call>";
    }
  }
}
