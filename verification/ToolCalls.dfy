/** The text of a tool call, written by the template and read by the parser. */
module ToolCalls {
  /*
   A name, then each argument as a tagged key and a tagged value.  The arguments of a call make up a JSON
   object, in which a key keeps its first place and its last value.  A value is kept as the text between its
   tags; what it means is decided by a JSON parser, which is a parameter here.
  */

  import opened Strings

  const KEY := "<arg_key>"
  const KEY_END := "</arg_key>"
  const VALUE := "<arg_value>"
  const VALUE_END := "</arg_value>"
  const CALL_END := "</tool_call>"

  type Args = seq<(string, string)>

  // '<' opens a tag and '>' closes it; neither occurs inside.
  predicate Tag(p: string) {
    && |p| >= 2 && p[0] == '<' && p[|p| - 1] == '>'
    && (forall i :: 0 < i < |p| ==> p[i] != '<')
    && (forall i :: 0 <= i < |p| - 1 ==> p[i] != '>')
  }

  lemma {:induction false} TagsAreTags()
    ensures Tag(KEY) && Tag(KEY_END) && Tag(VALUE) && Tag(VALUE_END) && Tag(CALL_END)
  {
  }

  ghost predicate Free(p: string, s: string) {
    forall i :: !At(p, s, i)
  }

  // ------------------------------------------------------------------ tags do not overlap

  // Both texts have a position `d`, where they differ.
  predicate DifferAt(p: string, q: string, d: nat) {
    d < |p| && d < |q| && p[d] != q[d]
  }

  lemma {:induction false} NoOverlap(p: string, q: string, d: nat, s: string, i: nat, j: nat)
    requires Tag(p) && Tag(q) && DifferAt(p, q, d) && At(p, s, i) && i <= j < i + |p|
    ensures !At(q, s, j)
  {
    AtIndex(p, s, i, j - i);
    AtIndex(p, s, i, d);
    NotAt(q, s, j, if i < j then 0 else d);
  }

  /** A tag does not start in a stretch that is free of it and that another tag follows. */
  lemma {:induction false} NotWithin(q: string, s: string, a: nat, b: nat, i: nat)
    requires Tag(q) && a <= i < b < |s| && s[b] == '<' && Free(q, s[a..b])
    ensures !At(q, s, i)
  {
    if i + |q| <= b {
      SliceOfSlice(s, a, b, i - a, i - a + |q|);
      assert !At(q, s[a..b], i - a);
    } else {
      NotAt(q, s, i, b - i);
    }
  }

  lemma {:induction false} FreeConcat(q: string, a: string, b: string)
    requires Tag(q) && Free(q, a) && Free(q, b)
    requires a == "" || b == "" || b[0] == '<' || a[|a| - 1] == '>'
    ensures Free(q, a + b)
  {
    forall i
      ensures !At(q, a + b, i)
    {
      if i + |q| <= |a| {
        AtPrefix(q, a, b, i);
      } else if i >= |a| {
        AtAfter(q, a, b, i - |a|);
      } else if i >= 0 && b != "" && b[0] == '<' {
        NotAt(q, a + b, i, |a| - i);
      } else if i >= 0 && b != "" {
        NotAt(q, a + b, i, |a| - 1 - i);
      }
    }
  }

  lemma {:induction false} AtAfter(q: string, a: string, b: string, i: nat)
    ensures At(q, a + b, |a| + i) <==> At(q, b, i)
  {
    AtSuffix(q, a + b, |a|, i);
    assert (a + b)[|a|..] == b;
  }

  // ------------------------------------------------------------------ reading a call

  lemma {:induction false} KeyEndsLater(body: string, ak: int, akEnd: int)
    requires At(KEY, body, ak) && At(KEY_END, body, akEnd) && ak <= akEnd
    ensures akEnd >= ak + |KEY|
  {
    TagsAreTags();
    if akEnd < ak + |KEY| { NoOverlap(KEY, KEY_END, 1, body, ak, akEnd); }
  }

  lemma {:induction false} ValueEndsLater(body: string, av: int, avEnd: int)
    requires At(VALUE, body, av) && At(VALUE_END, body, avEnd) && av <= avEnd
    ensures avEnd >= av + |VALUE|
  {
    TagsAreTags();
    if avEnd < av + |VALUE| { NoOverlap(VALUE, VALUE_END, 1, body, av, avEnd); }
  }

  // Where an argument's key and value lie, and where the next one may start.
  datatype Spans = NoArg | Arg(key: nat, keyEnd: nat, value: nat, valueEnd: nat, next: nat)

  /** The first argument at or after `pos`, if all four of its tags are there. */
  function FindArg(body: string, pos: int): (r: Spans)
    ensures r.Arg? ==> pos <= r.key <= r.keyEnd <= |body| && r.value <= r.valueEnd < r.next <= |body| && pos < r.next
  {
    var ak := Find(KEY, body, pos);
    var akEnd := Find(KEY_END, body, ak);
    var av := Find(VALUE, body, akEnd);
    var avEnd := Find(VALUE_END, body, av);
    if ak == -1 || akEnd == -1 || av == -1 || avEnd == -1 then NoArg
    else
      KeyEndsLater(body, ak, akEnd);
      ValueEndsLater(body, av, avEnd);
      Arg(ak + |KEY|, akEnd, av + |VALUE|, avEnd, avEnd + |VALUE_END|)
  }

  /** The arguments from `pos` on; the list ends at the first one that is not closed. */
  function ArgsFrom(body: string, pos: int): Args
    decreases |body| - pos
  {
    var a := FindArg(body, pos);
    if a.NoArg? then [] else [(body[a.key..a.keyEnd], body[a.value..a.valueEnd])] + ArgsFrom(body, a.next)
  }

  function NameOf(body: string): string {
    var p := Find(KEY, body, 0);
    Strip(body[..if p == -1 then |body| else p])
  }

  /** The loop that reads the arguments into an object. */
  method ReadArgs(body: string) returns (args: Args)
    ensures args == ObjectOf(ArgsFrom(body, 0))
  {
    hide Find, At, FindArg, ObjectOf, Put;
    args := [];
    var pos := 0;
    ghost var read: Args := [];
    ObjectOfMore([], "", "");
    while true
      invariant 0 <= pos <= |body|
      invariant ArgsFrom(body, 0) == read + ArgsFrom(body, pos) && args == ObjectOf(read)
      decreases |body| - pos
    {
      var ak, akEnd, av, avEnd := FindTags(body, pos);
      if ak == -1 || akEnd == -1 || av == -1 || avEnd == -1 { break; }
      var key, val := body[ak + 9..akEnd], body[av + 11..avEnd];
      ObjectOfMore(read, key, val);
      args := Put(args, key, val);
      read := read + [(key, val)];
      pos := avEnd + 12;
    }
    assert read + [] == read;
  }

  method FindTags(body: string, pos: nat) returns (ak: int, akEnd: int, av: int, avEnd: int)
    ensures ak == -1 || akEnd == -1 || av == -1 || avEnd == -1 ==> FindArg(body, pos) == NoArg
    ensures ak != -1 && akEnd != -1 && av != -1 && avEnd != -1 ==>
              && 0 <= ak <= akEnd && 0 <= av <= avEnd
              && FindArg(body, pos) == Arg(ak + 9, akEnd, av + 11, avEnd, avEnd + 12)
  {
    hide At;
    ak := Find(KEY, body, pos);
    akEnd := Find(KEY_END, body, ak);
    av := Find(VALUE, body, akEnd);
    avEnd := Find(VALUE_END, body, av);
  }

  // ------------------------------------------------------------------ the object

  // Assigns to a member: its place stays if it is there already.
  function Put(args: Args, k: string, v: string): Args {
    if args == [] then [(k, v)]
    else if args[0].0 == k then [(k, v)] + args[1..]
    else [args[0]] + Put(args[1..], k, v)
  }

  /** The object that assigning one argument after another makes. */
  function ObjectOf(args: Args): Args {
    if args == [] then [] else
      var last := args[|args| - 1];
      Put(ObjectOf(args[..|args| - 1]), last.0, last.1)
  }

  lemma {:induction false} ObjectOfMore(args: Args, k: string, v: string)
    ensures ObjectOf(args + [(k, v)]) == Put(ObjectOf(args), k, v)
    ensures ObjectOf([]) == []
  {
    assert (args + [(k, v)])[..|args|] == args;
  }

  // The value of a member as a list of one, or of none.
  function ValueFor(args: Args, k: string): seq<string> {
    if args == [] then [] else if args[0].0 == k then [args[0].1] else ValueFor(args[1..], k)
  }

  function LastFor(args: Args, k: string): seq<string> {
    if args == [] then []
    else if args[|args| - 1].0 == k then [args[|args| - 1].1]
    else LastFor(args[..|args| - 1], k)
  }

  // The keys in the order in which they first occur.
  function FirstKeys(args: Args): seq<string> {
    if args == [] then [] else
      var ks, k := FirstKeys(args[..|args| - 1]), args[|args| - 1].0;
      if k in ks then ks else ks + [k]
  }

  function Keys(args: Args): (ks: seq<string>)
    ensures |ks| == |args| && forall i :: 0 <= i < |args| ==> ks[i] == args[i].0
  {
    if args == [] then [] else [args[0].0] + Keys(args[1..])
  }

  ghost predicate DistinctKeys(args: Args) {
    forall i, j :: 0 <= i < j < |args| ==> args[i].0 != args[j].0
  }

  lemma {:induction false} PutValue(args: Args, k: string, v: string, x: string)
    ensures ValueFor(Put(args, k, v), x) == if x == k then [v] else ValueFor(args, x)
    ensures ValueFor([], x) == []
  {
    if args != [] && args[0].0 != k {
      PutValue(args[1..], k, v, x);
      assert ([args[0]] + Put(args[1..], k, v))[1..] == Put(args[1..], k, v);
    } else if args != [] {
      assert ([(k, v)] + args[1..])[1..] == args[1..];
    }
  }

  lemma {:induction false} PutKeys(args: Args, k: string, v: string)
    ensures Keys(Put(args, k, v)) == if k in Keys(args) then Keys(args) else Keys(args) + [k]
  {
    if args != [] {
      var put := Put(args, k, v);
      if args[0].0 != k {
        PutKeys(args[1..], k, v);
        assert put[0] == args[0] && put[1..] == Put(args[1..], k, v);
        assert k in Keys(args) <==> k in Keys(args[1..]);
      } else {
        assert put[0] == (k, v) && put[1..] == args[1..];
        assert Keys(args)[0] == k;
      }
    } else {
      assert [(k, v)][1..] == [];
    }
  }

  lemma {:induction false} PutNew(args: Args, k: string, v: string)
    requires k !in Keys(args)
    ensures Put(args, k, v) == args + [(k, v)]
  {
    if args != [] {
      assert Keys(args)[0] == args[0].0;
      PutNew(args[1..], k, v);
      assert [args[0]] + (args[1..] + [(k, v)]) == args + [(k, v)];
    }
  }

  /** A member has the last value given for its key, and stands where the key first occurred. */
  lemma {:induction false} LastValueWins(args: Args, k: string)
    ensures ValueFor(ObjectOf(args), k) == LastFor(args, k)
    ensures Keys(ObjectOf(args)) == FirstKeys(args)
  {
    hide Put, Keys, ValueFor;
    if args != [] {
      var shorter, last := args[..|args| - 1], args[|args| - 1];
      LastValueWins(shorter, k);
      PutValue(ObjectOf(shorter), last.0, last.1, k);
      PutKeys(ObjectOf(shorter), last.0, last.1);
    } else {
      PutValue([], "", "", k);
    }
  }

  /** Arguments with distinct keys are the object they make. */
  lemma {:induction false} DistinctIsObject(args: Args)
    requires DistinctKeys(args)
    ensures ObjectOf(args) == args
  {
    if args != [] {
      var shorter, last := args[..|args| - 1], args[|args| - 1];
      DistinctIsObject(shorter);
      PutNew(shorter, last.0, last.1);
    }
  }

  // ------------------------------------------------------------------ values

  type Json(==, !new)   // what is not a string

  datatype Value = Text(s: string) | Else(json: Json)

  datatype Parse = NotJson | IsJson(value: Value)

  // The JSON library: its parser, and the printer of everything that is not a string.
  datatype Library = Library(parse: string -> Parse, dump: Json -> string)

  type Members = seq<(string, Value)>

  // Strings are written as they are.
  function Written(lib: Library, v: Value): string {
    match v
    case Text(s) => s
    case Else(j) => lib.dump(j)
  }

  // Text that is not JSON is taken as a string.
  function Meaning(lib: Library, text: string): Value {
    match lib.parse(text)
    case NotJson => Text(text)
    case IsJson(v) => v
  }

  function Texts(lib: Library, ms: Members): (args: Args)
    ensures |args| == |ms| && forall i :: 0 <= i < |ms| ==> args[i] == (ms[i].0, Written(lib, ms[i].1))
  {
    seq(|ms|, i requires 0 <= i < |ms| => (ms[i].0, Written(lib, ms[i].1)))
  }

  function Meanings(lib: Library, args: Args): (ms: Members)
    ensures |ms| == |args| && forall i :: 0 <= i < |args| ==> ms[i] == (args[i].0, Meaning(lib, args[i].1))
  {
    seq(|args|, i requires 0 <= i < |args| => (args[i].0, Meaning(lib, args[i].1)))
  }

  // ------------------------------------------------------------------ writing a call

  function WriteArg(k: string, v: string): string {
    KEY + k + KEY_END + VALUE + v + VALUE_END
  }

  function WriteArgs(args: Args): string {
    if args == [] then "" else WriteArg(args[0].0, args[0].1) + WriteArgs(args[1..])
  }

  function WriteBody(name: string, args: Args): string {
    name + WriteArgs(args)
  }

  // The arguments of a call in the history of a conversation.
  datatype Arguments = Null | Object(members: Members) | NoObject(v: Value)

  function WriteArguments(lib: Library, args: Arguments, quoted: string -> string): string {
    match args
    case Null => ""
    case Object(ms) => WriteArgs(Texts(lib, ms))
    case NoObject(Text(s)) => quoted(s)
    case NoObject(Else(j)) => lib.dump(j)
  }

  /** Members one by one, strings raw and everything else as JSON; what is no object is written as JSON. */
  method AppendArgs(lib: Library, args: Arguments, quoted: string -> string, out0: string) returns (out: string)
    ensures out == out0 + WriteArguments(lib, args, quoted)
  {
    hide WriteArgs, WriteArg, Written;
    out := out0;
    match args {
      case Null => assert out + "" == out;
      case NoObject(Text(s)) => out := out + quoted(s);
      case NoObject(Else(j)) => out := out + lib.dump(j);
      case Object(ms) =>
        ghost var all := Texts(lib, ms);
        assert all[0..] == all;
        for i := 0 to |ms|
          invariant out + WriteArgs(all[i..]) == out0 + WriteArgs(all)
        {
          var text := Written(lib, ms[i].1);
          assert all[i..][0] == (ms[i].0, text) && all[i..][1..] == all[i + 1..];
          WriteArgsHead(all[i..]);
          Regroup(out, WriteArg(ms[i].0, text), WriteArgs(all[i + 1..]));
          out := out + WriteArg(ms[i].0, text);
        }
        WriteArgsHead(all[|ms|..]);
        assert out + "" == out;
    }
  }

  lemma {:induction false} WriteArgsHead(args: Args)
    ensures WriteArgs(args) == if args == [] then "" else WriteArg(args[0].0, args[0].1) + WriteArgs(args[1..])
  {
  }

  // ------------------------------------------------------------------ and back

  ghost predicate Readable(args: Args) {
    forall i :: 0 <= i < |args| ==> Free(KEY_END, args[i].0) && Free(VALUE_END, args[i].1)
  }

  lemma {:induction false} WriteArgsOpen(args: Args)
    ensures WriteArgs(args) == "" <==> args == []
    ensures args != [] ==> WriteArgs(args)[0] == '<'
  {
    if args != [] { assert WriteArg(args[0].0, args[0].1)[0] == KEY[0]; }
  }

  /** The tag that closes is found where it was written. */
  lemma {:induction false} FindClose(open: string, close: string, d: nat, s: string, at: nat, b: nat)
    requires Tag(open) && Tag(close) && DifferAt(open, close, d)
    requires At(open, s, at) && at + |open| <= b && At(close, s, b) && Free(close, s[at + |open|..b])
    ensures Find(close, s, at) == b
  {
    hide Find;
    AtIndex(close, s, b, 0);
    forall i | at <= i < b
      ensures !At(close, s, i)
    {
      if i < at + |open| { NoOverlap(open, close, d, s, at, i); } else { NotWithin(close, s, at + |open|, b, i); }
    }
  }

  /** Where a written argument is found. */
  lemma {:induction false} OneArg(s: string, at: nat, k: string, v: string)
    requires Free(KEY_END, k) && Free(VALUE_END, v)
    requires at + |WriteArg(k, v)| <= |s| && s[at..at + |WriteArg(k, v)|] == WriteArg(k, v)
    ensures FindArg(s, at) == Arg(at + 9, at + 9 + |k|, at + 30 + |k|, at + 30 + |k| + |v|, at + |WriteArg(k, v)|)
    ensures s[at + 9..at + 9 + |k|] == k && s[at + 30 + |k|..at + 30 + |k| + |v|] == v
  {
    hide Tag, At, Free, WriteArg;
    TagsAreTags();
    Layout(s, at, k, v);
    NothingIsFree(VALUE);
    FindClose(KEY, KEY_END, 1, s, at, at + 9 + |k|);
    assert s[at + 19 + |k|..at + 19 + |k|] == "";
    FindClose(KEY_END, VALUE, 1, s, at + 9 + |k|, at + 19 + |k|);
    FindClose(VALUE, VALUE_END, 1, s, at + 19 + |k|, at + 30 + |k| + |v|);
  }

  lemma {:induction false} NothingIsFree(p: string)
    requires p != ""
    ensures Free(p, "")
  {
  }

  lemma {:induction false} Layout(s: string, at: nat, k: string, v: string)
    requires at + |WriteArg(k, v)| <= |s| && s[at..at + |WriteArg(k, v)|] == WriteArg(k, v)
    ensures |WriteArg(k, v)| == 42 + |k| + |v|
    ensures At(KEY, s, at) && s[at + 9..at + 9 + |k|] == k && At(KEY_END, s, at + 9 + |k|)
    ensures At(VALUE, s, at + 19 + |k|) && s[at + 30 + |k|..at + 30 + |k| + |v|] == v
    ensures At(VALUE_END, s, at + 30 + |k| + |v|)
  {
    var w := WriteArg(k, v);
    assert |w| == 42 + |k| + |v|;
    Sub(s, at, w, 0, 9);
    assert w[0..9] == KEY;
    Sub(s, at, w, 9, 9 + |k|);
    assert w[9..9 + |k|] == k;
    Sub(s, at, w, 9 + |k|, 19 + |k|);
    assert w[9 + |k|..19 + |k|] == KEY_END;
    Sub(s, at, w, 19 + |k|, 30 + |k|);
    assert w[19 + |k|..30 + |k|] == VALUE;
    Sub(s, at, w, 30 + |k|, 30 + |k| + |v|);
    assert w[30 + |k|..30 + |k| + |v|] == v;
    Sub(s, at, w, 30 + |k| + |v|, |w|);
    assert w[30 + |k| + |v|..] == VALUE_END;
  }

  lemma {:induction false} Sub(s: string, at: nat, w: string, a: nat, b: nat)
    requires at + |w| <= |s| && s[at..at + |w|] == w && a <= b <= |w|
    ensures s[at + a..at + b] == w[a..b]
  {
    SliceOfSlice(s, at, at + |w|, a, b);
  }

  lemma {:induction false} ReadOne(s: string, at: nat, k: string, v: string, rest: Args)
    requires Free(KEY_END, k) && Free(VALUE_END, v)
    requires at + |WriteArg(k, v)| <= |s| && s[at..at + |WriteArg(k, v)|] == WriteArg(k, v)
    requires ArgsFrom(s, at + |WriteArg(k, v)|) == rest
    ensures ArgsFrom(s, at) == [(k, v)] + rest
  {
    hide FindArg, WriteArg, ArgsFrom, Free;
    OneArg(s, at, k, v);
    ReadSpans(s, at, FindArg(s, at));
  }

  lemma {:induction false} ReadSpans(s: string, at: nat, a: Spans)
    requires FindArg(s, at) == a && a.Arg?
    ensures ArgsFrom(s, at) == [(s[a.key..a.keyEnd], s[a.value..a.valueEnd])] + ArgsFrom(s, a.next)
  {
    hide FindArg;
  }

  /** Written arguments are read back, in order. */
  lemma {:induction false} ArgsReadBack(before: string, args: Args)
    requires Readable(args)
    ensures ArgsFrom(before + WriteArgs(args), |before|) == args
    decreases |args|
  {
    hide ArgsFrom, WriteArg;
    if args == [] {
      NothingToRead(before);
    } else {
      var w, rest := WriteArg(args[0].0, args[0].1), args[1..];
      var s := before + w + WriteArgs(rest);
      ArgsReadBack(before + w, rest);
      Regroup(before, w, WriteArgs(rest));
      assert s[|before|..|before| + |w|] == w;
      ReadOne(s, |before|, args[0].0, args[0].1, rest);
      assert [args[0]] + rest == args;
    }
  }

  lemma {:induction false} NothingToRead(s: string)
    ensures ArgsFrom(s + "", |s|) == []
  {
    assert FindArg(s + "", |s|) == NoArg;
  }

  lemma {:induction false} NoKeyInName(name: string, args: Args)
    requires Free(KEY, name)
    ensures Find(KEY, WriteBody(name, args), 0) == if args == [] then -1 else |name|
  {
    hide Find;
    var s := WriteBody(name, args);
    TagsAreTags();
    WriteArgsOpen(args);
    if args == [] {
      assert s == name;
    } else {
      var w := WriteArg(args[0].0, args[0].1);
      assert s[|name|..|name| + |w|] == w;
      Layout(s, |name|, args[0].0, args[0].1);
      forall i | 0 <= i < |name|
        ensures !At(KEY, s, i)
      {
        assert s[0..|name|] == name;
        NotWithin(KEY, s, 0, |name|, i);
      }
    }
  }

  /** The arguments of a written call are read back, behind a name that does not itself open one. */
  lemma {:induction false} CallArgsReadBack(name: string, args: Args)
    requires Free(KEY, name) && Readable(args)
    ensures ArgsFrom(WriteBody(name, args), 0) == args
  {
    hide Find, Free, WriteArgs, Readable;
    var s := WriteBody(name, args);
    NoKeyInName(name, args);
    ArgsReadBack(name, args);
    if args != [] { SameStart(s, |name|); }
  }

  /**
   The members of a call that was written are read back exactly when each value comes back on its own: a
   string that is itself JSON does not.
  */
  lemma {:induction false} MembersReadBackIff(lib: Library, name: string, ms: Members)
    requires Free(KEY, name) && DistinctKeys(Texts(lib, ms)) && Readable(Texts(lib, ms))
    ensures Meanings(lib, ObjectOf(ArgsFrom(WriteBody(name, Texts(lib, ms)), 0))) == ms
        <==> forall i :: 0 <= i < |ms| ==> Meaning(lib, Written(lib, ms[i].1)) == ms[i].1
  {
    hide Free, Readable, WriteBody, ArgsFrom, ObjectOf, Written, Meaning, DistinctKeys;
    var texts := Texts(lib, ms);
    CallArgsReadBack(name, texts);
    DistinctIsObject(texts);
    var back := Meanings(lib, texts);
    if back == ms {
      forall i | 0 <= i < |ms|
        ensures Meaning(lib, Written(lib, ms[i].1)) == ms[i].1
      {
        assert back[i] == ms[i];
      }
    }
  }

  lemma {:induction false} SameStart(s: string, n: nat)
    requires Find(KEY, s, 0) == n && n <= |s|
    ensures ArgsFrom(s, 0) == ArgsFrom(s, n)
  {
    assert Find(KEY, s, n) == n;
    assert FindArg(s, 0) == FindArg(s, n);
    hide Find, FindArg;
  }

  /** ... and so is the name, but for white space around it. */
  lemma {:induction false} NameReadBack(name: string, args: Args)
    requires Free(KEY, name)
    ensures NameOf(WriteBody(name, args)) == Strip(name)
  {
    hide Find, Free, Strip, WriteArgs;
    NoKeyInName(name, args);
    NoArgsAreEmpty();
    assert WriteBody(name, args)[..|name|] == name;
  }

  lemma {:induction false} NoArgsAreEmpty()
    ensures WriteArgs([]) == ""
  {
  }

  /** A call whose parts do not close it early has no closing tag inside. */
  lemma {:induction false} BodyIsOpen(name: string, args: Args)
    requires Free(CALL_END, name)
    requires forall i :: 0 <= i < |args| ==> Free(CALL_END, args[i].0) && Free(CALL_END, args[i].1)
    ensures Free(CALL_END, WriteBody(name, args))
  {
    TagsAreTags();
    WriteArgsOpen(args);
    ArgsAreOpen(args);
    FreeConcat(CALL_END, name, WriteArgs(args));
  }

  lemma {:induction false} OtherTagIsFree(q: string, p: string, d: nat)
    requires Tag(p) && Tag(q) && DifferAt(p, q, d)
    ensures Free(q, p)
  {
    forall i
      ensures !At(q, p, i)
    {
      if 0 <= i < |p| {
        assert p[0..|p|] == p;
        NoOverlap(p, q, d, p, 0, i);
      }
    }
  }

  lemma {:induction false} ArgsAreOpen(args: Args)
    requires forall i :: 0 <= i < |args| ==> Free(CALL_END, args[i].0) && Free(CALL_END, args[i].1)
    ensures Free(CALL_END, WriteArgs(args))
    decreases |args|
  {
    TagsAreTags();
    if args != [] {
      ArgIsOpen(args[0].0, args[0].1);
      ArgsAreOpen(args[1..]);
      WriteArgsOpen(args[1..]);
      FreeConcat(CALL_END, WriteArg(args[0].0, args[0].1), WriteArgs(args[1..]));
    }
  }

  lemma {:induction false} ArgIsOpen(k: string, v: string)
    requires Free(CALL_END, k) && Free(CALL_END, v)
    ensures Free(CALL_END, WriteArg(k, v))
  {
    TagsAreTags();
    hide Free;
    OtherTagIsFree(CALL_END, KEY, 1);
    OtherTagIsFree(CALL_END, KEY_END, 2);
    OtherTagIsFree(CALL_END, VALUE, 1);
    OtherTagIsFree(CALL_END, VALUE_END, 2);
    FreeConcat(CALL_END, KEY, k);
    FreeConcat(CALL_END, KEY + k, KEY_END);
    FreeConcat(CALL_END, KEY + k + KEY_END, VALUE);
    FreeConcat(CALL_END, KEY + k + KEY_END + VALUE, v);
    FreeConcat(CALL_END, KEY + k + KEY_END + VALUE + v, VALUE_END);
  }
}
