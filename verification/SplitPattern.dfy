/** The split pattern. */
module SplitPattern {
  /*
   What the pretokenizer's rules stand for is the first match of a regular expression, with its alternatives
   tried in this order and every repetition greedy:

     (?i:'s|'t|'re|'ve|'m|'ll|'d) | [^\r\n\p{L}\p{N}]?\p{L}+ | \p{N}{1,3} | ` ?[^\s\p{L}\p{N}]+[\r\n]*` |
     \s*[\r\n]+ | \s+(?!\S) | \s+

   Matching is defined here by backtracking, without regard to how the pretokenizer finds its pieces.
  */

  import opened Strings
  import opened Utf8
  import opened Pretokenizer

  // ------------------------------------------------------------------ regular expressions

  // `AnyCase` is an ASCII letter, written as one byte.
  datatype CharSet = OneOf(c: Class) | NoneOf(cs: set<Class>) | Just(cp: nat) | AnyCase(letter: nat)

  datatype Regex =
    | One(set_: CharSet)
    | Star(set_: CharSet)
    | UpTo(set_: CharSet, most: nat)
    | NotBefore(set_: CharSet)
    | Then(first: Regex, second: Regex)
    | Or(first: Regex, second: Regex)

  predicate In(u: Unicode, set_: CharSet, ch: (nat, nat)) {
    match set_
    case OneOf(c) => Is(u, c, ch.0)
    case NoneOf(cs) => forall c :: c in cs ==> !Is(u, c, ch.0)
    case Just(cp) => ch.0 == cp
    case AnyCase(letter) => ch.1 == 1 && (ch.0 == letter || ch.0 + 32 == letter)
  }

  predicate Hit(u: Unicode, set_: CharSet, s: string, i: nat) {
    i < |s| && In(u, set_, CpAt(s, i))
  }

  function Next(s: string, i: nat): (k: nat)
    requires i < |s|
    ensures i < k <= |s|
  {
    i + CpAt(s, i).1
  }

  function Size(re: Regex): nat {
    match re
    case UpTo(_, most) => most
    case Then(a, b) => 1 + Size(a) + Size(b)
    case Or(a, b) => 1 + Size(a) + Size(b)
    case _ => 0
  }

  predicate Within(es: seq<nat>, lo: nat, hi: nat) {
    forall j :: 0 <= j < |es| ==> lo <= es[j] <= hi
  }

  /** Where a match that starts at `i` may end, in the order in which backtracking tries the ends. */
  function Ends(u: Unicode, re: Regex, s: string, i: nat): (es: seq<nat>)
    requires i <= |s|
    ensures Within(es, i, |s|)
    decreases Size(re), |s| - i, 0
  {
    match re
    case One(x) => if Hit(u, x, s, i) then [Next(s, i)] else []
    case Star(x) => if Hit(u, x, s, i) then Ends(u, re, s, Next(s, i)) + [i] else [i]
    case UpTo(x, most) => if most > 0 && Hit(u, x, s, i) then Ends(u, UpTo(x, most - 1), s, Next(s, i)) + [i] else [i]
    case NotBefore(x) => if Hit(u, x, s, i) then [] else [i]
    case Then(a, b) => EndsFrom(u, b, s, i, Ends(u, a, s, i))
    case Or(a, b) => Ends(u, a, s, i) + Ends(u, b, s, i)
  }

  // The ends of what starts at each of `starts` in turn.
  function EndsFrom(u: Unicode, re: Regex, s: string, i: nat, starts: seq<nat>): (es: seq<nat>)
    requires Within(starts, i, |s|)
    ensures Within(es, i, |s|)
    decreases Size(re), |s| + 1, |starts|
  {
    if starts == [] then [] else Ends(u, re, s, starts[0]) + EndsFrom(u, re, s, i, starts[1..])
  }

  function Head(es: seq<nat>): int {
    if es == [] then -1 else es[0]
  }

  /** The match itself; -1 if there is none. */
  function FirstMatch(u: Unicode, re: Regex, s: string, i: nat): int
    requires i <= |s|
  {
    Head(Ends(u, re, s, i))
  }

  // ------------------------------------------------------------------ the expression

  function Plus(x: CharSet): Regex {
    Then(One(x), Star(x))
  }

  function Quoted(rest: Regex): Regex {
    Then(One(Just(0x27)), rest)
  }

  function Ascii(c: char): Regex {
    One(AnyCase(c as nat))
  }

  function Contractions(): Regex {
    Or(Quoted(Ascii('s')), Or(Quoted(Ascii('t')), Or(Quoted(Then(Ascii('r'), Ascii('e'))),
    Or(Quoted(Then(Ascii('v'), Ascii('e'))), Or(Quoted(Ascii('m')), Or(Quoted(Then(Ascii('l'), Ascii('l'))),
    Quoted(Ascii('d'))))))))
  }

  const SIGN: CharSet := NoneOf({Blank, Letter, Number})

  function Words(): Regex { Then(UpTo(NoneOf({Newline, Letter, Number}), 1), Plus(OneOf(Letter))) }
  function Numbers(): Regex { Then(One(OneOf(Number)), UpTo(OneOf(Number), 2)) }
  function Signs(): Regex { Then(UpTo(Just(0x20), 1), Then(Plus(SIGN), Star(OneOf(Newline)))) }
  function Lines(): Regex { Then(Star(OneOf(Blank)), Plus(OneOf(Newline))) }
  function Gaps(): Regex { Then(Plus(OneOf(Blank)), NotBefore(NoneOf({Blank}))) }
  function Blanks(): Regex { Plus(OneOf(Blank)) }

  function Pattern(): Regex {
    Or(Contractions(), Or(Words(), Or(Numbers(), Or(Signs(), Or(Lines(), Or(Gaps(), Blanks()))))))
  }

  // ------------------------------------------------------------------ first ends

  lemma {:induction false} HeadOfSum(a: seq<nat>, b: seq<nat>)
    ensures Head(a + b) == if Head(a) != -1 then Head(a) else Head(b)
  {
  }

  lemma {:induction false} OneThen(u: Unicode, x: CharSet, re: Regex, s: string, i: nat)
    requires i <= |s|
    ensures Ends(u, Then(One(x), re), s, i) == if Hit(u, x, s, i) then Ends(u, re, s, Next(s, i)) else []
  {
    hide Hit, Next;
    var starts := Ends(u, One(x), s, i);
    if Hit(u, x, s, i) {
      assert starts == [Next(s, i)] && starts[1..] == [];
      assert EndsFrom(u, re, s, i, starts[1..]) == [];
    }
  }

  /** An optional character is taken if that leads to a match. */
  lemma {:induction false} MaybeThen(u: Unicode, x: CharSet, re: Regex, s: string, i: nat)
    requires i <= |s|
    ensures Ends(u, Then(UpTo(x, 1), re), s, i)
         == (if Hit(u, x, s, i) then Ends(u, re, s, Next(s, i)) else []) + Ends(u, re, s, i)
  {
    hide Hit, Next;
    var starts := Ends(u, UpTo(x, 1), s, i);
    if Hit(u, x, s, i) {
      assert Ends(u, UpTo(x, 0), s, Next(s, i)) == [Next(s, i)];
      assert starts == [Next(s, i), i] && starts[1..] == [i] && starts[1..][1..] == [];
      assert EndsFrom(u, re, s, i, starts[1..]) == Ends(u, re, s, i) + [];
    } else {
      assert starts == [i] && starts[1..] == [];
      assert EndsFrom(u, re, s, i, starts[1..]) == [];
    }
  }

  lemma {:induction false} FirstThen(u: Unicode, a: Regex, b: Regex, s: string, i: nat)
    requires i <= |s| && Ends(u, a, s, i) != [] && Ends(u, b, s, Ends(u, a, s, i)[0]) != []
    ensures FirstMatch(u, Then(a, b), s, i) == Ends(u, b, s, Ends(u, a, s, i)[0])[0]
  {
    hide Ends;
    ThenIs(u, a, b, s, i);
    var starts := Ends(u, a, s, i);
    assert EndsFrom(u, b, s, i, starts) == Ends(u, b, s, starts[0]) + EndsFrom(u, b, s, i, starts[1..]);
  }

  // A character of the class is one of the set.
  ghost predicate Means(u: Unicode, x: CharSet, c: Class) {
    forall ch: (nat, nat) :: In(u, x, ch) <==> Is(u, c, ch.0)
  }

  /** A greedy repetition first takes the whole run. */
  lemma {:induction false} StarTakesRun(u: Unicode, x: CharSet, c: Class, s: string, k: nat, most: nat)
    requires k <= |s| && Means(u, x, c) && most >= |s| - k
    ensures FirstMatch(u, Star(x), s, k) == RunEnd(u, c, s, k, most)
    decreases |s| - k
  {
    hide In, Is, CpAt;
    if Hit(u, x, s, k) { StarTakesRun(u, x, c, s, Next(s, k), most - 1); }
  }

  lemma {:induction false} UpToTakesRun(u: Unicode, x: CharSet, c: Class, s: string, k: nat, most: nat)
    requires k <= |s| && Means(u, x, c)
    ensures FirstMatch(u, UpTo(x, most), s, k) == RunEnd(u, c, s, k, most)
    decreases most
  {
    hide In, Is, CpAt;
    if most > 0 && Hit(u, x, s, k) { UpToTakesRun(u, x, c, s, Next(s, k), most - 1); }
  }

  lemma {:induction false} RunOn(u: Unicode, c: Class, s: string, k: nat, most: nat, more: nat)
    requires k <= |s| && most >= |s| - k && more >= |s| - k
    ensures RunEnd(u, c, s, k, most) == RunEnd(u, c, s, k, more)
    decreases |s| - k
  {
    hide Is, CpAt;
    if k < |s| && Is(u, c, CpAt(s, k).0) { RunOn(u, c, s, Next(s, k), most - 1, more - 1); }
  }

  lemma {:induction false} PlusTakesRun(u: Unicode, x: CharSet, c: Class, s: string, k: nat)
    requires k <= |s| && Means(u, x, c)
    ensures FirstMatch(u, Plus(x), s, k) == if RunEnd(u, c, s, k, |s|) > k then RunEnd(u, c, s, k, |s|) else -1
  {
    hide In, Is, CpAt, Ends;
    OneThen(u, x, Star(x), s, k);
    if Hit(u, x, s, k) { StarTakesRun(u, x, c, s, Next(s, k), |s| - 1); }
  }

  lemma {:induction false} EndsOfSum(u: Unicode, re: Regex, s: string, i: nat, k: nat, a: seq<nat>, b: seq<nat>)
    requires Within(a, k, |s|) && Within(b, i, |s|) && i <= k
    ensures EndsFrom(u, re, s, i, a + b) == EndsFrom(u, re, s, k, a) + EndsFrom(u, re, s, i, b)
    decreases |a|
  {
    hide Ends;
    if a == [] {
      assert a + b == b;
    } else {
      assert (a + b)[1..] == a[1..] + b;
      EndsOfSum(u, re, s, i, k, a[1..], b);
    }
  }

  lemma {:induction false} OneStart(u: Unicode, re: Regex, s: string, i: nat)
    requires i <= |s|
    ensures EndsFrom(u, re, s, i, [i]) == Ends(u, re, s, i)
  {
    hide Ends;
    assert [i][1..] == [];
    assert EndsFrom(u, re, s, i, [i][1..]) == [];
  }

  /** A greedy repetition gives its characters back one by one. */
  lemma {:induction false} StarThen(u: Unicode, x: CharSet, re: Regex, s: string, k: nat)
    requires k <= |s|
    ensures Ends(u, Then(Star(x), re), s, k)
         == (if Hit(u, x, s, k) then Ends(u, Then(Star(x), re), s, Next(s, k)) else []) + Ends(u, re, s, k)
  {
    hide In, CpAt, EndsFrom;
    OneStart(u, re, s, k);
    if Hit(u, x, s, k) {
      EndsOfSum(u, re, s, k, Next(s, k), Ends(u, Star(x), s, Next(s, k)), [k]);
    }
  }

  lemma {:induction false} PlusThen(u: Unicode, x: CharSet, re: Regex, s: string, i: nat)
    requires i <= |s|
    ensures Ends(u, Then(Plus(x), re), s, i)
         == if Hit(u, x, s, i) then Ends(u, Then(Star(x), re), s, Next(s, i)) else []
  {
    hide In, CpAt;
    OneThen(u, x, Star(x), s, i);
    assert EndsFrom(u, re, s, i, []) == [];
    if Hit(u, x, s, i) {
      var starts := Ends(u, Star(x), s, Next(s, i));
      EndsOfSum(u, re, s, i, Next(s, i), starts, []);
      assert starts + [] == starts;
    }
  }

  lemma {:induction false} Sets(u: Unicode)
    ensures Means(u, SIGN, Other) && forall c :: Means(u, OneOf(c), c)
  {
    hide IsLetter, IsNumber, IsBlank;
  }

  // ------------------------------------------------------------------ the alternatives, one by one

  lemma {:induction false} WordRun(u: Unicode, s: string, k: nat)
    requires k <= |s|
    ensures FirstMatch(u, Plus(OneOf(Letter)), s, k)
         == if k < |s| && IsLetter(u, CpAt(s, k).0) then RunEnd(u, Letter, s, Next(s, k), |s|) else -1
  {
    hide IsLetter, CpAt, Ends;
    Sets(u);
    PlusTakesRun(u, OneOf(Letter), Letter, s, k);
    if k < |s| { RunOn(u, Letter, s, Next(s, k), |s| - 1, |s|); }
  }

  lemma {:induction false} IsMark(u: Unicode, ch: (nat, nat))
    ensures In(u, NoneOf({Newline, Letter, Number}), ch)
        <==> !IsLetter(u, ch.0) && !IsNumber(u, ch.0) && !IsNewline(ch.0)
  {
    hide IsLetter, IsNumber, IsNewline;
  }

  lemma {:induction false} WordsMatch(u: Unicode, s: string, i: nat)
    requires i < |s|
    ensures var (c0, l0) := CpAt(s, i); var j := i + l0; var (c1, l1) := CpAt(s, j);
      FirstMatch(u, Words(), s, i)
      == if !IsLetter(u, c0) && !IsNumber(u, c0) && !IsNewline(c0) && l1 > 0 && IsLetter(u, c1) then
           RunEnd(u, Letter, s, j + l1, |s|)
         else if IsLetter(u, c0) then RunEnd(u, Letter, s, j, |s|)
         else -1
  {
    hide IsLetter, IsNumber, IsNewline, CpAt, Ends, In, RunEnd, Plus;
    var mark, word, j := NoneOf({Newline, Letter, Number}), Plus(OneOf(Letter)), Next(s, i);
    IsMark(u, CpAt(s, i));
    MaybeThen(u, mark, word, s, i);
    WordRun(u, s, i);
    WordRun(u, s, j);
    HeadOfSum(if Hit(u, mark, s, i) then Ends(u, word, s, j) else [], Ends(u, word, s, i));
  }

  lemma {:induction false} NumbersMatch(u: Unicode, s: string, i: nat)
    requires i < |s|
    ensures FirstMatch(u, Numbers(), s, i)
         == if IsNumber(u, CpAt(s, i).0) then RunEnd(u, Number, s, i, 3) else -1
  {
    hide IsNumber, CpAt, Ends;
    Sets(u);
    OneThen(u, OneOf(Number), UpTo(OneOf(Number), 2), s, i);
    UpToTakesRun(u, OneOf(Number), Number, s, Next(s, i), 2);
  }

  // Signs from `k` on, and the newlines behind them; -1 if there is no sign.
  function SignsFrom(u: Unicode, s: string, k: nat): int
    requires k <= |s|
  {
    var run := RunEnd(u, Other, s, k, |s|);
    if run > k then RunEnd(u, Newline, s, run, |s|) else -1
  }

  lemma {:induction false} SignsRun(u: Unicode, s: string, k: nat)
    requires k <= |s|
    ensures FirstMatch(u, Then(Plus(SIGN), Star(OneOf(Newline))), s, k) == SignsFrom(u, s, k)
  {
    hide IsLetter, IsNumber, IsNewline, IsBlank, CpAt, Ends, Plus, RunEnd, Means;
    Sets(u);
    PlusTakesRun(u, SIGN, Other, s, k);
    var run := RunEnd(u, Other, s, k, |s|);
    StarTakesRun(u, OneOf(Newline), Newline, s, run, |s|);
    if run > k {
      FirstThen(u, Plus(SIGN), Star(OneOf(Newline)), s, k);
    } else {
      NothingThen(u, Plus(SIGN), Star(OneOf(Newline)), s, k);
    }
  }

  lemma {:induction false} ThenIs(u: Unicode, a: Regex, b: Regex, s: string, i: nat)
    requires i <= |s|
    ensures Ends(u, Then(a, b), s, i) == EndsFrom(u, b, s, i, Ends(u, a, s, i))
  {
  }

  lemma {:induction false} NothingThen(u: Unicode, a: Regex, b: Regex, s: string, i: nat)
    requires i <= |s| && FirstMatch(u, a, s, i) == -1
    ensures FirstMatch(u, Then(a, b), s, i) == -1
  {
    hide Ends;
    ThenIs(u, a, b, s, i);
    assert Ends(u, a, s, i) == [];
  }

  lemma {:induction false} SignsMatch(u: Unicode, s: string, i: nat)
    requires i < |s|
    ensures var (c0, l0) := CpAt(s, i);
      FirstMatch(u, Signs(), s, i)
      == if c0 == 32 && SignsFrom(u, s, i + l0) != -1 then SignsFrom(u, s, i + l0) else SignsFrom(u, s, i)
  {
    hide CpAt, Ends, SignsFrom, Plus;
    var signs := Then(Plus(SIGN), Star(OneOf(Newline)));
    MaybeThen(u, Just(0x20), signs, s, i);
    SignsRun(u, s, i);
    SignsRun(u, s, Next(s, i));
    HeadOfSum(if Hit(u, Just(0x20), s, i) then Ends(u, signs, s, Next(s, i)) else [], Ends(u, signs, s, i));
  }

  // ------------------------------------------------------------------ blanks

  lemma {:induction false} NewlineFrom(s: string, k: nat, last: nat)
    requires last <= k <= |s|
    ensures LastNewline(s, k, last) == if LastNewline(s, k, k) > k then LastNewline(s, k, k) else last
    decreases |s| - k
  {
    hide IsBlank, IsNewline, CpAt;
    if k < |s| && IsBlank(CpAt(s, k).0) {
      var next := Next(s, k);
      NewlineFrom(s, next, k);
      NewlineFrom(s, next, last);
    }
  }

  lemma {:induction false} NewlineIsBlank(cp: nat)
    ensures IsNewline(cp) ==> IsBlank(cp)
  {
  }

  // One newline, when none follows among the blanks.
  lemma {:induction false} LastLine(u: Unicode, s: string, k: nat)
    requires k <= |s| && (k < |s| && IsNewline(CpAt(s, k).0) ==> LastNewline(s, Next(s, k), Next(s, k)) == Next(s, k))
    ensures FirstMatch(u, Plus(OneOf(Newline)), s, k) == if k < |s| && IsNewline(CpAt(s, k).0) then Next(s, k) else -1
  {
    hide IsBlank, IsNewline, CpAt, Ends;
    Sets(u);
    PlusTakesRun(u, OneOf(Newline), Newline, s, k);
    if k < |s| && IsNewline(CpAt(s, k).0) {
      var next := Next(s, k);
      if next < |s| { NewlineIsBlank(CpAt(s, next).0); NewlineFrom(s, Next(s, next), next); }
    }
  }

  lemma {:induction false} LinesMatch(u: Unicode, s: string, k: nat)
    requires k <= |s|
    ensures FirstMatch(u, Lines(), s, k) == if LastNewline(s, k, k) > k then LastNewline(s, k, k) else -1
    decreases |s| - k
  {
    hide IsBlank, IsNewline, CpAt, Ends, Plus;
    StarThen(u, OneOf(Blank), Plus(OneOf(Newline)), s, k);
    if k < |s| && IsBlank(CpAt(s, k).0) {
      var next := Next(s, k);
      LinesMatch(u, s, next);
      NewlineFrom(s, next, next);
      NewlineFrom(s, next, k);
      HeadOfSum(Ends(u, Lines(), s, next), Ends(u, Plus(OneOf(Newline)), s, k));
      if LastNewline(s, next, next) == next { LastLine(u, s, k); }
    } else {
      if k < |s| { NewlineIsBlank(CpAt(s, k).0); }
      LastLine(u, s, k);
    }
  }

  // Where the last blank of the run that `k` is in starts.
  function LastBlank(s: string, k: nat): (b: nat)
    requires k < |s| && IsBlank(CpAt(s, k).0)
    ensures k <= b < |s| && IsBlank(CpAt(s, b).0)
    decreases |s| - k
  {
    var next := Next(s, k);
    if next < |s| && IsBlank(CpAt(s, next).0) then LastBlank(s, next) else k
  }

  lemma {:induction false} LastBlankEnds(u: Unicode, s: string, k: nat, most: nat)
    requires k < |s| && IsBlank(CpAt(s, k).0) && most >= |s| - k
    ensures RunEnd(u, Blank, s, k, most) == Next(s, LastBlank(s, k))
    decreases |s| - k
  {
    hide IsBlank, CpAt;
    var next := Next(s, k);
    if next < |s| && IsBlank(CpAt(s, next).0) { LastBlankEnds(u, s, next, most - 1); }
  }

  /** Blanks that no character but a blank follows: all of them at the end of the text, else all but the last. */
  lemma {:induction false} GapFrom(u: Unicode, s: string, k: nat)
    requires k <= |s|
    ensures FirstMatch(u, Then(Star(OneOf(Blank)), NotBefore(NoneOf({Blank}))), s, k)
         == if RunEnd(u, Blank, s, k, |s|) == |s| then |s|
            else if k < |s| && IsBlank(CpAt(s, k).0) then LastBlank(s, k)
            else -1
    decreases |s| - k
  {
    hide IsBlank, CpAt, Ends;
    var gap, stop := Then(Star(OneOf(Blank)), NotBefore(NoneOf({Blank}))), NotBefore(NoneOf({Blank}));
    StarThen(u, OneOf(Blank), stop, s, k);
    StopHere(u, s, k);
    if k < |s| && IsBlank(CpAt(s, k).0) {
      var next := Next(s, k);
      GapFrom(u, s, next);
      HeadOfSum(Ends(u, gap, s, next), Ends(u, stop, s, k));
      RunOn(u, Blank, s, next, |s| - 1, |s|);
      LastBlankEnds(u, s, k, |s|);
    }
  }

  lemma {:induction false} StopHere(u: Unicode, s: string, k: nat)
    requires k <= |s|
    ensures Ends(u, NotBefore(NoneOf({Blank})), s, k) == if k < |s| && !IsBlank(CpAt(s, k).0) then [] else [k]
  {
    hide IsBlank, CpAt;
  }

  lemma {:induction false} GapsMatch(u: Unicode, s: string, i: nat)
    requires i < |s| && IsBlank(CpAt(s, i).0)
    ensures var k := RunEnd(u, Blank, s, i, |s|); var b := LastBlank(s, i);
      FirstMatch(u, Gaps(), s, i) == if k == |s| then k else if b > i then b else -1
  {
    hide IsBlank, CpAt, Ends;
    var next := Next(s, i);
    GapFrom(u, s, next);
    PlusThen(u, OneOf(Blank), NotBefore(NoneOf({Blank})), s, i);
    RunOn(u, Blank, s, next, |s| - 1, |s|);
    LastBlankEnds(u, s, i, |s|);
  }

  // ------------------------------------------------------------------ contractions

  lemma {:induction false} LetterHit(u: Unicode, s: string, j: nat, c: char)
    requires 'a' <= c <= 'z'
    ensures Hit(u, AnyCase(c as nat), s, j) <==> j < |s| && Lower(s[j]) == c
    ensures Hit(u, AnyCase(c as nat), s, j) ==> Next(s, j) == j + 1
  {
  }

  lemma {:induction false} FollowedByLetters(s: string, j: nat, c: char, d: char)
    ensures FollowedBy(s, j, [c]) <==> j < |s| && Lower(s[j]) == c
    ensures FollowedBy(s, j, [c, d]) <==> j + 1 < |s| && Lower(s[j]) == c && Lower(s[j + 1]) == d
  {
    hide Lower;
    if FollowedBy(s, j, [c]) { assert Lower(s[j + 0]) == [c][0]; }
    if FollowedBy(s, j, [c, d]) { assert Lower(s[j + 0]) == [c, d][0] && Lower(s[j + 1]) == [c, d][1]; }
  }

  lemma {:induction false} OneLetter(u: Unicode, s: string, i: nat, c: char)
    requires i < |s| && 'a' <= c <= 'z'
    ensures FirstMatch(u, Quoted(Ascii(c)), s, i)
         == if CpAt(s, i).0 == 0x27 && FollowedBy(s, Next(s, i), [c]) then Next(s, i) + 1 else -1
  {
    hide CpAt, Lower, Ends, FollowedBy;
    var j := Next(s, i);
    OneThen(u, Just(0x27), Ascii(c), s, i);
    OneAlone(u, AnyCase(c as nat), s, j);
    LetterHit(u, s, j, c);
    FollowedByLetters(s, j, c, c);
  }

  lemma {:induction false} OneAlone(u: Unicode, x: CharSet, s: string, j: nat)
    requires j <= |s|
    ensures Ends(u, One(x), s, j) == if Hit(u, x, s, j) then [Next(s, j)] else []
  {
  }

  lemma {:induction false} TwoLetters(u: Unicode, s: string, i: nat, c: char, d: char)
    requires i < |s| && 'a' <= c <= 'z' && 'a' <= d <= 'z'
    ensures FirstMatch(u, Quoted(Then(Ascii(c), Ascii(d))), s, i)
         == if CpAt(s, i).0 == 0x27 && FollowedBy(s, Next(s, i), [c, d]) then Next(s, i) + 2 else -1
  {
    hide CpAt, Lower, Ends, FollowedBy;
    var j := Next(s, i);
    FollowedByLetters(s, j, c, d);
    OneThen(u, Just(0x27), Then(Ascii(c), Ascii(d)), s, i);
    OneThen(u, AnyCase(c as nat), Ascii(d), s, j);
    LetterHit(u, s, j, c);
    if Hit(u, AnyCase(c as nat), s, j) {
      OneAlone(u, AnyCase(d as nat), s, j + 1);
      LetterHit(u, s, j + 1, d);
    }
  }

  /** No two contractions begin alike, so the longest that follows is the only one. */
  lemma {:induction false} OneFollows(s: string, j: nat, x: string)
    requires j <= |s| && x in CONTRACTIONS && FollowedBy(s, j, x)
    ensures LongestContraction(s, j, |CONTRACTIONS|) == |x|
    ensures forall y :: y in CONTRACTIONS && FollowedBy(s, j, y) ==> y == x
  {
    hide LongestContraction, Lower;
    forall y | y in CONTRACTIONS && FollowedBy(s, j, y)
      ensures y == x
    {
      assert Lower(s[j + 0]) == x[0] && Lower(s[j + 0]) == y[0];
    }
    var n := LongestContraction(s, j, |CONTRACTIONS|);
    var i :| 0 <= i < |CONTRACTIONS| && CONTRACTIONS[i] == x;
  }

  function Either(a: int, b: int): int {
    if a != -1 then a else b
  }

  lemma {:induction false} OrMatch(u: Unicode, a: Regex, b: Regex, s: string, i: nat)
    requires i <= |s|
    ensures FirstMatch(u, Or(a, b), s, i) == Either(FirstMatch(u, a, s, i), FirstMatch(u, b, s, i))
  {
  }

  lemma {:induction false} ContractionsMatch(u: Unicode, s: string, i: nat)
    requires i < |s|
    ensures var j := Next(s, i); var n := LongestContraction(s, j, |CONTRACTIONS|);
      FirstMatch(u, Contractions(), s, i) == if CpAt(s, i).0 == 39 && n > 0 then j + n else -1
  {
    hide CpAt, Ends, FirstMatch, FollowedBy, LongestContraction, Quoted, Ascii;
    var j := Next(s, i);
    OneLetter(u, s, i, 's');
    OneLetter(u, s, i, 't');
    TwoLetters(u, s, i, 'r', 'e');
    TwoLetters(u, s, i, 'v', 'e');
    OneLetter(u, s, i, 'm');
    TwoLetters(u, s, i, 'l', 'l');
    OneLetter(u, s, i, 'd');
    var f := Quoted(Ascii('d'));
    var e := Or(Quoted(Then(Ascii('l'), Ascii('l'))), f);
    var d := Or(Quoted(Ascii('m')), e);
    var c := Or(Quoted(Then(Ascii('v'), Ascii('e'))), d);
    var b := Or(Quoted(Then(Ascii('r'), Ascii('e'))), c);
    var a := Or(Quoted(Ascii('t')), b);
    OrMatch(u, Quoted(Ascii('s')), a, s, i);
    OrMatch(u, Quoted(Ascii('t')), b, s, i);
    OrMatch(u, Quoted(Then(Ascii('r'), Ascii('e'))), c, s, i);
    OrMatch(u, Quoted(Then(Ascii('v'), Ascii('e'))), d, s, i);
    OrMatch(u, Quoted(Ascii('m')), e, s, i);
    OrMatch(u, Quoted(Then(Ascii('l'), Ascii('l'))), f, s, i);
    var n := LongestContraction(s, j, |CONTRACTIONS|);
    assert CONTRACTIONS[0] == ['s'] && CONTRACTIONS[1] == ['t'];
    assert CONTRACTIONS[2] == ['r', 'e'] && CONTRACTIONS[3] == ['v', 'e'];
    assert CONTRACTIONS[4] == ['m'] && CONTRACTIONS[5] == ['l', 'l'] && CONTRACTIONS[6] == ['d'];
    if n > 0 {
      var x :| 0 <= x < |CONTRACTIONS| && FollowedBy(s, j, CONTRACTIONS[x]) && |CONTRACTIONS[x]| == n;
      OneFollows(s, j, CONTRACTIONS[x]);
    }
  }

  // ------------------------------------------------------------------ the whole expression

  lemma {:induction false} PatternMatch(u: Unicode, s: string, i: nat)
    requires i <= |s|
    ensures FirstMatch(u, Pattern(), s, i) ==
      Either(FirstMatch(u, Contractions(), s, i), Either(FirstMatch(u, Words(), s, i),
      Either(FirstMatch(u, Numbers(), s, i), Either(FirstMatch(u, Signs(), s, i),
      Either(FirstMatch(u, Lines(), s, i), Either(FirstMatch(u, Gaps(), s, i), FirstMatch(u, Blanks(), s, i)))))))
  {
    hide Ends, FirstMatch, Contractions, Words, Numbers, Signs, Lines, Gaps, Blanks;
    var e := Or(Gaps(), Blanks());
    var d := Or(Lines(), e);
    var c := Or(Signs(), d);
    var b := Or(Numbers(), c);
    OrMatch(u, Contractions(), Or(Words(), b), s, i);
    OrMatch(u, Words(), b, s, i);
    OrMatch(u, Numbers(), c, s, i);
    OrMatch(u, Signs(), d, s, i);
    OrMatch(u, Lines(), e, s, i);
    OrMatch(u, Gaps(), Blanks(), s, i);
  }

  // What the last three alternatives match.
  function BlanksEnd(u: Unicode, s: string, i: nat): int
    requires i < |s| && IsBlank(CpAt(s, i).0)
  {
    var k := RunEnd(u, Blank, s, i, |s|);
    if LastNewline(s, i, i) > i then LastNewline(s, i, i)
    else if k == |s| then k
    else if LastBlank(s, i) > i then LastBlank(s, i)
    else k
  }

  lemma {:induction false} BlanksMatch(u: Unicode, s: string, i: nat)
    requires i < |s| && IsBlank(CpAt(s, i).0)
    ensures BlanksEnd(u, s, i) == Either(FirstMatch(u, Lines(), s, i),
                                    Either(FirstMatch(u, Gaps(), s, i), FirstMatch(u, Blanks(), s, i)))
    ensures RunEnd(u, Blank, s, i, |s|) > i
  {
    hide CpAt, Ends, FirstMatch, IsBlank, RunEnd, LastNewline, LastBlank, Lines, Gaps, Plus;
    LinesMatch(u, s, i);
    GapsMatch(u, s, i);
    BlankHere(u, s, i);
    Sets(u);
    PlusTakesRun(u, OneOf(Blank), Blank, s, i);
  }

  lemma {:induction false} BlankHere(u: Unicode, s: string, i: nat)
    requires i < |s| && IsBlank(CpAt(s, i).0)
    ensures RunEnd(u, Blank, s, i, |s|) > i
  {
  }

  // The alternatives from the fourth on.
  function SignsOrBlanks(u: Unicode, s: string, i: nat): int
    requires i < |s|
  {
    var (c0, l0) := CpAt(s, i);
    if c0 == 32 && SignsFrom(u, s, i + l0) != -1 then SignsFrom(u, s, i + l0)
    else if SignsFrom(u, s, i) != -1 then SignsFrom(u, s, i)
    else if IsBlank(c0) then BlanksEnd(u, s, i)
    else -1
  }

  lemma {:induction false} SignsOrBlanksMatch(u: Unicode, s: string, i: nat)
    requires i < |s| && !IsLetter(u, CpAt(s, i).0) && !IsNumber(u, CpAt(s, i).0)
    ensures SignsOrBlanks(u, s, i) ==
      Either(FirstMatch(u, Signs(), s, i),
      Either(FirstMatch(u, Lines(), s, i), Either(FirstMatch(u, Gaps(), s, i), FirstMatch(u, Blanks(), s, i))))
    ensures SignsOrBlanks(u, s, i) != -1
  {
    SignHere(u, s, i);
    hide CpAt, Ends, FirstMatch, IsBlank, IsLetter, IsNumber, SignsFrom, Lines, Gaps, Blanks, Signs, BlanksEnd;
    SignsMatch(u, s, i);
    if IsBlank(CpAt(s, i).0) { BlanksMatch(u, s, i); BlanksEndIs(u, s, i); }
  }

  lemma {:induction false} BlanksEndIs(u: Unicode, s: string, i: nat)
    requires i < |s| && IsBlank(CpAt(s, i).0)
    ensures BlanksEnd(u, s, i) != -1
  {
  }

  // What is no letter, number or blank is a sign.
  lemma {:induction false} SignHere(u: Unicode, s: string, i: nat)
    requires i < |s| && !IsLetter(u, CpAt(s, i).0) && !IsNumber(u, CpAt(s, i).0)
    ensures SignsFrom(u, s, i) == -1 <==> IsBlank(CpAt(s, i).0)
  {
    hide CpAt, IsBlank, IsLetter, IsNumber;
  }

  // What the expression matches, alternative by alternative.
  function MatchEnd(u: Unicode, s: string, i: nat): int
    requires i < |s|
  {
    var (c0, l0) := CpAt(s, i);
    var j := i + l0;
    var (c1, l1) := CpAt(s, j);
    var n := LongestContraction(s, j, |CONTRACTIONS|);
    if c0 == 39 && n > 0 then j + n
    else if !IsLetter(u, c0) && !IsNumber(u, c0) && !IsNewline(c0) && l1 > 0 && IsLetter(u, c1) then
      RunEnd(u, Letter, s, j + l1, |s|)
    else if IsLetter(u, c0) then RunEnd(u, Letter, s, j, |s|)
    else if IsNumber(u, c0) then RunEnd(u, Number, s, i, 3)
    else SignsOrBlanks(u, s, i)
  }

  lemma {:induction false} MatchEndIs(u: Unicode, s: string, i: nat)
    requires i < |s|
    ensures MatchEnd(u, s, i) == FirstMatch(u, Pattern(), s, i)
  {
    hide CpAt, FirstMatch, IsBlank, IsLetter, IsNumber, IsNewline, Pattern, Contractions, Words, Numbers, Lines, Gaps,
         Blanks,
         Signs, SignsOrBlanks, LongestContraction, RunEnd;
    PatternMatch(u, s, i);
    ContractionsMatch(u, s, i);
    WordsMatch(u, s, i);
    NumbersMatch(u, s, i);
    if !IsLetter(u, CpAt(s, i).0) && !IsNumber(u, CpAt(s, i).0) { SignsOrBlanksMatch(u, s, i); }
  }

  // ------------------------------------------------------------------ where the two part

  /**
   A run of blanks before something else, its last blank of several bytes: the expression leaves that blank over,
   the pretokenizer its last byte.
  */
  predicate CutsWideBlank(u: Unicode, s: string, i: nat)
    requires i < |s|
  {
    && IsBlankPiece(u, s, i) && LastNewline(s, i, i) == i
    && var k := RunEnd(u, Blank, s, i, |s|); k < |s| && k - i >= 2 && k - LastBlank(s, i) >= 2
  }

  lemma {:induction false} BlankEndIff(u: Unicode, s: string, i: nat)
    requires i < |s| && IsBlank(CpAt(s, i).0)
    ensures BlankEnd(u, s, i) == BlanksEnd(u, s, i) <==>
      !(LastNewline(s, i, i) == i &&
        var k := RunEnd(u, Blank, s, i, |s|); k < |s| && k - i >= 2 && k - LastBlank(s, i) >= 2)
  {
    hide CpAt, IsBlank, RunEnd, LastNewline, LastBlank;
    LastBlankEnds(u, s, i, |s|);
  }

  lemma {:induction false} BlankPieceMatch(u: Unicode, s: string, i: nat)
    requires i < |s| && IsBlankPiece(u, s, i) && (CpAt(s, i).0 == 32 ==> SignsFrom(u, s, Next(s, i)) == -1)
    ensures IsBlank(CpAt(s, i).0) && MatchEnd(u, s, i) == BlanksEnd(u, s, i)
  {
    hide IsBlank, IsLetter, IsNumber, IsNewline, CpAt, LongestContraction, RunEnd, BlanksEnd;
    QuoteIsNoBlank();
    SignHere(u, s, i);
  }

  /** With an ordinary space, if any, a piece is the first match of the expression unless that happens. */
  lemma {:induction false} PieceIsFirstMatchIff(u: Unicode, s: string, i: nat)
    requires i < |s| && (CpAt(s, i).0 == 32 ==> s[i] == ' ')
    ensures NextEnd(u, s, i) == FirstMatch(u, Pattern(), s, i) <==> !CutsWideBlank(u, s, i)
  {
    hide FirstMatch, Pattern, IsBlank, IsLetter, IsNumber, IsNewline, CpAt, LongestContraction, RunEnd, BlankEnd,
         BlanksEnd,
         LastNewline, LastBlank, SignsOrBlanks, IsBlankPiece;
    MatchEndIs(u, s, i);
    if IsBlankPiece(u, s, i) {
      SpaceIsOneByte(s, i);
      NoSigns(u, s, i);
      BlankPieceMatch(u, s, i);
      BlankPieceEnd(u, s, i);
      BlankEndIff(u, s, i);
    } else {
      OtherPieceMatch(u, s, i);
    }
  }

  lemma {:induction false} OtherPieceMatch(u: Unicode, s: string, i: nat)
    requires i < |s| && !IsBlankPiece(u, s, i) && (CpAt(s, i).0 == 32 ==> s[i] == ' ')
    ensures NextEnd(u, s, i) == MatchEnd(u, s, i)
  {
    hide IsBlank, IsLetter, IsNumber, IsNewline, CpAt, LongestContraction, RunEnd, BlankEnd, BlanksEnd;
    SpaceIsOneByte(s, i);
    SpaceIsBlank(u);
    if !IsLetter(u, CpAt(s, i).0) && !IsNumber(u, CpAt(s, i).0) { SignHere(u, s, i); }
  }


  lemma {:induction false} NoSigns(u: Unicode, s: string, i: nat)
    requires i < |s| && IsBlankPiece(u, s, i)
    ensures CpAt(s, i).0 == 32 ==> SignsFrom(u, s, i + 1) == -1
  {
    hide IsBlank, IsLetter, IsNumber, IsNewline, CpAt, RunEnd;
  }

  // An overlong space before signs, or taken apart into signs itself.
  predicate SplitsSpace(u: Unicode, s: string, i: nat)
    requires i < |s|
  {
    IsOverlongSpace(u, s, i)
    && (RunEnd(u, Other, s, i + 1, |s|) > i + 1 || RunEnd(u, Other, s, Next(s, i), |s|) > Next(s, i))
  }

  // No alternative ends within the blank it starts with.
  lemma {:induction false} MatchTakesBlank(u: Unicode, s: string, i: nat)
    requires i < |s| && IsBlank(CpAt(s, i).0)
    ensures SignsOrBlanks(u, s, i) >= Next(s, i)
  {
    hide CpAt, IsBlank, IsLetter, IsNumber, LastNewline, LastBlank;
    BlankHere(u, s, i);
    NoOtherHere(u, s, i);
    LastBlankEnds(u, s, i, |s|);
    NewlineBehind(s, i);
    LastBlankBehind(s, i);
  }

  lemma {:induction false} NewlineBehind(s: string, i: nat)
    requires i < |s|
    ensures LastNewline(s, i, i) > i ==> LastNewline(s, i, i) >= Next(s, i)
  {
    hide CpAt, IsBlank, IsNewline;
    if IsBlank(CpAt(s, i).0) {
      NewlineFrom(s, Next(s, i), i);
      NewlineFrom(s, Next(s, i), Next(s, i));
    }
  }

  lemma {:induction false} LastBlankBehind(s: string, i: nat)
    requires i < |s| && IsBlank(CpAt(s, i).0)
    ensures LastBlank(s, i) == i || LastBlank(s, i) >= Next(s, i)
  {
    hide CpAt, IsBlank;
  }

  // Before a sign the run is the space alone.
  lemma {:induction false} SpaceBeforeSign(u: Unicode, s: string, i: nat)
    requires i < |s| && CpAt(s, i).0 == 32 && RunEnd(u, Other, s, Next(s, i), |s|) > Next(s, i)
    ensures RunEnd(u, Blank, s, i, |s|) == Next(s, i) < |s| && LastNewline(s, i, i) == i
  {
    hide CpAt, IsBlank, IsLetter, IsNumber, IsNewline;
    SpaceIsBlank(u);
  }

  lemma {:induction false} SplitSpaceDiffers(u: Unicode, s: string, i: nat)
    requires i < |s| && Whole(s[i..]) && SplitsSpace(u, s, i)
    ensures NextEnd(u, s, i) < MatchEnd(u, s, i)
  {
    hide CpAt, IsBlank, IsLetter, IsNumber, IsNewline, LongestContraction, RunEnd, Whole, BlanksEnd, SignsOrBlanks,
         BlankEnd;
    var j := Next(s, i);
    SpaceIsBlank(u);
    OverlongBytes(s, i);
    MatchTakesBlank(u, s, i);
    if RunEnd(u, Other, s, i + 1, |s|) > i + 1 {
      CutSpaceEnd(u, s, i);
    } else {
      SpaceBeforeSign(u, s, i);
      BlankPieceEnd(u, s, i);
      OneBlankShort(u, s, i);
    }
  }

  lemma {:induction false} OneBlankShort(u: Unicode, s: string, i: nat)
    requires i < |s| && IsBlank(CpAt(s, i).0)
    requires RunEnd(u, Blank, s, i, |s|) == Next(s, i) < |s| && LastNewline(s, i, i) == i && Next(s, i) >= i + 2
    ensures BlankEnd(u, s, i) == Next(s, i) - 1
  {
    hide CpAt, IsBlank, RunEnd, LastNewline;
  }

  /**
   In a text of complete characters a piece is the first match of the expression exactly unless a run of
   blanks ends in a wide one that the pretokenizer cuts, or a space in an overlong form comes before signs or
   is taken apart into signs.
  */
  lemma {:induction false} PieceIsFirstMatch(u: Unicode, s: string, i: nat)
    requires i < |s| && Whole(s[i..])
    ensures NextEnd(u, s, i) == FirstMatch(u, Pattern(), s, i) <==> !CutsWideBlank(u, s, i) && !SplitsSpace(u, s, i)
  {
    hide CpAt, IsBlank, IsLetter, IsNumber, IsNewline, LongestContraction, RunEnd, Whole, BlanksEnd, SignsOrBlanks,
         BlankEnd,
         IsBlankPiece, CutsWideBlank, FirstMatch, Pattern, LastNewline, LastBlank, NextEnd, MatchEnd;
    if CpAt(s, i).0 == 32 && s[i] != ' ' {
      MatchEndIs(u, s, i);
      if SplitsSpace(u, s, i) { SplitSpaceDiffers(u, s, i); } else { WholeSpace(u, s, i); }
    } else {
      PieceIsFirstMatchIff(u, s, i);
    }
  }

  // An overlong space that is left in one piece goes by the rules for words or for blanks.
  lemma {:induction false} WholeSpace(u: Unicode, s: string, i: nat)
    requires i < |s| && CpAt(s, i).0 == 32 && s[i] != ' ' && !SplitsSpace(u, s, i)
    ensures NextEnd(u, s, i) == MatchEnd(u, s, i) <==> !CutsWideBlank(u, s, i)
  {
    hide CpAt, IsBlank, IsLetter, IsNumber, IsNewline, LongestContraction, RunEnd, BlanksEnd, BlankEnd, LastNewline,
         LastBlank;
    SpaceIsBlank(u);
    if IsOverlongSpace(u, s, i) {
      BlankPieceMatch(u, s, i);
      BlankPieceEnd(u, s, i);
      BlankEndIff(u, s, i);
    }
  }

  // ------------------------------------------------------------------ whole texts

  /** The successive matches of the expression, as (start, end), for as long as it matches. */
  function Matches(u: Unicode, s: string, i: nat): seq<(nat, nat)>
    requires i <= |s|
    decreases |s| - i
  {
    if i == |s| then [] else
      var e := FirstMatch(u, Pattern(), s, i);
      if i < e <= |s| then [(i, e)] + Matches(u, s, e) else []
  }

  // A piece that starts at `i` is where the two part.
  predicate Parts(u: Unicode, s: string, i: nat)
    requires i < |s|
  {
    CutsWideBlank(u, s, i) || SplitsSpace(u, s, i)
  }

  ghost predicate NeverParts(u: Unicode, s: string, i: nat)
    requires i <= |s|
    decreases |s| - i
  {
    i < |s| ==> !Parts(u, s, i) && NeverParts(u, s, NextEnd(u, s, i))
  }

  lemma {:induction false} LastBlankIsWhole(s: string, i: nat, k: nat)
    requires Boundary(s, i, k) && k < |s| && IsBlank(CpAt(s, k).0)
    ensures Boundary(s, i, LastBlank(s, k))
    decreases |s| - k
  {
    hide Whole, CpAt, IsBlank, Boundary;
    var next := Next(s, k);
    BoundaryRest(s, i, k);
    if next < |s| && IsBlank(CpAt(s, next).0) {
      CharacterIsWhole(s, k);
      BoundaryTrans(s, i, k, next);
      LastBlankIsWhole(s, i, next);
    }
  }

  lemma {:induction false} HighByteIsWide(s: string, b: nat)
    requires b < |s| && Whole(s[b..]) && CpAt(s, b).1 == 1
    ensures s[b] as int < 0x80
  {
    assert CharAt(s[b..], 0, SeqLen(s[b..][0]));
    var t := s[b..];
    assert forall k :: 0 <= k < |t| ==> t[k] == s[b + k];
  }

  /** Where the two agree on a text of complete characters, the rest is one as well. */
  lemma {:induction false} RestIsWhole(u: Unicode, s: string, i: nat)
    requires i < |s| && Whole(s[i..]) && !Parts(u, s, i)
    ensures Whole(s[NextEnd(u, s, i)..])
  {
    hide CpAt, IsBlank, RunEnd, Whole, IsBlankPiece, LastNewline, LastBlank, NextEnd;
    if CutsBlank(u, s, i) {
      BlankPieceIsBlank(u, s, i);
      var b := LastBlank(s, i);
      BoundaryHere(s, i);
      LastBlankIsWhole(s, i, i);
      LastBlankEnds(u, s, i, |s|);
      assert CpAt(s, b).1 == 1;
      HighByteIsWide(s, b);
      assert false;
    }
    PieceIsWholeUnlessBlankIsCut(u, s, i);
    var e := NextEnd(u, s, i);
    assert s[i..e] + s[e..] == s[i..];
    WholeTail(s[i..e], s[e..]);
  }

  lemma {:induction false} BlankPieceIsBlank(u: Unicode, s: string, i: nat)
    requires i < |s| && IsBlankPiece(u, s, i)
    ensures IsBlank(CpAt(s, i).0)
  {
  }

  /**
   The pieces of a text of complete characters are the successive matches of the expression exactly when none
   of them starts where the two part.
  */
  lemma {:induction false} PiecesAreMatches(u: Unicode, s: string, i: nat)
    requires i <= |s| && Whole(s[i..])
    ensures Pieces(u, s, i) == Matches(u, s, i) <==> NeverParts(u, s, i)
    decreases |s| - i
  {
    hide NextEnd, Whole, FirstMatch, Pattern, CutsWideBlank, SplitsSpace;
    if i < |s| {
      PieceIsFirstMatch(u, s, i);
      var e := NextEnd(u, s, i);
      var ps, ms := Pieces(u, s, i), Matches(u, s, i);
      assert ps == [(i, e)] + Pieces(u, s, e);
      if !Parts(u, s, i) {
        RestIsWhole(u, s, i);
        PiecesAreMatches(u, s, e);
        assert ms == [(i, e)] + Matches(u, s, e);
        assert ps[1..] == Pieces(u, s, e) && ms[1..] == Matches(u, s, e);
      } else {
        assert ms == [] || ms[0] != ps[0];
      }
    }
  }
}
