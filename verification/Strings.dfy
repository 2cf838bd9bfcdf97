/**
 The string operations the chat and tokenizer code relies on. A character stands for one byte.
*/
module Strings {

  /** `p` occurs in `s` at `i`. */
  predicate At(p: string, s: string, i: int) {
    0 <= i && i + |p| <= |s| && s[i..i + |p|] == p
  }

  /** The first occurrence at or after `from`; -1 when there is none, or when `from` is already -1. */
  function Find(p: string, s: string, from: int): (r: int)
    ensures r == -1 ==> forall i :: 0 <= from <= i ==> !At(p, s, i)
    ensures r != -1 ==> 0 <= from <= r && At(p, s, r) && forall i :: from <= i < r ==> !At(p, s, i)
    decreases |s| - from
  {
    if from < 0 || from + |p| > |s| then -1
    else if At(p, s, from) then from
    else Find(p, s, from + 1)
  }

  lemma {:induction false} AtIndex(p: string, s: string, i: int, k: nat)
    requires At(p, s, i) && k < |p|
    ensures s[i + k] == p[k]
  {
    assert s[i..i + |p|][k] == p[k];
  }

  lemma {:induction false} SliceOfSlice(s: string, a: nat, b: nat, c: nat, d: nat)
    requires a <= b <= |s| && c <= d <= b - a
    ensures s[a..b][c..d] == s[a + c..a + d]
  {
    var x, y := s[a..b][c..d], s[a + c..a + d];
    forall k | 0 <= k < |x|
      ensures x[k] == y[k]
    {
    }
  }

  lemma {:induction false} Regroup<T>(a: seq<T>, b: seq<T>, c: seq<T>)
    ensures a + (b + c) == a + b + c
  {
  }

  lemma {:induction false} NotAt(p: string, s: string, i: nat, k: nat)
    requires k < |p| && i + k < |s| && s[i + k] != p[k]
    ensures !At(p, s, i)
  {
    assert i + |p| <= |s| ==> s[i..i + |p|][k] == s[i + k];
  }

  /** An occurrence within the first part is one in the whole, and the other way round. */
  lemma {:induction false} AtPrefix(p: string, s: string, rest: string, i: int)
    requires i + |p| <= |s|
    ensures At(p, s + rest, i) <==> At(p, s, i)
  {
    if 0 <= i { assert (s + rest)[i..i + |p|] == s[i..i + |p|]; }
  }

  lemma {:induction false} AtSuffix(p: string, s: string, k: nat, i: nat)
    requires k <= |s|
    ensures At(p, s[k..], i) <==> At(p, s, k + i)
  {
    if i + |p| <= |s| - k { assert s[k..][i..i + |p|] == s[k + i..k + i + |p|]; }
  }

  // ------------------------------------------------------------------ concatenations

  function Join(pieces: seq<string>): string {
    if pieces == [] then "" else Join(pieces[..|pieces| - 1]) + pieces[|pieces| - 1]
  }

  // The bytes each token stands for.
  type Spelling = int -> string

  function Spelled(spell: Spelling, ids: seq<int>): string {
    if ids == [] then "" else Spelled(spell, ids[..|ids| - 1]) + spell(ids[|ids| - 1])
  }

  /** Decoding more tokens only appends. */
  lemma {:induction false} SpelledGrows(spell: Spelling, ids: seq<int>, n: nat) returns (more: string)
    requires n <= |ids|
    ensures Spelled(spell, ids) == Spelled(spell, ids[..n]) + more
    decreases |ids|
  {
    if n == |ids| {
      more := "";
      assert ids[..n] == ids && Spelled(spell, ids) + "" == Spelled(spell, ids);
    } else {
      var last := |ids| - 1;
      var part := SpelledGrows(spell, ids[..last], n);
      more := part + spell(ids[last]);
      assert ids[..last][..n] == ids[..n];
      Regroup(Spelled(spell, ids[..n]), part, spell(ids[last]));
    }
  }

  lemma {:induction false} SpelledLast(spell: Spelling, ids: seq<int>)
    ensures ids == [] ==> Spelled(spell, ids) == ""
    ensures ids != [] ==> Spelled(spell, ids) == Spelled(spell, ids[..|ids| - 1]) + spell(ids[|ids| - 1])
  {
  }

  lemma {:induction false} SpelledConcat(spell: Spelling, a: seq<int>, b: seq<int>)
    ensures Spelled(spell, a + b) == Spelled(spell, a) + Spelled(spell, b)
    decreases |b|
  {
    hide Spelled;
    SpelledLast(spell, b);
    if b == [] {
      assert a + b == a && Spelled(spell, a) + "" == Spelled(spell, a);
    } else {
      var last := |b| - 1;
      SpelledConcat(spell, a, b[..last]);
      SpelledLast(spell, a + b);
      assert (a + b)[..|a + b| - 1] == a + b[..last];
      Regroup(Spelled(spell, a), Spelled(spell, b[..last]), spell(b[last]));
    }
  }

  // ------------------------------------------------------------------ white space

  predicate IsSpace(c: char) {
    c == ' ' || c == '\t' || c == '\r' || c == '\n'
  }

  function FirstNotSpace(s: string, i: nat): (r: int)
    requires i <= |s|
    ensures r == -1 ==> forall k :: i <= k < |s| ==> IsSpace(s[k])
    ensures r != -1 ==> i <= r < |s| && !IsSpace(s[r]) && forall k :: i <= k < r ==> IsSpace(s[k])
    decreases |s| - i
  {
    if i == |s| then -1 else if !IsSpace(s[i]) then i else FirstNotSpace(s, i + 1)
  }

  function LastNotSpace(s: string, i: nat): (r: int)
    requires i <= |s|
    ensures r == -1 ==> forall k :: 0 <= k < i ==> IsSpace(s[k])
    ensures r != -1 ==> 0 <= r < i && !IsSpace(s[r]) && forall k :: r < k < i ==> IsSpace(s[k])
  {
    if i == 0 then -1 else if !IsSpace(s[i - 1]) then i - 1 else LastNotSpace(s, i - 1)
  }

  predicate Trimmed(s: string) {
    s != "" ==> !IsSpace(s[0]) && !IsSpace(s[|s| - 1])
  }

  function Strip(s: string): (r: string)
    ensures Trimmed(r) && (Trimmed(s) ==> r == s)
    ensures |r| <= |s|
  {
    var a := FirstNotSpace(s, 0);
    if a == -1 then ""
    else
      var b := LastNotSpace(s, |s|);
      s[a..b + 1]
  }

  // Nothing but blanks, tabs, carriage returns and line feeds.
  predicate AllWhite(s: string) {
    forall i :: 0 <= i < |s| ==> s[i] in " \t\r\n"
  }

  lemma {:induction false} SpaceIs(c: char)
    ensures IsSpace(c) <==> c in " \t\r\n"
  {
  }

  /** Stripping takes off white space at both ends, and nothing else. */
  lemma {:induction false} StripIs(a: string, s: string, b: string)
    requires AllWhite(a) && AllWhite(b)
    requires s != "" ==> s[0] !in " \t\r\n" && s[|s| - 1] !in " \t\r\n"
    ensures Strip(a + s + b) == s
  {
    hide IsSpace, FirstNotSpace, LastNotSpace;
    var t := a + s + b;
    forall k | 0 <= k < |t| && !(|a| <= k < |a| + |s|)
      ensures IsSpace(t[k])
    {
      SpaceIs(t[k]);
      if k < |a| { assert t[k] == a[k]; } else { assert t[k] == b[k - |a| - |s|]; }
    }
    if s != "" {
      assert t[|a|] == s[0] && t[|a| + |s| - 1] == s[|s| - 1];
      SpaceIs(s[0]);
      SpaceIs(s[|s| - 1]);
      assert FirstNotSpace(t, 0) == |a|;
      assert LastNotSpace(t, |t|) == |a| + |s| - 1;
      assert t[|a|..|a| + |s|] == s;
    }
  }

  // ------------------------------------------------------------------ numbers

  function Digit(n: nat): (c: char)
    requires n < 10
  {
    "0123456789"[n]
  }

  function Decimal(n: nat): (s: string)
    ensures |s| >= 1 && (n >= 10 ==> |s| >= 2)
  {
    if n < 10 then [Digit(n)] else Decimal(n / 10) + [Digit(n % 10)]
  }

  // What decimal digits stand for.
  function Value(s: string): int {
    if s == "" then 0 else Value(s[..|s| - 1]) * 10 + (s[|s| - 1] as int - '0' as int)
  }

  /** A number is printed in decimal digits of that value, without zeros in front. */
  lemma {:induction false} DecimalReads(n: nat)
    ensures Value(Decimal(n)) == n && (forall i :: 0 <= i < |Decimal(n)| ==> '0' <= Decimal(n)[i] <= '9')
    ensures n > 0 ==> Decimal(n)[0] != '0'
  {
    var s := Decimal(n);
    if n < 10 {
      assert s[..0] == "";
    } else {
      DecimalReads(n / 10);
      assert s[..|s| - 1] == Decimal(n / 10);
    }
  }

  /** Different numbers print differently. */
  lemma {:induction false} DecimalIsInjective(a: nat, b: nat)
    requires Decimal(a) == Decimal(b)
    ensures a == b
  {
    DecimalReads(a);
    DecimalReads(b);
  }
}
