/**
 Cutting text into the pieces that are tokenized on their own.
*/
module Pretokenizer {
  import opened Strings
  import opened ByteSymbols
  import opened Utf8

  // ------------------------------------------------------------------ character classes

  datatype Range = Range(lo: nat, hi: nat)

  // Tables of letters and numbers beyond ASCII, in ascending order.
  datatype Unicode = Unicode(letters: seq<Range>, numbers: seq<Range>)

  ghost predicate Ascending(rs: seq<Range>) {
    && (forall i :: 0 <= i < |rs| ==> rs[i].lo <= rs[i].hi)
    && (forall i, j :: 0 <= i < j < |rs| ==> rs[i].hi < rs[j].lo)
  }

  ghost predicate Sorted(u: Unicode) {
    Ascending(u.letters) && Ascending(u.numbers)
  }

  predicate InSome(cp: nat, rs: seq<Range>) {
    exists i :: 0 <= i < |rs| && rs[i].lo <= cp <= rs[i].hi
  }

  /** Binary search in a table. */
  method InRanges(cp: nat, rs: seq<Range>) returns (found: bool)
    requires Ascending(rs)
    ensures found <==> InSome(cp, rs)
  {
    var lo, hi := 0, |rs| - 1;
    while lo <= hi
      invariant 0 <= lo <= hi + 1 <= |rs|
      invariant forall i :: 0 <= i < |rs| && !(lo <= i <= hi) ==> !(rs[i].lo <= cp <= rs[i].hi)
      decreases hi - lo
    {
      var mid := (lo + hi) / 2;
      if cp < rs[mid].lo {
        hi := mid - 1;
      } else if cp > rs[mid].hi {
        lo := mid + 1;
      } else {
        return true;
      }
    }
    found := false;
  }

  predicate IsNewline(cp: nat) {
    cp == 13 || cp == 10
  }

  predicate IsBlank(cp: nat) {
    || cp in {0x20, 0x09, 0x0A, 0x0D, 0x0B, 0x0C, 0x85, 0xA0, 0x1680, 0x2028, 0x2029, 0x202F, 0x205F, 0x3000}
    || 0x2000 <= cp <= 0x200A
  }

  predicate IsLetter(u: Unicode, cp: nat) {
    if cp < 128 then 65 <= cp <= 90 || 97 <= cp <= 122 else InSome(cp, u.letters)
  }

  predicate IsNumber(u: Unicode, cp: nat) {
    if cp < 128 then 48 <= cp <= 57 else InSome(cp, u.numbers)
  }

  datatype Class = Letter | Number | Newline | Blank | Other

  predicate Is(u: Unicode, c: Class, cp: nat) {
    match c
    case Letter => IsLetter(u, cp)
    case Number => IsNumber(u, cp)
    case Newline => IsNewline(cp)
    case Blank => IsBlank(cp)
    case Other => !IsBlank(cp) && !IsLetter(u, cp) && !IsNumber(u, cp)
  }

  /** The classes, by the characters in them. */
  lemma {:induction false} ClassesAre(u: Unicode, c: char)
    requires c as int < 128
    ensures Is(u, Newline, c as nat) <==> c in "\r\n"
    ensures Is(u, Blank, c as nat) <==> c in " \t\r\n" + [0x0B as char, 0x0C as char]
    ensures Is(u, Letter, c as nat) <==> c in LOWER || c in UPPER
    ensures Is(u, Number, c as nat) <==> c in "0123456789"
    ensures Is(u, Other, c as nat) <==>
      c !in " \t\r\n" + [0x0B as char, 0x0C as char] && c !in LOWER && c !in UPPER && c !in "0123456789"
  {
    AreLetters(c);
    var digits := "0123456789";
    if '0' <= c <= '9' { assert digits[c as int - 48] == c; }
  }

  const LOWER := "abcdefghijklmnopqrstuvwxyz"
  const UPPER := "ABCDEFGHIJKLMNOPQRSTUVWXYZ"

  lemma {:induction false} AreLetters(c: char)
    ensures c in LOWER <==> 'a' <= c <= 'z'
    ensures c in UPPER <==> 'A' <= c <= 'Z'
  {
    AreAscending(LOWER, 'a', c);
    AreAscending(UPPER, 'A', c);
  }

  lemma {:induction false} AreAscending(t: string, first: char, c: char)
    requires forall i :: 0 <= i < |t| ==> t[i] as int == first as int + i
    ensures c in t <==> first as int <= c as int < first as int + |t|
  {
    if first as int <= c as int < first as int + |t| { assert t[c as int - first as int] == c; }
  }

  // Beyond ASCII.
  lemma {:induction false} ClassesBeyond(u: Unicode, cp: nat)
    requires cp >= 128
    ensures !Is(u, Newline, cp)
    ensures Is(u, Blank, cp) <==>
      cp in {0x85, 0xA0, 0x1680, 0x2000, 0x2001, 0x2002, 0x2003, 0x2004, 0x2005, 0x2006, 0x2007, 0x2008, 0x2009,
             0x200A, 0x2028, 0x2029, 0x202F, 0x205F, 0x3000}
    ensures Is(u, Letter, cp) <==> exists r :: r in u.letters && r.lo <= cp <= r.hi
    ensures Is(u, Number, cp) <==> exists r :: r in u.numbers && r.lo <= cp <= r.hi
  {
  }

  method TestLetter(u: Unicode, cp: nat) returns (r: bool)
    requires Sorted(u)
    ensures r == IsLetter(u, cp)
  {
    if cp < 128 { return 65 <= cp <= 90 || 97 <= cp <= 122; }
    r := InRanges(cp, u.letters);
  }

  method TestNumber(u: Unicode, cp: nat) returns (r: bool)
    requires Sorted(u)
    ensures r == IsNumber(u, cp)
  {
    if cp < 128 { return 48 <= cp <= 57; }
    r := InRanges(cp, u.numbers);
  }

  method Test(u: Unicode, c: Class, cp: nat) returns (r: bool)
    requires Sorted(u)
    ensures r == Is(u, c, cp)
  {
    match c
    case Letter => r := TestLetter(u, cp);
    case Number => r := TestNumber(u, cp);
    case Newline => r := IsNewline(cp);
    case Blank => r := IsBlank(cp);
    case Other =>
      if IsBlank(cp) { return false; }
      r := TestLetter(u, cp);
      if r { return false; }
      r := TestNumber(u, cp);
      r := !r;
  }

  // ------------------------------------------------------------------ runs

  // Past the end there is nothing, of length 0.
  function CpAt(s: string, i: nat): (r: (nat, nat))
    ensures r.1 <= 4 && (i <= |s| ==> i + r.1 <= |s|) && (i < |s| ==> r.1 > 0) && (i >= |s| ==> r.1 == 0)
  {
    if i < |s| then DecodeAt(s, i) else (0, 0)
  }

  // Where the characters of class `c` that start at `k` end, taking at most `most` of them.
  function RunEnd(u: Unicode, c: Class, s: string, k: nat, most: nat): (r: nat)
    requires k <= |s|
    ensures k <= r <= |s|
    ensures most > 0 && k < |s| && Is(u, c, CpAt(s, k).0) ==> r > k
    ensures r > k ==> k < |s| && Is(u, c, CpAt(s, k).0)
    decreases |s| - k
  {
    if k < |s| && most > 0 && Is(u, c, CpAt(s, k).0) then RunEnd(u, c, s, k + CpAt(s, k).1, most - 1) else k
  }

  method Run(u: Unicode, c: Class, s: string, from: nat, most: nat) returns (k: nat)
    requires from <= |s| && Sorted(u)
    ensures k == RunEnd(u, c, s, from, most)
  {
    hide Is, CpAt, Sorted;
    k := from;
    var left := most;
    while k < |s| && left > 0
      invariant k <= |s| && RunEnd(u, c, s, from, most) == RunEnd(u, c, s, k, left)
      decreases |s| - k
    {
      var at := CpAt(s, k);
      var more := Test(u, c, at.0);
      if !more { break; }
      k, left := k + at.1, left - 1;
    }
  }

  // The end of the last newline in a run of blanks, `last` if there is none.
  function LastNewline(s: string, k: nat, last: nat): (r: nat)
    requires k <= |s|
    ensures last <= k ==> last <= r <= |s|
    decreases |s| - k
  {
    if k < |s| && IsBlank(CpAt(s, k).0) then
      var next := k + CpAt(s, k).1;
      LastNewline(s, next, if IsNewline(CpAt(s, k).0) then next else last)
    else last
  }

  method BlankRun(u: Unicode, s: string, from: nat) returns (k: nat, last: nat)
    requires from <= |s|
    ensures k == RunEnd(u, Blank, s, from, |s|) && last == LastNewline(s, from, from)
  {
    hide IsBlank, IsNewline, CpAt;
    k, last := from, from;
    ghost var left := |s|;
    while k < |s|
      invariant k <= |s| && left >= |s| - k
      invariant RunEnd(u, Blank, s, from, |s|) == RunEnd(u, Blank, s, k, left)
      invariant LastNewline(s, from, from) == LastNewline(s, k, last)
      decreases |s| - k
    {
      var at := CpAt(s, k);
      if !IsBlank(at.0) { break; }
      left := left - 1;
      if IsNewline(at.0) { last := k + at.1; }
      k := k + at.1;
    }
  }

  // ------------------------------------------------------------------ contractions

  const CONTRACTIONS := ["s", "t", "re", "ve", "m", "ll", "d"]

  function Lower(c: char): char {
    if 'A' <= c <= 'Z' then (c as int + 32) as char else c
  }

  predicate FollowedBy(s: string, j: nat, x: string) {
    j + |x| <= |s| && forall k :: 0 <= k < |x| ==> Lower(s[j + k]) == x[k]
  }

  // The longest of the first `n` contractions that follows.
  function LongestContraction(s: string, j: nat, n: nat): (best: nat)
    requires n <= |CONTRACTIONS| && j <= |s|
    ensures j + best <= |s|
    ensures forall i :: 0 <= i < n && FollowedBy(s, j, CONTRACTIONS[i]) ==> |CONTRACTIONS[i]| <= best
    ensures best > 0 ==> exists i :: 0 <= i < n && FollowedBy(s, j, CONTRACTIONS[i]) && |CONTRACTIONS[i]| == best
  {
    if n == 0 then 0
    else
      var best := LongestContraction(s, j, n - 1);
      var x := CONTRACTIONS[n - 1];
      if FollowedBy(s, j, x) && |x| > best then |x| else best
  }

  method Contraction(s: string, j: nat) returns (best: nat)
    requires j <= |s|
    ensures best == LongestContraction(s, j, |CONTRACTIONS|)
  {
    hide FollowedBy;
    best := 0;
    for i := 0 to |CONTRACTIONS|
      invariant best == LongestContraction(s, j, i)
    {
      var x := CONTRACTIONS[i];
      if j + |x| <= |s| {
        var ok := TestFollowedBy(s, j, x);
        if ok && |x| > best { best := |x|; }
      }
      ShortRest(s, j, x);
    }
  }

  lemma {:induction false} ShortRest(s: string, j: nat, x: string)
    ensures FollowedBy(s, j, x) ==> j + |x| <= |s|
  {
  }

  method TestFollowedBy(s: string, j: nat, x: string) returns (ok: bool)
    requires j + |x| <= |s|
    ensures ok == FollowedBy(s, j, x)
  {
    for k := 0 to |x|
      invariant forall i :: 0 <= i < k ==> Lower(s[j + i]) == x[i]
    {
      if Lower(s[j + k]) != x[k] { return false; }
    }
    ok := true;
  }

  // ------------------------------------------------------------------ pieces

  /** Where the piece that starts at `i` ends: the rules, tried in this order. */
  function NextEnd(u: Unicode, s: string, i: nat): (e: nat)
    requires i < |s|
    ensures i < e <= |s|
  {
    var (c0, l0) := CpAt(s, i);
    var j := i + l0;
    var (c1, l1) := CpAt(s, j);
    var n := LongestContraction(s, j, |CONTRACTIONS|);
    if c0 == 39 && n > 0 then j + n
    else if !IsLetter(u, c0) && !IsNumber(u, c0) && !IsNewline(c0) && l1 > 0 && IsLetter(u, c1) then
      RunEnd(u, Letter, s, j + l1, |s|)
    else if IsLetter(u, c0) then RunEnd(u, Letter, s, j, |s|)
    else if IsNumber(u, c0) then RunEnd(u, Number, s, i, 3)
    else
      var k := if c0 == 32 then i + 1 else i;
      var run := RunEnd(u, Other, s, k, |s|);
      if run > k then RunEnd(u, Newline, s, run, |s|)
      else if IsBlank(c0) then BlankEnd(u, s, i)
      else j
  }

  function BlankEnd(u: Unicode, s: string, i: nat): (e: nat)
    requires i < |s| && IsBlank(CpAt(s, i).0)
    ensures i < e <= |s|
  {
    var k, last := RunEnd(u, Blank, s, i, |s|), LastNewline(s, i, i);
    if last > i then last
    else if k == |s| then k
    else if k - i >= 2 then k - 1
    else k
  }

  // The pieces, as (start, end), from `i` on.
  function Pieces(u: Unicode, s: string, i: nat): seq<(nat, nat)>
    requires i <= |s|
    decreases |s| - i
  {
    if i == |s| then [] else [(i, NextEnd(u, s, i))] + Pieces(u, s, NextEnd(u, s, i))
  }

  method PieceEnd(u: Unicode, s: string, i: nat) returns (e: nat)
    requires i < |s| && Sorted(u)
    ensures e == NextEnd(u, s, i)
  {
    hide IsLetter, IsNumber, IsBlank, IsNewline, LongestContraction, RunEnd, LastNewline, Sorted, CpAt;
    var c0, l0 := CpAt(s, i).0, CpAt(s, i).1;
    var j := i + l0;
    var c1, l1 := CpAt(s, j).0, CpAt(s, j).1;
    if c0 == 39 {
      var best := Contraction(s, j);
      if best > 0 { return j + best; }
    }
    var letter0 := TestLetter(u, c0);
    var number0 := TestNumber(u, c0);
    var letter1 := TestLetter(u, c1);
    if !letter0 && !number0 && !IsNewline(c0) && l1 > 0 && letter1 {
      e := Run(u, Letter, s, j + l1, |s|);
      return;
    }
    if letter0 {
      e := Run(u, Letter, s, j, |s|);
      return;
    }
    if number0 {
      e := Run(u, Number, s, i, 3);
      return;
    }
    var k := if c0 == 32 then i + 1 else i;
    var run := Run(u, Other, s, k, |s|);
    if run > k {
      e := Run(u, Newline, s, run, |s|);
      return;
    }
    if IsBlank(c0) {
      var end, last := BlankRun(u, s, i);
      if last > i { return last; }
      if end == |s| { return end; }
      if end - i >= 2 { return end - 1; }
      return end;
    }
    e := j;
  }

  method Pretokenize(u: Unicode, s: string) returns (out: seq<(nat, nat)>)
    requires Sorted(u)
    ensures out == Pieces(u, s, 0)
  {
    hide NextEnd, Sorted, Pieces;
    out := [];
    var i := 0;
    while i < |s|
      invariant i <= |s| && out + Pieces(u, s, i) == Pieces(u, s, 0)
    {
      var e := PieceEnd(u, s, i);
      NextPiece(u, s, i);
      Regroup(out, [(i, e)], Pieces(u, s, e));
      out := out + [(i, e)];
      i := e;
    }
    NextPiece(u, s, |s|);
  }

  lemma {:induction false} NextPiece(u: Unicode, s: string, i: nat)
    requires i <= |s|
    ensures Pieces(u, s, i) == if i == |s| then [] else [(i, NextEnd(u, s, i))] + Pieces(u, s, NextEnd(u, s, i))
  {
    hide NextEnd;
  }

  ghost predicate Tiles(pieces: seq<(nat, nat)>, from: nat, to: nat) {
    if pieces == [] then from == to
    else pieces[0].0 == from < pieces[0].1 && Tiles(pieces[1..], pieces[0].1, to)
  }

  /** The pieces are not empty and follow one another from one end of the text to the other. */
  lemma {:induction false} PiecesTile(u: Unicode, s: string, i: nat)
    requires i <= |s|
    ensures Tiles(Pieces(u, s, i), i, |s|)
    decreases |s| - i
  {
    hide NextEnd;
    if i < |s| { PiecesTile(u, s, NextEnd(u, s, i)); }
  }

  // ------------------------------------------------------------------ where characters end

  // `k` is a character boundary of what starts at `i`.
  ghost predicate Boundary(s: string, i: nat, k: nat) {
    i <= k <= |s| && Whole(s[i..k]) && Whole(s[k..])
  }

  lemma {:induction false} BoundaryTrans(s: string, i: nat, j: nat, k: nat)
    requires Boundary(s, i, j) && Boundary(s, j, k)
    ensures Boundary(s, i, k)
  {
    hide Whole;
    WholeConcat(s[i..j], s[j..k]);
    assert s[i..j] + s[j..k] == s[i..k];
  }

  lemma {:induction false} BoundaryHere(s: string, i: nat)
    requires i <= |s| && Whole(s[i..])
    ensures Boundary(s, i, i)
  {
    assert s[i..i] == "";
  }

  lemma {:induction false} CharacterIsWhole(s: string, k: nat)
    requires k < |s| && Whole(s[k..])
    ensures Boundary(s, k, k + CpAt(s, k).1)
  {
    var t := s[k..];
    var n := SeqLen(t[0]);
    assert CharAt(t, 0, n);
    assert forall j :: 0 <= j < n ==> t[j] == s[k + j];
    assert CpAt(s, k).1 == n;
    var c := s[k..k + n];
    assert forall j :: 0 <= j < n ==> c[j] == t[j];
    assert CharAt(c, 0, n) && c[n..] == "";
    assert t[n..] == s[k + n..];
  }

  lemma {:induction false} RunIsWhole(u: Unicode, c: Class, s: string, k: nat, most: nat)
    requires k <= |s| && Whole(s[k..])
    ensures Boundary(s, k, RunEnd(u, c, s, k, most))
    decreases |s| - k
  {
    hide Whole, CpAt, Is, Boundary;
    BoundaryHere(s, k);
    if k < |s| && most > 0 && Is(u, c, CpAt(s, k).0) {
      CharacterIsWhole(s, k);
      var next := k + CpAt(s, k).1;
      BoundaryRest(s, k, next);
      RunIsWhole(u, c, s, next, most - 1);
      BoundaryTrans(s, k, next, RunEnd(u, c, s, next, most - 1));
    }
  }

  lemma {:induction false} BoundaryRest(s: string, i: nat, k: nat)
    requires Boundary(s, i, k)
    ensures i <= k <= |s| && Whole(s[i..k]) && Whole(s[k..])
  {
  }

  lemma {:induction false} LastNewlineIsWhole(s: string, i: nat, k: nat, last: nat)
    requires Boundary(s, i, k) && Boundary(s, i, last)
    ensures Boundary(s, i, LastNewline(s, k, last))
    decreases |s| - k
  {
    hide Whole, CpAt, IsBlank, IsNewline, Boundary;
    BoundaryRest(s, i, k);
    if k < |s| && IsBlank(CpAt(s, k).0) {
      CharacterIsWhole(s, k);
      var next := k + CpAt(s, k).1;
      BoundaryTrans(s, i, k, next);
      LastNewlineIsWhole(s, i, next, if IsNewline(CpAt(s, k).0) then next else last);
    }
  }

  lemma {:induction false} ContractionIsWhole(s: string, j: nat)
    requires j <= |s| && Whole(s[j..])
    ensures Boundary(s, j, j + LongestContraction(s, j, |CONTRACTIONS|))
  {
    hide Whole;
    var n := LongestContraction(s, j, |CONTRACTIONS|);
    var c := s[j..j + n];
    if n > 0 {
      var x :| 0 <= x < |CONTRACTIONS| && FollowedBy(s, j, CONTRACTIONS[x]) && |CONTRACTIONS[x]| == n;
      FollowedIsAscii(s, j, CONTRACTIONS[x], c);
    }
    AsciiIsWhole(c);
    assert c + s[j + n..] == s[j..];
    WholeTail(c, s[j + n..]);
  }

  lemma {:induction false} FollowedIsAscii(s: string, j: nat, x: string, c: string)
    requires x in CONTRACTIONS && FollowedBy(s, j, x) && c == s[j..j + |x|]
    ensures forall i :: 0 <= i < |c| ==> c[i] as int < 0x80
  {
    forall i | 0 <= i < |c|
      ensures c[i] as int < 0x80
    {
      assert Lower(s[j + i]) == x[i];
    }
  }

  // None of the rules for words, numbers and signs applies, and the piece is one of blanks.
  predicate IsBlankPiece(u: Unicode, s: string, i: nat)
    requires i < |s|
  {
    var (c0, l0) := CpAt(s, i);
    var (c1, l1) := CpAt(s, i + l0);
    && IsBlank(c0) && !IsLetter(u, c0) && !IsNumber(u, c0)
    && (IsNewline(c0) || l1 == 0 || !IsLetter(u, c1))
    && (c0 == 32 ==> RunEnd(u, Other, s, i + 1, |s|) == i + 1)
  }

  // The rule that leaves the last blank of a run to the word behind it takes off one byte; here that
  // byte is not a whole blank.
  predicate CutsBlank(u: Unicode, s: string, i: nat)
    requires i < |s|
  {
    var k := RunEnd(u, Blank, s, i, |s|);
    IsBlankPiece(u, s, i) && LastNewline(s, i, i) == i && k < |s| && k - i >= 2 && s[k - 1] as int >= 0x80
  }

  lemma {:induction false} LastByteTells(s: string, i: nat, k: nat)
    requires Boundary(s, i, k) && k - i >= 1
    ensures Whole(s[i..k - 1]) <==> s[k - 1] as int < 0x80
  {
    hide Whole;
    var a, z := s[i..k - 1], [s[k - 1]];
    assert s[i..k] == a + z;
    if s[k - 1] as int < 0x80 {
      WholeCut(a + z, |a|);
      assert (a + z)[..|a|] == a;
    } else if Whole(a) {
      WholeTail(a, z);
      OneByteIsAscii(z);
    }
  }

  lemma {:induction false} OneByteIsAscii(z: string)
    requires |z| == 1 && Whole(z)
    ensures z[0] as int < 0x80
  {
  }

  lemma {:induction false} RunFrom(u: Unicode, c: Class, s: string, i: nat, k: nat, most: nat)
    requires Boundary(s, i, k)
    ensures Boundary(s, i, RunEnd(u, c, s, k, most))
  {
    hide Boundary, RunEnd;
    BoundaryRest(s, i, k);
    RunIsWhole(u, c, s, k, most);
    BoundaryTrans(s, i, k, RunEnd(u, c, s, k, most));
  }

  lemma {:induction false} WordIsWhole(u: Unicode, s: string, i: nat, j: nat)
    requires Boundary(s, i, j) && j < |s|
    ensures Boundary(s, i, RunEnd(u, Letter, s, j + CpAt(s, j).1, |s|))
  {
    hide Boundary, RunEnd, CpAt;
    BoundaryRest(s, i, j);
    CharacterIsWhole(s, j);
    BoundaryTrans(s, i, j, j + CpAt(s, j).1);
    RunFrom(u, Letter, s, i, j + CpAt(s, j).1, |s|);
  }

  lemma {:induction false} OtherIsWhole(u: Unicode, s: string, i: nat, k: nat)
    requires Boundary(s, i, k)
    ensures k <= |s| && Boundary(s, i, RunEnd(u, Newline, s, RunEnd(u, Other, s, k, |s|), |s|))
  {
    hide Boundary, RunEnd;
    BoundaryRest(s, i, k);
    var run := RunEnd(u, Other, s, k, |s|);
    RunFrom(u, Other, s, i, k, |s|);
    RunFrom(u, Newline, s, i, run, |s|);
  }

  lemma {:induction false} BlankEndIsWhole(u: Unicode, s: string, i: nat)
    requires i < |s| && Boundary(s, i, i) && IsBlank(CpAt(s, i).0)
    ensures var k := RunEnd(u, Blank, s, i, |s|);
      if LastNewline(s, i, i) == i && k < |s| && k - i >= 2
      then BlankEnd(u, s, i) == k - 1 && (Whole(s[i..k - 1]) <==> s[k - 1] as int < 0x80)
      else Boundary(s, i, BlankEnd(u, s, i))
  {
    hide Boundary, RunEnd, LastNewline, IsBlank, CpAt, Whole;
    RunFrom(u, Blank, s, i, i, |s|);
    LastNewlineIsWhole(s, i, i, i);
    if RunEnd(u, Blank, s, i, |s|) > i { LastByteTells(s, i, RunEnd(u, Blank, s, i, |s|)); }
  }

  lemma {:induction false} BlankPieceEnd(u: Unicode, s: string, i: nat)
    requires i < |s| && IsBlankPiece(u, s, i)
    ensures IsBlank(CpAt(s, i).0) && NextEnd(u, s, i) == BlankEnd(u, s, i)
  {
    hide IsLetter, IsNumber, IsBlank, IsNewline, LongestContraction, BlankEnd, CpAt;
    QuoteIsNoBlank();
    NoOtherHere(u, s, i);
    hide RunEnd;
  }

  lemma {:induction false} NoOtherHere(u: Unicode, s: string, i: nat)
    requires i < |s| && IsBlank(CpAt(s, i).0)
    ensures RunEnd(u, Other, s, i, |s|) == i
  {
    hide IsLetter, IsNumber, IsBlank, CpAt;
  }

  lemma {:induction false} OtherPieceEnd(u: Unicode, s: string, i: nat)
    requires i < |s| && Whole(s[i..]) && !CutsSpace(u, s, i) && !IsBlankPiece(u, s, i)
    ensures Boundary(s, i, NextEnd(u, s, i))
  {
    SpaceIsBlank(u);
    hide Whole, IsLetter, IsNumber, IsBlank, IsNewline, RunEnd, LastNewline, LongestContraction, Boundary, CpAt,
         BlankEnd;
    BoundaryHere(s, i);
    CharacterIsWhole(s, i);
    var c0 := CpAt(s, i).0;
    var j := i + CpAt(s, i).1;
    BoundaryRest(s, i, j);
    var n := LongestContraction(s, j, |CONTRACTIONS|);
    var k := if c0 == 32 then i + 1 else i;
    if c0 == 39 && n > 0 {
      ContractionIsWhole(s, j);
      BoundaryTrans(s, i, j, j + n);
    } else if !IsLetter(u, c0) && !IsNumber(u, c0) && !IsNewline(c0) && CpAt(s, j).1 > 0 && IsLetter(u, CpAt(s, j).0) {
      WordIsWhole(u, s, i, j);
    } else if IsLetter(u, c0) {
      RunFrom(u, Letter, s, i, j, |s|);
    } else if IsNumber(u, c0) {
      RunFrom(u, Number, s, i, i, 3);
    } else {
      if c0 == 32 { SpaceIsOneByte(s, i); }
      OtherIsWhole(u, s, i, k);
    }
  }

  // A space in an overlong form, with no letter behind it.
  predicate IsOverlongSpace(u: Unicode, s: string, i: nat)
    requires i < |s|
  {
    var (c0, l0) := CpAt(s, i);
    var (c1, l1) := CpAt(s, i + l0);
    c0 == 32 && s[i] != ' ' && !(l1 > 0 && IsLetter(u, c1))
  }

  // The rule for signs steps over one byte of the space and takes the continuation bytes but the last for signs.
  predicate CutsSpace(u: Unicode, s: string, i: nat)
    requires i < |s|
  {
    IsOverlongSpace(u, s, i) && RunEnd(u, Other, s, i + 1, |s|) > i + 1
  }

  // The bytes behind the first one of an overlong space: 0x80 and, at the end, 0xA0.
  lemma {:induction false} OverlongBytes(s: string, i: nat)
    requires i < |s| && Whole(s[i..]) && CpAt(s, i).0 == 32 && s[i] != ' '
    ensures var j := i + CpAt(s, i).1;
      i + 2 <= j <= |s| && CpAt(s, j - 1) == (0xA0, 1) && s[j - 1] as int == 0xA0
      && forall k :: i < k < j - 1 ==> CpAt(s, k) == (0x80, 1)
  {
    var t := s[i..];
    var n := SeqLen(t[0]);
    assert CharAt(t, 0, n);
    assert forall k :: 0 <= k < n ==> t[k] == s[i + k];
    assert forall k :: 0 < k < n ==> IsContinuation(t[k]);
    assert CpAt(s, i).1 == n && n >= 2;
    assert IsContinuation(s[i + 1]);
    if n >= 3 { assert IsContinuation(s[i + 2]); }
    if n >= 4 { assert IsContinuation(s[i + 3]); }
  }

  lemma {:induction false} OverlongRun(u: Unicode, s: string, i: nat, k: nat, j: nat, most: nat)
    requires i < k < j <= |s| && most >= |s| - k && CpAt(s, j - 1) == (0xA0, 1)
    requires forall x :: i < x < j - 1 ==> CpAt(s, x) == (0x80, 1)
    ensures RunEnd(u, Other, s, k, most) == if Is(u, Other, 0x80) then j - 1 else k
    decreases j - k
  {
    if k < j - 1 && Is(u, Other, 0x80) { OverlongRun(u, s, i, k + 1, j, most - 1); }
  }

  /** There the piece ends one byte short of the space's end. */
  lemma {:induction false} CutSpaceEnd(u: Unicode, s: string, i: nat)
    requires i < |s| && Whole(s[i..]) && CutsSpace(u, s, i)
    ensures NextEnd(u, s, i) == i + CpAt(s, i).1 - 1 > i + 1 && !Whole(s[i..NextEnd(u, s, i)])
    ensures s[i + CpAt(s, i).1 - 1] as int == 0xA0 && i + CpAt(s, i).1 <= |s|
  {
    hide LongestContraction, LastNewline, Whole, CpAt, RunEnd, Boundary;
    var j := i + CpAt(s, i).1;
    OverlongBytes(s, i);
    OverlongRun(u, s, i, i + 1, j, |s|);
    NoNewlines(u, s, j - 1);
    BoundaryHere(s, i);
    CharacterIsWhole(s, i);
    LastByteTells(s, i, j);
  }

  lemma {:induction false} NoNewlines(u: Unicode, s: string, k: nat)
    requires k < |s| && CpAt(s, k) == (0xA0, 1)
    ensures RunEnd(u, Newline, s, k, |s|) == k
  {
    hide CpAt;
  }

  /**
   In a text of complete characters a piece ends inside a character exactly when a blank of several bytes is
   cut at the end of a run, or a space in an overlong form is taken for signs.
  */
  lemma {:induction false} PieceIsWholeUnlessBlankIsCut(u: Unicode, s: string, i: nat)
    requires i < |s| && Whole(s[i..])
    ensures Whole(s[i..NextEnd(u, s, i)]) <==> !CutsBlank(u, s, i) && !CutsSpace(u, s, i)
  {
    hide Whole, IsBlankPiece, NextEnd, BlankEnd, RunEnd, LastNewline, Boundary, CpAt, IsBlank, CutsSpace;
    SpaceCutIsNoBlankPiece(u, s, i);
    if CutsSpace(u, s, i) {
      CutSpaceEnd(u, s, i);
      return;
    }
    if IsBlankPiece(u, s, i) {
      BlankPieceEnd(u, s, i);
      BoundaryHere(s, i);
      BlankEndIsWhole(u, s, i);
      if Boundary(s, i, BlankEnd(u, s, i)) { BoundaryRest(s, i, BlankEnd(u, s, i)); }
    } else {
      OtherPieceEnd(u, s, i);
      BoundaryRest(s, i, NextEnd(u, s, i));
    }
  }

  lemma {:induction false} SpaceCutIsNoBlankPiece(u: Unicode, s: string, i: nat)
    requires i < |s|
    ensures CutsSpace(u, s, i) ==> !IsBlankPiece(u, s, i)
  {
    hide RunEnd, CpAt, IsBlank, IsLetter;
  }

  lemma {:induction false} SpaceIsBlank(u: Unicode)
    ensures IsBlank(32) && !IsLetter(u, 32) && !IsNumber(u, 32) && !IsNewline(32)
  {
  }

  lemma {:induction false} QuoteIsNoBlank()
    ensures !IsBlank(39)
  {
  }

  lemma {:induction false} SpaceIsOneByte(s: string, i: nat)
    requires i < |s| && (CpAt(s, i).0 == 32 ==> s[i] == ' ')
    ensures CpAt(s, i).0 == 32 ==> CpAt(s, i).1 == 1
  {
  }

  const SPACES := [0xE3 as char, 0x80 as char, 0x80 as char, 0xE3 as char, 0x80 as char, 0x80 as char, 'a']

  /** A piece can end inside a character: two ideographic spaces before a letter are cut at the fifth byte. */
  lemma {:induction false} PieceCutsCharacter(u: Unicode)
    requires !InSome(0x3000, u.letters) && !InSome(0x3000, u.numbers)
    ensures Whole(SPACES) && NextEnd(u, SPACES, 0) == 5 && !Whole(SPACES[..5])
  {
    var s := SPACES;
    assert CpAt(s, 0) == (0x3000, 3) && CpAt(s, 3) == (0x3000, 3) && CpAt(s, 6) == (97, 1);
    BlanksOf(u);
    SpacesAreWhole();
  }

  lemma {:induction false} BlanksOf(u: Unicode)
    ensures RunEnd(u, Blank, SPACES, 0, |SPACES|) == 6 && LastNewline(SPACES, 0, 0) == 0
  {
    var s := SPACES;
    assert CpAt(s, 0) == (0x3000, 3) && CpAt(s, 3) == (0x3000, 3) && CpAt(s, 6) == (97, 1);
    assert RunEnd(u, Blank, s, 6, 5) == 6;
    assert RunEnd(u, Blank, s, 3, 6) == 6;
    assert LastNewline(s, 6, 0) == 0;
    assert LastNewline(s, 3, 0) == 0;
  }

  lemma {:induction false} SpacesAreWhole()
    ensures Whole(SPACES) && !Whole(SPACES[..5])
  {
    var s := SPACES;
    var t := s[3..];
    assert Whole(t[3..]) by { assert t[3..] == ['a']; AsciiIsWhole(t[3..]); }
    assert CharAt(t, 0, 3);
    assert CharAt(s, 0, 3);
    var cut := s[..5];
    assert SeqLen(cut[3..][0]) == 3 && !CharAt(cut[3..], 0, 3);
  }
}
