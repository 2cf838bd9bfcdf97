/**
 The lead/continuation structure of UTF-8 (section 3 of RFC 3629), as far as the server checks it:
 it tells a complete character from the beginning of one, and does not look for overlong forms.
*/
module Utf8 {
  import opened Strings

  // How many bytes the character starting with `b` takes; 0 if none can start with it.
  function SeqLen(b: char): (n: nat)
    ensures n <= 4
  {
    var x := b as int;
    if x < 0x80 then 1
    else if 0xC0 <= x < 0xE0 then 2
    else if 0xE0 <= x < 0xF0 then 3
    else if 0xF0 <= x < 0xF8 then 4
    else 0
  }

  predicate IsContinuation(b: char) {
    0x80 <= b as int < 0xC0
  }

  /** The masks of the source select exactly these ranges. */
  lemma {:induction false} MasksAreRanges(b: bv8)
    ensures (b & 0xE0) == 0xC0 <==> 0xC0 <= b < 0xE0
    ensures (b & 0xF0) == 0xE0 <==> 0xE0 <= b < 0xF0
    ensures (b & 0xF8) == 0xF0 <==> 0xF0 <= b < 0xF8
    ensures (b & 0xC0) == 0x80 <==> 0x80 <= b < 0xC0
  {
  }

  /** How long a character is shows in its first byte. */
  lemma {:induction false} LeadBytes(b: bv8)
    ensures SeqLen(b as char) == 1 <==> (b & 0x80) == 0
    ensures SeqLen(b as char) == 2 <==> (b & 0xE0) == 0xC0
    ensures SeqLen(b as char) == 3 <==> (b & 0xF0) == 0xE0
    ensures SeqLen(b as char) == 4 <==> (b & 0xF8) == 0xF0
    ensures IsContinuation(b as char) <==> (b & 0xC0) == 0x80
  {
    MasksAreRanges(b);
  }

  /** A complete character of `n` bytes starts at `i`. */
  predicate CharAt(s: string, i: nat, n: nat) {
    && i < |s| && SeqLen(s[i]) == n > 0 && i + n <= |s|
    && forall k :: i < k < i + n ==> IsContinuation(s[k])
  }

  /** Nothing but complete characters. */
  predicate Whole(s: string)
    decreases |s|
  {
    s == "" || (SeqLen(s[0]) > 0 && CharAt(s, 0, SeqLen(s[0])) && Whole(s[SeqLen(s[0])..]))
  }

  /** The longest prefix of complete characters. */
  function Complete(s: string): (r: string)
    ensures |r| <= |s|
    decreases |s|
  {
    if s != "" && SeqLen(s[0]) > 0 && CharAt(s, 0, SeqLen(s[0]))
    then s[..SeqLen(s[0])] + Complete(s[SeqLen(s[0])..])
    else ""
  }

  lemma {:induction false} CompleteIsWhole(s: string)
    ensures Whole(Complete(s))
    decreases |s|
  {
    if s != "" && SeqLen(s[0]) > 0 && CharAt(s, 0, SeqLen(s[0])) {
      var n := SeqLen(s[0]);
      CompleteIsWhole(s[n..]);
      assert Complete(s)[n..] == Complete(s[n..]);
    }
  }

  /** ... and no longer prefix has only complete characters. */
  lemma {:induction false} CompleteIsLongest(s: string, n: nat)
    requires n <= |s| && Whole(s[..n])
    ensures n <= |Complete(s)|
    decreases |s|
  {
    if n > 0 {
      var k := SeqLen(s[0]);
      assert s[..n][0] == s[0];
      assert CharAt(s[..n], 0, k);
      assert forall j :: 0 < j < k ==> s[..n][j] == s[j];
      assert s[..n][k..] == s[k..][..n - k];
      CompleteIsLongest(s[k..], n - k);
    }
  }

  lemma {:induction false} CharAtShift(s: string, i: nat, n: nat)
    requires i <= |s|
    ensures CharAt(s[i..], 0, n) <==> CharAt(s, i, n)
  {
    if i + n <= |s| {
      if CharAt(s[i..], 0, n) {
        forall k | i < k < i + n
          ensures IsContinuation(s[k])
        {
          assert s[i..][k - i] == s[k];
        }
      }
    }
  }

  lemma {:induction false} CompleteStep(s: string, i: nat, n: nat)
    requires CharAt(s, i, n)
    ensures Complete(s[i..]) == s[i..i + n] + Complete(s[i + n..])
  {
    CharAtShift(s, i, n);
    assert s[i..][n..] == s[i + n..];
    assert s[i..][..n] == s[i..i + n];
  }

  lemma {:induction false} CompleteStuck(s: string, i: nat)
    requires i <= |s| && (i < |s| ==> !CharAt(s, i, SeqLen(s[i])))
    ensures Complete(s[i..]) == ""
  {
    if i < |s| { CharAtShift(s, i, SeqLen(s[i])); }
  }

  lemma {:induction false} CompleteIsPrefix(s: string)
    ensures Complete(s) == s[..|Complete(s)|]
    decreases |s|
  {
    if s != "" && SeqLen(s[0]) > 0 && CharAt(s, 0, SeqLen(s[0])) { CompleteIsPrefix(s[SeqLen(s[0])..]); }
  }

  /** Complete characters in front do not matter. */
  lemma {:induction false} CompleteAfterWhole(a: string, b: string)
    requires Whole(a)
    ensures Complete(a + b) == a + Complete(b)
    decreases |a|
  {
    if a == "" {
      assert a + b == b;
    } else {
      var n := SeqLen(a[0]);
      var c, t := a[..n], a[n..];
      CompleteAfterWhole(t, b);
      CompleteAfterChar(c, t + b);
      Regroup(c, t, b);
      Regroup(c, t, Complete(b));
      assert a == c + t;
    }
  }

  lemma {:induction false} CompleteAfterChar(c: string, u: string)
    requires CharAt(c, 0, |c|)
    ensures Complete(c + u) == c + Complete(u)
  {
    assert forall k :: 0 <= k < |c| ==> (c + u)[k] == c[k];
    assert (c + u)[|c|..] == u && (c + u)[..|c|] == c;
  }

  lemma {:induction false} WholeIsComplete(s: string)
    requires Whole(s)
    ensures Complete(s) == s
  {
    CompleteAfterWhole(s, "");
    assert s + "" == s;
  }

  lemma {:induction false} WholeIfComplete(s: string)
    requires Complete(s) == s
    ensures Whole(s)
  {
    CompleteIsWhole(s);
  }

  lemma {:induction false} WholeConcat(a: string, b: string)
    requires Whole(a) && Whole(b)
    ensures Whole(a + b)
  {
    CompleteAfterWhole(a, b);
    WholeIsComplete(b);
    WholeIfComplete(a + b);
  }

  lemma {:induction false} WholeTail(a: string, b: string)
    requires Whole(a) && Whole(a + b)
    ensures Whole(b)
  {
    CompleteAfterWhole(a, b);
    WholeIsComplete(a + b);
    assert b == (a + b)[|a|..] == Complete(b);
    WholeIfComplete(b);
  }

  /** A text may be cut in front of any byte below 0x80. */
  lemma {:induction false} WholeCut(s: string, k: nat)
    requires Whole(s) && k <= |s| && (k < |s| ==> s[k] as int < 0x80)
    ensures Whole(s[..k]) && Whole(s[k..])
    decreases |s|
  {
    if k > 0 {
      var n := SeqLen(s[0]);
      assert CharAt(s, 0, n);
      assert k >= n;   // the byte at k would be a continuation
      WholeCut(s[n..], k - n);
      assert s[n..][k - n..] == s[k..];
      assert s[n..][..k - n] == s[..k][n..];
      assert s[..k][0] == s[0];
      assert forall j :: 0 < j < n ==> s[..k][j] == s[j];
      assert CharAt(s[..k], 0, n);
    } else {
      assert s[..0] == "" && s[0..] == s;
    }
  }

  lemma {:induction false} AsciiIsWhole(s: string)
    requires forall i :: 0 <= i < |s| ==> s[i] as int < 0x80
    ensures Whole(s)
    decreases |s|
  {
    if s != "" { AsciiIsWhole(s[1..]); }
  }

  method CharFollows(s: string, i: nat, need: nat) returns (ok: bool)
    requires need > 0 && i + need <= |s| && SeqLen(s[i]) == need
    ensures ok <==> CharAt(s, i, need)
  {
    for k := 1 to need
      invariant forall j :: i < j < i + k ==> IsContinuation(s[j])
    {
      if !IsContinuation(s[i + k]) { return false; }
    }
    ok := true;
  }

  /** The scan, which stops at the first byte that no complete character covers. */
  method CompletePrefix(s: string) returns (i: nat)
    ensures i <= |s| && s[..i] == Complete(s)
  {
    hide Complete;
    i := 0;
    assert s[0..] == s;
    while i < |s|
      invariant i <= |s| && Complete(s) == s[..i] + Complete(s[i..])
    {
      var need := SeqLen(s[i]);
      if need == 0 || i + need > |s| { break; }
      var ok := CharFollows(s, i, need);
      if !ok { break; }
      CompleteStep(s, i, need);
      assert s[..i] + s[i..i + need] == s[..i + need];
      i := i + need;
    }
    CompleteStuck(s, i);
    assert s[..i] + "" == s[..i];
  }

  // ------------------------------------------------------------------ replacing what is malformed

  const REPLACEMENT := [0xEF as char, 0xBF as char, 0xBD as char]   // U+FFFD

  function Sanitized(s: string): string
    decreases |s|
  {
    if s == "" then ""
    else
      var n := SeqLen(s[0]);
      if n == 0 then REPLACEMENT + Sanitized(s[1..])
      else if n > |s| then REPLACEMENT
      else if !CharAt(s, 0, n) then REPLACEMENT + Sanitized(s[1..])
      else s[..n] + Sanitized(s[n..])
  }

  // What the byte at `i` becomes, and how far the scan moves on.
  function Piece(s: string, i: nat): (r: (string, nat))
    requires i < |s|
    ensures 0 < r.1 <= |s| - i
  {
    var n := SeqLen(s[i]);
    if n == 0 then (REPLACEMENT, 1)
    else if i + n > |s| then (REPLACEMENT, |s| - i)
    else if !CharAt(s, i, n) then (REPLACEMENT, 1)
    else (s[i..i + n], n)
  }

  lemma {:induction false} SanitizedStep(s: string, i: nat)
    requires i < |s|
    ensures Sanitized(s[i..]) == Piece(s, i).0 + Sanitized(s[i + Piece(s, i).1..])
  {
    var n := SeqLen(s[i]);
    CharAtShift(s, i, n);
    assert s[i..][1..] == s[i + 1..];
    if i + n <= |s| {
      assert s[i..][n..] == s[i + n..];
      assert s[i..][..n] == s[i..i + n];
    }
    assert s[|s|..] == "";
  }

  method Sanitize(s: string) returns (out: string)
    ensures out == Sanitized(s)
  {
    hide Sanitized, CharAt, SeqLen;
    out := "";
    var i := 0;
    assert s[0..] == s;
    while i < |s|
      invariant i <= |s| && Sanitized(s) == out + Sanitized(s[i..])
    {
      SanitizedStep(s, i);
      Regroup(out, Piece(s, i).0, Sanitized(s[i + Piece(s, i).1..]));
      var n := SeqLen(s[i]);
      if n == 0 { out, i := out + REPLACEMENT, i + 1; continue; }
      if i + n > |s| { out, i := out + REPLACEMENT, |s|; break; }
      var ok := CharFollows(s, i, n);
      if !ok { out, i := out + REPLACEMENT, i + 1; continue; }
      out, i := out + s[i..i + n], i + n;
    }
    SanitizedEmpty(s);
  }

  lemma {:induction false} SanitizedEmpty(s: string)
    ensures Sanitized(s[|s|..]) == ""
  {
  }

  lemma {:induction false} ReplacementIsWhole()
    ensures Whole(REPLACEMENT)
  {
    assert CharAt(REPLACEMENT, 0, 3);
    assert REPLACEMENT[3..] == "";
  }

  /**
   The byte that starts no complete character, in a text so far complete, becomes U+FFFD; the scan goes on
   behind it, unless the text breaks off inside the character.
  */
  lemma {:induction false} MalformedIsReplaced(a: string, s: string)
    requires Whole(a) && s != "" && !CharAt(s, 0, SeqLen(s[0]))
    ensures Sanitized(a + s)
         == a + [0xEF as char, 0xBF as char, 0xBD as char] + if SeqLen(s[0]) > |s| then "" else Sanitized(s[1..])
    decreases |a|
  {
    hide Sanitized, Piece;
    if a == "" {
      assert a + s == s;
      FirstIsReplaced(s);
    } else {
      var n := SeqLen(a[0]);
      MalformedIsReplaced(a[n..], s);
      SanitizedAfterChar(a[..n], a[n..] + s);
      assert a == a[..n] + a[n..];
      Regroup(a[..n], a[n..], s);
    }
  }

  lemma {:induction false} FirstIsReplaced(s: string)
    requires s != "" && !CharAt(s, 0, SeqLen(s[0]))
    ensures Sanitized(s) == REPLACEMENT + if SeqLen(s[0]) > |s| then "" else Sanitized(s[1..])
  {
  }

  lemma {:induction false} SanitizedAfterChar(c: string, u: string)
    requires CharAt(c, 0, |c|)
    ensures Sanitized(c + u) == c + Sanitized(u)
  {
    assert forall k :: 0 <= k < |c| ==> (c + u)[k] == c[k];
    assert (c + u)[|c|..] == u && (c + u)[..|c|] == c;
  }

  /** Sanitizing always gives complete characters, and changes nothing that already is. */
  lemma {:induction false} SanitizedIsWhole(s: string)
    ensures Whole(Sanitized(s))
    ensures Whole(s) ==> Sanitized(s) == s
    decreases |s|
  {
    if s != "" {
      var n := SeqLen(s[0]);
      ReplacementIsWhole();
      if n != 0 && n <= |s| && CharAt(s, 0, n) {
        SanitizedIsWhole(s[n..]);
        var r := Sanitized(s);
        assert r[n..] == Sanitized(s[n..]);
        assert forall k :: 0 <= k < n ==> r[k] == s[k];
        assert CharAt(r, 0, n);
      } else if n == 0 || n <= |s| {
        SanitizedIsWhole(s[1..]);
        WholeConcat(REPLACEMENT, Sanitized(s[1..]));
      }
    }
  }
}
