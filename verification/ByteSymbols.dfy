/**
 The byte-level alphabet: every byte has a printable symbol of one or two bytes, so that any byte
 string can be written as symbols and read back.
*/
module ByteSymbols {
  import opened Strings

  predicate Bytes(s: string) {
    forall i :: 0 <= i < |s| ==> s[i] as int < 256
  }

  // ------------------------------------------------------------------ code points

  /** The code point at `i` and how many bytes it takes; a byte that starts none stands for itself. */
  function DecodeAt(s: string, i: nat): (r: (nat, nat))
    requires i < |s|
    ensures 1 <= r.1 <= 4 && i + r.1 <= |s|
  {
    var c := s[i] as int;
    if c < 0x80 then (c, 1)
    else if 0xC0 <= c < 0xE0 && i + 1 < |s| then ((c - 0xC0) * 64 + Low6(s[i + 1]), 2)
    else if 0xE0 <= c < 0xF0 && i + 2 < |s| then ((c - 0xE0) * 4096 + Low6(s[i + 1]) * 64 + Low6(s[i + 2]), 3)
    else if 0xF0 <= c < 0xF8 && i + 3 < |s| then
      ((c - 0xF0) * 262144 + Low6(s[i + 1]) * 4096 + Low6(s[i + 2]) * 64 + Low6(s[i + 3]), 4)
    else (c, 1)
  }

  function Low6(c: char): (r: nat)
    ensures r < 64
  {
    c as int % 64
  }

  lemma {:induction false} DecodeShift(s: string, k: nat)
    requires k < |s|
    ensures DecodeAt(s[k..], 0) == DecodeAt(s, k)
  {
  }

  // The bits of a code point, in bytes: six in each byte but the first.
  lemma {:induction false} DecodesCharacters(a: nat, b: nat, c: nat, d: nat, rest: string)
    requires a < 128 && b < 64 && c < 64 && d < 64
    ensures DecodeAt([a as char] + rest, 0) == (a, 1)
    ensures a < 32 ==> DecodeAt([(0xC0 + a) as char, (0x80 + b) as char] + rest, 0) == (a * 64 + b, 2)
    ensures a < 16 ==>
      DecodeAt([(0xE0 + a) as char, (0x80 + b) as char, (0x80 + c) as char] + rest, 0) == (a * 4096 + b * 64 + c, 3)
    ensures a < 8 ==>
      DecodeAt([(0xF0 + a) as char, (0x80 + b) as char, (0x80 + c) as char, (0x80 + d) as char] + rest, 0)
      == (a * 262144 + b * 4096 + c * 64 + d, 4)
  {
    LowBits(b);
    LowBits(c);
    LowBits(d);
    hide Low6;
  }

  // A byte that starts no character, or starts one that the text breaks off, is a character of its own.
  lemma {:induction false} DecodesStrayByte(x: nat, rest: string)
    requires 0x80 <= x < 256
    requires x < 0xC0 || x >= 0xF8 || |rest| < (if x < 0xE0 then 1 else if x < 0xF0 then 2 else 3)
    ensures DecodeAt([x as char] + rest, 0) == (x, 1)
  {
  }

  lemma {:induction false} LowBits(b: nat)
    requires b < 64
    ensures Low6((0x80 + b) as char) == b
  {
  }

  // ------------------------------------------------------------------ symbols

  predicate Printable(b: nat) {
    33 <= b <= 126 || 161 <= b <= 172 || 174 <= b <= 255
  }

  // How many bytes below `b` have no printable character of their own.
  function Hidden(b: nat): nat {
    if b == 0 then 0 else Hidden(b - 1) + if Printable(b - 1) then 0 else 1
  }

  function CodePoint(b: nat): nat {
    if Printable(b) then b else 256 + Hidden(b)
  }

  // One or two bytes are enough for the code points below 0x800.
  function Encode2(cp: nat): string
    requires cp < 0x800
  {
    if cp < 0x80 then [cp as char] else [(0xC0 + cp / 64) as char, (0x80 + cp % 64) as char]
  }

  lemma {:induction false} HiddenBounds(b: nat)
    requires b <= 256
    ensures Hidden(b) == if b <= 33 then b else if b <= 127 then 33 else if b <= 161 then b - 94
                         else if b <= 173 then 67 else 68
  {
    if b > 0 { HiddenBounds(b - 1); }
  }

  function Sym(b: nat): (s: string)
    requires b < 256
    ensures 1 <= |s| <= 2
  {
    HiddenBounds(b);
    Encode2(CodePoint(b))
  }

  /** The printable characters of the Latin alphabet stand for themselves, the other 68 are U+0100 to U+0143. */
  lemma {:induction false} SymbolIs(b: nat)
    requires b < 256
    ensures '!' as nat <= b <= '~' as nat ==> Sym(b) == [b as char]
    ensures b <= 32 ==> Sym(b) == [0xC4 as char, (0x80 + b) as char]
    ensures 127 <= b <= 157 ==> Sym(b) == [0xC4 as char, (b + 34) as char]
    ensures 158 <= b <= 160 ==> Sym(b) == [0xC5 as char, (b - 30) as char]
    ensures b == 173 ==> Sym(b) == [0xC5 as char, 0x83 as char]
    ensures 161 <= b <= 191 && b != 173 ==> Sym(b) == [0xC2 as char, b as char]
    ensures 192 <= b ==> Sym(b) == [0xC3 as char, (b - 64) as char]
  {
    HiddenBounds(b);
    hide Hidden;
  }

  /** Different bytes have different symbols, and the length of a symbol shows in its first byte. */
  lemma {:induction false} SymbolsDiffer(a: nat, b: nat)
    requires a < 256 && b < 256 && Sym(a) == Sym(b)
    ensures a == b
  {
    HiddenBounds(a);
    HiddenBounds(b);
    hide Hidden;
    var x, y := CodePoint(a), CodePoint(b);
    EncodeIsInjective(x, y);
  }

  lemma {:induction false} EncodeIsInjective(x: nat, y: nat)
    requires x < 0x800 && y < 0x800 && Encode2(x) == Encode2(y)
    ensures x == y
  {
    var s, t := Encode2(x), Encode2(y);
    assert s[0] == t[0];
    if x >= 0x80 && y >= 0x80 { assert s[1] == t[1]; }
  }

  lemma {:induction false} SymbolIsDecoded(b: nat, rest: string)
    requires b < 256
    ensures DecodeAt(Sym(b) + rest, 0).1 == |Sym(b)|
  {
    HiddenBounds(b);
    hide Hidden;
    var s := Sym(b) + rest;
    assert s[0] == Sym(b)[0];
  }

  // The byte whose symbol `s` is, from `b` on; -1 if there is none.
  function ByteFrom(s: string, b: nat): (r: int)
    requires b <= 256
    ensures r == -1 ==> forall c: nat :: b <= c < 256 ==> Sym(c) != s
    ensures r != -1 ==> 0 <= r < 256 && Sym(r) == s
    decreases 256 - b
  {
    if b == 256 then -1 else if Sym(b) == s then b else ByteFrom(s, b + 1)
  }

  function ByteOf(s: string): int {
    ByteFrom(s, 0)
  }

  lemma {:induction false} ByteOfSym(b: nat)
    requires b < 256
    ensures ByteOf(Sym(b)) == b
  {
    hide Sym;
    var r := ByteOf(Sym(b));
    assert r != -1;
    SymbolsDiffer(r, b);
  }

  // ------------------------------------------------------------------ the tables

  /** The table of symbols: printable bytes first, the others numbered from 256 on as they are met. */
  method ByteToSym() returns (t: seq<string>)
    ensures |t| == 256 && forall b: nat :: b < 256 ==> t[b] == Sym(b)
  {
    hide Hidden;
    var bs: seq<nat> := [];
    for b := 33 to 127
      invariant forall x: nat :: x in bs <==> 33 <= x < b
    {
      bs := bs + [b];
    }
    for b := 161 to 173
      invariant forall x: nat :: x in bs <==> 33 <= x <= 126 || 161 <= x < b
    {
      bs := bs + [b];
    }
    for b := 174 to 256
      invariant forall x: nat :: x in bs <==> 33 <= x <= 126 || 161 <= x <= 172 || 174 <= x < b
    {
      bs := bs + [b];
    }
    var cs, n := bs, 0;
    forall i | 0 <= i < |bs|
      ensures bs[i] < 256 && cs[i] == CodePoint(bs[i])
    {
      assert bs[i] in bs;
    }
    HiddenBounds(0);
    for b := 0 to 256
      invariant |cs| == |bs| && n == Hidden(b)
      invariant forall x: nat :: x in bs <==> (Printable(x) && x < 256) || x < b
      invariant forall i :: 0 <= i < |bs| ==> bs[i] < 256 && cs[i] == CodePoint(bs[i])
    {
      HiddenBounds(b);
      HiddenBounds(b + 1);
      if b !in bs {
        bs, cs, n := bs + [b], cs + [256 + n], n + 1;
      }
    }
    t := seq(256, _ => "");
    for i := 0 to |bs|
      invariant |t| == 256 && forall j :: 0 <= j < i ==> t[bs[j]] == Sym(bs[j])
    {
      HiddenBounds(bs[i]);
      // 68 bytes are numbered, so the three-byte form of the source is never needed
      t := t[bs[i] := Encode2(cs[i])];
    }
  }

  method SymToByte() returns (m: map<string, nat>)
    ensures forall s :: s in m <==> ByteOf(s) != -1
    ensures forall s :: s in m ==> m[s] == ByteOf(s)
  {
    hide Sym, ByteFrom;
    var t := ByteToSym();
    m := map[];
    for b := 0 to 256
      invariant forall s :: s in m <==> 0 <= ByteOf(s) < b
      invariant forall s :: s in m ==> m[s] == ByteOf(s)
    {
      ByteOfSym(b);
      ByteOfIs(b);
      m := m[t[b] := b];
    }
    forall s
      ensures ByteOf(s) < 256
    {
      ByteOfBound(s);
    }
  }

  lemma {:induction false} ByteOfIs(b: nat)
    requires b < 256
    ensures forall s :: ByteOf(s) == b ==> s == Sym(b)
  {
    hide Sym;
  }

  lemma {:induction false} ByteOfBound(s: string)
    ensures -1 <= ByteOf(s) < 256
  {
    hide Sym;
  }

  // ------------------------------------------------------------------ writing and reading symbols

  function Symbols(bs: string): string
    requires Bytes(bs)
  {
    if bs == "" then "" else Sym(bs[0] as nat) + Symbols(bs[1..])
  }

  lemma {:induction false} SymbolsConcat(a: string, b: string)
    requires Bytes(a) && Bytes(b)
    ensures Bytes(a + b) && Symbols(a + b) == Symbols(a) + Symbols(b)
    decreases |a|
  {
    if a == "" {
      assert a + b == b;
    } else {
      SymbolsConcat(a[1..], b);
      assert (a + b)[1..] == a[1..] + b;
      Regroup(Sym(a[0] as nat), Symbols(a[1..]), Symbols(b));
    }
  }

  /** Reads symbols as bytes; what is no symbol is passed on as it is. */
  function Unsymbols(t: string): string
    decreases |t|
  {
    if t == "" then ""
    else
      var l := DecodeAt(t, 0).1;
      var b := ByteOf(t[..l]);
      (if b == -1 then t[..l] else [b as char]) + Unsymbols(t[l..])
  }

  lemma {:induction false} UnsymbolsStep(t: string, k: nat)
    requires k < |t|
    ensures var l := DecodeAt(t, k).1;
      && -1 <= ByteOf(t[k..k + l]) < 256
      && Unsymbols(t[k..])
      == (if ByteOf(t[k..k + l]) == -1 then t[k..k + l] else [ByteOf(t[k..k + l]) as char]) + Unsymbols(t[k + l..])
  {
    hide ByteOf;
    var l := DecodeAt(t, k).1;
    DecodeShift(t, k);
    assert t[k..][..l] == t[k..k + l] && t[k..][l..] == t[k + l..];
    ByteOfBound(t[k..k + l]);
  }

  /** Bytes written as symbols are read back. */
  lemma {:induction false} SymbolsReadBack(bs: string)
    requires Bytes(bs)
    ensures Unsymbols(Symbols(bs)) == bs
    decreases |bs|
  {
    if bs != "" {
      hide Sym, ByteFrom, DecodeAt;
      var b, rest := bs[0] as nat, Symbols(bs[1..]);
      SymbolIsDecoded(b, rest);
      ByteOfSym(b);
      var t := Sym(b) + rest;
      assert t[..|Sym(b)|] == Sym(b) && t[|Sym(b)|..] == rest;
      SymbolsReadBack(bs[1..]);
      assert bs == [bs[0]] + bs[1..];
    }
  }

  // No byte is written as a blank, and none with three bytes or as a code point beyond the alphabet.
  lemma {:induction false} NoSymbol(t: string)
    requires |t| > 0 && (t[0] as int <= 32 || t[0] as int > 0xC5)
    ensures ByteOf(t) == -1
  {
    var b := ByteOf(t);
    if b != -1 { SymbolIs(b); }
    hide Sym;
  }

  /** What is no symbol is read as itself. */
  lemma {:induction false} OthersAreKept(c: string, rest: string)
    requires |c| > 0 && DecodeAt(c + rest, 0).1 == |c| && (c[0] as int <= 32 || c[0] as int > 0xC5)
    ensures Unsymbols(c + rest) == c + Unsymbols(rest)
  {
    hide DecodeAt, ByteOf;
    assert (c + rest)[..|c|] == c && (c + rest)[|c|..] == rest;
    NoSymbol(c);
  }

  /** The decoding loop. */
  method ReadSymbols(t: string) returns (out: string)
    ensures out == Unsymbols(t)
  {
    hide Unsymbols, DecodeAt, ByteOf;
    out := "";
    var k := 0;
    assert t[0..] == t;
    while k < |t|
      invariant k <= |t| && Unsymbols(t) == out + Unsymbols(t[k..])
    {
      var l := DecodeAt(t, k).1;
      UnsymbolsStep(t, k);
      var b := ByteOf(t[k..k + l]);
      if b == -1 { out := out + t[k..k + l]; } else { out := out + [b as char]; }
      k := k + l;
    }
    NothingToRead(t);
  }

  lemma {:induction false} NothingToRead(t: string)
    ensures Unsymbols(t[|t|..]) == ""
  {
  }
}
