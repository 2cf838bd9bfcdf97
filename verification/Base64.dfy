/**
 Base64 as in section 4 of RFC 4648: the text of an image is read six bits at a time into a 32-bit
 accumulator that nobody empties.
*/
module Base64 {
  import opened Arithmetic
  import Strings

  // ------------------------------------------------------------------ bits

  function Pow2(n: nat): (p: nat)
    ensures p >= 1
  {
    if n == 0 then 1 else 2 * Pow2(n - 1)
  }

  // `v` without its lowest `n` bits.
  function Shr(v: nat, n: nat): (r: nat) {
    if n == 0 then v else Shr(v / 2, n - 1)
  }

  lemma {:induction false} ShrSix(v: nat)
    ensures Shr(v, 6) == v / 64
  {
    ShrThree(v);
    ShrThree(v / 8);
    ShrMore(v, 3, 3);
  }

  lemma {:induction false} ShrThree(v: nat)
    ensures Shr(v, 3) == v / 8
  {
    assert Shr(v, 3) == Shr(v / 2, 2) == Shr(v / 2 / 2, 1) == Shr(v / 2 / 2 / 2, 0);
    assert v / 2 / 2 == v / 4;
    assert v / 4 / 2 == v / 8;
  }

  lemma {:induction false} ShrFew(v: nat)
    ensures Shr(v, 0) == v && Shr(v, 2) == v / 4 && Shr(v, 4) == v / 16
  {
    assert Shr(v, 2) == Shr(v / 2, 1) == Shr(v / 2 / 2, 0);
    assert v / 2 / 2 == v / 4;
    assert Shr(v, 4) == Shr(v / 2, 3) == Shr(v / 2 / 2, 2) == Shr(v / 4 / 2, 1) == Shr(v / 8 / 2, 0);
  }

  lemma {:induction false} ShrMore(v: nat, m: nat, n: nat)
    ensures Shr(v, m + n) == Shr(Shr(v, m), n)
    decreases m
  {
    if m > 0 { ShrMore(v / 2, m - 1, n); }
  }

  // The lowest `n` bits of `v`, the highest of them first.
  function BitsOf(v: nat, n: nat): (bs: seq<bool>)
    ensures |bs| == n
  {
    if n == 0 then [] else BitsOf(v / 2, n - 1) + [v % 2 == 1]
  }

  function Value(bs: seq<bool>): (v: nat)
    ensures v < Pow2(|bs|)
  {
    if bs == [] then 0 else 2 * Value(bs[..|bs| - 1]) + if bs[|bs| - 1] then 1 else 0
  }

  lemma {:induction false} BitsOfValue(bs: seq<bool>)
    ensures BitsOf(Value(bs), |bs|) == bs
    decreases |bs|
  {
    if bs != [] {
      BitsOfValue(bs[..|bs| - 1]);
      assert bs == bs[..|bs| - 1] + [bs[|bs| - 1]];
    }
  }

  lemma {:induction false} ValueOfBits(v: nat, n: nat)
    requires v < Pow2(n)
    ensures Value(BitsOf(v, n)) == v
    decreases n
  {
    if n > 0 {
      ValueOfBits(v / 2, n - 1);
      assert BitsOf(v, n)[..n - 1] == BitsOf(v / 2, n - 1);
    }
  }

  lemma {:induction false} LastBit(v: nat, n: nat)
    requires n > 0
    ensures BitsOf(v, n) == BitsOf(v / 2, n - 1) + [v % 2 == 1]
  {
  }

  lemma {:induction false} ShrStep(v: nat, n: nat)
    requires n > 0
    ensures Shr(v, n) == Shr(v / 2, n - 1)
  {
  }

  lemma {:induction false} NoLowBits(v: nat, m: nat)
    ensures BitsOf(v, m) == BitsOf(Shr(v, 0), m) + BitsOf(v, 0)
  {
    assert BitsOf(v, 0) == [] && Shr(v, 0) == v;
    assert BitsOf(v, m) + [] == BitsOf(v, m);
  }

  /** High bits first, then low bits. */
  lemma {:induction false} BitsSplit(v: nat, m: nat, n: nat)
    ensures BitsOf(v, m + n) == BitsOf(Shr(v, n), m) + BitsOf(v, n)
    decreases n
  {
    hide BitsOf, Pow2, Shr;
    if n == 0 {
      NoLowBits(v, m);
    } else {
      BitsSplit(v / 2, m, n - 1);
      ShrStep(v, n);
      LastBit(v, m + n);
      LastBit(v, n);
      Strings.Regroup(BitsOf(Shr(v, n), m), BitsOf(v / 2, n - 1), [v % 2 == 1]);
    }
  }

  /** Only the remainder matters. */
  lemma {:induction false} BitsOfRemainder(v: nat, w: nat, n: nat, d: nat)
    requires v == w + d * Pow2(n)
    ensures BitsOf(v, n) == BitsOf(w, n)
    decreases n
  {
    if n > 0 {
      var p := Pow2(n - 1);
      assert d * Pow2(n) == 2 * (d * p);
      BitsOfRemainder(v / 2, w / 2, n - 1, d);
    }
  }

  lemma {:induction false} Powers()
    ensures Pow2(6) == 64 && Pow2(8) == 256 && Pow2(32) == 0x1_0000_0000
  {
    assert Pow2(4) == 16;
    assert Pow2(8) == 256;
    assert Pow2(12) == 4096;
    assert Pow2(16) == 65536;
    assert Pow2(20) == 0x10_0000;
    assert Pow2(24) == 0x100_0000;
    assert Pow2(28) == 0x1000_0000;
  }

  // ------------------------------------------------------------------ groups of bits

  ghost predicate Fit(vs: seq<nat>, n: nat) {
    forall i :: 0 <= i < |vs| ==> vs[i] < Pow2(n)
  }

  // As many groups of `n` bits as there are; what is left over is dropped.
  function Group(bs: seq<bool>, n: nat): (vs: seq<nat>)
    requires n > 0
    decreases |bs|
  {
    if |bs| < n then [] else [Value(bs[..n])] + Group(bs[n..], n)
  }

  function Ungroup(vs: seq<nat>, n: nat): (bs: seq<bool>) {
    if vs == [] then [] else Ungroup(vs[..|vs| - 1], n) + BitsOf(vs[|vs| - 1], n)
  }

  lemma {:induction false} UngroupFirst(vs: seq<nat>, n: nat)
    requires vs != []
    ensures Ungroup(vs, n) == BitsOf(vs[0], n) + Ungroup(vs[1..], n)
    decreases |vs|
  {
    hide BitsOf;
    var last := |vs| - 1;
    if last == 0 {
      assert vs[..0] == [] && vs[1..] == [];
      assert BitsOf(vs[0], n) + [] == [] + BitsOf(vs[0], n);
    } else {
      UngroupFirst(vs[..last], n);
      var mid := vs[..last][1..];
      assert vs[1..] == mid + [vs[last]];
      UngroupMore(mid, n, vs[last]);
      Strings.Regroup(BitsOf(vs[0], n), Ungroup(mid, n), BitsOf(vs[last], n));
    }
  }

  lemma {:induction false} UngroupMore(vs: seq<nat>, n: nat, v: nat)
    ensures Ungroup(vs + [v], n) == Ungroup(vs, n) + BitsOf(v, n)
  {
    assert (vs + [v])[..|vs|] == vs;
  }

  /** Grouping undoes ungrouping; fewer than `n` further bits are dropped. */
  lemma {:induction false} GroupOfUngroup(vs: seq<nat>, n: nat, left: seq<bool>)
    requires n > 0 && Fit(vs, n) && |left| < n
    ensures Group(Ungroup(vs, n) + left, n) == vs
    decreases |vs|
  {
    hide Group, Ungroup, BitsOf, Value, Pow2;
    if vs == [] {
      NothingToGroup(n, left);
    } else {
      UngroupFirst(vs, n);
      ValueOfBits(vs[0], n);
      GroupOfUngroup(vs[1..], n, left);
      FirstGroup(BitsOf(vs[0], n), Ungroup(vs[1..], n) + left, n);
      Strings.Regroup(BitsOf(vs[0], n), Ungroup(vs[1..], n), left);
    }
  }

  lemma {:induction false} NothingToGroup(n: nat, left: seq<bool>)
    requires |left| < n
    ensures Group(Ungroup([], n) + left, n) == []
  {
    assert [] + left == left;
  }

  lemma {:induction false} FirstGroup(a: seq<bool>, b: seq<bool>, n: nat)
    requires n > 0 && |a| == n
    ensures Group(a + b, n) == [Value(a)] + Group(b, n)
  {
    assert (a + b)[..n] == a && (a + b)[n..] == b;
  }

  /** ... and ungrouping undoes grouping, when nothing is left over. */
  lemma {:induction false} UngroupOfGroup(bs: seq<bool>, n: nat, k: nat)
    requires n > 0 && |bs| == k * n
    ensures Ungroup(Group(bs, n), n) == bs && Fit(Group(bs, n), n) && |Group(bs, n)| == k
    decreases |bs|
  {
    hide Group, Ungroup, BitsOf, Value, Pow2;
    if k == 0 {
      assert bs == [];
      NoGroups(n);
    } else {
      assert k * n == n + (k - 1) * n;
      var a, b := bs[..n], bs[n..];
      assert bs == a + b;
      UngroupOfGroup(b, n, k - 1);
      FirstGroup(a, b, n);
      UngroupFirst([Value(a)] + Group(b, n), n);
      BitsOfValue(a);
      ValueFits(a);
      assert ([Value(a)] + Group(b, n))[1..] == Group(b, n);
    }
  }

  lemma {:induction false} NoGroups(n: nat)
    requires n > 0
    ensures Group([], n) == [] && Ungroup([], n) == []
  {
  }

  lemma {:induction false} ValueFits(bs: seq<bool>)
    ensures Value(bs) < Pow2(|bs|)
  {
  }

  // ------------------------------------------------------------------ the alphabet

  // Upper case, lower case, digits, '+' and '/'.
  function DigitChar(v: nat): char
    requires v < 64
  {
    if v < 26 then (v + 65) as char
    else if v < 52 then (v + 71) as char
    else if v < 62 then (v - 4) as char
    else if v == 62 then '+' else '/'
  }

  /** Table 1 of RFC 4648. */
  const ALPHABET := "ABCDEFGHIJKLMNOPQRSTUVWXYZ" + "abcdefghijklmnopqrstuvwxyz" + "0123456789+/"

  lemma {:induction false} AlphabetIs(v: nat)
    requires v < 64
    ensures DigitChar(v) == ALPHABET[v]
  {
  }

  // The digit that `c` is, -1 if it is none.
  function DigitFrom(c: char, i: nat): (r: int)
    requires i <= 64
    ensures r == -1 ==> forall k: nat :: i <= k < 64 ==> DigitChar(k) != c
    ensures r != -1 ==> i <= r < 64 && DigitChar(r) == c
    decreases 64 - i
  {
    if i == 64 then -1 else if DigitChar(i) == c then i else DigitFrom(c, i + 1)
  }

  function DigitOf(c: char): int {
    DigitFrom(c, 0)
  }

  lemma {:induction false} DigitsAreDistinct(v: nat)
    requires v < 64
    ensures DigitOf(DigitChar(v)) == v && DigitChar(v) != '='
  {
    hide DigitFrom;
    var r := DigitOf(DigitChar(v));
    assert r != -1;
    assert DigitChar(r) == DigitChar(v);
  }

  lemma {:induction false} PadIsNoDigit()
    ensures DigitOf('=') == -1
  {
    hide DigitFrom;
    var r := DigitOf('=');
    if r != -1 { DigitsAreDistinct(r); }
  }

  // ------------------------------------------------------------------ decoding

  // Digits up to `k`, then nothing but padding.
  ghost predicate Padded(s: string, k: nat) {
    && k <= |s|
    && (forall i :: 0 <= i < k ==> DigitOf(s[i]) != -1)
    && (forall i :: k <= i < |s| ==> s[i] == '=')
  }

  ghost predicate Readable(s: string) {
    exists k :: Padded(s, k)
  }

  predicate AllDigits(s: string) {
    forall i :: 0 <= i < |s| ==> DigitOf(s[i]) != -1
  }

  function Digits(s: string): (vs: seq<nat>)
    requires AllDigits(s)
    ensures |vs| == |s| && forall i :: 0 <= i < |s| ==> vs[i] == DigitOf(s[i]) < 64
  {
    seq(|s|, i requires 0 <= i < |s| => DigitOf(s[i]))
  }

  // What the bits of the digits amount to in bytes.
  ghost function Meaning(vs: seq<nat>): seq<nat> {
    Group(Ungroup(vs, 6), 8)
  }

  datatype Result = Decoded(bytes: seq<nat>) | Invalid | Empty

  ghost function Answer(s: string, k: nat): Result
    requires Padded(s, k)
  {
    var bytes := Meaning(Digits(s[..k]));
    if bytes == [] then Empty else Decoded(bytes)
  }

  const WORD := 0x1_0000_0000

  function Shift(bits: nat, v: nat): nat {
    bits * 64 % WORD + v
  }

  lemma {:induction false} PowersAdd(a: nat, b: nat)
    ensures Pow2(a + b) == Pow2(a) * Pow2(b)
  {
    if a > 0 {
      PowersAdd(a - 1, b);
      assert 2 * (Pow2(a - 1) * Pow2(b)) == (2 * Pow2(a - 1)) * Pow2(b);
    }
  }

  /** Wrapping around at 32 bits loses none of the low bits. */
  lemma {:induction false} ShiftedBits(bits: nat, v: nat, n: nat)
    requires v < 64 && n <= 26
    ensures BitsOf(Shift(bits, v), n + 6) == BitsOf(bits, n) + BitsOf(v, 6)
  {
    Powers();
    hide BitsOf, Pow2, Shr;
    var x, m := bits * 64 + v, n + 6;
    var q := bits * 64 / WORD;
    var d := Pow2(32 - m);
    PowersAdd(32 - m, m);
    assert q * (d * Pow2(m)) == (q * d) * Pow2(m);
    assert x == Shift(bits, v) + (q * d) * Pow2(m);
    BitsOfRemainder(x, Shift(bits, v), m, q * d);
    BitsSplit(x, n, 6);
    ShrSix(x);
    assert x / 64 == bits;
    BitsOfRemainder(x, v, 6, bits);
  }

  /** What the accumulator still has to give: its low `count` bits. */
  ghost predicate Holds(vs: seq<nat>, out: seq<nat>, bits: nat, count: nat) {
    Fit(out, 8) && Ungroup(vs, 6) == Ungroup(out, 8) + BitsOf(bits, count)
  }

  lemma {:induction false} TakeDigit(vs: seq<nat>, out: seq<nat>, bits: nat, count: nat, v: nat)
    requires Holds(vs, out, bits, count) && v < 64 && count <= 26
    ensures Holds(vs + [v], out, Shift(bits, v), count + 6)
  {
    hide BitsOf, Ungroup;
    UngroupMore(vs, 6, v);
    ShiftedBits(bits, v, count);
    Strings.Regroup(Ungroup(out, 8), BitsOf(bits, count), BitsOf(v, 6));
  }

  lemma {:induction false} GiveByte(vs: seq<nat>, out: seq<nat>, bits: nat, count: nat)
    requires Holds(vs, out, bits, count + 8)
    ensures Holds(vs, out + [Shr(bits, count) % 256], bits, count)
  {
    Powers();
    hide BitsOf, Ungroup, Pow2, Shr;
    var high := Shr(bits, count);
    var byte := high % 256;
    BitsSplit(bits, 8, count);
    BitsOfRemainder(high, byte, 8, high / 256);
    UngroupMore(out, 8, byte);
    Strings.Regroup(Ungroup(out, 8), BitsOf(byte, 8), BitsOf(bits, count));
    assert count + 8 == 8 + count;
  }

  lemma {:induction false} PaddedIsUnique(s: string, k: nat, k': nat)
    requires Padded(s, k) && Padded(s, k')
    ensures k == k'
  {
    PadIsNoDigit();
    hide DigitOf;
    assert k < |s| ==> s[k] == '=';
    assert k' < |s| ==> s[k'] == '=';
  }

  lemma {:induction false} HoldsAll(vs: seq<nat>, out: seq<nat>, bits: nat, count: nat)
    requires Holds(vs, out, bits, count) && count < 8
    ensures Meaning(vs) == out
  {
    hide BitsOf, Ungroup, Group;
    GroupOfUngroup(out, 8, BitsOf(bits, count));
  }

  lemma {:induction false} HoldsNothing()
    ensures Holds([], [], 0, 0)
  {
  }

  lemma {:induction false} OneMoreDigit(s: string, i: nat)
    requires i < |s| && AllDigits(s[..i]) && DigitOf(s[i]) != -1
    ensures AllDigits(s[..i + 1]) && Digits(s[..i + 1]) == Digits(s[..i]) + [DigitOf(s[i])]
  {
    hide DigitOf;
    assert forall j :: 0 <= j < i ==> s[..i + 1][j] == s[..i][j];
  }

  // The first `i` characters: digits up to `k`, then padding.
  ghost predicate SoFar(s: string, i: nat, k: nat, padding: bool) {
    && k <= i <= |s| && AllDigits(s[..k])
    && (if padding then k < i && s[k] == '=' else k == i)
    && (forall j :: k <= j < i ==> s[j] == '=')
  }

  /** A character that is neither fitting digit nor padding spoils the text. */
  lemma {:induction false} Spoilt(s: string, i: nat, k: nat, padding: bool)
    requires SoFar(s, i, k, padding) && i < |s| && s[i] != '=' && (padding || DigitOf(s[i]) == -1)
    ensures !Readable(s)
  {
    PadIsNoDigit();
    hide DigitOf;
    forall k': nat
      ensures !Padded(s, k')
    {
      assert s[i] != '=' && DigitOf(s[if padding then k else i]) == -1;
    }
  }

  /**
   The loop over the characters. What it returns is what the digits' bits amount to, in eights; anything
   but padding after padding is an error.
  */
  method DecodeText(s: string) returns (r: Result)
    ensures r == Invalid <==> !Readable(s)
    ensures forall k: nat :: Padded(s, k) ==> r == Answer(s, k)
  {
    hide DigitOf, Holds, Meaning, Shift, Pow2, AllDigits;
    var out: seq<nat>, bits: nat, count: nat, padding := [], 0, 0, false;
    ghost var k: nat := 0;
    HoldsNothing();
    NoDigitsYet(s);
    for i := 0 to |s|
      invariant count < 8 && SoFar(s, i, k, padding)
      invariant Holds(Digits(s[..k]), out, bits, count)
    {
      var c := s[i];
      if c == '=' { padding := true; continue; }
      var value := DigitOf(c);
      if padding || value == -1 {
        Spoilt(s, i, k, padding);
        return Invalid;
      }
      OneMoreDigit(s, i);
      TakeDigit(Digits(s[..i]), out, bits, count, value);
      bits := Shift(bits, value);
      count := count + 6;
      k := i + 1;
      if count >= 8 {
        count := count - 8;
        GiveByte(Digits(s[..k]), out, bits, count);
        out := out + [Shr(bits, count) % 256];
      }
    }
    HoldsAll(Digits(s[..k]), out, bits, count);
    AllSeen(s, k, padding);
    if out == [] { return Empty; }
    r := Decoded(out);
  }

  lemma {:induction false} NoDigitsYet(s: string)
    ensures AllDigits(s[..0]) && Digits(s[..0]) == []
  {
  }

  lemma {:induction false} AllSeen(s: string, k: nat, padding: bool)
    requires SoFar(s, |s|, k, padding)
    ensures Padded(s, k) && forall k': nat :: Padded(s, k') ==> k' == k
  {
    hide DigitOf;
    forall i | 0 <= i < k
      ensures DigitOf(s[i]) != -1
    {
      assert s[..k][i] == s[i];
    }
    forall k': nat | Padded(s, k')
      ensures k' == k
    {
      PaddedIsUnique(s, k, k');
    }
  }

  lemma {:induction false} DigitComes(vs: seq<nat>, out: seq<nat>, bits: nat, count: nat, v: nat)
    requires Holds(vs, out, bits, count) && v < 64 && count <= 6 && bits < 0x4000000
    ensures Holds(vs + [v], out, bits * 64 + v, count + 6)
    ensures count >= 2 ==> Holds(vs + [v], out + [Shr(bits * 64 + v, count - 2) % 256], bits * 64 + v, count - 2)
    ensures count < 2 ==> Meaning(vs + [v]) == out
    ensures count >= 2 ==> Meaning(vs + [v]) == out + [Shr(bits * 64 + v, count - 2) % 256]
  {
    hide Holds, Meaning;
    TakeDigit(vs, out, bits, count, v);
    if count < 2 {
      HoldsAll(vs + [v], out, bits * 64 + v, count + 6);
    } else {
      GiveByte(vs + [v], out, bits * 64 + v, count - 2);
      HoldsAll(vs + [v], out + [Shr(bits * 64 + v, count - 2) % 256], bits * 64 + v, count - 2);
    }
  }

  /** Four digits make three bytes, in the arithmetic of their values; three make two, two make one. */
  lemma {:induction false} FourDigitsMean(a: nat, b: nat, c: nat, d: nat)
    requires a < 64 && b < 64 && c < 64 && d < 64
    ensures Meaning([a]) == []
    ensures Meaning([a, b]) == [a * 4 + b / 16]
    ensures Meaning([a, b, c]) == [a * 4 + b / 16, b % 16 * 16 + c / 4]
    ensures Meaning([a, b, c, d]) == [a * 4 + b / 16, b % 16 * 16 + c / 4, c % 4 * 64 + d]
  {
    HoldsNothing();
    hide Holds, Meaning;
    var x, y, z := a * 4 + b / 16, b % 16 * 16 + c / 4, c % 4 * 64 + d;
    ThreeBytes(a, b, c, d);
    DigitComes([], [], 0, 0, a);
    assert [] + [a] == [a];
    DigitComes([a], [], a, 6, b);
    assert [a] + [b] == [a, b] && [] + [x] == [x];
    DigitComes([a, b], [x], a * 64 + b, 4, c);
    assert [a, b] + [c] == [a, b, c] && [x] + [y] == [x, y];
    DigitComes([a, b, c], [x, y], (a * 64 + b) * 64 + c, 2, d);
    assert [a, b, c] + [d] == [a, b, c, d] && [x, y] + [z] == [x, y, z];
  }

  /** ... and so on, from left to right. */
  lemma {:induction false} FoursFollow(four: seq<nat>, rest: seq<nat>)
    requires |four| == 4
    ensures Meaning(four + rest) == Meaning(four) + Meaning(rest)
  {
    hide Ungroup, Group;
    UngroupConcat(four, rest, 6);
    UngroupLength(four, 6);
    GroupConcat(Ungroup(four, 6), Ungroup(rest, 6), 8, 3);
  }

  lemma {:induction false} UngroupConcat(a: seq<nat>, b: seq<nat>, n: nat)
    ensures Ungroup(a + b, n) == Ungroup(a, n) + Ungroup(b, n)
    decreases |b|
  {
    if b == [] {
      assert a + b == a;
    } else {
      var last := |b| - 1;
      UngroupConcat(a, b[..last], n);
      assert (a + b)[..|a + b| - 1] == a + b[..last];
      Strings.Regroup(Ungroup(a, n), Ungroup(b[..last], n), BitsOf(b[last], n));
    }
  }

  lemma {:induction false} GroupConcat(a: seq<bool>, b: seq<bool>, n: nat, k: nat)
    requires n > 0 && |a| == k * n
    ensures Group(a + b, n) == Group(a, n) + Group(b, n)
    decreases k
  {
    if k == 0 {
      assert a + b == b;
    } else {
      assert k * n == n + (k - 1) * n;
      GroupConcat(a[n..], b, n, k - 1);
      FirstGroup(a[..n], a[n..] + b, n);
      FirstGroup(a[..n], a[n..], n);
      assert a == a[..n] + a[n..];
      Strings.Regroup(a[..n], a[n..], b);
    }
  }

  lemma {:induction false} ThreeBytes(a: nat, b: nat, c: nat, d: nat)
    requires a < 64 && b < 64 && c < 64 && d < 64
    ensures Shr(a * 64 + b, 4) % 256 == a * 4 + b / 16
    ensures Shr((a * 64 + b) * 64 + c, 2) % 256 == b % 16 * 16 + c / 4
    ensures Shr(((a * 64 + b) * 64 + c) * 64 + d, 0) % 256 == c % 4 * 64 + d
  {
    hide Shr;
    var p, q, r := a * 64 + b, (a * 64 + b) * 64 + c, ((a * 64 + b) * 64 + c) * 64 + d;
    ShrFew(p);
    ShrFew(q);
    ShrFew(r);
    LowByte(p, 16, 0, a * 4 + b / 16, b % 16);
    LowByte(q, 4, a * 4 + b / 16, b % 16 * 16 + c / 4, c % 4);
    LowByte(r, 1, a * 1024 + b * 16 + c / 4, c % 4 * 64 + d, 0);
  }

  lemma {:induction false} LowByte(v: nat, k: nat, high: nat, byte: nat, low: nat)
    requires k in {1, 4, 16} && low < k && byte < 256 && v == k * (256 * high + byte) + low
    ensures v / k % 256 == byte
  {
    var x := 256 * high + byte;
    assert v / k == x by {
      if k == 1 {
      } else if k == 4 {
        assert v == 4 * x + low;
      } else {
        assert v == 16 * x + low;
      }
    }
  }

  // ------------------------------------------------------------------ the encoder of RFC 4648

  function Zeros(n: nat): (bs: seq<bool>)
    ensures |bs| == n && forall i :: 0 <= i < n ==> !bs[i]
  {
    if n == 0 then [] else Zeros(n - 1) + [false]
  }

  // The bytes' bits, filled up with zeros to whole digits.
  function FilledBits(bytes: seq<nat>): seq<bool> {
    var bs := Ungroup(bytes, 8);
    bs + Zeros((6 - |bs| % 6) % 6)
  }

  function Letters(vs: seq<nat>): (s: string)
    requires forall i :: 0 <= i < |vs| ==> vs[i] < 64
    ensures |s| == |vs|
  {
    seq(|vs|, i requires 0 <= i < |vs| => DigitChar(vs[i]))
  }

  function Pads(n: nat): (s: string)
    ensures |s| == n && forall i :: 0 <= i < n ==> s[i] == '='
  {
    if n == 0 then "" else Pads(n - 1) + "="
  }

  ghost function EncodedDigits(bytes: seq<nat>): (vs: seq<nat>)
    ensures forall i :: 0 <= i < |vs| ==> vs[i] < 64
    ensures Ungroup(vs, 6) == FilledBits(bytes)
  {
    var bs := FilledBits(bytes);
    FilledIsWhole(bytes);
    UngroupOfGroup(bs, 6, |bs| / 6);
    Powers();
    Group(bs, 6)
  }

  lemma {:induction false} FilledIsWhole(bytes: seq<nat>)
    ensures |FilledBits(bytes)| == |FilledBits(bytes)| / 6 * 6
  {
    var n := |Ungroup(bytes, 8)|;
    assert (n + (6 - n % 6) % 6) % 6 == 0;
  }

  /** Digits, then '=' until the length is a multiple of four. */
  ghost function Encoded(bytes: seq<nat>): string {
    var digits := Letters(EncodedDigits(bytes));
    digits + Pads((4 - |digits| % 4) % 4)
  }

  lemma {:induction false} UngroupLength(vs: seq<nat>, n: nat)
    ensures |Ungroup(vs, n)| == |vs| * n
  {
    if vs != [] {
      UngroupLength(vs[..|vs| - 1], n);
      assert |vs| * n == (|vs| - 1) * n + n;
    }
  }

  /** Three bytes make four digits; one or two left over make two or three, with two or one '='. */
  lemma {:induction false} EncodedLength(bytes: seq<nat>)
    ensures |EncodedDigits(bytes)| == |bytes| / 3 * 4 + (if |bytes| % 3 == 0 then 0 else |bytes| % 3 + 1)
    ensures |Encoded(bytes)| == (|bytes| + 2) / 3 * 4
  {
    hide Ungroup, EncodedDigits, FilledBits, Letters, Pads;
    FilledLength(bytes);
    UngroupLength(EncodedDigits(bytes), 6);
    DigitCount(|bytes|, |EncodedDigits(bytes)|);
  }

  lemma {:induction false} FilledLength(bytes: seq<nat>)
    ensures |FilledBits(bytes)| == |bytes| * 8 + (6 - |bytes| * 8 % 6) % 6
  {
    hide Ungroup, Zeros;
    UngroupLength(bytes, 8);
  }

  lemma {:induction false} DigitCount(n: nat, d: nat)
    requires d * 6 == n * 8 + (6 - n * 8 % 6) % 6
    ensures d == n / 3 * 4 + (if n % 3 == 0 then 0 else n % 3 + 1)
    ensures d + (4 - d % 4) % 4 == (n + 2) / 3 * 4
  {
    var q, r := n / 3, n % 3;
    assert n * 8 == 6 * (4 * q + r) + 2 * r;
    assert n * 8 % 6 == 2 * r;
  }

  lemma {:induction false} LettersReadBack(vs: seq<nat>, s: string)
    requires forall i :: 0 <= i < |vs| ==> vs[i] < 64
    requires s == Letters(vs)
    ensures AllDigits(s) && Digits(s) == vs
  {
    hide DigitOf;
    forall i | 0 <= i < |vs|
      ensures DigitOf(s[i]) == vs[i]
    {
      DigitsAreDistinct(vs[i]);
    }
  }

  /** Every byte string is read back from its encoding; only the empty one is turned away. */
  lemma {:induction false} EncodedReadsBack(bytes: seq<nat>)
    requires forall i :: 0 <= i < |bytes| ==> bytes[i] < 256
    ensures var k := |EncodedDigits(bytes)|;
      Padded(Encoded(bytes), k) && Answer(Encoded(bytes), k) == if bytes == [] then Empty else Decoded(bytes)
  {
    hide DigitOf, EncodedDigits, FilledBits, Group, Ungroup;
    var vs := EncodedDigits(bytes);
    var s := Encoded(bytes);
    LettersReadBack(vs, Letters(vs));
    assert s[..|vs|] == Letters(vs);
    assert forall i :: 0 <= i < |vs| ==> s[i] == Letters(vs)[i];
    FilledMeans(bytes, vs);
  }

  lemma {:induction false} FilledMeans(bytes: seq<nat>, vs: seq<nat>)
    requires (forall i :: 0 <= i < |bytes| ==> bytes[i] < 256) && Ungroup(vs, 6) == FilledBits(bytes)
    ensures Meaning(vs) == bytes
  {
    hide Group, Ungroup, Pow2;
    Powers();
    GroupOfUngroup(bytes, 8, Zeros((6 - |Ungroup(bytes, 8)| % 6) % 6));
  }
}
