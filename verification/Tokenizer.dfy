/** The byte-pair tokenizer. */
module Tokenizer {
  /*
   Byte-pair merges over byte symbols, special tokens, and the way back.
  */

  import opened Strings
  import opened ByteSymbols
  import opened Pretokenizer

  // What tokenizer.json provides.
  datatype Vocab = Vocab(ids: map<string, int>, names: seq<string>, ranks: map<string, int>,
                         added: seq<(string, int)>, unicode: Unicode)

  const RANK_MAX := 0x7fff_ffff   // INT32_MAX: no rank is better than this

  predicate IsAdded(v: Vocab, name: string) {
    exists i :: 0 <= i < |v.added| && v.added[i].0 == name
  }

  ghost predicate Loaded(v: Vocab) {
    && Sorted(v.unicode)
    && (forall i, j :: 0 <= i < j < |v.added| ==> |v.added[i].0| >= |v.added[j].0|)
    && (forall i :: 0 <= i < |v.added| ==> v.added[i].1 >= 0)
  }

  /**
   A vocabulary that can write every byte and whose ids mean one thing: an ordinary token's id leads
   back to it and to no special token, and a special token's id leads back to that.
  */
  ghost predicate Consistent(v: Vocab) {
    && (forall b: nat :: b < 256 ==> Sym(b) in v.ids)
    && (forall s :: s in v.ids ==> 0 <= v.ids[s] < |v.names| && v.names[v.ids[s]] == s && !IsAdded(v, s))
    && (forall i :: 0 <= i < |v.added| ==> 0 <= v.added[i].1 < |v.names| && v.names[v.added[i].1] == v.added[i].0)
  }

  // ------------------------------------------------------------------ decoding

  // The bytes of one token.
  function TokenText(v: Vocab, keepSpecial: bool, id: int): string {
    if id < 0 || id >= |v.names| then ""
    else if IsAdded(v, v.names[id]) then (if keepSpecial then v.names[id] else "")
    else Unsymbols(v.names[id])
  }

  function Spell(v: Vocab, keepSpecial: bool): Spelling {
    (id: int) => TokenText(v, keepSpecial, id)
  }

  method Decode(v: Vocab, ids: seq<int>, keepSpecial: bool) returns (out: string)
    ensures out == Spelled(Spell(v, keepSpecial), ids)
  {
    hide Unsymbols;
    out := "";
    for i := 0 to |ids|
      invariant out == Spelled(Spell(v, keepSpecial), ids[..i])
    {
      assert ids[..i + 1][..i] == ids[..i];
      var id := ids[i];
      if id < 0 || id >= |v.names| { AppendNothing(out); continue; }
      var name := v.names[id];
      if IsAdded(v, name) {
        if keepSpecial { out := out + name; }
        AppendNothing(out);
        continue;
      }
      var text := ReadSymbols(name);
      out := out + text;
    }
    assert ids[..|ids|] == ids;
  }

  lemma {:induction false} AppendNothing(s: string)
    ensures s + "" == s
  {
  }

  // ------------------------------------------------------------------ merging

  function Rank(v: Vocab, syms: seq<string>, i: nat): int
    requires i + 1 < |syms|
  {
    var key := syms[i] + [1 as char] + syms[i + 1];
    if key in v.ranks && v.ranks[key] < RANK_MAX then v.ranks[key] else RANK_MAX
  }

  /** The pair to merge next: of the lowest rank, and the leftmost of those. */
  ghost predicate IsBest(v: Vocab, syms: seq<string>, n: nat, best: int)
    requires n < |syms|
  {
    if best == -1 then forall i: nat :: i < n ==> Rank(v, syms, i) == RANK_MAX
    else
      && 0 <= best < n && Rank(v, syms, best) < RANK_MAX
      && (forall i: nat :: i < n ==> Rank(v, syms, best) <= Rank(v, syms, i))
      && (forall i: nat :: i < best ==> Rank(v, syms, best) < Rank(v, syms, i))
  }

  function BestPair(v: Vocab, syms: seq<string>, n: nat): (best: int)
    requires n < |syms|
    ensures IsBest(v, syms, n, best)
  {
    if n == 0 then -1
    else
      var best := BestPair(v, syms, n - 1);
      if Rank(v, syms, n - 1) < (if best == -1 then RANK_MAX else Rank(v, syms, best)) then n - 1 else best
  }

  function MergeAt(syms: seq<string>, i: nat): (r: seq<string>)
    requires i + 1 < |syms|
    ensures |r| == |syms| - 1
  {
    syms[..i] + [syms[i] + syms[i + 1]] + syms[i + 2..]
  }

  /** The symbols after all merges. */
  function Merged(v: Vocab, syms: seq<string>): seq<string>
    decreases |syms|
  {
    if |syms| <= 1 then syms
    else
      var best := BestPair(v, syms, |syms| - 1);
      if best == -1 then syms else Merged(v, MergeAt(syms, best))
  }

  method Merge(v: Vocab, syms0: seq<string>) returns (syms: seq<string>)
    ensures syms == Merged(v, syms0)
  {
    hide Merged, MergeAt;
    syms := syms0;
    while |syms| > 1
      invariant Merged(v, syms) == Merged(v, syms0)
      decreases |syms|
    {
      var best, bestRank := -1, RANK_MAX;
      for i := 0 to |syms| - 1
        invariant best == BestPair(v, syms, i)
        invariant bestRank == if best == -1 then RANK_MAX else Rank(v, syms, best)
      {
        var key := syms[i] + [1 as char] + syms[i + 1];
        if key in v.ranks && v.ranks[key] < bestRank { best, bestRank := i, v.ranks[key]; }
      }
      OneMerge(v, syms);
      if best < 0 { break; }
      syms := MergeAt(syms, best);
    }
    if |syms| <= 1 { NoMerge(v, syms); }
  }

  lemma {:induction false} OneMerge(v: Vocab, syms: seq<string>)
    requires |syms| > 1
    ensures var best := BestPair(v, syms, |syms| - 1);
      Merged(v, syms) == if best == -1 then syms else Merged(v, MergeAt(syms, best))
  {
  }

  lemma {:induction false} NoMerge(v: Vocab, syms: seq<string>)
    requires |syms| <= 1
    ensures Merged(v, syms) == syms
  {
  }

  /** When merging ends, no neighbours can be merged any more. */
  lemma {:induction false} MergedIsFinal(v: Vocab, syms: seq<string>, i: nat)
    requires i + 1 < |Merged(v, syms)|
    ensures var m := Merged(v, syms); var key := m[i] + "\U{1}" + m[i + 1];
      key !in v.ranks || v.ranks[key] >= 0x7fff_ffff
    decreases |syms|
  {
    NotMergeable(v, Merged(v, syms), i);
    hide Mergeable, MergesAt, PairKey;
    if |syms| > 1 {
      BestMerges(v, syms);
      var best := BestPair(v, syms, |syms| - 1);
      if best != -1 { MergedIsFinal(v, MergeAt(syms, best), i); }
    }
  }

  lemma {:induction false} NotMergeable(v: Vocab, m: seq<string>, i: nat)
    requires i + 1 < |m|
    ensures !Mergeable(v, m, i) <==>
      var key := m[i] + "\U{1}" + m[i + 1]; key !in v.ranks || v.ranks[key] >= 0x7fff_ffff
  {
  }

  // ------------------------------------------------------------------ merging, in terms of the table

  // Two symbols are in the table as the one, a byte 1, and the other.
  function PairKey(a: string, b: string): string {
    a + "\U{1}" + b
  }

  predicate Mergeable(v: Vocab, s: seq<string>, i: int) {
    0 <= i && i + 1 < |s| && PairKey(s[i], s[i + 1]) in v.ranks && v.ranks[PairKey(s[i], s[i + 1])] < 0x7fff_ffff
  }

  /** One merge: of all neighbours in the table those of the least entry, and the leftmost of them. */
  ghost predicate MergesAt(v: Vocab, s: seq<string>, i: int, t: seq<string>) {
    && Mergeable(v, s, i) && t == s[..i] + [s[i] + s[i + 1]] + s[i + 2..]
    && forall j :: Mergeable(v, s, j) ==>
         var a, b := v.ranks[PairKey(s[i], s[i + 1])], v.ranks[PairKey(s[j], s[j + 1])];
         a < b || (a == b && i <= j)
  }

  ghost predicate Merges(v: Vocab, s: seq<string>, t: seq<string>) {
    exists i :: MergesAt(v, s, i, t)
  }

  ghost predicate Stuck(v: Vocab, s: seq<string>) {
    forall i :: !Mergeable(v, s, i)
  }

  /** Merge after merge, until there is none. */
  ghost predicate MergeRun(v: Vocab, states: seq<seq<string>>) {
    && states != []
    && if |states| == 1 then Stuck(v, states[0]) else Merges(v, states[0], states[1]) && MergeRun(v, states[1..])
  }

  lemma {:induction false} RankIs(v: Vocab, s: seq<string>, i: nat)
    requires i + 1 < |s|
    ensures Rank(v, s, i) == if Mergeable(v, s, i) then v.ranks[PairKey(s[i], s[i + 1])] else 0x7fff_ffff
  {
    assert [1 as char] == "\U{1}";
  }

  lemma {:induction false} BestMerges(v: Vocab, s: seq<string>)
    requires |s| > 1
    ensures var best := BestPair(v, s, |s| - 1);
      if best == -1 then Stuck(v, s) else MergesAt(v, s, best, MergeAt(s, best))
  {
    hide Rank;
    var best := BestPair(v, s, |s| - 1);
    forall i: nat | i + 1 < |s|
      ensures Rank(v, s, i) == if Mergeable(v, s, i) then v.ranks[PairKey(s[i], s[i + 1])] else 0x7fff_ffff
    {
      RankIs(v, s, i);
    }
    hide PairKey;
    if best == -1 {
      forall i
        ensures !Mergeable(v, s, i)
      {
        if 0 <= i && i + 1 < |s| { assert Rank(v, s, i) == RANK_MAX; }
      }
    } else {
      assert Rank(v, s, best) < RANK_MAX;
      forall j | Mergeable(v, s, j)
        ensures Rank(v, s, best) < Rank(v, s, j) || (Rank(v, s, best) == Rank(v, s, j) && best <= j)
      {
      }
    }
  }

  lemma {:induction false} MergesOnce(v: Vocab, s: seq<string>, i: int, t: seq<string>, j: int, u: seq<string>)
    requires MergesAt(v, s, i, t) && MergesAt(v, s, j, u)
    ensures i == j && t == u
  {
  }

  /** Merging is such a run, and there is only one. */
  lemma {:induction false} MergedIsRun(v: Vocab, states: seq<seq<string>>)
    requires MergeRun(v, states)
    ensures Merged(v, states[0]) == states[|states| - 1]
    decreases |states|
  {
    hide Mergeable, MergesAt, MergeAt;
    var s := states[0];
    if |states| > 1 {
      var i :| MergesAt(v, s, i, states[1]);
      MergesNeighbours(v, s, i, states[1]);
      BestMerges(v, s);
      if BestPair(v, s, |s| - 1) != -1 {
        MergesOnce(v, s, i, states[1], BestPair(v, s, |s| - 1), MergeAt(s, BestPair(v, s, |s| - 1)));
      }
      MergedIsRun(v, states[1..]);
    } else if |s| > 1 {
      BestMerges(v, s);
      NotStuck(v, s, BestPair(v, s, |s| - 1));
    }
  }

  lemma {:induction false} NotStuck(v: Vocab, s: seq<string>, i: int)
    requires |s| > 1 && Stuck(v, s)
    ensures 0 <= i && i + 1 < |s| ==> !MergesAt(v, s, i, MergeAt(s, i))
  {
  }

  lemma {:induction false} MergesNeighbours(v: Vocab, s: seq<string>, i: int, t: seq<string>)
    requires MergesAt(v, s, i, t)
    ensures Mergeable(v, s, i) && |s| > 1 && |t| == |s| - 1
  {
  }

  lemma {:induction false} MergeRunExists(v: Vocab, s: seq<string>) returns (states: seq<seq<string>>)
    ensures MergeRun(v, states) && states[0] == s
    decreases |s|
  {
    hide MergesAt, MergeAt;
    states := [s];
    if |s| > 1 {
      BestMerges(v, s);
      var best := BestPair(v, s, |s| - 1);
      if best != -1 {
        var rest := MergeRunExists(v, MergeAt(s, best));
        states := [s] + rest;
        assert states[1..] == rest && MergesAt(v, s, best, states[1]);
      }
    }
  }

  /** Two symbols that the table has become one. */
  lemma {:induction false} TwoMerge(v: Vocab, a: string, b: string)
    ensures var key := a + "\U{1}" + b;
      Merged(v, [a, b]) == if key in v.ranks && v.ranks[key] < 0x7fff_ffff then [a + b] else [a, b]
  {
    var s, t := [a, b], [a + b];
    NotMergeable(v, s, 0);
    if Mergeable(v, s, 0) {
      assert s[..0] + [s[0] + s[1]] + s[2..] == t;
      assert MergesAt(v, s, 0, t);
      assert [s, t][1..] == [t] && Stuck(v, t);
      MergedIsRun(v, [s, t]);
    } else {
      MergedIsRun(v, [s]);
    }
  }

  // The byte strings that symbol strings stand for.
  ghost predicate Stand(syms: seq<string>, parts: seq<string>) {
    |syms| == |parts| && forall i :: 0 <= i < |parts| ==> Bytes(parts[i]) && syms[i] == Symbols(parts[i])
  }

  lemma {:induction false} JoinConcat(a: seq<string>, b: seq<string>)
    ensures Join(a + b) == Join(a) + Join(b)
    decreases |b|
  {
    if b == [] {
      assert a + b == a;
      AppendNothing(Join(a));
    } else {
      var last := |b| - 1;
      JoinConcat(a, b[..last]);
      assert (a + b)[..|a + b| - 1] == a + b[..last];
      Regroup(Join(a), Join(b[..last]), b[last]);
    }
  }

  lemma {:induction false} JoinOne(a: string)
    ensures Join([a]) == a
  {
    assert [a][..0] == [];
    assert "" + a == a;
  }

  lemma {:induction false} JoinMerged(x: seq<string>, a: string, b: string, z: seq<string>)
    ensures Join(x + [a + b] + z) == Join(x + [a, b] + z)
  {
    hide Join;
    JoinConcat(x + [a + b], z);
    JoinConcat(x, [a + b]);
    JoinConcat(x + [a, b], z);
    JoinConcat(x, [a, b]);
    JoinConcat([a], [b]);
    assert [a] + [b] == [a, b];
    JoinOne(a);
    JoinOne(b);
    JoinOne(a + b);
  }

  lemma {:induction false} MergeAtKeeps(syms: seq<string>, parts: seq<string>, i: nat)
    requires Stand(syms, parts) && i + 1 < |syms|
    ensures Stand(MergeAt(syms, i), MergeAt(parts, i)) && Join(MergeAt(parts, i)) == Join(parts)
  {
    hide Symbols, Join;
    SymbolsConcat(parts[i], parts[i + 1]);
    assert parts == parts[..i] + [parts[i], parts[i + 1]] + parts[i + 2..];
    JoinMerged(parts[..i], parts[i], parts[i + 1], parts[i + 2..]);
  }

  /** Merging loses nothing: the symbols still stand for the same bytes. */
  lemma {:induction false} MergedKeeps(v: Vocab, syms: seq<string>, parts: seq<string>) returns (parts': seq<string>)
    requires Stand(syms, parts)
    ensures Stand(Merged(v, syms), parts') && Join(parts') == Join(parts)
    decreases |syms|
  {
    hide Stand, MergeAt, Join;
    parts' := parts;
    if |syms| > 1 {
      var best := BestPair(v, syms, |syms| - 1);
      if best != -1 {
        StandLength(syms, parts);
        MergeAtKeeps(syms, parts, best);
        parts' := MergedKeeps(v, MergeAt(syms, best), MergeAt(parts, best));
      }
    }
  }

  lemma {:induction false} StandLength(syms: seq<string>, parts: seq<string>)
    requires Stand(syms, parts)
    ensures |syms| == |parts|
  {
  }

  // ------------------------------------------------------------------ symbols to ids

  /** A merged symbol that is no token is written byte by byte, leaving out what is in no vocabulary. */
  function FallbackIds(v: Vocab, sym: string): seq<int>
    decreases |sym|
  {
    if sym == "" then []
    else
      var l := DecodeAt(sym, 0).1;
      var b := ByteOf(sym[..l]);
      (if 0 <= b < 256 && Sym(b) in v.ids then [v.ids[Sym(b)]] else []) + FallbackIds(v, sym[l..])
  }

  function SymbolIds(v: Vocab, sym: string): seq<int> {
    if sym in v.ids then [v.ids[sym]] else FallbackIds(v, sym)
  }

  function AllIds(v: Vocab, syms: seq<string>): seq<int> {
    if syms == [] then [] else AllIds(v, syms[..|syms| - 1]) + SymbolIds(v, syms[|syms| - 1])
  }

  function Initial(piece: string): seq<string>
    requires Bytes(piece)
  {
    seq(|piece|, i requires 0 <= i < |piece| => Sym(piece[i] as nat))
  }

  function PieceIds(v: Vocab, piece: string): seq<int>
    requires Bytes(piece)
  {
    AllIds(v, Merged(v, Initial(piece)))
  }

  lemma {:induction false} FallbackStep(v: Vocab, sym: string, k: nat)
    requires k < |sym|
    ensures var l := DecodeAt(sym, k).1; var b := ByteOf(sym[k..k + l]);
      && b < 256
      && FallbackIds(v, sym[k..])
      == (if 0 <= b && Sym(b) in v.ids then [v.ids[Sym(b)]] else []) + FallbackIds(v, sym[k + l..])
  {
    hide ByteOf;
    var l := DecodeAt(sym, k).1;
    DecodeShift(sym, k);
    ByteOfBound(sym[k..k + l]);
    assert sym[k..][..l] == sym[k..k + l] && sym[k..][l..] == sym[k + l..];
  }

  method Fallback(v: Vocab, sym: string) returns (ids: seq<int>)
    ensures ids == FallbackIds(v, sym)
  {
    hide FallbackIds, DecodeAt, ByteOf, Sym;
    ids := [];
    var k := 0;
    assert sym[0..] == sym;
    while k < |sym|
      invariant k <= |sym| && FallbackIds(v, sym) == ids + FallbackIds(v, sym[k..])
    {
      var l := DecodeAt(sym, k).1;
      FallbackStep(v, sym, k);
      var b := ByteOf(sym[k..k + l]);
      if b != -1 {
        ByteOfBound(sym[k..k + l]);
        if Sym(b) in v.ids { ids := ids + [v.ids[Sym(b)]]; }
      }
      k := k + l;
    }
    FallbackNothing(v, sym);
  }

  lemma {:induction false} FallbackNothing(v: Vocab, sym: string)
    ensures FallbackIds(v, sym[|sym|..]) == []
  {
  }

  /** A symbol that is no token gives way to its bytes, from the left; those that are no tokens either are dropped. */
  lemma {:induction false} BytesInstead(v: Vocab, bs: string, b: nat)
    requires Bytes(bs) && b < 256
    ensures Symbols(bs) !in v.ids ==> SymbolIds(v, Symbols(bs)) == FallbackIds(v, Symbols(bs))
    ensures FallbackIds(v, "") == []
    ensures FallbackIds(v, Sym(b) + Symbols(bs))
         == if Sym(b) in v.ids then [v.ids[Sym(b)]] + FallbackIds(v, Symbols(bs)) else FallbackIds(v, Symbols(bs))
  {
    hide Sym, ByteFrom, DecodeAt;
    var rest := Symbols(bs);
    SymbolIsDecoded(b, rest);
    ByteOfSym(b);
    var t := Sym(b) + rest;
    assert t[..|Sym(b)|] == Sym(b) && t[|Sym(b)|..] == rest;
    assert [] + FallbackIds(v, rest) == FallbackIds(v, rest);
  }

  /** Merging starts from one symbol for each byte. */
  lemma {:induction false} PieceIsBytes(v: Vocab, piece: string, states: seq<seq<string>>)
    requires Bytes(piece) && MergeRun(v, states) && |states[0]| == |piece|
    requires forall i :: 0 <= i < |piece| ==> states[0][i] == Sym(piece[i] as nat)
    ensures PieceIds(v, piece) == AllIds(v, states[|states| - 1])
  {
    hide Sym, Merged, AllIds;
    assert Initial(piece) == states[0];
    MergedIsRun(v, states);
  }

  /** The bytes of a symbol that is no token are spelled one by one. */
  lemma {:induction false} FallbackReadsBack(v: Vocab, bs: string)
    requires Consistent(v) && Bytes(bs)
    ensures Spelled(Spell(v, true), FallbackIds(v, Symbols(bs))) == bs
    decreases |bs|
  {
    hide Sym, ByteFrom, DecodeAt, Unsymbols;
    if bs != "" {
      var b, rest := bs[0] as nat, Symbols(bs[1..]);
      SymbolIsDecoded(b, rest);
      ByteOfSym(b);
      var t := Sym(b) + rest;
      assert t[..|Sym(b)|] == Sym(b) && t[|Sym(b)|..] == rest;
      FallbackReadsBack(v, bs[1..]);
      var id := v.ids[Sym(b)];
      SpelledConcat(Spell(v, true), [id], FallbackIds(v, rest));
      OneByte(v, b);
      assert bs == [bs[0]] + bs[1..];
    }
  }

  lemma {:induction false} OneByte(v: Vocab, b: nat)
    requires Consistent(v) && b < 256 && Sym(b) in v.ids
    ensures Spelled(Spell(v, true), [v.ids[Sym(b)]]) == [b as char]
  {
    hide Sym;
    var bs := [b as char];
    assert Symbols(bs) == Sym(b) + Symbols(bs[1..]);
    AppendNothing(Sym(b));
    SymbolsReadBack(bs);
    SpelledOne(v, v.ids[Sym(b)]);
  }

  lemma {:induction false} SpelledOne(v: Vocab, id: int)
    ensures Spelled(Spell(v, true), [id]) == TokenText(v, true, id)
  {
    assert [id][..0] == [];
    assert "" + TokenText(v, true, id) == TokenText(v, true, id);
  }

  lemma {:induction false} SymbolReadsBack(v: Vocab, bs: string)
    requires Consistent(v) && Bytes(bs)
    ensures Spelled(Spell(v, true), SymbolIds(v, Symbols(bs))) == bs
  {
    hide Sym, Symbols, Unsymbols;
    var sym := Symbols(bs);
    if sym in v.ids {
      SpelledOne(v, v.ids[sym]);
      SymbolsReadBack(bs);
    } else {
      FallbackReadsBack(v, bs);
    }
  }

  lemma {:induction false} AllReadBack(v: Vocab, syms: seq<string>, parts: seq<string>)
    requires Consistent(v) && Stand(syms, parts)
    ensures Spelled(Spell(v, true), AllIds(v, syms)) == Join(parts)
    decreases |syms|
  {
    hide Consistent, Symbols, Sym;
    if syms != [] {
      var last := |syms| - 1;
      AllReadBack(v, syms[..last], parts[..last]);
      SymbolReadsBack(v, parts[last]);
      SpelledConcat(Spell(v, true), AllIds(v, syms[..last]), SymbolIds(v, syms[last]));
    }
  }

  lemma {:induction false} InitialStands(piece: string) returns (parts: seq<string>)
    requires Bytes(piece)
    ensures Stand(Initial(piece), parts) && Join(parts) == piece
  {
    hide Sym;
    parts := seq(|piece|, i requires 0 <= i < |piece| => [piece[i]]);
    forall i | 0 <= i < |piece|
      ensures Symbols(parts[i]) == Sym(piece[i] as nat)
    {
      assert parts[i][1..] == "";
      AppendNothing(Sym(piece[i] as nat));
    }
    JoinSingles(piece, parts);
  }

  lemma {:induction false} JoinSingles(piece: string, parts: seq<string>)
    requires |parts| == |piece| && forall i :: 0 <= i < |piece| ==> parts[i] == [piece[i]]
    ensures Join(parts) == piece
    decreases |piece|
  {
    if piece != "" {
      var last := |piece| - 1;
      JoinSingles(piece[..last], parts[..last]);
      assert piece == piece[..last] + [piece[last]];
    }
  }

  /** The tokens of a piece spell the piece. */
  lemma {:induction false} PieceReadsBack(v: Vocab, piece: string)
    requires Consistent(v) && Bytes(piece)
    ensures Spelled(Spell(v, true), PieceIds(v, piece)) == piece
  {
    hide Stand, Consistent, Merged, Initial;
    var parts := InitialStands(piece);
    var parts' := MergedKeeps(v, Initial(piece), parts);
    AllReadBack(v, Merged(v, Initial(piece)), parts');
  }

  /** A symbol in the vocabulary becomes its id; a piece that merges to such symbols becomes theirs. */
  lemma {:induction false} KnownSymbols(v: Vocab, syms: seq<string>)
    requires forall i :: 0 <= i < |syms| ==> syms[i] in v.ids
    ensures |AllIds(v, syms)| == |syms| && forall i :: 0 <= i < |syms| ==> AllIds(v, syms)[i] == v.ids[syms[i]]
  {
    if syms != [] { KnownSymbols(v, syms[..|syms| - 1]); }
  }

  lemma {:induction false} PieceOfKnown(v: Vocab, piece: string)
    requires Bytes(piece) && forall i :: 0 <= i < |Merged(v, Initial(piece))| ==> Merged(v, Initial(piece))[i] in v.ids
    ensures var syms := Merged(v, Initial(piece));
      |PieceIds(v, piece)| == |syms| && forall i :: 0 <= i < |syms| ==> PieceIds(v, piece)[i] == v.ids[syms[i]]
  {
    KnownSymbols(v, Merged(v, Initial(piece)));
  }

  /** Without special tokens kept, they are left out, and nothing else changes. */
  lemma {:induction false} SpecialsAreDropped(v: Vocab, id: int)
    requires 0 <= id < |v.names|
    ensures Spell(v, false)(id) == if exists i :: 0 <= i < |v.added| && v.added[i].0 == v.names[id] then ""
                                   else Spell(v, true)(id)
  {
  }

  // ------------------------------------------------------------------ segments

  lemma {:induction false} BytesOfSlice(s: string, a: nat, b: nat)
    requires Bytes(s) && a <= b <= |s|
    ensures Bytes(s[a..b])
  {
  }

  // The tokens of a stretch without special tokens, from its byte `i` on.
  function SegmentIds(v: Vocab, s: string, i: nat): seq<int>
    requires Bytes(s) && i <= |s|
    decreases |s| - i
  {
    if i == |s| then []
    else
      var e := NextEnd(v.unicode, s, i);
      BytesOfSlice(s, i, e);
      PieceIds(v, s[i..e]) + SegmentIds(v, s, e)
  }

  // The tokens of pieces, one piece after the other.
  function PiecewiseIds(v: Vocab, s: string, pieces: seq<(nat, nat)>): seq<int>
    requires Bytes(s) && forall k :: 0 <= k < |pieces| ==> pieces[k].0 <= pieces[k].1 <= |s|
  {
    if pieces == [] then []
    else
      var (a, b) := pieces[0];
      BytesOfSlice(s, a, b);
      PieceIds(v, s[a..b]) + PiecewiseIds(v, s, pieces[1..])
  }

  lemma {:induction false} PiecesFit(u: Unicode, s: string, i: nat)
    requires i <= |s|
    ensures forall k :: 0 <= k < |Pieces(u, s, i)| ==> Pieces(u, s, i)[k].0 <= Pieces(u, s, i)[k].1 <= |s|
    decreases |s| - i
  {
    hide NextEnd;
    if i < |s| {
      PiecesFit(u, s, NextEnd(u, s, i));
      PiecesHead(u, s, i);
    }
  }

  /** A stretch without special tokens is cut into pieces, and each is tokenized on its own. */
  lemma {:induction false} SegmentIsPiecewise(v: Vocab, s: string, i: nat)
    requires Bytes(s) && i <= |s|
    ensures forall k :: 0 <= k < |Pieces(v.unicode, s, i)| ==>
              Pieces(v.unicode, s, i)[k].0 <= Pieces(v.unicode, s, i)[k].1 <= |s|
    ensures SegmentIds(v, s, i) == PiecewiseIds(v, s, Pieces(v.unicode, s, i))
    decreases |s| - i
  {
    hide NextEnd, PieceIds, Bytes;
    PiecesFit(v.unicode, s, i);
    PiecesHead(v.unicode, s, i);
    if i < |s| { SegmentIsPiecewise(v, s, NextEnd(v.unicode, s, i)); }
  }

  /** A text in which no special token occurs is one such stretch. */
  lemma {:induction false} NothingSpecial(v: Vocab, text: string, i: nat)
    requires Bytes(text) && i <= |text|
    requires forall k, j: int :: 0 <= k < |v.added| && v.added[k].0 != "" ==> !At(v.added[k].0, text, j)
    ensures EncodedFrom(v, text, i, 0) == SegmentIds(v, text, 0)
    decreases |text| - i
  {
    hide SegmentIds, At, Bytes, FirstMatch;
    if i == |text| { assert text[0..i] == text; } else { NothingSpecial(v, text, i + 1); }
  }

  lemma {:induction false} SegmentReadsBack(v: Vocab, s: string, i: nat)
    requires Consistent(v) && Bytes(s) && i <= |s|
    ensures Spelled(Spell(v, true), SegmentIds(v, s, i)) == s[i..]
    decreases |s| - i
  {
    hide NextEnd, PieceIds, Consistent, Spelled, Spell;
    if i < |s| {
      var e := NextEnd(v.unicode, s, i);
      BytesOfSlice(s, i, e);
      hide Bytes;
      PieceReadsBack(v, s[i..e]);
      SegmentReadsBack(v, s, e);
      SpelledConcat(Spell(v, true), PieceIds(v, s[i..e]), SegmentIds(v, s, e));
      assert s[i..] == s[i..e] + s[e..];
    } else {
      SpelledNone(v);
    }
  }

  lemma {:induction false} SpelledNone(v: Vocab)
    ensures Spelled(Spell(v, true), []) == ""
  {
  }

  // ------------------------------------------------------------------ special tokens

  /** The first special token that occurs at `i`, from the `j`-th on; -1 if none does. */
  function FirstMatch(v: Vocab, text: string, i: nat, j: nat): (r: int)
    requires j <= |v.added|
    ensures r == -1 ==> forall k :: j <= k < |v.added| && v.added[k].0 != "" ==> !At(v.added[k].0, text, i)
    ensures r != -1 ==> j <= r < |v.added| && v.added[r].0 != "" && At(v.added[r].0, text, i)
    ensures r != -1 ==> forall k :: j <= k < r && v.added[k].0 != "" ==> !At(v.added[k].0, text, i)
    decreases |v.added| - j
  {
    if j == |v.added| then -1
    else if v.added[j].0 != "" && At(v.added[j].0, text, i) then j
    else FirstMatch(v, text, i, j + 1)
  }

  /** No longer special token occurs there. */
  lemma {:induction false} FirstIsLongest(v: Vocab, text: string, i: nat, k: nat)
    requires Loaded(v) && k < |v.added| && v.added[k].0 != "" && At(v.added[k].0, text, i)
    ensures var r := FirstMatch(v, text, i, 0); r != -1 && |v.added[k].0| <= |v.added[r].0|
  {
    hide At, FirstMatch;
  }

  method MatchSpecial(v: Vocab, text: string, i: nat) returns (matched: int, mlen: nat)
    requires Loaded(v)
    ensures var r := FirstMatch(v, text, i, 0);
      if r == -1 then matched == -1 && mlen == 0 else matched == v.added[r].1 && mlen == |v.added[r].0|
  {
    hide At, FirstMatch;
    matched, mlen := -1, 0;
    ghost var r := FirstMatch(v, text, i, 0);
    for j := 0 to |v.added|
      invariant r == -1 || j <= r ==> matched == -1 && mlen == 0
      invariant r != -1 && r < j ==> matched == v.added[r].1 && mlen == |v.added[r].0|
    {
      var c, id := v.added[j].0, v.added[j].1;
      if |c| <= mlen { break; }
      if At(c, text, i) { matched, mlen := id, |c|; }
    }
  }

  // ------------------------------------------------------------------ encoding

  lemma {:induction false} AtFits(p: string, s: string, i: nat)
    requires At(p, s, i)
    ensures i + |p| <= |s|
  {
  }

  /** The tokens of `text[seg..]`, when no special token starts in [seg, i). */
  function EncodedFrom(v: Vocab, text: string, i: nat, seg: nat): seq<int>
    requires Bytes(text) && seg <= i <= |text|
    decreases |text| - i
  {
    BytesOfSlice(text, seg, i);
    if i == |text| then SegmentIds(v, text[seg..i], 0)
    else
      var r := FirstMatch(v, text, i, 0);
      if r == -1 then EncodedFrom(v, text, i + 1, seg)
      else
        var c := v.added[r].0;
        AtFits(c, text, i);
        SegmentIds(v, text[seg..i], 0) + [v.added[r].1] + EncodedFrom(v, text, i + |c|, i + |c|)
  }

  function Encoded(v: Vocab, text: string): seq<int>
    requires Bytes(text)
  {
    EncodedFrom(v, text, 0, 0)
  }

  lemma {:induction false} EncodedStep(v: Vocab, text: string, i: nat, seg: nat)
    requires Bytes(text) && seg <= i < |text| && Bytes(text[seg..i])
    ensures var r := FirstMatch(v, text, i, 0);
      if r == -1 then EncodedFrom(v, text, i, seg) == EncodedFrom(v, text, i + 1, seg)
      else
        && i + |v.added[r].0| <= |text| && v.added[r].0 != ""
        && EncodedFrom(v, text, i, seg) == SegmentIds(v, text[seg..i], 0) + [v.added[r].1]
           + EncodedFrom(v, text, i + |v.added[r].0|, i + |v.added[r].0|)
  {
    hide SegmentIds, FirstMatch, Bytes;
    var r := FirstMatch(v, text, i, 0);
    if r != -1 { AtFits(v.added[r].0, text, i); }
  }

  lemma {:induction false} EncodedEnd(v: Vocab, text: string, seg: nat)
    requires Bytes(text) && seg <= |text| && Bytes(text[seg..|text|])
    ensures EncodedFrom(v, text, |text|, seg) == SegmentIds(v, text[seg..|text|], 0)
  {
    hide SegmentIds;
  }

  lemma {:induction false} SpecialReadsBack(v: Vocab, r: nat)
    requires Consistent(v) && r < |v.added|
    ensures Spelled(Spell(v, true), [v.added[r].1]) == v.added[r].0
  {
    SpelledOne(v, v.added[r].1);
    assert IsAdded(v, v.added[r].0);
  }

  lemma {:induction false} EncodedFromReadsBack(v: Vocab, text: string, i: nat, seg: nat)
    requires Consistent(v) && Bytes(text) && seg <= i <= |text|
    ensures Spelled(Spell(v, true), EncodedFrom(v, text, i, seg)) == text[seg..]
    decreases |text| - i
  {
    hide SegmentIds, FirstMatch, Consistent, Bytes, Spelled, Spell, At;
    HeadReadsBack(v, text, i, seg);
    if i == |text| {
      assert text[seg..i] == text[seg..];
    } else {
      var r := FirstMatch(v, text, i, 0);
      if r == -1 {
        EncodedFromReadsBack(v, text, i + 1, seg);
      } else {
        var c := v.added[r].0;
        AtFits(c, text, i);
        var tail := EncodedFrom(v, text, i + |c|, i + |c|);
        EncodedFromReadsBack(v, text, i + |c|, i + |c|);
        SpecialThenRest(v, text, i, seg, r, tail);
      }
    }
  }

  lemma {:induction false} HeadReadsBack(v: Vocab, text: string, i: nat, seg: nat)
    requires Consistent(v) && Bytes(text) && seg <= i <= |text|
    ensures Bytes(text[seg..i]) && Spelled(Spell(v, true), SegmentIds(v, text[seg..i], 0)) == text[seg..i]
  {
    hide SegmentIds, Consistent, Spelled, Spell;
    BytesOfSlice(text, seg, i);
    hide Bytes;
    SegmentReadsBack(v, text[seg..i], 0);
    assert text[seg..i][0..] == text[seg..i];
  }

  lemma {:induction false} SpecialThenRest(v: Vocab, text: string, i: nat, seg: nat, r: nat, tail: seq<int>)
    requires Consistent(v) && Bytes(text) && seg <= i <= |text| && r < |v.added| && At(v.added[r].0, text, i)
    requires Bytes(text[seg..i])
    requires Spelled(Spell(v, true), tail) == text[i + |v.added[r].0|..]
    ensures Spelled(Spell(v, true), SegmentIds(v, text[seg..i], 0) + [v.added[r].1] + tail) == text[seg..]
  {
    hide SegmentIds, Consistent, Bytes, Spelled, Spell;
    var c, head := v.added[r].0, SegmentIds(v, text[seg..i], 0);
    HeadReadsBack(v, text, i, seg);
    SpecialReadsBack(v, r);
    SpelledConcat(Spell(v, true), head + [v.added[r].1], tail);
    SpelledConcat(Spell(v, true), head, [v.added[r].1]);
    assert text[seg..] == text[seg..i] + text[i..i + |c|] + text[i + |c|..];
  }

  /** Decoding the tokens of a text, special tokens kept, gives the text: for every byte string. */
  lemma {:induction false} EncodedReadsBack(v: Vocab, text: string)
    requires Consistent(v) && Bytes(text)
    ensures Spelled(Spell(v, true), Encoded(v, text)) == text
  {
    EncodedFromReadsBack(v, text, 0, 0);
    assert text[0..] == text;
  }

  /** A special token written alone becomes one token. */
  lemma {:induction false} SpecialIsOneToken(v: Vocab, k: nat) returns (r: nat)
    requires Loaded(v) && k < |v.added| && v.added[k].0 != "" && Bytes(v.added[k].0)
    ensures r < |v.added| && v.added[r].0 == v.added[k].0 && Encoded(v, v.added[k].0) == [v.added[r].1]
  {
    hide FirstMatch, NextEnd, PieceIds;
    var c := v.added[k].0;
    assert At(c, c, 0);
    FirstIsLongest(v, c, 0, k);
    r := FirstMatch(v, c, 0, 0);
    AtFits(v.added[r].0, c, 0);
    assert c[0..0 + |c|] == c;
    assert c[0..0] == "" && SegmentIds(v, "", 0) == [];
    assert c[|c|..|c|] == "";
    assert EncodedFrom(v, c, |c|, |c|) == [];
  }

  /** Symbols, merges, ids. */
  method TokenizePiece(v: Vocab, piece: string) returns (ids: seq<int>)
    requires Bytes(piece)
    ensures ids == PieceIds(v, piece)
  {
    hide Merged, FallbackIds, Sym, Symbols;
    var table := ByteToSym();
    var syms := [];
    for i := 0 to |piece|
      invariant syms == Initial(piece)[..i]
    {
      syms := syms + [table[piece[i] as int]];
    }
    assert Initial(piece)[..|piece|] == Initial(piece);
    syms := Merge(v, syms);
    ids := [];
    for i := 0 to |syms|
      invariant ids == AllIds(v, syms[..i])
    {
      assert syms[..i + 1][..i] == syms[..i];
      if syms[i] in v.ids {
        ids := ids + [v.ids[syms[i]]];
      } else {
        var more := Fallback(v, syms[i]);
        ids := ids + more;
      }
    }
    assert syms[..|syms|] == syms;
  }

  // ------------------------------------------------------------------ the tokenizer

  const CACHE_MAX := 200000

  // One for all tokenizers of a thread: an entry does not say whose vocabulary it is from.
  class PieceCache {
    var entries: map<string, seq<int>>

    constructor ()
      ensures entries == map[]
    {
      entries := map[];
    }
  }

  // What is remembered is right for this vocabulary.
  ghost predicate Serves(v: Vocab, entries: map<string, seq<int>>)
    requires Loaded(v)
  {
    forall p :: p in entries ==> Bytes(p) && entries[p] == PieceIds(v, p)
  }

  class Tokenizer {
    const v: Vocab
    const cache: PieceCache

    ghost predicate Valid()
      reads this, cache
    {
      Loaded(v) && Serves(v, cache.entries)
    }

    constructor (vocab: Vocab, shared: PieceCache)
      requires Loaded(vocab)
      ensures v == vocab && cache == shared
    {
      v := vocab;
      cache := shared;
    }

    /** The tokens of one piece, remembered for the next time, by whichever tokenizer of the thread that may be. */
    method BpePiece(piece: string) returns (ids: seq<int>)
      requires Loaded(v) && Bytes(piece)
      modifies cache
      ensures var before := old(cache.entries);
        if piece in before then ids == before[piece] && cache.entries == before
        else ids == PieceIds(v, piece) && cache.entries == if |before| < CACHE_MAX then before[piece := ids] else before
      ensures ids == PieceIds(v, piece) <==>
                piece !in old(cache.entries) || old(cache.entries)[piece] == PieceIds(v, piece)
      ensures old(Valid()) ==> Valid() && ids == PieceIds(v, piece)
    {
      hide PieceIds, Loaded;
      if piece in cache.entries { return cache.entries[piece]; }
      ids := TokenizePiece(v, piece);
      if |cache.entries| < CACHE_MAX { cache.entries := cache.entries[piece := ids]; }
    }

    /** Tokenizes a stretch without special tokens. */
    method Flush(seg: string) returns (ids: seq<int>)
      requires Valid() && Bytes(seg)
      modifies cache
      ensures Valid() && ids == SegmentIds(v, seg, 0)
    {
      hide PieceIds, NextEnd, Pieces;
      if seg == "" { return []; }
      var pieces := Pretokenize(v.unicode, seg);
      PiecesTile(v.unicode, seg, 0);
      ids := [];
      ghost var at := 0;
      for k := 0 to |pieces|
        invariant Valid() && at <= |seg| && Pieces(v.unicode, seg, at) == pieces[k..]
        invariant ids + SegmentIds(v, seg, at) == SegmentIds(v, seg, 0)
      {
        PiecesHead(v.unicode, seg, at);
        var a, b := pieces[k].0, pieces[k].1;
        BytesOfSlice(seg, a, b);
        var more := BpePiece(seg[a..b]);
        ids := ids + more;
        at := b;
      }
      PiecesHead(v.unicode, seg, at);
    }

    method Encode(text: string) returns (out: seq<int>)
      requires Valid() && Bytes(text)
      modifies cache
      ensures Valid() && out == Encoded(v, text)
    {
      hide FirstMatch, SegmentIds, Valid, EncodedFrom, At, Bytes;
      out := [];
      var i: nat, segStart: nat := 0, 0;
      while i < |text|
        invariant Valid() && segStart <= i <= |text|
        invariant out + EncodedFrom(v, text, i, segStart) == Encoded(v, text)
        decreases |text| - i
      {
        ValidIsLoaded();
        BytesOfSlice(text, segStart, i);
        EncodedStep(v, text, i, segStart);
        var matched, mlen := MatchSpecial(v, text, i);
        if matched >= 0 {
          var ids := Flush(text[segStart..i]);
          out := out + ids;
          out := out + [matched];
          i := i + mlen;
          segStart := i;
          continue;
        }
        i := i + 1;
      }
      BytesOfSlice(text, segStart, |text|);
      EncodedEnd(v, text, segStart);
      assert text[segStart..|text|] == text[segStart..];
      var ids := Flush(text[segStart..]);
      out := out + ids;
    }

    lemma {:induction false} ValidIsLoaded()
      requires Valid()
      ensures Loaded(v) && forall i :: 0 <= i < |v.added| ==> v.added[i].1 >= 0
    {
    }
  }

  /** Two tokenizers of one thread: the second one gets the first one's tokens, right or wrong. */
  method TwoVocabularies(a: Vocab, b: Vocab, piece: string) returns (first: seq<int>, second: seq<int>)
    requires Loaded(a) && Loaded(b) && Bytes(piece)
    ensures first == second == PieceIds(a, piece)
  {
    hide PieceIds, Loaded;
    var cache := new PieceCache();
    var one := new Tokenizer(a, cache);
    var two := new Tokenizer(b, cache);
    first := one.BpePiece(piece);
    second := two.BpePiece(piece);
  }

  lemma {:induction false} PiecesHead(u: Unicode, s: string, i: nat)
    requires i <= |s|
    ensures Pieces(u, s, i) == [] <==> i == |s|
    ensures i < |s| ==> NextEnd(u, s, i) <= |s| && Pieces(u, s, i)[0] == (i, NextEnd(u, s, i))
    ensures i < |s| ==> Pieces(u, s, i)[1..] == Pieces(u, s, NextEnd(u, s, i))
  {
    hide NextEnd;
  }
}
