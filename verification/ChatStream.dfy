/** From tokens to a chat answer. */
module ChatStream {
  /*
   Tokens become bytes, bytes become whole characters, characters become deltas.  However the characters
   are split over the tokens, the answer is the one of all the bytes.
  */

  import opened Strings
  import opened Utf8
  import opened OutputParser
  import opened ByteSymbols
  import T = Tokenizer

  // The complete characters among the bytes of the tokens.
  function Text(spell: Spelling, ids: seq<int>): string {
    Complete(Spelled(spell, ids))
  }

  /** The complete characters of more tokens extend those of fewer, by those of the rest. */
  lemma {:induction false} TextGrows(spell: Spelling, ids: seq<int>, n: nat) returns (rest: string)
    requires n <= |ids|
    ensures Spelled(spell, ids) == Text(spell, ids[..n]) + rest
    ensures Text(spell, ids) == Text(spell, ids[..n]) + Complete(rest)
    ensures Whole(Complete(rest))
  {
    hide Complete, Whole, Spelled;
    var more := SpelledGrows(spell, ids, n);
    var s := Spelled(spell, ids[..n]);
    CompleteIsWhole(s);
    CompleteIsPrefix(s);
    var tail := s[|Complete(s)|..];
    assert s == Complete(s) + tail;
    rest := tail + more;
    Regroup(Complete(s), tail, more);
    CompleteAfterWhole(Complete(s), rest);
    CompleteIsWhole(rest);
  }

  class Utf8Streamer {
    var prev: nat

    constructor ()
      ensures prev == 0
    {
      prev := 0;
    }

    /** The characters that the tokens after the first `n` have completed. */
    method Push(spell: Spelling, ids: seq<int>, ghost n: nat) returns (piece: string)
      requires n <= |ids| && prev == |Text(spell, ids[..n])|
      modifies this
      ensures prev == |Text(spell, ids)|
      ensures Text(spell, ids) == Text(spell, ids[..n]) + piece && Whole(piece)
    {
      hide Complete, Whole, Spelled;
      var bytes := Spelled(spell, ids);
      ghost var tail := TextGrows(spell, ids, n);
      NothingIsComplete();
      if |bytes| <= prev {
        assert tail == "";
        return "";
      }
      var rest := bytes[prev..];
      assert rest == tail;
      var take := CompletePrefix(rest);
      piece := rest[..take];
      prev := prev + take;
    }
  }

  lemma {:induction false} NothingIsComplete()
    ensures Complete("") == "" && Whole("")
  {
  }

  lemma {:induction false} NoTextYet(spell: Spelling, ids: seq<int>, inThink: bool)
    ensures Text(spell, ids[..0]) == ""
    ensures Agree(false, Start(inThink), "", Start(inThink), "")
  {
  }

  /** A client that receives whole characters only has whole characters. */
  lemma {:induction false} ReceivedIsWhole(ds: seq<Delta>)
    requires WholeTexts(ds)
    ensures Whole(ReceiveAll(NOTHING, ds).reasoning) && Whole(ReceiveAll(NOTHING, ds).content)
    decreases |ds|
  {
    if ds != [] {
      var last := |ds| - 1;
      ReceivedIsWhole(ds[..last]);
      var o := ReceiveAll(NOTHING, ds[..last]);
      WholeConcat(o.reasoning, ds[last].reasoning);
      WholeConcat(o.content, ds[last].content);
    }
  }

  /** Once the turn has ended, text that was never fed makes no difference. */
  lemma {:induction false} StopIsFinal(st: State, b: string, start: State, fed: string, unread: string)
    requires Agree(false, st, b, start, fed) && st.done
    ensures Scan(start, fed + unread) == st
  {
    assert Continue(st, b, unread) == Continue(start, fed, unread);
  }

  // ------------------------------------------------------------------ sending

  // How reading tokens ended: not at all, with the turn, at a stop string, or because the client has left.
  datatype End = Open | Turn | StopString | ClientGone

  // The content of `shown` ends with one of the stop strings, and its last delta has added to it.
  predicate StopsHere(stops: seq<string>, shown: seq<Delta>)
    requires shown != []
  {
    shown[|shown| - 1].content != "" && EndsWithSome(stops, ReceiveAll(NOTHING, shown).content)
  }

  predicate EndsWithSome(stops: seq<string>, text: string) {
    exists i :: 0 <= i < |stops| && stops[i] != "" && At(stops[i], text, |text| - |stops[i]|)
  }

  /** A text ends with a stop string if it is something and then one of those that are not empty. */
  lemma {:induction false} StopIsSeen(stops: seq<string>, a: string, s: string)
    requires s in stops && s != ""
    ensures EndsWithSome(stops, a + s)
  {
    var i :| 0 <= i < |stops| && stops[i] == s;
    assert (a + s)[|a|..] == s;
    assert At(stops[i], a + s, |a + s| - |stops[i]|);
  }

  lemma {:induction false} StopSplits(stops: seq<string>, text: string) returns (a: string, s: string)
    requires EndsWithSome(stops, text)
    ensures s in stops && s != "" && text == a + s
  {
    var i :| 0 <= i < |stops| && stops[i] != "" && At(stops[i], text, |text| - |stops[i]|);
    a, s := text[..|text| - |stops[i]|], stops[i];
  }

  // Nothing among these deltas ends the reading; the client sees them one by one and decides whether to stay.
  ghost predicate Undisturbed(stops: seq<string>, client: seq<Delta> -> bool, shown: seq<Delta>) {
    forall n :: 0 < n <= |shown| ==> GoesOn(stops, client, shown[..n])
  }

  predicate GoesOn(stops: seq<string>, client: seq<Delta> -> bool, shown: seq<Delta>)
    requires shown != []
  {
    !shown[|shown| - 1].stop && !StopsHere(stops, shown) && client(shown)
  }

  /** How far the client got, and why no further. */
  ghost predicate SentUntil(stops: seq<string>, client: seq<Delta> -> bool, shown: seq<Delta>, lost: seq<Delta>,
          end: End) {
    match end
    case Open => lost == [] && Undisturbed(stops, client, shown)
    case Turn =>
      && lost == [] && shown != [] && shown[|shown| - 1].stop
      && Undisturbed(stops, client, shown[..|shown| - 1])
    case StopString =>
      && lost != [] && !lost[0].stop && StopsHere(stops, shown + [lost[0]]) && Undisturbed(stops, client, shown)
    case ClientGone =>
      && shown != [] && !shown[|shown| - 1].stop && !StopsHere(stops, shown) && !client(shown)
      && Undisturbed(stops, client, shown[..|shown| - 1])
  }

  lemma {:induction false} UndisturbedMore(stops: seq<string>, client: seq<Delta> -> bool, shown: seq<Delta>, d: Delta)
    requires Undisturbed(stops, client, shown) && GoesOn(stops, client, shown + [d])
    ensures Undisturbed(stops, client, shown + [d])
  {
    hide GoesOn;
    var more := shown + [d];
    forall n | 0 < n <= |more|
      ensures GoesOn(stops, client, more[..n])
    {
      if n <= |shown| { assert more[..n] == shown[..n]; } else { assert more[..n] == more; }
    }
  }

  lemma {:induction false} UndisturbedSoFar(stops: seq<string>, client: seq<Delta> -> bool, shown: seq<Delta>)
    requires Undisturbed(stops, client, shown)
    ensures !Stops(shown)
  {
    forall k | 0 <= k < |shown|
      ensures !shown[k].stop
    {
      assert GoesOn(stops, client, shown[..k + 1]);
    }
  }

  method EndsWithStop(stops: seq<string>, visible: string) returns (r: bool)
    ensures r == EndsWithSome(stops, visible)
  {
    r := false;
    for i := 0 to |stops|
      invariant !r && forall j :: 0 <= j < i ==> stops[j] == "" || !At(stops[j], visible, |visible| - |stops[j]|)
    {
      var s := stops[i];
      if s != "" && |visible| >= |s| && visible[|visible| - |s|..] == s { return true; }
    }
  }

  /** Sends deltas on one by one until something ends the reading; a delta that completes a stop string is not sent. */
  method SendDeltas(sent: seq<Delta>, ds: seq<Delta>, visible0: string, stops: seq<string>, client: seq<Delta> -> bool)
    returns (shown: seq<Delta>, lost: seq<Delta>, visible: string, end: End)
    requires Undisturbed(stops, client, sent) && visible0 == ReceiveAll(NOTHING, sent).content
    requires forall i :: 0 <= i < |ds| - 1 ==> !ds[i].stop
    ensures shown + lost == sent + ds && SentUntil(stops, client, shown, lost, end)
    ensures end.Open? ==> visible == ReceiveAll(NOTHING, shown).content
  {
    hide ReceiveAll, Undisturbed, EndsWithSome;
    shown, lost, visible, end := sent, [], visible0, Open;
    for i := 0 to |ds|
      invariant shown == sent + ds[..i] && Undisturbed(stops, client, shown)
      invariant visible == ReceiveAll(NOTHING, shown).content
    {
      var d := ds[i];
      var next := shown + [d];
      assert next == sent + ds[..i + 1] && next[..|next| - 1] == shown;
      if d.stop {
        assert i == |ds| - 1 && ds[..i + 1] == ds;
        return next, [], visible, Turn;
      }
      ReceiveMore(NOTHING, shown, d);
      visible := visible + d.content;
      if d.content != "" {
        var hit := EndsWithStop(stops, visible);
        if hit {
          lost := ds[i..];
          assert shown + lost == sent + ds;
          return shown, lost, visible, StopString;
        }
      }
      if !client(next) {
        lost := ds[i + 1..];
        assert next + lost == sent + ds;
        return next, lost, visible, ClientGone;
      }
      UndisturbedMore(stops, client, shown, d);
      shown := next;
    }
    assert ds[..|ds|] == ds && shown + [] == shown;
  }

  /** `read` tokens were read; the client got `shown` and, after `lost` had been withheld, the parser's `rest`. */
  datatype Answer = Answer(parsed: Output, read: nat, end: End, shown: seq<Delta>, lost: seq<Delta>, rest: seq<Delta>) {
    predicate HitStop() { end.Turn? || end.StopString? }
    function All(): seq<Delta> { shown + lost + rest }
  }

  /**
   What an answer is in any case: that of the tokens that were read, of which the client got all that was not
   lost.
  */
  ghost predicate AnswersRead(a: Answer, spell: Spelling, toks: seq<int>, inThink: bool, stops: seq<string>,
                              client: seq<Delta> -> bool) {
    && a.read <= |toks| && (a.end.Open? ==> a.read == |toks|)
    && a.parsed == Parsed(inThink, Text(spell, toks[..a.read])).out == ReceiveAll(NOTHING, a.All())
    && WholeTexts(a.All()) && SentUntil(stops, client, a.shown, a.lost, a.end)
  }

  /** Where a stop string ended the reading: the content that it completes, and the delta the client does not get. */
  lemma {:induction false} StoppedAt(a: Answer, spell: Spelling, toks: seq<int>, inThink: bool, stops: seq<string>,
                                     client: seq<Delta> -> bool) returns (x: string, s: string)
    requires AnswersRead(a, spell, toks, inThink, stops, client) && a.end.StopString?
    ensures s in stops && s != "" && a.lost != [] && a.lost[0].content != ""
    ensures ReceiveAll(NOTHING, a.shown).content + a.lost[0].content == x + s
  {
    hide ReceiveAll, EndsWithSome, Parsed;
    ReceiveMore(NOTHING, a.shown, a.lost[0]);
    x, s := StopSplits(stops, ReceiveAll(NOTHING, a.shown + [a.lost[0]]).content);
  }

  /** ... and before the end there was none, and the client stayed. */
  lemma {:induction false} NoneBefore(a: Answer, spell: Spelling, toks: seq<int>, inThink: bool, stops: seq<string>,
                                      client: seq<Delta> -> bool, n: nat, x: string, s: string)
    requires AnswersRead(a, spell, toks, inThink, stops, client) && n < |a.shown|
    requires a.end.Turn? || a.end.ClientGone? ==> n < |a.shown| - 1
    ensures !a.shown[n].stop && client(a.shown[..n + 1])
    ensures ReceiveAll(NOTHING, a.shown[..n + 1]).content == x + s && s in stops && s != "" ==>
              a.shown[n].content == ""
  {
    hide ReceiveAll, EndsWithSome, Parsed;
    var ds := if a.end.Turn? || a.end.ClientGone? then a.shown[..|a.shown| - 1] else a.shown;
    assert ds[..n + 1] == a.shown[..n + 1] && a.shown[..n + 1][n] == a.shown[n];
    assert GoesOn(stops, client, ds[..n + 1]);
    if s in stops && s != "" { StopIsSeen(stops, x, s); }
  }

  /** What it is if neither a stop string nor the client ends it: that of all the tokens' bytes. */
  ghost predicate Answers(a: Answer, spell: Spelling, toks: seq<int>, inThink: bool) {
    var p := Parsed(inThink, Text(spell, toks));
    a.parsed == p.out == ReceiveAll(NOTHING, a.shown + a.rest) && (a.HitStop() <==> p.done)
  }

  // These are the parser's deltas so far.
  ghost predicate Reading(all: seq<Delta>, out: Output, done: bool) {
    ReceiveAll(NOTHING, all) == out && (Stops(all) <==> done) && WholeTexts(all)
  }

  lemma {:induction false} ReadingStarts(stops: seq<string>, client: seq<Delta> -> bool)
    ensures Reading([], NOTHING, false) && SentUntil(stops, client, [], [], Open)
    ensures ReceiveAll(NOTHING, []).content == ""
  {
  }

  lemma {:induction false} MoreRead(all: seq<Delta>, ds: seq<Delta>, out0: Output, done0: bool, out: Output, done: bool)
    requires Reading(all, out0, done0) && Told(out0, done0, ds, out, done) && WholeTexts(ds)
    ensures Reading(all + ds, out, done)
    ensures forall i :: 0 <= i < |ds| - 1 ==> !ds[i].stop
  {
    hide ReceiveAll, WholeTexts, Stops;
    MoreDeltas(all, ds);
  }

  /**
   As long as nothing has ended the reading, nothing is lost; and it ends with the turn exactly when a delta
   says so.
  */
  lemma {:induction false} EndMeans(stops: seq<string>, client: seq<Delta> -> bool, shown: seq<Delta>, lost: seq<Delta>,
                                    end: End, out: Output, done: bool)
    requires SentUntil(stops, client, shown, lost, end) && Reading(shown + lost, out, done) && (end.Open? || end.Turn?)
    ensures lost == [] && shown + lost == shown && (done <==> end.Turn?)
    ensures end.Open? ==> Undisturbed(stops, client, shown)
  {
    hide ReceiveAll, WholeTexts;
    if end.Open? { UndisturbedSoFar(stops, client, shown); }
    hide Undisturbed;
  }

  lemma {:induction false} WholeAnswer(all: seq<Delta>, out: Output, done: bool)
    requires Reading(all, out, done)
    ensures Whole(out.reasoning) && Whole(out.content) && ReceiveAll(NOTHING, all) == out && WholeTexts(all)
  {
    hide ReceiveAll, WholeTexts, Whole;
    ReceivedIsWhole(all);
  }

  // The parser and the streamer have had the first `i` tokens.
  ghost predicate HasRead(parser: OutputParser, utf8: Utf8Streamer, spell: Spelling, toks: seq<int>, inThink: bool,
          i: nat,
                          shown: seq<Delta>, lost: seq<Delta>)
    reads parser, utf8
  {
    && i <= |toks| && parser.Valid() && utf8.prev == |Text(spell, toks[..i])| && Whole(parser.buf)
    && Agree(false, parser.St(), parser.buf, Start(inThink), Text(spell, toks[..i]))
    && Reading(shown + lost, parser.out, parser.done)
  }

  /** One more token: its characters go through the parser, and the deltas to the client. */
  method ReadToken(parser: OutputParser, utf8: Utf8Streamer, spell: Spelling, ids: seq<int>, ghost toks: seq<int>,
                   inThink: bool, i: nat, sent: seq<Delta>, visible0: string, stops: seq<string>,
                       client: seq<Delta> -> bool)
    returns (shown: seq<Delta>, lost: seq<Delta>, visible: string, end: End)
    requires i < |toks| && ids == toks[..i + 1] && HasRead(parser, utf8, spell, toks, inThink, i, sent, [])
    requires SentUntil(stops, client, sent, [], Open) && visible0 == ReceiveAll(NOTHING, sent).content
    modifies parser, utf8
    ensures HasRead(parser, utf8, spell, toks, inThink, i + 1, shown, lost)
    ensures SentUntil(stops, client, shown, lost, end)
    ensures end.Open? ==> visible == ReceiveAll(NOTHING, shown).content
  {
    hide Scan, Agree, Whole, ReceiveAll, Stops, Text, Partial, Emit, SentUntil, Reading, WholeTexts, Undisturbed, Told;
    shown, lost, visible, end := sent, [], visible0, Open;
    assert toks[..i + 1][..i] == toks[..i] && sent + [] == sent;
    var piece := utf8.Push(spell, ids, i);
    ghost var before := Text(spell, toks[..i]);
    if piece == "" {
      assert before + "" == before;
      return;
    }
    ghost var st, b := parser.St(), parser.buf;
    EndMeans(stops, client, sent, [], Open, st.out, st.done);
    var ds := parser.Feed(piece);
    AgreeExtend(st, b, Start(inThink), before, piece);
    AgreeTrans(false, parser.St(), parser.buf, st, b + piece, Start(inThink), before + piece);
    MoreRead(sent, ds, st.out, st.done, parser.out, parser.done);
    shown, lost, visible, end := SendDeltas(sent, ds, visible0, stops, client);
  }

  /**
   Answers from the tokens the engine would produce; reading ends early when the turn does, when the content at
   the end of a delta ends with a stop string, or when the client leaves.  Sanitizing the result replaces nothing.
  */
  method Generate(spell: Spelling, toks: seq<int>, inThink: bool, stops: seq<string>, client: seq<Delta> -> bool)
    returns (a: Answer)
    ensures AnswersRead(a, spell, toks, inThink, stops, client)
    ensures a.end.Open? || a.end.Turn? ==> Answers(a, spell, toks, inThink)
  {
    hide Scan, Agree, Whole, ReceiveAll, Stops, Text, Partial, Emit, SentUntil, Reading, WholeTexts, Undisturbed, Told,
         AnswersRead, Answers, Final;
    var parser := new OutputParser(inThink);
    var utf8 := new Utf8Streamer();
    NoTextYet(spell, toks, inThink);
    StreamStarts(Start(inThink));
    NothingIsComplete();
    var ids, visible, end := [], "", Open;
    var shown: seq<Delta>, lost: seq<Delta> := [], [];
    ReadingStarts(stops, client);
    assert shown + lost == [];
    var i := 0;
    while i < |toks| && end.Open?
      invariant i <= |toks| && ids == toks[..i] && fresh(parser) && fresh(utf8)
      invariant HasRead(parser, utf8, spell, toks, inThink, i, shown, lost)
      invariant SentUntil(stops, client, shown, lost, end)
      invariant end.Open? ==> visible == ReceiveAll(NOTHING, shown).content
    {
      EndMeans(stops, client, shown, lost, end, parser.out, parser.done);
      ids := ids + [toks[i]];
      assert ids == toks[..i + 1];
      shown, lost, visible, end := ReadToken(parser, utf8, spell, ids, toks, inThink, i, shown, visible, stops, client);
      i := i + 1;
    }
    ghost var st, b := parser.St(), parser.buf;
    var rest := parser.Finish();
    MoreRead(shown + lost, rest, st.out, st.done, parser.out, parser.done);
    WholeAnswer(shown + lost + rest, parser.out, parser.done);
    SanitizedIsWhole(parser.out.reasoning);
    SanitizedIsWhole(parser.out.content);
    var reasoning := Sanitize(parser.out.reasoning);
    var content := Sanitize(parser.out.content);
    a := Answer(Output(reasoning, content, parser.out.calls), i, end, shown, lost, rest);
    AnswerIs(a, spell, toks, inThink, stops, client, st, b);
  }

  lemma {:induction false} AnswerIs(a: Answer, spell: Spelling, toks: seq<int>, inThink: bool, stops: seq<string>,
                                    client: seq<Delta> -> bool, st: State, b: string)
    requires a.read <= |toks| && (a.end.Open? ==> a.read == |toks|)
    requires Agree(false, st, b, Start(inThink), Text(spell, toks[..a.read]))
    requires SentUntil(stops, client, a.shown, a.lost, a.end) && Reading(a.shown + a.lost, st.out, st.done)
    requires Reading(a.All(), a.parsed, st.done) && a.parsed == Final(Scan(st, b)).out
    requires Final(Scan(st, b)).done == st.done
    ensures AnswersRead(a, spell, toks, inThink, stops, client)
    ensures a.end.Open? || a.end.Turn? ==> Answers(a, spell, toks, inThink)
  {
    hide Scan, Agree, Text, SentUntil, ReceiveAll, Final;
    var read := toks[..a.read];
    assert read[..a.read] == read;
    AllRead(spell, read, a.read, st, b, inThink);
    WholeAnswer(a.All(), a.parsed, st.done);
    if a.end.Open? || a.end.Turn? {
      EndMeans(stops, client, a.shown, a.lost, a.end, st.out, st.done);
      AllRead(spell, toks, a.read, st, b, inThink);
    }
  }

  lemma {:induction false} AllRead(spell: Spelling, toks: seq<int>, n: nat, st: State, b: string, inThink: bool)
    requires n <= |toks| && (n == |toks| || st.done)
    requires Agree(false, st, b, Start(inThink), Text(spell, toks[..n]))
    ensures Scan(Start(inThink), Text(spell, toks)) == Scan(st, b)
  {
    hide Scan, Agree, Text;
    if n == |toks| {
      assert toks[..n] == toks;
      AgreeNow(st, b, Start(inThink), Text(spell, toks));
    } else {
      var tail := TextGrows(spell, toks, n);
      StopIsFinal(st, b, Start(inThink), Text(spell, toks[..n]), Complete(tail));
      ScanDone(st, b);
    }
  }

  lemma {:induction false} ScanDone(st: State, b: string)
    requires st.done
    ensures Scan(st, b) == st
  {
  }

  /** If the model writes the tokens of a text of complete characters, the client gets that text, parsed. */
  lemma {:induction false} EncodedTextIsAnswered(v: T.Vocab, text: string, inThink: bool, a: Answer)
    requires T.Consistent(v) && Bytes(text) && Whole(text)
    requires Answers(a, T.Spell(v, true), T.Encoded(v, text), inThink)
    ensures a.parsed == Parsed(inThink, text).out && (a.HitStop() <==> Parsed(inThink, text).done)
  {
    hide T.Consistent, T.Encoded, T.Spell, Whole, Scan, Bytes, Spelled;
    T.EncodedReadsBack(v, text);
    WholeIsComplete(text);
  }
}
