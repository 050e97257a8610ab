/** A Codex turn from the builder through sanitising, trimming and storage to the next native replay. */
module Surviving {
  import opened Options
  import opened Collections
  import opened Utf8
  import opened Spaces
  import opened Transcripts
  import opened Sanitizing
  import opened Trimming
  import opened Building
  import opened Replaying

  /** The messages one Codex turn adds: the question, as it is stored, and what the builder returns. */
  function StoredTurn(json: JsonCheck, question: string, es: seq<Event>): Transcript {
    [TextMessage(USER, Bounded(question, MAX_TEXT_BYTES))] + Built(json, es)
  }

  /** What Chat hands to Put after a Codex turn on top of `history`. */
  function FinalHistory(json: JsonCheck, history: Transcript, question: string, es: seq<Event>): Transcript {
    history + [TextMessage(USER, question)] + Built(json, es)
  }

  predicate EndsWith(ms: Transcript, turn: Transcript) {
    |turn| <= |ms| && ms[|ms| - |turn|..] == turn
  }

  lemma QuestionSanitized(json: JsonCheck, question: string)
    ensures Sanitize(json, [TextMessage(USER, question)]) == [TextMessage(USER, Bounded(question, MAX_TEXT_BYTES))]
    ensures PlainUser(TextMessage(USER, question))
  {
    var m, m' := TextMessage(USER, question), TextMessage(USER, Bounded(question, MAX_TEXT_BYTES));
    AsciiFixed(TEXT, MAX_IDENTIFIER_BYTES);
    AsciiFixed(USER, MAX_IDENTIFIER_BYTES);
    AsciiFixed("", MAX_IDENTIFIER_BYTES);
    AsciiFixed("", MAX_TOOL_RESULT_BYTES);
    BoundedIdempotent(question, MAX_TEXT_BYTES);
    TextBlockFixed(json, Bounded(question, MAX_TEXT_BYTES));
    TextBlockBound(json, question);
    assert BoundMessage(json, m) == Some(m') by {
      assert BoundMessage(json, m).value.content == m'.content;
    }
    assert BoundAll(json, [m]) == [Some(m')];
    NothingAnsweredIff(m');
    StripKeepsPartnered(m'.content, false, Called(None));
    assert Cleaned(None, m', None) == m';
    assert CleanAll(Some(m'), [Some(m')][1..]) == [];
  }

  lemma TextBlockBound(json: JsonCheck, text: string)
    ensures BoundBlock(json, TextBlock(text)) == Some(TextBlock(Bounded(text, MAX_TEXT_BYTES)))
  {
    AsciiFixed(TEXT, MAX_IDENTIFIER_BYTES);
    AsciiFixed("", MAX_IDENTIFIER_BYTES);
    AsciiFixed("", MAX_TOOL_RESULT_BYTES);
    hide Bounded;
  }

  // ----- The builder's messages carry no place to cut -----

  lemma {:induction false} PairsHaveNoPlainUser(json: JsonCheck, segments: seq<string>, rs: seq<Record>)
    requires |segments| == |rs|
    ensures forall m :: m in Pairs(json, segments, rs) ==> !PlainUser(m)
    ensures rs != [] ==> !ContainsToolResult(Pairs(json, segments, rs)[0])
    ensures |Pairs(json, segments, rs)| == 2 * |rs|
  {
    hide PlainUser, Pair, ContainsToolResult;
    if rs != [] {
      var n := |rs| - 1;
      PairsHaveNoPlainUser(json, segments[..n], rs[..n]);
      PairHasNoPlainUser(json, TrimSpace(segments[n]), rs[n]);
    }
  }

  lemma PairHasNoPlainUser(json: JsonCheck, text: string, r: Record)
    ensures forall m :: m in Pair(json, text, r) ==> !PlainUser(m)
    ensures |Pair(json, text, r)| == 2 && !ContainsToolResult(Pair(json, text, r)[0])
  {
    var p := Pair(json, text, r);
    assert ResultBlock(r) in p[1].content;
    assert p[0].role != USER;
  }

  lemma BuiltHasNoPlainUser(json: JsonCheck, es: seq<Event>)
    ensures forall m :: m in Built(json, es) ==> !PlainUser(m)
    ensures Built(json, es) != [] ==> !ContainsToolResult(Built(json, es)[0])
  {
    var segments, tail := BuiltKeepsStream(json, es);
    PairsHaveNoPlainUser(json, segments, KeptCalls(es));
    assert forall m :: m in Trailing(TrimSpace(tail)) ==> m.role != USER && !ContainsToolResult(m);
  }

  /** Sanitising treats history and turn separately and changes nothing of the turn but an overlong question. */
  lemma TurnSanitized(json: JsonCheck, history: Transcript, question: string, es: seq<Event>)
    requires BoundedNames(es)
    ensures Sanitize(json, FinalHistory(json, history, question, es))
            == Sanitize(json, history) + StoredTurn(json, question, es)
  {
    var q, b := [TextMessage(USER, question)], Built(json, es);
    QuestionSanitized(json, question);
    BuiltHasNoPlainUser(json, es);
    BuiltIsNormal(json, es);
    SanitizeFixedIff(json, b);
    SanitizeSplits(json, q, b);
    SanitizeSplits(json, history, q + b);
    ConcatAssociative(history, q, b);
  }

  // ----- Trimming around the turn -----

  /** Trimming a transcript that ends in a turn with one plain user message at its head. */
  lemma TrimKeepsTurnIff(ms: Transcript, turn: Transcript)
    requires 1 < |turn| <= MAX_STORED_MESSAGES && PlainUser(turn[0])
    requires forall i :: 1 <= i < |turn| ==> !PlainUser(turn[i])
    ensures EndsWith(Trim(ms + turn, MAX_STORED_MESSAGES), turn) <==> Fits(turn)
    ensures !Fits(turn) ==> Trim(ms + turn, MAX_STORED_MESSAGES) == [turn[0]]
  {
    var all, n := ms + turn, |ms|;
    assert all[n..] == turn;
    forall i | n < i < |all| ensures !PlainUser(all[i]) {
      assert all[i] == turn[i - n];
    }
    forall i | 0 <= i <= n ensures Fits(all[i..]) ==> Fits(turn) {
      SuffixSize(all, i, n);
    }
    assert all[0..] == all;
    if Fits(turn) {
      assert GoodStart(all, n);
      if !(|all| <= MAX_STORED_MESSAGES && Fits(all)) {
        var k := FirstStart(all, WindowStart(all, MAX_STORED_MESSAGES));
        assert k <= n;
        assert all[k..][n - k..] == turn;
      }
    } else {
      TrimFallsBack(all, n);
    }
  }

  lemma TrimFallsBack(all: Transcript, n: nat)
    requires n < |all| && PlainUser(all[n]) && forall i :: n < i < |all| ==> !PlainUser(all[i])
    requires forall i :: 0 <= i <= n ==> !Fits(all[i..])
    ensures Trim(all, MAX_STORED_MESSAGES) == [all[n]]
  {
    assert all[0..] == all;
    TrimIsLongestSuffix(all, MAX_STORED_MESSAGES);
    assert forall i :: 0 <= i < |all| ==> !GoodStart(all, i);
  }

  /** A Codex turn survives storage exactly when question, tool pairs and answer together fit 1 MiB; when they do
  not, only the question is kept. */
  lemma CodexTurnSurvivesIff(json: JsonCheck, history: Transcript, question: string, es: seq<Event>)
    requires BoundedNames(es) && Built(json, es) != []
    ensures var stored := StoredForm(json, FinalHistory(json, history, question, es));
            var turn := StoredTurn(json, question, es);
            && (EndsWith(stored, turn) <==> Fits(turn))
            && (!Fits(turn) ==> stored == [turn[0]])
  {
    var turn := StoredTurn(json, question, es);
    TurnSanitized(json, history, question, es);
    BuiltHasNoPlainUser(json, es);
    BuiltIsBounded(json, es);
    QuestionSanitized(json, Bounded(question, MAX_TEXT_BYTES));
    TrimKeepsTurnIff(Sanitize(json, history), turn);
  }

  const LARGEST_CALL: nat := MAX_TOOL_INPUT_BYTES + MAX_TOOL_RESULT_BYTES

  /** The largest input and result that are stored whole. */
  predicate Largest(json: JsonCheck, r: Record) {
    |RecordInput(json, r.input)| + |Bounded(r.result, MAX_TOOL_RESULT_BYTES)| == LARGEST_CALL
  }

  lemma PairSize(json: JsonCheck, text: string, r: Record)
    requires Largest(json, r)
    ensures Size(Pair(json, text, r)) >= LARGEST_CALL
  {
    var p := Pair(json, text, r);
    assert p[..1] == [p[0]] && p[..1][..0] == [];
    assert p[0].content[..|p[0].content| - 1] == TextPart(text) && p[1].content[..0] == [];
    assert Size(p[..1]) == MessageSize(p[0]);
  }

  lemma {:induction false} PairsSize(json: JsonCheck, segments: seq<string>, rs: seq<Record>)
    requires |segments| == |rs| && forall r :: r in rs ==> Largest(json, r)
    ensures Size(Pairs(json, segments, rs)) >= |rs| * LARGEST_CALL
  {
    hide Largest, Pair, TrimSpace, Size;
    if rs != [] {
      var n := |rs| - 1;
      PairsSize(json, segments[..n], rs[..n]);
      PairSize(json, TrimSpace(segments[n]), rs[n]);
      SizeConcat(Pairs(json, segments[..n], rs[..n]), Pair(json, TrimSpace(segments[n]), rs[n]));
    }
  }

  /** Whatever a turn with 24 such calls says between them, it is lost: only its question is stored. */
  lemma LargestTurnIsLost(json: JsonCheck, history: Transcript, question: string, es: seq<Event>)
    requires BoundedNames(es)
    requires |KeptCalls(es)| == MAX_TOOL_RECORDS && forall r :: r in KeptCalls(es) ==> Largest(json, r)
    ensures Built(json, es) != [] && !Fits(StoredTurn(json, question, es))
    ensures StoredForm(json, FinalHistory(json, history, question, es))
            == [TextMessage(USER, Bounded(question, MAX_TEXT_BYTES))]
  {
    hide Largest, BoundedNames, KeptCalls, StoredForm, FinalHistory, Bounded, Pairs, Size, KeptText;
    var segments, tail := BuiltKeepsStream(json, es);
    PairsSize(json, segments, KeptCalls(es));
    SizeConcat(Pairs(json, segments, KeptCalls(es)), Trailing(TrimSpace(tail)));
    EmptySize();
    SizeConcat([TextMessage(USER, Bounded(question, MAX_TEXT_BYTES))], Built(json, es));
    CodexTurnSurvivesIff(json, history, question, es);
  }

  lemma EmptySize()
    ensures Size([]) == 0
  {
  }

  function ToolEvents(rs: seq<Record>): seq<Event> {
    if rs == [] then [] else ToolEvents(rs[..|rs| - 1]) + [Tool(rs[|rs| - 1])]
  }

  lemma {:induction false} ToolEventsCall(rs: seq<Record>)
    ensures ToolCalls(ToolEvents(rs)) == rs
    ensures forall e :: e in ToolEvents(rs) ==> e.Tool? && e.record in rs
  {
    if rs != [] {
      var n := |rs| - 1;
      ToolEventsCall(rs[..n]);
      assert ToolEvents(rs)[..|ToolEvents(rs)| - 1] == ToolEvents(rs[..n]);
    }
  }

  /** Such turns exist for all 24 minted ids, given one valid JSON input of 16 KiB. */
  lemma LargestTurnExists(json: JsonCheck, ids: seq<string>, input: string) returns (es: seq<Event>)
    requires |ids| == MAX_TOOL_RECORDS && forall id :: id in ids ==> Bounded(id, MAX_IDENTIFIER_BYTES) == id
    requires |input| == MAX_TOOL_INPUT_BYTES && json(input)
    ensures BoundedNames(es) && forall i :: 0 <= i < |es| ==> es[i].Tool?
    ensures |KeptCalls(es)| == |ids| && forall i :: 0 <= i < |ids| ==> KeptCalls(es)[i].id == ids[i]
    ensures forall r :: r in KeptCalls(es) ==> Largest(json, r)
  {
    hide Bounded, Largest;
    var rs: seq<Record> := [];
    for i := 0 to |ids|
      invariant |rs| == i && forall k :: 0 <= k < i ==> rs[k].id == ids[k]
      invariant forall r :: r in rs ==> Largest(json, r) && BoundedRecord(r)
    {
      assert ids[i] in ids;
      var r := LargestRecord(json, ids[i], input);
      rs := rs + [r];
    }
    es := ToolEvents(rs);
    ToolEventsCall(rs);
    assert forall i :: 0 <= i < |es| ==> es[i] in es;
  }

  lemma LargestRecord(json: JsonCheck, id: string, input: string) returns (r: Record)
    requires |input| == MAX_TOOL_INPUT_BYTES && json(input) && Bounded(id, MAX_IDENTIFIER_BYTES) == id
    ensures Largest(json, r) && BoundedRecord(r) && r.id == id
  {
    hide Bounded;
    var result := seq(MAX_TOOL_RESULT_BYTES, _ => 'a');
    AsciiFixed(result, MAX_TOOL_RESULT_BYTES);
    AsciiFixed("search", MAX_IDENTIFIER_BYTES);
    r := Record(id, "search", input, result, false);
  }

  // ----- Replaying the stored turn -----

  function SpokenEntries(text: string): seq<Entry> {
    Spoken("assistant", text)
  }

  /** A tool record as a call directly followed by its output. */
  function CallEntries(json: JsonCheck, r: Record): seq<Entry> {
    [Call(r.name, RecordInput(json, r.input), r.id), Output(r.id, Bounded(r.result, MAX_TOOL_RESULT_BYTES))]
  }

  /** The kept records, each with the trimmed text before it. */
  function StreamEntries(json: JsonCheck, segments: seq<string>, rs: seq<Record>): seq<Entry>
    requires |segments| == |rs|
  {
    if rs == [] then []
    else
      var n := |rs| - 1;
      StreamEntries(json, segments[..n], rs[..n])
      + (SpokenEntries(TrimSpace(segments[n]))
         + CallEntries(json, rs[n]))
  }

  lemma SpokenMessage(text: string, more: seq<Block>, said: seq<Entry>)
    requires |more| <= 1
    requires more == [] ==> said == []
    requires more != [] ==> said == BlockEntries(Message(ASSISTANT, TextPart(text) + more), more[0])
    ensures MessageEntries(Message(ASSISTANT, TextPart(text) + more)) == SpokenEntries(text) + said
  {
    var m := Message(ASSISTANT, TextPart(text) + more);
    var bs := TextPart(text);
    assert BlocksEntries(m, []) == [];
    assert BlocksEntries(m, bs) == SpokenEntries(text) by {
      if text != "" {
        assert bs[..0] == [];
      }
    }
    if more == [] {
      assert bs + more == bs;
    } else {
      assert (bs + more)[..|bs|] == bs;
    }
  }

  lemma PairEntries(json: JsonCheck, text: string, r: Record)
    requires r.id != ""
    ensures Entries(Pair(json, text, r)) ==
            SpokenEntries(text) + CallEntries(json, r)
  {
    var p := Pair(json, text, r);
    var call := Call(r.name, RecordInput(json, r.input), r.id);
    var output := Output(r.id, Bounded(r.result, MAX_TOOL_RESULT_BYTES));
    hide Bounded;
    assert RecordInput(json, r.input) != "";
    SpokenMessage(text, [UseBlock(json, r)], [call]);
    OnlyEntry(p[1], ResultBlock(r));
    assert p[..1] == [p[0]] && p[..1][..0] == [];
    assert Entries(p[..1]) == MessageEntries(p[0]);
    ConcatAssociative(SpokenEntries(text), [call], [output]);
    assert [call] + [output] == [call, output];
  }

  lemma {:induction false} PairsEntries(json: JsonCheck, segments: seq<string>, rs: seq<Record>)
    requires |segments| == |rs| && forall r :: r in rs ==> r.id != ""
    ensures Entries(Pairs(json, segments, rs)) == StreamEntries(json, segments, rs)
  {
    if rs != [] {
      var n := |rs| - 1;
      PairsEntries(json, segments[..n], rs[..n]);
      PairEntries(json, TrimSpace(segments[n]), rs[n]);
      EntriesConcat(Pairs(json, segments[..n], rs[..n]), Pair(json, TrimSpace(segments[n]), rs[n]));
    }
  }

  /** What is stored is a suffix of the sanitised history and the whole turn; and what the native turn of the next
  question replays is what they say: the question, every kept tool record as a call followed by its output, in order
  and each after the text that came before it, and the final answer. */
  lemma StoredTurnIsReplayed(json: JsonCheck, history: Transcript, question: string, es: seq<Event>,
                             stored: Transcript, next: string)
    returns (i: nat, segments: seq<string>, tail: string)
    requires BoundedNames(es) && Built(json, es) != [] && Fits(StoredTurn(json, question, es))
    requires forall i :: 0 <= i < |es| && es[i].Tool? ==> es[i].record.id != ""
    requires stored == StoredForm(json, FinalHistory(json, history, question, es))
    ensures i <= |Sanitize(json, history)|
    ensures stored == Sanitize(json, history)[i..] + StoredTurn(json, question, es)
    ensures |segments| == |KeptCalls(es)| && CutAt(segments, Marks(es)) && Flatten(segments) + tail == KeptText(es)
    ensures forall turn :: Replays(stored + [TextMessage(USER, next)], turn) ==>
              Expand(turn.items) ==
              Entries(Sanitize(json, history)[i..])
              + (Spoken("user", Bounded(question, MAX_TEXT_BYTES))
                 + (StreamEntries(json, segments, KeptCalls(es)) + SpokenEntries(TrimSpace(tail))))
  {
    var turn, built := StoredTurn(json, question, es), Built(json, es);
    i := StoredIsSuffix(json, history, question, es);
    segments, tail := BuiltEntries(json, es);
    hide StoredForm, FinalHistory, Built, Entries, StreamEntries, SpokenEntries, CutAt, Marks, Sanitize;
    hide Fits, BoundedNames, KeptCalls, KeptText, Flatten, Bounded, TrimSpace, TextMessage;
    EntriesConcat(Sanitize(json, history)[i..], turn);
    EntriesConcat([TextMessage(USER, Bounded(question, MAX_TEXT_BYTES))], built);
    TextEntries(USER, Bounded(question, MAX_TEXT_BYTES));
    forall turn | Replays(stored + [TextMessage(USER, next)], turn) ensures Expand(turn.items) == Entries(stored) {
      NextReplays(stored, next, turn);
    }
    hide Replays, Expand;
  }

  lemma NextReplays(stored: Transcript, next: string, turn: NativeTurn)
    requires Replays(stored + [TextMessage(USER, next)], turn)
    ensures Expand(turn.items) == Entries(stored)
  {
    var history := stored + [TextMessage(USER, next)];
    assert history[..|history| - 1] == stored;
  }

  /** A surviving turn stands after a suffix of the sanitised history. */
  lemma StoredIsSuffix(json: JsonCheck, history: Transcript, question: string, es: seq<Event>) returns (i: nat)
    requires BoundedNames(es) && Built(json, es) != [] && Fits(StoredTurn(json, question, es))
    ensures i <= |Sanitize(json, history)|
    ensures StoredForm(json, FinalHistory(json, history, question, es))
            == Sanitize(json, history)[i..] + StoredTurn(json, question, es)
  {
    var turn, clean := StoredTurn(json, question, es), Sanitize(json, history);
    CodexTurnSurvivesIff(json, history, question, es);
    TurnSanitized(json, history, question, es);
    assert |turn| > 1;
    hide StoredTurn, FinalHistory, Sanitize, BoundedNames, Built, Fits;
    i := TrimmedSuffix(clean, turn);
  }

  lemma TrimmedSuffix(clean: Transcript, turn: Transcript) returns (i: nat)
    requires |turn| > 1 && EndsWith(Trim(clean + turn, MAX_STORED_MESSAGES), turn)
    ensures i <= |clean| && Trim(clean + turn, MAX_STORED_MESSAGES) == clean[i..] + turn
  {
    var all := clean + turn;
    if |all| <= MAX_STORED_MESSAGES && Fits(all) {
      i := 0;
    } else {
      TrimIsLongestSuffix(all, MAX_STORED_MESSAGES);
      hide Trim, GoodStart, NewestPlainUser;
      i :| 0 <= i < |all| && Trim(all, MAX_STORED_MESSAGES) == all[i..];
    }
    SuffixOfConcat(clean, turn, i);
    assert all[0..] == all;
  }

  lemma SuffixOfConcat(a: Transcript, b: Transcript, i: nat)
    requires i <= |a|
    ensures (a + b)[i..] == a[i..] + b
  {
  }

  lemma BuiltEntries(json: JsonCheck, es: seq<Event>) returns (segments: seq<string>, tail: string)
    requires forall i :: 0 <= i < |es| && es[i].Tool? ==> es[i].record.id != ""
    ensures |segments| == |KeptCalls(es)| && CutAt(segments, Marks(es)) && Flatten(segments) + tail == KeptText(es)
    ensures Entries(Built(json, es)) == StreamEntries(json, segments, KeptCalls(es)) + SpokenEntries(TrimSpace(tail))
  {
    segments, tail := BuiltKeepsStream(json, es);
    IdsNotEmpty(es);
    PairsEntries(json, segments, KeptCalls(es));
    EntriesConcat(Pairs(json, segments, KeptCalls(es)), Trailing(TrimSpace(tail)));
    TrailingEntries(TrimSpace(tail));
  }

  lemma TrailingEntries(text: string)
    ensures Entries(Trailing(text)) == SpokenEntries(text)
  {
    if text != "" {
      SpokenMessage(text, [], []);
      assert Trailing(text)[..0] == [] && Trailing(text)[0].content == TextPart(text) + [];
    }
  }

  lemma {:induction false} IdsNotEmpty(es: seq<Event>)
    requires forall i :: 0 <= i < |es| && es[i].Tool? ==> es[i].record.id != ""
    ensures forall r :: r in ToolCalls(es) ==> r.id != ""
    ensures forall r :: r in KeptCalls(es) ==> r.id != ""
  {
    if es != [] {
      IdsNotEmpty(es[..|es| - 1]);
    }
  }
}
