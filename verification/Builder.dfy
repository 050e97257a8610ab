/** codexTranscriptBuilder: folds a stream of text deltas and tool records into transcript messages.
Its methods run under one mutex, so an interleaving of concurrent callers is a sequence of events. */
module Building {
  import opened Options
  import opened Collections
  import opened Utf8
  import opened Spaces
  import opened Transcripts
  import opened Sanitizing

  const MAX_TOOL_RECORDS: nat := 24

  datatype Record = Record(id: string, name: string, input: string, result: string, isError: bool)

  datatype Event = Delta(value: string) | Tool(record: Record)

  datatype BuilderState = BuilderState(messages: Transcript, text: string, textWritten: nat, toolRecords: nat)

  const EMPTY_BUILDER := BuilderState([], "", 0, 0)

  // ----- The messages of one tool pair -----

  function RecordInput(json: JsonCheck, input: string): string {
    if |input| > MAX_TOOL_INPUT_BYTES || !json(input) then TRUNCATED_INPUT else input
  }

  function UseBlock(json: JsonCheck, r: Record): Block {
    EMPTY_BLOCK.(kind := TOOL_USE, id := r.id, name := r.name, input := Some(RecordInput(json, r.input)))
  }

  function ResultBlock(r: Record): Block {
    EMPTY_BLOCK.(kind := TOOL_RESULT, toolUseId := r.id, name := r.name,
                 content := Bounded(r.result, MAX_TOOL_RESULT_BYTES), isError := r.isError)
  }

  function TextPart(text: string): seq<Block> {
    if text == "" then [] else [TextBlock(text)]
  }

  function Pair(json: JsonCheck, text: string, r: Record): Transcript {
    [Message(ASSISTANT, TextPart(text) + [UseBlock(json, r)]), Message(USER, [ResultBlock(r)])]
  }

  function Trailing(text: string): Transcript {
    if text == "" then [] else [TextMessage(ASSISTANT, text)]
  }

  class CodexTranscriptBuilder {
    const json: JsonCheck
    var messages: Transcript
    var text: string
    var textWritten: nat
    var toolRecords: nat

    constructor (json: JsonCheck)
      ensures this.json == json && State() == EMPTY_BUILDER
    {
      this.json := json;
      messages, text, textWritten, toolRecords := [], "", 0, 0;
    }

    function State(): BuilderState
      reads this
    {
      BuilderState(messages, text, textWritten, toolRecords)
    }

    method Text(value: string)
      modifies this
      ensures State() == Step(json, old(State()), Delta(value))
    {
      var remaining := MAX_TEXT_BYTES - textWritten;
      if remaining > 0 {
        var bounded := BoundedString(value, remaining);
        text := text + bounded;
        textWritten := textWritten + |bounded|;
      }
    }

    method ToolRecord(r: Record)
      modifies this
      ensures State() == Step(json, old(State()), Tool(r))
    {
      hide Bounded, TrimSpace;
      var recordInput := r.input;
      if |recordInput| > MAX_TOOL_INPUT_BYTES || !json(recordInput) {
        recordInput := TRUNCATED_INPUT;
      }
      if toolRecords >= MAX_TOOL_RECORDS {
        return;
      }
      toolRecords := toolRecords + 1;
      var assistant := Message(ASSISTANT, []);
      var trimmed := TrimSpace(text);
      if trimmed != "" {
        assistant := assistant.(content := assistant.content + [TextBlock(trimmed)]);
      }
      ghost var before := text;
      text := "";
      assistant := assistant.(content := assistant.content
          + [EMPTY_BLOCK.(kind := TOOL_USE, id := r.id, name := r.name, input := Some(recordInput))]);
      var result := BoundedString(r.result, MAX_TOOL_RESULT_BYTES);
      var answer := Message(USER, [EMPTY_BLOCK.(
          kind := TOOL_RESULT, toolUseId := r.id, name := r.name, content := result, isError := r.isError)]);
      assert assistant.content == TextPart(TrimSpace(before)) + [UseBlock(json, r)];
      assert [assistant, answer] == Pair(json, TrimSpace(before), r);
      messages := messages + [assistant, answer];
    }

    method Finish() returns (out: Transcript)
      modifies this
      ensures out == Finished(old(State())) && messages == out
    {
      var trimmed := TrimSpace(text);
      if trimmed != "" {
        messages := messages + [TextMessage(ASSISTANT, trimmed)];
        text := "";
      }
      out := messages;
    }
  }

  // ----- Runs -----

  function Step(json: JsonCheck, s: BuilderState, e: Event): BuilderState {
    match e
    case Delta(value) =>
      if s.textWritten < MAX_TEXT_BYTES then
        var bounded := Bounded(value, MAX_TEXT_BYTES - s.textWritten);
        s.(text := s.text + bounded, textWritten := s.textWritten + |bounded|)
      else s
    case Tool(r) =>
      if s.toolRecords >= MAX_TOOL_RECORDS then s
      else
        BuilderState(s.messages + Pair(json, TrimSpace(s.text), r), "", s.textWritten, s.toolRecords + 1)
  }

  function Finished(s: BuilderState): Transcript {
    s.messages + Trailing(TrimSpace(s.text))
  }

  function Play(json: JsonCheck, es: seq<Event>): BuilderState {
    if es == [] then EMPTY_BUILDER else Step(json, Play(json, es[..|es| - 1]), es[|es| - 1])
  }

  /** What Finish returns after the events `es`. */
  function Built(json: JsonCheck, es: seq<Event>): Transcript {
    Finished(Play(json, es))
  }

  // ----- What a run must keep, read off the events alone -----

  function ToolCalls(es: seq<Event>): seq<Record> {
    if es == [] then []
    else ToolCalls(es[..|es| - 1]) + match es[|es| - 1] { case Tool(r) => [r] case Delta(_) => [] }
  }

  /** The tool records that are kept: the earliest 24. */
  function KeptCalls(es: seq<Event>): seq<Record> {
    if |ToolCalls(es)| <= MAX_TOOL_RECORDS then ToolCalls(es) else ToolCalls(es)[..MAX_TOOL_RECORDS]
  }

  function TextAfter(t: string, e: Event): string {
    if e.Delta? && |t| < MAX_TEXT_BYTES then t + Bounded(e.value, MAX_TEXT_BYTES - |t|) else t
  }

  /** The assistant text that is kept, whatever tool records come between. */
  function KeptText(es: seq<Event>): (t: string)
    ensures |t| <= MAX_TEXT_BYTES
  {
    if es == [] then ""
    else
      var t, e := KeptText(es[..|es| - 1]), es[|es| - 1];
      assert |TextAfter(t, e)| <= MAX_TEXT_BYTES by {
        if e.Delta? && |t| < MAX_TEXT_BYTES {
          BoundedIsValidAndShort(e.value, MAX_TEXT_BYTES - |t|);
        }
      }
      TextAfter(t, e)
  }

  function RepairedText(es: seq<Event>): string {
    if es == [] then ""
    else RepairedText(es[..|es| - 1]) + match es[|es| - 1] { case Tool(_) => "" case Delta(value) => ToValid(value) }
  }

  /** All text kept before each kept record. */
  function Marks(es: seq<Event>): seq<string> {
    if es == [] then []
    else
      var init := es[..|es| - 1];
      MarksAfter(Marks(init), KeptText(init), es[|es| - 1])
  }

  function MarksAfter(marks: seq<string>, t: string, e: Event): seq<string> {
    if e.Tool? && |marks| < MAX_TOOL_RECORDS then marks + [t] else marks
  }

  function Flatten(parts: seq<string>): string {
    if parts == [] then "" else Flatten(parts[..|parts| - 1]) + parts[|parts| - 1]
  }

  /** Tool pairs, each after the trimmed text that preceded it. */
  function Pairs(json: JsonCheck, segments: seq<string>, rs: seq<Record>): Transcript
    requires |segments| == |rs|
  {
    if rs == [] then []
    else Pairs(json, segments[..|rs| - 1], rs[..|rs| - 1]) + Pair(json, TrimSpace(segments[|rs| - 1]), rs[|rs| - 1])
  }

  /** The segments end exactly where the records came: up to each record they are all the text before it. */
  predicate CutAt(segments: seq<string>, marks: seq<string>) {
    |segments| == |marks| && forall i :: 0 <= i < |segments| ==> Flatten(segments[..i + 1]) == marks[i]
  }

  /** `s` holds the kept records in order and the kept text, cut where those records came: `segments`
  before each record, `tail` after the last. */
  predicate Holds(json: JsonCheck, s: BuilderState, calls: seq<Record>, marks: seq<string>, text: string,
                  segments: seq<string>, tail: string) {
    && |segments| == |calls| == s.toolRecords
    && CutAt(segments, marks)
    && s.textWritten == |text|
    && s.text == tail
    && Flatten(segments) + tail == text
    && s.messages == Pairs(json, segments, calls)
    && Valid(tail)
    && (forall i :: 0 <= i < |segments| ==> Valid(segments[i]))
  }

  /** There is only one way to cut a text at given marks. */
  lemma {:induction false} CutUnique(a: seq<string>, b: seq<string>, marks: seq<string>)
    requires CutAt(a, marks) && CutAt(b, marks)
    ensures a == b
  {
    if marks != [] {
      var n := |marks| - 1;
      CutInit(a, marks);
      CutInit(b, marks);
      CutUnique(a[..n], b[..n], marks[..n]);
      assert a[..n + 1] == a && b[..n + 1] == b;
      assert Flatten(a) == marks[n] == Flatten(b);
      assert a[n] == Flatten(a)[|Flatten(a[..n])|..] && b[n] == Flatten(b)[|Flatten(b[..n])|..];
      assert a == a[..n] + [a[n]] && b == b[..n] + [b[n]];
    }
  }

  lemma CutInit(a: seq<string>, marks: seq<string>)
    requires marks != [] && CutAt(a, marks)
    ensures CutAt(a[..|marks| - 1], marks[..|marks| - 1])
  {
    var init := a[..|marks| - 1];
    forall i | 0 <= i < |init| ensures Flatten(init[..i + 1]) == marks[i] {
      assert init[..i + 1] == a[..i + 1];
    }
  }

  lemma CutOneMore(segments: seq<string>, marks: seq<string>, tail: string)
    requires CutAt(segments, marks)
    ensures CutAt(segments + [tail], marks + [Flatten(segments) + tail])
  {
    var more := segments + [tail];
    assert more[..|segments|] == segments && more[..|segments| + 1] == more;
    forall i | 0 <= i < |segments| ensures Flatten(more[..i + 1]) == marks[i] {
      assert more[..i + 1] == segments[..i + 1];
    }
  }

  lemma HoldsAfterDelta(json: JsonCheck, s: BuilderState, calls: seq<Record>, marks: seq<string>, text: string,
                        segments: seq<string>, tail: string, more: string)
    requires Holds(json, s, calls, marks, text, segments, tail) && Valid(more)
    ensures Holds(json, s.(text := s.text + more, textWritten := s.textWritten + |more|), calls, marks, text + more,
                  segments, tail + more)
  {
    hide Pairs, RuneWidth, TrimSpace, CutAt;
    ValidConcat(tail, more);
    ConcatAssociative(Flatten(segments), tail, more);
  }

  lemma FlattenOneMore(segments: seq<string>, tail: string)
    ensures Flatten(segments + [tail]) + "" == Flatten(segments) + tail
  {
    assert (segments + [tail])[..|segments|] == segments;
  }

  lemma PairsOneMore(json: JsonCheck, segments: seq<string>, calls: seq<Record>, tail: string, r: Record)
    requires |segments| == |calls|
    ensures Pairs(json, segments + [tail], calls + [r]) == Pairs(json, segments, calls) + Pair(json, TrimSpace(tail), r)
  {
    hide Pair, TrimSpace;
    assert (segments + [tail])[..|segments|] == segments;
    assert (calls + [r])[..|calls|] == calls;
  }

  lemma HoldsAfterTool(json: JsonCheck, s: BuilderState, calls: seq<Record>, marks: seq<string>, text: string,
                       segments: seq<string>, tail: string, r: Record)
    requires Holds(json, s, calls, marks, text, segments, tail)
    ensures Holds(json, BuilderState(s.messages + Pair(json, TrimSpace(tail), r), "", s.textWritten, s.toolRecords + 1),
                  calls + [r], marks + [text], text, segments + [tail], "")
  {
    hide CutAt, Pair, TrimSpace, RuneWidth;
    CutOneMore(segments, marks, tail);
    FlattenOneMore(segments, tail);
    PairsOneMore(json, segments, calls, tail, r);
    hide Flatten, Pairs;
    assert Valid("");
  }

  lemma HoldsAfterStep(json: JsonCheck, s: BuilderState, calls: seq<Record>, marks: seq<string>, text: string,
                       segments: seq<string>, tail: string, e: Event) returns (segments': seq<string>, tail': string)
    requires Holds(json, s, calls, marks, text, segments, tail)
    ensures Holds(json, Step(json, s, e), CallsAfter(calls, e), MarksAfter(marks, text, e), TextAfter(text, e),
                  segments', tail')
  {
    hide Pairs, TrimSpace, Flatten, Valid, Bounded;
    segments', tail' := segments, tail;
    match e {
      case Delta(value) =>
        if s.textWritten < MAX_TEXT_BYTES {
          var more := Bounded(value, MAX_TEXT_BYTES - s.textWritten);
          BoundedIsValidAndShort(value, MAX_TEXT_BYTES - s.textWritten);
          HoldsAfterDelta(json, s, calls, marks, text, segments, tail, more);
          tail' := tail + more;
        }
      case Tool(r) =>
        if s.toolRecords < MAX_TOOL_RECORDS {
          HoldsAfterTool(json, s, calls, marks, text, segments, tail, r);
          segments', tail' := segments + [tail], "";
        }
    }
  }

  function CallsAfter(calls: seq<Record>, e: Event): seq<Record> {
    if e.Tool? && |calls| < MAX_TOOL_RECORDS then calls + [e.record] else calls
  }

  lemma KeptCallsStep(es: seq<Event>)
    requires es != []
    ensures KeptCalls(es) == CallsAfter(KeptCalls(es[..|es| - 1]), es[|es| - 1])
  {
  }

  /** The builder's output is the kept records in order, and the kept text cut exactly where those records came: each
  record closes the text that preceded it. */
  lemma {:induction false} BuiltKeepsStream(json: JsonCheck, es: seq<Event>)
    returns (segments: seq<string>, tail: string)
    ensures Holds(json, Play(json, es), KeptCalls(es), Marks(es), KeptText(es), segments, tail)
    ensures Built(json, es) == Pairs(json, segments, KeptCalls(es)) + Trailing(TrimSpace(tail))
  {
    if es == [] {
      segments, tail := [], "";
    } else {
      var init, e := es[..|es| - 1], es[|es| - 1];
      segments, tail := BuiltKeepsStream(json, init);
      segments, tail := HoldsAfterStep(json, Play(json, init), KeptCalls(init), Marks(init), KeptText(init),
                                       segments, tail, e);
      KeptCallsStep(es);
    }
  }

  // ----- What the messages hold -----

  lemma {:induction false} PairAtIndex(json: JsonCheck, segments: seq<string>, rs: seq<Record>, k: nat)
    requires |segments| == |rs| && k < |rs|
    ensures |Pairs(json, segments, rs)| == 2 * |rs|
    ensures Pairs(json, segments, rs)[2 * k..2 * k + 2] == Pair(json, TrimSpace(segments[k]), rs[k])
  {
    hide TrimSpace, UseBlock, ResultBlock, TextPart;
    var n := |rs| - 1;
    var init, last := Pairs(json, segments[..n], rs[..n]), Pair(json, TrimSpace(segments[n]), rs[n]);
    if n > 0 {
      PairAtIndex(json, segments[..n], rs[..n], if k < n then k else 0);
    }
    if k < n {
      assert (init + last)[2 * k..2 * k + 2] == init[2 * k..2 * k + 2];
    } else {
      assert (init + last)[2 * k..2 * k + 2] == last;
    }
  }

  /** The blocks before the tool use: the trimmed text, if there is any. */
  predicate IsTextBefore(bs: seq<Block>, text: string) {
    if text == "" then bs == [] else |bs| == 1 && bs[0] == EMPTY_BLOCK.(kind := "text", text := text)
  }

  /** The k-th kept record is stored in messages 2k and 2k + 1: an assistant message that ends in its tool use after the
  text before it, and a user message with its result. */
  lemma RecordIsStored(json: JsonCheck, es: seq<Event>, k: nat) returns (segments: seq<string>, tail: string)
    requires k < |KeptCalls(es)|
    ensures CutAt(segments, Marks(es)) && |segments| == |KeptCalls(es)| && Flatten(segments) + tail == KeptText(es)
    ensures 2 * k + 1 < |Built(json, es)|
    ensures var r, call, answer := KeptCalls(es)[k], Built(json, es)[2 * k], Built(json, es)[2 * k + 1];
            && call.role == "assistant" && answer.role == "user"
            && |call.content| > 0 && |answer.content| == 1
            && IsTextBefore(call.content[..|call.content| - 1], TrimSpace(segments[k]))
            && (var use := call.content[|call.content| - 1];
                && use.kind == "tool_use" && use.id == r.id && use.name == r.name
                && use.input == Some(if |r.input| <= 16384 && json(r.input) then r.input
                                     else "{\"_cantinarr_truncated\":true}"))
            && (var result := answer.content[0];
                && result.kind == "tool_result" && result.toolUseId == r.id && result.name == r.name
                && result.isError == r.isError && result.content == Bounded(r.result, 32768))
  {
    segments, tail := BuiltKeepsStream(json, es);
    var pairs, p := Pairs(json, segments, KeptCalls(es)), Pair(json, TrimSpace(segments[k]), KeptCalls(es)[k]);
    PairAtIndex(json, segments, KeptCalls(es), k);
    hide Pairs, KeptCalls, TrimSpace, Bounded, Play, Flatten, CutAt, Marks, KeptText, Trailing;
    assert pairs[2 * k] == pairs[2 * k..2 * k + 2][0] && pairs[2 * k + 1] == pairs[2 * k..2 * k + 2][1];
    assert p[0].content[..|p[0].content| - 1] == TextPart(TrimSpace(segments[k]));
  }

  /** All text of the assistant messages. */
  function AssistantText(ms: Transcript): string {
    if ms == [] then ""
    else
      var m := ms[|ms| - 1];
      AssistantText(ms[..|ms| - 1]) + if m.role == "assistant" then TextOf(m.content) else ""
  }

  function TextOf(bs: seq<Block>): string {
    if bs == [] then ""
    else TextOf(bs[..|bs| - 1]) + if bs[|bs| - 1].kind == "text" then bs[|bs| - 1].text else ""
  }

  lemma {:induction false} AssistantTextConcat(a: Transcript, b: Transcript)
    ensures AssistantText(a + b) == AssistantText(a) + AssistantText(b)
  {
    hide TextOf;
    if b == [] {
      assert a + b == a;
    } else {
      var init, m := b[..|b| - 1], b[|b| - 1];
      AssistantTextConcat(a, init);
      assert (a + b)[..|a + b| - 1] == a + init;
      ConcatAssociative(AssistantText(a), AssistantText(init), if m.role == "assistant" then TextOf(m.content) else "");
    }
  }

  lemma PairText(json: JsonCheck, text: string, r: Record)
    ensures AssistantText(Pair(json, text, r)) == text
  {
    var p := Pair(json, text, r);
    assert p[..1] == [p[0]] && p[..1][..0] == [];
    assert TextPart(text)[..0] == [] && TextOf(TextPart(text)) == text;
    assert p[0].content[..|p[0].content| - 1] == TextPart(text);
    assert AssistantText(p[..1]) == text;
  }

  lemma TrailingText(text: string)
    ensures AssistantText(Trailing(text)) == text
  {
    if text != "" {
      var t := Trailing(text);
      assert TextPart(text)[..0] == [] && TextOf(TextPart(text)) == text;
      assert t[..0] == [] && t[0].content == TextPart(text);
    }
  }

  lemma {:induction false} PairsVisible(json: JsonCheck, segments: seq<string>, rs: seq<Record>)
    requires |segments| == |rs| && forall i :: 0 <= i < |segments| ==> Valid(segments[i])
    ensures Valid(Flatten(segments)) && Valid(AssistantText(Pairs(json, segments, rs)))
    ensures Visible(AssistantText(Pairs(json, segments, rs))) == Visible(Flatten(segments))
  {
    hide Valid, Visible, TrimSpace, AssistantText, Pair;
    if rs == [] {
      NothingSaid(json);
    } else {
      var n := |rs| - 1;
      var init, text := Pairs(json, segments[..n], rs[..n]), TrimSpace(segments[n]);
      PairsVisible(json, segments[..n], rs[..n]);
      AssistantTextConcat(init, Pair(json, text, rs[n]));
      PairText(json, text, rs[n]);
      TrimSpaceValid(segments[n]);
      TrimSpaceKeepsVisible(segments[n]);
      ValidConcat(AssistantText(init), text);
      ValidConcat(Flatten(segments[..n]), segments[n]);
      VisibleConcat(AssistantText(init), text);
      VisibleConcat(Flatten(segments[..n]), segments[n]);
    }
  }

  lemma NothingSaid(json: JsonCheck)
    ensures Valid("") && AssistantText([]) == "" && Visible("") == ""
  {
  }

  /** With white space left out, the stored assistant texts in order are the kept text. */
  lemma BuiltKeepsVisible(json: JsonCheck, es: seq<Event>)
    ensures Visible(AssistantText(Built(json, es))) == Visible(KeptText(es))
  {
    hide Valid, Visible, TrimSpace, AssistantText, Trailing, Play, KeptCalls, KeptText, Marks, CutAt;
    var segments, tail := BuiltKeepsStream(json, es);
    var pairs := Pairs(json, segments, KeptCalls(es));
    PairsVisible(json, segments, KeptCalls(es));
    AssistantTextConcat(pairs, Trailing(TrimSpace(tail)));
    TrailingText(TrimSpace(tail));
    TrimSpaceValid(tail);
    TrimSpaceKeepsVisible(tail);
    VisibleConcat(AssistantText(pairs), TrimSpace(tail));
    VisibleConcat(Flatten(segments), tail);
  }

  /** Below the 64 KiB cap no text is lost, also after the last kept record. */
  lemma {:induction false} NoTextLostBelowCap(es: seq<Event>)
    requires |RepairedText(es)| <= MAX_TEXT_BYTES
    ensures KeptText(es) == RepairedText(es)
  {
    if es != [] {
      NoTextLostBelowCap(es[..|es| - 1]);
    }
  }

  // ----- Bounds and normal form of the output -----

  function TextBytes(bs: seq<Block>): nat {
    if bs == [] then 0
    else TextBytes(bs[..|bs| - 1]) + if bs[|bs| - 1].kind == TEXT then |bs[|bs| - 1].text| else 0
  }

  function StoredText(ms: Transcript): nat {
    if ms == [] then 0 else StoredText(ms[..|ms| - 1]) + TextBytes(ms[|ms| - 1].content)
  }

  lemma {:induction false} StoredTextConcat(a: Transcript, b: Transcript)
    ensures StoredText(a + b) == StoredText(a) + StoredText(b)
  {
    if b == [] {
      assert a + b == a;
    } else {
      StoredTextConcat(a, b[..|b| - 1]);
      assert (a + b)[..|a + b| - 1] == a + b[..|b| - 1];
    }
  }

  lemma PairedConcat(a: Transcript, b: Transcript)
    requires Paired(a) && Paired(b)
    ensures Paired(a + b)
  {
    var ms := a + b;
    forall i | 0 <= i < |ms| ensures PairedAt(None, ms, i) {
      if i < |a| {
        assert PairedAt(None, a, i);
      } else {
        assert PairedAt(None, b, i - |a|);
        assert At(b, i - |a| + 1) == At(ms, i + 1);
      }
    }
  }

  lemma PairIsPaired(json: JsonCheck, text: string, r: Record)
    ensures Paired(Pair(json, text, r))
    ensures StoredText(Pair(json, text, r)) == |text|
  {
    var p := Pair(json, text, r);
    assert UseBlock(json, r) in p[0].content && r.id in Called(Some(p[0]));
    assert ResultBlock(r) in p[1].content && r.id in Answered(Some(p[1]));
    assert PairedAt(None, p, 0);
    assert PairedAt(None, p, 1);
    TextPartBytes(text, UseBlock(json, r));
    TextPartBytes("", ResultBlock(r));
    assert TextPart("") + [ResultBlock(r)] == p[1].content;
    assert p[..1] == [p[0]] && p[..1][..0] == [];
    assert StoredText(p[..1]) == TextBytes(p[0].content);
  }

  lemma TextPartBytes(text: string, tool: Block)
    requires tool.kind != TEXT
    ensures TextBytes(TextPart(text)) == |text| && TextBytes(TextPart(text) + [tool]) == |text|
  {
    assert TextPart(text)[..0] == [];
    assert (TextPart(text) + [tool])[..|TextPart(text)|] == TextPart(text);
  }

  lemma TrailingIsPaired(text: string)
    ensures Paired(Trailing(text)) && StoredText(Trailing(text)) == |text|
  {
    if text != "" {
      var t := Trailing(text);
      assert PairedAt(None, t, 0);
      TextPartBytes(text, EMPTY_BLOCK.(kind := TOOL_USE));
      assert t[..0] == [] && t[0].content == TextPart(text);
    }
  }

  lemma {:induction false} PairsArePaired(json: JsonCheck, segments: seq<string>, rs: seq<Record>)
    requires |segments| == |rs|
    ensures Paired(Pairs(json, segments, rs))
    ensures |Pairs(json, segments, rs)| == 2 * |rs|
    ensures StoredText(Pairs(json, segments, rs)) <= |Flatten(segments)|
  {
    if rs != [] {
      var n := |rs| - 1;
      PairsArePaired(json, segments[..n], rs[..n]);
      var init, p := Pairs(json, segments[..n], rs[..n]), Pair(json, TrimSpace(segments[n]), rs[n]);
      PairIsPaired(json, TrimSpace(segments[n]), rs[n]);
      PairedConcat(init, p);
      TrimSpaceValid(segments[n]);
      StoredTextConcat(init, p);
    }
  }

  const MAX_BUILT_MESSAGES: nat := 49

  /** After any interleaving: paired messages, at most 24 pairs and 49 messages, at most 64 KiB of assistant text. */
  lemma BuiltIsBounded(json: JsonCheck, es: seq<Event>)
    ensures Paired(Built(json, es))
    ensures Play(json, es).toolRecords <= MAX_TOOL_RECORDS
    ensures |Built(json, es)| <= MAX_BUILT_MESSAGES
    ensures StoredText(Built(json, es)) <= MAX_TEXT_BYTES
  {
    var segments, tail := BuiltKeepsStream(json, es);
    var pairs, last := Pairs(json, segments, KeptCalls(es)), Trailing(TrimSpace(tail));
    PairsArePaired(json, segments, KeptCalls(es));
    TrailingIsPaired(TrimSpace(tail));
    PairedConcat(pairs, last);
    TrimSpaceValid(tail);
    StoredTextConcat(pairs, last);
  }

  /** Tool names and ids that bounding leaves alone.  Ids are minted as "codex_" and hexadecimal digits. */
  predicate BoundedNames(es: seq<Event>) {
    forall i :: 0 <= i < |es| && es[i].Tool? ==> BoundedRecord(es[i].record)
  }

  predicate BoundedRecord(r: Record) {
    && Bounded(r.id, MAX_IDENTIFIER_BYTES) == r.id
    && Bounded(r.name, MAX_IDENTIFIER_BYTES) == r.name
  }

  lemma {:induction false} ToolCallsBounded(es: seq<Event>)
    requires BoundedNames(es)
    ensures forall r :: r in ToolCalls(es) ==> BoundedRecord(r)
  {
    if es != [] {
      ToolCallsBounded(es[..|es| - 1]);
    }
  }

  lemma UseBlockFixed(json: JsonCheck, r: Record)
    requires BoundedRecord(r)
    ensures BoundFixed(json, UseBlock(json, r))
  {
    AsciiFixed(TOOL_USE, MAX_IDENTIFIER_BYTES);
    AsciiFixed("", MAX_IDENTIFIER_BYTES);
    AsciiFixed("", MAX_TEXT_BYTES);
    AsciiFixed("", MAX_TOOL_RESULT_BYTES);
    OrdinaryBlockFixed(json, UseBlock(json, r));
  }

  lemma ResultBlockFixed(json: JsonCheck, r: Record)
    requires BoundedRecord(r)
    ensures BoundFixed(json, ResultBlock(r))
  {
    hide Bounded;
    AsciiFixed(TOOL_RESULT, MAX_IDENTIFIER_BYTES);
    AsciiFixed("", MAX_IDENTIFIER_BYTES);
    AsciiFixed("", MAX_TEXT_BYTES);
    BoundedIdempotent(r.result, MAX_TOOL_RESULT_BYTES);
    OrdinaryBlockFixed(json, ResultBlock(r));
  }

  lemma PairIsNormal(json: JsonCheck, text: string, r: Record)
    requires Bounded(text, MAX_TEXT_BYTES) == text && BoundedRecord(r)
    ensures Normal(json, Pair(json, text, r))
  {
    hide Bounded, BoundFixed;
    PairIsPaired(json, text, r);
    TextBlockFixed(json, text);
    UseBlockFixed(json, r);
    ResultBlockFixed(json, r);
    AsciiFixed(ASSISTANT, MAX_IDENTIFIER_BYTES);
    AsciiFixed(USER, MAX_IDENTIFIER_BYTES);
  }

  lemma NormalConcat(json: JsonCheck, a: Transcript, b: Transcript)
    requires Normal(json, a) && Normal(json, b)
    ensures Normal(json, a + b)
  {
    PairedConcat(a, b);
  }

  lemma {:induction false} PairsAreNormal(json: JsonCheck, segments: seq<string>, rs: seq<Record>)
    requires |segments| == |rs| && |Flatten(segments)| <= MAX_TEXT_BYTES
    requires forall i :: 0 <= i < |rs| ==> Valid(segments[i]) && BoundedRecord(rs[i])
    ensures Normal(json, Pairs(json, segments, rs))
  {
    if rs != [] {
      var n := |rs| - 1;
      PairsAreNormal(json, segments[..n], rs[..n]);
      TrimSpaceValid(segments[n]);
      BoundedFixedIff(TrimSpace(segments[n]), MAX_TEXT_BYTES);
      PairIsNormal(json, TrimSpace(segments[n]), rs[n]);
      NormalConcat(json, Pairs(json, segments[..n], rs[..n]), Pair(json, TrimSpace(segments[n]), rs[n]));
    }
  }

  lemma TrailingIsNormal(json: JsonCheck, text: string)
    requires Bounded(text, MAX_TEXT_BYTES) == text
    ensures Normal(json, Trailing(text))
  {
    hide Bounded, BoundFixed, Paired;
    TrailingIsPaired(text);
    AsciiFixed(ASSISTANT, MAX_IDENTIFIER_BYTES);
    TextBlockFixed(json, text);
  }

  /** With bounded tool names the builder's output is already in stored normal form. */
  lemma BuiltIsNormal(json: JsonCheck, es: seq<Event>)
    requires BoundedNames(es)
    ensures Normal(json, Built(json, es))
  {
    var segments, tail := BuiltKeepsStream(json, es);
    ToolCallsBounded(es);
    assert forall r :: r in KeptCalls(es) ==> r in ToolCalls(es);
    PairsAreNormal(json, segments, KeptCalls(es));
    TrimSpaceValid(tail);
    BoundedFixedIff(TrimSpace(tail), MAX_TEXT_BYTES);
    TrailingIsNormal(json, TrimSpace(tail));
    NormalConcat(json, Pairs(json, segments, KeptCalls(es)), Trailing(TrimSpace(tail)));
  }
}
