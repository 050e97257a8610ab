/** A Codex conversation over any number of turns: built, sanitised, trimmed, stored, reloaded and replayed. */
module Conversing {
  import opened Options
  import opened Utf8
  import opened Transcripts
  import opened Sanitizing
  import opened Trimming
  import opened Building
  import opened Replaying

  // ----- The client's own transcript -----

  /** A submitted message with its text, "" if it has none. */
  datatype ClientMessage = ClientMessage(role: string, text: string)

  function ClientTurn(m: ClientMessage): Message {
    TextMessage(if m.role == ASSISTANT then ASSISTANT else USER, m.text)
  }

  /** Messages with text, without the assistant messages before the first user message. */
  function FromClient(ms: seq<ClientMessage>): Transcript {
    if ms == [] then []
    else
      var out, m := FromClient(ms[..|ms| - 1]), ms[|ms| - 1];
      if m.text == "" || (m.role == ASSISTANT && out == []) then out else out + [ClientTurn(m)]
  }

  predicate IsPlainText(m: Message) {
    |m.content| == 1 && m.content[0].kind == TEXT && m.content[0].text != ""
  }

  /** transcriptFromClient */
  method TranscriptFromClient(ms: seq<ClientMessage>) returns (out: Transcript)
    ensures out == FromClient(ms)
    ensures out != [] ==> out[0].role == USER
    ensures forall m :: m in out ==> IsPlainText(m)
    ensures Paired(out) && RolesKept(out)
  {
    out := [];
    for i := 0 to |ms|
      invariant out == FromClient(ms[..i])
      invariant out != [] ==> out[0].role == USER
      invariant forall m :: m in out ==> IsPlainText(m)
    {
      assert ms[..i + 1][..i] == ms[..i];
      var text := ms[i].text;
      if text == "" {
        continue;
      }
      if ms[i].role == ASSISTANT {
        if |out| == 0 {
          continue;
        }
        out := out + [TextMessage(ASSISTANT, text)];
      } else {
        out := out + [TextMessage(USER, text)];
      }
    }
    assert ms[..|ms|] == ms;
    PlainTextIsPaired(out);
  }

  /** The first user message with text, or `|ms|`. */
  function FirstUser(ms: seq<ClientMessage>): (k: nat)
    ensures k <= |ms|
    ensures k < |ms| ==> ms[k].role != "assistant" && ms[k].text != ""
    ensures forall i :: 0 <= i < k ==> ms[i].role == "assistant" || ms[i].text == ""
  {
    if ms == [] then 0
    else
      var n := |ms| - 1;
      var k := FirstUser(ms[..n]);
      if k < n || (ms[n].role != "assistant" && ms[n].text != "") then k else |ms|
  }

  /** All messages with text, those of the assistant as such and all others as the user's. */
  function WithText(ms: seq<ClientMessage>): Transcript {
    if ms == [] then []
    else
      var m := ms[|ms| - 1];
      var role := if m.role == "assistant" then "assistant" else "user";
      WithText(ms[..|ms| - 1])
      + if m.text == "" then [] else [Message(role, [EMPTY_BLOCK.(kind := "text", text := m.text)])]
  }

  lemma {:induction false} WithTextHas(ms: seq<ClientMessage>, i: nat)
    requires i < |ms| && ms[i].text != ""
    ensures WithText(ms) != []
  {
    if i < |ms| - 1 {
      WithTextHas(ms[..|ms| - 1], i);
    }
  }

  lemma WithTextStep(ms: seq<ClientMessage>, k: nat)
    requires k < |ms|
    ensures var m := ms[|ms| - 1];
            WithText(ms[k..]) == WithText(ms[..|ms| - 1][k..]) + if m.text == "" then [] else [ClientTurn(m)]
  {
    assert ms[k..][..|ms| - 1 - k] == ms[..|ms| - 1][k..];
  }

  /** From the first user message with text on, every message with text is kept in order. */
  lemma {:induction false} FromClientKeeps(ms: seq<ClientMessage>)
    ensures FromClient(ms) == WithText(ms[FirstUser(ms)..])
  {
    if ms != [] {
      var n := |ms| - 1;
      var init, k := ms[..n], FirstUser(ms[..n]);
      FromClientKeeps(init);
      assert FirstUser(ms) == if k < n || (ms[n].role != "assistant" && ms[n].text != "") then k else |ms|;
      hide FirstUser;
      if k < n {
        WithTextHas(init[k..], 0);
        WithTextStep(ms, k);
      } else {
        assert init[k..] == [] && ms[|ms|..] == [];
        WithTextStep(ms, n);
      }
    }
  }

  /** What the replay of a client transcript says. */
  function ClientSpoken(ms: seq<ClientMessage>): seq<Entry> {
    if ms == [] then []
    else
      var m := ms[|ms| - 1];
      ClientSpoken(ms[..|ms| - 1]) + Spoken(if m.role == "assistant" then "assistant" else "user", m.text)
  }

  lemma {:induction false} WithTextSpoken(ms: seq<ClientMessage>)
    ensures Entries(WithText(ms)) == ClientSpoken(ms)
  {
    hide Entries;
    if ms == [] {
      NoEntries();
    } else {
      var m, init := ms[|ms| - 1], ms[..|ms| - 1];
      WithTextSpoken(init);
      if m.text != "" {
        var role := if m.role == "assistant" then "assistant" else "user";
        TextEntries(role, m.text);
        EntriesConcat(WithText(init), [TextMessage(role, m.text)]);
      } else {
        assert WithText(init) + [] == WithText(init) && ClientSpoken(init) + [] == ClientSpoken(init);
      }
    }
  }

  lemma NoEntries()
    ensures Entries([]) == []
  {
  }

  /** Replaying a client history repeats each of these texts as what its author said. */
  lemma ClientReplayIs(ms: seq<ClientMessage>)
    ensures Entries(FromClient(ms)) == ClientSpoken(ms[FirstUser(ms)..])
  {
    FromClientKeeps(ms);
    WithTextSpoken(ms[FirstUser(ms)..]);
  }

  lemma PlainTextIsPaired(ms: Transcript)
    requires forall m :: m in ms ==> IsPlainText(m)
    ensures Paired(ms) && RolesKept(ms)
  {
    forall m, b | m in ms && b in m.content ensures b.kind == TEXT {
      assert b == m.content[0];
    }
    forall i | 0 <= i < |ms| ensures PairedAt(None, ms, i) {
      assert ms[i] in ms;
    }
  }

  // ----- Roles survive storage -----

  /** Bounding cannot turn another name into a short ASCII one. */
  lemma BoundedKeepsName(name: string, target: string)
    requires |target| + 3 < MAX_IDENTIFIER_BYTES && forall i :: 0 <= i < |target| ==> target[i] as int < 0x80
    ensures Bounded(name, MAX_IDENTIFIER_BYTES) == target <==> name == target
  {
    if Bounded(name, MAX_IDENTIFIER_BYTES) == target {
      BoundedInventsNothing(name, MAX_IDENTIFIER_BYTES);
    }
    AsciiFixed(target, MAX_IDENTIFIER_BYTES);
  }

  predicate MessageRolesKept(m: Message) {
    forall b :: b in m.content ==> RoleAllows(m.role, b.kind)
  }

  lemma RolesKeptIff(ms: Transcript)
    ensures RolesKept(ms) <==> forall m :: m in ms ==> MessageRolesKept(m)
  {
  }

  predicate RoleAllows(role: string, kind: string) {
    (kind == TOOL_USE ==> role == ASSISTANT) && (kind == TOOL_RESULT ==> role != ASSISTANT)
  }

  lemma BoundNamesKeepRole(role: string, kind: string)
    requires RoleAllows(role, kind)
    ensures RoleAllows(Bounded(role, MAX_IDENTIFIER_BYTES), Bounded(kind, MAX_IDENTIFIER_BYTES))
  {
    BoundedKeepsName(role, ASSISTANT);
    BoundedKeepsName(kind, TOOL_USE);
    BoundedKeepsName(kind, TOOL_RESULT);
  }

  lemma BoundBlockKeepsRole(json: JsonCheck, role: string, b: Block)
    requires RoleAllows(role, b.kind) && BoundBlock(json, b).Some?
    ensures RoleAllows(Bounded(role, MAX_IDENTIFIER_BYTES), BoundBlock(json, b).value.kind)
  {
    hide Bounded, BoundedInput, IsOpaque;
    if BoundBlock(json, b) == Some(b) {
      BoundedKeepsName(role, ASSISTANT);
    } else {
      BoundNamesKeepRole(role, b.kind);
    }
  }

  lemma BoundMessageKeepsRoles(json: JsonCheck, m: Message)
    requires MessageRolesKept(m) && BoundMessage(json, m).Some?
    ensures MessageRolesKept(BoundMessage(json, m).value)
  {
    hide Bounded, BoundBlock;
    var r := BoundMessage(json, m).value;
    forall b | b in r.content ensures RoleAllows(r.role, b.kind) {
      var i :| 0 <= i < |r.content| && r.content[i] == b;
      assert m.content[i] in m.content;
      BoundBlockKeepsRole(json, m.role, m.content[i]);
    }
  }

  lemma {:induction false} CleanAllKeepsRoles(prev: Option<Message>, bs: seq<Option<Message>>)
    requires forall i :: 0 <= i < |bs| && bs[i].Some? ==> MessageRolesKept(bs[i].value)
    ensures forall m :: m in CleanAll(prev, bs) ==> MessageRolesKept(m)
    decreases bs
  {
    hide Strip, Cleaned, Orphan;
    if bs != [] {
      CleanAllKeepsRoles(bs[0], bs[1..]);
      if bs[0].Some? {
        CleanedKeeps(prev, bs[0].value, Head(bs[1..]));
      }
    }
  }

  lemma StoredFormKeepsRoles(json: JsonCheck, ms: Transcript)
    requires RolesKept(ms)
    ensures Paired(StoredForm(json, ms)) && RolesKept(StoredForm(json, ms))
  {
    var clean, bs := Sanitize(json, ms), BoundAll(json, ms);
    RolesKeptIff(ms);
    forall i | 0 <= i < |bs| && bs[i].Some? ensures MessageRolesKept(bs[i].value) {
      assert ms[i] in ms;
      BoundMessageKeepsRoles(json, ms[i]);
    }
    CleanAllKeepsRoles(None, bs);
    RolesKeptIff(clean);
    SanitizedIsNormal(json, ms);
    TrimKeepsNormal(json, clean, MAX_STORED_MESSAGES);
    TrimSelects(clean);
  }

  lemma TrimSelects(ms: Transcript)
    ensures forall m :: m in Trim(ms, MAX_STORED_MESSAGES) ==> m in ms
  {
    if !(|ms| <= MAX_STORED_MESSAGES && Fits(ms)) {
      TrimIsLongestSuffix(ms, MAX_STORED_MESSAGES);
    }
  }

  lemma {:induction false} PairsKeepRoles(json: JsonCheck, segments: seq<string>, rs: seq<Record>)
    requires |segments| == |rs|
    ensures RolesKept(Pairs(json, segments, rs))
  {
    if rs != [] {
      PairsKeepRoles(json, segments[..|rs| - 1], rs[..|rs| - 1]);
    }
  }

  lemma BuiltKeepsRoles(json: JsonCheck, es: seq<Event>)
    ensures RolesKept(Built(json, es))
  {
    var segments, tail := BuiltKeepsStream(json, es);
    PairsKeepRoles(json, segments, KeptCalls(es));
  }

  // ----- Any number of turns -----

  /** What one turn's provider stream was, and the question that starts the next turn. */
  datatype CodexTurn = CodexTurn(events: seq<Event>, nextQuestion: string)

  /** The history with which the turn after `turns` runs: the first one starts from the client's transcript, every
  later one from what Put stored of the turn before. */
  function CodexHistory(json: JsonCheck, client: Transcript, turns: seq<CodexTurn>): Transcript {
    if turns == [] then client
    else
      var last := turns[|turns| - 1];
      StoredForm(json, CodexHistory(json, client, turns[..|turns| - 1]) + Built(json, last.events))
      + [TextMessage(USER, last.nextQuestion)]
  }

  /** Pairing survives build, sanitise, trim, store and reload, turn after turn, whatever tools were called with
  whatever names, inputs and results: in every native replay each call has a later output and each output an
  earlier call. */
  lemma {:induction false} EveryReplayMatches(json: JsonCheck, ms: seq<ClientMessage>, turns: seq<CodexTurn>)
    ensures var history := CodexHistory(json, FromClient(ms), turns);
            forall turn :: Replays(history, turn) ==> Matched(Expand(turn.items))
  {
    HistoryPaired(json, ms, turns);
    var history := CodexHistory(json, FromClient(ms), turns);
    hide CodexHistory, Replays, Matched, Paired;
    forall turn | Replays(history, turn) ensures Matched(Expand(turn.items)) {
      NativeReplayMatches(history, turn);
    }
  }

  lemma {:induction false} FromClientIsPlain(ms: seq<ClientMessage>)
    ensures forall m :: m in FromClient(ms) ==> IsPlainText(m)
  {
    if ms != [] {
      FromClientIsPlain(ms[..|ms| - 1]);
    }
  }

  lemma {:induction false} HistoryPaired(json: JsonCheck, ms: seq<ClientMessage>, turns: seq<CodexTurn>)
    ensures Paired(CodexHistory(json, FromClient(ms), turns)) && RolesKept(CodexHistory(json, FromClient(ms), turns))
  {
    if turns == [] {
      FromClientIsPlain(ms);
      PlainTextIsPaired(FromClient(ms));
    } else {
      var last := turns[|turns| - 1];
      var before := CodexHistory(json, FromClient(ms), turns[..|turns| - 1]);
      HistoryPaired(json, ms, turns[..|turns| - 1]);
      BuiltKeepsRoles(json, last.events);
      hide Built, StoredForm, FromClient;
      StoredFormKeepsRoles(json, before + Built(json, last.events));
      QuestionFollows(StoredForm(json, before + Built(json, last.events)), last.nextQuestion);
    }
  }

  lemma QuestionFollows(ms: Transcript, question: string)
    requires Paired(ms) && RolesKept(ms)
    ensures Paired(ms + [TextMessage(USER, question)]) && RolesKept(ms + [TextMessage(USER, question)])
  {
    assert PairedAt(None, [TextMessage(USER, question)], 0);
    PairedConcat(ms, [TextMessage(USER, question)]);
  }

  // ----- Codex histories hold no signed blocks -----

  predicate MessageUnsigned(m: Message) {
    forall b :: b in m.content ==> !IsOpaque(b)
  }

  predicate Unsigned(ms: Transcript) {
    forall m :: m in ms ==> MessageUnsigned(m)
  }

  lemma BoundBlockUnsigned(json: JsonCheck, b: Block)
    requires !IsOpaque(b) && BoundBlock(json, b).Some?
    ensures !IsOpaque(BoundBlock(json, b).value)
  {
    hide Bounded;
    BoundedKeepsKind(b.kind);
  }

  lemma BoundMessageUnsigned(json: JsonCheck, m: Message)
    requires MessageUnsigned(m) && BoundMessage(json, m).Some?
    ensures MessageUnsigned(BoundMessage(json, m).value)
  {
    hide Bounded, BoundBlock, IsOpaque;
    var r := BoundMessage(json, m).value;
    forall b | b in r.content ensures !IsOpaque(b) {
      var i :| 0 <= i < |r.content| && r.content[i] == b;
      assert m.content[i] in m.content;
      BoundBlockUnsigned(json, m.content[i]);
    }
  }

  lemma {:induction false} CleanAllUnsigned(prev: Option<Message>, bs: seq<Option<Message>>)
    requires forall i :: 0 <= i < |bs| && bs[i].Some? ==> MessageUnsigned(bs[i].value)
    ensures Unsigned(CleanAll(prev, bs))
    decreases bs
  {
    hide Strip, Cleaned, Orphan, IsOpaque;
    if bs != [] {
      CleanAllUnsigned(bs[0], bs[1..]);
      if bs[0].Some? {
        CleanedKeeps(prev, bs[0].value, Head(bs[1..]));
      }
    }
  }

  lemma StoredFormUnsigned(json: JsonCheck, ms: Transcript)
    requires Unsigned(ms)
    ensures Unsigned(StoredForm(json, ms))
  {
    hide MessageUnsigned;
    var bs := BoundAll(json, ms);
    forall i | 0 <= i < |bs| && bs[i].Some? ensures MessageUnsigned(bs[i].value) {
      assert ms[i] in ms;
      BoundMessageUnsigned(json, ms[i]);
    }
    CleanAllUnsigned(None, bs);
    TrimSelects(Sanitize(json, ms));
  }

  lemma TextMessageUnsigned(role: string, text: string)
    ensures MessageUnsigned(TextMessage(role, text))
  {
  }

  lemma {:induction false} PairsUnsigned(json: JsonCheck, segments: seq<string>, rs: seq<Record>)
    requires |segments| == |rs|
    ensures Unsigned(Pairs(json, segments, rs))
  {
    if rs != [] {
      PairsUnsigned(json, segments[..|rs| - 1], rs[..|rs| - 1]);
      PairUnsigned(json, Spaces.TrimSpace(segments[|rs| - 1]), rs[|rs| - 1]);
      hide Pair, MessageUnsigned;
    }
  }

  lemma PairUnsigned(json: JsonCheck, text: string, r: Record)
    ensures Unsigned(Pair(json, text, r))
  {
  }

  lemma BuiltUnsigned(json: JsonCheck, es: seq<Event>)
    ensures Unsigned(Built(json, es))
  {
    var segments, tail := BuiltKeepsStream(json, es);
    PairsUnsigned(json, segments, KeptCalls(es));
    TextMessageUnsigned(ASSISTANT, Spaces.TrimSpace(tail));
    hide MessageUnsigned, Pairs;
  }

  lemma {:induction false} CodexHistoryUnsigned(json: JsonCheck, ms: seq<ClientMessage>, turns: seq<CodexTurn>)
    ensures Unsigned(CodexHistory(json, FromClient(ms), turns))
  {
    hide MessageUnsigned, Built, StoredForm, FromClient;
    if turns == [] {
      FromClientUnsigned(ms);
    } else {
      var last := turns[|turns| - 1];
      var before := CodexHistory(json, FromClient(ms), turns[..|turns| - 1]);
      CodexHistoryUnsigned(json, ms, turns[..|turns| - 1]);
      BuiltUnsigned(json, last.events);
      StoredFormUnsigned(json, before + Built(json, last.events));
      TextMessageUnsigned(USER, last.nextQuestion);
    }
  }

  lemma {:induction false} FromClientUnsigned(ms: seq<ClientMessage>)
    ensures Unsigned(FromClient(ms))
  {
    hide MessageUnsigned;
    if ms != [] {
      var m := ms[|ms| - 1];
      FromClientUnsigned(ms[..|ms| - 1]);
      TextMessageUnsigned(if m.role == ASSISTANT then ASSISTANT else USER, m.text);
    }
  }

  /** So replaying a Codex conversation leaves nothing out because of a signature, and repeats nothing signed. */
  lemma CodexReplaySkipsNothingSigned(json: JsonCheck, ms: seq<ClientMessage>, turns: seq<CodexTurn>)
    ensures var history := CodexHistory(json, FromClient(ms), turns);
            !SaysOpaque(history) && Entries(MessagesWithoutOpaque(history)) == Entries(history)
  {
    var history := CodexHistory(json, FromClient(ms), turns);
    CodexHistoryUnsigned(json, ms, turns);
    OpaqueSkippedIff(history);
    hide Entries, IsOpaque, Speaks, CodexHistory;
    assert forall m :: m in history ==> MessageUnsigned(m);
  }
}
