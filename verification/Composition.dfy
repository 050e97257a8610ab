/** Storage, conversations and the interleaved protocol together: what every Get of every run returns. */
module FewBlocks {
  import opened Options
  import opened Utf8
  import opened Transcripts
  import opened Sanitizing
  import opened Trimming
  import opened Building
  import opened Conversing

  // ----- User messages of few blocks stay within the byte limit -----

  /** The blocks that are not tool results. */
  function OtherBlocks(bs: seq<Block>): nat {
    if bs == [] then 0 else OtherBlocks(bs[..|bs| - 1]) + if bs[|bs| - 1].kind == TOOL_RESULT then 0 else 1
  }

  /** User messages hold at most `n` blocks besides tool results. */
  predicate FewUserBlocks(ms: Transcript, n: nat) {
    forall m :: m in ms ==> MessageFew(m, n)
  }

  predicate MessageFew(m: Message, n: nat) {
    m.role == USER ==> OtherBlocks(m.content) <= n
  }

  lemma {:induction false} PlainOtherBlocks(bs: seq<Block>)
    requires forall b :: b in bs ==> b.kind != TOOL_RESULT
    ensures OtherBlocks(bs) == |bs|
  {
    if bs != [] {
      PlainOtherBlocks(bs[..|bs| - 1]);
    }
  }

  lemma {:induction false} StripOtherBlocks(bs: seq<Block>, partners: set<string>)
    ensures OtherBlocks(Strip(bs, false, partners)) == OtherBlocks(bs)
  {
    if bs != [] {
      var init, last := bs[..|bs| - 1], bs[|bs| - 1];
      StripOtherBlocks(init, partners);
      var kept := Strip(init, false, partners);
      assert (kept + [last])[..|kept + [last]| - 1] == kept && kept + [] == kept;
    }
  }

  lemma {:induction false} BoundOtherBlocks(json: JsonCheck, bs: seq<Block>, bounded: seq<Block>)
    requires |bounded| == |bs| && forall i :: 0 <= i < |bs| ==> BoundBlock(json, bs[i]) == Some(bounded[i])
    ensures OtherBlocks(bounded) == OtherBlocks(bs)
  {
    hide BoundBlock;
    if bs != [] {
      var n := |bs| - 1;
      BoundOtherBlocks(json, bs[..n], bounded[..n]);
      BoundedKeepsResultKind(json, bs[n]);
    }
  }

  lemma BoundMessageFew(json: JsonCheck, m: Message, n: nat)
    requires MessageFew(m, n) && BoundMessage(json, m).Some?
    ensures MessageFew(BoundMessage(json, m).value, n)
  {
    hide Bounded, BoundBlock;
    BoundedKeepsName(m.role, USER);
    BoundOtherBlocks(json, m.content, BoundMessage(json, m).value.content);
  }

  lemma CleanedFew(prev: Option<Message>, m: Message, next: Option<Message>, n: nat)
    requires MessageFew(m, n)
    ensures MessageFew(Cleaned(prev, m, next), n)
  {
    StripOtherBlocks(m.content, Called(prev));
  }

  lemma {:induction false} CleanAllFew(prev: Option<Message>, bs: seq<Option<Message>>, n: nat)
    requires forall i :: 0 <= i < |bs| && bs[i].Some? ==> MessageFew(bs[i].value, n)
    ensures FewUserBlocks(CleanAll(prev, bs), n)
    decreases bs
  {
    hide MessageFew, Cleaned;
    if bs != [] {
      CleanAllFew(bs[0], bs[1..], n);
      if bs[0].Some? {
        CleanedFew(prev, bs[0].value, Head(bs[1..]), n);
      }
    }
  }

  lemma SanitizeFew(json: JsonCheck, ms: Transcript, n: nat)
    requires FewUserBlocks(ms, n)
    ensures FewUserBlocks(Sanitize(json, ms), n)
  {
    hide MessageFew;
    var bs := BoundAll(json, ms);
    forall i | 0 <= i < |bs| && bs[i].Some? ensures MessageFew(bs[i].value, n) {
      assert ms[i] in ms;
      BoundMessageFew(json, ms[i], n);
    }
    CleanAllFew(None, bs, n);
  }

  /** What is put with at most 8 such blocks in each user message is stored within 1 MiB, and stays like that. */
  lemma FewBlocksFit(json: JsonCheck, ms: Transcript)
    requires FewUserBlocks(ms, SAFE_USER_BLOCKS)
    ensures Fits(StoredForm(json, ms))
  {
    var clean := Sanitize(json, ms);
    SanitizeFew(json, ms, SAFE_USER_BLOCKS);
    SanitizedIsNormal(json, ms);
    hide Normal, Sanitize, Fits;
    forall m | m in clean && PlainUser(m) ensures |m.content| <= SAFE_USER_BLOCKS {
      PlainOtherBlocks(m.content);
      assert MessageFew(m, SAFE_USER_BLOCKS);
    }
    StoredTranscriptFits(json, clean, MAX_STORED_MESSAGES);
  }

  lemma StoredFormFew(json: JsonCheck, ms: Transcript, n: nat)
    requires FewUserBlocks(ms, n)
    ensures FewUserBlocks(StoredForm(json, ms), n)
  {
    SanitizeFew(json, ms, n);
    TrimSelects(Sanitize(json, ms));
    hide Sanitize, Trim;
  }

  // ----- What this program itself puts -----

  lemma TextMessageFew(role: string, text: string)
    ensures MessageFew(TextMessage(role, text), 1)
  {
    PlainOtherBlocks(TextMessage(role, text).content);
  }

  lemma PairFew(json: JsonCheck, text: string, r: Record)
    ensures FewUserBlocks(Pair(json, text, r), 1)
  {
    var p := Pair(json, text, r);
    assert p[1].content[..0] == [];
    assert OtherBlocks(p[1].content) == 0;
  }

  lemma {:induction false} PairsFew(json: JsonCheck, segments: seq<string>, rs: seq<Record>)
    requires |segments| == |rs|
    ensures FewUserBlocks(Pairs(json, segments, rs), 1)
  {
    hide MessageFew, Pair;
    if rs != [] {
      PairsFew(json, segments[..|rs| - 1], rs[..|rs| - 1]);
      PairFew(json, Spaces.TrimSpace(segments[|rs| - 1]), rs[|rs| - 1]);
    }
  }

  lemma BuiltFew(json: JsonCheck, es: seq<Event>)
    ensures FewUserBlocks(Built(json, es), 1)
  {
    var segments, tail := BuiltKeepsStream(json, es);
    PairsFew(json, segments, KeptCalls(es));
    TextMessageFew(ASSISTANT, Spaces.TrimSpace(tail));
  }

  lemma {:induction false} FromClientFew(ms: seq<ClientMessage>)
    ensures FewUserBlocks(FromClient(ms), 1)
  {
    hide MessageFew;
    if ms != [] {
      var m := ms[|ms| - 1];
      FromClientFew(ms[..|ms| - 1]);
      TextMessageFew(if m.role == ASSISTANT then ASSISTANT else USER, m.text);
    }
  }

  lemma {:induction false} CodexHistoryFew(json: JsonCheck, ms: seq<ClientMessage>, turns: seq<CodexTurn>)
    ensures FewUserBlocks(CodexHistory(json, FromClient(ms), turns), 1)
  {
    hide MessageFew, Built, StoredForm, FromClient;
    if turns == [] {
      FromClientFew(ms);
    } else {
      var last, before := turns[|turns| - 1], CodexHistory(json, FromClient(ms), turns[..|turns| - 1]);
      CodexHistoryFew(json, ms, turns[..|turns| - 1]);
      BuiltFew(json, last.events);
      StoredFormFew(json, before + Built(json, last.events), 1);
      TextMessageFew(USER, last.nextQuestion);
    }
  }

  /** After any number of Codex turns, what is stored fits 1 MiB: every user message has one block. */
  lemma EveryStoredTurnFits(json: JsonCheck, ms: seq<ClientMessage>, turns: seq<CodexTurn>, es: seq<Event>)
    ensures Fits(StoredForm(json, CodexHistory(json, FromClient(ms), turns) + Built(json, es)))
  {
    var final := CodexHistory(json, FromClient(ms), turns) + Built(json, es);
    CodexHistoryFew(json, ms, turns);
    BuiltFew(json, es);
    hide CodexHistory, Built, StoredForm;
    forall m | m in final ensures MessageFew(m, SAFE_USER_BLOCKS) {
      assert MessageFew(m, 1);
    }
    FewBlocksFit(json, final);
  }
}

/** Chat turns interleaved with Codex turns as their provider. */
module Composing {
  import opened Options
  import opened Transcripts
  import opened Sanitizing
  import opened Trimming
  import opened Building
  import opened Replaying
  import opened Conversing
  import opened Storing
  import opened Admitting
  import opened Chatting
  import opened FewBlocks

  // ----- Where stored transcripts come from -----

  /** The entry that a successful turn makes. */
  predicate Makes(json: JsonCheck, w: World, step: ChatStep, id: string, c: Conversation) {
    && step.Succeed? && IsRunning(w, step.turn)
    && var turn := w.turns[step.turn];
    && Current(w.store, turn.user, turn.binding) && turn.phase.convId == id
    && c == Conversation(turn.user, turn.binding, StoredForm(json, step.final), step.stamp)
  }

  /** A step leaves each entry alone or makes it. */
  lemma NextEntries(json: JsonCheck, w: World, step: ChatStep, id: string)
    requires id in Next(json, w, step).store.conversations
    ensures var c := Next(json, w, step).store.conversations[id];
            || (id in w.store.conversations && c == w.store.conversations[id])
            || (Enabled(w, step) && Makes(json, w, step, id, c))
  {
    hide Current, Lookup, Acquired, Released, Decision, StoredForm, Sanitize;
    if Enabled(w, step) {
      match step {
        case Succeed(t, final, now, _, kept) =>
          EvictedIsSubmap(w.store.conversations, kept, now);
          StoredFormStable(json, final);
        case _ =>
      }
    }
  }

  /** What a running turn resumed is an entry of its own user under its own binding. */
  predicate ReadFits(turn: Turn, c: Conversation) {
    c.userId == turn.user && c.binding == turn.binding
  }

  /** A step starts a running phase only with the entry under its id that fits the turn, or with none. */
  lemma NextPhase(json: JsonCheck, w: World, step: ChatStep, t: nat)
    requires t < |Next(json, w, step).turns| && Next(json, w, step).turns[t].phase.Running?
    ensures var turn := Next(json, w, step).turns[t];
            || (t < |w.turns| && turn.phase == w.turns[t].phase
                && turn.user == w.turns[t].user && turn.binding == w.turns[t].binding)
            || turn.phase.read.None?
            || (turn.phase.convId in w.store.conversations && ReadFits(turn, turn.phase.read.value)
                && turn.phase.read.value == w.store.conversations[turn.phase.convId])
  {
    hide Current, Acquired, Released, StoredForm, Sanitize, Evicted;
  }

  /** Entry `c` under `id` was made by an enabled step of the run, and so was, before that and for the same user under
  the same binding, whatever that turn had resumed. */
  ghost predicate Descends(json: JsonCheck, steps: seq<ChatStep>, id: string, c: Conversation)
    decreases |steps|, 1
  {
    exists i :: 0 <= i < |steps| && MadeAt(json, steps, i, id, c)
  }

  ghost predicate MadeAt(json: JsonCheck, steps: seq<ChatStep>, i: nat, id: string, c: Conversation)
    requires i < |steps|
    decreases |steps|, 0
  {
    var w, step := Run(json, steps[..i]), steps[i];
    && Enabled(w, step) && Makes(json, w, step, id, c)
    && ReadDescends(json, steps[..i], w.turns[step.turn])
  }

  ghost predicate ReadDescends(json: JsonCheck, steps: seq<ChatStep>, turn: Turn)
    decreases |steps|, 2
  {
    turn.phase.Running? && turn.phase.read.Some? ==>
      ReadFits(turn, turn.phase.read.value) && Descends(json, steps, turn.phase.convId, turn.phase.read.value)
  }

  lemma DescendsInLongerRun(json: JsonCheck, steps: seq<ChatStep>, n: nat, id: string, c: Conversation)
    requires n <= |steps| && Descends(json, steps[..n], id, c)
    ensures Descends(json, steps, id, c)
  {
    hide Run, Enabled, Makes, ReadDescends;
    var i :| 0 <= i < n && MadeAt(json, steps[..n], i, id, c);
    assert steps[..n][..i] == steps[..i];
    assert MadeAt(json, steps, i, id, c);
  }

  ghost predicate DescentInv(json: JsonCheck, steps: seq<ChatStep>, w: World) {
    && (forall id :: id in w.store.conversations ==> Descends(json, steps, id, w.store.conversations[id]))
    && (forall t :: 0 <= t < |w.turns| ==> ReadDescends(json, steps, w.turns[t]))
  }

  /** In every run, each entry descends from successful turns of its own user under its own binding only. */
  lemma {:induction false} EntriesDescend(json: JsonCheck, steps: seq<ChatStep>)
    ensures DescentInv(json, steps, Run(json, steps))
  {
    if steps != [] {
      EntriesDescend(json, steps[..|steps| - 1]);
      NextKeepsDescent(json, steps);
    }
  }

  lemma NextKeepsDescent(json: JsonCheck, steps: seq<ChatStep>)
    requires steps != [] && DescentInv(json, steps[..|steps| - 1], Run(json, steps[..|steps| - 1]))
    ensures DescentInv(json, steps, Run(json, steps))
  {
    hide Next, Run, Descends, ReadDescends;
    var w, w' := Run(json, steps[..|steps| - 1]), Run(json, steps);
    RunStep(json, steps);
    forall id | id in w'.store.conversations ensures Descends(json, steps, id, w'.store.conversations[id]) {
      EntryDescends(json, steps, w, id);
    }
    forall t | 0 <= t < |w'.turns| ensures ReadDescends(json, steps, w'.turns[t]) {
      TurnDescends(json, steps, w, t);
    }
  }

  lemma RunStep(json: JsonCheck, steps: seq<ChatStep>)
    requires steps != []
    ensures Run(json, steps) == Next(json, Run(json, steps[..|steps| - 1]), steps[|steps| - 1])
  {
    hide Next;
  }

  lemma EntryDescends(json: JsonCheck, steps: seq<ChatStep>, w: World, id: string)
    requires steps != [] && w == Run(json, steps[..|steps| - 1]) && DescentInv(json, steps[..|steps| - 1], w)
    requires id in Next(json, w, steps[|steps| - 1]).store.conversations
    ensures Descends(json, steps, id, Next(json, w, steps[|steps| - 1]).store.conversations[id])
  {
    hide Next, Run, Enabled, Makes, Descends, ReadDescends;
    var n := |steps| - 1;
    var c := Next(json, w, steps[n]).store.conversations[id];
    NextEntries(json, w, steps[n], id);
    if id in w.store.conversations && c == w.store.conversations[id] {
      DescendsInLongerRun(json, steps, n, id, c);
    } else {
      MadeLast(json, steps, id, c);
    }
  }

  lemma TurnDescends(json: JsonCheck, steps: seq<ChatStep>, w: World, t: nat)
    requires steps != [] && DescentInv(json, steps[..|steps| - 1], w)
    requires t < |Next(json, w, steps[|steps| - 1]).turns|
    ensures ReadDescends(json, steps, Next(json, w, steps[|steps| - 1]).turns[t])
  {
    hide Next, Run, Enabled, Makes, Descends;
    var n := |steps| - 1;
    var turn := Next(json, w, steps[n]).turns[t];
    if turn.phase.Running? && turn.phase.read.Some? {
      NextPhase(json, w, steps[n], t);
      assert t < |w.turns| ==> ReadDescends(json, steps[..n], w.turns[t]);
      DescendsInLongerRun(json, steps, n, turn.phase.convId, turn.phase.read.value);
    }
  }

  lemma MadeLast(json: JsonCheck, steps: seq<ChatStep>, id: string, c: Conversation)
    requires steps != []
    requires var init, n := steps[..|steps| - 1], |steps| - 1;
             && DescentInv(json, init, Run(json, init))
             && Enabled(Run(json, init), steps[n])
             && Makes(json, Run(json, init), steps[n], id, c)
    ensures Descends(json, steps, id, c)
  {
    hide Run, Enabled, Descends, ReadDescends;
    var w, step := Run(json, steps[..|steps| - 1]), steps[|steps| - 1];
    assert IsRunning(w, step.turn) && ReadDescends(json, steps[..|steps| - 1], w.turns[step.turn]);
    LastMade(json, steps, id, c);
  }

  lemma LastMade(json: JsonCheck, steps: seq<ChatStep>, id: string, c: Conversation)
    requires steps != []
    requires var w, step := Run(json, steps[..|steps| - 1]), steps[|steps| - 1];
             && Enabled(w, step) && Makes(json, w, step, id, c)
             && ReadDescends(json, steps[..|steps| - 1], w.turns[step.turn])
    ensures Descends(json, steps, id, c)
  {
    hide Run, Enabled, Makes, ReadDescends;
    assert MadeAt(json, steps, |steps| - 1, id, c);
  }

  /** A Get under the binding of a user and an account, whenever that was taken, returns only what a turn begun by that
  user with that same account put: same source, provider, model and key. */
  lemma GetIsOfSameAccount(json: JsonCheck, steps: seq<ChatStep>, id: string, s: StoreState, user: int, r: Resolved,
                           reader: int, now: int)
    requires Lookup(Run(json, steps).store, id, reader, BindingFor(s, user, r), now).Some?
    ensures var c := Run(json, steps).store.conversations[id];
            && Descends(json, steps, id, c)
            && exists i :: 0 <= i < |steps| && MadeAt(json, steps, i, id, c) && MakerIs(json, steps, i, user, r)
  {
    hide Run, Enabled, ReadDescends, StoredForm;
    EntriesDescend(json, steps);
    var c := Run(json, steps).store.conversations[id];
    assert Descends(json, steps, id, c);
    var i :| 0 <= i < |steps| && MadeAt(json, steps, i, id, c);
    MakerHasAccount(json, steps, i, id, c, s, user, r);
  }

  ghost predicate MakerIs(json: JsonCheck, steps: seq<ChatStep>, i: nat, user: int, r: Resolved)
    requires i < |steps|
  {
    && steps[i].Succeed? && IsRunning(Run(json, steps[..i]), steps[i].turn)
    && Run(json, steps[..i]).turns[steps[i].turn].user == user
    && Run(json, steps[..i]).turns[steps[i].turn].resolved == r
  }

  /** The same holds for everything it descends from: whoever made an entry with that binding used that account. */
  lemma MakerHasAccount(json: JsonCheck, steps: seq<ChatStep>, i: nat, id: string, c: Conversation, s: StoreState,
                        user: int, r: Resolved)
    requires i < |steps| && MadeAt(json, steps, i, id, c) && c.binding == BindingFor(s, user, r)
    ensures MakerIs(json, steps, i, user, r)
  {
    hide Run, Enabled, ReadDescends, StoredForm, Current;
    RunKeepsBound(json, steps[..i]);
    var turn := Run(json, steps[..i]).turns[steps[i].turn];
    assert BoundTo(turn) && turn.binding == c.binding;
    hide Makes;
    BindingIdentifies(StoreState(map[], turn.binding.globalGeneration, map[turn.user := turn.binding.userGeneration]),
                      turn.user, turn.resolved, s, user, r);
  }

  /** Every transcript that is put under this binding has at most 8 blocks besides tool results in each user message. */
  ghost predicate FewFinals(json: JsonCheck, steps: seq<ChatStep>, b: Binding) {
    forall i :: 0 <= i < |steps| ==> FewFinal(Run(json, steps[..i]), steps[i], b)
  }

  ghost predicate FewFinal(w: World, step: ChatStep, b: Binding) {
    step.Succeed? && Enabled(w, step) && w.turns[step.turn].binding == b ==> FewUserBlocks(step.final, SAFE_USER_BLOCKS)
  }

  /** Then no Get of the run under this binding returns more than 1 MiB. */
  lemma EveryGetFits(json: JsonCheck, steps: seq<ChatStep>, id: string, reader: int, b: Binding, now: int)
    requires FewFinals(json, steps, b)
    ensures var got := Lookup(Run(json, steps).store, id, reader, b, now); got.Some? ==> Fits(got.value)
  {
    hide Run, FewUserBlocks, StoredForm, Fits, ReadDescends, Enabled;
    EntriesDescend(json, steps);
    var w := Run(json, steps);
    if Lookup(w.store, id, reader, b, now).Some? {
      assert Descends(json, steps, id, w.store.conversations[id]);
      var i :| 0 <= i < |steps| && MadeAt(json, steps, i, id, w.store.conversations[id]);
      assert FewFinal(Run(json, steps[..i]), steps[i], b);
      FewBlocksFit(json, steps[i].final);
    }
  }

  // ----- Codex turns in an interleaved run -----

  /** The history a turn runs with: what it resumed and its question, or the client's transcript. */
  function TurnHistory(read: Option<Conversation>, client: seq<ClientMessage>, question: string): Transcript {
    if read.Some? then read.value.messages + [TextMessage(USER, question)] else FromClient(client)
  }

  /** `final` is what a Codex turn makes of its history. */
  ghost predicate CodexFinal(json: JsonCheck, read: Option<Conversation>, final: Transcript) {
    exists client, question, es :: final == TurnHistory(read, client, question) + Built(json, es)
  }

  /** Every turn that succeeds for provider `codex` is a Codex turn; those of other providers put what they will. */
  ghost predicate CodexRun(json: JsonCheck, codex: string, steps: seq<ChatStep>) {
    forall i :: 0 <= i < |steps| ==> CodexStep(json, codex, Run(json, steps[..i]), steps[i])
  }

  ghost predicate CodexStep(json: JsonCheck, codex: string, w: World, step: ChatStep) {
    step.Succeed? && Enabled(w, step) && w.turns[step.turn].binding.provider == codex ==>
      CodexFinal(json, w.turns[step.turn].phase.read, step.final)
  }

  /** What a conversation of Codex turns, one after the other, stores in the end. */
  ghost predicate FromCodex(json: JsonCheck, ms: Transcript) {
    exists client, turns, es ::
      ms == StoredForm(json, CodexHistory(json, FromClient(client), turns) + Built(json, es))
  }

  /** One more Codex turn on a conversation of Codex turns is again one. */
  lemma FinalFromCodex(json: JsonCheck, phase: Phase, final: Transcript)
    requires phase.Running? && CodexFinal(json, phase.read, final)
    requires phase.read.Some? ==> FromCodex(json, phase.read.value.messages)
    ensures FromCodex(json, StoredForm(json, final))
  {
    hide StoredForm, Built, FromClient;
    var client, question, es :| final == TurnHistory(phase.read, client, question) + Built(json, es);
    if phase.read.Some? {
      var client', turns, es' :| phase.read.value.messages
                                 == StoredForm(json, CodexHistory(json, FromClient(client'), turns) + Built(json, es'));
      var more := turns + [CodexTurn(es', question)];
      assert more[..|more| - 1] == turns;
      assert final == CodexHistory(json, FromClient(client'), more) + Built(json, es);
    } else {
      assert final == CodexHistory(json, FromClient(client), []) + Built(json, es);
    }
  }

  lemma CodexPrefix(json: JsonCheck, codex: string, steps: seq<ChatStep>, n: nat)
    requires n <= |steps| && CodexRun(json, codex, steps)
    ensures CodexRun(json, codex, steps[..n])
  {
    hide CodexStep, Run;
    forall i | 0 <= i < n ensures CodexStep(json, codex, Run(json, steps[..n][..i]), steps[..n][i]) {
      assert steps[..n][..i] == steps[..i];
      assert CodexStep(json, codex, Run(json, steps[..i]), steps[i]);
    }
  }

  /** Bindings are compared on Get, so an entry of this provider has no ancestor of another one. */
  lemma {:induction false} CodexDescent(json: JsonCheck, codex: string, steps: seq<ChatStep>, id: string,
                                        c: Conversation)
    requires CodexRun(json, codex, steps) && Descends(json, steps, id, c) && c.binding.provider == codex
    ensures FromCodex(json, c.messages)
    decreases |steps|
  {
    hide Run, Enabled, FromCodex, CodexFinal, StoredForm;
    var i :| 0 <= i < |steps| && MadeAt(json, steps, i, id, c);
    assert CodexStep(json, codex, Run(json, steps[..i]), steps[i]);
    var turn := Run(json, steps[..i]).turns[steps[i].turn];
    assert Makes(json, Run(json, steps[..i]), steps[i], id, c) && ReadDescends(json, steps[..i], turn);
    if turn.phase.read.Some? {
      CodexPrefix(json, codex, steps, i);
      CodexDescent(json, codex, steps[..i], id, turn.phase.read.value);
    }
    FinalFromCodex(json, turn.phase, steps[i].final);
  }

  /** However turns of any number of users and providers interleave with each other and with account changes: what a Get
  under a Codex binding returns is what one conversation of Codex turns alone would have stored; it fits 1 MiB, and the
  native replay of the next question has matched calls and outputs and repeats nothing signed. */
  lemma EveryGetReplaysMatched(json: JsonCheck, codex: string, steps: seq<ChatStep>, id: string, reader: int,
                               b: Binding, now: int, next: string)
    requires CodexRun(json, codex, steps)
    ensures var got := Lookup(Run(json, steps).store, id, reader, b, now);
            got.Some? && b.provider == codex ==>
              && FromCodex(json, got.value) && Fits(got.value) && !SaysOpaque(got.value)
              && forall turn :: Replays(got.value + [TextMessage(USER, next)], turn) ==> Matched(Expand(turn.items))
  {
    hide Run, Descends, ReadDescends, CodexRun, FromCodex, Fits, Replays, Matched, Expand, SaysOpaque;
    EntriesDescend(json, steps);
    var w := Run(json, steps);
    if Lookup(w.store, id, reader, b, now).Some? && b.provider == codex {
      CodexDescent(json, codex, steps, id, w.store.conversations[id]);
      FromCodexReplays(json, w.store.conversations[id].messages, next);
    }
  }

  lemma FromCodexReplays(json: JsonCheck, ms: Transcript, next: string)
    requires FromCodex(json, ms)
    ensures Fits(ms) && !SaysOpaque(ms)
    ensures forall turn :: Replays(ms + [TextMessage(USER, next)], turn) ==> Matched(Expand(turn.items))
  {
    hide StoredForm, Built, Fits, FromClient, Matched, Replays, Expand, SaysOpaque;
    var client, turns, es :| ms == StoredForm(json, CodexHistory(json, FromClient(client), turns) + Built(json, es));
    EveryStoredTurnFits(json, client, turns, es);
    var more := turns + [CodexTurn(es, next)];
    assert more[..|more| - 1] == turns;
    assert ms + [TextMessage(USER, next)] == CodexHistory(json, FromClient(client), more);
    EveryReplayMatches(json, client, more);
    CodexReplaySkipsNothingSigned(json, client, more);
    NothingOpaqueBefore(ms, TextMessage(USER, next));
  }

  lemma NothingOpaqueBefore(ms: Transcript, m: Message)
    requires !SaysOpaque(ms + [m])
    ensures !SaysOpaque(ms)
  {
    hide IsOpaque, Speaks;
    assert forall x :: x in ms ==> x in ms + [m];
  }

  /** `step` ends a Codex turn whose conversation is still stored and whose binding is still current. */
  ghost predicate Continues(json: JsonCheck, w: World, step: ChatStep, question: string, es: seq<Event>) {
    && step.Succeed? && Enabled(w, step)
    && var turn := w.turns[step.turn];
    && Current(w.store, turn.user, turn.binding) && turn.phase.convId in w.store.conversations
    && step.final == TurnHistory(turn.phase.read, [], question) + Built(json, es)
  }

  /** No update is lost between two turns: when a resumed Codex turn succeeds and its conversation is still stored, the
  new entry continues exactly the transcript that is stored at that moment. */
  lemma TurnContinuesStored(json: JsonCheck, steps: seq<ChatStep>, step: ChatStep, question: string, es: seq<Event>)
    ensures var w := Run(json, steps);
            Continues(json, w, step, question, es) ==>
              var id, after := w.turns[step.turn].phase.convId, Next(json, w, step).store.conversations;
              && id in after
              && after[id].messages
                 == StoredForm(json, w.store.conversations[id].messages + [TextMessage(USER, question)]
                                     + Built(json, es))
  {
    hide Run, StoredForm, Built, Sanitize, Evicted;
    if Continues(json, Run(json, steps), step, question, es) {
      NoLostUpdate(json, steps, step.turn, step);
      StoredFormStable(json, step.final);
    }
  }

  /** A conversation grows: when a turn has resumed what an earlier one stored, its success stores that transcript with
  the new question and the new answer. */
  lemma ConversationGrows(json: JsonCheck, w: World, step: ChatStep, earlier: Transcript, question: string,
                          es: seq<Event>)
    requires step.Succeed? && Enabled(w, step)
    requires var turn := w.turns[step.turn];
             && Current(w.store, turn.user, turn.binding)
             && turn.phase.read.Some? && turn.phase.read.value.messages == earlier
             && step.final == earlier + [TextMessage(USER, question)] + Built(json, es)
    ensures var turn, after := w.turns[step.turn], Next(json, w, step).store.conversations;
            && turn.phase.convId in after
            && after[turn.phase.convId] ==
               Conversation(turn.user, turn.binding,
                            StoredForm(json, earlier + [TextMessage(USER, question)] + Built(json, es)), step.stamp)
  {
    hide Current, StoredForm, Built, Evicted;
    StoredEntryIs(json, w, step);
  }
}
