/** sanitizeTranscript: every block is bounded, and tool calls and results that lost their partner in
the neighbouring message are stripped. */
module Sanitizing {
  import opened Options
  import opened Collections
  import opened Utf8
  import opened Transcripts

  // ----- Neighbouring calls and results -----

  predicate ContainsToolResult(m: Message) {
    exists b :: b in m.content && b.kind == TOOL_RESULT
  }

  /** The ids answered by the tool results of the next message. */
  function Answered(next: Option<Message>): set<string> {
    if next.None? then {} else set b | b in next.value.content && b.kind == TOOL_RESULT :: b.toolUseId
  }

  /** The ids called by the tool uses of the preceding message, if that is an assistant message. */
  function Called(prev: Option<Message>): set<string> {
    if prev.None? || prev.value.role != ASSISTANT then {}
    else set b | b in prev.value.content && b.kind == TOOL_USE :: b.id
  }

  lemma NothingAnsweredIff(m: Message)
    ensures Answered(Some(m)) == {} <==> !ContainsToolResult(m)
  {
    if b :| b in m.content && b.kind == TOOL_RESULT {
      assert b.toolUseId in Answered(Some(m));
    }
  }

  predicate Orphan(b: Block, assistant: bool, partners: set<string>) {
    if assistant then b.kind == TOOL_USE && b.id !in partners
    else b.kind == TOOL_RESULT && b.toolUseId !in partners
  }

  function Strip(bs: seq<Block>, assistant: bool, partners: set<string>): seq<Block> {
    if bs == [] then []
    else Strip(bs[..|bs| - 1], assistant, partners)
         + if Orphan(bs[|bs| - 1], assistant, partners) then [] else [bs[|bs| - 1]]
  }

  lemma {:induction false} StripKeepsPartnered(bs: seq<Block>, assistant: bool, partners: set<string>)
    ensures forall b :: b in Strip(bs, assistant, partners) <==> b in bs && !Orphan(b, assistant, partners)
    ensures (forall b :: b in bs ==> !Orphan(b, assistant, partners)) ==> Strip(bs, assistant, partners) == bs
  {
    hide Orphan;
    if bs != [] {
      var init, last := bs[..|bs| - 1], bs[|bs| - 1];
      StripKeepsPartnered(init, assistant, partners);
      assert bs == init + [last];
      assert forall b :: b in bs <==> b in init || b == last;
    }
  }

  /** What one bounded message becomes between its bounded neighbours. */
  function Cleaned(prev: Option<Message>, m: Message, next: Option<Message>): Message {
    if m.role == ASSISTANT then m.(content := Strip(m.content, true, Answered(next)))
    else m.(content := Strip(m.content, false, Called(prev)))
  }

  lemma CleanedKeeps(prev: Option<Message>, m: Message, next: Option<Message>)
    ensures Cleaned(prev, m, next).role == m.role
    ensures forall b :: b in Cleaned(prev, m, next).content <==>
              && b in m.content
              && !Orphan(b, m.role == ASSISTANT, if m.role == ASSISTANT then Answered(next) else Called(prev))
  {
    StripKeepsPartnered(m.content, m.role == ASSISTANT, if m.role == ASSISTANT then Answered(next) else Called(prev));
  }

  // ----- The whole transcript -----

  function BoundAll(json: JsonCheck, ms: Transcript): (bs: seq<Option<Message>>)
    ensures |bs| == |ms| && forall i :: 0 <= i < |ms| ==> bs[i] == BoundMessage(json, ms[i])
  {
    seq(|ms|, i requires 0 <= i < |ms| => BoundMessage(json, ms[i]))
  }

  function Head(bs: seq<Option<Message>>): Option<Message> {
    if bs == [] then None else bs[0]
  }

  /** The messages kept for `bs[0]`: none if it was rejected or nothing of it is left. */
  function Emitted(prev: Option<Message>, bs: seq<Option<Message>>): Transcript
    requires bs != []
  {
    if bs[0].None? then []
    else
      var m := Cleaned(prev, bs[0].value, Head(bs[1..]));
      if m.content == [] then [] else [m]
  }

  function CleanAll(prev: Option<Message>, bs: seq<Option<Message>>): Transcript
    decreases bs
  {
    if bs == [] then [] else Emitted(prev, bs) + CleanAll(bs[0], bs[1..])
  }

  function Sanitize(json: JsonCheck, ms: Transcript): Transcript {
    CleanAll(None, BoundAll(json, ms))
  }

  method FollowingToolResults(bounded: seq<Option<Message>>, i: nat) returns (answered: set<string>)
    requires i < |bounded|
    ensures answered == Answered(Head(bounded[i + 1..]))
  {
    answered := {};
    if i + 1 < |bounded| && bounded[i + 1].Some? {
      var content := bounded[i + 1].value.content;
      for j := 0 to |content|
        invariant answered == set b | b in content[..j] && b.kind == TOOL_RESULT :: b.toolUseId
      {
        if content[j].kind == TOOL_RESULT {
          answered := answered + {content[j].toolUseId};
        }
        assert content[..j + 1] == content[..j] + [content[j]];
      }
      assert content[..|content|] == content;
    }
  }

  method PrecedingToolUses(bounded: seq<Option<Message>>, i: nat) returns (called: set<string>)
    requires i < |bounded|
    ensures called == Called(Before(bounded, i))
  {
    called := {};
    if i == 0 || bounded[i - 1].None? || bounded[i - 1].value.role != ASSISTANT {
      return;
    }
    var content := bounded[i - 1].value.content;
    for j := 0 to |content|
      invariant called == set b | b in content[..j] && b.kind == TOOL_USE :: b.id
    {
      if content[j].kind == TOOL_USE {
        called := called + {content[j].id};
      }
      assert content[..j + 1] == content[..j] + [content[j]];
    }
    assert content[..|content|] == content;
  }

  method StripOrphanToolUse(m: Message, answered: set<string>) returns (r: Message)
    ensures r == m.(content := Strip(m.content, true, answered))
  {
    var hasOrphan, scanned := false, 0;
    while scanned < |m.content| && !hasOrphan
      invariant 0 <= scanned <= |m.content|
      invariant !hasOrphan ==> forall j :: 0 <= j < scanned ==> !Orphan(m.content[j], true, answered)
    {
      hasOrphan := m.content[scanned].kind == TOOL_USE && m.content[scanned].id !in answered;
      scanned := scanned + 1;
    }
    if !hasOrphan {
      StripKeepsPartnered(m.content, true, answered);
      return m;
    }
    var kept: seq<Block> := [];
    for i := 0 to |m.content|
      invariant kept == Strip(m.content[..i], true, answered)
    {
      if !(m.content[i].kind == TOOL_USE && m.content[i].id !in answered) {
        kept := kept + [m.content[i]];
      }
      assert m.content[..i + 1][..i] == m.content[..i];
    }
    assert m.content[..|m.content|] == m.content;
    r := m.(content := kept);
  }

  method StripOrphanToolResults(m: Message, called: set<string>) returns (r: Message)
    ensures r == m.(content := Strip(m.content, false, called))
  {
    var kept: seq<Block> := [];
    for i := 0 to |m.content|
      invariant kept == Strip(m.content[..i], false, called)
    {
      if !(m.content[i].kind == TOOL_RESULT && m.content[i].toolUseId !in called) {
        kept := kept + [m.content[i]];
      }
      assert m.content[..i + 1][..i] == m.content[..i];
    }
    assert m.content[..|m.content|] == m.content;
    r := m.(content := kept);
  }

  function Before(bounded: seq<Option<Message>>, i: nat): Option<Message>
    requires i <= |bounded|
  {
    if i == 0 then None else bounded[i - 1]
  }

  /** One round of the second loop of sanitizeTranscript. */
  method KeptMessage(bounded: seq<Option<Message>>, i: nat) returns (kept: Transcript)
    requires i < |bounded|
    ensures kept == Emitted(Before(bounded, i), bounded[i..])
  {
    assert bounded[i..][1..] == bounded[i + 1..];
    if bounded[i].None? {
      return [];
    }
    var m := bounded[i].value;
    if m.role == ASSISTANT {
      var answered := FollowingToolResults(bounded, i);
      m := StripOrphanToolUse(m, answered);
    } else if ContainsToolResult(m) {
      var called := PrecedingToolUses(bounded, i);
      m := StripOrphanToolResults(m, called);
    } else {
      StripKeepsPartnered(m.content, false, Called(Before(bounded, i)));
    }
    kept := if |m.content| == 0 then [] else [m];
  }

  method SanitizeTranscript(json: JsonCheck, ms: Transcript) returns (out: Transcript)
    ensures out == Sanitize(json, ms)
    ensures Normal(json, out)
  {
    hide BoundMessage, Emitted, Normal;
    var bounded: seq<Option<Message>> := [];
    for i := 0 to |ms|
      invariant |bounded| == i
      invariant forall j :: 0 <= j < i ==> bounded[j] == BoundMessage(json, ms[j])
    {
      var b := BoundTranscriptMessage(json, ms[i]);
      bounded := bounded + [b];
    }
    assert bounded == BoundAll(json, ms);
    out := [];
    for i := 0 to |bounded|
      invariant out + CleanAll(Before(bounded, i), bounded[i..]) == CleanAll(None, bounded)
    {
      var kept := KeptMessage(bounded, i);
      assert bounded[i..][1..] == bounded[i + 1..];
      out := out + kept;
    }
    SanitizedIsNormal(json, ms);
  }

  // ----- Pairing -----

  predicate UsesAnswered(m: Message, next: Option<Message>) {
    m.role == ASSISTANT ==> forall b :: b in m.content && b.kind == TOOL_USE ==> b.id in Answered(next)
  }

  predicate ResultsCalled(prev: Option<Message>, m: Message) {
    m.role != ASSISTANT ==> forall b :: b in m.content && b.kind == TOOL_RESULT ==> b.toolUseId in Called(prev)
  }

  function At(ms: Transcript, i: int): Option<Message> {
    if 0 <= i < |ms| then Some(ms[i]) else None
  }

  predicate PairedAt(prev: Option<Message>, ms: Transcript, i: nat)
    requires i < |ms|
  {
    UsesAnswered(ms[i], At(ms, i + 1)) && ResultsCalled(if i == 0 then prev else Some(ms[i - 1]), ms[i])
  }

  /** Each tool_use of an assistant message is answered in the very next message, and each tool_result of
  any other message names a tool_use of the assistant message right before it. */
  predicate Paired(ms: Transcript) {
    forall i :: 0 <= i < |ms| ==> PairedAt(None, ms, i)
  }

  /** The same, read from the front, for a transcript that follows message `prev`. */
  predicate PairedAfter(prev: Option<Message>, ms: Transcript)
    decreases ms
  {
    ms != [] ==> PairedAt(prev, ms, 0) && PairedAfter(Some(ms[0]), ms[1..])
  }

  lemma {:induction false} PairedAfterIff(prev: Option<Message>, ms: Transcript)
    ensures PairedAfter(prev, ms) <==> forall i :: 0 <= i < |ms| ==> PairedAt(prev, ms, i)
    decreases ms
  {
    if ms != [] {
      PairedAfterIff(Some(ms[0]), ms[1..]);
      assert forall i :: 0 < i < |ms| ==> PairedAt(prev, ms, i) == PairedAt(Some(ms[0]), ms[1..], i - 1);
      assert forall i :: 0 <= i < |ms[1..]| ==> PairedAt(Some(ms[0]), ms[1..], i) == PairedAt(prev, ms, i + 1);
    }
  }

  lemma PairedIff(ms: Transcript)
    ensures Paired(ms) <==> PairedAfter(None, ms)
  {
    PairedAfterIff(None, ms);
  }

  /** A partnered result makes its message survive and keeps answering. */
  lemma EmittedAnswers(prev: Option<Message>, bs: seq<Option<Message>>, id: string)
    requires bs != [] && id in Answered(bs[0])
    requires bs[0].value.role == ASSISTANT || id in Called(prev)
    ensures |Emitted(prev, bs)| == 1 && id in Answered(Some(Emitted(prev, bs)[0]))
  {
    CleanedKeeps(prev, bs[0].value, Head(bs[1..]));
    var b :| b in bs[0].value.content && b.kind == TOOL_RESULT && b.toolUseId == id;
    assert b in Cleaned(prev, bs[0].value, Head(bs[1..])).content;
  }

  /** A partnered call makes its message survive and stays called. */
  lemma EmittedCalls(prev: Option<Message>, bs: seq<Option<Message>>, id: string)
    requires bs != [] && id in Called(bs[0]) && id in Answered(Head(bs[1..]))
    ensures |Emitted(prev, bs)| == 1 && id in Called(Some(Emitted(prev, bs)[0]))
  {
    CleanedKeeps(prev, bs[0].value, Head(bs[1..]));
    var b :| b in bs[0].value.content && b.kind == TOOL_USE && b.id == id;
    assert b in Cleaned(prev, bs[0].value, Head(bs[1..])).content;
  }

  /** Pairing holds although dropped messages change adjacency.  `kept` is the last message kept before `bs`,
  `prev` the last bounded message before it; `kept` lost none of the calls that `bs` answers. */
  lemma {:induction false} CleanAllPaired(prev: Option<Message>, kept: Option<Message>, bs: seq<Option<Message>>)
    requires forall id :: id in Called(prev) && id in Answered(Head(bs)) ==> id in Called(kept)
    ensures PairedAfter(kept, CleanAll(prev, bs))
    decreases bs
  {
    if bs != [] {
      var e, rest := Emitted(prev, bs), CleanAll(bs[0], bs[1..]);
      forall id | id in Called(bs[0]) && id in Answered(Head(bs[1..]))
        ensures |e| == 1 && id in Called(Some(e[0])) && rest != [] && id in Answered(Some(rest[0]))
      {
        EmittedCalls(prev, bs, id);
        EmittedAnswers(bs[0], bs[1..], id);
        assert rest == Emitted(bs[0], bs[1..]) + CleanAll(bs[1], bs[1..][1..]);
      }
      CleanAllPaired(bs[0], if e == [] then kept else Some(e[0]), bs[1..]);
      if e == [] {
        assert CleanAll(prev, bs) == rest;
      } else {
        assert CleanAll(prev, bs)[0] == e[0] && CleanAll(prev, bs)[1..] == rest;
        CleanedKeeps(prev, bs[0].value, Head(bs[1..]));
      }
    }
  }

  // ----- Normal form -----

  /** The stored form: bounded, non-empty, paired messages. */
  predicate Normal(json: JsonCheck, ms: Transcript) {
    (forall m :: m in ms ==> MessageFixed(json, m) && m.content != []) && Paired(ms)
  }

  lemma {:induction false} CleanAllFixed(json: JsonCheck, prev: Option<Message>, bs: seq<Option<Message>>)
    requires forall i :: 0 <= i < |bs| && bs[i].Some? ==> MessageFixed(json, bs[i].value)
    ensures forall m :: m in CleanAll(prev, bs) ==> MessageFixed(json, m) && m.content != []
    decreases bs
  {
    hide Strip, BoundFixed, Cleaned, Bounded, Orphan;
    if bs != [] {
      CleanAllFixed(json, bs[0], bs[1..]);
      if bs[0].Some? {
        CleanedKeeps(prev, bs[0].value, Head(bs[1..]));
      }
    }
  }

  lemma SanitizedIsNormal(json: JsonCheck, ms: Transcript)
    ensures Normal(json, Sanitize(json, ms))
  {
    hide MessageFixed;
    var bs := BoundAll(json, ms);
    forall i | 0 <= i < |bs| && bs[i].Some? ensures MessageFixed(json, bs[i].value) {
      BoundMessageIsFixed(json, ms[i]);
    }
    CleanAllFixed(json, None, bs);
    CleanAllPaired(None, None, bs);
    PairedIff(Sanitize(json, ms));
  }

  lemma {:induction false} CleanAllIdentity(prev: Option<Message>, bs: seq<Option<Message>>, ms: Transcript)
    requires |bs| == |ms| && forall i :: 0 <= i < |ms| ==> bs[i] == Some(ms[i]) && ms[i].content != []
    requires PairedAfter(prev, ms)
    ensures CleanAll(prev, bs) == ms
    decreases bs
  {
    if ms != [] {
      CleanAllIdentity(bs[0], bs[1..], ms[1..]);
      assert Head(bs[1..]) == At(ms, 1);
      StripKeepsPartnered(ms[0].content, ms[0].role == ASSISTANT,
                          if ms[0].role == ASSISTANT then Answered(At(ms, 1)) else Called(prev));
      assert ms == [ms[0]] + ms[1..];
    }
  }

  /** Sanitising leaves a transcript unchanged exactly when it is in normal form. */
  lemma SanitizeFixedIff(json: JsonCheck, ms: Transcript)
    ensures Sanitize(json, ms) == ms <==> Normal(json, ms)
  {
    SanitizedIsNormal(json, ms);
    if Normal(json, ms) {
      var bs := BoundAll(json, ms);
      forall i | 0 <= i < |ms| ensures bs[i] == Some(ms[i]) && ms[i].content != [] {
        MessageFixedIff(json, ms[i]);
      }
      PairedIff(ms);
      CleanAllIdentity(None, bs, ms);
    }
  }

  lemma SanitizeIdempotent(json: JsonCheck, ms: Transcript)
    ensures Sanitize(json, Sanitize(json, ms)) == Sanitize(json, ms)
  {
    SanitizedIsNormal(json, ms);
    SanitizeFixedIff(json, Sanitize(json, ms));
  }

  // ----- Exactly what survives -----

  predicate IsCallOf(m: Option<Message>, id: string) {
    m.Some? && m.value.role == "assistant" && exists u :: u in m.value.content && u.kind == "tool_use" && u.id == id
  }

  predicate IsAnswerTo(m: Option<Message>, id: string) {
    m.Some? && exists r :: r in m.value.content && r.kind == "tool_result" && r.toolUseId == id
  }

  /** Block `b` of message `i` has its partner in the neighbouring message, if it needs one. */
  predicate Partnered(bs: seq<Option<Message>>, i: nat, b: Block)
    requires i < |bs| && bs[i].Some?
  {
    var assistant := bs[i].value.role == "assistant";
    && (assistant && b.kind == "tool_use" ==> i + 1 < |bs| && IsAnswerTo(bs[i + 1], b.id))
    && (!assistant && b.kind == "tool_result" ==> i > 0 && IsCallOf(bs[i - 1], b.toolUseId))
  }

  /** The partnered ones among the first `j` blocks of message `i`, in order. */
  function PartneredBlocks(bs: seq<Option<Message>>, i: nat, j: nat): seq<Block>
    requires i < |bs| && bs[i].Some? && j <= |bs[i].value.content|
  {
    if j == 0 then []
    else
      var b := bs[i].value.content[j - 1];
      PartneredBlocks(bs, i, j - 1) + if Partnered(bs, i, b) then [b] else []
  }

  /** The first `n` messages with their partnered blocks, without those that were rejected or have none. */
  function Survivors(bs: seq<Option<Message>>, n: nat): Transcript
    requires n <= |bs|
  {
    if n == 0 then [] else Survivors(bs, n - 1) + SurvivorAt(bs, n - 1)
  }

  function SurvivorAt(bs: seq<Option<Message>>, i: nat): Transcript
    requires i < |bs|
  {
    if bs[i].None? then []
    else
      var kept := PartneredBlocks(bs, i, |bs[i].value.content|);
      if kept == [] then [] else [Message(bs[i].value.role, kept)]
  }

  lemma PartneredIff(bs: seq<Option<Message>>, i: nat, b: Block)
    requires i < |bs| && bs[i].Some?
    ensures var assistant := bs[i].value.role == ASSISTANT;
            Partnered(bs, i, b) <==>
              !Orphan(b, assistant, if assistant then Answered(Head(bs[i..][1..])) else Called(Before(bs, i)))
  {
    assert bs[i..][1..] == bs[i + 1..];
  }

  lemma {:induction false} PartneredBlocksAre(bs: seq<Option<Message>>, i: nat, j: nat)
    requires i < |bs| && bs[i].Some? && j <= |bs[i].value.content|
    ensures var assistant := bs[i].value.role == ASSISTANT;
            PartneredBlocks(bs, i, j) ==
            Strip(bs[i].value.content[..j], assistant,
                  if assistant then Answered(Head(bs[i..][1..])) else Called(Before(bs, i)))
  {
    hide Partnered, Orphan, Answered, Called;
    if j > 0 {
      var content := bs[i].value.content;
      PartneredBlocksAre(bs, i, j - 1);
      PartneredIff(bs, i, content[j - 1]);
      assert content[..j][..j - 1] == content[..j - 1];
    }
  }

  lemma SurvivorIsEmitted(bs: seq<Option<Message>>, i: nat)
    requires i < |bs|
    ensures SurvivorAt(bs, i) == Emitted(Before(bs, i), bs[i..])
  {
    hide Answered, Called, Strip, PartneredBlocks;
    if bs[i].Some? {
      var content := bs[i].value.content;
      PartneredBlocksAre(bs, i, |content|);
      assert content[..|content|] == content;
    }
  }

  lemma {:induction false} SurvivorsThenRest(bs: seq<Option<Message>>, i: nat)
    requires i <= |bs|
    ensures Survivors(bs, |bs|) == Survivors(bs, i) + CleanAll(Before(bs, i), bs[i..])
    decreases |bs| - i
  {
    hide SurvivorAt, Emitted;
    if i == |bs| {
      assert Survivors(bs, i) + [] == Survivors(bs, i);
    } else {
      SurvivorIsEmitted(bs, i);
      SurvivorsThenRest(bs, i + 1);
      assert bs[i..][1..] == bs[i + 1..];
      ConcatAssociative(Survivors(bs, i), SurvivorAt(bs, i), CleanAll(bs[i], bs[i + 1..]));
    }
  }

  /** Sanitising keeps, in order, exactly the messages that are not rejected with exactly their blocks that have a
  partner or need none, and drops those left empty. */
  lemma SanitizeKeepsSurvivors(json: JsonCheck, ms: Transcript)
    ensures Sanitize(json, ms) == Survivors(BoundAll(json, ms), |ms|)
  {
    var bs := BoundAll(json, ms);
    SurvivorsThenRest(bs, 0);
    assert bs[0..] == bs && Survivors(bs, 0) + CleanAll(None, bs) == CleanAll(None, bs);
  }

  // ----- Sanitising part by part -----

  lemma NoResultsNoPrevious(prev: Option<Message>, m: Message, next: Option<Message>)
    requires Answered(Some(m)) == {}
    ensures Cleaned(prev, m, next) == Cleaned(None, m, next)
  {
    NothingAnsweredIff(m);
    StripKeepsPartnered(m.content, false, Called(prev));
    StripKeepsPartnered(m.content, false, Called(None));
  }

  lemma NoResultsNoNext(prev: Option<Message>, m: Message, next: Option<Message>)
    requires Answered(next) == {}
    ensures Cleaned(prev, m, next) == Cleaned(prev, m, None)
  {
  }

  lemma EmittedSplits(prev: Option<Message>, a: seq<Option<Message>>, b: seq<Option<Message>>)
    requires a != [] && Answered(Head(b)) == {}
    ensures Emitted(prev, a + b) == Emitted(prev, a)
  {
    hide Cleaned, Answered, Called;
    assert (a + b)[1..] == a[1..] + b;
    if |a| == 1 {
      assert a[1..] + b == b;
      if a[0].Some? {
        NoResultsNoNext(prev, a[0].value, Head(b));
      }
    }
  }

  lemma {:induction false} CleanAllSplits(prev: Option<Message>, a: seq<Option<Message>>, b: seq<Option<Message>>)
    requires Answered(Head(b)) == {}
    ensures CleanAll(prev, a + b) == CleanAll(prev, a) + CleanAll(None, b)
    decreases a
  {
    if a == [] {
      assert a + b == b;
      if b != [] && b[0].Some? {
        NoResultsNoPrevious(prev, b[0].value, Head(b[1..]));
      }
    } else {
      hide Emitted, Answered;
      assert (a + b)[1..] == a[1..] + b;
      EmittedSplits(prev, a, b);
      CleanAllSplits(a[0], a[1..], b);
      ConcatAssociative(Emitted(prev, a), CleanAll(a[0], a[1..]), CleanAll(None, b));
    }
  }

  /** A message without tool results is a seam: both sides can be sanitised on their own. */
  lemma SanitizeSplits(json: JsonCheck, a: Transcript, b: Transcript)
    requires b != [] ==> !ContainsToolResult(b[0])
    ensures Sanitize(json, a + b) == Sanitize(json, a) + Sanitize(json, b)
  {
    assert BoundAll(json, a + b) == BoundAll(json, a) + BoundAll(json, b);
    var bs := BoundAll(json, b);
    if b != [] && bs[0].Some? {
      forall x | x in bs[0].value.content ensures x.kind != TOOL_RESULT {
        var i :| 0 <= i < |b[0].content| && bs[0].value.content[i] == x;
        BoundedKeepsResultKind(json, b[0].content[i]);
      }
    }
    CleanAllSplits(None, BoundAll(json, a), bs);
  }

  /** Bounding cannot turn another block into a tool result. */
  lemma BoundedKeepsResultKind(json: JsonCheck, b: Block)
    requires BoundBlock(json, b).Some?
    ensures BoundBlock(json, b).value.kind == TOOL_RESULT <==> b.kind == TOOL_RESULT
  {
    if !IsOpaque(b) {
      var k := Bounded(b.kind, MAX_IDENTIFIER_BYTES);
      assert forall i :: 0 <= i < |TOOL_RESULT| ==> TOOL_RESULT[i] as int < 0x80;
      if k == TOOL_RESULT {
        BoundedInventsNothing(b.kind, MAX_IDENTIFIER_BYTES);
      }
      if b.kind == TOOL_RESULT {
        AsciiIsValid(b.kind);
        BoundedFixedIff(b.kind, MAX_IDENTIFIER_BYTES);
      }
    }
  }
}
