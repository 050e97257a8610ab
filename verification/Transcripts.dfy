module Options {
  datatype Option<+T> = None | Some(value: T)
}

/** Facts about sets and sequences that the solver does not find by itself. */
module Collections {
  lemma AddOne<T>(s: set<T>, x: T)
    requires x !in s
    ensures |s + {x}| == |s| + 1
  {
  }

  lemma ConcatAssociative<T>(a: seq<T>, b: seq<T>, c: seq<T>)
    ensures a + (b + c) == (a + b) + c
  {
  }
}

/** The provider-neutral transcript and the bounds every stored block obeys. */
module Transcripts {
  import opened Options
  import opened Utf8

  const MAX_TRANSCRIPT_BYTES: nat := 0x10_0000
  const MAX_TEXT_BYTES: nat := 0x1_0000
  const MAX_TOOL_RESULT_BYTES: nat := 0x8000
  const MAX_TOOL_INPUT_BYTES: nat := 0x4000
  const MAX_IDENTIFIER_BYTES: nat := 512
  const MAX_OPAQUE_BLOCK_BYTES: nat := MAX_TEXT_BYTES

  const USER: string := "user"
  const ASSISTANT: string := "assistant"

  const TEXT: string := "text"
  const TOOL_USE: string := "tool_use"
  const TOOL_RESULT: string := "tool_result"
  const ANTHROPIC_THINKING: string := "anthropic_thinking"
  const ANTHROPIC_REDACTED_THINKING: string := "anthropic_redacted_thinking"
  const GEMINI_THOUGHT: string := "gemini_thought"

  const TRUNCATED_INPUT: string := "{\"_cantinarr_truncated\":true}"

  /** json.Valid, left open: any check that accepts the truncation marker and rejects the empty string. */
  type JsonCheck = valid: string -> bool | valid(TRUNCATED_INPUT) && !valid("")
    witness (s: string) => s != ""

  /** `input` is None for Go's nil. */
  datatype Block = Block(
    kind: string, text: string, id: string, name: string, input: Option<string>, toolUseId: string,
    content: string, isError: bool, signature: string, data: string, thoughtSignature: string)

  datatype Message = Message(role: string, content: seq<Block>)

  type Transcript = seq<Message>

  const EMPTY_BLOCK := Block("", "", "", "", None, "", "", false, "", "", "")

  function TextBlock(text: string): Block {
    EMPTY_BLOCK.(kind := TEXT, text := text)
  }

  function TextMessage(role: string, text: string): Message {
    Message(role, [TextBlock(text)])
  }

  function InputBytes(b: Block): string {
    if b.input.Some? then b.input.value else ""
  }

  // ----- Provider continuation state -----

  predicate IsOpaqueKind(kind: string) {
    kind == ANTHROPIC_THINKING || kind == ANTHROPIC_REDACTED_THINKING || kind == GEMINI_THOUGHT
  }

  predicate IsOpaque(b: Block) {
    IsOpaqueKind(b.kind) || b.signature != "" || b.data != "" || b.thoughtSignature != ""
  }

  function OpaqueSize(b: Block): nat {
    |b.kind| + |b.text| + |b.id| + |b.name| + |InputBytes(b)| + |b.toolUseId| + |b.content|
    + |b.signature| + |b.data| + |b.thoughtSignature|
  }

  // ----- Bounding -----

  predicate OpaqueRejected(json: JsonCheck, b: Block) {
    || OpaqueSize(b) > MAX_OPAQUE_BLOCK_BYTES
    || |b.kind| > MAX_IDENTIFIER_BYTES || |b.id| > MAX_IDENTIFIER_BYTES
    || |b.name| > MAX_IDENTIFIER_BYTES || |b.toolUseId| > MAX_IDENTIFIER_BYTES
    || |InputBytes(b)| > MAX_TOOL_INPUT_BYTES
    || (b.input.Some? && !json(b.input.value))
  }

  function BoundedInput(json: JsonCheck, input: Option<string>): Option<string> {
    if input.Some? && (|input.value| > MAX_TOOL_INPUT_BYTES || !json(input.value)) then Some(TRUNCATED_INPUT)
    else input
  }

  /** None when the block is signed state that may be neither kept whole nor cut. */
  function BoundBlock(json: JsonCheck, b: Block): Option<Block> {
    if IsOpaque(b) then
      if OpaqueRejected(json, b) then None else Some(b)
    else
      Some(b.(kind := Bounded(b.kind, MAX_IDENTIFIER_BYTES),
              text := Bounded(b.text, MAX_TEXT_BYTES),
              id := Bounded(b.id, MAX_IDENTIFIER_BYTES),
              name := Bounded(b.name, MAX_IDENTIFIER_BYTES),
              toolUseId := Bounded(b.toolUseId, MAX_IDENTIFIER_BYTES),
              content := Bounded(b.content, MAX_TOOL_RESULT_BYTES),
              input := BoundedInput(json, b.input)))
  }

  predicate Boundable(json: JsonCheck, m: Message) {
    forall i :: 0 <= i < |m.content| ==> BoundBlock(json, m.content[i]).Some?
  }

  /** None drops the whole message: one rejected block rejects the turn. */
  function BoundMessage(json: JsonCheck, m: Message): Option<Message> {
    if Boundable(json, m) then
      Some(Message(Bounded(m.role, MAX_IDENTIFIER_BYTES),
                   seq(|m.content|, i requires 0 <= i < |m.content| => BoundBlock(json, m.content[i]).value)))
    else None
  }

  method BoundTranscriptMessage(json: JsonCheck, m: Message) returns (r: Option<Message>)
    ensures r == BoundMessage(json, m)
  {
    var role := BoundedString(m.role, MAX_IDENTIFIER_BYTES);
    var blocks: seq<Block> := [];
    for i := 0 to |m.content|
      invariant |blocks| == i
      invariant forall j :: 0 <= j < i ==> BoundBlock(json, m.content[j]) == Some(blocks[j])
    {
      var block := m.content[i];
      if IsOpaque(block) {
        if OpaqueRejected(json, block) {
          assert BoundBlock(json, m.content[i]).None?;
          return None;
        }
      } else {
        var kind := BoundedString(block.kind, MAX_IDENTIFIER_BYTES);
        var text := BoundedString(block.text, MAX_TEXT_BYTES);
        var id := BoundedString(block.id, MAX_IDENTIFIER_BYTES);
        var name := BoundedString(block.name, MAX_IDENTIFIER_BYTES);
        var toolUseId := BoundedString(block.toolUseId, MAX_IDENTIFIER_BYTES);
        var content := BoundedString(block.content, MAX_TOOL_RESULT_BYTES);
        block := block.(kind := kind, text := text, id := id, name := name, toolUseId := toolUseId,
                        content := content);
        if block.input.Some? {
          if |block.input.value| > MAX_TOOL_INPUT_BYTES || !json(block.input.value) {
            block := block.(input := Some(TRUNCATED_INPUT));
          }
        }
      }
      blocks := blocks + [block];
    }
    r := Some(Message(role, blocks));
    assert Boundable(json, m);
    assert blocks == BoundMessage(json, m).value.content;
  }

  /** Bounding cannot turn an ordinary block type into a signed one. */
  lemma BoundedKeepsKind(kind: string)
    ensures IsOpaqueKind(Bounded(kind, MAX_IDENTIFIER_BYTES)) ==> IsOpaqueKind(kind)
  {
    var k := Bounded(kind, MAX_IDENTIFIER_BYTES);
    if IsOpaqueKind(k) {
      assert |k| <= 27;
      assert forall i :: 0 <= i < |k| ==> k[i] as int < 0x80;
      BoundedInventsNothing(kind, MAX_IDENTIFIER_BYTES);
    }
  }

  lemma BoundBlockIdempotent(json: JsonCheck, b: Block)
    requires BoundBlock(json, b).Some?
    ensures BoundFixed(json, BoundBlock(json, b).value)
  {
    if !IsOpaque(b) {
      BoundedKeepsKind(b.kind);
      BoundedIdempotent(b.kind, MAX_IDENTIFIER_BYTES);
      BoundedIdempotent(b.text, MAX_TEXT_BYTES);
      BoundedIdempotent(b.id, MAX_IDENTIFIER_BYTES);
      BoundedIdempotent(b.name, MAX_IDENTIFIER_BYTES);
      BoundedIdempotent(b.toolUseId, MAX_IDENTIFIER_BYTES);
      BoundedIdempotent(b.content, MAX_TOOL_RESULT_BYTES);
    }
  }

  /** A block that bounding leaves as it is. */
  predicate BoundFixed(json: JsonCheck, b: Block) {
    BoundBlock(json, b) == Some(b)
  }

  predicate MessageFixed(json: JsonCheck, m: Message) {
    Bounded(m.role, MAX_IDENTIFIER_BYTES) == m.role && forall b :: b in m.content ==> BoundFixed(json, b)
  }

  lemma OrdinaryBlockFixed(json: JsonCheck, b: Block)
    requires !IsOpaque(b) && Bounded(b.kind, MAX_IDENTIFIER_BYTES) == b.kind
    requires Bounded(b.id, MAX_IDENTIFIER_BYTES) == b.id && Bounded(b.name, MAX_IDENTIFIER_BYTES) == b.name
    requires Bounded(b.toolUseId, MAX_IDENTIFIER_BYTES) == b.toolUseId
    requires Bounded(b.text, MAX_TEXT_BYTES) == b.text && Bounded(b.content, MAX_TOOL_RESULT_BYTES) == b.content
    requires BoundedInput(json, b.input) == b.input
    ensures BoundFixed(json, b)
  {
  }

  lemma TextBlockFixed(json: JsonCheck, text: string)
    requires Bounded(text, MAX_TEXT_BYTES) == text
    ensures BoundFixed(json, TextBlock(text))
  {
    AsciiFixed(TEXT, MAX_IDENTIFIER_BYTES);
    AsciiFixed("", MAX_IDENTIFIER_BYTES);
    AsciiFixed("", MAX_TOOL_RESULT_BYTES);
    OrdinaryBlockFixed(json, TextBlock(text));
  }

  lemma MessageFixedIff(json: JsonCheck, m: Message)
    ensures BoundMessage(json, m) == Some(m) <==> MessageFixed(json, m)
  {
    if BoundMessage(json, m) == Some(m) {
      forall i | 0 <= i < |m.content| ensures BoundFixed(json, m.content[i]) {
        assert BoundMessage(json, m).value.content[i] == BoundBlock(json, m.content[i]).value;
      }
    }
    if MessageFixed(json, m) {
      assert forall i :: 0 <= i < |m.content| ==> BoundFixed(json, m.content[i]);
      assert BoundMessage(json, m).value.content == m.content;
    }
  }

  lemma BoundMessageIsFixed(json: JsonCheck, m: Message)
    requires BoundMessage(json, m).Some?
    ensures MessageFixed(json, BoundMessage(json, m).value)
  {
    var r := BoundMessage(json, m).value;
    BoundedIdempotent(m.role, MAX_IDENTIFIER_BYTES);
    forall b | b in r.content ensures BoundFixed(json, b) {
      var i :| 0 <= i < |r.content| && r.content[i] == b;
      BoundBlockIdempotent(json, m.content[i]);
    }
  }

  // ----- What bounding keeps of a block -----

  /** Signed state by type or by content. */
  lemma OpaqueIff(b: Block)
    ensures IsOpaque(b) <==>
            || b.kind == "anthropic_thinking" || b.kind == "anthropic_redacted_thinking" || b.kind == "gemini_thought"
            || b.signature != "" || b.data != "" || b.thoughtSignature != ""
  {
  }

  /** The stored blocks: signed ones within all their limits, others with every field valid and within its own. */
  lemma BoundFixedIff(json: JsonCheck, b: Block)
    ensures BoundFixed(json, b) <==>
            && |b.kind| <= 512 && |b.id| <= 512 && |b.name| <= 512 && |b.toolUseId| <= 512
            && (b.input.Some? ==> |b.input.value| <= 16384 && json(b.input.value))
            && (if IsOpaque(b) then
                  |b.kind| + |b.text| + |b.id| + |b.name| + |InputBytes(b)| + |b.toolUseId| + |b.content|
                  + |b.signature| + |b.data| + |b.thoughtSignature| <= 65536
                else
                  && |b.text| <= 65536 && |b.content| <= 32768
                  && Valid(b.kind) && Valid(b.id) && Valid(b.name) && Valid(b.toolUseId)
                  && Valid(b.text) && Valid(b.content))
  {
    hide Bounded, Valid, IsOpaqueKind;
    if !IsOpaque(b) {
      BoundedFixedIff(b.kind, MAX_IDENTIFIER_BYTES);
      BoundedFixedIff(b.text, MAX_TEXT_BYTES);
      BoundedFixedIff(b.id, MAX_IDENTIFIER_BYTES);
      BoundedFixedIff(b.name, MAX_IDENTIFIER_BYTES);
      BoundedFixedIff(b.toolUseId, MAX_IDENTIFIER_BYTES);
      BoundedFixedIff(b.content, MAX_TOOL_RESULT_BYTES);
      TruncatedInputFits();
    }
  }

  lemma TruncatedInputFits()
    ensures |TRUNCATED_INPUT| <= MAX_TOOL_INPUT_BYTES
  {
  }

  /** `r` is `value`, repaired, and cut with the marker if it is too long. */
  ghost predicate CutTo(value: string, limit: nat, r: string) {
    if |ToValid(value)| <= limit then r == ToValid(value)
    else
      exists k ::
        0 <= k <= |ToValid(value)| && r == ToValid(value)[..k] + TRUNCATED && LongestFit(ToValid(value), limit, k)
  }

  /** The longest valid prefix that leaves room for the marker. */
  ghost predicate LongestFit(v: string, limit: nat, k: nat)
    requires k <= |v|
  {
    && k + |TRUNCATED| <= limit && Valid(v[..k])
    && forall j :: k < j <= |v| && j + |TRUNCATED| <= limit ==> !Valid(v[..j])
  }

  lemma BoundedCuts(value: string, limit: nat)
    requires limit > |TRUNCATED|
    ensures CutTo(value, limit, Bounded(value, limit))
  {
    if |ToValid(value)| > limit {
      var k := TruncationKeepsLongestPrefix(value, limit);
      assert LongestFit(ToValid(value), limit, k);
    }
  }

  /** Bounding an ordinary block cuts each text to its own limit, replaces an unusable input by the marker, and leaves
  everything else alone; a signed block is kept as it is or rejected. */
  lemma BoundBlockCuts(json: JsonCheck, b: Block)
    requires BoundBlock(json, b).Some?
    ensures var r := BoundBlock(json, b).value;
            if IsOpaque(b) then r == b
            else
              && CutTo(b.kind, 512, r.kind) && CutTo(b.text, 65536, r.text) && CutTo(b.id, 512, r.id)
              && CutTo(b.name, 512, r.name) && CutTo(b.toolUseId, 512, r.toolUseId)
              && CutTo(b.content, 32768, r.content)
              && r.input == (if b.input.Some? && (|b.input.value| > 16384 || !json(b.input.value))
                             then Some("{\"_cantinarr_truncated\":true}") else b.input)
              && r.isError == b.isError && r.signature == b.signature && r.data == b.data
              && r.thoughtSignature == b.thoughtSignature
  {
    hide CutTo, Bounded;
    BoundedCuts(b.kind, MAX_IDENTIFIER_BYTES);
    BoundedCuts(b.text, MAX_TEXT_BYTES);
    BoundedCuts(b.id, MAX_IDENTIFIER_BYTES);
    BoundedCuts(b.name, MAX_IDENTIFIER_BYTES);
    BoundedCuts(b.toolUseId, MAX_IDENTIFIER_BYTES);
    BoundedCuts(b.content, MAX_TOOL_RESULT_BYTES);
  }

  /** Bounding a message cuts its role and bounds its blocks one by one; a single rejected block rejects it. */
  lemma BoundMessageCuts(json: JsonCheck, m: Message)
    ensures BoundMessage(json, m).None? <==> exists b :: b in m.content && IsOpaque(b) && !BoundFixed(json, b)
    ensures BoundMessage(json, m).Some? ==>
              var r := BoundMessage(json, m).value;
              && CutTo(m.role, 512, r.role) && |r.content| == |m.content|
              && forall i :: 0 <= i < |m.content| ==> BoundBlock(json, m.content[i]) == Some(r.content[i])
  {
    hide CutTo, Bounded, BoundBlock, IsOpaque, BoundFixed;
    BoundedCuts(m.role, MAX_IDENTIFIER_BYTES);
    forall b: Block ensures BoundBlock(json, b).None? <==> IsOpaque(b) && !BoundFixed(json, b) {
      RejectedIff(json, b);
    }
    assert forall b :: b in m.content ==> exists i :: 0 <= i < |m.content| && m.content[i] == b;
  }

  /** A block is rejected exactly if it is signed and breaks a limit. */
  lemma RejectedIff(json: JsonCheck, b: Block)
    ensures BoundBlock(json, b).None? <==> IsOpaque(b) && !BoundFixed(json, b)
  {
  }

  // ----- Size accounting -----

  function BlockSize(b: Block): nat {
    |b.kind| + |b.text| + |b.id| + |b.name| + |InputBytes(b)| + |b.toolUseId| + |b.content|
    + |b.signature| + |b.data| + |b.thoughtSignature| + 32
  }

  function BlocksSize(bs: seq<Block>): nat {
    if bs == [] then 0 else BlocksSize(bs[..|bs| - 1]) + BlockSize(bs[|bs| - 1])
  }

  function MessageSize(m: Message): nat {
    |m.role| + BlocksSize(m.content)
  }

  function Size(ms: Transcript): nat {
    if ms == [] then 0 else Size(ms[..|ms| - 1]) + MessageSize(ms[|ms| - 1])
  }

  /** Every byte of a block counts once, those of signatures included, and each block 32 more. */
  lemma EveryByteCounts(b: Block, f: string)
    ensures BlockSize(EMPTY_BLOCK) == 32
    ensures BlockSize(b.(kind := f)) - |f| == BlockSize(b) - |b.kind|
    ensures BlockSize(b.(text := f)) - |f| == BlockSize(b) - |b.text|
    ensures BlockSize(b.(id := f)) - |f| == BlockSize(b) - |b.id|
    ensures BlockSize(b.(name := f)) - |f| == BlockSize(b) - |b.name|
    ensures BlockSize(b.(input := Some(f))) - |f| == BlockSize(b) - |InputBytes(b)|
    ensures BlockSize(b.(toolUseId := f)) - |f| == BlockSize(b) - |b.toolUseId|
    ensures BlockSize(b.(content := f)) - |f| == BlockSize(b) - |b.content|
    ensures BlockSize(b.(signature := f)) - |f| == BlockSize(b) - |b.signature|
    ensures BlockSize(b.(data := f)) - |f| == BlockSize(b) - |b.data|
    ensures BlockSize(b.(thoughtSignature := f)) - |f| == BlockSize(b) - |b.thoughtSignature|
  {
  }

  /** And a transcript is as large as the roles and blocks in it. */
  lemma SizeOfParts(role: string, a: seq<Block>, b: Block)
    ensures Size([]) == 0 && Size([Message(role, [])]) == |role|
    ensures Size([Message(role, a + [b])]) == Size([Message(role, a)]) + BlockSize(b)
  {
    SizeOfOne(Message(role, []));
    SizeOfOne(Message(role, a));
    SizeOfOne(Message(role, a + [b]));
    assert (a + [b])[..|a|] == a;
  }

  lemma SizeOfOne(m: Message)
    ensures Size([m]) == |m.role| + BlocksSize(m.content)
  {
    assert [m][..0] == [];
  }

  method TranscriptSize(ms: Transcript) returns (total: nat)
    ensures total == Size(ms)
  {
    total := 0;
    for i := 0 to |ms|
      invariant total == Size(ms[..i])
    {
      total := total + |ms[i].role|;
      for j := 0 to |ms[i].content|
        invariant total == Size(ms[..i]) + |ms[i].role| + BlocksSize(ms[i].content[..j])
      {
        total := total + BlockSize(ms[i].content[j]);
        assert ms[i].content[..j + 1][..j] == ms[i].content[..j];
      }
      assert ms[i].content[..|ms[i].content|] == ms[i].content;
      assert ms[..i + 1][..i] == ms[..i];
    }
    assert ms[..|ms|] == ms;
  }

  lemma {:induction false} SizeConcat(a: Transcript, b: Transcript)
    ensures Size(a + b) == Size(a) + Size(b)
  {
    if b == [] {
      assert a + b == a;
    } else {
      SizeConcat(a, b[..|b| - 1]);
      assert (a + b)[..|a + b| - 1] == a + b[..|b| - 1];
    }
  }

  const MAX_STORED_BLOCK_SIZE: nat := 116_768

  /** After bounding, one block costs at most 116,768 bytes. */
  lemma StoredBlockSize(json: JsonCheck, b: Block)
    requires BoundFixed(json, b)
    ensures BlockSize(b) <= MAX_STORED_BLOCK_SIZE
  {
    if !IsOpaque(b) {
      BoundedFixedIff(b.kind, MAX_IDENTIFIER_BYTES);
      BoundedFixedIff(b.text, MAX_TEXT_BYTES);
      BoundedFixedIff(b.id, MAX_IDENTIFIER_BYTES);
      BoundedFixedIff(b.name, MAX_IDENTIFIER_BYTES);
      BoundedFixedIff(b.toolUseId, MAX_IDENTIFIER_BYTES);
      BoundedFixedIff(b.content, MAX_TOOL_RESULT_BYTES);
      assert |InputBytes(b)| <= MAX_TOOL_INPUT_BYTES;
    }
  }

  lemma {:induction false} StoredBlocksSize(json: JsonCheck, bs: seq<Block>)
    requires forall b :: b in bs ==> BoundFixed(json, b)
    ensures BlocksSize(bs) <= |bs| * MAX_STORED_BLOCK_SIZE
  {
    if bs != [] {
      StoredBlockSize(json, bs[|bs| - 1]);
      StoredBlocksSize(json, bs[..|bs| - 1]);
    }
  }
}
