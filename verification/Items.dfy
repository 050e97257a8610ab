/** codexResponseItems and codexNativeTurn: a transcript replayed as native Responses items. */
module Replaying {
  import opened Options
  import opened Collections
  import opened Utf8
  import opened Spaces
  import opened Transcripts
  import opened Sanitizing

  datatype Item =
    | MessageItem(role: string, contentType: string, texts: seq<string>)
    | FunctionCall(name: string, arguments: string, callId: string)
    | FunctionCallOutput(callId: string, output: string)

  /** What one block, or one text of a message item, says to the provider. */
  datatype Entry =
    | Said(role: string, contentType: string, text: string)
    | Call(name: string, arguments: string, id: string)
    | Output(id: string, output: string)

  function ItemRole(m: Message): string {
    if m.role == ASSISTANT then "assistant" else "user"
  }

  function ContentType(m: Message): string {
    if m.role == ASSISTANT then "output_text" else "input_text"
  }

  // ----- Meaning: the entries of blocks and of items -----

  /** Empty texts, tool blocks without an id, and all other block types say nothing. */
  function BlockEntries(m: Message, b: Block): seq<Entry> {
    if b.kind == TEXT then
      if b.text == "" then [] else [Said(ItemRole(m), ContentType(m), b.text)]
    else if b.kind == TOOL_USE then
      if b.id == "" then [] else [Call(b.name, if InputBytes(b) == "" then "{}" else InputBytes(b), b.id)]
    else if b.kind == TOOL_RESULT then
      if b.toolUseId == "" then [] else [Output(b.toolUseId, b.content)]
    else []
  }

  function BlocksEntries(m: Message, bs: seq<Block>): seq<Entry> {
    if bs == [] then [] else BlocksEntries(m, bs[..|bs| - 1]) + BlockEntries(m, bs[|bs| - 1])
  }

  function MessageEntries(m: Message): seq<Entry> {
    BlocksEntries(m, m.content)
  }

  function Entries(ms: Transcript): seq<Entry> {
    if ms == [] then [] else Entries(ms[..|ms| - 1]) + MessageEntries(ms[|ms| - 1])
  }

  function ItemEntries(item: Item): seq<Entry> {
    match item
    case MessageItem(role, contentType, texts) =>
      seq(|texts|, i requires 0 <= i < |texts| => Said(role, contentType, texts[i]))
    case FunctionCall(name, arguments, id) => [Call(name, arguments, id)]
    case FunctionCallOutput(id, output) => [Output(id, output)]
  }

  function Expand(items: seq<Item>): seq<Entry> {
    if items == [] then [] else Expand(items[..|items| - 1]) + ItemEntries(items[|items| - 1])
  }

  // ----- Grouping: adjacent texts of one message share one item, nothing else does -----

  predicate Grouped(items: seq<Item>) {
    && (forall i :: 0 <= i < |items| && items[i].MessageItem? ==> items[i].texts != [])
    && (forall i :: 0 < i < |items| ==> items[i - 1].MessageItem? ==> !items[i].MessageItem?)
  }

  /** The items of message `m`: they say what its blocks say, and are maximally grouped. */
  predicate RendersMessage(m: Message, items: seq<Item>) {
    Expand(items) == MessageEntries(m) && Grouped(items) && SpokenBy(m, items)
  }

  /** The texts of an assistant message are replayed as the assistant's output, all others as the user's input. */
  predicate SpokenBy(m: Message, items: seq<Item>) {
    forall i :: 0 <= i < |items| && items[i].MessageItem? ==>
      if m.role == "assistant" then items[i].role == "assistant" && items[i].contentType == "output_text"
      else items[i].role == "user" && items[i].contentType == "input_text"
  }

  /** `items` is the concatenation of one group of items per message, so no item crosses a message boundary. */
  predicate Renders(ms: Transcript, items: seq<Item>)
  {
    if ms == [] then items == []
    else
      exists n ::
        0 <= n <= |items| && RendersMessage(ms[|ms| - 1], items[n..]) && Renders(ms[..|ms| - 1], items[..n])
  }

  method CodexResponseItems(ms: Transcript) returns (items: seq<Item>)
    ensures Expand(items) == Entries(ms)
    ensures Renders(ms, items)
  {
    items := [];
    for i := 0 to |ms|
      invariant Expand(items) == Entries(ms[..i])
      invariant Renders(ms[..i], items)
    {
      assert ms[..i + 1][..i] == ms[..i];
      var own := ItemsOfMessage(ms[i]);
      ExpandConcat(items, own);
      assert (items + own)[|items|..] == own && (items + own)[..|items|] == items;
      items := items + own;
    }
    assert ms[..|ms|] == ms;
  }

  function Texts(role: string, contentType: string, texts: seq<string>): seq<Entry> {
    ItemEntries(MessageItem(role, contentType, texts))
  }

  /** The items so far and the pending texts say `said`; the last item is not itself a message item. */
  predicate Building(items: seq<Item>, role: string, contentType: string, pending: seq<string>, said: seq<Entry>) {
    && Expand(items) + Texts(role, contentType, pending) == said
    && Grouped(items)
    && (items != [] ==> !items[|items| - 1].MessageItem?)
  }

  /** One round of the outer loop of codexResponseItems. */
  method ItemsOfMessage(m: Message) returns (items: seq<Item>)
    ensures RendersMessage(m, items)
  {
    hide Building, BlockEntries;
    var role, contentType := "user", "input_text";
    if m.role == ASSISTANT {
      role, contentType := "assistant", "output_text";
    }
    items := [];
    var pending: seq<string> := [];
    NothingSaid(role, contentType);
    for i := 0 to |m.content|
      invariant Building(items, role, contentType, pending, BlocksEntries(m, m.content[..i]))
    {
      assert m.content[..i + 1][..i] == m.content[..i];
      items, pending := AddBlock(m, items, role, contentType, pending, m.content[i], BlocksEntries(m, m.content[..i]));
    }
    assert m.content[..|m.content|] == m.content;
    items := FlushText(items, role, contentType, pending, MessageEntries(m));
    EntriesSpokenBy(m, m.content);
    ItemsSpokenBy(m, items);
  }

  predicate EntrySpokenBy(m: Message, e: Entry) {
    e.Said? ==>
      if m.role == "assistant" then e.role == "assistant" && e.contentType == "output_text"
      else e.role == "user" && e.contentType == "input_text"
  }

  lemma {:induction false} EntriesSpokenBy(m: Message, bs: seq<Block>)
    ensures forall e :: e in BlocksEntries(m, bs) ==> EntrySpokenBy(m, e)
  {
    if bs != [] {
      EntriesSpokenBy(m, bs[..|bs| - 1]);
    }
  }

  lemma {:induction false} ItemsSpokenBy(m: Message, items: seq<Item>)
    requires (forall e :: e in Expand(items) ==> EntrySpokenBy(m, e)) && Grouped(items)
    ensures SpokenBy(m, items)
  {
    if items != [] {
      var init, last := items[..|items| - 1], items[|items| - 1];
      assert forall e :: e in ItemEntries(last) ==> e in Expand(items);
      ItemsSpokenBy(m, init);
      if last.MessageItem? {
        assert ItemEntries(last)[0] in ItemEntries(last);
      }
      assert forall i :: 0 <= i < |init| ==> items[i] == init[i];
    }
  }

  /** What a replay says, in the provider's words. */
  function Spoken(role: string, text: string): seq<Entry> {
    if text == "" then []
    else if role == "assistant" then [Said("assistant", "output_text", text)]
    else [Said("user", "input_text", text)]
  }

  lemma TextEntries(role: string, text: string)
    ensures Entries([TextMessage(role, text)]) == Spoken(role, text)
  {
    var m := TextMessage(role, text);
    assert [m][..0] == [] && m.content[..0] == [];
    assert BlocksEntries(m, m.content) == BlockEntries(m, m.content[0]);
  }

  /** Every entry says what one block says. */
  lemma EntryInLiterals(ms: Transcript, n: nat) returns (p: Position)
    requires n < |Entries(ms)|
    ensures IsBlock(ms, p)
    ensures var b, e := BlockAt(ms, p), Entries(ms)[n];
            match e
            case Said(_, _, _) => b.kind == "text" && b.text != "" && [e] == Spoken(ms[p.message].role, b.text)
            case Call(name, arguments, id) =>
              && b.kind == "tool_use" && b.id == id != "" && b.name == name
              && arguments == (if b.input.None? || b.input.value == "" then "{}" else b.input.value)
            case Output(id, output) => b.kind == "tool_result" && b.toolUseId == id != "" && b.content == output
  {
    p := EntrySource(ms, n);
    hide Entries, EntryIndex;
  }

  lemma NothingSaid(role: string, contentType: string)
    ensures Building([], role, contentType, [], [])
  {
  }

  /** One round of the inner loop of codexResponseItems. */
  method AddBlock(m: Message, items: seq<Item>, role: string, contentType: string, pending: seq<string>, block: Block,
                  ghost said: seq<Entry>)
    returns (items': seq<Item>, pending': seq<string>)
    requires role == ItemRole(m) && contentType == ContentType(m)
    requires Building(items, role, contentType, pending, said)
    ensures Building(items', role, contentType, pending', said + BlockEntries(m, block))
  {
    items', pending' := items, pending;
    if block.kind == TEXT {
      if block.text != "" {
        TextsSnoc(role, contentType, pending, block.text);
        ConcatAssociative(Expand(items), Texts(role, contentType, pending), [Said(role, contentType, block.text)]);
        pending' := pending + [block.text];
      }
    } else if block.kind == TOOL_USE {
      if block.id != "" {
        items' := FlushText(items, role, contentType, pending, said);
        var arguments := InputBytes(block);
        if arguments == "" {
          arguments := "{}";
        }
        items' := AppendTool(items', role, contentType, FunctionCall(block.name, arguments, block.id), said);
        pending' := [];
      }
    } else if block.kind == TOOL_RESULT {
      if block.toolUseId != "" {
        items' := FlushText(items, role, contentType, pending, said);
        items' := AppendTool(items', role, contentType, FunctionCallOutput(block.toolUseId, block.content), said);
        pending' := [];
      }
    }
  }

  method FlushText(items: seq<Item>, role: string, contentType: string, pending: seq<string>, ghost said: seq<Entry>)
    returns (r: seq<Item>)
    requires Building(items, role, contentType, pending, said)
    ensures Expand(r) == said && Grouped(r)
  {
    if |pending| == 0 {
      return items;
    }
    r := items + [MessageItem(role, contentType, pending)];
    assert r[..|items|] == items;
  }

  method AppendTool(items: seq<Item>, role: string, contentType: string, tool: Item, ghost said: seq<Entry>)
    returns (r: seq<Item>)
    requires Expand(items) == said && Grouped(items) && !tool.MessageItem?
    ensures Building(r, role, contentType, [], said + ItemEntries(tool))
  {
    r := items + [tool];
    assert r[..|items|] == items;
  }

  lemma TextsSnoc(role: string, contentType: string, texts: seq<string>, text: string)
    ensures Texts(role, contentType, texts + [text])
            == Texts(role, contentType, texts) + [Said(role, contentType, text)]
  {
  }

  lemma {:induction false} ExpandConcat(a: seq<Item>, b: seq<Item>)
    ensures Expand(a + b) == Expand(a) + Expand(b)
  {
    if b == [] {
      assert a + b == a;
    } else {
      ExpandConcat(a, b[..|b| - 1]);
      assert (a + b)[..|a + b| - 1] == a + b[..|b| - 1];
      ConcatAssociative(Expand(a), Expand(b[..|b| - 1]), ItemEntries(b[|b| - 1]));
    }
  }

  // ----- The rendering is unique -----

  /** Grouped items that say the same are the same items. */
  lemma {:induction false} GroupedUnique(a: seq<Item>, b: seq<Item>)
    requires Grouped(a) && Grouped(b) && Expand(a) == Expand(b)
    ensures a == b
    decreases |a| + |b|
  {
    LastEntry(a);
    LastEntry(b);
    if a != [] {
      var x, y := a[|a| - 1], b[|b| - 1];
      hide Grouped, Expand, ItemEntries;
      LastGroupLength(a, b);
      LastGroupLength(b, a);
      SameEnds(Expand(a[..|a| - 1]), ItemEntries(x), Expand(b[..|b| - 1]), ItemEntries(y));
      SameItem(x, y);
      GroupedUnique(a[..|a| - 1], b[..|b| - 1]);
    }
  }

  lemma LastEntry(a: seq<Item>)
    requires Grouped(a)
    ensures a == [] <==> Expand(a) == []
    ensures a != [] ==> Grouped(a[..|a| - 1]) && ItemEntries(a[|a| - 1]) != []
    ensures a != [] ==> Expand(a) == Expand(a[..|a| - 1]) + ItemEntries(a[|a| - 1])
  {
  }

  lemma SameEnds<T>(a: seq<T>, x: seq<T>, b: seq<T>, y: seq<T>)
    requires a + x == b + y && |x| == |y|
    ensures a == b && x == y
  {
    assert a == (a + x)[..|a|] && b == (b + y)[..|b|];
    assert x == (a + x)[|a|..] && y == (b + y)[|b|..];
  }

  lemma SameItem(x: Item, y: Item)
    requires ItemEntries(x) == ItemEntries(y) != []
    ensures x == y
  {
    assert ItemEntries(x)[0] == ItemEntries(y)[0];
    if x.MessageItem? {
      assert ItemEntries(x)[0] == ItemEntries(y)[0];
      forall i | 0 <= i < |x.texts| ensures x.texts[i] == y.texts[i] {
        assert ItemEntries(x)[i] == ItemEntries(y)[i];
      }
      assert x.texts == y.texts;
    } else {
      assert ItemEntries(x)[0] == ItemEntries(y)[0];
    }
  }

  lemma LastEntryKind(a: seq<Item>)
    requires Grouped(a) && a != []
    ensures Expand(a) != [] && (Expand(a)[|Expand(a)| - 1].Said? <==> a[|a| - 1].MessageItem?)
  {
    var x, rest := ItemEntries(a[|a| - 1]), Expand(a[..|a| - 1]);
    assert x != [] && Expand(a)[|Expand(a)| - 1] == x[|x| - 1];
  }

  lemma InLastGroup(b: seq<Item>)
    requires Grouped(b) && b != []
    ensures forall k :: |Expand(b)| - |ItemEntries(b[|b| - 1])| <= k < |Expand(b)| ==>
              (Expand(b)[k].Said? <==> b[|b| - 1].MessageItem?)
  {
    var y, rest := ItemEntries(b[|b| - 1]), Expand(b[..|b| - 1]);
    assert forall k :: |rest| <= k < |Expand(b)| ==> Expand(b)[k] == y[k - |rest|];
  }

  /** Before a last group of texts there is no text. */
  lemma BeforeLastGroup(a: seq<Item>)
    requires Grouped(a) && a != []
    ensures var k := |Expand(a)| - |ItemEntries(a[|a| - 1])|;
            0 <= k && (k > 0 && a[|a| - 1].MessageItem? ==> !Expand(a)[k - 1].Said?)
  {
    var init := a[..|a| - 1];
    LastEntry(init);
    if init != [] {
      LastEntryKind(init);
      assert Expand(a)[|Expand(init)| - 1] == Expand(init)[|Expand(init)| - 1];
    }
  }

  /** A last group cannot be longer in one rendering than in another: the entry before it ends another group. */
  lemma LastGroupLength(a: seq<Item>, b: seq<Item>)
    requires a != [] && b != [] && Grouped(a) && Grouped(b) && Expand(a) == Expand(b)
    ensures |ItemEntries(a[|a| - 1])| >= |ItemEntries(b[|b| - 1])|
  {
    BeforeLastGroup(a);
    BeforeLastGroup(b);
    InLastGroup(b);
    LastEntryKind(a);
    LastEntryKind(b);
  }

  lemma Rejoined<T>(a: seq<T>, i: nat)
    requires i <= |a|
    ensures a[..i] + a[i..] == a
  {
  }

  lemma MessageRendersUnique(m: Message, a: seq<Item>, b: seq<Item>)
    requires RendersMessage(m, a) && RendersMessage(m, b)
    ensures a == b
  {
    hide Expand, Grouped, MessageEntries;
    GroupedUnique(a, b);
  }

  /** A transcript has exactly one rendering, so the contract of CodexResponseItems fixes its result. */
  lemma {:induction false} RendersUnique(ms: Transcript, a: seq<Item>, b: seq<Item>)
    requires Renders(ms, a) && Renders(ms, b)
    ensures a == b
    decreases ms
  {
    if ms != [] {
      hide RendersMessage;
      hide BlockEntries, BlocksEntries;
      var m, init := ms[|ms| - 1], ms[..|ms| - 1];
      var i :| 0 <= i <= |a| && RendersMessage(m, a[i..]) && Renders(init, a[..i]);
      var j :| 0 <= j <= |b| && RendersMessage(m, b[j..]) && Renders(init, b[..j]);
      MessageRendersUnique(m, a[i..], b[j..]);
      RendersUnique(init, a[..i], b[..j]);
      Rejoined(a, i);
      Rejoined(b, j);
    }
  }

  // ----- Calls and outputs match -----

  predicate MatchedAt(e: seq<Entry>, n: nat)
    requires n < |e|
  {
    match e[n]
    case Said(_, _, _) => true
    case Call(_, _, id) => exists k :: n < k < |e| && e[k].Output? && e[k].id == id
    case Output(id, _) => exists k :: 0 <= k < n && e[k].Call? && e[k].id == id
  }

  /** Every call has a later output and every output an earlier call with the same id. */
  predicate Matched(e: seq<Entry>) {
    forall n :: 0 <= n < |e| ==> MatchedAt(e, n)
  }

  /** The block `ms[message].content[block]`. */
  datatype Position = Position(message: nat, block: nat)

  predicate IsBlock(ms: Transcript, p: Position) {
    p.message < |ms| && p.block < |ms[p.message].content|
  }

  function BlockAt(ms: Transcript, p: Position): Block
    requires IsBlock(ms, p)
  {
    ms[p.message].content[p.block]
  }

  predicate Precedes(p: Position, q: Position) {
    p.message < q.message || (p.message == q.message && p.block < q.block)
  }

  predicate IsCall(ms: Transcript, p: Position) {
    IsBlock(ms, p) && BlockAt(ms, p).kind == TOOL_USE && BlockAt(ms, p).id != ""
  }

  predicate IsOutput(ms: Transcript, q: Position) {
    IsBlock(ms, q) && BlockAt(ms, q).kind == TOOL_RESULT && BlockAt(ms, q).toolUseId != ""
  }

  /** The tool result at `q` answers the earlier tool use at `p`. */
  predicate Answers(ms: Transcript, p: Position, q: Position) {
    IsCall(ms, p) && IsOutput(ms, q) && BlockAt(ms, p).id == BlockAt(ms, q).toolUseId && Precedes(p, q)
  }

  ghost predicate HasAnswer(ms: Transcript, p: Position) {
    exists q :: Answers(ms, p, q)
  }

  ghost predicate HasCall(ms: Transcript, q: Position) {
    exists p :: Answers(ms, p, q)
  }

  // ----- Blocks and their entries stand in the same order -----

  /** How many entries stand before those of block `p`. */
  function EntryIndex(ms: Transcript, p: Position): nat
    requires IsBlock(ms, p)
  {
    |Entries(ms[..p.message])| + |BlocksEntries(ms[p.message], ms[p.message].content[..p.block])|
  }

  lemma {:induction false} EntriesPrefix(ms: Transcript, i: nat)
    requires i <= |ms|
    ensures Entries(ms[..i]) <= Entries(ms)
    ensures i < |ms| ==> Entries(ms[..i]) + MessageEntries(ms[i]) <= Entries(ms)
  {
    if i == |ms| {
      assert ms[..i] == ms;
    } else if i < |ms| - 1 {
      EntriesPrefix(ms[..|ms| - 1], i);
      assert ms[..|ms| - 1][..i] == ms[..i];
    }
  }

  lemma {:induction false} BlocksPrefix(m: Message, bs: seq<Block>, j: nat)
    requires j < |bs|
    ensures BlocksEntries(m, bs[..j]) + BlockEntries(m, bs[j]) <= BlocksEntries(m, bs)
  {
    var init := bs[..|bs| - 1];
    if j < |init| {
      BlocksPrefix(m, init, j);
      assert init[..j] == bs[..j];
    }
  }

  lemma EntryIndexBounds(ms: Transcript, p: Position)
    requires IsBlock(ms, p)
    ensures var m := ms[p.message];
            EntryIndex(ms, p) + |BlockEntries(m, BlockAt(ms, p))| <= |Entries(ms[..p.message])| + |MessageEntries(m)|
  {
    BlocksPrefix(ms[p.message], ms[p.message].content, p.block);
  }

  lemma EntryAt(ms: Transcript, p: Position)
    requires IsBlock(ms, p) && |BlockEntries(ms[p.message], BlockAt(ms, p))| == 1
    ensures EntryIndex(ms, p) < |Entries(ms)|
    ensures Entries(ms)[EntryIndex(ms, p)] == BlockEntries(ms[p.message], BlockAt(ms, p))[0]
  {
    hide Entries, BlocksEntries, BlockEntries;
    var m, before := ms[p.message], Entries(ms[..p.message]);
    var own := BlocksEntries(m, m.content[..p.block]);
    BlocksPrefix(m, m.content, p.block);
    EntriesPrefix(ms, p.message);
    assert (own + BlockEntries(m, m.content[p.block]))[|own|] == MessageEntries(m)[|own|];
    assert (before + MessageEntries(m))[|before| + |own|] == Entries(ms)[|before| + |own|];
  }

  lemma EntryOrder(ms: Transcript, p: Position, q: Position)
    requires IsBlock(ms, p) && IsBlock(ms, q) && Precedes(p, q)
    requires |BlockEntries(ms[p.message], BlockAt(ms, p))| == 1
    ensures EntryIndex(ms, p) < EntryIndex(ms, q)
  {
    hide Entries, BlocksEntries, BlockEntries;
    if p.message < q.message {
      EntryIndexBounds(ms, p);
      EntriesPrefix(ms[..q.message], p.message);
      assert ms[..q.message][..p.message] == ms[..p.message];
    } else {
      var m, upto := ms[p.message], ms[p.message].content[..q.block];
      BlocksPrefix(m, upto, p.block);
      assert upto[..p.block] == m.content[..p.block];
    }
  }

  lemma {:induction false} BlockSource(m: Message, bs: seq<Block>, n: nat) returns (j: nat)
    requires n < |BlocksEntries(m, bs)|
    ensures j < |bs| && n == |BlocksEntries(m, bs[..j])| && BlockEntries(m, bs[j]) == [BlocksEntries(m, bs)[n]]
  {
    var init := bs[..|bs| - 1];
    if n >= |BlocksEntries(m, init)| {
      j := |bs| - 1;
    } else {
      j := BlockSource(m, init, n);
      assert init[..j] == bs[..j];
    }
  }

  /** The block that says entry `n`. */
  lemma {:induction false} EntrySource(ms: Transcript, n: nat) returns (p: Position)
    requires n < |Entries(ms)|
    ensures IsBlock(ms, p) && EntryIndex(ms, p) == n && BlockEntries(ms[p.message], BlockAt(ms, p)) == [Entries(ms)[n]]
  {
    var init, last := ms[..|ms| - 1], ms[|ms| - 1];
    assert Entries(ms) == Entries(init) + MessageEntries(last);
    hide Entries, BlocksEntries, BlockEntries;
    if n >= |Entries(init)| {
      var j := BlockSource(last, last.content, n - |Entries(init)|);
      p := Position(|ms| - 1, j);
    } else {
      p := EntrySource(init, n);
      assert init[..p.message] == ms[..p.message];
    }
  }

  lemma OrderFromEntries(ms: Transcript, p: Position, q: Position)
    requires IsBlock(ms, p) && IsBlock(ms, q) && EntryIndex(ms, p) < EntryIndex(ms, q)
    requires |BlockEntries(ms[q.message], BlockAt(ms, q))| == 1
    ensures Precedes(p, q)
  {
    if Precedes(q, p) {
      EntryOrder(ms, q, p);
    }
  }

  lemma ToolEntries(ms: Transcript, p: Position)
    requires IsBlock(ms, p)
    ensures var es := BlockEntries(ms[p.message], BlockAt(ms, p));
            && (IsCall(ms, p) ==> |es| == 1 && es[0].Call? && es[0].id == BlockAt(ms, p).id)
            && (IsOutput(ms, p) ==> |es| == 1 && es[0].Output? && es[0].id == BlockAt(ms, p).toolUseId)
            && (|es| == 1 && es[0].Call? ==> IsCall(ms, p))
            && (|es| == 1 && es[0].Output? ==> IsOutput(ms, p))
  {
  }

  lemma AnswerMatched(ms: Transcript, p: Position, q: Position)
    requires Answers(ms, p, q)
    ensures EntryIndex(ms, p) < |Entries(ms)| && MatchedAt(Entries(ms), EntryIndex(ms, p))
    ensures EntryIndex(ms, q) < |Entries(ms)| && MatchedAt(Entries(ms), EntryIndex(ms, q))
  {
    hide Entries, EntryIndex, BlockEntries;
    ToolEntries(ms, p);
    ToolEntries(ms, q);
    EntryAt(ms, p);
    EntryAt(ms, q);
    EntryOrder(ms, p, q);
  }

  lemma CallHasAnswer(ms: Transcript, p: Position)
    requires Matched(Entries(ms)) && IsCall(ms, p)
    ensures HasAnswer(ms, p)
  {
    hide Entries, EntryIndex, BlockEntries;
    ToolEntries(ms, p);
    EntryAt(ms, p);
    assert MatchedAt(Entries(ms), EntryIndex(ms, p));
    var k :| EntryIndex(ms, p) < k < |Entries(ms)| && Entries(ms)[k].Output? && Entries(ms)[k].id == BlockAt(ms, p).id;
    var q := EntrySource(ms, k);
    ToolEntries(ms, q);
    OrderFromEntries(ms, p, q);
    assert Answers(ms, p, q);
  }

  lemma OutputHasCall(ms: Transcript, q: Position)
    requires Matched(Entries(ms)) && IsOutput(ms, q)
    ensures HasCall(ms, q)
  {
    hide Entries, EntryIndex, BlockEntries;
    ToolEntries(ms, q);
    EntryAt(ms, q);
    assert MatchedAt(Entries(ms), EntryIndex(ms, q));
    var k :| 0 <= k < EntryIndex(ms, q) && Entries(ms)[k].Call? && Entries(ms)[k].id == BlockAt(ms, q).toolUseId;
    var p := EntrySource(ms, k);
    ToolEntries(ms, p);
    OrderFromEntries(ms, p, q);
    assert Answers(ms, p, q);
  }

  lemma EntryMatched(ms: Transcript, n: nat)
    requires n < |Entries(ms)|
    requires forall p :: IsCall(ms, p) ==> HasAnswer(ms, p)
    requires forall q :: IsOutput(ms, q) ==> HasCall(ms, q)
    ensures MatchedAt(Entries(ms), n)
  {
    hide Entries, EntryIndex, BlockEntries;
    var p := EntrySource(ms, n);
    ToolEntries(ms, p);
    if IsCall(ms, p) {
      var q :| Answers(ms, p, q);
      AnswerMatched(ms, p, q);
    } else if IsOutput(ms, p) {
      var q :| Answers(ms, q, p);
      AnswerMatched(ms, q, p);
    }
  }

  /** Replay keeps order and ids: entries match exactly if every tool use has a later result and every result an
  earlier use. */
  lemma MatchedIffAnswered(ms: Transcript)
    ensures Matched(Entries(ms)) <==>
            (forall p :: IsCall(ms, p) ==> HasAnswer(ms, p)) && (forall q :: IsOutput(ms, q) ==> HasCall(ms, q))
  {
    hide Entries, HasAnswer, HasCall, IsCall, IsOutput;
    if Matched(Entries(ms)) {
      forall p | IsCall(ms, p) ensures HasAnswer(ms, p) {
        CallHasAnswer(ms, p);
      }
      forall q | IsOutput(ms, q) ensures HasCall(ms, q) {
        OutputHasCall(ms, q);
      }
    } else {
      var n :| 0 <= n < |Entries(ms)| && !MatchedAt(Entries(ms), n);
      if (forall p :: IsCall(ms, p) ==> HasAnswer(ms, p)) && (forall q :: IsOutput(ms, q) ==> HasCall(ms, q)) {
        EntryMatched(ms, n);
      }
    }
  }

  // ----- Strays -----

  /** A tool use outside an assistant message: pairing says nothing about it. */
  predicate StrayCall(ms: Transcript, p: Position) {
    IsCall(ms, p) && ms[p.message].role != ASSISTANT
  }

  /** A tool result inside an assistant message: pairing says nothing about it. */
  predicate StrayOutput(ms: Transcript, q: Position) {
    IsOutput(ms, q) && ms[q.message].role == ASSISTANT
  }

  /** Pairing partners every other tool block. */
  lemma PairedAnswers(ms: Transcript, p: Position)
    requires Paired(ms)
    ensures IsCall(ms, p) && !StrayCall(ms, p) ==> HasAnswer(ms, p)
    ensures IsOutput(ms, p) && !StrayOutput(ms, p) ==> HasCall(ms, p)
  {
    if IsBlock(ms, p) {
      var i, b := p.message, BlockAt(ms, p);
      assert PairedAt(None, ms, i) && b in ms[i].content;
      if IsCall(ms, p) && !StrayCall(ms, p) {
        var r :| r in ms[i + 1].content && r.kind == TOOL_RESULT && r.toolUseId == b.id;
        var j :| 0 <= j < |ms[i + 1].content| && ms[i + 1].content[j] == r;
        assert Answers(ms, p, Position(i + 1, j));
      }
      if IsOutput(ms, p) && !StrayOutput(ms, p) {
        var u :| u in ms[i - 1].content && u.kind == TOOL_USE && u.id == b.toolUseId;
        var j :| 0 <= j < |ms[i - 1].content| && ms[i - 1].content[j] == u;
        assert Answers(ms, Position(i - 1, j), p);
      }
    }
  }

  /** On a paired transcript, calls and outputs match exactly if each tool use outside the assistant messages has a
  tool result with its id further on, and each tool result inside them an earlier tool use. */
  lemma MatchedIffStraysPartnered(ms: Transcript)
    requires Paired(ms)
    ensures Matched(Entries(ms)) <==>
            (forall p :: StrayCall(ms, p) ==> HasAnswer(ms, p)) && (forall q :: StrayOutput(ms, q) ==> HasCall(ms, q))
  {
    hide Entries, Matched, HasAnswer, HasCall;
    MatchedIffAnswered(ms);
    forall p ensures (IsCall(ms, p) && !StrayCall(ms, p) ==> HasAnswer(ms, p))
                     && (IsOutput(ms, p) && !StrayOutput(ms, p) ==> HasCall(ms, p)) {
      PairedAnswers(ms, p);
    }
  }

  /** Tool uses stay in assistant messages and tool results outside them, as every provider turn produces them. */
  predicate RolesKept(ms: Transcript) {
    forall m, b :: m in ms && b in m.content ==>
      (b.kind == TOOL_USE ==> m.role == ASSISTANT) && (b.kind == TOOL_RESULT ==> m.role != ASSISTANT)
  }

  lemma PairedReplayMatches(ms: Transcript)
    requires Paired(ms) && RolesKept(ms)
    ensures Matched(Entries(ms))
  {
    hide Matched;
    forall p ensures !StrayCall(ms, p) && !StrayOutput(ms, p) {
      if IsBlock(ms, p) {
        assert ms[p.message] in ms && BlockAt(ms, p) in ms[p.message].content;
      }
    }
    MatchedIffStraysPartnered(ms);
  }

  lemma OnlyEntry(m: Message, b: Block)
    requires m.content == [b]
    ensures MessageEntries(m) == BlockEntries(m, b)
  {
    assert m.content[..0] == [] && BlocksEntries(m, m.content[..0]) == [];
  }

  // ----- The native turn -----

  /** The prompt is the non-empty texts of the closing message, one per line. */
  function JoinedText(bs: seq<Block>): string {
    if bs == [] then ""
    else
      var t, b := JoinedText(bs[..|bs| - 1]), bs[|bs| - 1];
      if b.text == "" then t else if t == "" then b.text else t + "\n" + b.text
  }

  /** Non-empty texts are joined in order by line ends. */
  lemma {:induction false} JoinedConcat(a: seq<Block>, b: seq<Block>)
    ensures var s, t := JoinedText(a), JoinedText(b);
            JoinedText(a + b) == if s == "" then t else if t == "" then s else s + "\n" + t
  {
    if b == [] {
      assert a + b == a;
    } else {
      var init := b[..|b| - 1];
      JoinedConcat(a, init);
      assert (a + b)[..|a + b| - 1] == a + init;
    }
  }

  predicate EndsInUserText(history: Transcript) {
    && history != []
    && history[|history| - 1].role != ASSISTANT
    && (forall b :: b in history[|history| - 1].content ==> b.kind == TEXT)
    && TrimSpace(JoinedText(history[|history| - 1].content)) != ""
  }

  datatype NativeTurn = NativeTurn(items: seq<Item>, prompt: string)

  /** The native turn of a history: its closing text is the prompt, and the items say what everything before it says. */
  predicate Replays(history: Transcript, turn: NativeTurn) {
    && EndsInUserText(history)
    && turn.prompt == TrimSpace(JoinedText(history[|history| - 1].content))
    && Expand(turn.items) == Entries(history[..|history| - 1])
    && Renders(history[..|history| - 1], turn.items)
  }

  /** A native turn exists exactly when the transcript ends in a plain user text; it replays everything before it. */
  method CodexNativeTurn(history: Transcript) returns (turn: Option<NativeTurn>)
    ensures turn.Some? <==> EndsInUserText(history)
    ensures turn.Some? ==> Replays(history, turn.value)
  {
    if |history| == 0 {
      return None;
    }
    var last := history[|history| - 1];
    if last.role == ASSISTANT {
      return None;
    }
    var text := "";
    for i := 0 to |last.content|
      invariant text == JoinedText(last.content[..i])
      invariant forall j :: 0 <= j < i ==> last.content[j].kind == TEXT
    {
      var block := last.content[i];
      assert last.content[..i + 1][..i] == last.content[..i];
      if block.kind != TEXT {
        return None;
      }
      if block.text != "" {
        if |text| > 0 {
          text := text + "\n";
        }
        text := text + block.text;
      }
    }
    assert last.content[..|last.content|] == last.content;
    var prompt := TrimSpace(text);
    if prompt == "" {
      return None;
    }
    var items := CodexResponseItems(history[..|history| - 1]);
    turn := Some(NativeTurn(items, prompt));
  }

  /** The closing user text answers nothing, so what precedes it is paired on its own. */
  lemma PriorIsPaired(history: Transcript)
    requires Paired(history) && EndsInUserText(history)
    ensures Paired(history[..|history| - 1])
  {
    var prior, last := history[..|history| - 1], history[|history| - 1];
    NothingAnsweredIff(last);
    forall i | 0 <= i < |prior| ensures PairedAt(None, prior, i) {
      assert PairedAt(None, history, i);
      if i == |prior| - 1 {
        assert At(history, i + 1) == Some(last);
      }
    }
  }

  /** In the items of a native turn every call has a later output and every output an earlier call. */
  lemma NativeReplayMatches(history: Transcript, turn: NativeTurn)
    requires Paired(history) && RolesKept(history) && Replays(history, turn)
    ensures Matched(Expand(turn.items))
  {
    PriorIsPaired(history);
    PairedReplayMatches(history[..|history| - 1]);
  }

  // ----- Where matching fails -----

  /** A message with this one block, then a question. */
  function Asked(role: string, b: Block): Transcript {
    [Message(role, [b]), TextMessage(USER, "?")]
  }

  /** Without that discipline it fails: sanitising keeps a tool use in a user message and a tool result in an assistant
  message, and every native turn replays the one as a call nobody answers, the other as an output nobody asked for. */
  lemma StraysUnmatched(json: JsonCheck) returns (withCall: Transcript, withOutput: Transcript)
    ensures forall h :: h == withCall || h == withOutput ==>
              && Sanitize(json, h) == h && EndsInUserText(h)
              && forall turn :: Replays(h, turn) ==> !Matched(Expand(turn.items))
  {
    hide Asked, EndsInUserText, Sanitize, Matched, Entries, Expand, Bounded, BoundFixed;
    var call := EMPTY_BLOCK.(kind := TOOL_USE, id := "call");
    var output := EMPTY_BLOCK.(kind := TOOL_RESULT, toolUseId := "call");
    withCall, withOutput := Asked(USER, call), Asked(ASSISTANT, output);
    NamesFixed();
    ToolBlockFixed(json, TOOL_USE, "call", "");
    ToolBlockFixed(json, TOOL_RESULT, "", "call");
    LoneStray(json, USER, call);
    LoneStray(json, ASSISTANT, output);
  }

  lemma NamesFixed()
    ensures Bounded("call", MAX_IDENTIFIER_BYTES) == "call" && Bounded("", MAX_IDENTIFIER_BYTES) == ""
    ensures Bounded(USER, MAX_IDENTIFIER_BYTES) == USER && Bounded(ASSISTANT, MAX_IDENTIFIER_BYTES) == ASSISTANT
    ensures Bounded(TOOL_USE, MAX_IDENTIFIER_BYTES) == TOOL_USE
    ensures Bounded(TOOL_RESULT, MAX_IDENTIFIER_BYTES) == TOOL_RESULT
  {
    hide Bounded;
    AsciiFixed("call", MAX_IDENTIFIER_BYTES);
    AsciiFixed("", MAX_IDENTIFIER_BYTES);
    AsciiFixed(USER, MAX_IDENTIFIER_BYTES);
    AsciiFixed(ASSISTANT, MAX_IDENTIFIER_BYTES);
    AsciiFixed(TOOL_USE, MAX_IDENTIFIER_BYTES);
    AsciiFixed(TOOL_RESULT, MAX_IDENTIFIER_BYTES);
  }

  /** A tool use outside an assistant message or a tool result inside one. */
  predicate OutOfPlace(role: string, b: Block) {
    || (b.kind == TOOL_USE && b.id != "" && role != ASSISTANT)
    || (b.kind == TOOL_RESULT && b.toolUseId != "" && role == ASSISTANT)
  }

  lemma LoneStray(json: JsonCheck, role: string, b: Block)
    requires Bounded(role, MAX_IDENTIFIER_BYTES) == role && BoundFixed(json, b) && OutOfPlace(role, b)
    ensures var h := Asked(role, b); Sanitize(json, h) == h && EndsInUserText(h) && !Matched(Entries(h[..|h| - 1]))
  {
    var h, m := Asked(role, b), Message(role, [b]);
    hide Bounded, BoundFixed, Sanitize, Normal, Matched, Entries;
    AskedIsNormal(json, role, b);
    SanitizeFixedIff(json, h);
    LoneUnmatched(m) by { assert BlockAt([m], Position(0, 0)) == b; }
    AskedEndsInText(role, b);
  }

  lemma AskedEndsInText(role: string, b: Block)
    ensures EndsInUserText(Asked(role, b)) && Asked(role, b)[..1] == [Message(role, [b])]
  {
    hide TrimSpace, JoinedText;
    QuestionIsText();
    assert Asked(role, b)[1].content == [TextBlock("?")];
  }

  lemma QuestionIsText()
    ensures TrimSpace(JoinedText([TextBlock("?")])) == "?"
  {
    hide TrimSpace, TrimLeft, TrimRight, JoinedText;
    OneText(TextBlock("?"));
    NothingToTrim("?");
  }

  lemma NothingToTrim(s: string)
    requires SpaceAtStart(s) == 0 && SpaceAtEnd(s) == 0
    ensures TrimSpace(s) == s
  {
  }

  lemma OneText(b: Block)
    ensures JoinedText([b]) == b.text
  {
    assert [b][..0] == [];
  }

  lemma LoneUnmatched(m: Message)
    requires |m.content| == 1 && (IsCall([m], Position(0, 0)) || IsOutput([m], Position(0, 0)))
    ensures !Matched(Entries([m]))
  {
    hide Matched, Entries;
    MatchedIffAnswered([m]);
    assert !HasAnswer([m], Position(0, 0)) && !HasCall([m], Position(0, 0));
  }

  lemma AskedIsNormal(json: JsonCheck, role: string, b: Block)
    requires Bounded(role, MAX_IDENTIFIER_BYTES) == role && BoundFixed(json, b) && OutOfPlace(role, b)
    ensures Normal(json, Asked(role, b))
  {
    hide Bounded, BoundFixed, Paired, OutOfPlace;
    AsciiFixed("?", MAX_TEXT_BYTES);
    TextBlockFixed(json, "?");
    NamesFixed();
    AskedIsPaired(role, b);
  }

  lemma AskedIsPaired(role: string, b: Block)
    requires OutOfPlace(role, b)
    ensures Paired(Asked(role, b))
  {
    var h := Asked(role, b);
    hide Answered, Called;
    assert UsesAnswered(h[0], At(h, 1)) && ResultsCalled(None, h[0]);
    assert UsesAnswered(h[1], None) && ResultsCalled(Some(h[0]), h[1]);
    assert PairedAt(None, h, 0) && PairedAt(None, h, 1);
  }

  lemma ToolBlockFixed(json: JsonCheck, kind: string, id: string, toolUseId: string)
    requires kind == TOOL_USE || kind == TOOL_RESULT
    requires Bounded(id, MAX_IDENTIFIER_BYTES) == id && Bounded(toolUseId, MAX_IDENTIFIER_BYTES) == toolUseId
    ensures BoundFixed(json, EMPTY_BLOCK.(kind := kind, id := id, toolUseId := toolUseId))
  {
    hide Bounded, BoundFixed;
    var b := EMPTY_BLOCK.(kind := kind, id := id, toolUseId := toolUseId);
    NamesFixed();
    AsciiFixed("", MAX_TEXT_BYTES);
    AsciiFixed("", MAX_TOOL_RESULT_BYTES);
    assert !IsOpaque(b) by { ToolKinds(kind); }
    hide IsOpaque;
    OrdinaryBlockFixed(json, b);
  }

  lemma ToolKinds(kind: string)
    requires kind == TOOL_USE || kind == TOOL_RESULT
    ensures !IsOpaqueKind(kind)
  {
  }

  // ----- Signed blocks -----

  /** A non-empty text, or a tool block with an id: replay looks at the type of a block and not at its signature. */
  predicate Speaks(b: Block) {
    || (b.kind == TEXT && b.text != "")
    || (b.kind == TOOL_USE && b.id != "")
    || (b.kind == TOOL_RESULT && b.toolUseId != "")
  }

  function WithoutOpaque(bs: seq<Block>): seq<Block> {
    if bs == [] then []
    else WithoutOpaque(bs[..|bs| - 1]) + if IsOpaque(bs[|bs| - 1]) then [] else [bs[|bs| - 1]]
  }

  function MessagesWithoutOpaque(ms: Transcript): (r: Transcript)
    ensures |r| == |ms|
  {
    seq(|ms|, i requires 0 <= i < |ms| => ms[i].(content := WithoutOpaque(ms[i].content)))
  }

  predicate SaysOpaque(ms: Transcript) {
    exists m, b :: m in ms && b in m.content && IsOpaque(b) && Speaks(b)
  }

  lemma {:induction false} BlocksWithoutOpaque(m: Message, m': Message, bs: seq<Block>)
    requires m'.role == m.role
    ensures |BlocksEntries(m', WithoutOpaque(bs))| <= |BlocksEntries(m, bs)|
    ensures |BlocksEntries(m', WithoutOpaque(bs))| == |BlocksEntries(m, bs)| <==>
            forall b :: b in bs && IsOpaque(b) ==> !Speaks(b)
    ensures (forall b :: b in bs && IsOpaque(b) ==> !Speaks(b)) ==>
              BlocksEntries(m', WithoutOpaque(bs)) == BlocksEntries(m, bs)
  {
    hide IsOpaque;
    if bs != [] {
      var init, last := bs[..|bs| - 1], bs[|bs| - 1];
      BlocksWithoutOpaque(m, m', init);
      SpeaksIff(m, last);
      assert forall b :: b in bs <==> b in init || b == last;
      LastBlockEntries(m', WithoutOpaque(init), last);
      assert BlockEntries(m', last) == BlockEntries(m, last);
      assert WithoutOpaque(init) + [] == WithoutOpaque(init);
      hide BlockEntries, Speaks;
    }
  }

  lemma SpeaksIff(m: Message, b: Block)
    ensures |BlockEntries(m, b)| == if Speaks(b) then 1 else 0
  {
  }

  lemma LastBlockEntries(m: Message, bs: seq<Block>, b: Block)
    ensures BlocksEntries(m, bs + [b]) == BlocksEntries(m, bs) + BlockEntries(m, b)
  {
    assert (bs + [b])[..|bs|] == bs;
  }

  /** Leaving the signed blocks out changes nothing that is replayed exactly if none of them is a non-empty text or a
  tool block with an id. */
  lemma {:induction false} OpaqueSkippedIff(ms: Transcript)
    ensures |Entries(MessagesWithoutOpaque(ms))| <= |Entries(ms)|
    ensures Entries(MessagesWithoutOpaque(ms)) == Entries(ms) <==> !SaysOpaque(ms)
    ensures |Entries(MessagesWithoutOpaque(ms))| == |Entries(ms)| <==> !SaysOpaque(ms)
  {
    hide IsOpaque, Speaks, BlocksEntries, WithoutOpaque;
    if ms != [] {
      var n := |ms| - 1;
      var m, m' := ms[n], MessagesWithoutOpaque(ms)[n];
      assert MessagesWithoutOpaque(ms)[..n] == MessagesWithoutOpaque(ms[..n]);
      OpaqueSkippedIff(ms[..n]);
      BlocksWithoutOpaque(m, m', m.content);
      assert SaysOpaque(ms) <==> SaysOpaque(ms[..n]) || exists b :: b in m.content && IsOpaque(b) && Speaks(b) by {
        assert forall x :: x in ms <==> x in ms[..n] || x == m;
      }
    }
  }

  /** A signed tool use, as Gemini sends them, its result and a question. */
  function SignedCall(): Transcript {
    [Message(ASSISTANT, [EMPTY_BLOCK.(kind := TOOL_USE, id := "call", thoughtSignature := "s")]),
     Message(USER, [EMPTY_BLOCK.(kind := TOOL_RESULT, toolUseId := "call")]),
     TextMessage(USER, "?")]
  }

  /** Signed blocks are not always skipped: in this sanitised history the signed call is replayed. */
  lemma SignedCallIsReplayed(json: JsonCheck)
    ensures var h := SignedCall();
            && Sanitize(json, h) == h && EndsInUserText(h) && SaysOpaque(h[..|h| - 1])
            && forall turn :: Replays(h, turn) ==> Call("", "{}", "call") in Expand(turn.items)
  {
    hide Bounded, BoundFixed, Sanitize, TrimSpace, JoinedText;
    var h := SignedCall();
    SignedCallIsNormal(json);
    SanitizeFixedIff(json, h);
    QuestionIsText();
    assert h[2].content == [TextBlock("?")];
    SignedEntry(h[..|h| - 1]);
  }

  lemma SignedEntry(prior: Transcript)
    requires prior == SignedCall()[..2]
    ensures SaysOpaque(prior) && Call("", "{}", "call") in Entries(prior)
  {
    var p := Position(0, 0);
    var b := prior[0].content[0];
    assert b in prior[0].content && prior[0] in prior && IsOpaque(b) && Speaks(b);
    hide Entries, EntryIndex;
    EntryAt(prior, p);
  }

  lemma SignedCallIsNormal(json: JsonCheck)
    ensures Normal(json, SignedCall())
  {
    hide Bounded, BoundFixed, Paired;
    var h := SignedCall();
    NamesFixed();
    AsciiFixed("?", MAX_TEXT_BYTES);
    TextBlockFixed(json, "?");
    ToolBlockFixed(json, TOOL_RESULT, "", "call");
    SignedBlockFixed(json, h[0].content[0]);
    SignedCallIsPaired();
  }

  lemma SignedBlockFixed(json: JsonCheck, b: Block)
    requires IsOpaque(b) && !OpaqueRejected(json, b)
    ensures BoundFixed(json, b)
  {
  }

  lemma SignedCallIsPaired()
    ensures Paired(SignedCall())
  {
    var h := SignedCall();
    assert h[0].content[0] in h[0].content && h[1].content[0] in h[1].content;
    assert "call" in Answered(At(h, 1)) && "call" in Called(At(h, 0));
    hide Answered, Called;
    assert PairedAt(None, h, 0) && PairedAt(None, h, 1) && PairedAt(None, h, 2);
  }

  lemma {:induction false} EntriesConcat(a: Transcript, b: Transcript)
    ensures Entries(a + b) == Entries(a) + Entries(b)
  {
    if b == [] {
      assert a + b == a;
    } else {
      var init := b[..|b| - 1];
      EntriesConcat(a, init);
      assert (a + b)[..|a + b| - 1] == a + init;
      ConcatAssociative(Entries(a), Entries(init), MessageEntries(b[|b| - 1]));
    }
  }
}
