/** cloneTranscript on the heap: slices shared by reference never connect the store with its callers. */
module Cloning {
  import opened Options
  import Utf8
  import opened Transcripts

  /** A transcriptBlock in memory: its strings are values, its two byte slices are references (null for nil). */
  datatype HeapBlock = HeapBlock(values: Block, input: array?<char>, thoughtSignature: array?<char>)

  datatype HeapMessage = HeapMessage(role: string, content: array?<HeapBlock>)

  const ZERO_BLOCK := HeapBlock(EMPTY_BLOCK, null, null)
  const ZERO_MESSAGE := HeapMessage("", null)

  /** The backing arrays some party can reach. */
  datatype Region = Region(messages: set<array<HeapMessage>>, blocks: set<array<HeapBlock>>, bytes: set<array<char>>)

  function Union(a: Region, b: Region): Region {
    Region(a.messages + b.messages, a.blocks + b.blocks, a.bytes + b.bytes)
  }

  predicate Apart(a: Region, b: Region) {
    a.messages !! b.messages && a.blocks !! b.blocks && a.bytes !! b.bytes
  }

  predicate BlockIn(r: Region, b: HeapBlock) {
    (b.input != null ==> b.input in r.bytes) && (b.thoughtSignature != null ==> b.thoughtSignature in r.bytes)
  }

  predicate MessageIn(r: Region, m: HeapMessage) {
    m.content != null ==> m.content in r.blocks
  }

  ghost predicate BlocksClosed(r: Region)
    reads r.blocks
  {
    forall c, j :: c in r.blocks && 0 <= j < c.Length ==> BlockIn(r, c[j])
  }

  /** Nothing in the region points out of it. */
  ghost predicate Closed(r: Region)
    reads r.messages, r.blocks
  {
    BlocksClosed(r) && forall t, i :: t in r.messages && 0 <= i < t.Length ==> MessageIn(r, t[i])
  }

  // ----- What a transcript in memory says -----

  ghost function BlockView(b: HeapBlock): Block
    reads b.input, b.thoughtSignature
  {
    b.values.(input := if b.input == null then None else Some(b.input[..]),
              thoughtSignature := if b.thoughtSignature == null then "" else b.thoughtSignature[..])
  }

  ghost function ContentView(r: Region, c: array?<HeapBlock>): (v: seq<Block>)
    requires BlocksClosed(r) && (c != null ==> c in r.blocks)
    reads r.blocks, r.bytes
    ensures |v| == Len(c) && forall j :: 0 <= j < Len(c) ==> v[j] == BlockView(c[j])
  {
    seq(Len(c), j requires 0 <= j < Len(c) && BlocksClosed(r) reads r.blocks, r.bytes => BlockView(c[j]))
  }

  function Len(c: array?<HeapBlock>): nat {
    if c == null then 0 else c.Length
  }

  ghost function MessageView(r: Region, m: HeapMessage): Message
    requires BlocksClosed(r) && MessageIn(r, m)
    reads r.blocks, r.bytes
  {
    Message(m.role, ContentView(r, m.content))
  }

  ghost function View(r: Region, t: array<HeapMessage>): (v: Transcript)
    requires Closed(r) && t in r.messages
    reads r.messages, r.blocks, r.bytes
    ensures |v| == t.Length && forall i :: 0 <= i < t.Length ==> v[i] == MessageView(r, t[i])
  {
    seq(t.Length, i requires 0 <= i < t.Length && Closed(r) reads r.messages, r.blocks, r.bytes => MessageView(r, t[i]))
  }

  /** Copying with append turns an empty input into nil; nothing else changes. */
  function Copied(b: Block): Block {
    if b.input == Some("") then b.(input := None) else b
  }

  predicate CopyOfMessage(m: Message, copy: Message) {
    && copy.role == m.role && |copy.content| == |m.content|
    && forall j :: 0 <= j < |m.content| ==> copy.content[j] == Copied(m.content[j])
  }

  predicate CopyOf(ms: Transcript, copy: Transcript) {
    |copy| == |ms| && forall i :: 0 <= i < |ms| ==> CopyOfMessage(ms[i], copy[i])
  }

  /** A copy of a stored form is that stored form: it holds no empty input. */
  lemma CopyOfStored(json: JsonCheck, ms: Transcript, copy: Transcript)
    requires CopyOf(ms, copy) && forall m :: m in ms ==> MessageFixed(json, m)
    ensures copy == ms
  {
    hide BoundFixed, Utf8.Bounded;
    forall i | 0 <= i < |ms| ensures copy[i] == ms[i] {
      assert CopyOfMessage(ms[i], copy[i]) && ms[i] in ms;
      forall j | 0 <= j < |ms[i].content| ensures copy[i].content[j] == ms[i].content[j] {
        assert ms[i].content[j] in ms[i].content;
        BoundFixedIff(json, ms[i].content[j]);
      }
      assert copy[i].content == ms[i].content;
    }
  }

  // ----- Cloning -----

  /** append([]byte(nil), a...) */
  method CloneBytes(a: array?<char>) returns (copy: array?<char>)
    ensures copy == null <==> a == null || a[..] == ""
    ensures copy != null ==> fresh(copy) && copy[..] == a[..]
  {
    if a == null || a.Length == 0 {
      return null;
    }
    copy := new char[a.Length](i requires 0 <= i < a.Length reads a => a[i]);
  }

  method CloneBlock(b: HeapBlock) returns (copy: HeapBlock, ghost bytes: set<array<char>>)
    ensures fresh(bytes) && BlockIn(Region({}, {}, bytes), copy)
    ensures BlockView(copy) == Copied(BlockView(b))
  {
    var input := CloneBytes(b.input);
    var signature := CloneBytes(b.thoughtSignature);
    copy := b.(input := input, thoughtSignature := signature);
    bytes := (if input == null then {} else {input}) + (if signature == null then {} else {signature});
  }

  method CloneContent(ghost r: Region, c: array?<HeapBlock>)
    returns (copy: array?<HeapBlock>, ghost bytes: set<array<char>>)
    requires BlocksClosed(r) && (c != null ==> c in r.blocks)
    ensures fresh(bytes) && (copy != null ==> fresh(copy))
    ensures Len(copy) == Len(c)
    ensures forall j :: 0 <= j < Len(c) ==> BlockIn(Region({}, {}, bytes), copy[j])
    ensures forall j :: 0 <= j < Len(c) ==> BlockView(copy[j]) == Copied(old(BlockView(c[j])))
  {
    bytes := {};
    if c == null || c.Length == 0 {
      return null, {};
    }
    copy := new HeapBlock[c.Length](_ => ZERO_BLOCK);
    for j := 0 to c.Length
      invariant fresh(bytes) && fresh(copy)
      invariant forall k :: 0 <= k < j ==> BlockIn(Region({}, {}, bytes), copy[k])
      invariant forall k :: 0 <= k < j ==> BlockView(copy[k]) == Copied(old(BlockView(c[k])))
    {
      var block, own := CloneBlock(c[j]);
      bytes := bytes + own;
      copy[j] := block;
    }
  }

  method CloneMessage(ghost r: Region, m: HeapMessage) returns (copy: HeapMessage, ghost o: Region)
    requires BlocksClosed(r) && MessageIn(r, m)
    ensures o.messages == {} && fresh(o.blocks) && fresh(o.bytes) && BlocksClosed(o) && MessageIn(o, copy)
    ensures CopyOfMessage(old(MessageView(r, m)), MessageView(o, copy))
  {
    var content, bytes := CloneContent(r, m.content);
    copy := HeapMessage(m.role, content);
    o := Region({}, if content == null then {} else {content}, bytes);
  }

  lemma NothingOpen(r: Region)
    requires r.blocks == {}
    ensures BlocksClosed(r)
  {
  }

  lemma UnionClosed(a: Region, b: Region)
    requires BlocksClosed(a) && BlocksClosed(b)
    ensures BlocksClosed(Union(a, b))
  {
  }

  lemma LargerRegion(r: Region, r': Region, m: HeapMessage)
    requires BlocksClosed(r) && BlocksClosed(r') && r.blocks <= r'.blocks && r.bytes <= r'.bytes && MessageIn(r, m)
    ensures MessageIn(r', m) && MessageView(r, m) == MessageView(r', m)
  {
  }

  /** cloneTranscript */
  method CloneTranscript(ghost r: Region, t: array<HeapMessage>) returns (out: array<HeapMessage>, ghost o: Region)
    requires Closed(r) && t in r.messages
    ensures fresh(o.messages) && fresh(o.blocks) && fresh(o.bytes)
    ensures Closed(o) && out in o.messages
    ensures CopyOf(View(r, t), View(o, out))
  {
    hide CopyOfMessage, MessageView, BlocksClosed;
    out := new HeapMessage[t.Length](_ => ZERO_MESSAGE);
    o := Region({out}, {}, {});
    NothingOpen(o);
    for i := 0 to t.Length
      invariant o.messages == {out} && fresh(out) && fresh(o.blocks) && fresh(o.bytes) && BlocksClosed(o)
      invariant forall k :: 0 <= k < t.Length ==> MessageIn(o, out[k])
      invariant forall k :: 0 <= k < i ==> CopyOfMessage(old(MessageView(r, t[k])), MessageView(o, out[k]))
    {
      assert MessageIn(r, t[i]);
      var message, own := CloneMessage(r, t[i]);
      UnionClosed(o, own);
      forall k | 0 <= k < t.Length
        ensures MessageIn(Union(o, own), out[k])
        ensures MessageView(o, out[k]) == MessageView(Union(o, own), out[k])
      {
        LargerRegion(o, Union(o, own), out[k]);
      }
      LargerRegion(own, Union(o, own), message);
      o := Union(o, own);
      out[i] := message;
    }
  }

  // ----- The store and its callers -----

  /** The memory side of conversationStore: Put and Get clone what crosses the boundary. */
  class SharedStore {
    var entries: map<string, array<HeapMessage>>
    ghost var own: Region

    ghost predicate Valid()
      reads this, own.messages, own.blocks
    {
      Closed(own) && forall id :: id in entries ==> entries[id] in own.messages
    }

    constructor ()
      ensures Valid() && entries == map[] && own == Region({}, {}, {})
    {
      entries, own := map[], Region({}, {}, {});
    }

    /** What a Get of `id` would read. */
    ghost function Stored(id: string): Transcript
      requires Valid() && id in entries
      reads this, own.messages, own.blocks, own.bytes
    {
      View(own, entries[id])
    }

    method Put(ghost r: Region, id: string, t: array<HeapMessage>) returns (ghost o: Region)
      requires Valid() && Closed(r) && t in r.messages
      modifies this
      ensures Valid() && entries.Keys == old(entries.Keys) + {id}
      ensures own == Union(old(own), o) && fresh(o.messages) && fresh(o.blocks) && fresh(o.bytes)
      ensures CopyOf(old(View(r, t)), Stored(id))
      ensures forall k :: k in old(entries) && k != id ==> Stored(k) == old(Stored(k))
    {
      hide CopyOf, View, BlockIn;
      ghost var was := own;
      var copy;
      copy, o := CloneTranscript(r, t);
      assert Closed(was) && Closed(o);
      hide Closed;
      SameViews(own, o, entries);
      SameView(o, Union(own, o), copy);
      own := Union(own, o);
      entries := entries[id := copy];
    }

    method Delete(id: string)
      requires Valid()
      modifies this`entries
      ensures Valid() && entries == old(entries) - {id}
    {
      entries := entries - {id};
    }

    method Get(id: string) returns (t: array?<HeapMessage>, ghost r: Region)
      requires Valid()
      ensures t == null <==> id !in entries
      ensures fresh(r.messages) && fresh(r.blocks) && fresh(r.bytes) && Closed(r)
      ensures t != null ==> t in r.messages && CopyOf(Stored(id), View(r, t))
    {
      r := Region({}, {}, {});
      if id !in entries {
        return null, r;
      }
      t, r := CloneTranscript(own, entries[id]);
    }
  }

  lemma ClosedUnion(a: Region, b: Region)
    requires Closed(a) && Closed(b)
    ensures Closed(Union(a, b))
  {
  }

  lemma SameView(r: Region, r': Region, t: array<HeapMessage>)
    requires Closed(r) && Closed(r') && r.messages <= r'.messages && r.blocks <= r'.blocks && r.bytes <= r'.bytes
    requires t in r.messages
    ensures View(r, t) == View(r', t)
  {
    forall i | 0 <= i < t.Length ensures MessageView(r, t[i]) == MessageView(r', t[i]) {
      assert MessageIn(r, t[i]);
      LargerRegion(r, r', t[i]);
    }
  }

  lemma SameViews(r: Region, o: Region, entries: map<string, array<HeapMessage>>)
    requires Closed(r) && Closed(o) && forall k :: k in entries ==> entries[k] in r.messages
    ensures Closed(Union(r, o)) && forall k :: k in entries ==> View(r, entries[k]) == View(Union(r, o), entries[k])
  {
    ClosedUnion(r, o);
    forall k | k in entries ensures View(r, entries[k]) == View(Union(r, o), entries[k]) {
      SameView(r, Union(r, o), entries[k]);
    }
  }

  /** `Drop` is a Delete or an eviction. */
  datatype CallerOp = PutHeld(id: string, k: nat) | GetInto(id: string) | Drop(id: string) | Mutate

  predicate Within(r: Region, r': Region) {
    r.messages <= r'.messages && r.blocks <= r'.blocks && r.bytes <= r'.bytes
  }

  /** Callers may do anything to the arrays they can reach, make new ones, link them in, and keep new transcripts: the
  contract allows every change within the region and every extension of it by new arrays. */
  method MutateRegion(ghost r: Region) returns (ghost r': Region, more: seq<array<HeapMessage>>)
    requires Closed(r)
    modifies r.messages, r.blocks, r.bytes
    ensures Closed(r') && Within(r, r')
    ensures fresh(r'.messages - r.messages) && fresh(r'.blocks - r.blocks) && fresh(r'.bytes - r.bytes)
    ensures forall t :: t in more ==> t in r'.messages
  {
    r', more := r, [];
  }

  method HoldWhatGetReturns(s: SharedStore, id: string, held: seq<array<HeapMessage>>, ghost reach: Region)
    returns (held': seq<array<HeapMessage>>, ghost reach': Region)
    requires s.Valid() && Closed(reach) && Apart(reach, s.own) && forall t :: t in held ==> t in reach.messages
    ensures Closed(reach') && Apart(reach', s.own) && forall t :: t in held' ==> t in reach'.messages
    ensures fresh(reach'.messages - reach.messages) && fresh(reach'.blocks - reach.blocks)
    ensures fresh(reach'.bytes - reach.bytes)
  {
    hide CopyOf, View, Closed;
    held', reach' := held, reach;
    var t, r := s.Get(id);
    if t != null {
      ClosedUnion(reach, r);
      held', reach' := held + [t], Union(reach, r);
    }
  }

  /** A Put records what the transcript says at that moment. */
  method PutAndLog(s: SharedStore, ghost reach: Region, id: string, t: array<HeapMessage>,
                   ghost log: map<string, Transcript>)
    returns (ghost log': map<string, Transcript>)
    requires s.Valid() && Closed(reach) && Apart(reach, s.own) && t in reach.messages
    requires s.entries.Keys == log.Keys && forall k :: k in log ==> CopyOf(log[k], s.Stored(k))
    modifies s
    ensures s.Valid() && Apart(reach, s.own) && log' == log[id := old(View(reach, t))]
    ensures s.entries.Keys == log'.Keys && forall k :: k in log' ==> CopyOf(log'[k], s.Stored(k))
  {
    hide CopyOf, View, Closed;
    log' := log[id := View(reach, t)];
    var _ := s.Put(reach, id, t);
  }

  /** Whatever callers do in their own memory, every entry says what it said. */
  method MutateHeld(s: SharedStore, held: seq<array<HeapMessage>>, ghost reach: Region)
    returns (held': seq<array<HeapMessage>>, ghost reach': Region)
    requires s.Valid() && Closed(reach) && Apart(reach, s.own) && forall t :: t in held ==> t in reach.messages
    modifies reach.messages, reach.blocks, reach.bytes
    ensures s.Valid() && forall id :: id in s.entries ==> s.Stored(id) == old(s.Stored(id))
    ensures Closed(reach') && Apart(reach', s.own) && forall t :: t in held' ==> t in reach'.messages
    ensures fresh(reach'.messages - reach.messages) && fresh(reach'.blocks - reach.blocks)
    ensures fresh(reach'.bytes - reach.bytes)
  {
    hide View, Closed;
    var more;
    reach', more := MutateRegion(reach);
    held' := held + more;
  }

  /** Callers put, get and mutate in any order, and entries are dropped at any time.  `held` are the transcripts the
  callers hold, `reach` all arrays they can reach; `log` is what was in the transcript at the moment of the last Put of
  each id.  Whatever callers later do to anything they passed in or got back, the store still holds exactly that. */
  method Session(s: SharedStore, ops: seq<CallerOp>, given: seq<array<HeapMessage>>, ghost start: Region)
    returns (ghost log: map<string, Transcript>)
    requires s.Valid() && s.entries == map[] && Closed(start) && Apart(start, s.own)
    requires forall t :: t in given ==> t in start.messages
    modifies s, start.messages, start.blocks, start.bytes
    ensures s.Valid() && s.entries.Keys == log.Keys
    ensures forall id :: id in log ==> CopyOf(log[id], s.Stored(id))
  {
    hide CopyOf, View, Closed, BlocksClosed, MessageIn, BlockIn, CopyOfMessage, MessageView, ContentView, BlockView;
    log := map[];
    var held := given;
    ghost var reach := start;
    for i := 0 to |ops|
      invariant s.Valid() && s.entries.Keys == log.Keys
      invariant Closed(reach) && Apart(reach, s.own)
      invariant fresh(reach.messages - start.messages) && fresh(reach.blocks - start.blocks)
      invariant fresh(reach.bytes - start.bytes)
      invariant forall t :: t in held ==> t in reach.messages
      invariant forall id :: id in log ==> CopyOf(log[id], s.Stored(id))
    {
      match ops[i] {
        case PutHeld(id, k) =>
          if k < |held| {
            log := PutAndLog(s, reach, id, held[k], log);
          }
        case GetInto(id) =>
          held, reach := HoldWhatGetReturns(s, id, held, reach);
        case Drop(id) =>
          s.Delete(id);
          log := log - {id};
        case Mutate =>
          held, reach := MutateHeld(s, held, reach);
      }
    }
  }
}
