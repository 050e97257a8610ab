/** trimHistory: the stored transcript is a suffix that fits the message and byte limits. */
module Trimming {
  import opened Options
  import opened Utf8
  import opened Transcripts
  import opened Sanitizing

  const MAX_STORED_MESSAGES: nat := 60

  predicate PlainUser(m: Message) {
    m.role == USER && !ContainsToolResult(m)
  }

  predicate Fits(ms: Transcript) {
    Size(ms) <= MAX_TRANSCRIPT_BYTES
  }

  /** A place where the transcript may start after trimming. */
  predicate GoodStart(ms: Transcript, i: nat)
    requires i < |ms|
  {
    PlainUser(ms[i]) && Fits(ms[i..])
  }

  lemma GoodStartIff(ms: Transcript, i: nat)
    requires i < |ms|
    ensures GoodStart(ms, i) <==>
            && ms[i].role == "user" && (forall b :: b in ms[i].content ==> b.kind != "tool_result")
            && Size(ms[i..]) <= 1_048_576
  {
  }

  /** The first good start at or after `i`, or `|ms|`. */
  function FirstStart(ms: Transcript, i: nat): (k: nat)
    requires i <= |ms|
    ensures i <= k <= |ms|
    ensures k < |ms| ==> GoodStart(ms, k)
    ensures forall j :: i <= j < k ==> !GoodStart(ms, j)
    decreases |ms| - i
  {
    if i == |ms| || GoodStart(ms, i) then i else FirstStart(ms, i + 1)
  }

  /** The newest plain user message among the first `n`, as a transcript of its own. */
  function NewestPlainUser(ms: Transcript, n: nat): (r: Transcript)
    requires n <= |ms|
    ensures r == [] ==> forall j :: 0 <= j < n ==> !PlainUser(ms[j])
    ensures r != [] ==> exists p :: 0 <= p < n && PlainUser(ms[p]) && r == [ms[p]]
                                    && forall j :: p < j < n ==> !PlainUser(ms[j])
  {
    if n == 0 then [] else if PlainUser(ms[n - 1]) then [ms[n - 1]] else NewestPlainUser(ms, n - 1)
  }

  function WindowStart(ms: Transcript, maxLen: int): int {
    if |ms| - maxLen < 0 then 0 else |ms| - maxLen
  }

  function Trim(ms: Transcript, maxLen: int): Transcript {
    if |ms| <= maxLen && Fits(ms) then ms
    else
      var start := WindowStart(ms, maxLen);
      var k := if start <= |ms| then FirstStart(ms, start) else |ms|;
      if k < |ms| then ms[k..] else NewestPlainUser(ms, |ms|)
  }

  method TrimHistory(ms: Transcript, maxLen: int) returns (r: Transcript)
    ensures r == Trim(ms, maxLen)
  {
    var size := TranscriptSize(ms);
    if |ms| <= maxLen && size <= MAX_TRANSCRIPT_BYTES {
      return ms;
    }
    var start := |ms| - maxLen;
    if start < 0 {
      start := 0;
    }
    var i := start;
    while i < |ms|
      invariant start <= i
      invariant start <= |ms| ==> i <= |ms| && FirstStart(ms, start) == FirstStart(ms, i)
    {
      if ms[i].role == USER && !ContainsToolResult(ms[i]) {
        size := TranscriptSize(ms[i..]);
        if size <= MAX_TRANSCRIPT_BYTES {
          return ms[i..];
        }
      }
      i := i + 1;
    }
    r := NewestPlainUserMessage(ms);
  }

  /** The last loop of trimHistory. */
  method NewestPlainUserMessage(ms: Transcript) returns (r: Transcript)
    ensures r == NewestPlainUser(ms, |ms|)
  {
    var n := |ms|;
    while n > 0
      invariant 0 <= n <= |ms|
      invariant NewestPlainUser(ms, |ms|) == NewestPlainUser(ms, n)
    {
      n := n - 1;
      if ms[n].role == USER && !ContainsToolResult(ms[n]) {
        return ms[n..n + 1];
      }
    }
    return [];
  }

  lemma SuffixSize(ms: Transcript, i: nat, j: nat)
    requires i <= j <= |ms|
    ensures Size(ms[j..]) <= Size(ms[i..])
  {
    assert ms[i..] == ms[i..j] + ms[j..];
    SizeConcat(ms[i..j], ms[j..]);
  }

  /** When it must trim, trimHistory returns the longest suffix of at most `maxLen` messages that starts with
  a plain user message and fits the byte limit; if there is none, the newest plain user message or nothing. */
  lemma TrimIsLongestSuffix(ms: Transcript, maxLen: int)
    requires !(|ms| <= maxLen && Fits(ms))
    ensures (exists i :: 0 <= i < |ms| && |ms| - i <= maxLen && GoodStart(ms, i) && Trim(ms, maxLen) == ms[i..]
                         && forall j :: 0 <= j < i && |ms| - j <= maxLen ==> !GoodStart(ms, j))
            || (Trim(ms, maxLen) == NewestPlainUser(ms, |ms|)
                && forall j :: 0 <= j < |ms| && |ms| - j <= maxLen ==> !GoodStart(ms, j))
  {
    var start := WindowStart(ms, maxLen);
    if start <= |ms| {
      var k := FirstStart(ms, start);
      if k < |ms| {
        assert GoodStart(ms, k) && Trim(ms, maxLen) == ms[k..];
      }
    }
  }

  lemma TrimIdempotent(ms: Transcript, maxLen: int)
    ensures Trim(Trim(ms, maxLen), maxLen) == Trim(ms, maxLen)
  {
    var r := Trim(ms, maxLen);
    if !(|ms| <= maxLen && Fits(ms)) {
      TrimIsLongestSuffix(ms, maxLen);
      if |r| == 1 && PlainUser(r[0]) {
        assert NewestPlainUser(r, 1) == r;
        assert r[0..] == r;
      }
    }
  }

  /** The message limit is kept for every positive limit. */
  lemma TrimKeepsMessageLimit(ms: Transcript, maxLen: int)
    requires maxLen >= 1
    ensures |Trim(ms, maxLen)| <= maxLen
  {
    if !(|ms| <= maxLen && Fits(ms)) {
      TrimIsLongestSuffix(ms, maxLen);
    }
  }

  lemma MessageWithinSuffix(ms: Transcript, i: nat, p: nat)
    requires i <= p < |ms|
    ensures Size([ms[p]]) <= Size(ms[i..])
  {
    SuffixSize(ms, i, p);
    assert ms[p..] == [ms[p]] + ms[p + 1..];
    SizeConcat([ms[p]], ms[p + 1..]);
  }

  /** A suffix that starts with a plain user message is at least as large as the newest one alone. */
  lemma NewestIsSmallest(ms: Transcript, i: nat)
    requires i < |ms| && (i == 0 || PlainUser(ms[i]))
    ensures Size(NewestPlainUser(ms, |ms|)) <= Size(ms[i..])
  {
    var newest := NewestPlainUser(ms, |ms|);
    if newest != [] {
      var p :| 0 <= p < |ms| && newest == [ms[p]] && forall j :: p < j < |ms| ==> !PlainUser(ms[j]);
      assert i <= p;
      MessageWithinSuffix(ms, i, p);
    }
  }

  /** Exactly when the newest plain user message fits on its own, so does the trimmed transcript. */
  lemma TrimFitsIff(ms: Transcript, maxLen: int)
    ensures Fits(Trim(ms, maxLen)) <==> Fits(NewestPlainUser(ms, |ms|))
  {
    if |ms| <= maxLen && Fits(ms) {
      if ms != [] {
        NewestIsSmallest(ms, 0);
        assert ms[0..] == ms;
      }
    } else {
      TrimIsLongestSuffix(ms, maxLen);
      if i :| 0 <= i < |ms| && GoodStart(ms, i) && Trim(ms, maxLen) == ms[i..] {
        NewestIsSmallest(ms, i);
      }
    }
  }

  const SAFE_USER_BLOCKS: nat := 8

  /** A stored transcript stays within 1 MiB as long as plain user messages have at most 8 blocks. */
  lemma StoredTranscriptFits(json: JsonCheck, ms: Transcript, maxLen: int)
    requires Normal(json, ms)
    requires forall m :: m in ms && PlainUser(m) ==> |m.content| <= SAFE_USER_BLOCKS
    ensures Fits(Trim(ms, maxLen))
  {
    TrimFitsIff(ms, maxLen);
    var newest := NewestPlainUser(ms, |ms|);
    if newest != [] {
      var m := newest[0];
      assert m in ms && PlainUser(m);
      StoredBlocksSize(json, m.content);
      assert newest[..0] == [];
      assert Size(newest) == |USER| + BlocksSize(m.content);
    }
  }

  function Repeated(b: Block, n: nat): seq<Block> {
    if n == 0 then [] else Repeated(b, n - 1) + [b]
  }

  lemma {:induction false} RepeatedSize(b: Block, n: nat)
    requires BlockSize(b) > MAX_TEXT_BYTES
    ensures |Repeated(b, n)| == n && BlocksSize(Repeated(b, n)) >= n * (MAX_TEXT_BYTES + 1)
    ensures forall x :: x in Repeated(b, n) ==> x == b
  {
    hide BlockSize;
    if n > 0 {
      RepeatedSize(b, n - 1);
      assert Repeated(b, n)[..n - 1] == Repeated(b, n - 1);
    }
  }

  /** Without a bound on its blocks a plain user message can exceed 1 MiB by itself, and is kept all the same. */
  lemma FragmentedQuestionExceedsLimit(json: JsonCheck) returns (ms: Transcript)
    ensures Normal(json, ms) && |ms| == 1 && |ms[0].content| == 16
    ensures !Fits(StoredForm(json, ms))
  {
    var text := seq(MAX_TEXT_BYTES, _ => 'a');
    AsciiFixed(text, MAX_TEXT_BYTES);
    AsciiFixed(USER, MAX_IDENTIFIER_BYTES);
    TextBlockFixed(json, text);
    var b := TextBlock(text);
    assert BlockSize(b) == MAX_TEXT_BYTES + 36;
    RepeatedSize(b, 16);
    hide Bounded, BoundFixed, Repeated, BlocksSize;
    ms := [Message(USER, Repeated(b, 16))];
    OneMessage(json, ms);
  }

  lemma OneMessage(json: JsonCheck, ms: Transcript)
    requires |ms| == 1 && MessageFixed(json, ms[0]) && ms[0].role == USER && ms[0].content != []
    requires forall b :: b in ms[0].content ==> b.kind == TEXT
    requires BlocksSize(ms[0].content) > MAX_TRANSCRIPT_BYTES
    ensures Normal(json, ms) && !Fits(StoredForm(json, ms))
  {
    hide MessageFixed, BlocksSize;
    assert PairedAt(None, ms, 0);
    SanitizeFixedIff(json, ms);
    assert ms[..0] == [] && ms == [ms[0]];
    assert NewestPlainUser(ms, 1) == ms && !Fits(ms);
    TrimFitsIff(ms, MAX_STORED_MESSAGES);
  }

  // ----- Trimming keeps the normal form -----

  lemma PairedSuffix(ms: Transcript, i: nat)
    requires Paired(ms) && i < |ms| && !ContainsToolResult(ms[i])
    ensures Paired(ms[i..])
  {
    var r := ms[i..];
    forall j | 0 <= j < |r| ensures PairedAt(None, r, j) {
      assert PairedAt(None, ms, i + j);
      assert At(r, j + 1) == At(ms, i + j + 1);
    }
  }

  lemma TrimKeepsNormal(json: JsonCheck, ms: Transcript, maxLen: int)
    requires Normal(json, ms)
    ensures Normal(json, Trim(ms, maxLen))
  {
    if !(|ms| <= maxLen && Fits(ms)) {
      TrimIsLongestSuffix(ms, maxLen);
      var r := Trim(ms, maxLen);
      if i :| 0 <= i < |ms| && GoodStart(ms, i) && r == ms[i..] {
        PairedSuffix(ms, i);
      } else if r != [] {
        assert PairedAt(None, r, 0);
      }
    }
  }

  /** What Put stores for a transcript. */
  function StoredForm(json: JsonCheck, ms: Transcript): Transcript {
    Trim(Sanitize(json, ms), MAX_STORED_MESSAGES)
  }

  /** Stored form is a normal form: storing it again, or sanitising once more before storing, changes nothing. */
  lemma StoredFormStable(json: JsonCheck, ms: Transcript)
    ensures Sanitize(json, StoredForm(json, ms)) == StoredForm(json, ms)
    ensures StoredForm(json, StoredForm(json, ms)) == StoredForm(json, ms)
    ensures StoredForm(json, Sanitize(json, ms)) == StoredForm(json, ms)
  {
    SanitizedIsNormal(json, ms);
    TrimKeepsNormal(json, Sanitize(json, ms), MAX_STORED_MESSAGES);
    SanitizeFixedIff(json, StoredForm(json, ms));
    TrimIdempotent(Sanitize(json, ms), MAX_STORED_MESSAGES);
    SanitizeIdempotent(json, ms);
  }
}
