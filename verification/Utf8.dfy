/** Go strings and the bounded, always well-formed strings the store keeps.

A Go string is a sequence of bytes.  Here it is a Dafny `string` with one `char` standing for one
byte; a `char` above 255, which no Go string contains, counts as a malformed byte, so every
statement about all strings covers all Go strings. */
module Utf8 {

  // ----- Well-formedness, section 4 of RFC 3629 -----

  predicate IsContinuation(c: char) {
    0x80 <= c as int <= 0xBF
  }

  /** The number of bytes of the well-formed code point at the head of `s`, or 0 if the head is malformed. */
  function RuneWidth(s: string): (w: nat)
    requires s != ""
    ensures w <= 4 && w <= |s|
  {
    var b := s[0] as int;
    if b < 0x80 then 1
    else if 0xC2 <= b <= 0xDF then
      if |s| >= 2 && IsContinuation(s[1]) then 2 else 0
    else if 0xE0 <= b <= 0xEF then
      if |s| >= 3 && IsContinuation(s[1]) && IsContinuation(s[2])
         && (b == 0xE0 ==> 0xA0 <= s[1] as int) && (b == 0xED ==> s[1] as int <= 0x9F) then 3 else 0
    else if 0xF0 <= b <= 0xF4 then
      if |s| >= 4 && IsContinuation(s[1]) && IsContinuation(s[2]) && IsContinuation(s[3])
         && (b == 0xF0 ==> 0x90 <= s[1] as int) && (b == 0xF4 ==> s[1] as int <= 0x8F) then 4 else 0
    else 0
  }

  predicate Valid(s: string) {
    s == "" || (RuneWidth(s) > 0 && Valid(s[RuneWidth(s)..]))
  }

  // ----- The code points behind it -----

  /** The code points of Unicode but for the surrogates. */
  predicate IsScalar(c: nat) {
    c <= 0x10FFFF && !(0xD800 <= c <= 0xDFFF)
  }

  /** Section 3 of RFC 3629: the bits of a code point, spread over one to four bytes. */
  function Encode(c: nat): (r: string)
    requires IsScalar(c)
    ensures 1 <= |r| <= 4
  {
    if c < 0x80 then [c as char]
    else if c < 0x800 then [(0xC0 + c / 64) as char, (0x80 + c % 64) as char]
    else if c < 0x1_0000 then [(0xE0 + c / 4096) as char, (0x80 + c / 64 % 64) as char, (0x80 + c % 64) as char]
    else
      [(0xF0 + c / 262144) as char, (0x80 + c / 4096 % 64) as char, (0x80 + c / 64 % 64) as char,
       (0x80 + c % 64) as char]
  }

  /** The head of a string is well-formed exactly if it is the encoding of a code point. */
  lemma RuneWidthIff(s: string, c: nat)
    requires IsScalar(c) && Encode(c) <= s
    ensures RuneWidth(s) == |Encode(c)|
  {
    var r := Encode(c);
    EncodedWidth(c);
    assert s[..|r|] == r && r + s[|r|..] == s;
    hide RuneWidth, Encode;
    RuneWidthIsLocal(r, s[|r|..]);
  }

  lemma EncodedWidth(c: nat)
    requires IsScalar(c)
    ensures RuneWidth(Encode(c)) == |Encode(c)|
  {
  }

  lemma RuneIsEncoded(s: string) returns (c: nat)
    requires s != "" && RuneWidth(s) > 0
    ensures IsScalar(c) && Encode(c) == s[..RuneWidth(s)]
  {
    var b := s[0] as int;
    if RuneWidth(s) == 1 {
      c := b;
      assert s[..1] == Encode(c);
    } else if RuneWidth(s) == 2 {
      c := Encode2(b - 0xC0, s[1] as int - 0x80);
      assert s[..2] == Encode(c);
    } else if RuneWidth(s) == 3 {
      c := Encode3(b - 0xE0, s[1] as int - 0x80, s[2] as int - 0x80);
      assert s[..3] == Encode(c);
    } else {
      c := Encode4(b - 0xF0, s[1] as int - 0x80, s[2] as int - 0x80, s[3] as int - 0x80);
      assert s[..4] == Encode(c);
    }
  }

  lemma Encode2(x: nat, y: nat) returns (c: nat)
    requires 2 <= x < 32 && y < 64
    ensures IsScalar(c) && Encode(c) == [(0xC0 + x) as char, (0x80 + y) as char]
  {
    c := x * 64 + y;
    assert c / 64 == x && c % 64 == y;
  }

  lemma Encode3(x: nat, y: nat, z: nat) returns (c: nat)
    requires x < 16 && y < 64 && z < 64 && (x == 0 ==> 32 <= y) && (x == 13 ==> y < 32)
    ensures IsScalar(c) && Encode(c) == [(0xE0 + x) as char, (0x80 + y) as char, (0x80 + z) as char]
  {
    c := (x * 64 + y) * 64 + z;
    assert c / 64 == x * 64 + y && c % 64 == z;
    assert c / 4096 == x && c / 64 % 64 == y;
  }

  lemma Encode4(w: nat, x: nat, y: nat, z: nat) returns (c: nat)
    requires w <= 4 && x < 64 && y < 64 && z < 64 && (w == 0 ==> 16 <= x) && (w == 4 ==> x < 16)
    ensures IsScalar(c)
    ensures Encode(c) == [(0xF0 + w) as char, (0x80 + x) as char, (0x80 + y) as char, (0x80 + z) as char]
  {
    c := ((w * 64 + x) * 64 + y) * 64 + z;
    assert c / 64 == (w * 64 + x) * 64 + y && c % 64 == z;
    assert c / 4096 == w * 64 + x && c / 64 % 64 == y;
    assert c / 262144 == w && c / 4096 % 64 == x;
  }

  function EncodeAll(cs: seq<nat>): string
    requires forall c :: c in cs ==> IsScalar(c)
  {
    if cs == [] then "" else Encode(cs[0]) + EncodeAll(cs[1..])
  }

  /** Valid strings are the encodings of code point sequences. */
  lemma {:induction false} EncodedIsValid(cs: seq<nat>)
    requires forall c :: c in cs ==> IsScalar(c)
    ensures Valid(EncodeAll(cs))
  {
    if cs != [] {
      EncodedIsValid(cs[1..]);
      RuneWidthIff(EncodeAll(cs), cs[0]);
      assert EncodeAll(cs)[|Encode(cs[0])|..] == EncodeAll(cs[1..]);
    }
  }

  lemma EncodeAllCons(c: nat, cs: seq<nat>)
    requires IsScalar(c) && forall x :: x in cs ==> IsScalar(x)
    ensures EncodeAll([c] + cs) == Encode(c) + EncodeAll(cs)
  {
    hide Encode, IsScalar;
    assert ([c] + cs)[1..] == cs;
  }

  lemma FirstCodePoint(s: string) returns (c: nat, rest: string)
    requires Valid(s) && s != ""
    ensures IsScalar(c) && Valid(rest) && |rest| < |s| && s == Encode(c) + rest
  {
    var w := RuneWidth(s);
    c := RuneIsEncoded(s);
    rest := s[w..];
    hide Encode, IsScalar, RuneWidth;
    assert s == s[..w] + s[w..];
  }

  lemma {:induction false} ValidIsEncoded(s: string) returns (cs: seq<nat>)
    requires Valid(s)
    ensures (forall c :: c in cs ==> IsScalar(c)) && EncodeAll(cs) == s
    decreases |s|
  {
    if s == "" {
      cs := [];
      assert EncodeAll([]) == "";
    } else {
      hide *;
      var c, rest := FirstCodePoint(s);
      cs := ValidIsEncoded(rest);
      EncodeAllCons(c, cs);
      cs := [c] + cs;
    }
  }

  lemma RuneWidthIsLocal(a: string, b: string)
    requires a != "" && RuneWidth(a) > 0
    ensures RuneWidth(a + b) == RuneWidth(a)
  {
  }

  lemma {:induction false} ValidConcat(a: string, b: string)
    requires Valid(a) && Valid(b)
    ensures Valid(a + b)
  {
    if a == "" {
      assert a + b == b;
    } else {
      var w := RuneWidth(a);
      RuneWidthIsLocal(a, b);
      assert (a + b)[w..] == a[w..] + b;
      ValidConcat(a[w..], b);
    }
  }

  /** A code point boundary of a valid string cuts it into two valid strings. */
  lemma {:induction false} ValidDrop(s: string, k: nat)
    requires Valid(s) && k <= |s| && Valid(s[..k])
    ensures Valid(s[k..])
  {
    if k > 0 {
      var w := RuneWidth(s[..k]);
      RuneWidthIsLocal(s[..k], s[k..]);
      assert s[..k] + s[k..] == s;
      assert s[..k][w..] == s[w..][..k - w];
      ValidDrop(s[w..], k - w);
      assert s[w..][k - w..] == s[k..];
    }
  }

  /** Every position of a valid string is at most 3 bytes after a code point boundary. */
  lemma {:induction false} BoundaryWithinThree(s: string, cut: nat) returns (k: nat)
    requires Valid(s) && cut <= |s|
    ensures k <= cut <= k + 3 && Valid(s[..k])
  {
    if s == "" || cut < RuneWidth(s) {
      k := 0;
    } else {
      var w := RuneWidth(s);
      var rest := BoundaryWithinThree(s[w..], cut - w);
      k := w + rest;
      assert s[..k] == s[..w] + s[w..][..rest];
      RuneWidthIsLocal(s[..w], s[w..][..rest]) by { RuneIsValid(s); }
      assert Valid(s[..w]) by { RuneIsValid(s); }
      ValidConcat(s[..w], s[w..][..rest]);
    }
  }

  lemma RuneIsValid(s: string)
    requires s != "" && RuneWidth(s) > 0
    ensures RuneWidth(s[..RuneWidth(s)]) == RuneWidth(s) && Valid(s[..RuneWidth(s)])
  {
    var r := s[..RuneWidth(s)];
    assert r[RuneWidth(s)..] == "";
  }

  // ----- strings.ToValidUTF8 -----

  const REPLACEMENT: string := "\U{00EF}\U{00BF}\U{00BD}"

  /** Each maximal run of malformed bytes becomes one U+FFFD. */
  function ToValid(s: string, inRun: bool := false): string {
    if s == "" then ""
    else if RuneWidth(s) == 0 then (if inRun then "" else REPLACEMENT) + ToValid(s[1..], true)
    else s[..RuneWidth(s)] + ToValid(s[RuneWidth(s)..])
  }

  lemma {:induction false} ToValidIsValid(s: string, inRun: bool)
    ensures Valid(ToValid(s, inRun))
  {
    if s != "" {
      var w := RuneWidth(s);
      if w == 0 {
        ToValidIsValid(s[1..], true);
        RuneIsValid(REPLACEMENT);
        assert REPLACEMENT[..3] == REPLACEMENT;
        ValidConcat(if inRun then "" else REPLACEMENT, ToValid(s[1..], true));
      } else {
        ToValidIsValid(s[w..], false);
        RuneIsValid(s);
        ValidConcat(s[..w], ToValid(s[w..]));
      }
    }
  }

  lemma {:induction false} ToValidKeepsValid(s: string, inRun: bool)
    requires Valid(s)
    ensures ToValid(s, inRun) == s
  {
    if s != "" {
      var w := RuneWidth(s);
      ToValidKeepsValid(s[w..], false);
      assert s == s[..w] + s[w..];
    }
  }

  /** A repaired string without a replacement character was not repaired. */
  lemma {:induction false} ToValidOnlyInsertsReplacement(s: string)
    ensures ToValid(s) == s || REPLACEMENT[0] in ToValid(s)
  {
    if s != "" && RuneWidth(s) > 0 {
      var w := RuneWidth(s);
      ToValidOnlyInsertsReplacement(s[w..]);
      assert s == s[..w] + s[w..];
    } else if s != "" {
      assert ToValid(s)[0] == REPLACEMENT[0];
    }
  }

  /** The well-formed code points of `s` in order, malformed bytes left out. */
  function Runes(s: string): seq<string> {
    if s == "" then []
    else if RuneWidth(s) == 0 then Runes(s[1..])
    else [s[..RuneWidth(s)]] + Runes(s[RuneWidth(s)..])
  }

  /** Maximal runs of malformed bytes. */
  function Runs(s: string, inRun: bool := false): nat {
    if s == "" then 0
    else if RuneWidth(s) == 0 then (if inRun then 0 else 1) + Runs(s[1..], true)
    else Runs(s[RuneWidth(s)..])
  }

  function OtherThan(rs: seq<string>, r: string): seq<string> {
    if rs == [] then [] else (if rs[0] == r then [] else [rs[0]]) + OtherThan(rs[1..], r)
  }

  lemma RunesAfter(r: string, s: string)
    requires r != "" && RuneWidth(r) == |r|
    ensures Runes(r + s) == [r] + Runes(s)
  {
    RuneWidthIsLocal(r, s);
    assert (r + s)[..|r|] == r && (r + s)[|r|..] == s;
  }

  /** Repairing keeps every well-formed code point in order, and adds one replacement for each malformed run. */
  lemma {:induction false} ToValidKeepsRunes(s: string, inRun: bool)
    ensures OtherThan(Runes(ToValid(s, inRun)), REPLACEMENT) == OtherThan(Runes(s), REPLACEMENT)
    ensures |Runes(ToValid(s, inRun))| == |Runes(s)| + Runs(s, inRun)
  {
    if s != "" {
      var w := RuneWidth(s);
      if w == 0 {
        var rest := ToValid(s[1..], true);
        ToValidKeepsRunes(s[1..], true);
        RunesAfter(REPLACEMENT, rest);
        assert ([REPLACEMENT] + Runes(rest))[1..] == Runes(rest);
        assert "" + rest == rest;
      } else {
        var r, rest := s[..w], ToValid(s[w..]);
        ToValidKeepsRunes(s[w..], false);
        RuneIsValid(s);
        RunesAfter(r, rest);
        assert ([r] + Runes(rest))[1..] == Runes(rest) && ([r] + Runes(s[w..]))[1..] == Runes(s[w..]);
      }
    }
  }

  // ----- boundedString -----

  const TRUNCATED: string := "\n[truncated]"

  /** The length of the longest valid prefix of `v` that has at most `cut` bytes. */
  function LongestValidPrefix(v: string, cut: nat): (k: nat)
    requires cut <= |v|
    ensures k <= cut && Valid(v[..k])
    ensures forall j :: k < j <= cut ==> !Valid(v[..j])
  {
    if cut == 0 || Valid(v[..cut]) then cut else LongestValidPrefix(v, cut - 1)
  }

  function Bounded(value: string, limit: nat): string {
    var v := ToValid(value);
    if |v| <= limit then v
    else if limit <= |TRUNCATED| then TRUNCATED[..limit]
    else v[..LongestValidPrefix(v, limit - |TRUNCATED|)] + TRUNCATED
  }

  method BoundedString(value: string, limit: nat) returns (r: string)
    ensures r == Bounded(value, limit)
  {
    var v := ToValid(value);
    if |v| <= limit {
      return v;
    }
    var cut := limit - |TRUNCATED|;
    if cut <= 0 {
      return TRUNCATED[..limit];
    }
    var valid := Valid(v[..cut]);
    while cut > 0 && !valid
      invariant 0 <= cut <= limit - |TRUNCATED|
      invariant valid == Valid(v[..cut])
      invariant LongestValidPrefix(v, cut) == LongestValidPrefix(v, limit - |TRUNCATED|)
    {
      cut := cut - 1;
      valid := Valid(v[..cut]);
    }
    return v[..cut] + TRUNCATED;
  }

  lemma {:induction false} AsciiIsValid(s: string)
    requires forall i :: 0 <= i < |s| ==> s[i] as int < 0x80
    ensures Valid(s)
  {
    if s != "" {
      assert RuneWidth(s) == 1;
      AsciiIsValid(s[1..]);
    }
  }

  /** `boundedString` yields valid UTF-8 of at most `limit` bytes. */
  lemma BoundedIsValidAndShort(value: string, limit: nat)
    ensures Valid(Bounded(value, limit))
    ensures |Bounded(value, limit)| <= limit
  {
    var v := ToValid(value);
    ToValidIsValid(value, false);
    if |v| > limit {
      if limit <= |TRUNCATED| {
        AsciiIsValid(TRUNCATED[..limit]);
      } else {
        AsciiIsValid(TRUNCATED);
        ValidConcat(v[..LongestValidPrefix(v, limit - |TRUNCATED|)], TRUNCATED);
      }
    }
  }

  /** What is already valid and short enough is left alone; hence bounding twice is bounding once. */
  lemma BoundedFixedIff(s: string, limit: nat)
    ensures Bounded(s, limit) == s <==> Valid(s) && |s| <= limit
  {
    BoundedIsValidAndShort(s, limit);
    if Valid(s) {
      ToValidKeepsValid(s, false);
    }
  }

  lemma AsciiFixed(s: string, limit: nat)
    requires |s| <= limit && forall i :: 0 <= i < |s| ==> s[i] as int < 0x80
    ensures Bounded(s, limit) == s
  {
    AsciiIsValid(s);
    BoundedFixedIff(s, limit);
  }

  lemma BoundedIdempotent(value: string, limit: nat)
    ensures Bounded(Bounded(value, limit), limit) == Bounded(value, limit)
  {
    BoundedIsValidAndShort(value, limit);
    BoundedFixedIff(Bounded(value, limit), limit);
  }

  /** When it truncates above the marker length, the result is the marker after the longest valid prefix
  that leaves room for it, and the search for that prefix gives up at most 3 bytes. */
  lemma TruncationKeepsLongestPrefix(value: string, limit: nat) returns (k: nat)
    requires |ToValid(value)| > limit > |TRUNCATED|
    ensures limit - |TRUNCATED| - 3 <= k <= limit - |TRUNCATED|
    ensures Bounded(value, limit) == ToValid(value)[..k] + TRUNCATED
    ensures Valid(ToValid(value)[..k])
    ensures forall j :: k < j && j + |TRUNCATED| <= limit ==> !Valid(ToValid(value)[..j])
  {
    var v := ToValid(value);
    ToValidIsValid(value, false);
    k := LongestValidPrefix(v, limit - |TRUNCATED|);
    var boundary := BoundaryWithinThree(v, limit - |TRUNCATED|);
  }

  /** A short result with no replacement character is the original value: bounding invents no name. */
  lemma BoundedInventsNothing(value: string, limit: nat)
    requires |Bounded(value, limit)| + 3 < limit
    requires REPLACEMENT[0] !in Bounded(value, limit)
    ensures Bounded(value, limit) == value
  {
    ToValidOnlyInsertsReplacement(value);
    if |ToValid(value)| > limit > |TRUNCATED| {
      var k := TruncationKeepsLongestPrefix(value, limit);
    }
  }
}
