/** strings.TrimSpace on UTF-8 bytes. */
module Spaces {
  import opened Collections
  import opened Utf8

  /** `r` is the encoding of exactly one Unicode white-space code point. */
  predicate IsSpace(r: string) {
    match |r|
    case 1 => 0x09 <= r[0] as int <= 0x0D || r[0] == ' '
    case 2 => r[0] as int == 0xC2 && (r[1] as int == 0x85 || r[1] as int == 0xA0)
    case 3 =>
      var b, c, d := r[0] as int, r[1] as int, r[2] as int;
      || (b == 0xE1 && c == 0x9A && d == 0x80)
      || (b == 0xE2 && c == 0x80 && (0x80 <= d <= 0x8A || d == 0xA8 || d == 0xA9 || d == 0xAF))
      || (b == 0xE2 && c == 0x81 && d == 0x9F)
      || (b == 0xE3 && c == 0x80 && d == 0x80)
    case _ => false
  }

  /** The width of the white-space code point at the head of `s`, or 0. */
  function SpaceAtStart(s: string): (k: nat)
    ensures k <= |s| && (k > 0 ==> IsSpace(s[..k]))
  {
    if |s| >= 1 && IsSpace(s[..1]) then 1
    else if |s| >= 2 && IsSpace(s[..2]) then 2
    else if |s| >= 3 && IsSpace(s[..3]) then 3
    else 0
  }

  /** The width of the white-space code point at the end of `s`, or 0. */
  function SpaceAtEnd(s: string): (k: nat)
    ensures k <= |s| && (k > 0 ==> IsSpace(s[|s| - k..]))
  {
    if |s| >= 1 && IsSpace(s[|s| - 1..]) then 1
    else if |s| >= 2 && IsSpace(s[|s| - 2..]) then 2
    else if |s| >= 3 && IsSpace(s[|s| - 3..]) then 3
    else 0
  }

  function TrimLeft(s: string): string {
    if SpaceAtStart(s) == 0 then s else TrimLeft(s[SpaceAtStart(s)..])
  }

  function TrimRight(s: string): string {
    if SpaceAtEnd(s) == 0 then s else TrimRight(s[..|s| - SpaceAtEnd(s)])
  }

  function TrimSpace(s: string): string {
    TrimRight(TrimLeft(s))
  }

  lemma SpaceIsRune(r: string)
    requires IsSpace(r)
    ensures RuneWidth(r) == |r|
    ensures !IsContinuation(r[0])
  {
  }

  /** Dropping a final white-space code point from valid UTF-8 leaves valid UTF-8: the encoding is
  self-synchronising. */
  lemma {:induction false} ChopSpaceValid(p: string, r: string)
    requires IsSpace(r) && Valid(p + r)
    ensures Valid(p)
  {
    SpaceIsRune(r);
    if p != "" {
      var s := p + r;
      var w := RuneWidth(s);
      assert s[|p|] == r[0];
      assert w <= |p|;
      assert s[..w] == p[..w];
      RuneIsValid(s);
      assert s[w..] == p[w..] + r;
      ChopSpaceValid(p[w..], r);
      ValidConcat(p[..w], p[w..]);
      assert p == p[..w] + p[w..];
    }
  }

  lemma {:induction false} TrimLeftValid(s: string)
    ensures |TrimLeft(s)| <= |s|
    ensures Valid(s) ==> Valid(TrimLeft(s))
  {
    var k := SpaceAtStart(s);
    if k > 0 {
      TrimLeftValid(s[k..]);
      SpaceIsRune(s[..k]);
      RuneWidthIsLocal(s[..k], s[k..]);
      assert s[..k] + s[k..] == s;
    }
  }

  lemma {:induction false} TrimRightValid(s: string)
    ensures |TrimRight(s)| <= |s|
    ensures Valid(s) ==> Valid(TrimRight(s))
  {
    var k := SpaceAtEnd(s);
    if k > 0 {
      assert s[..|s| - k] + s[|s| - k..] == s;
      if Valid(s) {
        ChopSpaceValid(s[..|s| - k], s[|s| - k..]);
      }
      TrimRightValid(s[..|s| - k]);
    }
  }

  /** Trimming never lengthens a string and never splits a code point. */
  lemma TrimSpaceValid(s: string)
    ensures |TrimSpace(s)| <= |s|
    ensures Valid(s) ==> Valid(TrimSpace(s))
  {
    TrimLeftValid(s);
    TrimRightValid(TrimLeft(s));
  }

  // ----- What trimming keeps -----

  /** Unicode's white-space code points. */
  predicate IsWhite(c: nat) {
    || 0x09 <= c <= 0x0D || c == 0x20 || c == 0x85 || c == 0xA0 || c == 0x1680 || 0x2000 <= c <= 0x200A
    || c == 0x2028 || c == 0x2029 || c == 0x202F || c == 0x205F || c == 0x3000
  }

  lemma WhiteIsSpace(c: nat)
    requires IsScalar(c)
    ensures IsSpace(Encode(c)) <==> IsWhite(c)
  {
  }

  /** A concatenation of white-space code points. */
  predicate AllSpace(s: string) {
    || s == ""
    || (|s| >= 1 && IsSpace(s[..1]) && AllSpace(s[1..]))
    || (|s| >= 2 && IsSpace(s[..2]) && AllSpace(s[2..]))
    || (|s| >= 3 && IsSpace(s[..3]) && AllSpace(s[3..]))
  }

  /** No white-space code point at either end. */
  predicate Bare(s: string) {
    forall k :: 0 <= k <= |s| ==> !IsSpace(s[..k]) && !IsSpace(s[k..])
  }

  lemma StartIff(s: string)
    ensures SpaceAtStart(s) == 0 <==> forall k :: 0 <= k <= |s| ==> !IsSpace(s[..k])
  {
    if SpaceAtStart(s) == 0 {
      forall k | 0 <= k <= |s| ensures !IsSpace(s[..k]) {
        assert |s[..k]| == k;
        hide IsSpace;
        assert IsSpace(s[..k]) ==> 1 <= k <= 3 by { SpaceLength(s[..k]); }
      }
    } else {
      assert IsSpace(s[..SpaceAtStart(s)]);
    }
  }

  lemma EndIff(s: string)
    ensures SpaceAtEnd(s) == 0 <==> forall k :: 0 <= k <= |s| ==> !IsSpace(s[k..])
  {
    if SpaceAtEnd(s) == 0 {
      forall k | 0 <= k <= |s| ensures !IsSpace(s[k..]) {
        assert |s[k..]| == |s| - k;
        hide IsSpace;
        assert IsSpace(s[k..]) ==> 1 <= |s| - k <= 3 by { SpaceLength(s[k..]); }
        assert k == |s| - 1 || k == |s| - 2 || k == |s| - 3 || !IsSpace(s[k..]);
      }
    } else {
      assert IsSpace(s[|s| - SpaceAtEnd(s)..]);
    }
  }

  lemma SpaceLength(r: string)
    ensures IsSpace(r) ==> 1 <= |r| <= 3
  {
  }

  lemma BareIff(s: string)
    ensures Bare(s) <==> SpaceAtStart(s) == 0 && SpaceAtEnd(s) == 0
  {
    hide IsSpace, SpaceAtStart, SpaceAtEnd;
    StartIff(s);
    EndIff(s);
  }

  lemma NoShorterSpace(r: string, k: nat)
    requires IsSpace(r) && 0 < k < |r|
    ensures !IsSpace(r[..k]) && !IsSpace(r[k..])
  {
  }

  lemma SliceOfConcat(a: string, b: string, i: nat, j: nat)
    requires i <= |a| && j <= |b|
    ensures (a + b)[..i] == a[..i] && (a + b)[|a| + j..] == b[j..]
  {
  }

  /** White-space code points are told by their first bytes. */
  lemma SpacePrefix(r: string, s: string)
    requires IsSpace(r)
    ensures SpaceAtStart(r + s) == |r|
  {
    SpaceLength(r);
    forall k | 0 < k < |r| ensures !IsSpace((r + s)[..k]) {
      NoShorterSpace(r, k);
      SliceOfConcat(r, s, k, 0);
    }
    SliceOfConcat(r, s, |r|, 0);
    hide IsSpace;
    assert r[..|r|] == r;
  }

  /** And by their last. */
  lemma SpaceSuffix(s: string, r: string)
    requires IsSpace(r)
    ensures SpaceAtEnd(s + r) == |r|
  {
    SpaceLength(r);
    var t := s + r;
    if |r| > 1 {
      NoShorterSpace(r, |r| - 1);
      SliceOfConcat(s, r, 0, |r| - 1);
    }
    if |r| > 2 {
      NoShorterSpace(r, |r| - 2);
      SliceOfConcat(s, r, 0, |r| - 2);
    }
    SliceOfConcat(s, r, 0, 0);
    hide IsSpace;
    assert r[0..] == r && t[|t| - |r|..] == r;
    EndWidth(t, |r|);
  }

  lemma EndWidth(t: string, n: nat)
    requires 1 <= n <= 3 && n <= |t| && IsSpace(t[|t| - n..])
    requires (n > 1 ==> !IsSpace(t[|t| - 1..])) && (n > 2 ==> !IsSpace(t[|t| - 2..]))
    ensures SpaceAtEnd(t) == n
  {
    hide IsSpace;
  }

  lemma AllSpaceHead(s: string) returns (k: nat)
    requires AllSpace(s) && s != ""
    ensures 1 <= k <= |s| && IsSpace(s[..k]) && AllSpace(s[k..])
  {
    hide IsSpace;
    if |s| >= 1 && IsSpace(s[..1]) && AllSpace(s[1..]) {
      k := 1;
    } else if |s| >= 2 && IsSpace(s[..2]) && AllSpace(s[2..]) {
      k := 2;
    } else {
      k := 3;
    }
  }

  lemma AllSpaceCons(r: string, s: string)
    requires IsSpace(r) && AllSpace(s)
    ensures AllSpace(r + s)
  {
    SpaceLength(r);
    SliceOfConcat(r, s, |r|, 0);
    hide IsSpace;
    assert r[..|r|] == r && s[0..] == s;
  }

  lemma {:induction false} AllSpaceConcat(a: string, b: string)
    requires AllSpace(a) && AllSpace(b)
    ensures AllSpace(a + b)
  {
    if a == "" {
      assert a + b == b;
    } else {
      hide AllSpace, IsSpace;
      var k := AllSpaceHead(a);
      AllSpaceConcat(a[k..], b);
      AllSpaceCons(a[..k], a[k..] + b);
      ConcatAssociative(a[..k], a[k..], b);
      assert a[..k] + a[k..] == a;
    }
  }

  lemma SpaceIsAllSpace(r: string)
    requires IsSpace(r)
    ensures AllSpace(r)
  {
    assert AllSpace("");
    hide AllSpace, IsSpace;
    AllSpaceCons(r, "");
    assert r + "" == r;
  }

  lemma {:induction false} AllSpaceLast(s: string) returns (k: nat)
    requires AllSpace(s) && s != ""
    ensures k < |s| && AllSpace(s[..k]) && IsSpace(s[k..])
  {
    var h := AllSpaceHead(s);
    assert AllSpace("");
    hide AllSpace, IsSpace;
    if h == |s| {
      k := 0;
      assert s[..0] == "";
      assert s[..h] == s == s[0..];
    } else {
      var l := AllSpaceLast(s[h..]);
      k := h + l;
      AllSpaceCons(s[..h], s[h..][..l]);
      SliceJoin(s, h, l);
    }
  }

  lemma SliceJoin(s: string, k: nat, n: nat)
    requires k + n <= |s|
    ensures s[..k + n] == s[..k] + s[k..][..n] && s[k..][n..] == s[k + n..]
  {
  }

  lemma SliceSplit(s: string, j: nat, n: nat)
    requires j <= n <= |s|
    ensures s[..n][..j] == s[..j] && s[j..] == s[..n][j..] + s[n..]
  {
  }

  lemma {:induction false} TrimLeftIs(s: string) returns (i: nat)
    ensures i <= |s| && TrimLeft(s) == s[i..] && AllSpace(s[..i]) && SpaceAtStart(TrimLeft(s)) == 0
  {
    var k := SpaceAtStart(s);
    assert AllSpace("");
    hide AllSpace, IsSpace, SpaceAtStart;
    if k == 0 {
      i := 0;
      assert s[..0] == "" && s[0..] == s;
    } else {
      var rest := TrimLeftIs(s[k..]);
      i := k + rest;
      AllSpaceCons(s[..k], s[k..][..rest]);
      SliceJoin(s, k, rest);
    }
  }

  lemma {:induction false} TrimRightIs(s: string) returns (j: nat)
    ensures j <= |s| && TrimRight(s) == s[..j] && AllSpace(s[j..]) && SpaceAtEnd(TrimRight(s)) == 0
  {
    var k := SpaceAtEnd(s);
    assert AllSpace("");
    hide AllSpace, IsSpace, SpaceAtEnd;
    if k == 0 {
      j := |s|;
      assert s[|s|..] == "" && s[..|s|] == s;
    } else {
      var n := |s| - k;
      j := TrimRightIs(s[..n]);
      SpaceIsAllSpace(s[n..]);
      AllSpaceConcat(s[..n][j..], s[n..]);
      SliceSplit(s, j, n);
    }
  }

  lemma SpaceInPrefix(s: string, n: nat)
    requires n <= |s|
    ensures SpaceAtStart(s[..n]) > 0 ==> SpaceAtStart(s) > 0
  {
    StartIff(s[..n]);
    StartIff(s);
    hide SpaceAtStart, IsSpace;
    if k: nat :| k <= n && IsSpace(s[..n][..k]) {
      assert s[..n][..k] == s[..k];
    }
  }

  /** TrimSpace takes white-space code points away at both ends, as many as there are, and nothing else. */
  lemma TrimSpaceIs(s: string) returns (i: nat, j: nat)
    ensures i <= j <= |s| && TrimSpace(s) == s[i..j] && AllSpace(s[..i]) && AllSpace(s[j..]) && Bare(TrimSpace(s))
  {
    hide AllSpace, IsSpace, SpaceAtStart, SpaceAtEnd, Bare, TrimLeft, TrimRight;
    i := TrimLeftIs(s);
    var left := s[i..];
    var n := TrimRightIs(left);
    j := i + n;
    assert left[n..] == s[j..] && left[..n] == s[i..j];
    SpaceInPrefix(left, n);
    BareIff(TrimSpace(s));
  }

  lemma {:induction false} TrimLeftDrops(a: string, s: string)
    requires AllSpace(a)
    ensures TrimLeft(a + s) == TrimLeft(s)
  {
    if a == "" {
      assert a + s == s;
    } else {
      hide AllSpace, IsSpace, SpaceAtStart;
      var k := AllSpaceHead(a);
      SpacePrefix(a[..k], a[k..] + s);
      DropOfConcat(a, s, k);
      assert a + s == a[..k] + (a[k..] + s);
      TrimLeftDrops(a[k..], s);
    }
  }

  lemma {:induction false} TrimRightDrops(s: string, b: string)
    requires AllSpace(b)
    ensures TrimRight(s + b) == TrimRight(s)
    decreases |b|
  {
    if b == "" {
      assert s + b == s;
    } else {
      hide AllSpace, IsSpace, SpaceAtEnd;
      var k := AllSpaceLast(b);
      SpaceSuffix(s + b[..k], b[k..]);
      assert s + b == (s + b[..k]) + b[k..];
      assert (s + b)[..|s + b| - |b[k..]|] == s + b[..k];
      TrimRightDrops(s, b[..k]);
    }
  }

  lemma SpaceTail(r: string)
    requires IsSpace(r)
    ensures !IsContinuation(r[0]) && forall i :: 0 < i < |r| ==> IsContinuation(r[i])
  {
  }

  lemma SpacesStart(s: string)
    requires AllSpace(s) && s != ""
    ensures !IsContinuation(s[0])
  {
    var k := AllSpaceHead(s);
    SpaceTail(s[..k]);
  }

  /** What follows cannot complete a white-space code point at the head of a text. */
  lemma BareHead(t: string, b: string)
    requires t != "" && AllSpace(b)
    ensures SpaceAtStart(t + b) > 0 ==> SpaceAtStart(t) > 0
  {
    var k := SpaceAtStart(t + b);
    hide AllSpace;
    if k > 0 {
      SpaceTail((t + b)[..k]);
      if b != "" {
        SpacesStart(b);
        assert (t + b)[|t|] == b[0];
      }
      assert forall i :: 0 < i < k ==> (t + b)[i] == (t + b)[..k][i];
      assert k <= |t|;
      assert (t + b)[..k] == t[..k];
    }
  }

  lemma NothingLeft(s: string)
    ensures SpaceAtStart(s) == 0 ==> TrimLeft(s) == s
    ensures SpaceAtEnd(s) == 0 ==> TrimRight(s) == s
  {
  }

  lemma NothingButSpace(b: string)
    requires AllSpace(b)
    ensures TrimLeft(b) == ""
  {
    hide AllSpace, IsSpace;
    TrimLeftDrops(b, "");
    assert b + "" == b && TrimLeft("") == "";
  }

  lemma TrimSpaceOfBare(t: string, b: string)
    requires t != "" && AllSpace(b) && SpaceAtStart(t) == 0 && SpaceAtEnd(t) == 0
    ensures TrimSpace(t + b) == t
  {
    hide AllSpace, IsSpace, TrimLeft, TrimRight, SpaceAtStart, SpaceAtEnd;
    BareHead(t, b);
    NothingLeft(t + b);
    NothingLeft(t);
    TrimRightDrops(t, b);
  }

  /** This determines the result. */
  lemma TrimSpaceUnique(a: string, t: string, b: string)
    requires AllSpace(a) && AllSpace(b) && Bare(t)
    ensures TrimSpace(a + t + b) == t
  {
    hide AllSpace, IsSpace, Bare, TrimLeft, TrimRight, SpaceAtStart, SpaceAtEnd;
    BareIff(t);
    ConcatAssociative(a, t, b);
    TrimLeftDrops(a, t + b);
    NothingLeft("");
    if t == "" {
      NothingButSpace(b);
      assert t + b == b;
      assert TrimRight("") == "" by { BareIff(""); }
    } else {
      TrimSpaceOfBare(t, b);
    }
  }

  // ----- A text without its white space -----

  /** The code points of a valid text that are not white space. */
  function Visible(s: string): string {
    if s == "" then ""
    else
      var w := if RuneWidth(s) == 0 then 1 else RuneWidth(s);
      (if IsSpace(s[..w]) then "" else s[..w]) + Visible(s[w..])
  }

  lemma DropOfConcat(a: string, b: string, w: nat)
    requires w <= |a|
    ensures (a + b)[w..] == a[w..] + b
  {
  }

  function VisibleRune(r: string): string {
    if IsSpace(r) then "" else r
  }

  lemma VisibleStep(s: string, w: nat)
    requires s != "" && w == RuneWidth(s) > 0
    ensures Visible(s) == VisibleRune(s[..w]) + Visible(s[w..])
  {
    hide IsSpace, RuneWidth;
  }

  lemma {:induction false} VisibleConcat(a: string, b: string)
    requires Valid(a)
    ensures Visible(a + b) == Visible(a) + Visible(b)
  {
    if a == "" {
      assert a + b == b && Visible(a) == "";
    } else {
      var w := RuneWidth(a);
      RuneWidthIsLocal(a, b);
      assert Valid(a[w..]);
      hide RuneWidth, IsSpace, Valid, Visible, VisibleRune;
      SliceOfConcat(a, b, w, 0);
      DropOfConcat(a, b, w);
      VisibleStep(a, w);
      VisibleStep(a + b, w);
      VisibleConcat(a[w..], b);
      ConcatAssociative(VisibleRune(a[..w]), Visible(a[w..]), Visible(b));
    }
  }

  lemma {:induction false} NothingVisible(s: string)
    requires AllSpace(s)
    ensures Valid(s) && Visible(s) == ""
  {
    if s != "" {
      var k := AllSpaceHead(s);
      SpaceIsRune(s[..k]);
      RuneWidthIsLocal(s[..k], s[k..]);
      assert s == s[..k] + s[k..];
      NothingVisible(s[k..]);
    }
  }

  /** Trimming keeps everything that is not white space. */
  lemma TrimSpaceKeepsVisible(s: string)
    requires Valid(s)
    ensures Visible(TrimSpace(s)) == Visible(s)
  {
    hide AllSpace, Visible, Valid, TrimSpace, Bare;
    var i, j := TrimSpaceIs(s);
    var a, t, b := s[..i], s[i..j], s[j..];
    NothingVisible(a);
    NothingVisible(b);
    TrimSpaceValid(s);
    ThreeParts(s, i, j);
    VisibleConcat(a, t + b);
    VisibleConcat(t, b);
  }

  lemma ThreeParts(s: string, i: nat, j: nat)
    requires i <= j <= |s|
    ensures s == s[..i] + (s[i..j] + s[j..])
  {
  }
}
