/** Version texts of release_control.py: three numbers without leading zeros. */
module Versions {
  import opened Decimals

  /** str.split(".") */
  function Parts(s: string): (ps: seq<string>)
    ensures |ps| > 0
  {
    if s == "" then [""]
    else
      var ps := Parts(s[1..]);
      if s[0] == '.' then [""] + ps else [[s[0]] + ps[0]] + ps[1..]
  }

  function Join(ps: seq<string>): string
    requires |ps| > 0
  {
    if |ps| == 1 then ps[0] else ps[0] + "." + Join(ps[1..])
  }

  predicate IsVersion(s: string) {
    |Parts(s)| == 3 && IsNumber(Parts(s)[0]) && IsNumber(Parts(s)[1]) && IsNumber(Parts(s)[2])
  }

  datatype Triple = Triple(major: nat, minor: nat, patch: nat)

  function TripleOf(s: string): Triple
    requires IsVersion(s)
  {
    Triple(Numeric(Parts(s)[0]), Numeric(Parts(s)[1]), Numeric(Parts(s)[2]))
  }

  predicate Less(a: Triple, b: Triple) {
    || a.major < b.major
    || (a.major == b.major && a.minor < b.minor)
    || (a.major == b.major && a.minor == b.minor && a.patch < b.patch)
  }

  /** The moving tag X.Y of version X.Y.Z. */
  function MinorTag(s: string): string
    requires IsVersion(s)
  {
    Parts(s)[0] + "." + Parts(s)[1]
  }

  lemma {:induction false} JoinParts(s: string)
    ensures Join(Parts(s)) == s
  {
    if s != "" {
      JoinParts(s[1..]);
      var ps := Parts(s[1..]);
      assert s == [s[0]] + s[1..];
      if s[0] == '.' {
        assert Parts(s)[1..] == ps;
        assert Join(Parts(s)) == "" + "." + Join(ps);
      } else {
        assert Parts(s)[1..] == ps[1..];
      }
    }
  }

  /** A version text and its three numbers determine each other. */
  lemma TripleInjective(a: string, b: string)
    requires IsVersion(a) && IsVersion(b) && TripleOf(a) == TripleOf(b)
    ensures a == b
  {
    VersionHasOneText(a);
    VersionHasOneText(b);
  }

  // ----- Versions as numbers -----

  function VersionText(t: Triple): string {
    Digits(t.major) + "." + (Digits(t.minor) + "." + Digits(t.patch))
  }

  /** Every triple has a version text. */
  lemma VersionTextIs(t: Triple)
    ensures IsVersion(VersionText(t)) && TripleOf(VersionText(t)) == t
  {
    DigitsAreNumeric(t.major);
    DigitsAreNumeric(t.minor);
    DigitsAreNumeric(t.patch);
    PartsOfNumber(Digits(t.patch));
    PartsAfterNumber(Digits(t.minor), Digits(t.patch));
    PartsAfterNumber(Digits(t.major), Digits(t.minor) + "." + Digits(t.patch));
  }

  /** And only one. */
  lemma VersionHasOneText(s: string)
    requires IsVersion(s)
    ensures VersionText(TripleOf(s)) == s
  {
    var ps := Parts(s);
    NumericHasOneNotation(ps[0]);
    NumericHasOneNotation(ps[1]);
    NumericHasOneNotation(ps[2]);
    JoinParts(s);
    JoinThree(ps);
  }

  lemma JoinThree(ps: seq<string>)
    requires |ps| == 3
    ensures Join(ps) == ps[0] + "." + (ps[1] + "." + ps[2])
  {
    assert Join(ps[1..]) == ps[1] + "." + Join(ps[1..][1..]);
    assert ps[1..][1..] == [ps[2]];
  }

  lemma MinorTagText(t: Triple)
    ensures IsVersion(VersionText(t)) && MinorTag(VersionText(t)) == Digits(t.major) + "." + Digits(t.minor)
  {
    VersionTextIs(t);
    DigitsAreNumeric(t.major);
    DigitsAreNumeric(t.minor);
    DigitsAreNumeric(t.patch);
    PartsOfNumber(Digits(t.patch));
    PartsAfterNumber(Digits(t.minor), Digits(t.patch));
    PartsAfterNumber(Digits(t.major), Digits(t.minor) + "." + Digits(t.patch));
  }

  /** A version as one number, in a base larger than its components. */
  function Rank(t: Triple, base: nat): nat {
    (t.major * base + t.minor) * base + t.patch
  }

  predicate Below(t: Triple, base: nat) {
    t.major < base && t.minor < base && t.patch < base
  }

  lemma LexicographicIff(x: nat, y: nat, x': nat, y': nat, base: nat)
    requires y < base && y' < base
    ensures x * base + y < x' * base + y' <==> x < x' || (x == x' && y < y')
    ensures x * base + y == x' * base + y' <==> x == x' && y == y'
  {
    if x < x' {
      OneMoreTimes(x, x', base);
    } else if x > x' {
      OneMoreTimes(x', x, base);
    }
  }

  lemma {:induction false} OneMoreTimes(x: nat, x': nat, base: nat)
    requires x < x'
    ensures x * base + base <= x' * base
  {
    if x' > x + 1 {
      OneMoreTimes(x, x' - 1, base);
    }
    assert x' * base == (x' - 1) * base + base;
  }

  /** Versions are ordered as numbers: the first component counts most, then the second, then the third. */
  lemma LessIff(a: Triple, b: Triple, base: nat)
    requires Below(a, base) && Below(b, base)
    ensures Less(a, b) <==> Rank(a, base) < Rank(b, base)
    ensures a == b <==> Rank(a, base) == Rank(b, base)
  {
    LexicographicIff(a.major, a.minor, b.major, b.minor, base);
    RankLexicographic(a, b, base, a.major * base + a.minor, b.major * base + b.minor);
    hide Rank;
  }

  lemma RankLexicographic(a: Triple, b: Triple, base: nat, x: nat, x': nat)
    requires Below(a, base) && Below(b, base) && x == a.major * base + a.minor && x' == b.major * base + b.minor
    ensures Rank(a, base) < Rank(b, base) <==> x < x' || (x == x' && a.patch < b.patch)
    ensures Rank(a, base) == Rank(b, base) <==> x == x' && a.patch == b.patch
  {
    LexicographicIff(x, a.patch, x', b.patch, base);
    assert Rank(a, base) == x * base + a.patch && Rank(b, base) == x' * base + b.patch;
  }

  lemma {:induction false} PartsOfNumber(s: string)
    requires forall i :: 0 <= i < |s| ==> s[i] != '.'
    ensures Parts(s) == [s]
  {
    if s != "" {
      PartsOfNumber(s[1..]);
      assert s == [s[0]] + s[1..];
    }
  }

  lemma {:induction false} PartsAfterNumber(s: string, rest: string)
    requires forall i :: 0 <= i < |s| ==> s[i] != '.'
    ensures Parts(s + "." + rest) == [s] + Parts(rest)
  {
    var t := s + "." + rest;
    if s == "" {
      assert t[1..] == rest;
    } else {
      assert t[1..] == s[1..] + "." + rest;
      PartsAfterNumber(s[1..], rest);
      assert s == [s[0]] + s[1..];
      assert Parts(t) == [[t[0]] + Parts(t[1..])[0]] + Parts(t[1..])[1..];
    }
  }

  /** An X.Y tag has two parts, `latest` has one: numbered tags are neither. */
  lemma OtherTagsAreNotNumbered(v: string)
    requires IsVersion(v)
    ensures |Parts(MinorTag(v))| == 2 && |Parts("latest")| == 1
    ensures !IsVersion(MinorTag(v)) && !IsVersion("latest") && v != "latest" && MinorTag(v) != "latest"
  {
    var a, b := Parts(v)[0], Parts(v)[1];
    PartsAfterNumber(a, b);
    PartsOfNumber(b);
    PartsOfNumber("latest");
    assert Parts(MinorTag(v)) == [a, b];
  }
}

/** promote_server: which image the registry's tags name. */
module Promoting {
  import opened Decimals
  import opened Versions

  /** Tag to digest. */
  type Tags = map<string, string>

  datatype Candidate = Candidate(version: string, digest: string)

  /** A release on GitHub. */
  datatype Release = Release(tagName: string, draft: bool, prerelease: bool)

  /** One run of promote_server.  It stops when a tag write fails or a written tag does not read back: `writes` is the
  number of tag writes that would take effect, `confirmed` the number of those that would read back. */
  datatype Attempt = Attempt(candidate: Candidate, multiArch: bool, releases: seq<Release>, writes: nat, confirmed: nat)

  /** How many of the three tags the run writes, unless it is refused before. */
  function Written(a: Attempt): (n: nat)
    ensures n <= 3
  {
    if a.writes <= a.confirmed && a.writes <= 3 then a.writes else if a.confirmed < 3 then a.confirmed + 1 else 3
  }

  function RemovePrefix(s: string, prefix: string): string {
    if prefix <= s then s[|prefix|..] else s
  }

  function BeforeDash(s: string): string {
    if s == "" || s[0] == '-' then "" else [s[0]] + BeforeDash(s[1..])
  }

  /** Digest to the version labels of that image's configurations, one per architecture. */
  type Labels = string -> seq<string>

  /** The version that a label declares. */
  function Declared(declaration: string): string {
    BeforeDash(RemovePrefix(declaration, "v"))
  }

  /** A published label stops the promotion of `target`: unreadable, or newer. */
  predicate Stops(declaration: string, target: Triple) {
    !IsVersion(Declared(declaration)) || Less(target, TripleOf(Declared(declaration)))
  }

  /** All configurations of the image declare this version. */
  predicate LabelledAs(labels: Labels, digest: string, version: string) {
    labels(digest) != [] && forall l :: l in labels(digest) ==> Declared(l) == version
  }

  /** A published stable release of a newer version. */
  predicate NewerRelease(r: Release, target: Triple) {
    && !r.draft && !r.prerelease && IsVersion(RemovePrefix(r.tagName, "v"))
    && Less(target, TripleOf(RemovePrefix(r.tagName, "v")))
  }

  predicate Refused(labels: Labels, tags: Tags, a: Attempt)
    requires IsVersion(a.candidate.version)
  {
    var c := a.candidate;
    || !a.multiArch
    || (exists r :: r in a.releases && NewerRelease(r, TripleOf(c.version)))
    || ("latest" in tags && exists l :: l in labels(tags["latest"]) && Stops(l, TripleOf(c.version)))
    || (c.version in tags && tags[c.version] != c.digest)
  }

  function TagOrder(version: string): seq<string>
    requires IsVersion(version)
  {
    [version, MinorTag(version), "latest"]
  }

  function Write(tags: Tags, names: seq<string>, digest: string): Tags {
    if names == [] then tags else Write(tags, names[..|names| - 1], digest)[names[|names| - 1] := digest]
  }

  function Promoted(labels: Labels, tags: Tags, a: Attempt): Tags
    requires IsVersion(a.candidate.version)
  {
    if Refused(labels, tags, a) then tags
    else Write(tags, TagOrder(a.candidate.version)[..Written(a)], a.candidate.digest)
  }

  /** The loop over the configurations of the image at `latest`. */
  method LatestStops(configs: seq<string>, target: Triple) returns (stopped: bool)
    ensures stopped <==> exists l :: l in configs && Stops(l, target)
  {
    for i := 0 to |configs|
      invariant forall j :: 0 <= j < i ==> !Stops(configs[j], target)
    {
      var version := Declared(configs[i]);
      if !IsVersion(version) || Less(target, TripleOf(version)) {
        assert configs[i] in configs && Stops(configs[i], target);
        return true;
      }
    }
    stopped := false;
  }

  class Registry {
    const labels: Labels
    var tags: Tags

    constructor (labels: Labels)
      ensures this.labels == labels && tags == map[]
    {
      this.labels := labels;
      tags := map[];
    }

    method PromoteServer(a: Attempt) returns (done: bool)
      requires IsVersion(a.candidate.version)
      modifies this
      ensures tags == Promoted(labels, old(tags), a)
      ensures done <==> !Refused(labels, old(tags), a) && a.writes >= 3 && a.confirmed >= 3
    {
      var c := a.candidate;
      if !a.multiArch {
        return false;
      }
      var target := TripleOf(c.version);
      for i := 0 to |a.releases|
        invariant forall j :: 0 <= j < i ==> !NewerRelease(a.releases[j], target)
      {
        if NewerRelease(a.releases[i], target) {
          return false;
        }
      }
      if "latest" in tags {
        var stopped := LatestStops(labels(tags["latest"]), target);
        if stopped {
          return false;
        }
      }
      if c.version in tags && tags[c.version] != c.digest {
        return false;
      }
      done := WriteTags(a);
    }

    /** The last loop of promote_server. */
    method WriteTags(a: Attempt) returns (done: bool)
      requires IsVersion(a.candidate.version)
      modifies this
      ensures tags == Write(old(tags), TagOrder(a.candidate.version)[..Written(a)], a.candidate.digest)
      ensures done <==> a.writes >= 3 && a.confirmed >= 3
    {
      hide IsVersion, MinorTag;
      var names := TagOrder(a.candidate.version);
      for i := 0 to |names|
        invariant i <= a.writes && i <= a.confirmed
        invariant tags == Write(old(tags), names[..i], a.candidate.digest)
      {
        if i == a.writes {
          return false;
        }
        tags := tags[names[i] := a.candidate.digest];
        assert names[..i + 1][..i] == names[..i];
        if i == a.confirmed {
          return false;
        }
      }
      done := true;
    }
  }

  // ----- Whole runs -----

  /** Candidates carry valid versions, and their images are labelled with them. */
  predicate LabelsAgree(labels: Labels, attempts: seq<Attempt>) {
    forall i :: 0 <= i < |attempts| ==>
      IsVersion(attempts[i].candidate.version)
      && LabelledAs(labels, attempts[i].candidate.digest, attempts[i].candidate.version)
  }

  function Run(labels: Labels, tags: Tags, attempts: seq<Attempt>): Tags
    requires LabelsAgree(labels, attempts)
  {
    if attempts == [] then tags
    else Promoted(labels, Run(labels, tags, attempts[..|attempts| - 1]), attempts[|attempts| - 1])
  }

  // ----- What a promotion writes -----

  lemma {:induction false} WriteWrites(tags: Tags, names: seq<string>, digest: string)
    ensures forall t :: t in Write(tags, names, digest) <==> t in tags || t in names
    ensures forall t :: t in Write(tags, names, digest) ==>
              Write(tags, names, digest)[t] == if t in names then digest else tags[t]
  {
    if names != [] {
      var init := names[..|names| - 1];
      WriteWrites(tags, init, digest);
      assert names == init + [names[|names| - 1]];
    }
  }

  /** After an attempt that is not refused, the first tags of the order name the candidate, all others what they did. */
  lemma PromotedExactly(labels: Labels, tags: Tags, a: Attempt, t: string)
    requires IsVersion(a.candidate.version) && !Refused(labels, tags, a)
    ensures var c, n, after := a.candidate, Written(a), Promoted(labels, tags, a);
            var written :=
              (t == c.version && n >= 1) || (t == MinorTag(c.version) && n >= 2) || (t == "latest" && n >= 3);
            && (t in after <==> t in tags || written)
            && (t in after ==> after[t] == if written then c.digest else tags[t])
  {
    hide Refused, MinorTag, IsVersion;
    var names, n, c := TagOrder(a.candidate.version), Written(a), a.candidate;
    WriteWrites(tags, names[..n], c.digest);
    hide Write;
    assert n == 0 || n == 1 || n == 2 || n == 3;
    assert names[..0] == [] && names[..1] == [c.version] && names[..3] == names;
    assert names[..2] == [c.version, MinorTag(c.version)];
  }

  // ----- Going forward -----

  /** No label of image `d` declares a newer version than one of `d'`. */
  predicate AtMost(labels: Labels, d: string, d': string) {
    && labels(d') != []
    && forall l, l' :: l in labels(d) && l' in labels(d') ==>
         IsVersion(Declared(l)) && IsVersion(Declared(l')) && !Less(TripleOf(Declared(l')), TripleOf(Declared(l)))
  }

  predicate OlderImage(labels: Labels, d: string, d': string) {
    && AtMost(labels, d, d')
    && forall l, l' :: l in labels(d) && l' in labels(d') ==> Less(TripleOf(Declared(l)), TripleOf(Declared(l')))
  }

  predicate NotOlder(labels: Labels, d: string, d': string) {
    d == d' || AtMost(labels, d, d')
  }

  lemma AtMostTransitive(labels: Labels, d: string, d': string, d'': string)
    requires AtMost(labels, d, d') && AtMost(labels, d', d'')
    ensures AtMost(labels, d, d'')
    ensures OlderImage(labels, d, d') || OlderImage(labels, d', d'') ==> OlderImage(labels, d, d'')
  {
    hide IsVersion, TripleOf, Declared;
    var middle := labels(d')[0];
    assert middle in labels(d');
  }

  /** `after` keeps every numbered tag of `before`, and its `latest` is the same image or one that is not older. */
  predicate Advances(labels: Labels, before: Tags, after: Tags) {
    && (forall t :: t in before && IsVersion(t) ==> t in after && after[t] == before[t])
    && ("latest" in before ==> "latest" in after && NotOlder(labels, before["latest"], after["latest"]))
  }

  /** Whenever `latest` changes, it changes to a strictly newer version. */
  predicate LatestNewer(labels: Labels, before: Tags, after: Tags) {
    "latest" in before && "latest" in after && before["latest"] != after["latest"] ==>
      OlderImage(labels, before["latest"], after["latest"])
  }

  /** The image at `latest` is labelled, and is also the image under each number it declares. */
  predicate LatestNumbered(labels: Labels, tags: Tags) {
    "latest" in tags ==>
      && labels(tags["latest"]) != []
      && forall l :: l in labels(tags["latest"]) && IsVersion(Declared(l)) ==>
           Declared(l) in tags && tags[Declared(l)] == tags["latest"]
  }

  lemma CandidateAtLeast(labels: Labels, a: Attempt, d: string)
    requires IsVersion(a.candidate.version) && LabelledAs(labels, a.candidate.digest, a.candidate.version)
    requires forall l :: l in labels(d) ==> !Stops(l, TripleOf(a.candidate.version))
    ensures AtMost(labels, d, a.candidate.digest)
  {
  }

  /** One promotion, stopped anywhere, moves neither a numbered tag nor `latest` back. */
  lemma PromotionAdvances(labels: Labels, tags: Tags, a: Attempt)
    requires IsVersion(a.candidate.version) && LabelledAs(labels, a.candidate.digest, a.candidate.version)
    ensures Advances(labels, tags, Promoted(labels, tags, a))
    ensures LatestNumbered(labels, tags) ==> LatestNewer(labels, tags, Promoted(labels, tags, a))
    ensures LatestNumbered(labels, tags) ==> LatestNumbered(labels, Promoted(labels, tags, a))
  {
    if !Refused(labels, tags, a) {
      var c, after := a.candidate, Promoted(labels, tags, a);
      OtherTagsAreNotNumbered(c.version);
      forall t
        ensures t in after <==> || t in tags || (t == c.version && Written(a) >= 1)
                                || (t == MinorTag(c.version) && Written(a) >= 2) || (t == "latest" && Written(a) >= 3)
      {
        PromotedExactly(labels, tags, a, t);
      }
      forall t | t in tags && IsVersion(t) ensures after[t] == tags[t] {
        PromotedExactly(labels, tags, a, t);
      }
      PromotedExactly(labels, tags, a, "latest");
      PromotedExactly(labels, tags, a, c.version);
      if "latest" in tags {
        assert forall l :: l in labels(tags["latest"]) ==> !Stops(l, TripleOf(c.version));
        CandidateAtLeast(labels, a, tags["latest"]);
        if LatestNumbered(labels, tags) && after["latest"] != tags["latest"] {
          NewerThanLatest(labels, tags, a);
        }
      }
    }
  }

  /** If the number of a candidate is not taken by the image at `latest`, that image is strictly older. */
  lemma NewerThanLatest(labels: Labels, tags: Tags, a: Attempt)
    requires IsVersion(a.candidate.version) && LabelledAs(labels, a.candidate.digest, a.candidate.version)
    requires !Refused(labels, tags, a) && LatestNumbered(labels, tags)
    requires "latest" in tags && tags["latest"] != a.candidate.digest
    ensures OlderImage(labels, tags["latest"], a.candidate.digest)
  {
    var c := a.candidate;
    forall l | l in labels(tags["latest"])
      ensures IsVersion(Declared(l)) && Less(TripleOf(Declared(l)), TripleOf(c.version))
    {
      assert !Stops(l, TripleOf(c.version));
      if !Less(TripleOf(Declared(l)), TripleOf(c.version)) {
        TripleInjective(Declared(l), c.version);
      }
    }
  }

  lemma AdvancesTransitive(labels: Labels, a: Tags, b: Tags, c: Tags)
    requires Advances(labels, a, b) && Advances(labels, b, c)
    ensures Advances(labels, a, c)
    ensures LatestNewer(labels, a, b) && LatestNewer(labels, b, c) ==> LatestNewer(labels, a, c)
  {
    hide IsVersion, OlderImage, AtMost;
    if "latest" in a && a["latest"] != b["latest"] && b["latest"] != c["latest"] {
      AtMostTransitive(labels, a["latest"], b["latest"], c["latest"]);
    }
  }

  /** Over any sequence of promotions from any registry, each possibly stopping after any tag write, a numbered tag once
  set never changes and the version at `latest` never decreases; it increases whenever `latest` changes, if the
  image at `latest` also had its own number at the start. */
  lemma {:induction false} ReleasesNeverGoBackward(labels: Labels, tags: Tags, attempts: seq<Attempt>, i: nat)
    requires LabelsAgree(labels, attempts) && i <= |attempts|
    ensures Advances(labels, Run(labels, tags, attempts[..i]), Run(labels, tags, attempts))
    ensures LatestNumbered(labels, tags) ==> LatestNumbered(labels, Run(labels, tags, attempts))
    ensures LatestNumbered(labels, tags) ==>
              LatestNewer(labels, Run(labels, tags, attempts[..i]), Run(labels, tags, attempts))
  {
    if i == |attempts| {
      assert attempts[..i] == attempts;
      if i > 0 {
        ReleasesNeverGoBackward(labels, tags, attempts, i - 1);
      }
    } else {
      var init := attempts[..|attempts| - 1];
      assert init[..i] == attempts[..i];
      ReleasesNeverGoBackward(labels, tags, init, i);
      PromotionAdvances(labels, Run(labels, tags, init), attempts[|attempts| - 1]);
      hide Advances, LatestNumbered, LatestNewer, Promoted;
      AdvancesTransitive(labels, Run(labels, tags, attempts[..i]), Run(labels, tags, init),
                         Run(labels, tags, attempts));
    }
  }

  // ----- The X.Y tag -----

  /** The image at `t` was replaced by one that declares an older version. */
  predicate WentBack(labels: Labels, before: Tags, after: Tags, t: string) {
    && t in before && t in after && before[t] != after[t]
    && exists l, l' :: l in labels(before[t]) && l' in labels(after[t])
                       && IsVersion(Declared(l)) && IsVersion(Declared(l'))
                       && Less(TripleOf(Declared(l')), TripleOf(Declared(l)))
  }

  predicate DeclaresNewer(labels: Labels, d: string, target: Triple) {
    exists l :: l in labels(d) && IsVersion(Declared(l)) && Less(target, TripleOf(Declared(l)))
  }

  /** One promotion moves a tag back exactly if it is the X.Y tag of the candidate, the promotion is not refused, it
  gets as far as that tag, and the image there declares a newer version. */
  lemma WentBackIff(labels: Labels, tags: Tags, a: Attempt, t: string)
    requires IsVersion(a.candidate.version) && LabelledAs(labels, a.candidate.digest, a.candidate.version)
    ensures WentBack(labels, tags, Promoted(labels, tags, a), t) <==>
            && t == MinorTag(a.candidate.version) && !Refused(labels, tags, a) && Written(a) >= 2
            && t in tags && DeclaresNewer(labels, tags[t], TripleOf(a.candidate.version))
  {
    if !Refused(labels, tags, a) {
      var c := a.candidate;
      OtherTagsAreNotNumbered(c.version);
      PromotedExactly(labels, tags, a, t);
      var own := labels(c.digest)[0];
      assert own in labels(c.digest) && Declared(own) == c.version;
      if "latest" in tags && DeclaresNewer(labels, tags["latest"], TripleOf(c.version)) {
        var l :| l in labels(tags["latest"]) && IsVersion(Declared(l))
                 && Less(TripleOf(c.version), TripleOf(Declared(l)));
        assert Stops(l, TripleOf(c.version));
      }
    }
  }

  /** No X.Y tag is ahead of `latest`. */
  predicate MinorsBehindLatest(labels: Labels, tags: Tags) {
    forall t :: t in tags && |Parts(t)| == 2 ==> "latest" in tags && AtMost(labels, tags[t], tags["latest"])
  }

  predicate MinorsNotOlder(labels: Labels, before: Tags, after: Tags) {
    forall t :: t in before && |Parts(t)| == 2 ==> t in after && NotOlder(labels, before[t], after[t])
  }

  /** The promotion writes the X.Y tag but does not get to `latest`. */
  predicate StopsAfterMinor(labels: Labels, tags: Tags, a: Attempt)
    requires IsVersion(a.candidate.version)
  {
    !Refused(labels, tags, a) && Written(a) == 2
  }

  lemma PromotionKeepsMinors(labels: Labels, tags: Tags, a: Attempt)
    requires IsVersion(a.candidate.version) && LabelledAs(labels, a.candidate.digest, a.candidate.version)
    requires MinorsBehindLatest(labels, tags) && !StopsAfterMinor(labels, tags, a)
    ensures MinorsBehindLatest(labels, Promoted(labels, tags, a))
    ensures MinorsNotOlder(labels, tags, Promoted(labels, tags, a))
  {
    if !Refused(labels, tags, a) {
      var c, after := a.candidate, Promoted(labels, tags, a);
      OtherTagsAreNotNumbered(c.version);
      PromotedExactly(labels, tags, a, "latest");
      assert forall l :: l in labels(c.digest) ==> Declared(l) == c.version;
      CandidateAtLeast(labels, a, c.digest);
      if "latest" in tags {
        assert forall l :: l in labels(tags["latest"]) ==> !Stops(l, TripleOf(c.version));
        CandidateAtLeast(labels, a, tags["latest"]);
      }
      forall t | |Parts(t)| == 2
        ensures t in after ==> "latest" in after && AtMost(labels, after[t], after["latest"])
        ensures t in tags ==> t in after && NotOlder(labels, tags[t], after[t])
      {
        PromotedExactly(labels, tags, a, t);
        if t in tags {
          AtMostTransitive(labels, tags[t], tags["latest"], c.digest);
        }
      }
    }
  }

  predicate NoneStopsAfterMinor(labels: Labels, tags: Tags, attempts: seq<Attempt>)
    requires LabelsAgree(labels, attempts)
  {
    forall k :: 0 <= k < |attempts| ==> !StopsAfterMinor(labels, Run(labels, tags, attempts[..k]), attempts[k])
  }

  lemma NoneStopsBefore(labels: Labels, tags: Tags, attempts: seq<Attempt>)
    requires LabelsAgree(labels, attempts) && attempts != [] && NoneStopsAfterMinor(labels, tags, attempts)
    ensures NoneStopsAfterMinor(labels, tags, attempts[..|attempts| - 1])
    ensures !StopsAfterMinor(labels, Run(labels, tags, attempts[..|attempts| - 1]), attempts[|attempts| - 1])
  {
    hide StopsAfterMinor, Run;
    var init := attempts[..|attempts| - 1];
    forall k | 0 <= k < |init| ensures !StopsAfterMinor(labels, Run(labels, tags, init[..k]), init[k]) {
      assert init[..k] == attempts[..k];
    }
  }

  /** From a registry in which no X.Y tag is ahead of `latest`, and as long as no promotion that is not refused stops
  between its second and its third tag write, every X.Y tag names a version that never decreases either. */
  lemma {:induction false} MinorTagsNeverGoBackward(labels: Labels, tags: Tags, attempts: seq<Attempt>, i: nat)
    requires LabelsAgree(labels, attempts) && MinorsBehindLatest(labels, tags) && i <= |attempts|
    requires NoneStopsAfterMinor(labels, tags, attempts)
    ensures MinorsBehindLatest(labels, Run(labels, tags, attempts))
    ensures MinorsNotOlder(labels, Run(labels, tags, attempts[..i]), Run(labels, tags, attempts))
  {
    hide NoneStopsAfterMinor, StopsAfterMinor, MinorsBehindLatest, MinorsNotOlder, Promoted;
    hide LabelledAs, IsVersion;
    if i == |attempts| {
      assert attempts[..i] == attempts;
      if i > 0 {
        MinorTagsNeverGoBackward(labels, tags, attempts, i - 1);
      }
      MinorsNotOlderReflexive(labels, Run(labels, tags, attempts));
    } else {
      var init := attempts[..|attempts| - 1];
      assert init[..i] == attempts[..i];
      NoneStopsBefore(labels, tags, attempts);
      MinorTagsNeverGoBackward(labels, tags, init, i);
      PromotionKeepsMinors(labels, Run(labels, tags, init), attempts[|attempts| - 1]);
      MinorsNotOlderTransitive(labels, Run(labels, tags, attempts[..i]), Run(labels, tags, init),
                               Run(labels, tags, attempts));
    }
  }

  lemma MinorsNotOlderReflexive(labels: Labels, tags: Tags)
    ensures MinorsNotOlder(labels, tags, tags)
  {
  }

  lemma MinorsNotOlderTransitive(labels: Labels, a: Tags, b: Tags, c: Tags)
    requires MinorsNotOlder(labels, a, b) && MinorsNotOlder(labels, b, c)
    ensures MinorsNotOlder(labels, a, c)
  {
    hide AtMost, OlderImage;
    forall t | t in a && |Parts(t)| == 2 ensures t in c && NotOlder(labels, a[t], c[t]) {
      if a[t] != b[t] && b[t] != c[t] {
        AtMostTransitive(labels, a[t], b[t], c[t]);
      }
    }
  }

  /** A single stop there is enough to lose it: after a promotion of X.Y.Z that stops before `latest`, a complete
  promotion of any other X.Y version takes the tag over, an older one included. */
  lemma MinorTagFollowsLastWriter(labels: Labels, v: string, d: string, v': string, d': string)
    returns (first: Attempt, second: Attempt)
    requires IsVersion(v) && IsVersion(v') && v != v' && MinorTag(v) == MinorTag(v')
    requires LabelledAs(labels, d, v) && LabelledAs(labels, d', v')
    ensures LabelsAgree(labels, [first]) && LabelsAgree(labels, [first, second])
    ensures Written(first) == 2 && Written(second) == 3
    ensures var once, twice := Run(labels, map[], [first]), Run(labels, map[], [first, second]);
            && MinorTag(v) in once && once[MinorTag(v)] == d && MinorTag(v) in twice && twice[MinorTag(v)] == d'
            && (Less(TripleOf(v'), TripleOf(v)) ==> WentBack(labels, once, twice, MinorTag(v)))
  {
    first, second := Attempt(Candidate(v, d), true, [], 2, 3), Attempt(Candidate(v', d'), true, [], 3, 3);
    hide Promoted, IsVersion, MinorTag, TripleOf, Less, Declared;
    assert [first][..0] == [] && [first, second][..1] == [first];
    FirstOfTwo(labels, first);
    SecondOfTwo(labels, Promoted(labels, map[], first), first.candidate, second);
  }

  lemma FirstOfTwo(labels: Labels, first: Attempt)
    requires IsVersion(first.candidate.version)
    requires first.multiArch && first.releases == [] && Written(first) == 2
    ensures var c, once := first.candidate, Promoted(labels, map[], first);
            && MinorTag(c.version) in once && once[MinorTag(c.version)] == c.digest
            && "latest" !in once
            && forall t :: t in once ==> t == c.version || t == MinorTag(c.version)
  {
    OtherTagsAreNotNumbered(first.candidate.version);
    hide Promoted, IsVersion, MinorTag;
    forall t
      ensures t in Promoted(labels, map[], first) <==>
              t == first.candidate.version || t == MinorTag(first.candidate.version)
    {
      PromotedExactly(labels, map[], first, t);
    }
    PromotedExactly(labels, map[], first, MinorTag(first.candidate.version));
  }

  lemma SecondOfTwo(labels: Labels, once: Tags, c: Candidate, second: Attempt)
    requires IsVersion(c.version) && IsVersion(second.candidate.version) && c.version != second.candidate.version
    requires MinorTag(c.version) == MinorTag(second.candidate.version)
    requires LabelledAs(labels, c.digest, c.version)
    requires LabelledAs(labels, second.candidate.digest, second.candidate.version)
    requires second.multiArch && second.releases == [] && Written(second) == 3
    requires MinorTag(c.version) in once && once[MinorTag(c.version)] == c.digest && "latest" !in once
    requires forall t :: t in once ==> t == c.version || t == MinorTag(c.version)
    ensures var twice := Promoted(labels, once, second);
            && MinorTag(c.version) in twice && twice[MinorTag(c.version)] == second.candidate.digest
            && (Less(TripleOf(second.candidate.version), TripleOf(c.version)) ==>
                  WentBack(labels, once, twice, MinorTag(c.version)))
  {
    OtherTagsAreNotNumbered(second.candidate.version);
    assert second.candidate.version !in once;
    assert !Refused(labels, once, second);
    hide Promoted, IsVersion, MinorTag, TripleOf, Less, Declared, Refused;
    PromotedExactly(labels, once, second, MinorTag(c.version));
    WentBackIff(labels, once, second, MinorTag(c.version));
    assert labels(c.digest)[0] in labels(c.digest);
  }

  lemma OlderPatchSameMinor()
    ensures IsVersion("1.2.5") && IsVersion("1.2.4") && MinorTag("1.2.5") == MinorTag("1.2.4")
    ensures Less(TripleOf("1.2.4"), TripleOf("1.2.5"))
  {
    hide IsVersion, MinorTag, TripleOf;
    FiveAndFour();
    SmallVersion(5);
    SmallVersion(4);
  }

  lemma FiveAndFour()
    ensures "1.2." + [Digit(5)] == "1.2.5" && "1.2." + [Digit(4)] == "1.2.4"
  {
  }

  lemma SmallVersion(n: nat)
    requires n < 10
    ensures IsVersion("1.2." + [Digit(n)]) && MinorTag("1.2." + [Digit(n)]) == "1.2"
    ensures TripleOf("1.2." + [Digit(n)]) == Triple(1, 2, n)
  {
    var t := Triple(1, 2, n);
    SmallText(n);
    MinorTagText(t);
    VersionTextIs(t);
    assert Digits(1) + "." + Digits(2) == "1.2" by { assert Digits(1) == "1" && Digits(2) == "2"; }
    hide *;
  }

  lemma SmallText(n: nat)
    requires n < 10
    ensures VersionText(Triple(1, 2, n)) == "1.2." + [Digit(n)]
  {
    assert Digits(1) == "1" && Digits(2) == "2" && Digits(n) == [Digit(n)];
    hide Digits;
  }

  // ----- What labels and release names say, and when a promotion goes through -----

  /** Version `u` has the higher number. */
  ghost predicate Higher(u: Triple, t: Triple) {
    forall base :: Below(u, base) && Below(t, base) ==> Rank(t, base) < Rank(u, base)
  }

  lemma HigherIff(u: Triple, t: Triple)
    ensures Higher(u, t) <==> Less(t, u)
  {
    var base := u.major + u.minor + u.patch + t.major + t.minor + t.patch + 1;
    assert Below(u, base) && Below(t, base);
    LessIff(t, u, base);
    forall b: nat | Below(u, b) && Below(t, b) && Less(t, u) ensures Rank(t, b) < Rank(u, b) {
      LessIff(t, u, b);
    }
  }

  lemma {:induction false} BeforeDashIs(s: string, rest: string)
    requires '-' !in s && (rest == "" || rest[0] == '-')
    ensures BeforeDash(s + rest) == s
  {
    if s == "" {
      assert s + rest == rest;
    } else {
      assert (s + rest)[1..] == s[1..] + rest && s == [s[0]] + s[1..];
      BeforeDashIs(s[1..], rest);
    }
  }

  lemma {:induction false} BeforeDashSplits(s: string) returns (rest: string)
    ensures s == BeforeDash(s) + rest && '-' !in BeforeDash(s) && (rest == "" || rest[0] == '-')
  {
    if s == "" || s[0] == '-' {
      rest := s;
      assert "" + s == s;
    } else {
      rest := BeforeDashSplits(s[1..]);
      assert s == [s[0]] + s[1..];
    }
  }

  lemma VersionTextChars(t: Triple)
    ensures '-' !in VersionText(t) && 'v' !in VersionText(t) && VersionText(t) != ""
  {
    DigitsAreNumeric(t.major);
    DigitsAreNumeric(t.minor);
    DigitsAreNumeric(t.patch);
  }

  /** The label is X.Y.Z, possibly after a "v" and before a dash with more. */
  predicate DeclaresVersion(declaration: string, u: Triple, rest: string) {
    && (rest == "" || rest[0] == '-')
    && (declaration == VersionText(u) + rest || declaration == "v" + VersionText(u) + rest)
  }

  lemma DeclaredIff(declaration: string, u: Triple)
    ensures IsVersion(Declared(declaration)) && TripleOf(Declared(declaration)) == u <==>
            exists rest :: DeclaresVersion(declaration, u, rest)
  {
    VersionTextIs(u);
    VersionTextChars(u);
    hide IsVersion, VersionText, TripleOf;
    if IsVersion(Declared(declaration)) && TripleOf(Declared(declaration)) == u {
      VersionHasOneText(Declared(declaration));
      var rest := BeforeDashSplits(RemovePrefix(declaration, "v"));
      PrefixSplits(declaration);
      assert DeclaresVersion(declaration, u, rest);
    }
    if rest :| DeclaresVersion(declaration, u, rest) {
      PrefixRemoved(VersionText(u) + rest);
      assert "v" + (VersionText(u) + rest) == "v" + VersionText(u) + rest;
      BeforeDashIs(VersionText(u), rest);
    }
  }

  lemma PrefixSplits(s: string)
    ensures s == RemovePrefix(s, "v") || s == "v" + RemovePrefix(s, "v")
  {
  }

  lemma PrefixRemoved(s: string)
    requires s != "" && s[0] != 'v'
    ensures RemovePrefix(s, "v") == s && RemovePrefix("v" + s, "v") == s
  {
  }

  /** The image's label is unreadable as a version, or it is a higher one. */
  lemma StopsIff(declaration: string, t: Triple)
    ensures Stops(declaration, t) <==>
            forall u, rest :: DeclaresVersion(declaration, u, rest) ==> Higher(u, t)
  {
    if IsVersion(Declared(declaration)) {
      var u := TripleOf(Declared(declaration));
      DeclaredIff(declaration, u);
      HigherIff(u, t);
    }
    forall u, rest | DeclaresVersion(declaration, u, rest)
      ensures IsVersion(Declared(declaration)) && TripleOf(Declared(declaration)) == u
    {
      DeclaredIff(declaration, u);
      HigherIff(u, t);
    }
    hide DeclaresVersion, Declared, IsVersion, Higher;
  }

  predicate ReleaseOf(tagName: string, u: Triple) {
    tagName == VersionText(u) || tagName == "v" + VersionText(u)
  }

  /** A published, stable release of a higher version; drafts, prereleases and other names do not count. */
  lemma NewerReleaseIff(r: Release, t: Triple)
    ensures NewerRelease(r, t) <==>
            !r.draft && !r.prerelease && exists u :: ReleaseOf(r.tagName, u) && Higher(u, t)
  {
    PrefixSplits(r.tagName);
    if NewerRelease(r, t) {
      var u := TripleOf(RemovePrefix(r.tagName, "v"));
      VersionHasOneText(RemovePrefix(r.tagName, "v"));
      HigherIff(u, t);
      assert ReleaseOf(r.tagName, u);
    }
    if u :| ReleaseOf(r.tagName, u) && Higher(u, t) {
      VersionTextIs(u);
      VersionTextChars(u);
      PrefixRemoved(VersionText(u));
      HigherIff(u, t);
    }
  }

  /** A candidate gets its number exactly if its image has both architectures, no published stable release is higher,
  every label of the image at `latest` declares a version that is not higher, and the number is free. */
  lemma PromotesIff(labels: Labels, tags: Tags, a: Attempt, t: Triple)
    requires a.candidate.version == VersionText(t) && IsVersion(VersionText(t)) && Written(a) >= 1
    requires VersionText(t) in tags ==> tags[VersionText(t)] != a.candidate.digest
    ensures var after := Promoted(labels, tags, a);
            VersionText(t) in after && after[VersionText(t)] == a.candidate.digest <==>
              && a.multiArch && VersionText(t) !in tags
              && (forall r, u ::
                    r in a.releases && !r.draft && !r.prerelease && ReleaseOf(r.tagName, u) ==> !Higher(u, t))
              && ("latest" in tags ==> forall l :: l in labels(tags["latest"]) ==>
                                         exists u, rest :: DeclaresVersion(l, u, rest) && !Higher(u, t))
  {
    VersionTextIs(t);
    if !Refused(labels, tags, a) {
      PromotedExactly(labels, tags, a, VersionText(t));
    }
    forall r | r in a.releases
      ensures NewerRelease(r, t) <==> !r.draft && !r.prerelease && exists u :: ReleaseOf(r.tagName, u) && Higher(u, t)
    {
      NewerReleaseIff(r, t);
    }
    forall l: string ensures Stops(l, t) <==> forall u, rest :: DeclaresVersion(l, u, rest) ==> Higher(u, t) {
      StopsIff(l, t);
    }
    hide IsVersion, VersionText, TripleOf, NewerRelease, Stops, ReleaseOf, DeclaresVersion, Higher, Promoted;
  }

  /** Between any two points of a sequence of promotions, the number of the version at `latest` never falls. */
  lemma LatestNumberNeverFalls(labels: Labels, tags: Tags, attempts: seq<Attempt>, i: nat,
                               l: string, t: Triple, rest: string, l': string, t': Triple, rest': string, base: nat)
    requires LabelsAgree(labels, attempts) && i <= |attempts|
    ensures var before, after := Run(labels, tags, attempts[..i]), Run(labels, tags, attempts);
            "latest" in before ==>
              && "latest" in after
              && (before["latest"] != after["latest"] && l in labels(before["latest"]) && l' in labels(after["latest"])
                  && DeclaresVersion(l, t, rest) && DeclaresVersion(l', t', rest')
                  && Below(t, base) && Below(t', base) ==>
                    Rank(t, base) <= Rank(t', base))
  {
    ReleasesNeverGoBackward(labels, tags, attempts, i);
    if DeclaresVersion(l, t, rest) && DeclaresVersion(l', t', rest') && Below(t, base) && Below(t', base) {
      DeclaredIff(l, t);
      DeclaredIff(l', t');
      LessIff(t', t, base);
    }
    hide Run, DeclaresVersion, IsVersion, Declared, TripleOf, Less;
  }
}
