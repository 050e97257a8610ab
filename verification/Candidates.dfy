/** Which branch owns the public beta channel. */
module Channels {
  import opened Options
  import opened Versions

  datatype Channel = Beta | ReleaseCandidate | Paused | Superseded

  /** Branch name to head commit. */
  type Branches = map<string, string>

  const HEADS: string := "refs/heads/"
  const RELEASE: string := "release/"
  const MAIN: string := "main"

  function Active(branches: Branches): set<string> {
    set name | name in branches && RELEASE <= name
  }

  lemma OnlyMember<T>(s: set<T>, x: T)
    requires |s| <= 1 && x in s
    ensures s == {x}
  {
    assert |s - {x}| == |s| - 1;
    assert s == {x} + (s - {x});
  }

  predicate IsReleaseBranch(name: string) {
    RELEASE <= name && IsVersion(name[|RELEASE|..])
  }

  /** channel_for; None is the raised error. */
  function ChannelFor(ref: string, sha: string, branches: Branches): Option<Channel> {
    var active := Active(branches);
    if exists name :: name in active && !IsReleaseBranch(name) then None
    else if |active| > 1 then None
    else if !(HEADS <= ref) then None
    else
      var branch := ref[|HEADS|..];
      if branch != MAIN && branch !in active then None
      else if branch !in branches || branches[branch] != sha then Some(Superseded)
      else if branch == MAIN then Some(if active != {} then Paused else Beta)
      else Some(ReleaseCandidate)
  }

  /** All release branches are release/X.Y.Z, and there is at most one. */
  ghost predicate BranchesLegal(branches: Branches) {
    && (forall name :: name in branches && "release/" <= name ==> exists t :: name == "release/" + VersionText(t))
    && (forall a, b :: a in branches && b in branches && "release/" <= a && "release/" <= b ==> a == b)
  }

  lemma ReleaseBranchIff(name: string)
    ensures IsReleaseBranch(name) <==> exists t :: name == "release/" + VersionText(t)
  {
    if IsReleaseBranch(name) {
      VersionHasOneText(name[|RELEASE|..]);
      assert name == RELEASE + name[|RELEASE|..];
    }
    if t :| name == "release/" + VersionText(t) {
      VersionTextIs(t);
      assert name[|RELEASE|..] == VersionText(t);
    }
  }

  lemma AtMostOne<T>(s: set<T>)
    ensures |s| <= 1 <==> forall a, b :: a in s && b in s ==> a == b
  {
    if x :| x in s {
      if |s| <= 1 {
        OnlyMember(s, x);
      } else {
        assert |s - {x}| > 0;
        var y :| y in s - {x};
      }
    }
  }

  lemma BranchesLegalIff(branches: Branches)
    ensures BranchesLegal(branches) <==>
            (forall name :: name in Active(branches) ==> IsReleaseBranch(name)) && |Active(branches)| <= 1
  {
    forall name: string ensures IsReleaseBranch(name) <==> exists t :: name == "release/" + VersionText(t) {
      ReleaseBranchIff(name);
    }
    AtMostOne(Active(branches));
    hide IsReleaseBranch;
    assert forall name :: name in Active(branches) <==> name in branches && "release/" <= name;
    assert (forall name :: name in branches && "release/" <= name ==> exists t :: name == "release/" + VersionText(t))
           <==> forall name :: name in Active(branches) ==> IsReleaseBranch(name);
    assert (forall a, b :: a in branches && b in branches && "release/" <= a && "release/" <= b ==> a == b)
           <==> forall a, b :: a in Active(branches) && b in Active(branches) ==> a == b;
  }

  /** The four channels, and when there is none, read off the branches. */
  lemma ChannelForIff(branch: string, sha: string, branches: Branches)
    ensures var c := ChannelFor("refs/heads/" + branch, sha, branches);
            var head := branch in branches && branches[branch] == sha;
            var releasing := exists name :: name in branches && "release/" <= name;
            if !BranchesLegal(branches) then c == None
            else if branch != "main" && !(branch in branches && "release/" <= branch) then c == None
            else if !head then c == Some(Superseded)
            else if branch != "main" then c == Some(ReleaseCandidate)
            else c == Some(if releasing then Paused else Beta)
  {
    BranchesLegalIff(branches);
    assert ("refs/heads/" + branch)[|HEADS|..] == branch;
    assert (exists name :: name in branches && "release/" <= name) <==> Active(branches) != {} by {
      if name :| name in branches && "release/" <= name {
        assert name in Active(branches);
      }
      if name :| name in Active(branches) {
        assert name in branches && "release/" <= name;
      }
    }
    hide BranchesLegal;
  }

  /** A ref that names no branch has no channel. */
  lemma OtherRefsHaveNone(ref: string, sha: string, branches: Branches)
    requires !("refs/heads/" <= ref)
    ensures ChannelFor(ref, sha, branches) == None
  {
  }

  /** A ref at a commit that may publish to the public beta channel. */
  predicate OwnsBeta(ref: string, sha: string, branches: Branches) {
    ChannelFor(ref, sha, branches) == Some(Beta) || ChannelFor(ref, sha, branches) == Some(ReleaseCandidate)
  }

  /** The owner read off the branches: the only release branch, or main if there is none. */
  predicate IsOwner(name: string, branches: Branches) {
    && name in branches
    && Active(branches) == (if name == MAIN then {} else {name})
    && (name == MAIN || IsReleaseBranch(name))
  }

  lemma OwnsBetaIff(ref: string, sha: string, branches: Branches)
    ensures OwnsBeta(ref, sha, branches) <==>
            HEADS <= ref && IsOwner(ref[|HEADS|..], branches) && branches[ref[|HEADS|..]] == sha
  {
    if HEADS <= ref {
      var branch := ref[|HEADS|..];
      assert MAIN !in Active(branches) && !IsReleaseBranch(MAIN);
      if |Active(branches)| <= 1 && branch in Active(branches) {
        OnlyMember(Active(branches), branch);
      }
    }
  }

  /** For every branch map at most one ref and commit own the public beta. */
  lemma OneBetaOwner(branches: Branches, ref: string, sha: string, ref': string, sha': string)
    requires OwnsBeta(ref, sha, branches) && OwnsBeta(ref', sha', branches)
    ensures ref == ref' && sha == sha'
  {
    OwnsBetaIff(ref, sha, branches);
    OwnsBetaIff(ref', sha', branches);
    var a, b := ref[|HEADS|..], ref'[|HEADS|..];
    assert (a != MAIN ==> a in Active(branches)) && (b != MAIN ==> b in Active(branches));
    assert ref == HEADS + a && ref' == HEADS + b;
  }

  // ----- Whether a source is still current -----

  predicate IsHex(s: string) {
    forall c :: c in s ==> '0' <= c <= '9' || 'a' <= c <= 'f'
  }

  predicate IsSha(s: string) {
    |s| == 40 && IsHex(s)
  }

  function ChannelName(c: Channel): string {
    match c
    case Beta => "beta"
    case ReleaseCandidate => "candidate"
    case Paused => "paused"
    case Superseded => "superseded"
  }

  const PREVIEW: string := "preview"

  /** What a build was made from; `reviewedSha` is the reviewed head of a preview. */
  datatype Source = Source(ref: string, sha: string, channel: string, reviewedSha: string)

  /** A pull request as it is now; `mergeSha` is "" if it has no merge commit. */
  datatype PullRequest = PullRequest(
    number: string, headSha: string, open: bool, draft: bool, mergeSha: string, base: string)

  function PreviewSource(pr: PullRequest, reviewedSha: string): Option<Source> {
    if !IsSha(reviewedSha) || pr.headSha != reviewedSha then None
    else if !pr.open || pr.draft || !IsSha(pr.mergeSha) then None
    else if pr.base != MAIN && !(RELEASE <= pr.base) then None
    else Some(Source("refs/pull/" + pr.number + "/merge", pr.mergeSha, PREVIEW, reviewedSha))
  }

  datatype Verdict = Passes | PausedByRelease | Stopped

  /** current; a raised error is one of the last two verdicts. */
  function Current(source: Source, server: bool, branches: Branches, pr: PullRequest): Verdict {
    if source.channel == PREVIEW then
      var checked := PreviewSource(pr, source.reviewedSha);
      if checked.Some? && checked.value.sha == source.sha then Passes else Stopped
    else
      var channel := ChannelFor(source.ref, source.sha, branches);
      if channel.None? then Stopped
      else
        var name := ChannelName(channel.value);
        var allowed := {source.channel} + if server && source.ref == HEADS + MAIN then {"paused", "beta"} else {};
        if name !in allowed || name == "superseded" then
          if source.channel == "beta" && name == "paused" then PausedByRelease else Stopped
        else Passes
  }

  /** A preview passes exactly while its pull request is open and ready against main or a release branch, with the
  reviewed head and the tested merge commit. */
  lemma PreviewPassesIff(source: Source, server: bool, branches: Branches, pr: PullRequest)
    requires source.channel == "preview"
    ensures Current(source, server, branches, pr).Passes? <==>
            && |source.reviewedSha| == 40 && IsHex(source.reviewedSha) && pr.headSha == source.reviewedSha
            && pr.open && !pr.draft && |pr.mergeSha| == 40 && IsHex(pr.mergeSha) && pr.mergeSha == source.sha
            && (pr.base == "main" || "release/" <= pr.base)
  {
  }

  predicate IsPublic(source: Source) {
    source.channel == "beta" || source.channel == "candidate"
  }

  /** A mobile beta or candidate source passes exactly while its ref and commit own the public beta under that name:
  a beta is the head of main without any release branch, a candidate that of the only release branch. */
  lemma CurrentOwnsIff(source: Source, branches: Branches, pr: PullRequest)
    requires IsPublic(source)
    ensures Current(source, false, branches, pr).Passes? <==>
            && HEADS <= source.ref && IsOwner(source.ref[|HEADS|..], branches)
            && branches[source.ref[|HEADS|..]] == source.sha
            && (source.channel == "beta" <==> source.ref[|HEADS|..] == MAIN)
  {
    OwnsBetaIff(source.ref, source.sha, branches);
  }

  /** At any instant at most one mobile source can publish to the public beta. */
  lemma OneCurrentOwner(branches: Branches, a: Source, b: Source, prA: PullRequest, prB: PullRequest)
    requires IsPublic(a) && Current(a, false, branches, prA).Passes?
    requires IsPublic(b) && Current(b, false, branches, prB).Passes?
    ensures a.ref == b.ref && a.sha == b.sha && a.channel == b.channel
  {
    CurrentOwnsIff(a, branches, prA);
    CurrentOwnsIff(b, branches, prB);
    OwnsBetaIff(a.ref, a.sha, branches);
    OwnsBetaIff(b.ref, b.sha, branches);
    OneBetaOwner(branches, a.ref, a.sha, b.ref, b.sha);
  }

  /** A beta source is paused, rather than stopped, exactly if a release branch took over from an unchanged main. */
  lemma PausedIff(source: Source, server: bool, branches: Branches, pr: PullRequest)
    ensures Current(source, server, branches, pr).PausedByRelease? <==>
            && source.channel == "beta" && !server && source.ref == HEADS + MAIN
            && MAIN in branches && branches[MAIN] == source.sha
            && exists name :: Active(branches) == {name} && IsReleaseBranch(name)
  {
    assert (HEADS + MAIN)[|HEADS|..] == MAIN;
    if ChannelFor(source.ref, source.sha, branches) == Some(Paused) {
      var name :| name in Active(branches);
      OnlyMember(Active(branches), name);
      assert source.ref == HEADS + MAIN;
    }
    if name :| Active(branches) == {name} && IsReleaseBranch(name) {
      assert name in Active(branches);
    }
  }
}

/** Build receipts, candidate manifests and their selection for a stable server release. */
module Selecting {
  import opened Options
  import opened Versions
  import opened Channels

  datatype Record = Record(
    schema: int, platform: string, repository: string, runId: int, runAttempt: int, sha: string, ref: string,
    channel: string, version: string, digest: string, buildNumber: string)

  datatype BuildRun = BuildRun(
    id: int, conclusion: string, event: string, path: string, headBranch: string, headSha: string, runAttempt: int)

  datatype Manifest = Manifest(
    schema: int, sha: string, ref: string, components: map<string, Record>, verification: string)

  /** An artifact whose name is `stem` followed by the number of the run attempt that made it. */
  datatype Artifact<+T> = Artifact(stem: string, attempt: nat, expired: bool, content: T)

  /** A run of the release-candidate workflow with its artifacts. */
  datatype CandidateRun = CandidateRun(run: BuildRun, artifacts: seq<Artifact<Manifest>>)

  /** A build run with its artifacts. */
  datatype Receipt = Receipt(run: BuildRun, artifacts: seq<Artifact<Record>>)

  const MANIFEST_STEM: string := "release-candidate-"
  const SERVER_STEM: string := "server-release-record-"

  predicate Retained<T>(a: Artifact<T>, stem: string, attempts: int) {
    a.stem == stem && a.attempt <= attempts && !a.expired
  }

  /** The index of the newest retained artifact of that name, the first one if several are as new. */
  function Newest<T>(artifacts: seq<Artifact<T>>, stem: string, attempts: int): (i: Option<nat>)
    ensures i.Some? ==> i.value < |artifacts| && Retained(artifacts[i.value], stem, attempts)
  {
    if artifacts == [] then None
    else
      var n := |artifacts| - 1;
      var i := Newest(artifacts[..n], stem, attempts);
      if Retained(artifacts[n], stem, attempts) && (i.None? || artifacts[i.value].attempt < artifacts[n].attempt) then
        Some(n)
      else i
  }

  lemma {:induction false} NewestIs<T>(artifacts: seq<Artifact<T>>, stem: string, attempts: int)
    ensures var i := Newest(artifacts, stem, attempts);
            && (i.None? <==> forall k :: 0 <= k < |artifacts| ==> !Retained(artifacts[k], stem, attempts))
            && (i.Some? ==> forall k :: 0 <= k < |artifacts| && Retained(artifacts[k], stem, attempts) ==>
                              && artifacts[k].attempt <= artifacts[i.value].attempt
                              && (k < i.value ==> artifacts[k].attempt < artifacts[i.value].attempt))
  {
    if artifacts != [] {
      NewestIs(artifacts[..|artifacts| - 1], stem, attempts);
    }
  }

  function Content<T>(artifacts: seq<Artifact<T>>, stem: string, attempts: int): Option<T> {
    var i := Newest(artifacts, stem, attempts);
    if i.None? then None else Some(artifacts[i.value].content)
  }

  /** The content is that of a retained artifact of which none is newer. */
  lemma ContentIff<T>(artifacts: seq<Artifact<T>>, stem: string, attempts: int, c: T)
    ensures Content(artifacts, stem, attempts) == Some(c) <==>
            exists i :: 0 <= i < |artifacts| && artifacts[i].content == c && IsNewest(artifacts, stem, attempts, i)
    ensures Content(artifacts, stem, attempts) == None <==>
            forall k :: 0 <= k < |artifacts| ==>
              artifacts[k].stem != stem || artifacts[k].attempt > attempts || artifacts[k].expired
  {
    NewestIs(artifacts, stem, attempts);
    var i := Newest(artifacts, stem, attempts);
    if i.Some? {
      assert IsNewest(artifacts, stem, attempts, i.value);
    }
  }

  predicate IsNewest<T>(artifacts: seq<Artifact<T>>, stem: string, attempts: int, i: int)
    requires 0 <= i < |artifacts|
  {
    && artifacts[i].stem == stem && artifacts[i].attempt <= attempts && !artifacts[i].expired
    && forall k :: 0 <= k < |artifacts| && artifacts[k].stem == stem && artifacts[k].attempt <= attempts
                   && !artifacts[k].expired ==>
         artifacts[k].attempt <= artifacts[i].attempt && (k < i ==> artifacts[k].attempt < artifacts[i].attempt)
  }

  /** artifact_json: a rerun of failed jobs may reuse what an earlier attempt of the same run recorded. */
  method ArtifactJson<T>(artifacts: seq<Artifact<T>>, stem: string, attempts: int) returns (content: Option<T>)
    ensures content == Content(artifacts, stem, attempts)
  {
    var newest: Option<nat> := None;
    for k := 0 to |artifacts|
      invariant newest == Newest(artifacts[..k], stem, attempts)
    {
      var a := artifacts[k];
      if a.stem == stem && a.attempt <= attempts && !a.expired
         && (newest.None? || artifacts[newest.value].attempt < a.attempt) {
        newest := Some(k);
      }
      assert artifacts[..k + 1][..k] == artifacts[..k];
    }
    assert artifacts[..|artifacts|] == artifacts;
    content := if newest.None? then None else Some(artifacts[newest.value].content);
  }

  function ManifestOf(c: CandidateRun): Option<Manifest> {
    Content(c.artifacts, MANIFEST_STEM, c.run.runAttempt)
  }

  /** select_record, before validation. */
  function RecordOf(receipts: map<int, Receipt>, runId: int): Option<Record> {
    if runId !in receipts then None
    else Content(receipts[runId].artifacts, SERVER_STEM, receipts[runId].run.runAttempt)
  }

  const SERVER: string := "server"
  const CANDIDATE_PATH: string := ".github/workflows/release-candidate.yml"

  function WorkflowPath(platform: string): string {
    if platform == SERVER then ".github/workflows/docker.yml"
    else if platform == "ios" then ".github/workflows/testflight.yml"
    else ".github/workflows/playstore.yml"
  }

  /** text.split("@")[0] */
  function BeforeAt(s: string): string {
    if s == "" || s[0] == '@' then "" else [s[0]] + BeforeAt(s[1..])
  }

  /** The path before the ref it was run at. */
  lemma {:induction false} BeforeAtIs(s: string, rest: string)
    requires '@' !in s && (rest == "" || rest[0] == '@')
    ensures BeforeAt(s + rest) == s
  {
    if s == "" {
      assert s + rest == rest;
    } else {
      assert (s + rest)[1..] == s[1..] + rest && s == [s[0]] + s[1..];
      BeforeAtIs(s[1..], rest);
    }
  }

  lemma {:induction false} BeforeAtSplits(s: string) returns (rest: string)
    ensures s == BeforeAt(s) + rest && '@' !in BeforeAt(s) && (rest == "" || rest[0] == '@')
  {
    if s == "" || s[0] == '@' {
      rest := s;
      assert "" + s == s;
    } else {
      rest := BeforeAtSplits(s[1..]);
      assert s == [s[0]] + s[1..];
    }
  }

  predicate RanFrom(path: string, workflow: string, rest: string) {
    path == workflow + rest && (rest == "" || rest[0] == '@')
  }

  lemma BeforeAtIff(path: string, workflow: string)
    requires '@' !in workflow
    ensures BeforeAt(path) == workflow <==> exists rest :: RanFrom(path, workflow, rest)
  {
    var rest := BeforeAtSplits(path);
    assert BeforeAt(path) == workflow ==> RanFrom(path, workflow, rest);
    if rest :| RanFrom(path, workflow, rest) {
      BeforeAtIs(workflow, rest);
    }
  }

  predicate IsDigest(s: string) {
    |s| == 71 && "sha256:" <= s && IsHex(s[7..])
  }

  predicate IsBuildNumber(s: string) {
    s != "" && '1' <= s[0] <= '9' && forall c :: c in s ==> '0' <= c <= '9'
  }

  /** validate_record */
  predicate RecordValid(repository: string, r: Record, run: BuildRun, platform: string) {
    && run.conclusion == "success" && (run.event == "push" || run.event == "workflow_dispatch")
    && BeforeAt(run.path) == WorkflowPath(platform)
    && r.schema == 1 && r.platform == platform && r.repository == repository
    && r.runId == run.id && 1 <= r.runAttempt <= run.runAttempt
    && r.sha == run.headSha && r.ref == HEADS + run.headBranch && r.channel == "candidate"
    && IsReleaseBranch(run.headBranch) && IsSha(r.sha) && IsVersion(r.version)
    && (if platform == SERVER then r.version == run.headBranch[|RELEASE|..] && IsDigest(r.digest)
        else IsBuildNumber(r.buildNumber))
  }

  /** A server receipt is valid exactly if it says of a successful branch build of the Docker workflow, for this
  repository, what that run says itself, and names version X.Y.Z of release/X.Y.Z with a well-formed digest. */
  lemma ServerReceiptIff(repository: string, r: Record, run: BuildRun)
    ensures RecordValid(repository, r, run, "server") <==>
            && run.conclusion == "success" && (run.event == "push" || run.event == "workflow_dispatch")
            && (exists rest :: RanFrom(run.path, ".github/workflows/docker.yml", rest))
            && r.schema == 1 && r.platform == "server" && r.repository == repository
            && r.runId == run.id && 1 <= r.runAttempt <= run.runAttempt && r.sha == run.headSha
            && |r.sha| == 40 && IsHex(r.sha) && r.channel == "candidate"
            && (exists t :: r.version == VersionText(t))
            && run.headBranch == "release/" + r.version && r.ref == "refs/heads/release/" + r.version
            && |r.digest| == 71 && "sha256:" <= r.digest && IsHex(r.digest[7..])
  {
    hide BeforeAt, IsHex, RanFrom, IsVersion, VersionText, IsSha, IsDigest;
    ShaAndDigest(r);
    VersionTextIff(r.version);
    BeforeAtIff(run.path, ".github/workflows/docker.yml");
    ReleaseBranchIff(run.headBranch);
    if IsReleaseBranch(run.headBranch) && r.version == run.headBranch[|RELEASE|..] {
      VersionHasOneText(r.version);
      ReleaseRef(run.headBranch, r.version);
      assert run.headBranch == "release/" + r.version;
    }
    if run.headBranch == "release/" + r.version {
      assert run.headBranch[|RELEASE|..] == r.version;
      assert HEADS + run.headBranch == "refs/heads/release/" + r.version;
    }
  }

  lemma ShaAndDigest(r: Record)
    ensures IsSha(r.sha) <==> |r.sha| == 40 && IsHex(r.sha)
    ensures IsDigest(r.digest) <==> |r.digest| == 71 && "sha256:" <= r.digest && IsHex(r.digest[7..])
  {
  }

  lemma VersionTextIff(s: string)
    ensures IsVersion(s) <==> exists t :: s == VersionText(t)
  {
    if IsVersion(s) {
      VersionHasOneText(s);
    }
    if t :| s == VersionText(t) {
      VersionTextIs(t);
    }
  }

  predicate IsBlank(s: string) {
    forall c :: c in s ==> IsWhite(c as int)
  }

  /** The characters that str.strip() removes. */
  predicate IsWhite(c: int) {
    || 0x09 <= c <= 0x0D || 0x1C <= c <= 0x20 || c == 0x85 || c == 0xA0 || c == 0x1680 || 0x2000 <= c <= 0x200A
    || c == 0x2028 || c == 0x2029 || c == 0x202F || c == 0x205F || c == 0x3000
  }

  /** The manifest is what combine_records makes of its own components: all from one commit of one ref. */
  predicate Combined(m: Manifest) {
    && m.schema == 1 && m.components != map[] && !IsBlank(m.verification)
    && forall name :: name in m.components ==> m.components[name].sha == m.sha && m.components[name].ref == m.ref
  }

  /** A successful run of the candidate workflow on main. */
  predicate Considered(c: CandidateRun) {
    && c.run.conclusion == "success" && c.run.headBranch == MAIN && c.run.event == "workflow_dispatch"
    && BeforeAt(c.run.path) == CANDIDATE_PATH
  }

  predicate Chooses(m: Manifest, sha: string, version: string) {
    SERVER in m.components && m.components[SERVER].sha == sha && m.components[SERVER].version == version
  }

  /** The search ends at this run: its manifest is gone, or it selects this commit and version. */
  predicate Decides(c: CandidateRun, sha: string, version: string) {
    Considered(c) && (ManifestOf(c).None? || Chooses(ManifestOf(c).value, sha, version))
  }

  predicate FirstToDecide(runs: seq<CandidateRun>, i: nat, sha: string, version: string)
    requires i < |runs|
  {
    Decides(runs[i], sha, version) && forall j :: 0 <= j < i ==> !Decides(runs[j], sha, version)
  }

  /** What a stable release may rely on. */
  predicate Trustworthy(repository: string, receipts: map<int, Receipt>, m: Manifest, sha: string, version: string) {
    && SERVER in m.components
    && (forall name :: name in m.components ==>
          m.components[name].sha == sha && m.components[name].ref == HEADS + RELEASE + version)
    && m.components[SERVER].version == version
    && RecordOf(receipts, m.components[SERVER].runId) == Some(m.components[SERVER])
    && RecordValid(repository, m.components[SERVER], receipts[m.components[SERVER].runId].run, SERVER)
  }

  /** find_server: the first recorded selection of this commit and version decides.  It is returned exactly if its
  manifest is consistent and its server component is the record of a valid build receipt; then all its components are
  on that commit of the release branch of that version.  None is the raised error. */
  method FindServer(repository: string, runs: seq<CandidateRun>, receipts: map<int, Receipt>, sha: string,
                    version: string)
    returns (found: Option<Manifest>)
    ensures found.Some? <==>
            exists i :: 0 <= i < |runs| && FirstToDecide(runs, i, sha, version) && Usable(repository, receipts, runs[i])
    ensures found.Some? ==>
            exists i :: 0 <= i < |runs| && FirstToDecide(runs, i, sha, version) && ManifestOf(runs[i]) == found
    ensures found.Some? ==> Trustworthy(repository, receipts, found.value, sha, version)
  {
    for i := 0 to |runs|
      invariant forall j :: 0 <= j < i ==> !Decides(runs[j], sha, version)
    {
      var c := runs[i];
      if !Considered(c) {
        continue;
      }
      assert Decides(c, sha, version) ==> FirstToDecide(runs, i, sha, version);
      var manifest := ArtifactJson(c.artifacts, MANIFEST_STEM, c.run.runAttempt);
      if manifest.None? {
        return None;
      }
      var m := manifest.value;
      if SERVER in m.components && m.components[SERVER].sha == sha && m.components[SERVER].version == version {
        var chosen := m.components[SERVER];
        if !Combined(m) || chosen.runId !in receipts {
          return None;
        }
        var receipt := receipts[chosen.runId];
        var record := ArtifactJson(receipt.artifacts, SERVER_STEM, receipt.run.runAttempt);
        if record.None? || !RecordValid(repository, record.value, receipt.run, SERVER) || record.value != chosen {
          return None;
        }
        ReleaseRef(receipt.run.headBranch, version);
        return Some(m);
      }
    }
    return None;
  }

  predicate Usable(repository: string, receipts: map<int, Receipt>, c: CandidateRun) {
    && ManifestOf(c).Some? && Combined(ManifestOf(c).value) && SERVER in ManifestOf(c).value.components
    && var chosen := ManifestOf(c).value.components[SERVER];
    && RecordOf(receipts, chosen.runId) == Some(chosen)
    && RecordValid(repository, chosen, receipts[chosen.runId].run, SERVER)
  }

  lemma ReleaseRef(branch: string, version: string)
    requires IsReleaseBranch(branch) && branch[|RELEASE|..] == version
    ensures HEADS + branch == HEADS + RELEASE + version
  {
    assert branch == RELEASE + version;
  }
}
