/** check_test_automation.py: the depth-first check of Maestro flows and the helpers they run. */
module HelperChecking {

  import opened Options
  import opened Scanning

  /** A flow or helper.  `bodyOk` is the verdict on the text as a whole (network URLs, interpolation), `headerOk` that
  on the header of a flow, which declares `name`. */
  datatype File = File(headerOk: bool, name: string, bodyOk: bool, lines: seq<Line>)

  type Repository = map<string, File>

  // ----- Reachability -----

  predicate ReferenceOk(files: Repository, r: Option<Reference>) {
    r.Some? ==> r.value.To? && r.value.helper in files
  }

  /** The file exists and passes every check that does not look into other files. */
  predicate LocalOk(files: Repository, p: string) {
    && p in files && files[p].bodyOk
    && forall i :: 0 <= i < |files[p].lines| ==>
         LineOk(files[p].lines, i) && ReferenceOk(files, ReferenceAt(files[p].lines, i))
  }

  predicate HasReference(files: Repository, p: string, r: Reference) {
    p in files && exists i :: 0 <= i < |files[p].lines| && ReferenceAt(files[p].lines, i) == Some(r)
  }

  predicate Refers(files: Repository, p: string, q: string) {
    HasReference(files, p, To(q))
  }

  predicate IsWalk(files: Repository, w: seq<string>) {
    |w| > 0 && forall i :: 0 <= i < |w| - 1 ==> Refers(files, w[i], w[i + 1])
  }

  predicate WalkFrom(files: Repository, w: seq<string>, p: string, q: string) {
    IsWalk(files, w) && w[0] == p && w[|w| - 1] == q
  }

  ghost predicate Reaches(files: Repository, p: string, q: string) {
    exists w :: WalkFrom(files, w, p, q)
  }

  ghost predicate OnCycle(files: Repository, p: string) {
    exists w :: WalkFrom(files, w, p, p) && |w| > 1
  }

  /** Every file reachable through runFlow passes its local checks, and no reachable file is on a cycle. */
  ghost predicate Good(files: Repository, p: string) {
    forall q :: Reaches(files, p, q) ==> LocalOk(files, q) && !OnCycle(files, q)
  }

  lemma ReachesSelf(files: Repository, p: string)
    ensures Reaches(files, p, p)
  {
    assert WalkFrom(files, [p], p, p);
  }

  lemma ReachesThrough(files: Repository, p: string, q: string, r: string)
    requires Refers(files, p, q) && Reaches(files, q, r)
    ensures Reaches(files, p, r)
    ensures p == r ==> OnCycle(files, p)
  {
    var w :| WalkFrom(files, w, q, r);
    var longer := [p] + w;
    assert forall i :: 0 <= i < |longer| - 1 ==> Refers(files, longer[i], longer[i + 1]) by {
      forall i | 0 <= i < |longer| - 1 ensures Refers(files, longer[i], longer[i + 1]) {
        if i > 0 {
          assert Refers(files, w[i - 1], w[i - 1 + 1]);
        }
      }
    }
    assert WalkFrom(files, longer, p, r);
  }

  lemma ReachesOneMore(files: Repository, p: string, q: string, r: string)
    requires Reaches(files, p, q) && Refers(files, q, r)
    ensures Reaches(files, p, r)
  {
    var w :| WalkFrom(files, w, p, q);
    assert WalkFrom(files, w + [r], p, r);
  }

  lemma GoodIsHereditary(files: Repository, p: string, q: string)
    requires Refers(files, p, q) && Good(files, p)
    ensures Good(files, q)
  {
    forall r | Reaches(files, q, r) ensures Reaches(files, p, r) {
      ReachesThrough(files, p, q, r);
    }
  }

  lemma NotGoodWhen(files: Repository, p: string, q: string)
    requires Refers(files, p, q)
    requires q !in files || Reaches(files, q, p) || !Good(files, q)
    ensures !Good(files, p)
  {
    ReachesSelf(files, p);
    if q in files && Reaches(files, q, p) {
      ReachesThrough(files, p, q, p);
    } else if q in files && Good(files, p) {
      GoodIsHereditary(files, p, q);
    }
  }

  /** A locally valid file that refers only to good files is good, even if it has no place in the search itself. */
  lemma GoodFromReferences(files: Repository, p: string)
    requires LocalOk(files, p) && forall q :: Refers(files, p, q) ==> Good(files, q)
    ensures Good(files, p)
  {
    forall r | Reaches(files, p, r) ensures LocalOk(files, r) && !OnCycle(files, r) {
      var w :| WalkFrom(files, w, p, r);
      if |w| > 1 {
        FirstStep(files, w, p, r);
      } else if c :| WalkFrom(files, c, p, p) && |c| > 1 {
        FirstStep(files, c, p, p);
        assert Reaches(files, c[1], p) && OnCycle(files, p);
        assert false;
      }
    }
  }

  /** The file exists, its text as a whole and each of its lines are in order, and its references name files. */
  predicate Sound(files: Repository, p: string) {
    && p in files && files[p].bodyOk
    && forall i :: 0 <= i < |files[p].lines| ==>
         && LineOk(files[p].lines, i)
         && (ReferenceAt(files[p].lines, i).Some? ==>
               ReferenceAt(files[p].lines, i).value.To? && ReferenceAt(files[p].lines, i).value.helper in files)
  }

  lemma SoundIff(files: Repository, p: string)
    ensures Sound(files, p) <==> LocalOk(files, p)
  {
    hide LineOk, ReferenceAt;
  }

  predicate NoRepeats(w: seq<string>) {
    forall i, j :: 0 <= i < j < |w| ==> w[i] != w[j]
  }

  lemma SubWalk(files: Repository, w: seq<string>, i: nat, j: nat)
    requires IsWalk(files, w) && i <= j < |w|
    ensures WalkFrom(files, w[i..j + 1], w[i], w[j])
  {
    var s := w[i..j + 1];
    forall k | 0 <= k < |s| - 1 ensures Refers(files, s[k], s[k + 1]) {
      assert Refers(files, w[i + k], w[i + k + 1]);
    }
  }

  lemma JoinWalks(files: Repository, w: seq<string>, c: seq<string>, p: string, q: string)
    requires WalkFrom(files, w, p, q) && WalkFrom(files, c, q, q)
    ensures WalkFrom(files, w + c[1..], p, q)
  {
    var s := w + c[1..];
    forall k | 0 <= k < |s| - 1 ensures Refers(files, s[k], s[k + 1]) {
      if k < |w| - 1 {
        assert Refers(files, w[k], w[k + 1]);
      } else {
        var n := k - (|w| - 1);
        assert s[k] == c[n] && s[k + 1] == c[n + 1];
        assert Refers(files, c[n], c[n + 1]);
      }
    }
  }

  /** A file is good exactly if every walk from it along references visits sound files only and none of them twice. */
  lemma GoodIff(files: Repository, p: string)
    ensures Good(files, p) <==>
            forall w :: IsWalk(files, w) && w[0] == p ==> Sound(files, w[|w| - 1]) && NoRepeats(w)
  {
    hide LineOk, ReferenceAt, Refers, Sound, LocalOk;
    if Good(files, p) {
      forall w | IsWalk(files, w) && w[0] == p ensures Sound(files, w[|w| - 1]) && NoRepeats(w) {
        assert WalkFrom(files, w, p, w[|w| - 1]) && Reaches(files, p, w[|w| - 1]);
        SoundIff(files, w[|w| - 1]);
        forall i, j | 0 <= i < j < |w| ensures w[i] != w[j] {
          SubWalk(files, w, 0, i);
          SubWalk(files, w, i, j);
          assert Reaches(files, p, w[i]);
          assert w[i] == w[j] ==> OnCycle(files, w[i]);
        }
      }
    }
    if forall w :: IsWalk(files, w) && w[0] == p ==> Sound(files, w[|w| - 1]) && NoRepeats(w) {
      forall q | Reaches(files, p, q) ensures LocalOk(files, q) && !OnCycle(files, q) {
        var w :| WalkFrom(files, w, p, q);
        SoundIff(files, q);
        forall c | WalkFrom(files, c, q, q) ensures |c| <= 1 {
          JoinWalks(files, w, c, p, q);
          assert NoRepeats(w + c[1..]);
          assert (w + c[1..])[|w| - 1] == q && (w + c[1..])[|w + c[1..]| - 1] == q;
        }
      }
    }
  }

  lemma FirstStep(files: Repository, w: seq<string>, p: string, r: string)
    requires WalkFrom(files, w, p, r) && |w| > 1
    ensures Refers(files, p, w[1]) && WalkFrom(files, w[1..], w[1], r) && Reaches(files, w[1], r)
  {
    assert Refers(files, w[0], w[0 + 1]);
    var rest := w[1..];
    forall i | 0 <= i < |rest| - 1 ensures Refers(files, rest[i], rest[i + 1]) {
      assert Refers(files, w[i + 1], w[i + 1 + 1]);
    }
    assert WalkFrom(files, rest, w[1], r);
  }

  // ----- The validated set -----

  predicate EarlierIn(order: seq<string>, i: nat, q: string)
    requires i <= |order|
  {
    exists j :: 0 <= j < i && order[j] == q
  }

  /** `order` lists files that pass their local checks, each after everything it refers to. */
  ghost predicate Ordered(files: Repository, order: seq<string>) {
    && (forall i, j :: 0 <= i < j < |order| ==> order[i] != order[j])
    && (forall i :: 0 <= i < |order| ==> LocalOk(files, order[i]))
    && (forall i, q :: 0 <= i < |order| && Refers(files, order[i], q) ==> EarlierIn(order, i, q))
  }

  lemma {:induction false} WalkDescends(files: Repository, order: seq<string>, i: nat, w: seq<string>, p: string,
                                        q: string)
    returns (j: nat)
    requires Ordered(files, order) && i < |order| && order[i] == p && WalkFrom(files, w, p, q)
    ensures j <= i && order[j] == q && (|w| > 1 ==> j < i)
    decreases |w|
  {
    if |w| == 1 {
      j := i;
    } else {
      FirstStep(files, w, p, q);
      var k :| 0 <= k < i && order[k] == w[1];
      j := WalkDescends(files, order, k, w[1..], w[1], q);
    }
  }

  /** Everything in a validated set is good: it is closed under references and acyclic. */
  lemma OrderedIsGood(files: Repository, order: seq<string>, i: nat)
    requires Ordered(files, order) && i < |order|
    ensures Good(files, order[i])
  {
    forall q | Reaches(files, order[i], q) ensures LocalOk(files, q) && !OnCycle(files, q) {
      var w :| WalkFrom(files, w, order[i], q);
      var j := WalkDescends(files, order, i, w, order[i], q);
      forall c | WalkFrom(files, c, q, q) ensures |c| == 1 {
        var k := WalkDescends(files, order, j, c, q, q);
      }
    }
  }

  class Checker {
    const files: Repository
    var validated: set<string>
    var visiting: set<string>
    ghost var order: seq<string>

    ghost predicate Valid()
      reads this
    {
      && Ordered(files, order)
      && validated == (set p | p in order)
      && validated !! visiting
      && visiting <= files.Keys
    }

    constructor (files: Repository)
      ensures this.files == files && Valid() && validated == {} && visiting == {}
    {
      this.files := files;
      validated, visiting, order := {}, {}, [];
    }

    lemma ValidatedIsGood(p: string)
      requires Valid() && p in validated
      ensures Good(files, p)
    {
      var i :| 0 <= i < |order| && order[i] == p;
      OrderedIsGood(files, order, i);
    }

    /** validate_helper_reference */
    method ValidateHelperReference(source: string, reference: Reference) returns (ok: bool)
      requires Valid() && HasReference(files, source, reference)
      requires forall v :: v in visiting ==> Reaches(files, v, source)
      modifies this
      ensures ok ==> Valid() && visiting == old(visiting) && old(validated) <= validated
      ensures ok ==> reference.To? && reference.helper in validated
      ensures !ok ==> !Good(files, source)
      decreases |files.Keys - visiting|, 0
    {
      if reference.Rejected? {
        ReachesSelf(files, source);
        return false;
      }
      var helper := reference.helper;
      assert Refers(files, source, helper);
      hide Good, Reaches, Refers, Ordered, LocalOk;
      if helper !in files || helper in visiting {
        NotGoodWhen(files, source, helper);
        return false;
      }
      if helper in validated {
        return true;
      }
      forall v | v in visiting + {helper} ensures Reaches(files, v, helper) {
        if v in visiting {
          ReachesOneMore(files, v, source, helper);
        } else {
          ReachesSelf(files, helper);
        }
      }
      SmallerSet(files.Keys - (visiting + {helper}), files.Keys - visiting, helper);
      visiting := visiting + {helper};
      ok := ValidateMaestroCommands(helper);
      if !ok {
        NotGoodWhen(files, source, helper);
        return false;
      }
      visiting := visiting - {helper};
      MarkValidated(helper);
    }

    method MarkValidated(helper: string)
      requires Valid() && helper !in visiting && helper !in validated
      requires LocalOk(files, helper) && forall q :: Refers(files, helper, q) ==> q in validated
      modifies this`validated, this`order
      ensures Valid() && validated == old(validated) + {helper}
    {
      AppendKeepsOrder(files, order, helper);
      validated := validated + {helper};
      order := order + [helper];
    }

    /** The lines so far are allowed, and what they refer to is validated. */
    ghost predicate Scanned(lines: seq<Line>, n: nat)
      requires n <= |lines|
      reads this
    {
      forall i :: 0 <= i < n ==> LineOk(lines, i) && ReferenceDone(ReferenceAt(lines, i))
    }

    predicate ReferenceDone(r: Option<Reference>)
      reads this
    {
      r.Some? ==> r.value.To? && r.value.helper in validated
    }

    /** validate_maestro_commands */
    method ValidateMaestroCommands(path: string) returns (ok: bool)
      requires Valid() && path in files
      requires forall v :: v in visiting ==> Reaches(files, v, path)
      modifies this
      ensures ok ==> Valid() && visiting == old(visiting) && old(validated) <= validated
      ensures ok ==> LocalOk(files, path) && forall q :: Refers(files, path, q) ==> q in validated
      ensures !ok ==> !Good(files, path)
      decreases |files.Keys - visiting|, 2
    {
      hide Good, Reaches, Refers, LocalOk, Ordered, LineOk, ReferenceAt;
      if !files[path].bodyOk {
        NotLocalNotGood(files, path);
        return false;
      }
      var lines := files[path].lines;
      var runFlow: Option<nat>, inputText: Option<nat> := None, None;
      for i := 0 to |lines|
        invariant Valid() && visiting == old(visiting) && old(validated) <= validated
        invariant runFlow == Block(lines[..i], RUN_FLOW) && inputText == Block(lines[..i], INPUT_TEXT)
        invariant Scanned(lines, i)
      {
        assert lines[..i + 1][..i] == lines[..i];
        var line := lines[i];
        if line.Skipped? {
          SkippedIsOk(lines, i);
          continue;
        }
        if runFlow.Some? && line.indent <= runFlow.value {
          runFlow := None;
        }
        if inputText.Some? && line.indent <= inputText.value {
          inputText := None;
        }
        if line.Command? {
          ok := ValidateCommand(path, i);
          if !ok {
            return false;
          }
          if line.name == RUN_FLOW && !line.argument {
            runFlow := Some(line.indent);
          }
          if line.name == INPUT_TEXT && !line.argument {
            inputText := Some(line.indent);
          }
        } else {
          ok := ValidateField(path, i, runFlow.Some?, inputText.Some?);
          if !ok {
            return false;
          }
        }
      }
      ScannedIsLocal(path);
      ok := true;
    }

    /** The scanner on a command line, but for the blocks it opens. */
    method ValidateCommand(path: string, i: nat) returns (ok: bool)
      requires Valid() && path in files && i < |files[path].lines| && files[path].lines[i].Command?
      requires forall v :: v in visiting ==> Reaches(files, v, path)
      modifies this
      ensures ok ==> Valid() && visiting == old(visiting) && old(validated) <= validated
      ensures ok ==> LineOk(files[path].lines, i) && ReferenceDone(ReferenceAt(files[path].lines, i))
      ensures !ok ==> !Good(files, path)
      decreases |files.Keys - visiting|, 1
    {
      hide Good, Reaches, Ordered;
      var line := files[path].lines[i];
      var name := line.name;
      if name in FORBIDDEN || name !in ALLOWED || (name == LAUNCH_APP && line.suffix) {
        LineNotGood(files, path, i);
        return false;
      }
      if name == RUN_FLOW && line.argument {
        assert ReferenceAt(files[path].lines, i) == Some(line.reference);
        ok := ValidateHelperReference(path, line.reference);
        if !ok {
          return false;
        }
      }
      if name == INPUT_TEXT {
        if line.argument && line.mixed {
          LineNotGood(files, path, i);
          return false;
        }
      } else if line.password {
        LineNotGood(files, path, i);
        return false;
      }
      ok := true;
    }

    /** The scanner on any other line, inside or outside a runFlow and an inputText block. */
    method ValidateField(path: string, i: nat, inRunFlow: bool, inInputText: bool) returns (ok: bool)
      requires Valid() && path in files && i < |files[path].lines|
      requires var l := files[path].lines[i]; !l.Skipped? && !l.Command?
      requires inRunFlow == Inside(files[path].lines, i, RUN_FLOW)
      requires inInputText == Inside(files[path].lines, i, INPUT_TEXT)
      requires forall v :: v in visiting ==> Reaches(files, v, path)
      modifies this
      ensures ok ==> Valid() && visiting == old(visiting) && old(validated) <= validated
      ensures ok ==> LineOk(files[path].lines, i) && ReferenceDone(ReferenceAt(files[path].lines, i))
      ensures !ok ==> !Good(files, path)
      decreases |files.Keys - visiting|, 1
    {
      hide Good, Reaches, Ordered, Inside;
      var line := files[path].lines[i];
      if line.Dashed? {
        LineNotGood(files, path, i);
        return false;
      }
      if inRunFlow && line.file.Some? {
        assert ReferenceAt(files[path].lines, i) == line.file;
        ok := ValidateHelperReference(path, line.file.value);
        if !ok {
          return false;
        }
      }
      if line.password && !(inInputText && line.passwordText) {
        LineNotGood(files, path, i);
        return false;
      }
      ok := true;
    }

    lemma ScannedIsLocal(path: string)
      requires Valid() && path in files && files[path].bodyOk && Scanned(files[path].lines, |files[path].lines|)
      ensures LocalOk(files, path) && forall q :: Refers(files, path, q) ==> q in validated
    {
      var lines := files[path].lines;
      forall i | 0 <= i < |lines| ensures ReferenceOk(files, ReferenceAt(lines, i)) {
        if ReferenceAt(lines, i).Some? {
          ValidatedExists(ReferenceAt(lines, i).value.helper);
        }
      }
    }

    lemma ValidatedExists(p: string)
      requires Valid() && p in validated
      ensures p in files
    {
      var i :| 0 <= i < |order| && order[i] == p;
      assert LocalOk(files, order[i]);
    }

    /** A search of its own: nothing is being visited yet, and the validated set is shared. */
    method ValidateAlone(path: string) returns (ok: bool)
      requires Valid() && visiting == {} && path in files
      modifies this
      ensures ok <==> Good(files, path)
      ensures ok ==> Valid() && visiting == {} && old(validated) <= validated
    {
      ok := ValidateMaestroCommands(path);
      if ok {
        forall q | Refers(files, path, q) ensures Good(files, q) {
          ValidatedIsGood(q);
        }
        GoodFromReferences(files, path);
      }
    }

    /** validate_flow */
    method ValidateFlow(path: string) returns (ok: bool)
      requires Valid() && visiting == {}
      modifies this
      ensures ok <==> FlowGood(files, path)
      ensures ok ==> Valid() && visiting == {} && old(validated) <= validated
    {
      if path !in files || !files[path].headerOk {
        return false;
      }
      ok := ValidateAlone(path);
    }

    /** One round of the loop over the suites: `seen` are the flows of the suites before. */
    method ValidateSuite(suite: Suite, seen: set<string>) returns (ok: bool, flows: set<string>)
      requires Valid() && visiting == {}
      modifies this
      ensures ok <==> SuiteOk(files, suite) && FlowsOf(suite) !! seen
      ensures ok ==> Valid() && visiting == {} && flows == FlowsOf(suite)
    {
      flows := {};
      if !suite.nameOk || |suite.entries| == 0 {
        return false, flows;
      }
      var slugs: set<string>, names: set<string> := {}, {};
      for i := 0 to |suite.entries|
        invariant Valid() && visiting == {}
        invariant forall j :: 0 <= j < i ==> EntryOk(files, suite.entries[j]) && suite.entries[j].flow !in seen
        invariant forall j, k :: 0 <= j < k < i ==> EntriesApart(files, suite.entries[j], suite.entries[k])
        invariant slugs == set j | 0 <= j < i :: suite.entries[j].slug
        invariant names == set j | 0 <= j < i :: NameOf(files, suite.entries[j].flow)
        invariant flows == set j | 0 <= j < i :: suite.entries[j].flow
      {
        var entry := suite.entries[i];
        if !entry.wellFormed || entry.user !in ALLOWED_USERS || !entry.flowOk {
          assert !EntryOk(files, suite.entries[i]);
          return false, flows;
        }
        ok := ValidateFlow(entry.flow);
        if !ok {
          assert !EntryOk(files, suite.entries[i]);
          return false, flows;
        }
        if entry.slug in slugs || NameOf(files, entry.flow) in names || entry.flow in flows {
          assert exists j :: 0 <= j < i && !EntriesApart(files, suite.entries[j], suite.entries[i]);
          return false, flows;
        }
        if entry.flow in seen {
          assert entry.flow in FlowsOf(suite);
          return false, flows;
        }
        slugs, names, flows := slugs + {entry.slug}, names + {NameOf(files, entry.flow)}, flows + {entry.flow};
      }
      ok := true;
    }

    /** validate_suites: one pass over all suites, the flows in no suite and the helpers that no flow reached. */
    method ValidateSuites(suites: seq<Suite>, legacy: bool, flows: set<string>, helpers: set<string>) returns (ok: bool)
      requires Valid() && visiting == {}
      requires flows <= files.Keys && helpers <= files.Keys
      modifies this
      ensures ok <==> && suites != [] && SuitesOk(files, suites) && !legacy
                      && (forall p :: p in flows ==> FlowGood(files, p))
                      && (forall p :: p in helpers ==> Good(files, p))
    {
      if |suites| == 0 {
        return false;
      }
      var suiteFlows := {};
      for i := 0 to |suites|
        invariant Valid() && visiting == {}
        invariant SuitesOk(files, suites[..i])
        invariant forall p :: p in suiteFlows <==> exists j :: 0 <= j < i && p in FlowsOf(suites[j])
        invariant forall p :: p in suiteFlows ==> FlowGood(files, p)
      {
        var own;
        ok, own := ValidateSuite(suites[i], suiteFlows);
        if !ok {
          assert !SuiteOk(files, suites[i]) || exists j :: 0 <= j < i && !(FlowsOf(suites[j]) !! FlowsOf(suites[i]));
          return false;
        }
        suiteFlows := suiteFlows + own;
      }
      assert suites[..|suites|] == suites;
      if legacy {
        return false;
      }
      var leftFlows := flows - suiteFlows;
      while leftFlows != {}
        invariant Valid() && visiting == {} && leftFlows <= flows
        invariant forall p :: p in flows && p !in leftFlows ==> FlowGood(files, p)
      {
        var flow :| flow in leftFlows;
        ok := ValidateFlow(flow);
        if !ok {
          return false;
        }
        leftFlows := leftFlows - {flow};
      }
      ok := ValidateHelpers(helpers);
    }

    /** The last loop of validate_suites. */
    method ValidateHelpers(helpers: set<string>) returns (ok: bool)
      requires Valid() && visiting == {} && helpers <= files.Keys
      modifies this
      ensures ok <==> forall p :: p in helpers ==> Good(files, p)
    {
      var leftover := helpers - validated;
      forall p | p in helpers && p !in leftover ensures Good(files, p) {
        ValidatedIsGood(p);
      }
      while leftover != {}
        invariant Valid() && visiting == {} && leftover <= helpers
        invariant forall p :: p in helpers && p !in leftover ==> Good(files, p)
      {
        var helper :| helper in leftover;
        ok := ValidateAlone(helper);
        if !ok {
          return false;
        }
        leftover := leftover - {helper};
      }
      ok := true;
    }
  }

  lemma SkippedIsOk(lines: seq<Line>, i: nat)
    requires i < |lines| && lines[i].Skipped?
    ensures LineOk(lines, i) && ReferenceAt(lines, i) == None
  {
  }

  lemma NotLocalNotGood(files: Repository, path: string)
    requires path in files ==> !files[path].bodyOk
    ensures !Good(files, path)
  {
    ReachesSelf(files, path);
  }

  lemma LineNotGood(files: Repository, path: string, i: nat)
    requires path in files && i < |files[path].lines| && !LineOk(files[path].lines, i)
    ensures !Good(files, path)
  {
    ReachesSelf(files, path);
  }

  // ----- Suites -----

  const ALLOWED_USERS: set<string> := {"lab-admin", "lab-admin-b", "lab-requester", "lab-restricted", "lab-no-grants"}

  /** An entry of a suite: `wellFormed` if it has exactly a flow and a user, `flowOk` if the flow is a .yaml file in the
  flows directory, whose relative path makes the slug. */
  datatype SuiteEntry = SuiteEntry(wellFormed: bool, user: string, flow: string, flowOk: bool, slug: string)

  datatype Suite = Suite(nameOk: bool, entries: seq<SuiteEntry>)

  function NameOf(files: Repository, flow: string): string {
    if flow in files then files[flow].name else ""
  }

  function FlowsOf(s: Suite): set<string> {
    set i | 0 <= i < |s.entries| :: s.entries[i].flow
  }

  ghost predicate FlowGood(files: Repository, p: string) {
    p in files && files[p].headerOk && Good(files, p)
  }

  ghost predicate EntryOk(files: Repository, e: SuiteEntry) {
    e.wellFormed && e.user in ALLOWED_USERS && e.flowOk && FlowGood(files, e.flow)
  }

  predicate EntriesApart(files: Repository, a: SuiteEntry, b: SuiteEntry) {
    a.slug != b.slug && NameOf(files, a.flow) != NameOf(files, b.flow) && a.flow != b.flow
  }

  /** Within a suite no two entries share a slug, a flow or the name of a flow. */
  ghost predicate SuiteOk(files: Repository, s: Suite) {
    && s.nameOk && s.entries != []
    && (forall i :: 0 <= i < |s.entries| ==> EntryOk(files, s.entries[i]))
    && (forall i, j :: 0 <= i < j < |s.entries| ==> EntriesApart(files, s.entries[i], s.entries[j]))
  }

  /** Each entry names an allowed user and a good flow with a right header, and no two share a slug, flow or name. */
  lemma SuiteOkIff(files: Repository, s: Suite)
    ensures SuiteOk(files, s) <==>
            && s.nameOk && |s.entries| > 0
            && (forall e :: e in s.entries ==>
                  && e.wellFormed && e.flowOk
                  && e.user in {"lab-admin", "lab-admin-b", "lab-requester", "lab-restricted", "lab-no-grants"}
                  && e.flow in files && files[e.flow].headerOk && Good(files, e.flow))
            && (forall i, j :: 0 <= i < j < |s.entries| ==>
                  var a, b := s.entries[i], s.entries[j];
                  a.slug != b.slug && a.flow != b.flow
                  && (a.flow in files && b.flow in files ==> files[a.flow].name != files[b.flow].name))
  {
    hide Good;
    assert forall i :: 0 <= i < |s.entries| ==> s.entries[i] in s.entries;
  }

  /** No flow is in two suites. */
  ghost predicate SuitesOk(files: Repository, suites: seq<Suite>) {
    && (forall i :: 0 <= i < |suites| ==> SuiteOk(files, suites[i]))
    && (forall i, j :: 0 <= i < j < |suites| ==> FlowsOf(suites[i]) !! FlowsOf(suites[j]))
  }

  lemma SmallerSet<T>(a: set<T>, b: set<T>, x: T)
    requires a <= b && x in b && x !in a
    ensures |a| < |b|
  {
    assert |b| == |a| + |b - a|;
  }

  lemma AppendKeepsOrder(files: Repository, order: seq<string>, p: string)
    requires Ordered(files, order) && p !in order && LocalOk(files, p)
    requires forall q :: Refers(files, p, q) ==> q in order
    ensures Ordered(files, order + [p])
  {
    var longer := order + [p];
    forall i, q | 0 <= i < |longer| && Refers(files, longer[i], q) ensures EarlierIn(longer, i, q) {
      if i < |order| {
        assert EarlierIn(order, i, q);
        var j :| 0 <= j < i && order[j] == q;
        assert longer[j] == q;
      } else {
        var j :| 0 <= j < |order| && order[j] == q;
        assert longer[j] == q;
      }
    }
  }
}
