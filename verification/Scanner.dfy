/** The line scanner of check_test_automation.py: which lines are allowed, and which references a flow makes. */
module Scanning {
  import opened Options

  /** A path read as a runFlow reference: `Rejected` is malformed, dynamic, missing or outside the helpers. */
  datatype Reference = Rejected | To(helper: string)

  /** A line as the regular expressions see it.  A command has a `suffix` if anything follows its name and an `argument`
  if anything follows the colon, which may read as a reference.  `password` says that the line names the lab password,
  `mixed` that the argument holds it together with something else, and `passwordText` that the line is exactly a
  `text:` field with it. */
  datatype Line =
    | Skipped
    | Command(indent: nat, name: string, suffix: bool, argument: bool, reference: Reference, password: bool,
              mixed: bool)
    | Dashed(indent: nat)
    | Other(indent: nat, file: Option<Reference>, password: bool, passwordText: bool)

  const RUN_FLOW: string := "runFlow"
  const INPUT_TEXT: string := "inputText"
  const LAUNCH_APP: string := "launchApp"

  const FORBIDDEN: set<string> := {
    "addMedia", "assertNoDefectsWithAI", "assertWithAI", "copyText", "copyTextFrom", "evalScript", "extractTextWithAI",
    "openLink", "runScript"}

  const ALLOWED: set<string> := {
    "assertNotVisible", "assertVisible", "extendedWaitUntil", INPUT_TEXT, LAUNCH_APP, "pressKey", "repeat", RUN_FLOW,
    "scrollUntilVisible", "swipe", "tapOn"}

  // ----- The block a line stands in -----

  /** The command opens an indented block instead of taking an argument. */
  predicate Opens(l: Line, command: string) {
    l.Command? && l.name == command && !l.argument
  }

  /** A line that is not deeper than the open block closes it. */
  function Kept(block: Option<nat>, indent: nat): Option<nat> {
    if block.Some? && indent <= block.value then None else block
  }

  /** The indentation of the open block of `command` after these lines. */
  function Block(lines: seq<Line>, command: string): Option<nat> {
    if lines == [] then None
    else
      var block, l := Block(lines[..|lines| - 1], command), lines[|lines| - 1];
      if l.Skipped? then block else if Opens(l, command) then Some(l.indent) else Kept(block, l.indent)
  }

  predicate Inside(lines: seq<Line>, i: nat, command: string)
    requires i < |lines| && !lines[i].Skipped?
  {
    Kept(Block(lines[..i], command), lines[i].indent).Some?
  }

  /** Line `j` is the last that opened a block of `command` before line `i`, and all lines since are deeper. */
  predicate OpenedBy(lines: seq<Line>, command: string, j: int, i: nat)
    requires i <= |lines|
  {
    && 0 <= j < i && Opens(lines[j], command)
    && forall k :: j < k < i ==> !Opens(lines[k], command) && (lines[k].Skipped? || lines[j].indent < lines[k].indent)
  }

  lemma {:induction false} BlockIff(lines: seq<Line>, command: string, indent: nat)
    ensures Block(lines, command) == Some(indent) <==>
            exists j :: OpenedBy(lines, command, j, |lines|) && lines[j].indent == indent
  {
    if lines != [] {
      var n := |lines| - 1;
      var init, last := lines[..n], lines[n];
      BlockIff(init, command, indent);
      if Opens(last, command) {
        assert last.indent == indent ==> OpenedBy(lines, command, n, |lines|);
      } else {
        if j :| OpenedBy(init, command, j, n) && init[j].indent == indent && (last.Skipped? || indent < last.indent) {
          assert OpenedBy(lines, command, j, |lines|);
        }
        if j :| OpenedBy(lines, command, j, |lines|) && lines[j].indent == indent {
          assert OpenedBy(init, command, j, n);
        }
      }
    }
  }

  /** A line is inside a block exactly if it and all lines since the last opening are deeper than that opening: a nested
  block that ends also ends the one around it. */
  lemma InsideIff(lines: seq<Line>, i: nat, command: string)
    requires i < |lines| && !lines[i].Skipped?
    ensures Inside(lines, i, command) <==>
            exists j :: OpenedBy(lines, command, j, i) && lines[j].indent < lines[i].indent
  {
    var before := lines[..i];
    if Inside(lines, i, command) {
      BlockIff(before, command, Block(before, command).value);
      var j :| OpenedBy(before, command, j, i) && before[j].indent == Block(before, command).value;
      assert OpenedBy(lines, command, j, i);
    }
    if j :| OpenedBy(lines, command, j, i) && lines[j].indent < lines[i].indent {
      assert OpenedBy(before, command, j, i);
      BlockIff(before, command, lines[j].indent);
    }
  }

  // ----- What a line may say and refer to -----

  /** The line breaks no rule of its own. */
  predicate LineOk(lines: seq<Line>, i: nat)
    requires i < |lines|
  {
    match lines[i]
    case Skipped => true
    case Command(_, name, suffix, argument, _, password, mixed) =>
      && name !in FORBIDDEN && name in ALLOWED
      && !(name == LAUNCH_APP && suffix)
      && (if name == INPUT_TEXT then argument ==> !mixed else !password)
    case Dashed(_) => false
    case Other(_, _, password, passwordText) => password ==> Inside(lines, i, INPUT_TEXT) && passwordText
  }

  /** A runFlow argument, or a `file` field inside a runFlow block. */
  function ReferenceAt(lines: seq<Line>, i: nat): Option<Reference>
    requires i < |lines|
  {
    match lines[i]
    case Command(_, name, _, argument, reference, _, _) =>
      if name == RUN_FLOW && argument then Some(reference) else None
    case Other(_, file, _, _) => if Inside(lines, i, RUN_FLOW) then file else None
    case _ => None
  }

  ghost predicate InBlock(lines: seq<Line>, command: string, i: nat)
    requires i < |lines| && !lines[i].Skipped?
  {
    exists j :: OpenedBy(lines, command, j, i) && lines[j].indent < lines[i].indent
  }

  /** References are exactly the arguments of runFlow and the `file` fields in its blocks. */
  lemma ReferenceAtIff(lines: seq<Line>, i: nat, r: Reference)
    requires i < |lines|
    ensures ReferenceAt(lines, i) == Some(r) <==>
            || (lines[i].Command? && lines[i].name == "runFlow" && lines[i].argument && lines[i].reference == r)
            || (lines[i].Other? && lines[i].file == Some(r) && InBlock(lines, "runFlow", i))
  {
    if lines[i].Other? {
      InsideIff(lines, i, RUN_FLOW);
    }
  }

  /** The rules for one line: approved commands only, launchApp bare, and the password nowhere but as inputText. */
  lemma LineOkIff(lines: seq<Line>, i: nat)
    requires i < |lines|
    ensures LineOk(lines, i) <==>
            && !lines[i].Dashed?
            && (lines[i].Command? ==>
                  var l := lines[i];
                  && l.name in {"assertNotVisible", "assertVisible", "extendedWaitUntil", "inputText", "launchApp",
                                "pressKey", "repeat", "runFlow", "scrollUntilVisible", "swipe", "tapOn"}
                  && !(l.name == "launchApp" && l.suffix)
                  && (l.name != "inputText" ==> !l.password)
                  && (l.name == "inputText" && l.argument ==> !l.mixed))
            && (lines[i].Other? && lines[i].password ==> lines[i].passwordText && InBlock(lines, "inputText", i))
  {
    if lines[i].Other? {
      InsideIff(lines, i, INPUT_TEXT);
    }
    assert FORBIDDEN !! ALLOWED;
  }
}
