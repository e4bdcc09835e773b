/**
 * The planner node (src/agents/planner.py): the outline parsed from the
 * model's reply, either as the structured JSON schema or, failing that, by
 * the bullet/numbered-line regular expression, stored on the state, and the
 * heuristic confidence derived from the number of steps.
 *
 * The model call is the `raw` parameter; the JSON schema validation of
 * `PlannerOutput` is the `parseSteps` parameter (`None` for a validation or
 * decoding error).
 */
module Planner {
  import opened Wrappers
  import opened Text
  import opened CoreState

  /** `PlanResult`: the confidence and the outline, if any. */
  datatype PlanResult = PlanResult(confidence: real, outline: Option<Outline>)

  /** Length of the leading run of decimal digits. */
  function DigitRun(s: string): (k: nat)
    ensures k <= |s|
    ensures forall i :: 0 <= i < k ==> IsDigit(s[i])
    ensures k < |s| ==> !IsDigit(s[k])
  {
    if s != [] && IsDigit(s[0]) then 1 + DigitRun(s[1..]) else 0
  }

  /** What `\s+(.*)` leaves as group 1 after a marker: at least one
      whitespace character is required, and the greedy `\s+` takes all. */
  function AfterMarker(t: string): Option<string>
  {
    if t != [] && IsPySpace(t[0]) then Some(LStrip(t)) else None
  }

  /** `_LINE_RE.match(line)` and its group 1: optional whitespace, then "-",
      "*" or digits followed by ".", then whitespace and the rest. */
  function LineMatch(line: string): Option<string>
  {
    var rest := LStrip(line);
    if rest != [] && (rest[0] == '-' || rest[0] == '*') then AfterMarker(rest[1..])
    else
      var d := DigitRun(rest);
      if 0 < d < |rest| && rest[d] == '.' then AfterMarker(rest[d + 1..]) else None
  }

  /** The step a line contributes: group 1, stripped, when the line matches. */
  function LineStep(line: string): Option<string>
  {
    match LineMatch(line)
    case Some(g) => Some(Strip(g))
    case None => None
  }

  /** The values `step` gives the lines, in line order. */
  function Collect(lines: seq<string>, step: string -> Option<string>): (r: seq<string>)
    ensures |r| <= |lines|
    decreases |lines|
  {
    if lines == [] then []
    else
      var front, last := lines[..|lines| - 1], lines[|lines| - 1];
      match step(last)
      case Some(v) => Collect(front, step) + [v]
      case None => Collect(front, step)
  }

  /** The steps the lines contribute, in line order. */
  function Steps(lines: seq<string>): (r: seq<string>)
    ensures |r| <= |lines|
  {
    Collect(lines, LineStep)
  }

  /** No whitespace at either end. */
  predicate Trimmed(s: string)
  {
    s == [] || (!IsPySpace(s[0]) && !IsPySpace(s[|s| - 1]))
  }

  /** Every collected value is what `step` gives some line. */
  lemma {:induction false} CollectFrom(lines: seq<string>, step: string -> Option<string>)
    ensures forall k :: 0 <= k < |Collect(lines, step)| ==>
              exists j :: 0 <= j < |lines| && step(lines[j]) == Some(Collect(lines, step)[k])
    decreases |lines|
  {
    if lines != [] {
      var n := |lines| - 1;
      CollectFrom(lines[..n], step);
      var front := Collect(lines[..n], step);
      var r := Collect(lines, step);
      assert r == front || (step(lines[n]).Some? && r == front + [step(lines[n]).value]);
      forall k | 0 <= k < |r| ensures exists j :: 0 <= j < |lines| && step(lines[j]) == Some(r[k]) {
        if k < |front| {
          assert r[k] == front[k];
          var j :| 0 <= j < n && step(lines[..n][j]) == Some(front[k]);
          assert lines[j] == lines[..n][j];
        } else {
          assert step(lines[n]) == Some(r[k]);
        }
      }
    } else {
      assert Collect(lines, step) == [];
    }
  }

  /** Each step is a stripped group of some line, so it carries no
      surrounding whitespace. */
  lemma {:induction false} StepsTrimmed(lines: seq<string>)
    ensures forall k :: 0 <= k < |Steps(lines)| ==> Trimmed(Steps(lines)[k])
  {
    CollectFrom(lines, LineStep);
    forall k | 0 <= k < |Steps(lines)| ensures Trimmed(Steps(lines)[k]) {
      var j :| 0 <= j < |lines| && LineStep(lines[j]) == Some(Steps(lines)[k]);
      LineStepTrimmed(lines[j]);
    }
  }

  lemma {:induction false} LineStepTrimmed(line: string)
    ensures LineStep(line).Some? ==> Trimmed(LineStep(line).value)
  {
    var m := LineMatch(line);
    if m.Some? {
      StripTrimmed(m.value);
    }
  }

  lemma {:induction false} StripTrimmed(g: string)
    ensures Trimmed(Strip(g))
  {
  }

  /** The outline `extract_outline` builds. */
  function ExtractedOutline(text: string): Outline
  {
    Outline(Steps(SplitLines(text)), [], [])
  }

  /** `extract_outline`: one step per matching line, in order; the steps
      carry no surrounding whitespace and there are at most as many as lines. */
  method ExtractOutline(text: string) returns (outline: Outline)
    ensures outline == ExtractedOutline(text)
    ensures |outline.steps| <= |SplitLines(text)|
    ensures outline.learningObjectives == [] && outline.modules == []
  {
    var lines := SplitLines(text);
    var steps: seq<string> := [];
    var i := 0;
    while i < |lines|
      invariant 0 <= i <= |lines|
      invariant steps == Steps(lines[..i])
    {
      StepsStep(lines, i);
      var m := LineMatch(lines[i]);
      if m.Some? {
        steps := steps + [Strip(m.value)];
      }
      i := i + 1;
    }
    assert lines[..i] == lines;
    outline := Outline(steps, [], []);
  }

  lemma {:induction false} StepsStep(lines: seq<string>, i: nat)
    requires i < |lines|
    ensures LineMatch(lines[i]).Some? ==> Steps(lines[..i + 1]) == Steps(lines[..i]) + [Strip(LineMatch(lines[i]).value)]
    ensures LineMatch(lines[i]).None? ==> Steps(lines[..i + 1]) == Steps(lines[..i])
  {
    assert lines[..i + 1][..i] == lines[..i];
    assert lines[..i + 1][i] == lines[i];
  }

  /** A bullet line: indentation, "-" or "*", at least one whitespace
      character, then the item, which is what follows the whitespace. */
  lemma {:induction false} BulletLine(line: string, indent: nat)
    requires indent + 1 < |line|
    requires forall i :: 0 <= i < indent ==> IsPySpace(line[i])
    requires line[indent] == '-' || line[indent] == '*'
    requires IsPySpace(line[indent + 1])
    ensures LineMatch(line) == Some(LStrip(line[indent + 1..]))
  {
    LStripAt(line, indent);
    assert line[indent..][1..] == line[indent + 1..];
  }

  /** A numbered line: digits, ".", at least one whitespace character, then
      the item. */
  lemma {:induction false} NumberedLine(line: string, digits: nat)
    requires 0 < digits && digits + 1 < |line|
    requires forall i :: 0 <= i < digits ==> IsDigit(line[i])
    requires line[digits] == '.' && IsPySpace(line[digits + 1])
    ensures LineMatch(line) == Some(LStrip(line[digits + 1..]))
  {
    assert IsDigit(line[0]);
    assert LStrip(line) == line;
    DigitRunAt(line, digits);
  }

  lemma {:induction false} LStripAt(s: string, n: nat)
    requires n < |s| && !IsPySpace(s[n])
    requires forall i :: 0 <= i < n ==> IsPySpace(s[i])
    ensures LStrip(s) == s[n..]
  {
    var r := LStrip(s);
    assert |s| - |r| == n by {
      if r != [] {
        assert r[0] == s[|s| - |r|];
      }
    }
  }

  lemma {:induction false} DigitRunAt(s: string, n: nat)
    requires n < |s| && !IsDigit(s[n])
    requires forall i :: 0 <= i < n ==> IsDigit(s[i])
    ensures DigitRun(s) == n
  {
    if n > 0 {
      DigitRunAt(s[1..], n - 1);
    }
  }

  /** A line whose first non-blank character is no marker contributes no step. */
  lemma {:induction false} UnmarkedLine(line: string)
    requires LStrip(line) == [] || !(LStrip(line)[0] in {'-', '*'} || IsDigit(LStrip(line)[0]))
    ensures LineMatch(line) == None
  {
  }

  /** The heuristic confidence: 0 without steps, otherwise 0.5 plus a tenth
      per step, capped at 1. */
  function Confidence(steps: nat): (c: real)
    ensures 0.0 <= c <= 1.0
    ensures c == 0.0 <==> steps == 0
  {
    if steps == 0 then 0.0
    else
      var raw := (5 + steps) as real / 10.0;
      if raw < 1.0 then raw else 1.0
  }

  /** More steps never lower the confidence, and five or more give 1.0. */
  lemma {:induction false} ConfidenceMonotone(m: nat, n: nat)
    requires m <= n
    ensures Confidence(m) <= Confidence(n)
    ensures n >= 5 ==> Confidence(n) == 1.0
  {
  }

  /** The outline stored by `run_planner`: the validated schema's steps,
      stripped, or the regular-expression fallback. */
  function PlannedOutline(raw: string, parseSteps: string -> Option<seq<string>>): Outline
  {
    match parseSteps(raw)
    case Some(steps) => Outline(seq(|steps|, i requires 0 <= i < |steps| => Strip(steps[i])), [], [])
    case None => ExtractedOutline(raw)
  }

  /** `run_planner`: stores the planned outline on the state and returns it
      with its confidence; no other field of the state changes. */
  method RunPlanner(state: State, raw: string, parseSteps: string -> Option<seq<string>>) returns (result: PlanResult)
    modifies state`outline
    ensures state.outline == PlannedOutline(raw, parseSteps)
    ensures result == PlanResult(Confidence(|state.outline.steps|), Some(state.outline))
  {
    var outline := EmptyOutline();
    var data := parseSteps(raw);
    if data.Some? {
      var steps := data.value;
      outline := Outline(seq(|steps|, i requires 0 <= i < |steps| => Strip(steps[i])), [], []);
    } else {
      outline := ExtractOutline(raw);
    }
    state.outline := outline;
    var confidence := 0.0;
    if outline.steps != [] {
      confidence := Confidence(|outline.steps|);
    }
    result := PlanResult(confidence, Some(outline));
  }

  /** A one-digit numbered item "d. item". */
  lemma {:induction false} OneDigitItem(line: string, item: string)
    requires |line| > 3 && IsDigit(line[0]) && line[1] == '.' && line[2] == ' ' && line[3..] == item
    requires !IsPySpace(item[0]) && !IsPySpace(item[|item| - 1])
    ensures LineStep(line) == Some(item)
  {
    NumberedLine(line, 1);
    LStripAt(line[2..], 1);
    assert line[2..][1..] == item;
    StripUnchanged(item);
  }

  lemma {:induction false} ThreeLines(l1: string, l2: string, l3: string)
    requires forall i :: 0 <= i < |l1| ==> !IsLineBreak(l1[i])
    requires forall i :: 0 <= i < |l2| ==> !IsLineBreak(l2[i])
    requires l3 != [] && forall i :: 0 <= i < |l3| ==> !IsLineBreak(l3[i])
    ensures SplitLines(l1 + "\n" + (l2 + "\n" + l3)) == [l1, l2, l3]
  {
    SplitLinesCons(l2, l3);
    SplitLinesCons(l1, l2 + "\n" + l3);
    LineEndNone(l3);
  }

  lemma {:induction false} NoBreaks(s: string)
    requires forall i :: 0 <= i < |s| ==> ' ' <= s[i] <= '~'
    ensures forall i :: 0 <= i < |s| ==> !IsLineBreak(s[i])
  {
  }

  /** Lines that each match give their stripped groups, in order. */
  lemma {:induction false} AllMatch(lines: seq<string>, items: seq<string>, step: string -> Option<string>)
    requires |lines| == |items|
    requires forall k :: 0 <= k < |lines| ==> step(lines[k]) == Some(items[k])
    ensures Collect(lines, step) == items
    decreases |lines|
  {
    if lines != [] {
      var n := |lines| - 1;
      AllMatch(lines[..n], items[..n], step);
      assert items == items[..n] + [items[n]];
    }
  }

  /** An item that can follow "1. " on a line of its own. */
  predicate PlainItem(item: string)
  {
    && item != []
    && !IsPySpace(item[0]) && !IsPySpace(item[|item| - 1])
    && forall i :: 0 <= i < |item| ==> !IsLineBreak(item[i])
  }

  lemma {:induction false} NumberedItemLine(prefix: string, item: string)
    requires |prefix| == 3 && IsDigit(prefix[0]) && prefix[1] == '.' && prefix[2] == ' '
    requires PlainItem(item)
    ensures LineStep(prefix + item) == Some(item)
  {
    var line := prefix + item;
    assert line[3..] == item;
    OneDigitItem(line, item);
  }

  lemma {:induction false} NumberedItemNoBreaks(prefix: string, item: string)
    requires |prefix| == 3 && IsDigit(prefix[0]) && prefix[1] == '.' && prefix[2] == ' '
    requires PlainItem(item)
    ensures forall i :: 0 <= i < |prefix + item| ==> !IsLineBreak((prefix + item)[i])
  {
    var line := prefix + item;
    forall i | 0 <= i < |line| ensures !IsLineBreak(line[i]) {
      if i >= 3 {
        assert line[i] == item[i - 3];
      } else {
        assert line[i] == prefix[i];
      }
    }
  }

  lemma {:induction false} ThreeItems(l1: string, l2: string, l3: string, items: seq<string>, step: string -> Option<string>)
    requires forall i :: 0 <= i < |l1| ==> !IsLineBreak(l1[i])
    requires forall i :: 0 <= i < |l2| ==> !IsLineBreak(l2[i])
    requires l3 != [] && forall i :: 0 <= i < |l3| ==> !IsLineBreak(l3[i])
    requires |items| == 3 && step(l1) == Some(items[0]) && step(l2) == Some(items[1]) && step(l3) == Some(items[2])
    ensures Collect(SplitLines(l1 + "\n" + (l2 + "\n" + l3)), step) == items
  {
    ThreeLines(l1, l2, l3);
    AllMatch([l1, l2, l3], items, step);
  }

  /** The reply of the source's first test, for any three items: three
      numbered lines give their three items as steps, and three steps give a
      confidence of 0.8. */
  lemma {:induction false} NumberedReplyExample(i1: string, i2: string, i3: string)
    requires PlainItem(i1) && PlainItem(i2) && PlainItem(i3)
    ensures Steps(SplitLines(("1. " + i1) + "\n" + (("2. " + i2) + "\n" + ("3. " + i3)))) == [i1, i2, i3]
    ensures Confidence(3) == 0.8
  {
    NumberedItemLine("1. ", i1);
    NumberedItemLine("2. ", i2);
    NumberedItemLine("3. ", i3);
    NumberedItemNoBreaks("1. ", i1);
    NumberedItemNoBreaks("2. ", i2);
    NumberedItemNoBreaks("3. ", i3);
    ThreeItems("1. " + i1, "2. " + i2, "3. " + i3, [i1, i2, i3], LineStep);
  }

  /** The reply of the source's second test: nothing to parse gives no steps
      and a confidence of 0. */
  lemma {:induction false} EmptyReplyExample(parseSteps: string -> Option<seq<string>>)
    requires parseSteps("") == None
    ensures PlannedOutline("", parseSteps).steps == []
    ensures Confidence(0) == 0.0
  {
  }
}
