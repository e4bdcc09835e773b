/**
 * The outline parser of the document workflow (app/workflow.py): one
 * heading per non-blank line of the outline, with leading dashes and spaces
 * removed. Generating the document calls the agents and is not part of this
 * model.
 */
module Workflow {
  import opened Text

  /** `line.lstrip("- ").strip()`. */
  function CleanLine(line: string): (r: string)
    ensures |r| <= |line|
    ensures r == [] || (!IsPySpace(r[0]) && !IsPySpace(r[|r| - 1]))
  {
    Strip(LStripChars(line, {'-', ' '}))
  }

  /** `DocumentWorkflow.parse_outline`. */
  function ParseOutline(outline: string): (r: seq<string>)
    ensures |r| == |NonBlank(SplitLines(outline))|
    ensures forall k :: 0 <= k < |r| ==> r[k] == CleanLine(NonBlank(SplitLines(outline))[k])
  {
    Map(NonBlank(SplitLines(outline)), CleanLine)
  }

  /** A "- " bullet is reduced to its text. */
  lemma {:induction false} CleanBullet(text: string)
    requires text != [] && text[0] != '-' && !IsPySpace(text[0]) && !IsPySpace(text[|text| - 1])
    ensures CleanLine("- " + text) == text
  {
    LStripCharsPrefix("- ", text, {'-', ' '});
    StripUnchanged(text);
  }

  /** A text with something else than whitespace is not blank. */
  lemma {:induction false} NotBlank(line: string, i: nat)
    requires i < |line| && !IsPySpace(line[i])
    ensures HasText(line)
  {
    HasTextAt(line);
  }

  /** Non-blank lines joined by newlines are parsed line by line. */
  lemma {:induction false} ParseLines(lines: seq<string>)
    requires forall k :: 0 <= k < |lines| ==> lines[k] != [] && HasText(lines[k])
    requires forall k, i :: 0 <= k < |lines| && 0 <= i < |lines[k]| ==> !IsLineBreak(lines[k][i])
    ensures ParseOutline(Join("\n", lines)) == Map(lines, CleanLine)
  {
    SplitJoin(lines);
    NonBlankAll(lines);
  }

  /** The source's example: "- Intro\n- Body\n- Conclusion" gives "Intro",
      "Body" and "Conclusion". */
  lemma {:induction false} BulletOutline(a: string, b: string, c: string)
    requires forall w :: w in [a, b, c] ==> w != [] && w[0] != '-' && !IsPySpace(w[0]) && !IsPySpace(w[|w| - 1])
    requires forall w, i :: w in [a, b, c] && 0 <= i < |w| ==> !IsLineBreak(w[i])
    ensures ParseOutline(Join("\n", ["- " + a, "- " + b, "- " + c])) == [a, b, c]
  {
    var lines := ["- " + a, "- " + b, "- " + c];
    BulletLines(lines, [a, b, c]);
    ParseLines(lines);
    CleanBullet(a);
    CleanBullet(b);
    CleanBullet(c);
    var r := Map(lines, CleanLine);
    assert r[0] == a && r[1] == b && r[2] == c;
    Three(r, a, b, c);
  }

  lemma {:induction false} BulletLines(lines: seq<string>, words: seq<string>)
    requires |lines| == |words| && forall k :: 0 <= k < |lines| ==> lines[k] == "- " + words[k]
    requires forall w, i :: w in words && 0 <= i < |w| ==> !IsLineBreak(w[i])
    ensures forall k :: 0 <= k < |lines| ==> lines[k] != [] && HasText(lines[k])
    ensures forall k, i :: 0 <= k < |lines| && 0 <= i < |lines[k]| ==> !IsLineBreak(lines[k][i])
  {
    forall k, i | 0 <= k < |lines| && 0 <= i < |lines[k]| ensures !IsLineBreak(lines[k][i]) {
      if i >= 2 {
        assert words[k] in words;
        assert lines[k][i] == words[k][i - 2];
      }
    }
    forall k | 0 <= k < |lines| ensures HasText(lines[k]) {
      NotBlank(lines[k], 0);
    }
  }

  lemma {:induction false} Three<T>(r: seq<T>, a: T, b: T, c: T)
    requires |r| == 3 && r[0] == a && r[1] == b && r[2] == c
    ensures r == [a, b, c]
  {
  }

  /** Numbering is kept: "1. Intro" stays "1. Intro". */
  lemma {:induction false} NumbersKept(text: string)
    requires text != [] && !IsPySpace(text[|text| - 1])
    ensures CleanLine("1. " + text) == "1. " + text
  {
    var line := "1. " + text;
    assert line[0] == '1' && line[|line| - 1] == text[|text| - 1];
    assert LStripChars(line, {'-', ' '}) == line;
    StripUnchanged(line);
  }
}
