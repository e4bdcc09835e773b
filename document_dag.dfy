/**
 * The heading cleaner of the document DAG (app/document_dag.py): a stripped
 * outline line loses one list marker, number or Markdown heading prefix,
 * matched by `^(?:[-*]|\d+(?:\.\d+)*[.)]?|#+)\s*(.*)`, and the text after
 * it is stripped again. Generating the document calls the agents and is not
 * part of this model.
 *
 * The regular expression is written out as a scanner. Its alternatives are
 * tried in order, and since `\s*(.*)` matches whatever follows, each
 * repetition takes as much as it can.
 */
module DocumentDag {
  import opened Wrappers
  import opened Text

  /** The end of `(?:\.\d+)*` starting at `i`. */
  function GroupsEnd(s: string, i: nat): (r: nat)
    requires i <= |s|
    ensures i <= r <= |s|
    ensures forall k :: i <= k < r ==> IsDigit(s[k]) || s[k] == '.'
    ensures r == |s| || s[r] != '.' || r + 1 == |s| || !IsDigit(s[r + 1])
    decreases |s| - i
  {
    if i + 1 < |s| && s[i] == '.' && IsDigit(s[i + 1]) then GroupsEnd(s, DigitsEnd(s, i + 1)) else i
  }

  /** The end of the run of '#' starting at `i`. */
  function HashesEnd(s: string, i: nat): (r: nat)
    requires i <= |s|
    ensures i <= r <= |s|
    ensures forall k :: i <= k < r ==> s[k] == '#'
    ensures r == |s| || s[r] != '#'
    decreases |s| - i
  {
    if i < |s| && s[i] == '#' then HashesEnd(s, i + 1) else i
  }

  /** Where the prefix `[-*]|\d+(?:\.\d+)*[.)]?|#+` ends, if `s` starts with
      one. */
  function PrefixEnd(s: string): (r: Option<nat>)
    ensures r.None? <==> s == [] || !(s[0] == '-' || s[0] == '*' || s[0] == '#' || IsDigit(s[0]))
    ensures r.Some? ==> 1 <= r.value <= |s|
    ensures s != [] && (s[0] == '-' || s[0] == '*') ==> r == Some(1)
    ensures s != [] && s[0] == '#' ==> r.Some? && (forall k :: 0 <= k < r.value ==> s[k] == '#')
                                       && (r.value == |s| || s[r.value] != '#')
    ensures s != [] && IsDigit(s[0]) ==> r.Some? && forall k :: 0 <= k < r.value ==> IsDigit(s[k]) || s[k] == '.' || (s[k] == ')' && k == r.value - 1)
  {
    if s == [] then None
    else if s[0] == '-' || s[0] == '*' then Some(1)
    else if IsDigit(s[0]) then
      var g := GroupsEnd(s, DigitsEnd(s, 0));
      Some(if g < |s| && (s[g] == '.' || s[g] == ')') then g + 1 else g)
    else if s[0] == '#' then Some(HashesEnd(s, 0))
    else None
  }

  /** What `(.*)` matches: everything before the first '\n'. */
  function UpToNewline(s: string): (r: string)
    ensures StartsWith(s, r) && '\n' !in r
    ensures |r| < |s| ==> s[|r|] == '\n'
    decreases |s|
  {
    if s == [] || s[0] == '\n' then [] else [s[0]] + UpToNewline(s[1..])
  }

  /** `_clean_heading`. */
  function CleanHeading(line: string): (r: string)
    ensures r == [] || (!IsPySpace(r[0]) && !IsPySpace(r[|r| - 1]))
    ensures PrefixEnd(Strip(line)).None? ==> r == Strip(line)
    ensures |r| <= |Strip(line)|
  {
    var s := Strip(line);
    match PrefixEnd(s)
    case None => s
    case Some(p) => Strip(UpToNewline(LStrip(s[p..])))
  }

  /** `DocumentDAG.parse_outline`. */
  function ParseOutline(outline: string): (r: seq<string>)
    ensures |r| == |NonBlank(SplitLines(outline))|
    ensures forall k :: 0 <= k < |r| ==> r[k] == CleanHeading(NonBlank(SplitLines(outline))[k])
  {
    Map(NonBlank(SplitLines(outline)), CleanHeading)
  }

  /** A line after a marker and a space: the marker goes, the text stays. */
  lemma {:induction false} AfterMarker(marker: string, text: string)
    requires PrefixEnd(marker + " " + text) == Some(|marker|)
    requires text != [] && !IsPySpace(text[0]) && !IsPySpace(text[|text| - 1]) && '\n' !in text
    requires marker != [] && !IsPySpace(marker[0])
    ensures CleanHeading(marker + " " + text) == text
  {
    var line := marker + " " + text;
    Spaced(marker, text, line);
    StripUnchanged(line);
    CleanAfter(line, |marker|, text);
  }

  lemma {:induction false} Spaced(marker: string, text: string, line: string)
    requires marker != [] && text != [] && line == marker + " " + text
    ensures line[0] == marker[0] && line[|line| - 1] == text[|text| - 1]
    ensures |marker| <= |line| && line[|marker|..] == " " + text
  {
  }

  lemma {:induction false} CleanAfter(line: string, p: nat, text: string)
    requires Strip(line) == line && PrefixEnd(line) == Some(p) && p <= |line| && line[p..] == " " + text
    requires text != [] && !IsPySpace(text[0]) && !IsPySpace(text[|text| - 1]) && '\n' !in text
    ensures CleanHeading(line) == text
  {
    CleanStripped(line, p);
    SpaceThenText(text);
  }

  /** For a line without surrounding whitespace, the text after the prefix. */
  lemma {:induction false} CleanStripped(s: string, p: nat)
    requires Strip(s) == s && PrefixEnd(s) == Some(p)
    ensures CleanHeading(s) == Strip(UpToNewline(LStrip(s[p..])))
  {
  }

  lemma {:induction false} SpaceThenText(text: string)
    requires text != [] && !IsPySpace(text[0]) && !IsPySpace(text[|text| - 1]) && '\n' !in text
    ensures Strip(UpToNewline(LStrip(" " + text))) == text
  {
    assert (" " + text)[1..] == text;
    assert LStrip(" " + text) == LStrip(text);
    StripUnchanged(text);
    UpToNewlineNone(text);
  }

  lemma {:induction false} UpToNewlineNone(s: string)
    requires '\n' !in s
    ensures UpToNewline(s) == s
    decreases |s|
  {
    if s != [] {
      assert s[0] != '\n' && '\n' !in s[1..];
      UpToNewlineNone(s[1..]);
    }
  }

  /** The prefixes of the source's outlines: "1.", "1.1", "##" and "-". */
  lemma {:induction false} PrefixExamples(text: string)
    ensures PrefixEnd("1. " + text) == Some(2)
    ensures PrefixEnd("1.1 " + text) == Some(3)
    ensures PrefixEnd("## " + text) == Some(2)
    ensures PrefixEnd("- " + text) == Some(1)
  {
    var a, b, c := "1. " + text, "1.1 " + text, "## " + text;
    assert a[0] == '1' && a[1] == '.' && a[2] == ' ';
    assert DigitsEnd(a, 2) == 2 && DigitsEnd(a, 1) == 1 && DigitsEnd(a, 0) == 1;
    assert GroupsEnd(a, 1) == 1;
    assert b[0] == '1' && b[1] == '.' && b[2] == '1' && b[3] == ' ';
    assert DigitsEnd(b, 3) == 3 && DigitsEnd(b, 2) == 3 && DigitsEnd(b, 1) == 1 && DigitsEnd(b, 0) == 1;
    assert GroupsEnd(b, 3) == 3 && GroupsEnd(b, 1) == 3;
    assert c[0] == '#' && c[1] == '#' && c[2] == ' ';
    assert HashesEnd(c, 2) == 2 && HashesEnd(c, 0) == 2;
  }

  /** The headings of the outline "1. Intro", "1.1 Details", "## Conclusion":
      numbering and heading marks are removed. */
  lemma {:induction false} NumberedHeading(text: string)
    requires text != [] && !IsPySpace(text[0]) && !IsPySpace(text[|text| - 1]) && '\n' !in text
    ensures CleanHeading("1. " + text) == text
  {
    PrefixExamples(text);
    assert "1. " + text == "1." + " " + text;
    AfterMarker("1.", text);
  }

  lemma {:induction false} SubsectionHeading(text: string)
    requires text != [] && !IsPySpace(text[0]) && !IsPySpace(text[|text| - 1]) && '\n' !in text
    ensures CleanHeading("1.1 " + text) == text
  {
    PrefixExamples(text);
    assert "1.1 " + text == "1.1" + " " + text;
    AfterMarker("1.1", text);
  }

  lemma {:induction false} MarkdownHeading(text: string)
    requires text != [] && !IsPySpace(text[0]) && !IsPySpace(text[|text| - 1]) && '\n' !in text
    ensures CleanHeading("## " + text) == text
  {
    PrefixExamples(text);
    assert "## " + text == "##" + " " + text;
    AfterMarker("##", text);
  }

  /** Only one prefix is removed: "- - item" keeps its second dash. */
  lemma {:induction false} OnePrefixOnly(text: string)
    requires text != [] && !IsPySpace(text[0]) && !IsPySpace(text[|text| - 1]) && '\n' !in text
    ensures CleanHeading("- - " + text) == "- " + text
  {
    var rest := "- " + text;
    assert "- - " + text == "-" + " " + rest;
    assert PrefixEnd("-" + " " + rest) == Some(1);
    assert rest[|rest| - 1] == text[|text| - 1];
    assert '\n' !in rest by {
      assert forall i :: 2 <= i < |rest| ==> rest[i] == text[i - 2];
    }
    AfterMarker("-", rest);
  }
}
