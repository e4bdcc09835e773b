/**
 * The HTML step of the PDF exporter (src/export/pdf_exporter.py): a
 * line-by-line Markdown to HTML converter that knows second-level headings,
 * "- " bullets and paragraphs, and the injection of a style sheet into the
 * document head. Rendering HTML to PDF is not part of this model.
 *
 * The converter's output is described as a sequence of HTML elements; the
 * string it returns is the concatenation of their renderings.
 */
module PdfExport {
  import opened Wrappers
  import opened Text

  /** The elements the converter emits; texts are kept unescaped. */
  datatype Element = OpenList | CloseList | Heading2(text: string) | ListItem(text: string) | Paragraph(text: string)

  function Render(e: Element): string
  {
    match e
    case OpenList => "<ul>"
    case CloseList => "</ul>"
    case Heading2(t) => "<h2>" + Escape(t) + "</h2>"
    case ListItem(t) => "<li>" + Escape(t) + "</li>"
    case Paragraph(t) => "<p>" + Escape(t) + "</p>"
  }

  /** What a line is: a heading, a bullet, blank, or a paragraph. */
  predicate IsHeadingLine(line: string)
  {
    StartsWith(line, "## ")
  }

  predicate IsBulletLine(line: string)
  {
    !IsHeadingLine(line) && StartsWith(line, "- ")
  }

  predicate IsBlankLine(line: string)
  {
    !IsHeadingLine(line) && !IsBulletLine(line) && Strip(line) == []
  }

  /** The `</ul>` that closes an open list, if one is open. */
  function CloseIfOpen(inList: bool): seq<Element>
  {
    if inList then [CloseList] else []
  }

  /** One turn of the converter's loop: the elements a line adds and whether
      a list is open after it. */
  function LineElements(inList: bool, line: string): (r: (seq<Element>, bool))
    ensures r.1 <==> IsBulletLine(line)
  {
    if IsHeadingLine(line) then (CloseIfOpen(inList) + [Heading2(line[3..])], false)
    else if StartsWith(line, "- ") then ((if inList then [] else [OpenList]) + [ListItem(line[2..])], true)
    else if Strip(line) == [] then (CloseIfOpen(inList), false)
    else (CloseIfOpen(inList) + [Paragraph(line)], false)
  }

  /** The loop over the lines: the elements so far and whether a list is
      open. */
  function Scan(lines: seq<string>): (seq<Element>, bool)
    decreases |lines|
  {
    if lines == [] then ([], false)
    else
      var (elements, inList) := Scan(lines[..|lines| - 1]);
      var (more, open) := LineElements(inList, lines[|lines| - 1]);
      (elements + more, open)
  }

  /** The elements of the whole text, with a list still open at the end
      closed. */
  function Elements(md: string): seq<Element>
  {
    var (elements, inList) := Scan(SplitLines(md));
    elements + CloseIfOpen(inList)
  }

  /** `convert_markdown_to_html(md)`. */
  function ToHtml(md: string): string
  {
    "<html><head></head><body>" + Concat(Map(Elements(md), Render)) + "</body></html>"
  }

  /** `convert_markdown_to_html`: the loop with its `in_list` flag. */
  method ConvertMarkdownToHtml(md: string) returns (html: string)
    ensures html == ToHtml(md)
  {
    var lines := SplitLines(md);
    var parts: seq<string> := [];
    var inList := false;
    ghost var elements: seq<Element> := [];
    var i := 0;
    while i < |lines|
      invariant 0 <= i <= |lines|
      invariant (elements, inList) == Scan(lines[..i])
      invariant parts == Map(elements, Render)
    {
      ghost var step := LineElements(inList, lines[i]);
      var more;
      more, inList := ConvertLine(inList, lines[i]);
      MapAppend(elements, step.0, Render);
      parts := parts + more;
      elements := elements + step.0;
      assert lines[..i + 1][..i] == lines[..i] && lines[..i + 1][i] == lines[i];
      i := i + 1;
    }
    assert lines[..i] == lines;
    ghost var closing := CloseIfOpen(inList);
    if inList {
      parts := parts + ["</ul>"];
    }
    MapAppend(elements, closing, Render);
    assert parts == Map(elements + closing, Render);
    assert Elements(md) == elements + closing;
    html := "<html><head></head><body>" + Concat(parts) + "</body></html>";
  }

  /** The body of the converter's loop: the HTML one line adds and the new
      `in_list` flag. */
  method ConvertLine(inList: bool, line: string) returns (more: seq<string>, open: bool)
    ensures more == Map(LineElements(inList, line).0, Render)
    ensures open == LineElements(inList, line).1
  {
    more := [];
    open := inList;
    if StartsWith(line, "## ") {
      if open {
        more := more + ["</ul>"];
        open := false;
      }
      more := more + ["<h2>" + Escape(line[3..]) + "</h2>"];
    } else if StartsWith(line, "- ") {
      if !open {
        more := more + ["<ul>"];
        open := true;
      }
      more := more + ["<li>" + Escape(line[2..]) + "</li>"];
    } else if Strip(line) == [] {
      if open {
        more := more + ["</ul>"];
        open := false;
      }
    } else {
      if open {
        more := more + ["</ul>"];
        open := false;
      }
      more := more + ["<p>" + Escape(line) + "</p>"];
    }
  }

  /** Reading the elements from a state: `Some(open)` when every `<ul>` opens
      a list while none is open, every `</ul>` closes an open one, every
      item sits in a list and headings and paragraphs sit outside lists;
      `None` at the first violation. */
  function Nest(open: bool, elements: seq<Element>): Option<bool>
    decreases |elements|
  {
    if elements == [] then Some(open)
    else
      var e := elements[0];
      var next :=
        match e
        case OpenList => if open then None else Some(true)
        case CloseList => if open then Some(false) else None
        case ListItem(_) => if open then Some(true) else None
        case _ => if open then None else Some(false);
      if next.None? then None else Nest(next.value, elements[1..])
  }

  lemma {:induction false} NestAppend(open: bool, a: seq<Element>, b: seq<Element>)
    ensures Nest(open, a + b) == if Nest(open, a).None? then None else Nest(Nest(open, a).value, b)
    decreases |a|
  {
    if a == [] {
      assert a + b == b;
    } else {
      assert (a + b)[0] == a[0] && (a + b)[1..] == a[1..] + b;
      var e := a[0];
      if e.OpenList? && !open {
        NestAppend(true, a[1..], b);
      } else if e.CloseList? && open {
        NestAppend(false, a[1..], b);
      } else if e.ListItem? && open {
        NestAppend(true, a[1..], b);
      } else if (e.Heading2? || e.Paragraph?) && !open {
        NestAppend(false, a[1..], b);
      }
    }
  }

  /** Each line keeps the nesting and leaves a list open exactly when the
      converter's flag says so. */
  lemma {:induction false} LineNests(inList: bool, line: string)
    ensures Nest(inList, LineElements(inList, line).0) == Some(LineElements(inList, line).1)
  {
    var more := LineElements(inList, line).0;
    if !IsBulletLine(line) {
      var rest := if IsHeadingLine(line) then [Heading2(line[3..])]
                  else if Strip(line) == [] then []
                  else [Paragraph(line)];
      assert more == CloseIfOpen(inList) + rest;
      NestAppend(inList, CloseIfOpen(inList), rest);
      assert Nest(inList, CloseIfOpen(inList)) == Some(false) by {
        if inList {
          assert [CloseList][1..] == [];
        }
      }
      assert Nest(false, rest) == Some(false) by {
        if rest != [] {
          assert rest[1..] == [];
        }
      }
    } else if !inList {
      var tail := [ListItem(line[2..])];
      assert more == [OpenList] + tail && more[1..] == tail;
      assert tail[1..] == [];
      assert Nest(true, tail) == Some(true);
    } else {
      assert more == [ListItem(line[2..])];
      assert more[1..] == [];
    }
  }

  lemma {:induction false} ScanNests(lines: seq<string>)
    ensures Nest(false, Scan(lines).0) == Some(Scan(lines).1)
    decreases |lines|
  {
    if lines != [] {
      var front := lines[..|lines| - 1];
      ScanNests(front);
      var (elements, inList) := Scan(front);
      LineNests(inList, lines[|lines| - 1]);
      NestAppend(false, elements, LineElements(inList, lines[|lines| - 1]).0);
    }
  }

  /** `<ul>` and `</ul>` alternate, starting with `<ul>`, items appear only
      inside a list, headings and paragraphs only outside one, and no list
      is left open at the end. */
  lemma {:induction false} ListsBalanced(md: string)
    ensures Nest(false, Elements(md)) == Some(false)
  {
    var (elements, inList) := Scan(SplitLines(md));
    ScanNests(SplitLines(md));
    NestAppend(false, elements, CloseIfOpen(inList));
  }

  function CountItems(elements: seq<Element>): nat
  {
    if elements == [] then 0 else (if elements[0].ListItem? then 1 else 0) + CountItems(elements[1..])
  }

  function CountBullets(lines: seq<string>): nat
    decreases |lines|
  {
    if lines == [] then 0
    else CountBullets(lines[..|lines| - 1]) + (if IsBulletLine(lines[|lines| - 1]) then 1 else 0)
  }

  lemma {:induction false} CountItemsAppend(a: seq<Element>, b: seq<Element>)
    ensures CountItems(a + b) == CountItems(a) + CountItems(b)
    decreases |a|
  {
    if a == [] {
      assert a + b == b;
    } else {
      assert (a + b)[1..] == a[1..] + b;
      CountItemsAppend(a[1..], b);
    }
  }

  lemma {:induction false} ScanCountsItems(lines: seq<string>)
    ensures CountItems(Scan(lines).0) == CountBullets(lines)
    decreases |lines|
  {
    if lines != [] {
      var front, line := lines[..|lines| - 1], lines[|lines| - 1];
      ScanCountsItems(front);
      var (elements, inList) := Scan(front);
      var more := LineElements(inList, line).0;
      CountItemsAppend(elements, more);
      if IsHeadingLine(line) || (!StartsWith(line, "- ") && Strip(line) != []) {
        CountItemsAppend(CloseIfOpen(inList), more[|more| - 1..]);
        assert more == CloseIfOpen(inList) + more[|more| - 1..];
      } else if StartsWith(line, "- ") {
        var opening := if inList then [] else [OpenList];
        CountItemsAppend(opening, [ListItem(line[2..])]);
      }
    } else {
      assert Scan(lines).0 == [];
    }
  }

  /** There is one `<li>` per "- " line. */
  lemma {:induction false} ItemPerBullet(md: string)
    ensures CountItems(Elements(md)) == CountBullets(SplitLines(md))
  {
    var (elements, inList) := Scan(SplitLines(md));
    ScanCountsItems(SplitLines(md));
    CountItemsAppend(elements, CloseIfOpen(inList));
  }

  /** The source's example: a heading alone becomes one `<h2>`. */
  lemma {:induction false} HeadingExample(title: string)
    requires forall i :: 0 <= i < |title| ==> 'A' <= title[i] <= 'z' || title[i] == ' '
    ensures ToHtml("## " + title) == "<html><head></head><body><h2>" + title + "</h2></body></html>"
  {
    var line := "## " + title;
    assert line[..3] == "## " && line[3..] == title;
    assert forall i :: 0 <= i < |line| ==> !IsLineBreak(line[i]) by {
      forall i | 0 <= i < |line| ensures !IsLineBreak(line[i]) {
        if i >= 3 {
          assert line[i] == title[i - 3];
        }
      }
    }
    HeadingLine(line);
    EscapePlain(title);
    var h := "<h2>" + title + "</h2>";
    assert Map([Heading2(title)], Render) == [h];
    assert Concat([h]) == h + Concat([]);
    assert [h][1..] == [];
    HtmlSplit(title);
  }

  lemma {:induction false} HtmlSplit(title: string)
    ensures "<html><head></head><body>" + ("<h2>" + title + "</h2>") + "</body></html>"
            == "<html><head></head><body><h2>" + title + "</h2></body></html>"
  {
  }

  /** A single heading line is a single heading. */
  lemma {:induction false} HeadingLine(line: string)
    requires IsHeadingLine(line) && forall i :: 0 <= i < |line| ==> !IsLineBreak(line[i])
    ensures Elements(line) == [Heading2(line[3..])]
  {
    SplitLinesOne(line);
    assert [line][..0] == [] && [line][0] == line;
    assert CloseIfOpen(false) == [];
    assert LineElements(false, line).0 == CloseIfOpen(false) + [Heading2(line[3..])];
    assert !LineElements(false, line).1;
    assert Scan([line]).0 == [] + [Heading2(line[3..])];
    assert !Scan([line]).1;
  }

  lemma {:induction false} EscapePlain(s: string)
    requires forall i :: 0 <= i < |s| ==> 'A' <= s[i] <= 'z' || s[i] == ' '
    ensures Escape(s) == s
  {
    if s != [] {
      EscapePlain(s[1..]);
    }
  }

  /** `pat` occurs in `s` at index `j`. */
  predicate OccursAt(s: string, pat: string, j: nat)
  {
    j + |pat| <= |s| && s[j..j + |pat|] == pat
  }

  /** The index of the first occurrence of `pat` in `s` at or after `from`. */
  function FindFrom(s: string, pat: string, from: nat): (r: Option<nat>)
    requires pat != []
    ensures r.Some? ==> from <= r.value && OccursAt(s, pat, r.value)
    ensures forall j: nat :: from <= j && (r.None? || j < r.value) ==> !OccursAt(s, pat, j)
    decreases |s| - from
  {
    if from + |pat| > |s| then None
    else if s[from..from + |pat|] == pat then Some(from)
    else FindFrom(s, pat, from + 1)
  }

  /** Python's `s.replace(target, replacement, 1)`. */
  function ReplaceFirst(s: string, target: string, replacement: string): string
    requires target != []
  {
    var at := FindFrom(s, target, 0);
    if at.None? then s else s[..at.value] + replacement + s[at.value + |target|..]
  }

  /** `apply_css`: without a style sheet path, or when reading it raises an
      `OSError` (`read` is `None`), the HTML is returned as it is; otherwise
      the style sheet goes in front of the first `</head>`. */
  function ApplyCss(html: string, cssPath: string, read: Option<string>): (r: string)
    ensures cssPath == [] || read.None? ==> r == html
  {
    if cssPath == [] || read.None? then html
    else ReplaceFirst(html, "</head>", "<style>" + read.value + "</style></head>")
  }

  /** A document whose head is empty gets the style sheet as its head. */
  lemma {:induction false} CssInHead(body: string, css: string, cssPath: string)
    requires cssPath != []
    ensures ApplyCss("<html><head></head>" + body, cssPath, Some(css)) == "<html><head><style>" + css + "</style></head>" + body
  {
    var html := "<html><head></head>" + body;
    CssAfterHeadTag(html, css, cssPath);
    assert html[..12] == "<html><head>";
    assert html[19..] == body;
    StyleSplit();
    SnocAssoc("<html><head>", "<style>", css, "</style></head>", body);
  }

  lemma {:induction false} CssAfterHeadTag(html: string, css: string, cssPath: string)
    requires cssPath != [] && |html| >= 19 && html[..19] == "<html><head></head>"
    ensures ApplyCss(html, cssPath, Some(css)) == html[..12] + ("<style>" + css + "</style></head>") + html[19..]
  {
    assert html[12..19] == "</head>";
    NoEarlyHead(html);
    ReplaceFirstAt(html, "</head>", "<style>" + css + "</style></head>", 12);
  }

  lemma {:induction false} StyleSplit()
    ensures "<html><head><style>" == "<html><head>" + "<style>"
  {
  }

  lemma {:induction false} SnocAssoc(a: string, b: string, c: string, d: string, e: string)
    ensures a + (b + c + d) + e == (a + b) + c + d + e
  {
  }

  /** Replacing the first occurrence, when it is at `at`. */
  lemma {:induction false} ReplaceFirstAt(s: string, target: string, replacement: string, at: nat)
    requires target != [] && OccursAt(s, target, at)
    requires forall j: nat :: j < at ==> !OccursAt(s, target, j)
    ensures ReplaceFirst(s, target, replacement) == s[..at] + replacement + s[at + |target|..]
  {
    var r := FindFrom(s, target, 0);
    assert r == Some(at);
  }

  lemma {:induction false} NoEarlyHead(html: string)
    requires |html| >= 19 && html[..19] == "<html><head></head>"
    ensures forall j: nat :: j < 12 ==> !OccursAt(html, "</head>", j)
  {
    forall j: nat | j < 12 ensures !OccursAt(html, "</head>", j) {
      assert html[j] == "<html><head></head>"[j];
      assert html[j + 1] == "<html><head></head>"[j + 1];
      OccursChar(html, "</head>", j, 0);
      OccursChar(html, "</head>", j, 1);
    }
  }

  lemma {:induction false} OccursChar(s: string, pat: string, j: nat, k: nat)
    ensures OccursAt(s, pat, j) && k < |pat| ==> s[j + k] == pat[k]
  {
    if OccursAt(s, pat, j) && k < |pat| {
      assert s[j..j + |pat|][k] == s[j + k];
    }
  }
}
