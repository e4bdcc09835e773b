/**
 * The Markdown exporter (src/export/markdown.py): sections with a heading
 * and text or bullets, footnotes for citations, and the whole lecture
 * document with its YAML front matter.
 *
 * Each renderer is a method that builds its list of lines as the source
 * does, specified by a function of its inputs; the lemmas state what the
 * text looks like line by line.
 */
module MarkdownExport {
  import opened Wrappers
  import opened Text
  import opened AgentModels

  /** What `render_section` accepts: `None`, a string, or a list of strings. */
  datatype Content = Missing | Prose(text: string) | Listed(items: seq<string>)

  /** Python's `not content`. */
  predicate IsEmpty(c: Content)
  {
    c.Missing? || (c.Prose? && c.text == []) || (c.Listed? && c.items == [])
  }

  function Heading(title: string): string
  {
    "## " + title
  }

  function BulletLines(items: seq<string>): (r: seq<string>)
    ensures |r| == |items|
    ensures forall k :: 0 <= k < |items| ==> r[k] == "- " + items[k]
  {
    seq(|items|, k requires 0 <= k < |items| => "- " + items[k])
  }

  /** The lines of a non-empty section: the heading, then the text or one
      bullet per item. */
  function SectionLines(title: string, content: Content): seq<string>
  {
    if content.Prose? then [Heading(title), content.text]
    else if content.Listed? then [Heading(title)] + BulletLines(content.items)
    else [Heading(title)]
  }

  /** `render_section(title, content)`. */
  function Section(title: string, content: Content): (r: string)
    ensures r == [] <==> IsEmpty(content)
    ensures content.Prose? && content.text != [] ==> r == "## " + title + "\n" + content.text + "\n\n"
  {
    if IsEmpty(content) then ""
    else
      var lines := SectionLines(title, content);
      if content.Prose? then JoinTwo("\n", Heading(title), content.text); Join("\n", lines) + "\n\n"
      else Join("\n", lines) + "\n\n"
  }

  /** A section that is not empty is its lines, each ended by a newline, and
      one blank line. */
  lemma {:induction false} SectionShape(title: string, content: Content)
    requires !IsEmpty(content)
    ensures Section(title, content) == Lines(SectionLines(title, content)) + "\n"
  {
    JoinThenSep("\n", SectionLines(title, content));
  }

  /** The source's examples: a text section starts with its heading and
      text, and `None` gives "". */
  lemma {:induction false} SectionTextExample(title: string)
    ensures StartsWith(Section(title, Prose("text")), "## " + title + "\ntext")
    ensures Section(title, Missing) == ""
  {
    var r := Section(title, Prose("text"));
    assert r[..|"## " + title + "\ntext"|] == "## " + title + "\ntext";
  }

  /** The source's example: a list section is its heading and one "- "
      bullet per item. */
  lemma {:induction false} SectionListExample(title: string, a: string, b: string)
    ensures Section(title, Listed([a, b])) == "## " + title + "\n- " + a + "\n- " + b + "\n\n"
  {
    var lines := [Heading(title), "- " + a, "- " + b];
    assert SectionLines(title, Listed([a, b])) == lines;
    assert lines[1..] == ["- " + a, "- " + b];
    JoinTwo("\n", "- " + a, "- " + b);
  }

  /** `render_section`, building the list of lines and joining it. */
  method RenderSection(title: string, content: Content) returns (r: string)
    ensures r == Section(title, content)
  {
    if IsEmpty(content) {
      return "";
    }
    var lines := [Heading(title)];
    if content.Prose? {
      lines := lines + [content.text];
    } else {
      var items := content.items;
      var i := 0;
      while i < |items|
        invariant 0 <= i <= |items|
        invariant lines == [Heading(title)] + BulletLines(items[..i])
      {
        assert BulletLines(items[..i + 1]) == BulletLines(items[..i]) + ["- " + items[i]];
        lines := lines + ["- " + items[i]];
        i := i + 1;
      }
      assert items[..i] == items;
    }
    r := Join("\n", lines) + "\n\n";
  }

  /** Python's truthiness of `cite.licence`. */
  predicate HasLicence(c: Citation)
  {
    c.licence.Some? && c.licence.value != []
  }

  /** The footnote of citation number `idx`. */
  function Footnote(idx: int, c: Citation): string
  {
    "[^" + IntToString(idx) + "]: " + c.title + " - " + c.url + " (retrieved " + c.retrievedAt + ")"
    + (if HasLicence(c) then " \U{2014} " + c.licence.value else "")
  }

  /** The footnotes of a list of citations, numbered from 1. */
  function Footnotes(cites: seq<Citation>): (r: seq<string>)
    ensures |r| == |cites|
    ensures forall k :: 0 <= k < |cites| ==> r[k] == Footnote(k + 1, cites[k])
  {
    seq(|cites|, k requires 0 <= k < |cites| => Footnote(k + 1, cites[k]))
  }

  /** `embed_citations(md, citations)`. */
  function Embedded(md: string, cites: seq<Citation>): (r: string)
    ensures cites == [] ==> r == md
    ensures StartsWith(r, md)
    ensures cites != [] ==> StartsWith(r, md + "\n") && EndsWith(r, "\n")
  {
    if cites == [] then md else md + "\n" + Join("\n", Footnotes(cites)) + "\n"
  }

  /** With citations, the text is followed by a newline and then by one
      line per footnote, in citation order. */
  lemma {:induction false} EmbeddedShape(md: string, cites: seq<Citation>)
    requires cites != []
    ensures Embedded(md, cites) == md + "\n" + Lines(Footnotes(cites))
  {
    JoinThenSep("\n", Footnotes(cites));
  }

  /** The source's footnote examples: the first citation without a licence,
      the second with one. */
  lemma {:induction false} FootnoteExamples(url: string, title: string, date: string, licence: string)
    requires licence != []
    ensures Footnote(1, Citation(url, title, date, None)) == "[^1]: " + title + " - " + url + " (retrieved " + date + ")"
    ensures Footnote(2, Citation(url, title, date, Some(licence)))
            == "[^2]: " + title + " - " + url + " (retrieved " + date + ") \U{2014} " + licence
  {
    assert IntToString(1) == "1" && IntToString(2) == "2";
    assert "[^" + "1" + "]: " == "[^1]: " && "[^" + "2" + "]: " == "[^2]: ";
  }

  /** `embed_citations`: one footnote per citation, then the join. */
  method EmbedCitations(md: string, cites: seq<Citation>) returns (r: string)
    ensures r == Embedded(md, cites)
  {
    if cites == [] {
      return md;
    }
    var footnotes: seq<string> := [];
    var i := 0;
    while i < |cites|
      invariant 0 <= i <= |cites|
      invariant footnotes == Footnotes(cites[..i])
    {
      var cite := cites[i];
      var note := "[^" + IntToString(i + 1) + "]: " + cite.title + " - " + cite.url + " (retrieved " + cite.retrievedAt + ")";
      if HasLicence(cite) {
        note := note + " \U{2014} " + cite.licence.value;
      }
      assert note == Footnote(i + 1, cite);
      assert Footnotes(cites[..i + 1]) == Footnotes(cites[..i]) + [Footnote(i + 1, cites[i])];
      footnotes := footnotes + [note];
      i := i + 1;
    }
    assert cites[..i] == cites;
    r := md + "\n" + Join("\n", footnotes) + "\n";
  }

  /** One activity: type, minutes and description, and its objectives only
      when it has some. */
  function ActivityLine(a: Activity): string
  {
    a.kind + " (" + IntToString(a.durationMin) + " min): " + a.description
    + (if a.learningObjectives != [] then " \U{2014} objectives: " + Join(", ", a.learningObjectives) else "")
  }

  /** `_render_activities`: one line per activity, in order. */
  method RenderActivities(activities: seq<Activity>) returns (lines: seq<string>)
    ensures |lines| == |activities|
    ensures forall k :: 0 <= k < |activities| ==> lines[k] == ActivityLine(activities[k])
  {
    lines := [];
    var i := 0;
    while i < |activities|
      invariant 0 <= i <= |activities|
      invariant |lines| == i
      invariant forall k :: 0 <= k < i ==> lines[k] == ActivityLine(activities[k])
    {
      var activity := activities[i];
      var desc := activity.kind + " (" + IntToString(activity.durationMin) + " min): " + activity.description;
      if activity.learningObjectives != [] {
        desc := desc + " \U{2014} objectives: " + Join(", ", activity.learningObjectives);
      }
      lines := lines + [desc];
      i := i + 1;
    }
  }

  /** One assessment item, with its maximum score whenever one is given. */
  function AssessmentLine(item: AssessmentItem): string
  {
    item.kind + ": " + item.description + (if item.maxScore.Some? then " (max " + item.maxScore.value + ")" else "")
  }

  /** `_render_assessment`: one line per item, in order. */
  method RenderAssessment(items: seq<AssessmentItem>) returns (lines: seq<string>)
    ensures |lines| == |items|
    ensures forall k :: 0 <= k < |items| ==> lines[k] == AssessmentLine(items[k])
  {
    lines := [];
    var i := 0;
    while i < |items|
      invariant 0 <= i <= |items|
      invariant |lines| == i
      invariant forall k :: 0 <= k < i ==> lines[k] == AssessmentLine(items[k])
    {
      var item := items[i];
      var desc := item.kind + ": " + item.description;
      if item.maxScore.Some? {
        desc := desc + " (max " + item.maxScore.value + ")";
      }
      lines := lines + [desc];
      i := i + 1;
    }
  }

  /** The section of one slide. */
  function SlideSection(slide: SlideBullet): string
  {
    Section("Slide " + IntToString(slide.slideNumber), Listed(slide.bullets))
  }

  /** `_render_slides`: the slides' sections, one after the other. */
  method RenderSlides(slides: seq<SlideBullet>) returns (r: string)
    ensures r == Concat(Map(slides, SlideSection))
  {
    var sections: seq<string> := [];
    var i := 0;
    while i < |slides|
      invariant 0 <= i <= |slides|
      invariant sections == Map(slides[..i], SlideSection)
    {
      var s := RenderSection("Slide " + IntToString(slides[i].slideNumber), Listed(slides[i].bullets));
      MapSnoc(slides, SlideSection, i);
      sections := sections + [s];
      i := i + 1;
    }
    assert slides[..i] == slides;
    r := Concat(sections);
  }

  /** A slide without bullets renders as nothing. */
  lemma {:induction false} SlidesWithoutBullets(slides: seq<SlideBullet>)
    requires forall k :: 0 <= k < |slides| ==> slides[k].bullets == []
    ensures Concat(Map(slides, SlideSection)) == ""
    decreases |slides|
  {
    if slides != [] {
      MapTail(slides, SlideSection);
      SlidesWithoutBullets(slides[1..]);
    } else {
      assert Map(slides, SlideSection) == [];
    }
  }

  /** The YAML line of a field, present only when the field is set; `key`
      carries its colon and space. */
  function Field(key: string, value: string): seq<string>
  {
    if value != [] then [key + value] else []
  }

  function TagsField(tags: seq<string>): seq<string>
  {
    if tags != [] then ["tags: [" + Join(", ", tags) + "]"] else []
  }

  /** The front matter but for its closing "---". */
  function FrontMatterHead(w: WeaveResult): seq<string>
  {
    ["---", "title: " + w.title] + Field("author: ", w.author) + Field("date: ", w.date) + Field("version: ", w.version)
    + TagsField(w.tags)
  }

  function FrontMatter(w: WeaveResult): string
  {
    Join("\n", FrontMatterHead(w) + ["---\n"])
  }

  /** A field that is set, as a line of its own; nothing otherwise. */
  function FieldText(key: string, value: string): string
  {
    if value != [] then key + value + "\n" else ""
  }

  function TagsText(tags: seq<string>): string
  {
    if tags != [] then "tags: [" + Join(", ", tags) + "]\n" else ""
  }

  lemma {:induction false} FieldLine(key: string, value: string)
    ensures Lines(Field(key, value)) == FieldText(key, value)
  {
    if value != [] {
      LinesOne(key + value);
    } else {
      assert Terminated("\n", []) == [];
    }
  }

  lemma {:induction false} TagsLine(tags: seq<string>)
    ensures Lines(TagsField(tags)) == TagsText(tags)
  {
    if tags != [] {
      LinesOne("tags: [" + Join(", ", tags) + "]");
    } else {
      assert Terminated("\n", []) == [];
    }
  }

  /** The front matter is its lines, each ended by a newline, and the
      closing "---". */
  lemma {:induction false} FrontMatterClose(w: WeaveResult)
    ensures FrontMatter(w) == Lines(FrontMatterHead(w)) + "---\n"
  {
    JoinTerminated("\n", FrontMatterHead(w), "---\n");
  }

  /** What follows the title line: one line for each of author, date,
      version and tags that is set. */
  function OptionalFields(w: WeaveResult): string
  {
    FieldText("author: ", w.author) + FieldText("date: ", w.date) + FieldText("version: ", w.version) + TagsText(w.tags)
  }

  lemma {:induction false} LinesField(prefix: seq<string>, key: string, value: string)
    ensures Lines(prefix + Field(key, value)) == Lines(prefix) + FieldText(key, value)
  {
    LinesAppend(prefix, Field(key, value));
    FieldLine(key, value);
  }

  lemma {:induction false} LinesTags(prefix: seq<string>, tags: seq<string>)
    ensures Lines(prefix + TagsField(tags)) == Lines(prefix) + TagsText(tags)
  {
    LinesAppend(prefix, TagsField(tags));
    TagsLine(tags);
  }

  lemma {:induction false} TitleLines(title: string)
    ensures Lines(["---", "title: " + title]) == "---\ntitle: " + title + "\n"
  {
    LinesTwo("---", "title: " + title);
  }

  lemma {:induction false} CloseSplit()
    ensures "---\n" == "---" + "\n"
  {
  }

  /** The front matter opens with "---" and the title, and has a line for
      each of author, date, version and tags exactly when it is set. */
  lemma {:induction false} FrontMatterShape(w: WeaveResult)
    ensures Lines(FrontMatterHead(w)) == "---\ntitle: " + w.title + "\n" + OptionalFields(w)
  {
    var b := ["---", "title: " + w.title];
    var fa, fd, fv := Field("author: ", w.author), Field("date: ", w.date), Field("version: ", w.version);
    TitleLines(w.title);
    LinesField(b, "author: ", w.author);
    LinesField(b + fa, "date: ", w.date);
    LinesField(b + fa + fd, "version: ", w.version);
    LinesTags(b + fa + fd + fv, w.tags);
  }

  /** The reference list: the explicit citations with footnote markers when
      there are any, otherwise the weave's own references without markers. */
  function ReferenceItems(w: WeaveResult, cites: seq<Citation>): (r: seq<string>)
    ensures cites != [] ==> |r| == |cites| && forall k :: 0 <= k < |cites| ==>
              r[k] == "[" + cites[k].title + "](" + cites[k].url + ")[^" + IntToString(k + 1) + "]"
    ensures cites == [] ==> |r| == |w.references| && forall k :: 0 <= k < |w.references| ==>
              r[k] == "[" + w.references[k].title + "](" + w.references[k].url + ")"
  {
    if cites != [] then
      seq(|cites|, k requires 0 <= k < |cites| => "[" + cites[k].title + "](" + cites[k].url + ")[^" + IntToString(k + 1) + "]")
    else
      var refs := w.references;
      seq(|refs|, k requires 0 <= k < |refs| => "[" + refs[k].title + "](" + refs[k].url + ")")
  }

  /** Python's `%`-formatting of a string whose directives before its
      trailing `%d` all lie in `s`, with one integer argument: only the
      exact pair `%%` is an escape and becomes `%`; any other `%` opens a
      directive that is either malformed (ValueError) or consumes the one
      argument, leaving none for the trailing `%d` (TypeError). */
  function CollapsePercents(s: string): (r: Option<string>)
    ensures '%' !in s ==> r == Some(s)
    ensures r.Some? ==> |r.value| <= |s|
    decreases |s|
  {
    if s == [] then Some([])
    else if s[0] != '%' then
      assert s == [s[0]] + s[1..];
      match CollapsePercents(s[1..])
      case Some(t) => Some([s[0]] + t)
      case None => None
    else if |s| >= 2 && s[1] == '%' then
      match CollapsePercents(s[2..])
      case Some(t) => Some(['%'] + t)
      case None => None
    else None
  }

  /** Doubles every `%`, the escape that makes a text survive `%`-formatting. */
  function EscapePercents(t: string): (r: string)
    ensures |r| >= |t|
  {
    if t == [] then []
    else if t[0] == '%' then "%%" + EscapePercents(t[1..])
    else [t[0]] + EscapePercents(t[1..])
  }

  /** Escaping and then formatting gives the text back. */
  lemma {:induction false} CollapseEscape(t: string)
    ensures CollapsePercents(EscapePercents(t)) == Some(t)
  {
    if t != [] {
      CollapseEscape(t[1..]);
      if t[0] == '%' {
        CollapsePair(EscapePercents(t[1..]));
      } else {
        CollapseChar(t[0], EscapePercents(t[1..]));
      }
      assert t == [t[0]] + t[1..];
    }
  }

  /** Formatting a leading `%%`. */
  lemma CollapsePair(e: string)
    ensures CollapsePercents("%%" + e) == if CollapsePercents(e).Some? then Some("%" + CollapsePercents(e).value) else None
  {
    assert ("%%" + e)[2..] == e;
  }

  /** Formatting a leading character other than `%`. */
  lemma CollapseChar(c: char, e: string)
    requires c != '%'
    ensures CollapsePercents([c] + e) == if CollapsePercents(e).Some? then Some([c] + CollapsePercents(e).value) else None
  {
    assert ([c] + e)[1..] == e;
  }

  /** Text without `%` passes through formatting unchanged in front of the rest. */
  lemma {:induction false} CollapsePlainPrefix(a: string, s: string)
    requires '%' !in a
    ensures CollapsePercents(a + s) == if CollapsePercents(s).Some? then Some(a + CollapsePercents(s).value) else None
  {
    if a != [] {
      assert (a + s)[0] == a[0];
      assert (a + s)[1..] == a[1..] + s;
      CollapsePlainPrefix(a[1..], s);
      if CollapsePercents(s).Some? {
        assert [a[0]] + (a[1..] + CollapsePercents(s).value) == a + CollapsePercents(s).value;
      }
    } else {
      assert a + s == s;
      if CollapsePercents(s).Some? {
        assert a + CollapsePercents(s).value == CollapsePercents(s).value;
      }
    }
  }

  /** A `%` followed by anything but another `%` makes formatting fail. */
  lemma LonePercent(a: string, c: char, b: string)
    requires '%' !in a && c != '%'
    ensures CollapsePercents(a + ['%', c] + b) == None
  {
    assert a + ['%', c] + b == a + (['%', c] + b);
    CollapsePlainPrefix(a, ['%', c] + b);
  }

  /** The reference line of one citation as markdown.py:159 builds it: the
      f-string first pastes the title and URL in, then `% (i)` formats the
      result, so a `%` inside either is read as a directive. */
  function FormatCitedReference(title: string, url: string, n: int): (r: Result<string>)
    ensures '%' !in title && '%' !in url ==>
              r == Ok("[" + title + "](" + url + ")[^" + IntToString(n) + "]")
  {
    var prefix := "[" + title + "](" + url + ")[^";
    assert '%' !in title && '%' !in url ==> '%' !in prefix;
    match CollapsePercents(prefix)
    case Some(p) => Ok(p + IntToString(n) + "]")
    case None => Err("unsupported format character or not enough arguments for format string")
  }

  /** The citation list of markdown.py:159 as written: the footnote numbers
      count from `first`, and the first line that fails to format raises. */
  function FormatCitations(cites: seq<Citation>, first: int): (r: Result<seq<string>>)
    ensures r.Ok? ==> |r.value| == |cites|
    decreases |cites|
  {
    if cites == [] then Ok([])
    else
      match FormatCitedReference(cites[0].title, cites[0].url, first)
      case Err(e) => Err(e)
      case Ok(x) =>
        match FormatCitations(cites[1..], first + 1)
        case Err(e) => Err(e)
        case Ok(xs) => Ok([x] + xs)
  }

  /** The reference list as the source writes it, `%`-formatting included. */
  function ReferenceItemsAsWritten(w: WeaveResult, cites: seq<Citation>): (r: Result<seq<string>>)
    ensures cites == [] ==> r == Ok(ReferenceItems(w, cites))
    ensures r.Ok? ==> |r.value| == |ReferenceItems(w, cites)|
  {
    if cites != [] then FormatCitations(cites, 1) else Ok(ReferenceItems(w, cites))
  }

  predicate NoPercent(cites: seq<Citation>)
  {
    forall k :: 0 <= k < |cites| ==> '%' !in cites[k].title && '%' !in cites[k].url
  }

  /** Without a `%` in any title or URL the citations format as intended. */
  lemma {:induction false} FormatCitationsPlain(cites: seq<Citation>, first: int)
    requires NoPercent(cites)
    ensures FormatCitations(cites, first).Ok?
    ensures forall k :: 0 <= k < |cites| ==>
              FormatCitations(cites, first).value[k] ==
              "[" + cites[k].title + "](" + cites[k].url + ")[^" + IntToString(first + k) + "]"
  {
    if cites != [] {
      assert NoPercent(cites[1..]) by {
        forall k | 0 <= k < |cites[1..]| ensures '%' !in cites[1..][k].title && '%' !in cites[1..][k].url {
          assert cites[1..][k] == cites[k + 1];
        }
      }
      FormatCitationsPlain(cites[1..], first + 1);
      forall k | 1 <= k < |cites|
        ensures FormatCitations(cites, first).value[k] ==
                "[" + cites[k].title + "](" + cites[k].url + ")[^" + IntToString(first + k) + "]"
      {
        assert cites[1..][k - 1] == cites[k];
        assert first + 1 + (k - 1) == first + k;
      }
    }
  }

  /** The source and the corrected reference list agree whenever no title
      or URL holds a `%`. */
  lemma AsWrittenAgreesWithoutPercent(w: WeaveResult, cites: seq<Citation>)
    requires NoPercent(cites)
    ensures ReferenceItemsAsWritten(w, cites) == Ok(ReferenceItems(w, cites))
  {
    if cites != [] {
      FormatCitationsPlain(cites, 1);
      var r := ReferenceItemsAsWritten(w, cites).value;
      assert r == ReferenceItems(w, cites) by {
        forall k | 0 <= k < |cites| ensures r[k] == ReferenceItems(w, cites)[k] {
          assert 1 + k == k + 1;
        }
      }
    }
  }

  /** A reference line fails to format once its text has a lone `%`. */
  lemma LonePercentLine(title: string, url: string, n: int, a: string, c: char, b: string)
    requires "[" + title + "](" + url + ")[^" == a + ['%', c] + b
    requires '%' !in a && c != '%'
    ensures FormatCitedReference(title, url, n).Err?
  {
    LonePercent(a, c, b);
  }

  /** A URL with a percent-encoded space fails: `%20b` reads as a width of
      20 and the conversion character `b`. */
  lemma EncodedUrlFails()
    ensures FormatCitedReference("t", "https://e.org/a%20b", 1).Err?
  {
    LonePercentLine("t", "https://e.org/a%20b", 1, "[t](https://e.org/a", '2', "0b)[^");
  }

  /** A title with `%o` spends the footnote number on an octal conversion:
      the trailing `%d` then lacks its argument. */
  lemma PercentTitleFails()
    ensures FormatCitedReference("50%off", "u", 1).Err?
  {
    LonePercentLine("50%off", "u", 1, "[50", 'o', "ff](u)[^");
  }

  /** A reference line whose only `%`s form one pair formats with a single `%`. */
  lemma DoublePercentLine(title: string, url: string, n: int, a: string, b: string)
    requires "[" + title + "](" + url + ")[^" == a + "%%" + b
    requires '%' !in a && '%' !in b
    ensures FormatCitedReference(title, url, n) == Ok(a + "%" + b + IntToString(n) + "]")
  {
    assert a + "%%" + b == a + ("%%" + b);
    CollapsePlainPrefix(a, "%%" + b);
    CollapsePair(b);
    assert a + ("%" + b) == a + "%" + b;
  }

  /** A doubled `%` in a title silently collapses to one. */
  lemma DoublePercentCollapses()
    ensures FormatCitedReference("100%%", "u", 1) == Ok("[100%](u)[^1]")
  {
    DoublePercentLine("100%%", "u", 1, "[100", "](u)[^");
    assert IntToString(1) == "1";
    assert "[100" + "%" + "](u)[^" + "1" + "]" == "[100%](u)[^1]";
  }

  function ActivityLines(activities: seq<Activity>): seq<string>
  {
    seq(|activities|, k requires 0 <= k < |activities| => ActivityLine(activities[k]))
  }

  function AssessmentLines(items: seq<AssessmentItem>): seq<string>
  {
    seq(|items|, k requires 0 <= k < |items| => AssessmentLine(items[k]))
  }

  /** A part present only when its field is set. */
  function Part(present: bool, part: string): seq<string>
  {
    if present then [part] else []
  }

  /** The sections that describe the lesson plan: summary, learning
      objectives, prerequisites and activities. The learning objectives
      always have a place, though their section is empty without
      objectives. */
  function PlanParts(w: WeaveResult): seq<string>
  {
    Part(w.summary != [], Section("Summary", Prose(w.summary)))
    + [Section("Learning Objectives", Listed(w.learningObjectives))]
    + Part(w.prerequisites != [], Section("Prerequisites", Listed(w.prerequisites)))
    + Part(w.activities != [], Section("Activities", Listed(ActivityLines(w.activities))))
  }

  /** The teaching materials: slides, speaker notes and assessment. */
  function MaterialParts(w: WeaveResult): seq<string>
  {
    Part(w.slideBullets != [], Concat(Map(w.slideBullets, SlideSection)))
    + Part(w.speakerNotes != [], Section("Speaker Notes", Prose(w.speakerNotes)))
    + Part(w.assessment != [], Section("Assessment", Listed(AssessmentLines(w.assessment))))
  }

  /** The references section, present when there are citations or references. */
  function ReferencesPart(w: WeaveResult, cites: seq<Citation>): seq<string>
  {
    Part(cites != [] || w.references != [], Section("References", Listed(ReferenceItems(w, cites))))
  }

  /** The parts of the document in order. */
  function DocParts(w: WeaveResult, cites: seq<Citation>): seq<string>
  {
    [FrontMatter(w)] + Sections(w, cites)
  }

  /** Everything after the front matter. */
  function Sections(w: WeaveResult, cites: seq<Citation>): seq<string>
  {
    PlanParts(w) + MaterialParts(w) + ReferencesPart(w, cites)
  }

  /** The document before its footnotes: the parts, right-stripped, and a
      newline. */
  function Body(w: WeaveResult, cites: seq<Citation>): string
  {
    Finish(Concat(DocParts(w, cites)))
  }

  /** The body ends with exactly one newline, after a character that is not
      whitespace, and starts with the whole front matter up to its closing
      "---". */
  lemma {:induction false} BodyShape(w: WeaveResult, cites: seq<Citation>)
    ensures EndsWithOneNewline(Body(w, cites))
    ensures StartsWith(Body(w, cites), Lines(FrontMatterHead(w)) + "---")
  {
    var rest := Concat(Sections(w, cites));
    ConcatCons(FrontMatter(w), Sections(w, cites));
    FrontMatterClose(w);
    CloseSplit();
    var opening := Lines(FrontMatterHead(w)) + "---";
    Regroup(Lines(FrontMatterHead(w)), "---", "\n", rest);
    assert opening[|opening| - 1] == '-';
    FinishKeeps(opening, "\n" + rest);
  }

  /** `from_weave_result(weave, citations)`. */
  function Document(w: WeaveResult, cites: seq<Citation>): (r: string)
    ensures StartsWith(r, Body(w, cites))
    ensures cites == [] ==> r == Body(w, cites)
  {
    Embedded(Body(w, cites), cites)
  }

  /** With citations, the document ends with one footnote line per citation
      after the body and a blank line. */
  lemma {:induction false} DocumentFootnotes(w: WeaveResult, cites: seq<Citation>)
    requires cites != []
    ensures Document(w, cites) == Body(w, cites) + "\n" + Lines(Footnotes(cites))
  {
    EmbeddedShape(Body(w, cites), cites);
  }

  /** The front matter block of `from_weave_result`. */
  method RenderFrontMatter(w: WeaveResult) returns (front: string)
    ensures front == FrontMatter(w)
  {
    var frontLines := ["---", "title: " + w.title];
    ghost var head := frontLines;
    if w.author != [] {
      frontLines := frontLines + ["author: " + w.author];
    }
    head := head + Field("author: ", w.author);
    assert frontLines == head;
    if w.date != [] {
      frontLines := frontLines + ["date: " + w.date];
    }
    head := head + Field("date: ", w.date);
    assert frontLines == head;
    if w.version != [] {
      frontLines := frontLines + ["version: " + w.version];
    }
    head := head + Field("version: ", w.version);
    assert frontLines == head;
    if w.tags != [] {
      var tags := Join(", ", w.tags);
      frontLines := frontLines + ["tags: [" + tags + "]"];
    }
    head := head + TagsField(w.tags);
    assert frontLines == head == FrontMatterHead(w);
    frontLines := frontLines + ["---\n"];
    front := Join("\n", frontLines);
  }

  /** The plan sections that `from_weave_result` appends after the front
      matter. */
  method RenderPlan(w: WeaveResult) returns (parts: seq<string>)
    ensures parts == PlanParts(w)
  {
    parts := [];
    if w.summary != [] {
      var s := RenderSection("Summary", Prose(w.summary));
      parts := parts + [s];
    }
    ghost var want := Part(w.summary != [], Section("Summary", Prose(w.summary)));
    assert parts == want;
    var objectives := RenderSection("Learning Objectives", Listed(w.learningObjectives));
    parts := parts + [objectives];
    want := want + [Section("Learning Objectives", Listed(w.learningObjectives))];
    if w.prerequisites != [] {
      var s := RenderSection("Prerequisites", Listed(w.prerequisites));
      parts := parts + [s];
    }
    want := want + Part(w.prerequisites != [], Section("Prerequisites", Listed(w.prerequisites)));
    assert parts == want;
    if w.activities != [] {
      var lines := RenderActivities(w.activities);
      assert lines == ActivityLines(w.activities);
      var s := RenderSection("Activities", Listed(lines));
      parts := parts + [s];
    }
    want := want + Part(w.activities != [], Section("Activities", Listed(ActivityLines(w.activities))));
    assert parts == want;
  }

  /** The material sections that `from_weave_result` appends after the plan. */
  method RenderMaterials(w: WeaveResult) returns (parts: seq<string>)
    ensures parts == MaterialParts(w)
  {
    parts := [];
    if w.slideBullets != [] {
      var s := RenderSlides(w.slideBullets);
      parts := parts + [s];
    }
    ghost var want := Part(w.slideBullets != [], Concat(Map(w.slideBullets, SlideSection)));
    assert parts == want;
    if w.speakerNotes != [] {
      var s := RenderSection("Speaker Notes", Prose(w.speakerNotes));
      parts := parts + [s];
    }
    want := want + Part(w.speakerNotes != [], Section("Speaker Notes", Prose(w.speakerNotes)));
    assert parts == want;
    if w.assessment != [] {
      var lines := RenderAssessment(w.assessment);
      assert lines == AssessmentLines(w.assessment);
      var s := RenderSection("Assessment", Listed(lines));
      parts := parts + [s];
    }
    want := want + Part(w.assessment != [], Section("Assessment", Listed(AssessmentLines(w.assessment))));
    assert parts == want;
  }

  /** The references block of `from_weave_result`. */
  method RenderReferences(w: WeaveResult, cites: seq<Citation>) returns (parts: seq<string>)
    ensures parts == ReferencesPart(w, cites)
  {
    parts := [];
    if cites != [] {
      var refs := seq(|cites|, k requires 0 <= k < |cites| => "[" + cites[k].title + "](" + cites[k].url + ")[^" + IntToString(k + 1) + "]");
      assert refs == ReferenceItems(w, cites);
      var s := RenderSection("References", Listed(refs));
      parts := [s];
    } else if w.references != [] {
      var rs := w.references;
      var refs := seq(|rs|, k requires 0 <= k < |rs| => "[" + rs[k].title + "](" + rs[k].url + ")");
      assert refs == ReferenceItems(w, cites);
      var s := RenderSection("References", Listed(refs));
      parts := [s];
    }
  }

  /** `from_weave_result`: collect the parts, strip, end with a newline and
      append the footnotes. */
  method FromWeaveResult(w: WeaveResult, cites: seq<Citation>) returns (md: string)
    ensures md == Document(w, cites)
  {
    var front := RenderFrontMatter(w);
    var plan := RenderPlan(w);
    var materials := RenderMaterials(w);
    var references := RenderReferences(w, cites);
    var parts := [front] + (plan + materials + references);
    var markdown := RStrip(Concat(parts)) + "\n";
    md := EmbedCitations(markdown, cites);
  }
}
