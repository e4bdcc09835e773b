/**
 * String primitives that the Python and TypeScript sources take from their
 * standard libraries: the two whitespace classes, `str.strip` and friends,
 * `str.lower` (on ASCII letters), `str.splitlines`, `str.join`, `in` on
 * strings, `str(int)` and `html.escape`.
 */
module Text {

  /** JavaScript's `\s`: WhiteSpace and LineTerminator code points. */
  predicate IsJsSpace(c: char)
  {
    c == '\t' || c == '\n' || c == '\U{0B}' || c == '\U{0C}' || c == '\r' || c == ' '
    || c == '\U{A0}' || c == '\U{1680}' || ('\U{2000}' <= c <= '\U{200A}')
    || c == '\U{2028}' || c == '\U{2029}' || c == '\U{202F}' || c == '\U{205F}'
    || c == '\U{3000}' || c == '\U{FEFF}'
  }

  /** Python's `str.isspace`, which is also what `\s` and `str.strip()` use. */
  predicate IsPySpace(c: char)
  {
    ('\t' <= c <= '\r') || ('\U{1C}' <= c <= ' ') || c == '\U{85}' || c == '\U{A0}'
    || c == '\U{1680}' || ('\U{2000}' <= c <= '\U{200A}') || c == '\U{2028}'
    || c == '\U{2029}' || c == '\U{202F}' || c == '\U{205F}' || c == '\U{3000}'
  }

  /** The line boundaries of Python's `str.splitlines`. */
  predicate IsLineBreak(c: char)
  {
    c == '\n' || c == '\r' || c == '\U{0B}' || c == '\U{0C}' || ('\U{1C}' <= c <= '\U{1E}')
    || c == '\U{85}' || c == '\U{2028}' || c == '\U{2029}'
  }

  predicate IsDigit(c: char)
  {
    '0' <= c <= '9'
  }

  function LowerChar(c: char): char
  {
    if 'A' <= c <= 'Z' then (c as int + 32) as char else c
  }

  /** `str.lower()` restricted to ASCII letters. */
  function Lower(s: string): (r: string)
    ensures |r| == |s|
    ensures forall i :: 0 <= i < |s| ==> r[i] == LowerChar(s[i])
  {
    seq(|s|, i requires 0 <= i < |s| => LowerChar(s[i]))
  }

  predicate StartsWith(s: string, prefix: string)
  {
    |prefix| <= |s| && s[..|prefix|] == prefix
  }

  predicate EndsWith(s: string, suffix: string)
  {
    |suffix| <= |s| && s[|s| - |suffix|..] == suffix
  }

  /** Python's `sub in s`. */
  predicate Contains(s: string, sub: string)
    decreases |s|
  {
    StartsWith(s, sub) || (s != [] && Contains(s[1..], sub))
  }

  /** Python's `any(p in s for p in subs)`, trying the phrases in order. */
  predicate ContainsAny(s: string, subs: seq<string>)
    decreases |subs|
  {
    subs != [] && (Contains(s, subs[0]) || ContainsAny(s, subs[1..]))
  }

  /** Some phrase of the list occurs in `s`. */
  lemma {:induction false} ContainsAnyIff(s: string, subs: seq<string>)
    ensures ContainsAny(s, subs) <==> exists k :: 0 <= k < |subs| && Contains(s, subs[k])
    decreases |subs|
  {
    if subs != [] {
      ContainsAnyIff(s, subs[1..]);
      assert forall k :: 1 <= k < |subs| ==> subs[k] == subs[1..][k - 1];
      if exists k :: 0 <= k < |subs| && Contains(s, subs[k]) {
        var k :| 0 <= k < |subs| && Contains(s, subs[k]);
        if k > 0 {
          assert Contains(s, subs[1..][k - 1]);
        }
      }
    }
  }

  /** `str.lstrip()`. */
  function LStrip(s: string): (r: string)
    ensures |r| <= |s| && r == s[|s| - |r|..]
    ensures r == [] || !IsPySpace(r[0])
    ensures forall i :: 0 <= i < |s| - |r| ==> IsPySpace(s[i])
  {
    if s != [] && IsPySpace(s[0]) then LStrip(s[1..]) else s
  }

  /** `str.rstrip()`. */
  function RStrip(s: string): (r: string)
    ensures |r| <= |s| && r == s[..|r|]
    ensures r == [] || !IsPySpace(r[|r| - 1])
    ensures forall i :: |r| <= i < |s| ==> IsPySpace(s[i])
  {
    if s != [] && IsPySpace(s[|s| - 1]) then RStrip(s[..|s| - 1]) else s
  }

  /** `r` is `s[i..i + |r|]` and everything of `s` around it is whitespace. */
  predicate StrippedAt(r: string, s: string, i: int)
  {
    && 0 <= i <= |s| - |r|
    && r == s[i..i + |r|]
    && (forall k :: 0 <= k < i ==> IsPySpace(s[k]))
    && (forall k :: i + |r| <= k < |s| ==> IsPySpace(s[k]))
  }

  /** `str.strip()`: whitespace is cut from both ends until none is left
      there; `StripSlice` shows that nothing else is cut. */
  function Strip(s: string): (r: string)
    ensures |r| <= |s|
    ensures r == [] || (!IsPySpace(r[0]) && !IsPySpace(r[|r| - 1]))
    decreases |s|
  {
    if s == [] then []
    else if IsPySpace(s[0]) then Strip(s[1..])
    else if IsPySpace(s[|s| - 1]) then Strip(s[..|s| - 1])
    else s
  }

  /** The stripped string is a slice of `s` with only whitespace around
      it. */
  lemma {:induction false} StripSlice(s: string)
    ensures exists i :: StrippedAt(Strip(s), s, i)
    decreases |s|
  {
    var r := Strip(s);
    if s == [] {
      assert StrippedAt(r, s, 0);
    } else if IsPySpace(s[0]) {
      StripSlice(s[1..]);
      var i :| StrippedAt(r, s[1..], i);
      StrippedFront(r, s, i);
    } else if IsPySpace(s[|s| - 1]) {
      StripSlice(s[..|s| - 1]);
      var i :| StrippedAt(r, s[..|s| - 1], i);
      StrippedBack(r, s, i);
    } else {
      assert StrippedAt(r, s, 0);
    }
  }

  lemma {:induction false} StrippedFront(r: string, s: string, i: int)
    requires s != [] && IsPySpace(s[0]) && StrippedAt(r, s[1..], i)
    ensures StrippedAt(r, s, i + 1)
  {
    assert r == s[1..][i..i + |r|] == s[i + 1..i + 1 + |r|];
    assert forall k :: 1 <= k < |s| ==> s[k] == s[1..][k - 1];
  }

  lemma {:induction false} StrippedBack(r: string, s: string, i: int)
    requires s != [] && IsPySpace(s[|s| - 1]) && StrippedAt(r, s[..|s| - 1], i)
    ensures StrippedAt(r, s, i)
  {
    assert r == s[..|s| - 1][i..i + |r|] == s[i..i + |r|];
    assert forall k :: 0 <= k < |s| - 1 ==> s[k] == s[..|s| - 1][k];
  }

  /** `str.lstrip(chars)`. */
  function LStripChars(s: string, chars: set<char>): (r: string)
    ensures |r| <= |s| && r == s[|s| - |r|..]
    ensures r == [] || r[0] !in chars
    ensures forall i :: 0 <= i < |s| - |r| ==> s[i] in chars
  {
    if s != [] && s[0] in chars then LStripChars(s[1..], chars) else s
  }

  /** `str.rstrip(chars)`. */
  function RStripChars(s: string, chars: set<char>): (r: string)
    ensures |r| <= |s| && r == s[..|r|]
    ensures r == [] || r[|r| - 1] !in chars
    ensures forall i :: |r| <= i < |s| ==> s[i] in chars
  {
    if s != [] && s[|s| - 1] in chars then RStripChars(s[..|s| - 1], chars) else s
  }

  /** Index of the first line boundary in `s`, or `|s|`. */
  function LineEnd(s: string): (k: nat)
    ensures k <= |s|
    ensures k < |s| ==> IsLineBreak(s[k])
    ensures forall i :: 0 <= i < k ==> !IsLineBreak(s[i])
  {
    if s == [] || IsLineBreak(s[0]) then 0 else 1 + LineEnd(s[1..])
  }

  /** `str.splitlines()`: "\r\n" is one boundary and a trailing boundary
      does not start an extra empty line. */
  function SplitLines(s: string): (r: seq<string>)
    ensures forall k, i :: 0 <= k < |r| && 0 <= i < |r[k]| ==> !IsLineBreak(r[k][i])
    decreases |s|
  {
    if s == [] then []
    else
      var k := LineEnd(s);
      if k == |s| then [s]
      else
        var skip := if s[k] == '\r' && k + 1 < |s| && s[k + 1] == '\n' then 2 else 1;
        [s[..k]] + SplitLines(s[k + skip..])
  }

  function Concat(parts: seq<string>): string
  {
    if parts == [] then [] else parts[0] + Concat(parts[1..])
  }

  /** `sep.join(parts)`. */
  function Join(sep: string, parts: seq<string>): string
  {
    if parts == [] then []
    else if |parts| == 1 then parts[0]
    else parts[0] + sep + Join(sep, parts[1..])
  }

  /** The end of the run of digits starting at `i`. */
  function DigitsEnd(s: string, i: nat): (r: nat)
    requires i <= |s|
    ensures i <= r <= |s|
    ensures forall k :: i <= k < r ==> IsDigit(s[k])
    ensures r == |s| || !IsDigit(s[r])
    decreases |s| - i
  {
    if i < |s| && IsDigit(s[i]) then DigitsEnd(s, i + 1) else i
  }

  function DigitChar(d: nat): char
    requires d < 10
  {
    ('0' as int + d) as char
  }

  function NatToString(n: nat): (r: string)
    ensures r != [] && forall i :: 0 <= i < |r| ==> IsDigit(r[i])
  {
    if n < 10 then [DigitChar(n)] else NatToString(n / 10) + [DigitChar(n % 10)]
  }

  /** Python's `str(n)` for an integer. */
  function IntToString(n: int): string
  {
    if n < 0 then "-" + NatToString(-n) else NatToString(n)
  }

  function EscapeChar(c: char): string
  {
    if c == '&' then "&amp;"
    else if c == '<' then "&lt;"
    else if c == '>' then "&gt;"
    else if c == '"' then "&quot;"
    else if c == '\'' then "&#x27;"
    else [c]
  }

  /** `html.escape(s)` with its default `quote=True`: the result never holds a
      raw angle bracket or quote. */
  function Escape(s: string): (r: string)
    ensures forall i :: 0 <= i < |r| ==> r[i] != '<' && r[i] != '>' && r[i] != '"'
  {
    if s == [] then [] else EscapeChar(s[0]) + Escape(s[1..])
  }

  lemma {:induction false} ConcatAppend(a: seq<string>, b: seq<string>)
    ensures Concat(a + b) == Concat(a) + Concat(b)
  {
    if a == [] {
      assert a + b == b;
    } else {
      assert (a + b)[1..] == a[1..] + b;
      ConcatAppend(a[1..], b);
    }
  }

  /** A string without whitespace at either end strips to itself. */
  lemma {:induction false} StripUnchanged(s: string)
    requires s == [] || (!IsPySpace(s[0]) && !IsPySpace(s[|s| - 1]))
    ensures LStrip(s) == s && Strip(s) == s
  {
  }

  /** A line without a boundary, a newline, and the rest. */
  lemma {:induction false} SplitLinesCons(line: string, rest: string)
    requires forall i :: 0 <= i < |line| ==> !IsLineBreak(line[i])
    ensures SplitLines(line + "\n" + rest) == [line] + SplitLines(rest)
  {
    var s := line + "\n" + rest;
    assert s[|line|] == '\n';
    assert forall i :: 0 <= i < |line| ==> s[i] == line[i];
    LineEndAt(s, |line|);
    assert s[..|line|] == line;
    assert s[|line| + 1..] == rest;
  }

  lemma {:induction false} LineEndAt(s: string, k: nat)
    requires k < |s| && IsLineBreak(s[k]) && forall i :: 0 <= i < k ==> !IsLineBreak(s[i])
    ensures LineEnd(s) == k
  {
    if k > 0 {
      LineEndAt(s[1..], k - 1);
    }
  }

  /** Every part followed by the separator. */
  function Terminated(sep: string, parts: seq<string>): (r: seq<string>)
    ensures |r| == |parts|
    ensures forall k :: 0 <= k < |parts| ==> r[k] == parts[k] + sep
  {
    seq(|parts|, k requires 0 <= k < |parts| => parts[k] + sep)
  }

  /** Joining puts the separator after every part but the last. */
  lemma {:induction false} JoinTerminated(sep: string, parts: seq<string>, last: string)
    ensures Join(sep, parts + [last]) == Concat(Terminated(sep, parts)) + last
    decreases |parts|
  {
    if parts == [] {
      assert parts + [last] == [last];
      assert Terminated(sep, parts) == [];
    } else {
      var rest := parts[1..];
      assert (parts + [last])[1..] == rest + [last];
      assert Terminated(sep, parts)[1..] == Terminated(sep, rest);
      JoinTerminated(sep, rest, last);
    }
  }

  /** A join followed by one more separator ends every part with it. */
  lemma {:induction false} JoinThenSep(sep: string, parts: seq<string>)
    requires parts != []
    ensures Join(sep, parts) + sep == Concat(Terminated(sep, parts))
  {
    var front, last := parts[..|parts| - 1], parts[|parts| - 1];
    assert parts == front + [last];
    JoinTerminated(sep, front, last);
    assert Terminated(sep, parts) == Terminated(sep, front) + [last + sep];
    ConcatAppend(Terminated(sep, front), [last + sep]);
    assert Concat([last + sep]) == last + sep;
  }

  /** Right-stripping never cuts into a prefix that ends in a non-space. */
  lemma {:induction false} RStripKeeps(a: string, b: string)
    requires a != [] && !IsPySpace(a[|a| - 1])
    ensures |RStrip(a + b)| >= |a| && StartsWith(RStrip(a + b), a)
  {
    var s := a + b;
    var r := RStrip(s);
    assert !IsPySpace(s[|a| - 1]) by {
      assert s[|a| - 1] == a[|a| - 1];
    }
    assert r[..|a|] == s[..|a|] == a;
  }

  /** Text made of lines, each ended by a newline. */
  function Lines(lines: seq<string>): string
  {
    Concat(Terminated("\n", lines))
  }

  lemma {:induction false} LinesAppend(a: seq<string>, b: seq<string>)
    ensures Lines(a + b) == Lines(a) + Lines(b)
  {
    assert Terminated("\n", a + b) == Terminated("\n", a) + Terminated("\n", b);
    ConcatAppend(Terminated("\n", a), Terminated("\n", b));
  }

  lemma {:induction false} LinesOne(line: string)
    ensures Lines([line]) == line + "\n"
  {
    var t := Terminated("\n", [line]);
    assert t == [line + "\n"];
    assert Lines([line]) == Concat(t) == t[0] + Concat(t[1..]);
    assert t[1..] == [];
  }

  /** Two parts joined. */
  lemma {:induction false} JoinTwo(sep: string, a: string, b: string)
    ensures Join(sep, [a, b]) == a + sep + b
  {
    assert [a, b][1..] == [b];
  }

  /** Exactly one newline ends `r`: the character before it is not
      whitespace. */
  predicate EndsWithOneNewline(r: string)
  {
    |r| >= 2 && r[|r| - 1] == '\n' && !IsPySpace(r[|r| - 2])
  }

  lemma {:induction false} LinesTwo(a: string, b: string)
    ensures Lines([a, b]) == a + "\n" + b + "\n"
  {
    assert [a, b] == [a] + [b];
    LinesAppend([a], [b]);
    LinesOne(a);
    LinesOne(b);
  }

  /** Python's `s.rstrip() + "\n"`. */
  function Finish(s: string): string
  {
    RStrip(s) + "\n"
  }

  /** Finishing a text that starts with a prefix ending in a non-space keeps
      that prefix and ends the text with exactly one newline. */
  lemma {:induction false} FinishKeeps(prefix: string, rest: string)
    requires prefix != [] && !IsPySpace(prefix[|prefix| - 1])
    ensures EndsWithOneNewline(Finish(prefix + rest))
    ensures StartsWith(Finish(prefix + rest), prefix)
  {
    RStripKeeps(prefix, rest);
    var t := RStrip(prefix + rest);
    var r := t + "\n";
    assert r[..|prefix|] == t[..|prefix|] == prefix;
    assert r[|r| - 2] == t[|t| - 1];
  }

  lemma {:induction false} ConcatCons(x: string, xs: seq<string>)
    ensures Concat([x] + xs) == x + Concat(xs)
  {
    assert ([x] + xs)[1..] == xs;
  }

  lemma {:induction false} Regroup(a: string, b: string, c: string, d: string)
    ensures (a + (b + c)) + d == (a + b) + (c + d)
  {
  }

  /** The text of each item, in order. */
  function Map<T>(xs: seq<T>, f: T -> string): (r: seq<string>)
    ensures |r| == |xs|
    ensures forall k :: 0 <= k < |xs| ==> r[k] == f(xs[k])
  {
    seq(|xs|, k requires 0 <= k < |xs| => f(xs[k]))
  }

  lemma {:induction false} MapSnoc<T>(xs: seq<T>, f: T -> string, i: nat)
    requires i < |xs|
    ensures Map(xs[..i + 1], f) == Map(xs[..i], f) + [f(xs[i])]
  {
    assert xs[..i + 1] == xs[..i] + [xs[i]];
  }

  lemma {:induction false} MapTail<T>(xs: seq<T>, f: T -> string)
    requires xs != []
    ensures Map(xs, f)[1..] == Map(xs[1..], f)
  {
  }

  lemma {:induction false} LineEndNone(s: string)
    requires forall i :: 0 <= i < |s| ==> !IsLineBreak(s[i])
    ensures LineEnd(s) == |s|
  {
  }

  /** A text without line boundaries is one line. */
  lemma {:induction false} SplitLinesOne(line: string)
    requires line != [] && forall i :: 0 <= i < |line| ==> !IsLineBreak(line[i])
    ensures SplitLines(line) == [line]
  {
    LineEndNone(line);
  }

  lemma {:induction false} MapAppend<T>(a: seq<T>, b: seq<T>, f: T -> string)
    ensures Map(a + b, f) == Map(a, f) + Map(b, f)
  {
  }

  /** The truth of `line.strip()`: some character is not whitespace. */
  predicate HasText(s: string)
    decreases |s|
  {
    s != [] && (!IsPySpace(s[0]) || HasText(s[1..]))
  }

  /** A string without text is all whitespace. */
  lemma {:induction false} HasTextAt(s: string)
    ensures !HasText(s) <==> forall i :: 0 <= i < |s| ==> IsPySpace(s[i])
    decreases |s|
  {
    if s != [] {
      HasTextAt(s[1..]);
      assert forall i :: 1 <= i < |s| ==> s[i] == s[1..][i - 1];
    }
  }

  /** `HasText` is exactly "the stripped line is not empty". */
  lemma {:induction false} HasTextStrip(s: string)
    ensures HasText(s) <==> Strip(s) != []
  {
    HasTextAt(s);
    StripSlice(s);
    var r := Strip(s);
    var i :| StrippedAt(r, s, i);
    if r != [] {
      assert s[i] == r[0];
    }
  }

  /** The lines a list comprehension `... for line in lines if line.strip()`
      keeps. */
  function NonBlank(lines: seq<string>): (r: seq<string>)
    ensures |r| <= |lines|
    decreases |lines|
  {
    if lines == [] then []
    else
      var front := NonBlank(lines[..|lines| - 1]);
      var last := lines[|lines| - 1];
      if HasText(last) then front + [last] else front
  }

  /** Every kept line has text. */
  lemma {:induction false} NonBlankKept(lines: seq<string>)
    ensures forall k :: 0 <= k < |NonBlank(lines)| ==> HasText(NonBlank(lines)[k])
    decreases |lines|
  {
    if lines != [] {
      NonBlankKept(lines[..|lines| - 1]);
    }
  }

  /** Without blank lines nothing is dropped. */
  lemma {:induction false} NonBlankAll(lines: seq<string>)
    requires forall k :: 0 <= k < |lines| ==> HasText(lines[k])
    ensures NonBlank(lines) == lines
    decreases |lines|
  {
    if lines != [] {
      var front := lines[..|lines| - 1];
      NonBlankAll(front);
      assert lines == front + [lines[|lines| - 1]];
    }
  }

  /** Filtering distributes over concatenation, so a line's fate depends on
      that line alone and the kept lines keep their order. */
  lemma {:induction false} NonBlankAppend(a: seq<string>, b: seq<string>)
    ensures NonBlank(a + b) == NonBlank(a) + NonBlank(b)
    decreases |b|
  {
    if b == [] {
      assert a + b == a;
    } else {
      var front := b[..|b| - 1];
      assert (a + b)[..|a + b| - 1] == a + front;
      assert (a + b)[|a + b| - 1] == b[|b| - 1];
      NonBlankAppend(a, front);
    }
  }

  lemma {:induction false} NonBlankOne(line: string)
    ensures NonBlank([line]) == if HasText(line) then [line] else []
  {
    assert [line][..0] == [];
  }

  /** Non-empty lines without boundaries, joined by newlines, split back
      into the same lines. */
  lemma {:induction false} SplitJoin(lines: seq<string>)
    requires forall k :: 0 <= k < |lines| ==> lines[k] != []
    requires forall k, i :: 0 <= k < |lines| && 0 <= i < |lines[k]| ==> !IsLineBreak(lines[k][i])
    ensures SplitLines(Join("\n", lines)) == lines
    decreases |lines|
  {
    if |lines| == 1 {
      SplitLinesOne(lines[0]);
    } else if |lines| > 1 {
      SplitLinesCons(lines[0], Join("\n", lines[1..]));
      SplitJoin(lines[1..]);
    }
  }

  /** Leading characters from `chars` are all that `lstrip(chars)` removes. */
  lemma {:induction false} LStripCharsPrefix(p: string, w: string, chars: set<char>)
    requires forall i :: 0 <= i < |p| ==> p[i] in chars
    requires w == [] || w[0] !in chars
    ensures LStripChars(p + w, chars) == w
    decreases |p|
  {
    if p == [] {
      assert p + w == w;
    } else {
      assert (p + w)[1..] == p[1..] + w;
      LStripCharsPrefix(p[1..], w, chars);
    }
  }
  /** Every kept line is one of the given lines. */
  lemma {:induction false} NonBlankFrom(lines: seq<string>)
    ensures forall k :: 0 <= k < |NonBlank(lines)| ==> NonBlank(lines)[k] in lines
    decreases |lines|
  {
    if lines != [] {
      var front := lines[..|lines| - 1];
      NonBlankFrom(front);
      assert forall x :: x in front ==> x in lines;
    }
  }
}
