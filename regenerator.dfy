/**
 * Selective regeneration (src/core/regenerator.py): the sections a critic
 * report asks to rewrite, the per-section retry counters with their limit
 * of three, the selection loop of `orchestrate_regeneration`, and the
 * integer parsing of section ids in `apply_regeneration`.
 *
 * The content weaver and the re-run of the flow from the editor are outside
 * the model: `apply_regeneration` yields the ids it would hand to the
 * weaver, and `orchestrate_regeneration` reports whether that tail runs.
 */
module Regenerator {
  import opened Wrappers
  import opened Text
  import opened Reports
  import opened CoreState
  import opened Seqs

  /** `MAX_RETRIES`. */
  const MaxRetries: int := 3

  // ---------------------------------------------------------------------------
  // String order and `sorted(set(...))`

  /** Python's `<` on strings: code point by code point, a proper prefix first. */
  predicate StrLess(a: string, b: string)
    decreases |a|
  {
    |b| > 0 && (|a| == 0 || a[0] < b[0] || (a[0] == b[0] && StrLess(a[1..], b[1..])))
  }

  lemma {:induction false} StrLessIrreflexive(a: string)
    ensures !StrLess(a, a)
    decreases |a|
  {
    if |a| > 0 {
      StrLessIrreflexive(a[1..]);
    }
  }

  lemma {:induction false} StrLessTransitive(a: string, b: string, c: string)
    requires StrLess(a, b) && StrLess(b, c)
    ensures StrLess(a, c)
    decreases |a|
  {
    if |a| > 0 && a[0] == b[0] && b[0] == c[0] {
      StrLessTransitive(a[1..], b[1..], c[1..]);
    }
  }

  lemma {:induction false} StrLessTotal(a: string, b: string)
    requires a != b
    ensures StrLess(a, b) || StrLess(b, a)
    decreases |a|
  {
    if |a| > 0 && |b| > 0 && a[0] == b[0] {
      assert a[1..] != b[1..] by {
        assert a == [a[0]] + a[1..] && b == [b[0]] + b[1..];
      }
      StrLessTotal(a[1..], b[1..]);
    }
  }

  predicate StrictlySorted(s: seq<string>)
  {
    forall i, j :: 0 <= i < j < |s| ==> StrLess(s[i], s[j])
  }

  /** Inserts `x` into a strictly sorted list unless it is there already. */
  function Insert(x: string, s: seq<string>): (r: seq<string>)
    ensures forall y :: y in r <==> y == x || y in s
  {
    if s == [] then [x]
    else if x == s[0] then s
    else if StrLess(x, s[0]) then [x] + s
    else [s[0]] + Insert(x, s[1..])
  }

  lemma {:induction false} InsertSorted(x: string, s: seq<string>)
    requires StrictlySorted(s)
    ensures StrictlySorted(Insert(x, s))
    decreases |s|
  {
    if s != [] && x != s[0] && !StrLess(x, s[0]) {
      StrLessTotal(x, s[0]);
      assert StrictlySorted(s[1..]) by {
        forall i, j | 0 <= i < j < |s[1..]| ensures StrLess(s[1..][i], s[1..][j]) {
          assert s[1..][i] == s[i + 1] && s[1..][j] == s[j + 1];
        }
      }
      InsertSorted(x, s[1..]);
      var r := Insert(x, s);
      var t := Insert(x, s[1..]);
      assert r == [s[0]] + t;
      forall i, j | 0 <= i < j < |r| ensures StrLess(r[i], r[j]) {
        if i == 0 {
          assert r[j] in t;
          if r[j] != x {
            var k :| 1 <= k < |s| && s[k] == r[j];
          }
        } else {
          assert r[i] == t[i - 1] && r[j] == t[j - 1];
        }
      }
    } else if s != [] && x != s[0] {
      var r := [x] + s;
      forall i, j | 0 <= i < j < |r| ensures StrLess(r[i], r[j]) {
        if i == 0 {
          if j > 1 {
            StrLessTransitive(x, s[0], s[j - 1]);
          }
        } else {
          assert r[i] == s[i - 1] && r[j] == s[j - 1];
        }
      }
    }
  }

  /** `sorted(set(xs))`. */
  function SortedSet(xs: seq<string>): (r: seq<string>)
    ensures forall y :: y in r <==> y in xs
  {
    if xs == [] then [] else Insert(xs[0], SortedSet(xs[1..]))
  }

  lemma {:induction false} SortedSetSorted(xs: seq<string>)
    ensures StrictlySorted(SortedSet(xs))
  {
    if xs != [] {
      SortedSetSorted(xs[1..]);
      InsertSorted(xs[0], SortedSet(xs[1..]));
    }
  }

  /** The head of a strictly sorted list precedes every other member. */
  lemma {:induction false} SortedHeadLeast(s: seq<string>, y: string)
    requires StrictlySorted(s) && y in s && y != s[0]
    ensures StrLess(s[0], y)
  {
    var k :| 0 <= k < |s| && s[k] == y;
  }

  lemma {:induction false} SortedTail(s: seq<string>)
    requires StrictlySorted(s) && s != []
    ensures StrictlySorted(s[1..])
  {
    forall i, j | 0 <= i < j < |s[1..]| ensures StrLess(s[1..][i], s[1..][j]) {
      assert s[1..][i] == s[i + 1] && s[1..][j] == s[j + 1];
    }
  }

  /** A strictly sorted list is determined by its members, so `SortedSet` is
      the one list `sorted(set(xs))` can be. */
  lemma {:induction false} SortedUnique(s: seq<string>, t: seq<string>)
    requires StrictlySorted(s) && StrictlySorted(t)
    requires forall y :: y in s <==> y in t
    ensures s == t
    decreases |s|
  {
    if s != [] && t != [] {
      var a, b := s[0], t[0];
      if a != b {
        assert a in s && b in t;
        SortedHeadLeast(t, a);
        SortedHeadLeast(s, b);
        StrLessTransitive(a, b, a);
        StrLessIrreflexive(a);
      }
      assert s == [a] + s[1..] && t == [a] + t[1..];
      forall y ensures y in s[1..] <==> y in t[1..] {
        StrLessIrreflexive(y);
        if y in s[1..] {
          var k :| 0 <= k < |s[1..]| && s[1..][k] == y;
          assert StrLess(s[0], s[k + 1]);
          assert y in s && y in t && y != t[0];
        }
        if y in t[1..] {
          var k :| 0 <= k < |t[1..]| && t[1..][k] == y;
          assert StrLess(t[0], t[k + 1]);
          assert y in t && y in s && y != s[0];
        }
      }
      SortedTail(s);
      SortedTail(t);
      SortedUnique(s[1..], t[1..]);
    } else {
      HeadMember(s);
      HeadMember(t);
    }
  }

  lemma {:induction false} HeadMember(s: seq<string>)
    ensures s != [] ==> s[0] in s
  {
  }

  // ---------------------------------------------------------------------------
  // get_sections_to_regenerate

  /** The line numbers of a fact-check report as strings, in report order. */
  function LineIds(report: FactCheckReport): (r: seq<string>)
    ensures |r| == |report.hallucinations| + |report.unsupportedClaims|
  {
    seq(|report.hallucinations|, k requires 0 <= k < |report.hallucinations| => IntToString(report.hallucinations[k].lineNumber))
    + seq(|report.unsupportedClaims|, k requires 0 <= k < |report.unsupportedClaims| => IntToString(report.unsupportedClaims[k].lineNumber))
  }

  /** `get_sections_to_regenerate`. */
  function GetSections(report: Review): seq<string>
  {
    match report
    case Critique(c) => c.cognitiveLoad.overloadedSegments
    case FactCheck(f) => SortedSet(LineIds(f))
  }

  /** A fact-check report asks for each flagged line once, in string order,
      and for nothing else. */
  lemma {:induction false} FactSectionsSorted(f: FactCheckReport)
    ensures StrictlySorted(GetSections(FactCheck(f)))
    ensures forall y :: y in GetSections(FactCheck(f)) <==>
              (exists h :: h in f.hallucinations && y == IntToString(h.lineNumber))
              || (exists c :: c in f.unsupportedClaims && y == IntToString(c.lineNumber))
  {
    SortedSetSorted(LineIds(f));
    var ids := LineIds(f);
    var nh := |f.hallucinations|;
    forall y | y in GetSections(FactCheck(f))
      ensures (exists h :: h in f.hallucinations && y == IntToString(h.lineNumber))
              || (exists c :: c in f.unsupportedClaims && y == IntToString(c.lineNumber))
    {
      var k :| 0 <= k < |ids| && ids[k] == y;
      if k < nh {
        assert f.hallucinations[k] in f.hallucinations;
      } else {
        assert f.unsupportedClaims[k - nh] in f.unsupportedClaims;
      }
    }
    forall h | h in f.hallucinations ensures IntToString(h.lineNumber) in ids {
      var k :| 0 <= k < nh && f.hallucinations[k] == h;
      assert ids[k] == IntToString(h.lineNumber);
    }
    forall c | c in f.unsupportedClaims ensures IntToString(c.lineNumber) in ids {
      var k :| 0 <= k < |f.unsupportedClaims| && f.unsupportedClaims[k] == c;
      assert ids[nh + k] == IntToString(c.lineNumber);
    }
  }

  /** The string order puts "10" before "2". */
  lemma {:induction false} StringOrderExample()
    ensures StrLess("10", "2") && !StrLess("2", "10")
    ensures SortedSet(["2", "10", "2"]) == ["10", "2"]
  {
    assert StrLess("10", "2");
    var s := SortedSet(["2", "10", "2"]);
    SortedSetSorted(["2", "10", "2"]);
    StrLessIrreflexive("10");
    SortedUnique(s, ["10", "2"]);
  }

  /** The source's first test: a critique yields its overloaded segments and
      a report flagging lines 1 and 2 yields ["1", "2"]. */
  lemma {:induction false} SectionsExample(c: CritiqueReport, h: SentenceProbability, cl: ClaimFlag)
    requires c.cognitiveLoad.overloadedSegments == ["A"]
    requires h.lineNumber == 1 && cl.lineNumber == 2
    ensures GetSections(Critique(c)) == ["A"]
    ensures GetSections(FactCheck(FactCheckReport([h], [cl], 1, 1))) == ["1", "2"]
  {
    var f := FactCheckReport([h], [cl], 1, 1);
    assert IntToString(1) == "1" && IntToString(2) == "2";
    assert LineIds(f) == ["1", "2"];
    FactSectionsSorted(f);
    assert StrLess("1", "2");
    assert StrictlySorted(["1", "2"]);
    SortedUnique(GetSections(FactCheck(f)), ["1", "2"]);
  }

  // ---------------------------------------------------------------------------
  // Retry counters

  /** `state.retry_counts.get(section_id, 0)`. */
  function Count(counts: map<string, int>, section: string): int
  {
    if section in counts then counts[section] else 0
  }

  /** `has_exceeded_max_retries`. */
  function HasExceededMaxRetries(state: State, section: string): (r: bool)
    reads state
    ensures r <==> Count(state.retryCounts, section) >= MaxRetries
  {
    Count(state.retryCounts, section) >= MaxRetries
  }

  /** The counters after `increment_retry_count`. */
  function Incremented(counts: map<string, int>, section: string): (r: map<string, int>)
    ensures Count(r, section) == Count(counts, section) + 1
    ensures forall s :: s != section ==> Count(r, s) == Count(counts, s)
    ensures r.Keys == counts.Keys + {section}
  {
    counts[section := Count(counts, section) + 1]
  }

  /** `increment_retry_count`. */
  method IncrementRetryCount(state: State, section: string)
    modifies state`retryCounts
    ensures state.retryCounts == Incremented(old(state.retryCounts), section)
  {
    var current := if section in state.retryCounts then state.retryCounts[section] else 0;
    state.retryCounts := state.retryCounts[section := current + 1];
  }

  // ---------------------------------------------------------------------------
  // Selection

  /** The selection loop as a function of the sections and the counters:
      the sections chosen, in order, and the counters afterwards. */
  function Select(sections: seq<string>, counts: map<string, int>): (seq<string>, map<string, int>)
    decreases |sections|
  {
    if sections == [] then ([], counts)
    else
      var (chosen, after) := Select(sections[..|sections| - 1], counts);
      var s := sections[|sections| - 1];
      if Count(after, s) >= MaxRetries then (chosen, after)
      else (chosen + [s], Incremented(after, s))
  }

  lemma {:induction false} SelectStep(sections: seq<string>, counts: map<string, int>, i: nat)
    requires i < |sections|
    ensures sections[..i + 1][..i] == sections[..i] && sections[..i + 1][i] == sections[i]
    ensures Select(sections[..i + 1], counts) ==
      var (chosen, after) := Select(sections[..i], counts);
      if Count(after, sections[i]) >= MaxRetries then (chosen, after)
      else (chosen + [sections[i]], Incremented(after, sections[i]))
  {
    assert sections[..i + 1][..i] == sections[..i];
  }

  /** The sections chosen by the selection loop of `orchestrate_regeneration`. */
  method SelectSections(state: State, sections: seq<string>) returns (toRegenerate: seq<string>)
    modifies state`retryCounts
    ensures (toRegenerate, state.retryCounts) == Select(sections, old(state.retryCounts))
  {
    toRegenerate := [];
    var i := 0;
    while i < |sections|
      invariant 0 <= i <= |sections|
      invariant (toRegenerate, state.retryCounts) == Select(sections[..i], old(state.retryCounts))
    {
      SelectStep(sections, old(state.retryCounts), i);
      var section := sections[i];
      if !HasExceededMaxRetries(state, section) {
        IncrementRetryCount(state, section);
        toRegenerate := toRegenerate + [section];
      }
      i := i + 1;
    }
    assert sections[..i] == sections;
  }

  /** Counters between 0 and the limit. */
  predicate WithinLimit(counts: map<string, int>)
  {
    forall s :: s in counts ==> 0 <= counts[s] <= MaxRetries
  }

  /** The selection keeps the sections in order, never pushes a counter past
      the limit, and only touches the counters of the given sections. */
  lemma {:induction false} SelectProperties(sections: seq<string>, counts: map<string, int>)
    requires WithinLimit(counts)
    ensures WithinLimit(Select(sections, counts).1)
    ensures IsSubsequence(Select(sections, counts).0, sections)
    ensures forall s :: s !in sections ==> Count(Select(sections, counts).1, s) == Count(counts, s)
    decreases |sections|
  {
    if sections != [] {
      var front := sections[..|sections| - 1];
      var s := sections[|sections| - 1];
      SelectProperties(front, counts);
      var (chosen, after) := Select(front, counts);
      assert sections == front + [s];
      if Count(after, s) < MaxRetries {
        SubsequenceSnoc(chosen, front, s);
      } else {
        SubsequenceLonger(chosen, front, s);
      }
      forall t | t !in sections ensures Count(Select(sections, counts).1, t) == Count(counts, t) {
        assert t !in front;
      }
    }
  }

  /** With distinct sections, each is chosen exactly when its counter is
      below the limit, and then its counter grows by one. */
  lemma {:induction false} SelectDistinct(sections: seq<string>, counts: map<string, int>)
    requires forall i, j :: 0 <= i < j < |sections| ==> sections[i] != sections[j]
    ensures forall s :: s in sections ==>
              (s in Select(sections, counts).0 <==> Count(counts, s) < MaxRetries)
    ensures forall s :: s in sections ==>
              Count(Select(sections, counts).1, s) ==
                if Count(counts, s) < MaxRetries then Count(counts, s) + 1 else Count(counts, s)
    decreases |sections|
  {
    if sections != [] {
      var front := sections[..|sections| - 1];
      var last := sections[|sections| - 1];
      assert last !in front;
      SelectDistinct(front, counts);
      SelectUntouched(front, counts, last);
      SelectChosenFrom(front, counts);
      forall s | s in sections
        ensures (s in Select(sections, counts).0 <==> Count(counts, s) < MaxRetries)
        ensures Count(Select(sections, counts).1, s) ==
                  if Count(counts, s) < MaxRetries then Count(counts, s) + 1 else Count(counts, s)
      {
        if s != last {
          assert s in front;
        }
      }
    }
  }

  lemma {:induction false} SelectUntouched(sections: seq<string>, counts: map<string, int>, s: string)
    requires s !in sections
    ensures Count(Select(sections, counts).1, s) == Count(counts, s)
    ensures s !in Select(sections, counts).0
    decreases |sections|
  {
    if sections != [] {
      SelectUntouched(sections[..|sections| - 1], counts, s);
    }
  }

  lemma {:induction false} SelectChosenFrom(sections: seq<string>, counts: map<string, int>)
    ensures forall s :: s in Select(sections, counts).0 ==> s in sections
    decreases |sections|
  {
    if sections != [] {
      SelectChosenFrom(sections[..|sections| - 1], counts);
    }
  }

  /** A report flagging lines 1 and 2, on fresh counters, regenerates both
      sections and leaves each counter at 1. */
  lemma {:induction false} InvokesAndCounts()
    ensures var (chosen, after) := Select(["1", "2"], map[]);
            chosen == ["1", "2"] && after == map["1" := 1, "2" := 1]
  {
    assert ["1", "2"][..1] == ["1"] && ["1"][..0] == [];
  }

  /** The source's test of four rounds on one report naming one section: the
      first three regenerate it, the fourth chooses nothing, and the counter
      ends at 3. */
  lemma {:induction false} FourRounds(section: string, counts: map<string, int>)
    requires section !in counts
    ensures var (c1, m1) := Select([section], counts);
            var (c2, m2) := Select([section], m1);
            var (c3, m3) := Select([section], m2);
            var (c4, m4) := Select([section], m3);
            c1 == c2 == c3 == [section] && c4 == [] && Count(m4, section) == 3
  {
    assert [section][..0] == [];
  }

  // ---------------------------------------------------------------------------
  // apply_regeneration

  /** The value of decimal digits, `_` separators skipped. */
  function DigitsValue(s: string): nat
    decreases |s|
  {
    if s == [] then 0
    else
      var last := s[|s| - 1];
      if IsDigit(last) then DigitsValue(s[..|s| - 1]) * 10 + (last as int - '0' as int)
      else DigitsValue(s[..|s| - 1])
  }

  /** Digits, with single underscores allowed between two digits. */
  predicate DigitLiteral(s: string)
  {
    && s != [] && IsDigit(s[0]) && IsDigit(s[|s| - 1])
    && (forall i :: 0 <= i < |s| ==> IsDigit(s[i]) || s[i] == '_')
    && (forall i :: 0 <= i < |s| - 1 ==> s[i] == '_' ==> s[i + 1] != '_')
  }

  /** `int(s)`: surrounding whitespace, an optional sign, then a literal of
      decimal digits; anything else is a `ValueError`. */
  function ParseInt(s: string): Option<int>
  {
    var t := Strip(s);
    if t != [] && (t[0] == '-' || t[0] == '+') then
      if DigitLiteral(t[1..]) then
        var v: int := DigitsValue(t[1..]);
        Some(if t[0] == '-' then -v else v)
      else None
    else if DigitLiteral(t) then Some(DigitsValue(t))
    else None
  }

  /** The ids `apply_regeneration` passes to the content weaver, in order. */
  function ParsedIds(sections: seq<string>): (r: seq<int>)
    ensures |r| <= |sections|
    decreases |sections|
  {
    if sections == [] then []
    else
      var front := ParsedIds(sections[..|sections| - 1]);
      match ParseInt(sections[|sections| - 1])
      case Some(n) => front + [n]
      case None => front
  }

  /** `apply_regeneration`: sections whose id is not an integer are skipped. */
  method ApplyRegeneration(sections: seq<string>) returns (ids: seq<int>)
    ensures ids == ParsedIds(sections)
  {
    ids := [];
    var i := 0;
    while i < |sections|
      invariant 0 <= i <= |sections|
      invariant ids == ParsedIds(sections[..i])
    {
      assert sections[..i + 1][..i] == sections[..i];
      var idx := ParseInt(sections[i]);
      if idx.Some? {
        ids := ids + [idx.value];
      }
      i := i + 1;
    }
    assert sections[..i] == sections;
  }

  lemma {:induction false} NatDigits(n: nat)
    ensures DigitLiteral(NatToString(n)) && DigitsValue(NatToString(n)) == n
    ensures forall i :: 0 <= i < |NatToString(n)| ==> IsDigit(NatToString(n)[i])
  {
    var s := NatToString(n);
    if n >= 10 {
      NatDigits(n / 10);
      var front := NatToString(n / 10);
      assert s == front + [DigitChar(n % 10)];
      assert s[..|s| - 1] == front;
    }
  }

  /** Every id a fact-check report produces, a line number, parses back to
      that number. */
  lemma {:induction false} ParseIntToString(n: nat)
    ensures ParseInt(IntToString(n)) == Some(n)
  {
    NatDigits(n);
    assert IntToString(n) == NatToString(n);
    ParseDigits(NatToString(n));
  }

  /** A literal of digits only parses to its value. */
  lemma {:induction false} ParseDigits(s: string)
    requires DigitLiteral(s) && s[0] != '-' && s[0] != '+'
    ensures ParseInt(s) == Some(DigitsValue(s))
  {
    assert !IsPySpace(s[0]) && !IsPySpace(s[|s| - 1]);
    StripUnchanged(s);
  }

  /** A section id that `int` accepts. */
  predicate Parses(s: string)
  {
    ParseInt(s).Some?
  }

  /** The ids are the values of the sections that parse, in their order:
      the others are skipped. */
  lemma {:induction false} ParsedIdsFilter(sections: seq<string>)
    ensures |ParsedIds(sections)| == |Filter(sections, Parses)|
    ensures forall k :: 0 <= k < |ParsedIds(sections)| ==>
              ParseInt(Filter(sections, Parses)[k]) == Some(ParsedIds(sections)[k])
    decreases |sections|
  {
    if sections != [] {
      ParsedIdsFilter(sections[..|sections| - 1]);
    }
  }

  /** The section id of a line number, `str(line_number)`. */
  function LineId(n: nat): string
  {
    IntToString(n)
  }

  /** Line numbers turned into section ids come back unchanged. */
  lemma {:induction false} ParsedLineNumbers(ns: seq<nat>)
    ensures ParsedIds(Map(ns, LineId)) == ns
    decreases |ns|
  {
    if ns != [] {
      ParsedLineStep(ns);
      ParsedLineNumbers(ns[..|ns| - 1]);
      SnocEqual(ParsedIds(Map(ns, LineId)), ParsedIds(Map(ns[..|ns| - 1], LineId)), ns);
    }
  }

  lemma SnocEqual(a: seq<int>, b: seq<int>, ns: seq<nat>)
    requires ns != [] && a == b + [ns[|ns| - 1]] && b == ns[..|ns| - 1]
    ensures a == ns
  {
    assert ns == ns[..|ns| - 1] + [ns[|ns| - 1]];
  }

  lemma {:induction false} ParsedLineStep(ns: seq<nat>)
    requires ns != []
    ensures ParsedIds(Map(ns, LineId)) == ParsedIds(Map(ns[..|ns| - 1], LineId)) + [ns[|ns| - 1]]
  {
    var ids := Map(ns, LineId);
    assert ids[..|ids| - 1] == Map(ns[..|ns| - 1], LineId);
    ParseIntToString(ns[|ns| - 1]);
    ParsedSnoc(ids, ns[|ns| - 1]);
  }

  lemma {:induction false} ParsedSnoc(ids: seq<string>, v: int)
    requires ids != [] && ParseInt(ids[|ids| - 1]) == Some(v)
    ensures ParsedIds(ids) == ParsedIds(ids[..|ids| - 1]) + [v]
  {
  }

  /** Ids that are not integers, such as the critic's segment names, are
      dropped; integer ids keep their order. */
  lemma {:induction false} ParsedIdsExample()
    ensures ParseInt("A") == None
    ensures ParsedIds(["A"]) == []
  {
    StripUnchanged("A");
    assert ["A"][..0] == [];
  }

  // ---------------------------------------------------------------------------
  // orchestrate_regeneration

  /** The selection part of `orchestrate_regeneration`: the ids handed to
      the content weaver, and whether the regeneration tail runs at all. */
  method OrchestrateRegeneration(state: State, report: Review) returns (ids: seq<int>, regenerated: bool)
    modifies state`retryCounts
    ensures var (chosen, after) := Select(GetSections(report), old(state.retryCounts));
            && state.retryCounts == after
            && regenerated == (chosen != [])
            && ids == ParsedIds(chosen)
  {
    var sections := GetSections(report);
    var toRegenerate := SelectSections(state, sections);
    if toRegenerate == [] {
      return [], false;
    }
    ids := ApplyRegeneration(toRegenerate);
    regenerated := true;
  }
}
