/**
 * The fact checker (src/agents/fact_checker.py): sentences holding a
 * low-confidence phrase are reported as likely hallucinations, lines holding
 * a claim phrase without a citation as unsupported claims, and both lists
 * make up the report on an outline's steps.
 *
 * A sentence ends at '.', '!' or '?' and the whitespace after it; the
 * citation pattern is the module `CitationPattern`.
 */
module FactChecker {
  import opened Wrappers
  import opened Text
  import opened Reports
  import CoreState
  import opened CitationPattern

  // ---------------------------------------------------------------------------
  // Numbered results
  // ---------------------------------------------------------------------------

  /** The numbers, counted from 1, of the items satisfying `p`, in order. */
  function Positions<T>(xs: seq<T>, p: T -> bool): (r: seq<nat>)
    ensures |r| <= |xs|
    ensures forall j :: 0 <= j < |r| ==> 1 <= r[j] <= |xs| && p(xs[r[j] - 1])
    decreases |xs|
  {
    if xs == [] then []
    else
      var init := xs[..|xs| - 1];
      var front := Positions(init, p);
      assert forall j :: 0 <= j < |front| ==> init[front[j] - 1] == xs[front[j] - 1];
      if p(xs[|xs| - 1]) then front + [|xs|] else front
  }

  /** The numbers increase strictly, so no item is counted twice. */
  lemma {:induction false} PositionsOrdered<T>(xs: seq<T>, p: T -> bool)
    ensures forall j, j' :: 0 <= j < j' < |Positions(xs, p)| ==> Positions(xs, p)[j] < Positions(xs, p)[j']
    decreases |xs|
  {
    if xs != [] {
      PositionsOrdered(xs[..|xs| - 1], p);
    }
  }

  /** Every item satisfying `p` is counted. */
  lemma {:induction false} PositionsComplete<T>(xs: seq<T>, p: T -> bool)
    ensures forall k :: 0 <= k < |xs| && p(xs[k]) ==> k + 1 in Positions(xs, p)
    decreases |xs|
  {
    if xs != [] {
      var n := |xs|;
      var init := xs[..n - 1];
      PositionsComplete(init, p);
      assert forall k :: 0 <= k < n - 1 ==> init[k] == xs[k];
    }
  }

  /** One result per chosen position: `mk` applied to the position and its
      item. */
  function Numbered<T, R>(xs: seq<T>, pos: seq<nat>, mk: (nat, T) -> R): (r: seq<R>)
    requires forall j :: 0 <= j < |pos| ==> 1 <= pos[j] <= |xs|
    ensures |r| == |pos|
    ensures forall j :: 0 <= j < |pos| ==> r[j] == mk(pos[j], xs[pos[j] - 1])
  {
    seq(|pos|, j requires 0 <= j < |pos| => mk(pos[j], xs[pos[j] - 1]))
  }

  /** Looking at one more item adds its result, if it is chosen, at the
      end. */
  lemma {:induction false} NumberedStep<T, R>(xs: seq<T>, p: T -> bool, mk: (nat, T) -> R, i: nat)
    requires i < |xs|
    ensures Numbered(xs[..i + 1], Positions(xs[..i + 1], p), mk)
            == Numbered(xs[..i], Positions(xs[..i], p), mk) + (if p(xs[i]) then [mk(i + 1, xs[i])] else [])
  {
    var a := xs[..i + 1];
    assert a[..i] == xs[..i] && a[i] == xs[i];
    var front := Positions(xs[..i], p);
    assert Positions(a, p) == front + (if p(xs[i]) then [i + 1] else []);
    assert forall j :: 0 <= j < |front| ==> a[front[j] - 1] == xs[..i][front[j] - 1];
  }

  /** Of two items, only the second is chosen. */
  lemma {:induction false} PositionsSecond<T>(a: T, b: T, p: T -> bool)
    requires !p(a) && p(b)
    ensures Positions([a, b], p) == [2]
  {
    assert [a, b][..1] == [a];
    assert [a][..0] == [];
  }

  /** Of two items, only the first is chosen. */
  lemma {:induction false} PositionsFirst<T>(a: T, b: T, p: T -> bool)
    requires p(a) && !p(b)
    ensures Positions([a, b], p) == [1]
  {
    assert [a, b][..1] == [a];
    assert [a][..0] == [];
  }

  lemma {:induction false} NumberedSingle<T, R>(xs: seq<T>, k: nat, mk: (nat, T) -> R)
    requires 1 <= k <= |xs|
    ensures Numbered(xs, [k], mk) == [mk(k, xs[k - 1])]
  {
  }

  // ---------------------------------------------------------------------------
  // Sentences
  // ---------------------------------------------------------------------------

  const LowConfidenceWords: seq<string> := ["maybe", "probably", "i think", "uncertain"]

  /** `[.!?]`. */
  predicate IsTerminator(c: char)
  {
    c == '.' || c == '!' || c == '?'
  }

  /** The index of the first terminator in `s`, or `|s|`. */
  function TerminatorEnd(s: string): (k: nat)
    ensures k <= |s|
    ensures k < |s| ==> IsTerminator(s[k])
    ensures forall i :: 0 <= i < k ==> !IsTerminator(s[i])
  {
    if s == [] || IsTerminator(s[0]) then 0 else 1 + TerminatorEnd(s[1..])
  }

  /** `re.split(r"[.!?]\s*", s)`: the pieces between the separators, a
      separator being a terminator and all the whitespace after it. */
  function SplitSentences(s: string): (r: seq<string>)
    ensures r != []
    ensures forall k, i :: 0 <= k < |r| && 0 <= i < |r[k]| ==> !IsTerminator(r[k][i])
    decreases |s|
  {
    var k := TerminatorEnd(s);
    if k == |s| then [s]
    else
      var rest := SplitSentences(LStrip(s[k + 1..]));
      CleanCons(s[..k], rest);
      [s[..k]] + rest
  }

  lemma {:induction false} CleanCons(a: string, rest: seq<string>)
    requires forall i :: 0 <= i < |a| ==> !IsTerminator(a[i])
    requires forall k, i :: 0 <= k < |rest| && 0 <= i < |rest[k]| ==> !IsTerminator(rest[k][i])
    ensures forall k, i :: 0 <= k < |[a] + rest| && 0 <= i < |([a] + rest)[k]| ==> !IsTerminator(([a] + rest)[k][i])
  {
    forall k, i | 0 <= k < |[a] + rest| && 0 <= i < |([a] + rest)[k]|
      ensures !IsTerminator(([a] + rest)[k][i])
    {
      if k > 0 {
        assert ([a] + rest)[k] == rest[k - 1];
      }
    }
  }

  /** `[s.strip() for s in re.split(...) if s.strip()]`. */
  function Sentences(text: string): seq<string>
  {
    Map(NonBlank(SplitSentences(text)), Strip)
  }

  /** A piece with text strips to a sentence that is not empty and holds no
      terminator. */
  lemma {:induction false} StripPiece(piece: string)
    requires HasText(piece)
    requires forall i :: 0 <= i < |piece| ==> !IsTerminator(piece[i])
    ensures Strip(piece) != []
    ensures forall i :: 0 <= i < |Strip(piece)| ==> !IsTerminator(Strip(piece)[i])
  {
    HasTextStrip(piece);
    StripSlice(piece);
    var r := Strip(piece);
    var a :| StrippedAt(r, piece, a);
    assert forall i :: 0 <= i < |r| ==> r[i] == piece[a + i];
  }

  /** Each sentence is non-empty, holds no terminator and has no whitespace
      at either end. */
  lemma {:induction false} SentencesClean(text: string)
    ensures forall k :: 0 <= k < |Sentences(text)| ==> Sentences(text)[k] != []
    ensures forall k :: 0 <= k < |Sentences(text)| ==> !IsPySpace(Sentences(text)[k][0])
    ensures forall k :: 0 <= k < |Sentences(text)| ==> !IsPySpace(Sentences(text)[k][|Sentences(text)[k]| - 1])
    ensures forall k, i :: 0 <= k < |Sentences(text)| && 0 <= i < |Sentences(text)[k]| ==> !IsTerminator(Sentences(text)[k][i])
  {
    var pieces := SplitSentences(text);
    var kept := NonBlank(pieces);
    NonBlankKept(pieces);
    NonBlankFrom(pieces);
    forall k | 0 <= k < |kept|
      ensures Strip(kept[k]) != []
      ensures forall i :: 0 <= i < |Strip(kept[k])| ==> !IsTerminator(Strip(kept[k])[i])
    {
      var j :| 0 <= j < |pieces| && pieces[j] == kept[k];
      StripPiece(kept[k]);
    }
  }

  /** `... in lowered` for one of the low-confidence phrases. */
  predicate LowConfidence(sentence: string)
  {
    ContainsAny(Lower(sentence), LowConfidenceWords)
  }

  /** The score `assess_hallucination_probabilities` gives a sentence. */
  function Probability(sentence: string): (p: real)
    ensures p < 0.6 <==> LowConfidence(sentence)
  {
    if LowConfidence(sentence) then 0.4 else 0.9
  }

  /** The result for the sentence numbered `n`. */
  function Scored(n: nat, sentence: string): SentenceProbability
  {
    SentenceProbability(n, sentence, Probability(sentence))
  }

  /** The low-confidence results for the given sentences, numbered from 1. */
  function LowConfidenceSentences(sentences: seq<string>): seq<SentenceProbability>
  {
    Numbered(sentences, Positions(sentences, LowConfidence), Scored)
  }

  /** Each result names a doubtful sentence by its number and carries the
      score 0.4. */
  lemma {:induction false} LowConfidenceSound(sentences: seq<string>)
    ensures |LowConfidenceSentences(sentences)| <= |sentences|
    ensures forall j :: 0 <= j < |LowConfidenceSentences(sentences)| ==>
              var s := LowConfidenceSentences(sentences)[j];
              1 <= s.lineNumber <= |sentences| && s.sentence == sentences[s.lineNumber - 1]
              && LowConfidence(s.sentence) && s.probability == 0.4
  {
  }

  /** The results follow the sentence order, each sentence at most once. */
  lemma {:induction false} LowConfidenceOrdered(sentences: seq<string>)
    ensures forall j, j' :: 0 <= j < j' < |LowConfidenceSentences(sentences)| ==>
              LowConfidenceSentences(sentences)[j].lineNumber < LowConfidenceSentences(sentences)[j'].lineNumber
  {
    PositionsOrdered(sentences, LowConfidence);
  }

  /** Every doubtful sentence has a result. */
  lemma {:induction false} LowConfidenceComplete(sentences: seq<string>)
    ensures forall k :: 0 <= k < |sentences| && LowConfidence(sentences[k]) ==>
              exists j :: 0 <= j < |LowConfidenceSentences(sentences)| && LowConfidenceSentences(sentences)[j].lineNumber == k + 1
  {
    var pos := Positions(sentences, LowConfidence);
    var r := LowConfidenceSentences(sentences);
    PositionsComplete(sentences, LowConfidence);
    forall k | 0 <= k < |sentences| && LowConfidence(sentences[k])
      ensures exists j :: 0 <= j < |r| && r[j].lineNumber == k + 1
    {
      var j :| 0 <= j < |pos| && pos[j] == k + 1;
      assert r[j].lineNumber == k + 1;
    }
  }

  lemma {:induction false} LowConfidenceStep(sentences: seq<string>, i: nat)
    requires i < |sentences|
    ensures LowConfidenceSentences(sentences[..i + 1]) ==
            LowConfidenceSentences(sentences[..i])
            + (if Probability(sentences[i]) < 0.6 then [SentenceProbability(i + 1, sentences[i], Probability(sentences[i]))] else [])
  {
    NumberedStep(sentences, LowConfidence, Scored, i);
  }

  /** `assess_hallucination_probabilities`. */
  method AssessHallucinationProbabilities(text: string) returns (results: seq<SentenceProbability>)
    ensures results == LowConfidenceSentences(Sentences(text))
  {
    var sentences := Sentences(text);
    results := [];
    var i := 0;
    while i < |sentences|
      invariant 0 <= i <= |sentences|
      invariant results == LowConfidenceSentences(sentences[..i])
    {
      var sentence := sentences[i];
      var lowered := Lower(sentence);
      var probability := 0.9;
      if ContainsAny(lowered, LowConfidenceWords) {
        probability := 0.4;
      }
      LowConfidenceStep(sentences, i);
      if probability < 0.6 {
        results := results + [SentenceProbability(i + 1, sentence, probability)];
      }
      i := i + 1;
    }
    assert sentences[..i] == sentences;
  }

  // ---------------------------------------------------------------------------
  // Unsupported claims
  // ---------------------------------------------------------------------------

  const ClaimPhrases: seq<string> := ["studies show", "experts say", "research indicates"]

  /** `_UNSUPPORTED_PATTERN.search(line)`: a claim phrase in any letter case. */
  predicate ClaimPhrase(line: string)
  {
    ContainsAny(Lower(line), ClaimPhrases)
  }

  /** A line that `scan_unsupported_claims` flags. */
  predicate UnsupportedClaim(line: string)
  {
    ClaimPhrase(line) && !HasCitation(line)
  }

  /** The flag for the line numbered `n`. */
  function Flag(n: nat, line: string): ClaimFlag
  {
    ClaimFlag(n, Strip(line))
  }

  /** The flags for the given lines, numbered from 1. */
  function Claims(lines: seq<string>): seq<ClaimFlag>
  {
    Numbered(lines, Positions(lines, UnsupportedClaim), Flag)
  }

  /** Flag `j` names an unsupported claim by its line number and holds
      the stripped line. */
  lemma {:induction false} ClaimsSound(lines: seq<string>, j: nat)
    requires j < |Claims(lines)|
    ensures 1 <= Claims(lines)[j].lineNumber <= |lines|
    ensures UnsupportedClaim(lines[Claims(lines)[j].lineNumber - 1])
    ensures Claims(lines)[j].snippet == Strip(lines[Claims(lines)[j].lineNumber - 1])
  {
  }

  /** The flags follow the line order, each line at most once. */
  lemma {:induction false} ClaimsOrdered(lines: seq<string>)
    ensures forall j, j' :: 0 <= j < j' < |Claims(lines)| ==> Claims(lines)[j].lineNumber < Claims(lines)[j'].lineNumber
  {
    PositionsOrdered(lines, UnsupportedClaim);
  }

  /** Every unsupported claim is flagged. */
  lemma {:induction false} ClaimsComplete(lines: seq<string>)
    ensures forall k :: 0 <= k < |lines| && UnsupportedClaim(lines[k]) ==>
              exists j :: 0 <= j < |Claims(lines)| && Claims(lines)[j].lineNumber == k + 1
  {
    var pos := Positions(lines, UnsupportedClaim);
    var r := Claims(lines);
    PositionsComplete(lines, UnsupportedClaim);
    forall k | 0 <= k < |lines| && UnsupportedClaim(lines[k])
      ensures exists j :: 0 <= j < |r| && r[j].lineNumber == k + 1
    {
      var j :| 0 <= j < |pos| && pos[j] == k + 1;
      assert r[j].lineNumber == k + 1;
    }
  }

  lemma {:induction false} ClaimsStep(lines: seq<string>, i: nat)
    requires i < |lines|
    ensures Claims(lines[..i + 1]) ==
            Claims(lines[..i]) + (if UnsupportedClaim(lines[i]) then [ClaimFlag(i + 1, Strip(lines[i]))] else [])
  {
    NumberedStep(lines, UnsupportedClaim, Flag, i);
  }

  /** `scan_unsupported_claims`. */
  method ScanUnsupportedClaims(text: string) returns (flags: seq<ClaimFlag>)
    ensures flags == Claims(SplitLines(text))
  {
    var lines := SplitLines(text);
    flags := [];
    var i := 0;
    while i < |lines|
      invariant 0 <= i <= |lines|
      invariant flags == Claims(lines[..i])
    {
      var line := lines[i];
      ClaimsStep(lines, i);
      if ClaimPhrase(line) && !HasCitation(line) {
        flags := flags + [ClaimFlag(i + 1, Strip(line))];
      }
      i := i + 1;
    }
    assert lines[..i] == lines;
  }

  // ---------------------------------------------------------------------------
  // The report
  // ---------------------------------------------------------------------------

  /** `compile_fact_check_report`: both lists, each with its length. */
  function CompileFactCheckReport(hallucinations: seq<SentenceProbability>, flags: seq<ClaimFlag>): (r: FactCheckReport)
    ensures r.hallucinations == hallucinations && r.unsupportedClaims == flags
    ensures r.hallucinationCount == |r.hallucinations| && r.unsupportedClaimsCount == |r.unsupportedClaims|
  {
    FactCheckReport(hallucinations, flags, |hallucinations|, |flags|)
  }

  const MissingSteps := "state.outline.steps is required for fact checking"

  /** `run_fact_checker`: an outline without steps is an error; otherwise
      both checks run on the steps joined by newlines. */
  method RunFactChecker(state: CoreState.State) returns (r: Result<FactCheckReport>)
    ensures r.Err? <==> state.outline.steps == []
    ensures r.Err? ==> r.error == MissingSteps
    ensures r.Ok? ==> var text := Join("\n", state.outline.steps);
                      r.value == CompileFactCheckReport(LowConfidenceSentences(Sentences(text)), Claims(SplitLines(text)))
  {
    var outline := state.outline;
    if outline.steps == [] {
      return Err(MissingSteps);
    }
    var text := Join("\n", outline.steps);
    var hallucinations := AssessHallucinationProbabilities(text);
    var flags := ScanUnsupportedClaims(text);
    return Ok(CompileFactCheckReport(hallucinations, flags));
  }

  // ---------------------------------------------------------------------------
  // The source's tests
  // ---------------------------------------------------------------------------

  /** Terminator-free text up to a terminator is the first piece. */
  lemma {:induction false} TerminatorAfter(a: string, c: char, rest: string)
    requires forall i :: 0 <= i < |a| ==> !IsTerminator(a[i])
    requires IsTerminator(c)
    ensures TerminatorEnd(a + [c] + rest) == |a|
    decreases |a|
  {
    if a != [] {
      assert (a + [c] + rest)[1..] == a[1..] + [c] + rest;
      TerminatorAfter(a[1..], c, rest);
    } else {
      assert (a + [c] + rest)[0] == c;
    }
  }

  /** The first piece ends at the first terminator. */
  lemma {:induction false} SplitFirst(a: string, rest: string)
    requires forall i :: 0 <= i < |a| ==> !IsTerminator(a[i])
    ensures SplitSentences(a + "." + rest) == [a] + SplitSentences(LStrip(rest))
  {
    var text := a + "." + rest;
    assert text == a + ['.'] + rest;
    TerminatorAfter(a, '.', rest);
    assert text[..|a|] == a && text[|a| + 1..] == rest;
  }

  /** Two sentences, each closed by a period, with whitespace `w` between
      them, split into the two sentences and an empty tail. */
  lemma {:induction false} TwoPieces(a: string, w: string, b: string)
    requires b != [] && !IsPySpace(b[0])
    requires forall i :: 0 <= i < |a| ==> !IsTerminator(a[i])
    requires forall i :: 0 <= i < |b| ==> !IsTerminator(b[i])
    requires forall i :: 0 <= i < |w| ==> IsPySpace(w[i])
    ensures SplitSentences(a + "." + w + b + ".") == [a, b, []]
  {
    var second := b + ".";
    var rest := w + second;
    SplitFirst(a, rest);
    SpacesThen(w, second);
    SplitLast(b);
    Regrouped(a, w, b);
    ThreePieces(a, b);
    calc {
      SplitSentences(a + "." + w + b + ".");
      SplitSentences(a + "." + rest);
      [a] + SplitSentences(LStrip(rest));
      [a] + [b, []];
      [a, b, []];
    }
  }

  lemma {:induction false} Regrouped(a: string, w: string, b: string)
    ensures a + "." + w + b + "." == a + "." + (w + (b + "."))
  {
  }

  lemma {:induction false} ThreePieces(a: string, b: string)
    ensures [a] + [b, []] == [a, b, []]
  {
  }

  /** A last sentence closed by a period leaves an empty tail. */
  lemma {:induction false} SplitLast(b: string)
    requires forall i :: 0 <= i < |b| ==> !IsTerminator(b[i])
    ensures SplitSentences(b + ".") == [b, []]
  {
    var s := b + ".";
    var empty: string := [];
    assert TerminatorEnd(s) == |b| by {
      assert s == b + ['.'] + empty;
      TerminatorAfter(b, '.', empty);
    }
    UnfoldSplit(s, |b|);
    var tail := SplitSentences(LStrip(s[|b| + 1..]));
    assert tail == [[]] by {
      assert s[|b| + 1..] == empty;
      EmptySplit();
    }
    assert s[..|b|] == b;
    PairTail(SplitSentences(s), tail, b);
  }

  lemma PairTail(x: seq<string>, y: seq<string>, b: string)
    requires x == [b] + y && y == [[]]
    ensures x == [b, []]
  {
  }

  /** A terminator at `k` closes the first piece. */
  lemma {:induction false} UnfoldSplit(s: string, k: nat)
    requires k < |s| && TerminatorEnd(s) == k
    ensures SplitSentences(s) == [s[..k]] + SplitSentences(LStrip(s[k + 1..]))
  {
  }

  lemma {:induction false} EmptySplit()
    ensures SplitSentences(LStrip([])) == [[]]
  {
    assert LStrip([]) == [];
    assert TerminatorEnd([]) == 0;
  }

  /** Two sentences, each closed by a period, with whitespace `w` between
      them, are the two sentences. */
  lemma {:induction false} TwoSentences(a: string, w: string, b: string)
    requires a != [] && b != [] && !IsPySpace(a[0]) && !IsPySpace(a[|a| - 1]) && !IsPySpace(b[0]) && !IsPySpace(b[|b| - 1])
    requires forall i :: 0 <= i < |a| ==> !IsTerminator(a[i])
    requires forall i :: 0 <= i < |b| ==> !IsTerminator(b[i])
    requires forall i :: 0 <= i < |w| ==> IsPySpace(w[i])
    ensures Sentences(a + "." + w + b + ".") == [a, b]
  {
    var text := a + "." + w + b + ".";
    TwoPieces(a, w, b);
    KeepTwo(a, b);
    StripTwo(a, b);
    assert Sentences(text) == Map(NonBlank(SplitSentences(text)), Strip);
  }

  lemma {:induction false} StripTwo(a: string, b: string)
    requires a != [] && b != [] && !IsPySpace(a[0]) && !IsPySpace(a[|a| - 1]) && !IsPySpace(b[0]) && !IsPySpace(b[|b| - 1])
    ensures Map([a, b], Strip) == [a, b]
  {
    StripUnchanged(a);
    StripUnchanged(b);
  }

  lemma {:induction false} KeepTwo(a: string, b: string)
    requires a != [] && b != [] && !IsPySpace(a[0]) && !IsPySpace(b[0])
    ensures NonBlank([a, b, []]) == [a, b]
  {
    assert HasText(a) && HasText(b);
    NonBlankAll([a, b]);
    assert [a, b, []] == [a, b] + [[]];
    NonBlankAppend([a, b], [[]]);
    NonBlankOne([]);
  }

  /** `lstrip` removes the leading whitespace `w` and nothing else. */
  lemma {:induction false} SpacesThen(w: string, s: string)
    requires forall i :: 0 <= i < |w| ==> IsPySpace(w[i])
    requires s != [] && !IsPySpace(s[0])
    ensures LStrip(w + s) == s
    decreases |w|
  {
    if w == [] {
      assert w + s == s;
    } else {
      var t := w + s;
      assert t[0] == w[0] && t[1..] == w[1..] + s;
      assert IsPySpace(t[0]);
      SpacesThen(w[1..], s);
      assert LStrip(t) == LStrip(t[1..]);
    }
  }

  /** `test_assess_hallucination_probabilities_flags_low_confidence`: of a
      plain sentence and a doubtful one, only the second is reported. */
  lemma {:induction false} OneDoubtfulSentence(a: string, w: string, b: string)
    requires a != [] && b != [] && !IsPySpace(a[0]) && !IsPySpace(a[|a| - 1]) && !IsPySpace(b[0]) && !IsPySpace(b[|b| - 1])
    requires forall i :: 0 <= i < |a| ==> !IsTerminator(a[i])
    requires forall i :: 0 <= i < |b| ==> !IsTerminator(b[i])
    requires forall i :: 0 <= i < |w| ==> IsPySpace(w[i])
    requires !LowConfidence(a) && LowConfidence(b)
    ensures LowConfidenceSentences(Sentences(a + "." + w + b + ".")) == [SentenceProbability(2, b, 0.4)]
  {
    TwoSentences(a, w, b);
    PositionsSecond(a, b, LowConfidence);
    NumberedSingle([a, b], 2, Scored);
    assert Scored(2, b) == SentenceProbability(2, b, 0.4);
  }

  /** A line starting with "Maybe" is doubtful. */
  lemma {:induction false} MaybeDoubtful(rest: string)
    ensures LowConfidence("Maybe" + rest)
  {
    var s := Lower("Maybe" + rest);
    assert s[..5] == "maybe";
    assert Contains(s, LowConfidenceWords[0]);
  }

  /** A line starting with "Studies show" is a claim phrase. */
  lemma {:induction false} StudiesShowClaim(rest: string)
    ensures ClaimPhrase("Studies show" + rest)
  {
    var s := Lower("Studies show" + rest);
    assert s[..12] == "studies show";
    assert Contains(s, ClaimPhrases[0]);
  }

  /** `test_scan_unsupported_claims_detects_phrases`: of an uncited claim
      and a plain line, only the first is flagged. */
  lemma {:induction false} OneUncitedClaim(a: string, b: string)
    requires UnsupportedClaim(a) && !UnsupportedClaim(b)
    ensures Claims([a, b]) == [ClaimFlag(1, Strip(a))]
  {
    PositionsFirst(a, b, UnsupportedClaim);
    NumberedSingle([a, b], 1, Flag);
  }

  /** `test_run_fact_checker_compiles_report`: for two steps, an uncited
      claim and a doubtful sentence, the report counts one of each. */
  lemma {:induction false} ReportCounts(a: string, b: string)
    requires a != [] && b != [] && !IsPySpace(a[0]) && !IsPySpace(a[|a| - 1]) && !IsPySpace(b[0]) && !IsPySpace(b[|b| - 1])
    requires forall i :: 0 <= i < |a| ==> !IsTerminator(a[i]) && !IsLineBreak(a[i])
    requires forall i :: 0 <= i < |b| ==> !IsTerminator(b[i]) && !IsLineBreak(b[i])
    requires UnsupportedClaim(a + ".") && !UnsupportedClaim(b + ".")
    requires !LowConfidence(a) && LowConfidence(b)
    ensures var text := Join("\n", [a + ".", b + "."]);
            var report := CompileFactCheckReport(LowConfidenceSentences(Sentences(text)), Claims(SplitLines(text)));
            report.hallucinationCount == 1 && report.unsupportedClaimsCount == 1
  {
    var s1, s2 := a + ".", b + ".";
    var text := Join("\n", [s1, s2]);
    JoinedSteps(a, b);
    OneDoubtfulSentence(a, "\n", b);
    StepsSplit(a, b);
    OneUncitedClaim(s1, s2);
  }

  lemma {:induction false} JoinedSteps(a: string, b: string)
    ensures Join("\n", [a + ".", b + "."]) == a + "." + "\n" + b + "."
  {
    JoinTwo("\n", a + ".", b + ".");
  }

  /** Steps without line boundaries are the lines of the joined text. */
  lemma {:induction false} StepsSplit(a: string, b: string)
    requires forall i :: 0 <= i < |a| ==> !IsLineBreak(a[i])
    requires forall i :: 0 <= i < |b| ==> !IsLineBreak(b[i])
    ensures SplitLines(Join("\n", [a + ".", b + "."])) == [a + ".", b + "."]
  {
    var steps := [a + ".", b + "."];
    forall k, i | 0 <= k < |steps| && 0 <= i < |steps[k]| ensures !IsLineBreak(steps[k][i]) {
      if i < |steps[k]| - 1 {
        assert steps[k][i] == (if k == 0 then a[i] else b[i]);
      }
    }
    SplitJoin(steps);
  }

  /** `test_run_fact_checker_requires_steps`: an outline without steps is
      an error. */
  method NoStepsIsError(state: CoreState.State) returns (r: Result<FactCheckReport>)
    requires state.outline.steps == []
    ensures r == Err(MissingSteps)
  {
    r := RunFactChecker(state);
  }

  // ---------------------------------------------------------------------------
  // verify_sources
  // ---------------------------------------------------------------------------

  /** `SourceVerification`. */
  datatype SourceVerification = SourceVerification(url: string, status: string, licence: Option<string>)

  /** A HEAD request: the status code and the `License` header, or `None`
      when the request raised. */
  type Head = string -> Option<(int, Option<string>)>

  /** `verify_sources`: offline, every source is "unchecked"; otherwise a
      source is "ok" exactly when its HEAD request succeeded below status 400,
      with the licence the response declared, and "error" otherwise. */
  function VerifySources(offline: bool, urls: seq<string>, head: Head): (r: seq<SourceVerification>)
    ensures |r| == |urls|
    ensures forall k :: 0 <= k < |r| ==> r[k].url == urls[k]
    ensures offline ==> forall k :: 0 <= k < |r| ==> r[k].status == "unchecked" && r[k].licence.None?
    ensures !offline ==> forall k :: 0 <= k < |r| ==>
              (r[k].status == "ok" <==> head(urls[k]).Some? && head(urls[k]).value.0 < 400)
              && (r[k].status != "ok" ==> r[k].status == "error")
              && r[k].licence == (if head(urls[k]).Some? then head(urls[k]).value.1 else None)
  {
    if offline then seq(|urls|, k requires 0 <= k < |urls| => SourceVerification(urls[k], "unchecked", None))
    else seq(|urls|, k requires 0 <= k < |urls| => Verify(urls[k], head))
  }

  /** `test_verify_sources_marks_unchecked_when_offline`. */
  lemma {:induction false} OfflineExample(head: Head)
    ensures VerifySources(true, ["https://example.com"], head)[0].status == "unchecked"
  {
  }

  /** `test_verify_sources_fetches_metadata`: a HEAD answering 200 with an
      MIT licence gives "ok" and that licence. */
  lemma {:induction false} MetadataExample(head: Head)
    requires head("https://example.com") == Some((200, Some("MIT")))
    ensures var r := VerifySources(false, ["https://example.com"], head);
            r[0].status == "ok" && r[0].licence == Some("MIT")
  {
  }

  function Verify(url: string, head: Head): SourceVerification
  {
    match head(url)
    case None => SourceVerification(url, "error", None)
    case Some((code, licence)) => SourceVerification(url, if code < 400 then "ok" else "error", licence)
  }
}
