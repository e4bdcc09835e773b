/**
 * The citation pattern of the fact checker (src/agents/fact_checker.py),
 * `\[[0-9]+\]|\(.*?\d{4}.*?\)`, searched for in one line: a bracketed
 * number, or an opening parenthesis followed, before any newline, by four
 * digits in a row and then a closing parenthesis.
 *
 * `HasCitation` scans the line position by position, as the search does;
 * `Matches` states what a match is by the positions that make it up, and
 * the two are proved to agree.
 */
module CitationPattern {
  import opened Text

  // ---------------------------------------------------------------------------
  // The scanner
  // ---------------------------------------------------------------------------

  /** `\[[0-9]+\]` at `i`: the digit run after the bracket is closed by ']'. */
  predicate BracketAt(line: string, i: nat)
  {
    i < |line| && line[i] == '['
    && var j := DigitsEnd(line, i + 1);
       i + 1 < j < |line| && line[j] == ']'
  }

  /** `\d{4}` at `p`. */
  predicate FourDigitsAt(line: string, p: int)
  {
    0 <= p && p + 4 <= |line|
    && IsDigit(line[p]) && IsDigit(line[p + 1]) && IsDigit(line[p + 2]) && IsDigit(line[p + 3])
  }

  /** `.*?\)` from `k`: a ')' before any newline. */
  predicate ClosesFrom(line: string, k: nat)
    decreases |line| - k
  {
    k < |line| && line[k] != '\n' && (line[k] == ')' || ClosesFrom(line, k + 1))
  }

  /** `.*?\d{4}.*?\)` from `k`: four digits and then a ')', before any
      newline. */
  predicate YearFrom(line: string, k: nat)
    decreases |line| - k
  {
    k < |line| && line[k] != '\n'
    && ((FourDigitsAt(line, k) && ClosesFrom(line, k + 4)) || YearFrom(line, k + 1))
  }

  /** `\(.*?\d{4}.*?\)` at `i`. */
  predicate YearAt(line: string, i: nat)
  {
    i < |line| && line[i] == '(' && YearFrom(line, i + 1)
  }

  /** The search from position `i` on. */
  predicate CitedFrom(line: string, i: nat)
    decreases |line| - i
  {
    i < |line| && (BracketAt(line, i) || YearAt(line, i) || CitedFrom(line, i + 1))
  }

  /** `_CITATION_PATTERN.search(line)` found a match. */
  predicate HasCitation(line: string)
  {
    CitedFrom(line, 0)
  }

  // ---------------------------------------------------------------------------
  // Matches, by their positions
  // ---------------------------------------------------------------------------

  /** `line[i..j + 1]` is '[', one digit or more, ']'. */
  predicate BracketMatch(line: string, i: int, j: int)
  {
    0 <= i && i + 1 < j < |line| && line[i] == '[' && line[j] == ']'
    && forall k :: i < k < j ==> IsDigit(line[k])
  }

  /** No newline in `line[a..b]`. */
  predicate OneLine(line: string, a: int, b: int)
    requires 0 <= a && b <= |line|
  {
    forall k :: a <= k < b ==> line[k] != '\n'
  }

  /** `line[i..q + 1]` is '(' ..., four digits at `p`, ..., ')', all on one
      line. */
  predicate YearMatch(line: string, i: int, p: int, q: int)
  {
    0 <= i < p && p + 4 <= q < |line| && line[i] == '(' && FourDigitsAt(line, p) && line[q] == ')'
    && OneLine(line, i + 1, q)
  }

  /** Some part of the line matches one of the two alternatives. */
  predicate Matches(line: string)
  {
    (exists i, j :: 0 <= i < j < |line| && BracketMatch(line, i, j))
    || (exists i, p, q :: 0 <= i < p < q < |line| && YearMatch(line, i, p, q))
  }

  // ---------------------------------------------------------------------------
  // The scanner finds exactly the matches
  // ---------------------------------------------------------------------------

  /** A run of digits ending before a non-digit ends there. */
  lemma {:induction false} DigitsEndAt(line: string, i: nat, j: nat)
    requires i <= j < |line| && !IsDigit(line[j])
    requires forall k :: i <= k < j ==> IsDigit(line[k])
    ensures DigitsEnd(line, i) == j
    decreases j - i
  {
    if i < j {
      DigitsEndAt(line, i + 1, j);
    }
  }

  lemma {:induction false} BracketAtIff(line: string, i: nat)
    ensures BracketAt(line, i) <==> exists j :: i < j < |line| && BracketMatch(line, i, j)
  {
    if i < |line| && line[i] == '[' && i + 1 <= |line| {
      var e := DigitsEnd(line, i + 1);
      if BracketAt(line, i) {
        assert BracketMatch(line, i, e);
      }
      if exists j :: i < j < |line| && BracketMatch(line, i, j) {
        var j :| i < j < |line| && BracketMatch(line, i, j);
        DigitsEndAt(line, i + 1, j);
      }
    }
  }

  lemma {:induction false} ClosesFromIff(line: string, k: nat)
    ensures ClosesFrom(line, k) <==> exists q :: k <= q < |line| && line[q] == ')' && OneLine(line, k, q)
    decreases |line| - k
  {
    if k < |line| {
      ClosesFromIff(line, k + 1);
      if ClosesFrom(line, k) && line[k] != ')' {
        var q :| k + 1 <= q < |line| && line[q] == ')' && OneLine(line, k + 1, q);
        assert OneLine(line, k, q);
      }
      if exists q :: k <= q < |line| && line[q] == ')' && OneLine(line, k, q) {
        var q :| k <= q < |line| && line[q] == ')' && OneLine(line, k, q);
        if q > k {
          assert OneLine(line, k + 1, q);
        } else {
          assert line[k] == ')';
        }
      }
    }
  }

  /** Four digits at `p` and a closing parenthesis at `q`, with no newline
      from `k` on. */
  predicate YearTail(line: string, k: nat, p: int, q: int)
  {
    k <= p && p + 4 <= q < |line| && FourDigitsAt(line, p) && line[q] == ')' && OneLine(line, k, q)
  }

  lemma {:induction false} YearFromIff(line: string, k: nat)
    ensures YearFrom(line, k) <==> exists p, q :: k <= p < q < |line| && YearTail(line, k, p, q)
    decreases |line| - k
  {
    if k < |line| {
      YearFromIff(line, k + 1);
      if YearFrom(line, k) {
        if FourDigitsAt(line, k) && ClosesFrom(line, k + 4) {
          ClosesFromIff(line, k + 4);
          var q :| k + 4 <= q < |line| && line[q] == ')' && OneLine(line, k + 4, q);
          assert YearTail(line, k, k, q);
        } else {
          var p, q :| k + 1 <= p < q < |line| && YearTail(line, k + 1, p, q);
          assert YearTail(line, k, p, q);
        }
      }
      if exists p, q :: k <= p < q < |line| && YearTail(line, k, p, q) {
        var p, q :| k <= p < q < |line| && YearTail(line, k, p, q);
        assert line[k] != '\n';
        if p == k {
          ClosesFromIff(line, k + 4);
          assert OneLine(line, k + 4, q);
        } else {
          assert YearTail(line, k + 1, p, q);
        }
      }
    }
  }

  lemma {:induction false} YearAtIff(line: string, i: nat)
    ensures YearAt(line, i) <==> exists p, q :: i < p < q < |line| && YearMatch(line, i, p, q)
  {
    if i < |line| && line[i] == '(' {
      YearFromIff(line, i + 1);
      if YearAt(line, i) {
        var p, q :| i + 1 <= p < q < |line| && YearTail(line, i + 1, p, q);
        assert YearMatch(line, i, p, q);
      }
      if exists p, q :: i < p < q < |line| && YearMatch(line, i, p, q) {
        var p, q :| i < p < q < |line| && YearMatch(line, i, p, q);
        assert YearTail(line, i + 1, p, q);
      }
    }
  }

  /** A match starts at `i` or later. */
  predicate MatchFrom(line: string, i: nat)
  {
    (exists a, j :: i <= a < j < |line| && BracketMatch(line, a, j))
    || (exists a, p, q :: i <= a < p < q < |line| && YearMatch(line, a, p, q))
  }

  lemma {:induction false} CitedFromIff(line: string, i: nat)
    ensures CitedFrom(line, i) <==> MatchFrom(line, i)
    decreases |line| - i
  {
    if i < |line| {
      CitedFromIff(line, i + 1);
      BracketAtIff(line, i);
      YearAtIff(line, i);
      if MatchFrom(line, i) {
        if exists a, j :: i <= a < j < |line| && BracketMatch(line, a, j) {
          var a, j :| i <= a < j < |line| && BracketMatch(line, a, j);
          if a > i {
            assert MatchFrom(line, i + 1);
          }
        } else {
          var a, p, q :| i <= a < p < q < |line| && YearMatch(line, a, p, q);
          if a > i {
            assert MatchFrom(line, i + 1);
          }
        }
      }
    }
  }

  /** The search finds a citation exactly when part of the line matches the
      pattern. */
  lemma {:induction false} HasCitationIff(line: string)
    ensures HasCitation(line) <==> Matches(line)
  {
    CitedFromIff(line, 0);
  }

  /** A line without '[' or '(' cites nothing. */
  lemma {:induction false} NoCitation(line: string)
    requires '[' !in line && '(' !in line
    ensures !HasCitation(line)
  {
    NotCitedFrom(line, 0);
  }

  lemma {:induction false} NotCitedFrom(line: string, i: nat)
    requires '[' !in line && '(' !in line
    ensures !CitedFrom(line, i)
    decreases |line| - i
  {
    if i < |line| {
      assert line[i] in line;
      NotCitedFrom(line, i + 1);
    }
  }

  /** A numbered reference anywhere in the line is a citation. */
  lemma {:induction false} BracketCites(before: string, d: char, after: string)
    requires IsDigit(d)
    ensures HasCitation(before + ['[', d, ']'] + after)
  {
    var line := before + ['[', d, ']'] + after;
    var i := |before|;
    assert line[i] == '[' && line[i + 1] == d && line[i + 2] == ']';
    DigitsEndAt(line, i + 1, i + 2);
    assert BracketAt(line, i);
    CitedBefore(line, 0, i);
  }

  lemma {:induction false} CitedBefore(line: string, i: nat, m: nat)
    requires i <= m < |line| && BracketAt(line, m)
    ensures CitedFrom(line, i)
    decreases m - i
  {
    if i < m {
      CitedBefore(line, i + 1, m);
    }
  }
}
