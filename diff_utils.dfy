/**
 * Token-level diff of two document texts (frontend/src/utils/diffUtils.ts).
 *
 * `Tokenize` models `text.split(/(\s+)/).filter(t => t.length > 0)`: the
 * capturing split alternates (possibly empty) non-space pieces with the
 * captured whitespace runs, and the filter drops the empty pieces.
 * `Diff` is the patch sequence that `computeDiff`'s cursor walk produces, as a
 * recursive function over token suffixes, and `Lcs` is the value the DP table
 * holds for a pair of suffixes. `ComputeDiff` is the imperative algorithm
 * itself, proved to return `Diff` of the two token sequences.
 */
module DiffUtils {
  import opened Text
  import opened Seqs

  // ---------------------------------------------------------------------------
  // Tokenizer
  // ---------------------------------------------------------------------------

  /** Length of the longest prefix of `s` whose characters are all whitespace
      (`space`) or all non-whitespace (`!space`). */
  function RunLen(s: string, space: bool): (k: nat)
    ensures k <= |s|
    ensures forall i :: 0 <= i < k ==> IsJsSpace(s[i]) == space
    ensures k < |s| ==> IsJsSpace(s[k]) != space
  {
    if s == [] || IsJsSpace(s[0]) != space then 0 else 1 + RunLen(s[1..], space)
  }

  /** JavaScript's `s.split(/(\s+)/)`: a non-space piece (possibly empty), then,
      while text remains, a captured whitespace run and the split of the rest. */
  function Split(s: string): seq<string>
    decreases |s|
  {
    var w := RunLen(s, false);
    if w == |s| then [s]
    else
      var sp := RunLen(s[w..], true);
      assert s[w..][0] == s[w];
      [s[..w], s[w..w + sp]] + Split(s[w + sp..])
  }

  /** `.filter((t) => t.length > 0)`. */
  function NonEmpty(parts: seq<string>): seq<string>
  {
    if parts == [] then []
    else (if parts[0] == [] then [] else [parts[0]]) + NonEmpty(parts[1..])
  }

  function Tokenize(text: string): seq<string>
  {
    NonEmpty(Split(text))
  }

  /** A token is non-empty and wholly whitespace or wholly non-whitespace. */
  predicate Uniform(t: string)
  {
    t != [] && forall i :: 0 <= i < |t| ==> IsJsSpace(t[i]) == IsJsSpace(t[0])
  }

  /** `toks` cuts `s` into maximal runs: concatenated they give back `s`, each
      is uniform and neighbours differ in kind. */
  predicate Runs(s: string, toks: seq<string>)
  {
    && Concat(toks) == s
    && (forall k :: 0 <= k < |toks| ==> Uniform(toks[k]))
    && (forall k :: 0 <= k < |toks| - 1 ==> IsJsSpace(toks[k][0]) != IsJsSpace(toks[k + 1][0]))
  }

  lemma {:induction false} ConcatHead(toks: seq<string>)
    requires toks != [] && toks[0] != []
    ensures Concat(toks) != [] && Concat(toks)[0] == toks[0][0]
  {
  }

  /** The tokens in front of a run of whitespace: the non-empty word before it
      (if any), the run itself, then the tokens of the rest. */
  function Head(word: string, space: string): seq<string>
  {
    if word == [] then [space] else [word, space]
  }

  lemma {:induction false} NonEmptyHead(word: string, space: string, parts: seq<string>)
    requires space != []
    ensures NonEmpty([word, space] + parts) == Head(word, space) + NonEmpty(parts)
  {
    var all := [word, space] + parts;
    assert all[0] == word && all[1..] == [space] + parts;
    assert ([space] + parts)[0] == space && ([space] + parts)[1..] == parts;
  }

  lemma {:induction false} TokenizeStep(s: string, w: nat, sp: nat)
    requires w == RunLen(s, false) < |s|
    requires sp == RunLen(s[w..], true)
    ensures 0 < sp && w + sp <= |s|
    ensures Tokenize(s) == Head(s[..w], s[w..w + sp]) + Tokenize(s[w + sp..])
  {
    SplitStep(s, w, sp);
    NonEmptyHead(s[..w], s[w..w + sp], Split(s[w + sp..]));
  }

  lemma {:induction false} SplitStep(s: string, w: nat, sp: nat)
    requires w == RunLen(s, false) < |s|
    requires sp == RunLen(s[w..], true)
    ensures 0 < sp && w + sp <= |s|
    ensures Split(s) == [s[..w], s[w..w + sp]] + Split(s[w + sp..])
  {
    assert s[w..][0] == s[w];
  }

  lemma {:induction false} TokenizeWord(s: string)
    requires RunLen(s, false) == |s|
    ensures Tokenize(s) == if s == [] then [] else [s]
  {
    assert Split(s) == [s];
    assert NonEmpty([s]) == (if s == [] then [] else [s]) + NonEmpty([]);
  }

  /** Putting a (possibly empty) word and a whitespace run in front of runs
      that start with a non-space character keeps them runs. */
  lemma {:induction false} RunsPrepend(word: string, space: string, rest: string, tail: seq<string>)
    requires Runs(rest, tail)
    requires forall i :: 0 <= i < |word| ==> !IsJsSpace(word[i])
    requires space != [] && forall i :: 0 <= i < |space| ==> IsJsSpace(space[i])
    requires rest == [] || !IsJsSpace(rest[0])
    ensures Runs(word + space + rest, Head(word, space) + tail)
  {
    var head := Head(word, space);
    ConcatAppend(head, tail);
    if word == [] {
      assert Concat(head) == space + Concat([]);
    } else {
      assert Concat(head) == word + Concat([space]);
      assert Concat([space]) == space + Concat([]);
    }
    if tail != [] {
      ConcatHead(tail);
    }
    var toks := head + tail;
    forall k | 0 <= k < |toks| ensures Uniform(toks[k]) {
      if k >= |head| { assert toks[k] == tail[k - |head|]; }
    }
    forall k | 0 <= k < |toks| - 1 ensures IsJsSpace(toks[k][0]) != IsJsSpace(toks[k + 1][0]) {
      if k >= |head| {
        assert toks[k] == tail[k - |head|] && toks[k + 1] == tail[k + 1 - |head|];
      } else if k == |head| - 1 {
        assert toks[k] == space && toks[k + 1] == tail[0];
      }
    }
  }

  /** Tokenizing loses nothing and adds nothing, and cuts the text into maximal
      runs of whitespace and non-whitespace. */
  lemma {:induction false} TokenizeRuns(s: string)
    ensures Runs(s, Tokenize(s))
    decreases |s|
  {
    var w := RunLen(s, false);
    if w == |s| {
      TokenizeWord(s);
      if s != [] {
        assert Concat([s]) == s + Concat([]);
      }
    } else {
      var sp := RunLen(s[w..], true);
      TokenizeStep(s, w, sp);
      TokenizeRuns(s[w + sp..]);
      RunsStep(s, w, sp, Tokenize(s[w + sp..]));
    }
  }

  lemma {:induction false} SliceSplit(s: string, i: nat, j: nat)
    requires i <= j <= |s|
    ensures s == s[..i] + s[i..j] + s[j..]
  {
  }

  lemma {:induction false} RunsStep(s: string, w: nat, sp: nat, tail: seq<string>)
    requires w == RunLen(s, false) < |s|
    requires sp == RunLen(s[w..], true)
    requires w + sp <= |s| && Runs(s[w + sp..], tail)
    ensures Runs(s, Head(s[..w], s[w..w + sp]) + tail)
  {
    var word, space, rest := s[..w], s[w..w + sp], s[w + sp..];
    SliceSplit(s, w, w + sp);
    SpaceRun(s, w, sp, word, space, rest);
    RunsPrepend(word, space, rest, tail);
  }

  lemma {:induction false} SpaceRun(s: string, w: nat, sp: nat, word: string, space: string, rest: string)
    requires w == RunLen(s, false) < |s|
    requires sp == RunLen(s[w..], true)
    requires w + sp <= |s| && word == s[..w] && space == s[w..w + sp] && rest == s[w + sp..]
    ensures forall i :: 0 <= i < |word| ==> !IsJsSpace(word[i])
    ensures space != [] && forall i :: 0 <= i < |space| ==> IsJsSpace(space[i])
    ensures rest == [] || !IsJsSpace(rest[0])
  {
    assert s[w..][0] == s[w];
    forall i | 0 <= i < sp ensures IsJsSpace(space[i]) {
      assert space[i] == s[w..][i];
    }
    if rest != [] {
      assert rest[0] == s[w..][sp];
    }
  }

  /** The first of a sequence of runs is the longest prefix of one kind. */
  lemma {:induction false} FirstRun(s: string, toks: seq<string>)
    requires Runs(s, toks) && toks != []
    ensures s != [] && |toks[0]| == RunLen(s, IsJsSpace(s[0]))
    ensures s[..|toks[0]|] == toks[0] && Runs(s[|toks[0]|..], toks[1..])
  {
    var t := toks[0];
    var rest := Concat(toks[1..]);
    assert s == t + rest;
    assert s[..|t|] == t && s[|t|..] == rest;
    var kind := IsJsSpace(s[0]);
    assert s[0] == t[0];
    forall i | 0 <= i < |t| ensures IsJsSpace(s[i]) == kind {
      assert s[i] == t[i];
    }
    if toks[1..] != [] {
      ConcatHead(toks[1..]);
      assert s[|t|] == rest[0] == toks[1][0];
    }
    var tail := toks[1..];
    forall k | 0 <= k < |tail| ensures Uniform(tail[k]) {
      assert tail[k] == toks[k + 1];
    }
    forall k | 0 <= k < |tail| - 1 ensures IsJsSpace(tail[k][0]) != IsJsSpace(tail[k + 1][0]) {
      assert tail[k] == toks[k + 1] && tail[k + 1] == toks[k + 2];
    }
  }

  /** A text has only one cutting into maximal runs, so `Tokenize` is
      characterised by `Runs`. */
  lemma {:induction false} RunsUnique(s: string, t1: seq<string>, t2: seq<string>)
    requires Runs(s, t1) && Runs(s, t2)
    ensures t1 == t2
    decreases |s|
  {
    if t1 == [] || t2 == [] {
      if t1 != [] {
        FirstRun(s, t1);
      } else if t2 != [] {
        FirstRun(s, t2);
      }
    } else {
      FirstRun(s, t1);
      FirstRun(s, t2);
      RunsUnique(s[|t1[0]|..], t1[1..], t2[1..]);
      assert t1 == [t1[0]] + t1[1..] && t2 == [t2[0]] + t2[1..];
    }
  }

  /** The cutting of "hello world" used by the source's tests. */
  lemma {:induction false} TokenizeHelloWorld()
    ensures Tokenize("hello world") == ["hello", " ", "world"]
  {
    var a, b := "hello", "world";
    assert forall i :: 0 <= i < |a| ==> !IsJsSpace(a[i]);
    assert forall i :: 0 <= i < |b| ==> !IsJsSpace(b[i]);
    TwoWords(a, b);
    assert a + " " + b == "hello world";
  }

  /** Two words separated by one space are cut into the words and the space. */
  /** The cutting of "hello brave world" used by the source's tests. */
  lemma {:induction false} TokenizeHelloBraveWorld()
    ensures Tokenize("hello brave world") == ["hello", " ", "brave", " ", "world"]
  {
    var a, b, c := "hello", "brave", "world";
    assert forall i :: 0 <= i < |a| ==> !IsJsSpace(a[i]);
    assert forall i :: 0 <= i < |b| ==> !IsJsSpace(b[i]);
    assert forall i :: 0 <= i < |c| ==> !IsJsSpace(c[i]);
    ThreeWords(a, b, c);
    assert a + " " + b + " " + c == "hello brave world";
  }

  /** Three words with single spaces between them are five tokens. */
  lemma {:induction false} ThreeWords(a: string, b: string, c: string)
    requires a != [] && forall i :: 0 <= i < |a| ==> !IsJsSpace(a[i])
    requires b != [] && forall i :: 0 <= i < |b| ==> !IsJsSpace(b[i])
    requires c != [] && forall i :: 0 <= i < |c| ==> !IsJsSpace(c[i])
    ensures Tokenize(a + " " + b + " " + c) == [a, " ", b, " ", c]
  {
    var s := a + " " + b + " " + c;
    var toks := [a, " ", b, " ", c];
    assert Concat(toks) == a + Concat(toks[1..]);
    assert Concat(toks[1..]) == " " + Concat(toks[2..]);
    assert Concat(toks[2..]) == b + Concat(toks[3..]);
    assert Concat(toks[3..]) == " " + Concat(toks[4..]);
    assert Concat(toks[4..]) == c + Concat([]);
    assert Uniform(toks[0]) && Uniform(toks[1]) && Uniform(toks[2]) && Uniform(toks[3]) && Uniform(toks[4]);
    assert Runs(s, toks);
    TokenizeRuns(s);
    RunsUnique(s, Tokenize(s), toks);
  }

  lemma {:induction false} TwoWords(a: string, b: string)
    requires a != [] && forall i :: 0 <= i < |a| ==> !IsJsSpace(a[i])
    requires b != [] && forall i :: 0 <= i < |b| ==> !IsJsSpace(b[i])
    ensures Tokenize(a + " " + b) == [a, " ", b]
  {
    var toks := [a, " ", b];
    assert Concat(toks) == a + Concat(toks[1..]);
    assert Concat(toks[1..]) == " " + Concat(toks[2..]);
    assert Concat(toks[2..]) == b + Concat([]);
    assert Uniform(toks[0]) && Uniform(toks[1]) && Uniform(toks[2]);
    assert Runs(a + " " + b, toks);
    TokenizeRuns(a + " " + b);
    RunsUnique(a + " " + b, Tokenize(a + " " + b), toks);
  }

  // ---------------------------------------------------------------------------
  // Patches and the diff specification
  // ---------------------------------------------------------------------------

  /** The `type` field of a `DiffPatch`. */
  datatype PatchType = Equal | Insert | Delete

  /** The source's `DiffPatch` (its `type` field is called `kind` here). */
  datatype DiffPatch = DiffPatch(kind: PatchType, token: string)

  /** The tokens a patch sequence takes from the old text (`equal` and `delete`). */
  function OldSide(d: seq<DiffPatch>): seq<string>
  {
    if d == [] then []
    else (if d[0].kind == Insert then [] else [d[0].token]) + OldSide(d[1..])
  }

  /** The tokens a patch sequence puts in the new text (`equal` and `insert`). */
  function NewSide(d: seq<DiffPatch>): seq<string>
  {
    if d == [] then []
    else (if d[0].kind == Delete then [] else [d[0].token]) + NewSide(d[1..])
  }

  /** The tokens of the `equal` patches. */
  function EqualTokens(d: seq<DiffPatch>): seq<string>
  {
    if d == [] then []
    else (if d[0].kind == Equal then [d[0].token] else []) + EqualTokens(d[1..])
  }

  function Max(x: nat, y: nat): nat
  {
    if x >= y then x else y
  }

  /** `dp[i][j]` of the source for the suffixes `a = oldTokens[i..]`,
      `b = newTokens[j..]`. */
  function Lcs(a: seq<string>, b: seq<string>): nat
    decreases |a| + |b|
  {
    if a == [] || b == [] then 0
    else if a[0] == b[0] then Lcs(a[1..], b[1..]) + 1
    else Max(Lcs(a[1..], b), Lcs(a, b[1..]))
  }

  /** The patches the cursor walk emits from the suffixes `a` and `b`: an equal
      head is kept, otherwise a delete when dropping the old token keeps the
      LCS at least as long as dropping the new one, else an insert; once one
      side runs out the rest of the other is deleted or inserted. */
  function Diff(a: seq<string>, b: seq<string>): seq<DiffPatch>
    decreases |a| + |b|
  {
    if a != [] && b != [] then
      if a[0] == b[0] then [DiffPatch(Equal, a[0])] + Diff(a[1..], b[1..])
      else if Lcs(a[1..], b) >= Lcs(a, b[1..]) then [DiffPatch(Delete, a[0])] + Diff(a[1..], b)
      else [DiffPatch(Insert, b[0])] + Diff(a, b[1..])
    else if a != [] then [DiffPatch(Delete, a[0])] + Diff(a[1..], b)
    else if b != [] then [DiffPatch(Insert, b[0])] + Diff(a, b[1..])
    else []
  }

  // ---------------------------------------------------------------------------
  // Subsequences: Lcs really is the longest common subsequence
  // ---------------------------------------------------------------------------

  lemma {:induction false} SubseqDropHead(c: seq<string>, a: seq<string>)
    requires c != [] && IsSubsequence(c, a)
    ensures IsSubsequence(c[1..], a)
    decreases |a|
  {
    if c[0] == a[0] && IsSubsequence(c[1..], a[1..]) {
      if c[1..] != [] {
        assert IsSubsequence(c[1..], a);
      }
    } else {
      SubseqDropHead(c, a[1..]);
    }
  }

  /** Every common subsequence of `a` and `b` is at most `Lcs(a, b)` long. */
  lemma {:induction false} LcsUpperBound(c: seq<string>, a: seq<string>, b: seq<string>)
    requires IsSubsequence(c, a) && IsSubsequence(c, b)
    ensures |c| <= Lcs(a, b)
    decreases |a| + |b|
  {
    if c != [] {
      assert a != [] && b != [];
      if a[0] == b[0] {
        // c[1..] is common to a[1..] and b[1..].
        if c[0] == a[0] && IsSubsequence(c[1..], a[1..]) {
        } else {
          SubseqDropHead(c, a[1..]);
        }
        if c[0] == b[0] && IsSubsequence(c[1..], b[1..]) {
        } else {
          SubseqDropHead(c, b[1..]);
        }
        LcsUpperBound(c[1..], a[1..], b[1..]);
      } else if c[0] != a[0] {
        LcsUpperBound(c, a[1..], b);
      } else {
        LcsUpperBound(c, a, b[1..]);
      }
    }
  }

  /** The `equal` tokens of any patch sequence are a subsequence of both sides. */
  lemma {:induction false} EqualTokensCommon(d: seq<DiffPatch>)
    ensures IsSubsequence(EqualTokens(d), OldSide(d)) && IsSubsequence(EqualTokens(d), NewSide(d))
  {
    if d != [] {
      EqualTokensCommon(d[1..]);
      var e, o, n := EqualTokens(d[1..]), OldSide(d[1..]), NewSide(d[1..]);
      match d[0].kind {
        case Equal =>
          assert EqualTokens(d) == [d[0].token] + e;
          assert OldSide(d) == [d[0].token] + o && NewSide(d) == [d[0].token] + n;
          assert ([d[0].token] + e)[1..] == e;
          assert ([d[0].token] + o)[1..] == o && ([d[0].token] + n)[1..] == n;
        case Insert =>
          assert EqualTokens(d) == e && OldSide(d) == o;
          assert NewSide(d) == [d[0].token] + n && ([d[0].token] + n)[1..] == n;
        case Delete =>
          assert EqualTokens(d) == e && NewSide(d) == n;
          assert OldSide(d) == [d[0].token] + o && ([d[0].token] + o)[1..] == o;
      }
    }
  }

  // ---------------------------------------------------------------------------
  // What the diff reconstructs
  // ---------------------------------------------------------------------------

  /** The `equal` and `delete` tokens, in order, are the old tokens. */
  lemma {:induction false} DiffOldSide(a: seq<string>, b: seq<string>)
    ensures OldSide(Diff(a, b)) == a
    decreases |a| + |b|
  {
    if a != [] && b != [] {
      if a[0] == b[0] {
        DiffOldSide(a[1..], b[1..]);
      } else if Lcs(a[1..], b) >= Lcs(a, b[1..]) {
        DiffOldSide(a[1..], b);
      } else {
        DiffOldSide(a, b[1..]);
      }
    } else if a != [] {
      DiffOldSide(a[1..], b);
    } else if b != [] {
      DiffOldSide(a, b[1..]);
    }
  }

  /** The `equal` and `insert` tokens, in order, are the new tokens. */
  lemma {:induction false} DiffNewSide(a: seq<string>, b: seq<string>)
    ensures NewSide(Diff(a, b)) == b
    decreases |a| + |b|
  {
    if a != [] && b != [] {
      if a[0] == b[0] {
        DiffNewSide(a[1..], b[1..]);
      } else if Lcs(a[1..], b) >= Lcs(a, b[1..]) {
        DiffNewSide(a[1..], b);
      } else {
        DiffNewSide(a, b[1..]);
      }
    } else if a != [] {
      DiffNewSide(a[1..], b);
    } else if b != [] {
      DiffNewSide(a, b[1..]);
    }
  }

  /** The number of `equal` patches is the LCS length. */
  lemma {:induction false} DiffEqualCount(a: seq<string>, b: seq<string>)
    ensures |EqualTokens(Diff(a, b))| == Lcs(a, b)
    decreases |a| + |b|
  {
    if a != [] && b != [] {
      if a[0] == b[0] {
        DiffEqualCount(a[1..], b[1..]);
      } else if Lcs(a[1..], b) >= Lcs(a, b[1..]) {
        DiffEqualCount(a[1..], b);
      } else {
        DiffEqualCount(a, b[1..]);
      }
    } else if a != [] {
      DiffEqualCount(a[1..], b);
    } else if b != [] {
      DiffEqualCount(a, b[1..]);
    }
  }

  /** Lcs(a, b) is the length of a longest common subsequence: the `equal`
      tokens of the diff are one of that length, and none is longer. */
  lemma {:induction false} LcsIsLongest(a: seq<string>, b: seq<string>)
    ensures IsSubsequence(EqualTokens(Diff(a, b)), a) && IsSubsequence(EqualTokens(Diff(a, b)), b)
    ensures |EqualTokens(Diff(a, b))| == Lcs(a, b)
    ensures forall c :: IsSubsequence(c, a) && IsSubsequence(c, b) ==> |c| <= Lcs(a, b)
  {
    EqualTokensCommon(Diff(a, b));
    DiffOldSide(a, b);
    DiffNewSide(a, b);
    DiffEqualCount(a, b);
    forall c | IsSubsequence(c, a) && IsSubsequence(c, b) ensures |c| <= Lcs(a, b) {
      LcsUpperBound(c, a, b);
    }
  }

  /** Dropping a token from either side never lengthens the LCS. */
  lemma {:induction false} LcsMonotone(a: seq<string>, b: seq<string>)
    ensures a != [] ==> Lcs(a[1..], b) <= Lcs(a, b)
    ensures b != [] ==> Lcs(a, b[1..]) <= Lcs(a, b)
  {
    if a != [] {
      var c := EqualTokens(Diff(a[1..], b));
      LcsIsLongest(a[1..], b);
      if c != [] {
        assert IsSubsequence(c, a);
      }
      LcsUpperBound(c, a, b);
    }
    if b != [] {
      var c := EqualTokens(Diff(a, b[1..]));
      LcsIsLongest(a, b[1..]);
      if c != [] {
        assert IsSubsequence(c, b);
      }
      LcsUpperBound(c, a, b);
    }
  }

  /** Every patch is an `equal`, a `delete` or an `insert`, and the first two
      together consume `a` while the last two consume `b`. */
  lemma {:induction false} PatchCount(d: seq<DiffPatch>)
    ensures |d| == |OldSide(d)| + |NewSide(d)| - |EqualTokens(d)|
  {
    if d != [] {
      PatchCount(d[1..]);
    }
  }

  /** Patch count = m + n - (number of `equal` patches) = m + n - LCS. */
  lemma {:induction false} DiffLength(a: seq<string>, b: seq<string>)
    ensures |Diff(a, b)| == |a| + |b| - Lcs(a, b)
  {
    PatchCount(Diff(a, b));
    DiffOldSide(a, b);
    DiffNewSide(a, b);
    DiffEqualCount(a, b);
  }

  /** The tie-break prefers `delete`: an `insert` is never directly followed by
      a `delete`, so within each changed stretch all deletes come first. */
  lemma {:induction false} DeletesBeforeInserts(a: seq<string>, b: seq<string>)
    ensures forall k :: 0 <= k < |Diff(a, b)| - 1 && Diff(a, b)[k].kind == Insert ==>
              Diff(a, b)[k + 1].kind != Delete
    decreases |a| + |b|
  {
    var d := Diff(a, b);
    if a != [] && b != [] {
      if a[0] == b[0] {
        DeletesBeforeInserts(a[1..], b[1..]);
        assert d[1..] == Diff(a[1..], b[1..]);
      } else if Lcs(a[1..], b) >= Lcs(a, b[1..]) {
        DeletesBeforeInserts(a[1..], b);
        assert d[1..] == Diff(a[1..], b);
      } else {
        DeletesBeforeInserts(a, b[1..]);
        assert d[1..] == Diff(a, b[1..]);
        InsertNotFollowedByDelete(a, b);
      }
    } else if a != [] {
      DeletesBeforeInserts(a[1..], b);
      assert d[1..] == Diff(a[1..], b);
    } else if b != [] {
      DeletesBeforeInserts(a, b[1..]);
      assert d[1..] == Diff(a, b[1..]);
      assert Diff(a, b[1..]) == [] || Diff(a, b[1..])[0].kind == Insert;
    }
  }

  /** When the walk inserts at the head, the next patch is not a delete. */
  lemma {:induction false} InsertNotFollowedByDelete(a: seq<string>, b: seq<string>)
    requires a != [] && b != [] && a[0] != b[0] && Lcs(a[1..], b) < Lcs(a, b[1..])
    ensures Diff(a, b[1..]) == [] || Diff(a, b[1..])[0].kind != Delete
  {
    var b1 := b[1..];
    if b1 != [] && a[0] != b1[0] && Lcs(a[1..], b1) >= Lcs(a, b1[1..]) {
      // Lcs(a, b1) == Lcs(a[1..], b1) <= Lcs(a[1..], b): the insert was not chosen.
      LcsMonotone(a[1..], b);
      assert false;
    }
  }

  /** Diffing a token sequence against itself gives only `equal` patches. */
  lemma {:induction false} DiffSame(a: seq<string>)
    ensures |Diff(a, a)| == |a|
    ensures forall k :: 0 <= k < |a| ==> Diff(a, a)[k] == DiffPatch(Equal, a[k])
  {
    if a != [] {
      DiffSame(a[1..]);
      assert Diff(a, a) == [DiffPatch(Equal, a[0])] + Diff(a[1..], a[1..]);
    }
  }

  /** An empty old text gives one `insert` per new token. */
  lemma {:induction false} DiffFromEmpty(b: seq<string>)
    ensures |Diff([], b)| == |b|
    ensures forall k :: 0 <= k < |b| ==> Diff([], b)[k] == DiffPatch(Insert, b[k])
  {
    if b != [] {
      DiffFromEmpty(b[1..]);
      assert Diff([], b) == [DiffPatch(Insert, b[0])] + Diff([], b[1..]);
    }
  }

  /** An empty new text gives one `delete` per old token. */
  lemma {:induction false} DiffToEmpty(a: seq<string>)
    ensures |Diff(a, [])| == |a|
    ensures forall k :: 0 <= k < |a| ==> Diff(a, [])[k] == DiffPatch(Delete, a[k])
  {
    if a != [] {
      DiffToEmpty(a[1..]);
      assert Diff(a, []) == [DiffPatch(Delete, a[0])] + Diff(a[1..], []);
    }
  }

  // ---------------------------------------------------------------------------
  // The algorithm
  // ---------------------------------------------------------------------------

  lemma {:induction false} LcsAt(a: seq<string>, b: seq<string>, i: nat, j: nat)
    requires i < |a| && j < |b|
    ensures Lcs(a[i..], b[j..]) ==
      if a[i] == b[j] then Lcs(a[i + 1..], b[j + 1..]) + 1
      else Max(Lcs(a[i + 1..], b[j..]), Lcs(a[i..], b[j + 1..]))
  {
    assert a[i..][1..] == a[i + 1..] && b[j..][1..] == b[j + 1..];
  }

  lemma {:induction false} DiffAt(a: seq<string>, b: seq<string>, i: nat, j: nat)
    requires i <= |a| && j <= |b|
    ensures i < |a| && j < |b| ==> (Diff(a[i..], b[j..]) ==
      if a[i] == b[j] then [DiffPatch(Equal, a[i])] + Diff(a[i + 1..], b[j + 1..])
      else if Lcs(a[i + 1..], b[j..]) >= Lcs(a[i..], b[j + 1..])
      then [DiffPatch(Delete, a[i])] + Diff(a[i + 1..], b[j..])
      else [DiffPatch(Insert, b[j])] + Diff(a[i..], b[j + 1..]))
    ensures i < |a| && j == |b| ==> Diff(a[i..], b[j..]) == [DiffPatch(Delete, a[i])] + Diff(a[i + 1..], b[j..])
    ensures i == |a| && j < |b| ==> Diff(a[i..], b[j..]) == [DiffPatch(Insert, b[j])] + Diff(a[i..], b[j + 1..])
  {
    if i < |a| {
      assert a[i..][1..] == a[i + 1..];
    }
    if j < |b| {
      assert b[j..][1..] == b[j + 1..];
    }
  }

  /** One row of the table: with row `i + 1` filled, fills row `i` from the
      right, as the inner loop of `computeDiff` does. */
  method FillRow(a: seq<string>, b: seq<string>, dp: array2<nat>, i: nat)
    requires i < |a| && dp.Length0 == |a| + 1 && dp.Length1 == |b| + 1
    requires forall j :: 0 <= j <= |b| ==> dp[i + 1, j] == Lcs(a[i + 1..], b[j..])
    requires dp[i, |b|] == 0
    modifies dp
    ensures forall j :: 0 <= j <= |b| ==> dp[i, j] == Lcs(a[i..], b[j..])
    ensures forall i', j :: 0 <= i' <= |a| && i' != i && 0 <= j <= |b| ==> dp[i', j] == old(dp[i', j])
  {
    var n := |b|;
    assert b[n..] == [];
    var j := n - 1;
    while j >= 0
      invariant -1 <= j < n
      invariant forall j' :: j < j' <= n ==> dp[i, j'] == Lcs(a[i..], b[j'..])
      invariant forall i', j' :: 0 <= i' <= |a| && i' != i && 0 <= j' <= n ==> dp[i', j'] == old(dp[i', j'])
    {
      FillCell(a, b, dp, i, j);
      j := j - 1;
    }
  }

  /** One cell of the table, from its right, lower and lower-right
      neighbours. */
  method FillCell(a: seq<string>, b: seq<string>, dp: array2<nat>, i: nat, j: nat)
    requires i < |a| && j < |b| && dp.Length0 == |a| + 1 && dp.Length1 == |b| + 1
    requires dp[i + 1, j] == Lcs(a[i + 1..], b[j..]) && dp[i + 1, j + 1] == Lcs(a[i + 1..], b[j + 1..])
    requires dp[i, j + 1] == Lcs(a[i..], b[j + 1..])
    modifies dp
    ensures dp[i, j] == Lcs(a[i..], b[j..])
    ensures forall i', j' :: 0 <= i' < dp.Length0 && 0 <= j' < dp.Length1 && (i' != i || j' != j) ==> dp[i', j'] == old(dp[i', j'])
  {
    LcsAt(a, b, i, j);
    dp[i, j] := if a[i] == b[j] then dp[i + 1, j + 1] + 1 else Max(dp[i + 1, j], dp[i, j + 1]);
  }

  /** The DP table of `computeDiff`: `dp[i, j]` is the LCS length of the
      suffixes from `i` and `j`, filled with `i` and `j` descending. */
  method LcsTable(a: seq<string>, b: seq<string>) returns (dp: array2<nat>)
    ensures fresh(dp) && dp.Length0 == |a| + 1 && dp.Length1 == |b| + 1
    ensures forall i, j :: 0 <= i <= |a| && 0 <= j <= |b| ==> dp[i, j] == Lcs(a[i..], b[j..])
  {
    var m, n := |a|, |b|;
    dp := new nat[m + 1, n + 1]((_, _) => 0);
    assert a[m..] == [];
    var i := m - 1;
    while i >= 0
      invariant -1 <= i < m
      invariant forall i', j :: i < i' <= m && 0 <= j <= n ==> dp[i', j] == Lcs(a[i'..], b[j..])
      invariant forall i' :: 0 <= i' <= i ==> dp[i', n] == 0
    {
      FillRow(a, b, dp, i);
      i := i - 1;
    }
  }

  /** One step of the walk: the next patch `Diff` emits at cursors `i`, `j`,
      appended to what was emitted before, leaves the rest to the suffixes. */
  lemma {:induction false} WalkStep(a: seq<string>, b: seq<string>, i: nat, j: nat, patches: seq<DiffPatch>)
    requires i <= |a| && j <= |b| && (i < |a| || j < |b|)
    requires patches + Diff(a[i..], b[j..]) == Diff(a, b)
    ensures i < |a| && j < |b| && a[i] == b[j] ==>
      (patches + [DiffPatch(Equal, a[i])]) + Diff(a[i + 1..], b[j + 1..]) == Diff(a, b)
    ensures i < |a| && (j == |b| || (a[i] != b[j] && Lcs(a[i + 1..], b[j..]) >= Lcs(a[i..], b[j + 1..]))) ==>
      (patches + [DiffPatch(Delete, a[i])]) + Diff(a[i + 1..], b[j..]) == Diff(a, b)
    ensures j < |b| && (i == |a| || (a[i] != b[j] && Lcs(a[i + 1..], b[j..]) < Lcs(a[i..], b[j + 1..]))) ==>
      (patches + [DiffPatch(Insert, b[j])]) + Diff(a[i..], b[j + 1..]) == Diff(a, b)
  {
    DiffAt(a, b, i, j);
    if i < |a| && j < |b| && a[i] == b[j] {
      Shift(patches, DiffPatch(Equal, a[i]), Diff(a[i + 1..], b[j + 1..]), Diff(a, b));
    } else if i < |a| && (j == |b| || Lcs(a[i + 1..], b[j..]) >= Lcs(a[i..], b[j + 1..])) {
      Shift(patches, DiffPatch(Delete, a[i]), Diff(a[i + 1..], b[j..]), Diff(a, b));
    } else if j < |b| {
      Shift(patches, DiffPatch(Insert, b[j]), Diff(a[i..], b[j + 1..]), Diff(a, b));
    }
  }

  lemma {:induction false} Shift(patches: seq<DiffPatch>, x: DiffPatch, rest: seq<DiffPatch>, total: seq<DiffPatch>)
    requires patches + ([x] + rest) == total
    ensures (patches + [x]) + rest == total
  {
  }

  /** The cursor walk of `computeDiff` over a filled table, then the two loops
      that flush what is left of either side. */
  method Walk(a: seq<string>, b: seq<string>, dp: array2<nat>) returns (patches: seq<DiffPatch>)
    requires dp.Length0 == |a| + 1 && dp.Length1 == |b| + 1
    requires forall i, j :: 0 <= i <= |a| && 0 <= j <= |b| ==> dp[i, j] == Lcs(a[i..], b[j..])
    ensures patches == Diff(a, b)
  {
    var i, j;
    patches, i, j := WalkBoth(a, b, dp);
    patches, i := FlushOld(a, b, i, j, patches);
    patches := FlushNew(a, b, i, j, patches);
  }

  /** The first loop: both cursors inside their sequences. */
  method WalkBoth(a: seq<string>, b: seq<string>, dp: array2<nat>) returns (patches: seq<DiffPatch>, i: nat, j: nat)
    requires dp.Length0 == |a| + 1 && dp.Length1 == |b| + 1
    requires forall i, j :: 0 <= i <= |a| && 0 <= j <= |b| ==> dp[i, j] == Lcs(a[i..], b[j..])
    ensures i <= |a| && j <= |b| && (i == |a| || j == |b|)
    ensures patches + Diff(a[i..], b[j..]) == Diff(a, b)
  {
    var m, n := |a|, |b|;
    patches := [];
    i, j := 0, 0;
    while i < m && j < n
      invariant 0 <= i <= m && 0 <= j <= n
      invariant patches + Diff(a[i..], b[j..]) == Diff(a, b)
      decreases m - i + n - j
    {
      WalkStep(a, b, i, j, patches);
      if a[i] == b[j] {
        patches := patches + [DiffPatch(Equal, a[i])];
        i, j := i + 1, j + 1;
      } else if dp[i + 1, j] >= dp[i, j + 1] {
        patches := patches + [DiffPatch(Delete, a[i])];
        i := i + 1;
      } else {
        patches := patches + [DiffPatch(Insert, b[j])];
        j := j + 1;
      }
    }
  }

  /** The second loop: the old tokens left over are deleted. */
  method FlushOld(a: seq<string>, b: seq<string>, i0: nat, j: nat, patches0: seq<DiffPatch>) returns (patches: seq<DiffPatch>, i: nat)
    requires i0 <= |a| && j <= |b| && (i0 == |a| || j == |b|)
    requires patches0 + Diff(a[i0..], b[j..]) == Diff(a, b)
    ensures i == |a|
    ensures patches + Diff(a[i..], b[j..]) == Diff(a, b)
  {
    patches, i := patches0, i0;
    while i < |a|
      invariant i0 <= i <= |a|
      invariant patches + Diff(a[i..], b[j..]) == Diff(a, b)
      decreases |a| - i
    {
      WalkStep(a, b, i, j, patches);
      patches := patches + [DiffPatch(Delete, a[i])];
      i := i + 1;
    }
  }

  /** The third loop: the new tokens left over are inserted. */
  method FlushNew(a: seq<string>, b: seq<string>, i: nat, j0: nat, patches0: seq<DiffPatch>) returns (patches: seq<DiffPatch>)
    requires i == |a| && j0 <= |b|
    requires patches0 + Diff(a[i..], b[j0..]) == Diff(a, b)
    ensures patches == Diff(a, b)
  {
    patches := patches0;
    var j := j0;
    while j < |b|
      invariant j0 <= j <= |b|
      invariant patches + Diff(a[i..], b[j..]) == Diff(a, b)
      decreases |b| - j
    {
      WalkStep(a, b, i, j, patches);
      patches := patches + [DiffPatch(Insert, b[j])];
      j := j + 1;
    }
    assert a[i..] == [] && b[j..] == [];
  }

  /** `computeDiff`: tokenizes both texts, fills the LCS table and walks it.
      The patches replay the old tokens on one side and the new tokens on the
      other, and keep as many tokens as any common subsequence can. */
  method ComputeDiff(oldText: string, newText: string) returns (patches: seq<DiffPatch>)
    ensures patches == Diff(Tokenize(oldText), Tokenize(newText))
    ensures OldSide(patches) == Tokenize(oldText) && NewSide(patches) == Tokenize(newText)
    ensures |EqualTokens(patches)| == Lcs(Tokenize(oldText), Tokenize(newText))
  {
    var oldTokens := Tokenize(oldText);
    var newTokens := Tokenize(newText);
    var dp := LcsTable(oldTokens, newTokens);
    patches := Walk(oldTokens, newTokens, dp);
    DiffOldSide(oldTokens, newTokens);
    DiffNewSide(oldTokens, newTokens);
    DiffEqualCount(oldTokens, newTokens);
  }

  // ---------------------------------------------------------------------------
  // The examples of the source's tests
  // ---------------------------------------------------------------------------

  /** "hello world" to "hello brave world": two equals, the inserted word and
      its space, then the last equal; the reverse deletes them instead. */
  lemma {:induction false} InsertedWordExample()
    ensures Diff(Tokenize("hello world"), Tokenize("hello brave world")) ==
      [DiffPatch(Equal, "hello"), DiffPatch(Equal, " "), DiffPatch(Insert, "brave"),
       DiffPatch(Insert, " "), DiffPatch(Equal, "world")]
    ensures Diff(Tokenize("hello brave world"), Tokenize("hello world")) ==
      [DiffPatch(Equal, "hello"), DiffPatch(Equal, " "), DiffPatch(Delete, "brave"),
       DiffPatch(Delete, " "), DiffPatch(Equal, "world")]
  {
    TokenizeHelloWorld();
    TokenizeHelloBraveWorld();
    InsertedWordTokens();
  }

  /** The same example on the token lists. */
  lemma {:induction false} InsertedWordTokens()
    ensures Diff(["hello", " ", "world"], ["hello", " ", "brave", " ", "world"]) ==
      [DiffPatch(Equal, "hello"), DiffPatch(Equal, " "), DiffPatch(Insert, "brave"),
       DiffPatch(Insert, " "), DiffPatch(Equal, "world")]
    ensures Diff(["hello", " ", "brave", " ", "world"], ["hello", " ", "world"]) ==
      [DiffPatch(Equal, "hello"), DiffPatch(Equal, " "), DiffPatch(Delete, "brave"),
       DiffPatch(Delete, " "), DiffPatch(Equal, "world")]
  {
    var w: seq<string> := ["world"];
    var sw: seq<string> := [" ", "world"];
    var bsw: seq<string> := ["brave", " ", "world"];
    assert Lcs(w, w) == 1;
    assert Lcs([], w) == 0 && Lcs(w, []) == 0;
    assert Lcs(w, sw) == 1;
    assert Lcs(sw, w) == 1;
    assert Lcs(w, bsw) == 1;
    assert Lcs(bsw, w) == 1;
    assert Lcs(sw, sw) == 2;
    assert Lcs([], bsw) == 0 && Lcs(bsw, []) == 0;
    assert Diff(w, w) == [DiffPatch(Equal, "world")];
    assert Diff(w, sw) == [DiffPatch(Insert, " ")] + Diff(w, w);
    assert Diff(w, bsw) == [DiffPatch(Insert, "brave")] + Diff(w, sw);
    assert Diff(sw, w) == [DiffPatch(Delete, " ")] + Diff(w, w);
    assert Diff(bsw, w) == [DiffPatch(Delete, "brave")] + Diff(sw, w);
  }
}
