/**
 * Domain authority and the ranking of citation drafts by it
 * (src/agents/researcher_web.py). `sorted(..., reverse=True)` is a stable
 * sort on descending keys; here it is an insertion sort with that order,
 * proved to be a permutation, ordered, and stable.
 *
 * `urllib.parse.urlparse` is a parameter.
 */
module AuthorityRanking {
  import opened Text
  import opened WebResearcher

  /** `CitationDraft`. */
  datatype CitationDraft = CitationDraft(url: string, snippet: string, title: string)

  /** `score_domain_authority`: case-insensitively, ".gov" and ".edu"
      domains score 1.0, ".org" domains 0.8, everything else 0.5. */
  function ScoreDomainAuthority(domain: string): (r: real)
    ensures r == 1.0 <==> EndsWith(Lower(domain), ".gov") || EndsWith(Lower(domain), ".edu")
    ensures r == 0.8 <==> !EndsWith(Lower(domain), ".gov") && !EndsWith(Lower(domain), ".edu") && EndsWith(Lower(domain), ".org")
    ensures r == 1.0 || r == 0.8 || r == 0.5
  {
    var d := Lower(domain);
    if EndsWith(d, ".gov") || EndsWith(d, ".edu") then 1.0
    else if EndsWith(d, ".org") then 0.8
    else 0.5
  }

  lemma {:induction false} LowerTwice(s: string)
    ensures Lower(Lower(s)) == Lower(s)
  {
    forall i | 0 <= i < |s| ensures Lower(Lower(s))[i] == Lower(s)[i] {
      assert LowerChar(LowerChar(s[i])) == LowerChar(s[i]);
    }
  }

  /** The score does not depend on letter case. */
  lemma {:induction false} ScoreIgnoresCase(domain: string)
    ensures ScoreDomainAuthority(Lower(domain)) == ScoreDomainAuthority(domain)
  {
    LowerTwice(domain);
  }

  // ---------------------------------------------------------------------------
  // A stable sort on descending keys
  // ---------------------------------------------------------------------------

  /** `x` placed after every element whose key is at least its own. */
  function Insert<T>(x: T, s: seq<T>, key: T -> real): seq<T>
    decreases |s|
  {
    if s == [] then [x]
    else if key(s[0]) >= key(x) then [s[0]] + Insert(x, s[1..], key)
    else [x] + s
  }

  /** The elements inserted one by one, in input order. */
  function SortDescending<T>(xs: seq<T>, key: T -> real): seq<T>
    decreases |xs|
  {
    if xs == [] then [] else Insert(xs[|xs| - 1], SortDescending(xs[..|xs| - 1], key), key)
  }

  predicate Descending<T>(s: seq<T>, key: T -> real)
  {
    forall i, j :: 0 <= i < j < |s| ==> key(s[i]) >= key(s[j])
  }

  /** The elements whose key is `k`, in order. */
  function WithKey<T>(s: seq<T>, key: T -> real, k: real): seq<T>
    decreases |s|
  {
    if s == [] then [] else (if key(s[0]) == k then [s[0]] else []) + WithKey(s[1..], key, k)
  }

  lemma {:induction false} InsertMultiset<T>(x: T, s: seq<T>, key: T -> real)
    ensures multiset(Insert(x, s, key)) == multiset(s) + multiset{x}
    decreases |s|
  {
    if s != [] && key(s[0]) >= key(x) {
      InsertMultiset(x, s[1..], key);
      assert s == [s[0]] + s[1..];
    }
  }

  lemma {:induction false} InsertElements<T>(x: T, s: seq<T>, key: T -> real, i: nat)
    requires i < |Insert(x, s, key)|
    ensures Insert(x, s, key)[i] == x || Insert(x, s, key)[i] in s
  {
    InsertMultiset(x, s, key);
    var r := Insert(x, s, key);
    assert r[i] in multiset(r);
  }

  lemma {:induction false} InsertDescending<T>(x: T, s: seq<T>, key: T -> real)
    requires Descending(s, key)
    ensures Descending(Insert(x, s, key), key)
    decreases |s|
  {
    if s != [] {
      var r := Insert(x, s, key);
      if key(s[0]) >= key(x) {
        var rest := Insert(x, s[1..], key);
        InsertDescending(x, s[1..], key);
        forall j | 0 <= j < |rest| ensures key(s[0]) >= key(rest[j]) {
          InsertElements(x, s[1..], key, j);
          if rest[j] != x {
            var m :| 0 <= m < |s[1..]| && s[1..][m] == rest[j];
            assert s[1..][m] == s[m + 1];
          }
        }
        forall i, j | 0 <= i < j < |r| ensures key(r[i]) >= key(r[j]) {
          if i > 0 {
            assert r[i] == rest[i - 1] && r[j] == rest[j - 1];
          } else {
            assert r[j] == rest[j - 1];
          }
        }
      } else {
        forall i, j | 0 <= i < j < |r| ensures key(r[i]) >= key(r[j]) {
          if i > 0 {
            assert r[i] == s[i - 1] && r[j] == s[j - 1];
          } else {
            assert r[j] == s[j - 1] && key(s[0]) >= key(s[j - 1]);
          }
        }
      }
    }
  }

  lemma {:induction false} WithKeyNone<T>(s: seq<T>, key: T -> real, k: real)
    requires forall i :: 0 <= i < |s| ==> key(s[i]) != k
    ensures WithKey(s, key, k) == []
    decreases |s|
  {
    if s != [] {
      assert forall i :: 0 <= i < |s| - 1 ==> s[1..][i] == s[i + 1];
      WithKeyNone(s[1..], key, k);
    }
  }

  /** Inserting into an ordered sequence puts the new element after every
      element with its key. */
  lemma {:induction false} InsertWithKey<T>(x: T, s: seq<T>, key: T -> real, k: real)
    requires Descending(s, key)
    ensures WithKey(Insert(x, s, key), key, k) == WithKey(s, key, k) + (if key(x) == k then [x] else [])
    decreases |s|
  {
    if s == [] {
      assert WithKey([x], key, k) == (if key(x) == k then [x] else []) + WithKey([x][1..], key, k);
    } else if key(s[0]) >= key(x) {
      DescendingTail(s, key);
      InsertWithKey(x, s[1..], key, k);
      InsertAfterHead(x, s, key, k);
    } else {
      InsertBeforeHead(x, s, key, k);
    }
  }

  lemma {:induction false} InsertAfterHead<T>(x: T, s: seq<T>, key: T -> real, k: real)
    requires s != [] && key(s[0]) >= key(x)
    requires WithKey(Insert(x, s[1..], key), key, k) == WithKey(s[1..], key, k) + (if key(x) == k then [x] else [])
    ensures WithKey(Insert(x, s, key), key, k) == WithKey(s, key, k) + (if key(x) == k then [x] else [])
  {
    var rest := Insert(x, s[1..], key);
    assert Insert(x, s, key) == [s[0]] + rest;
    WithKeyCons(s[0], rest, key, k);
    var head := if key(s[0]) == k then [s[0]] else [];
    var tail := if key(x) == k then [x] else [];
    assert WithKey(s, key, k) == head + WithKey(s[1..], key, k);
    assert head + (WithKey(s[1..], key, k) + tail) == (head + WithKey(s[1..], key, k)) + tail;
  }

  lemma {:induction false} WithKeyCons<T>(h: T, t: seq<T>, key: T -> real, k: real)
    ensures WithKey([h] + t, key, k) == (if key(h) == k then [h] else []) + WithKey(t, key, k)
  {
    var u := [h] + t;
    assert u[0] == h && u[1..] == t;
  }

  lemma {:induction false} InsertBeforeHead<T>(x: T, s: seq<T>, key: T -> real, k: real)
    requires s != [] && key(s[0]) < key(x)
    requires Descending(s, key)
    ensures WithKey(Insert(x, s, key), key, k) == WithKey(s, key, k) + (if key(x) == k then [x] else [])
  {
    var r := Insert(x, s, key);
    assert r[0] == x && r[1..] == s;
    if key(x) == k {
      WithKeyNone(s, key, k);
    }
  }

  lemma {:induction false} DescendingTail<T>(s: seq<T>, key: T -> real)
    requires s != [] && Descending(s, key)
    ensures Descending(s[1..], key)
  {
    forall i, j | 0 <= i < j < |s[1..]| ensures key(s[1..][i]) >= key(s[1..][j]) {
      assert s[1..][i] == s[i + 1] && s[1..][j] == s[j + 1];
    }
  }

  lemma {:induction false} WithKeyAppend<T>(a: seq<T>, b: seq<T>, key: T -> real, k: real)
    ensures WithKey(a + b, key, k) == WithKey(a, key, k) + WithKey(b, key, k)
    decreases |a|
  {
    if a != [] {
      assert (a + b)[0] == a[0] && (a + b)[1..] == a[1..] + b;
      WithKeyAppend(a[1..], b, key, k);
    } else {
      assert a + b == b;
    }
  }

  lemma {:induction false} SortPermutes<T>(xs: seq<T>, key: T -> real)
    ensures multiset(SortDescending(xs, key)) == multiset(xs)
    decreases |xs|
  {
    if xs != [] {
      var n := |xs| - 1;
      SortPermutes(xs[..n], key);
      InsertMultiset(xs[n], SortDescending(xs[..n], key), key);
      assert xs == xs[..n] + [xs[n]];
    }
  }

  lemma {:induction false} SortOrders<T>(xs: seq<T>, key: T -> real)
    ensures Descending(SortDescending(xs, key), key)
    decreases |xs|
  {
    if xs != [] {
      var n := |xs| - 1;
      SortOrders(xs[..n], key);
      InsertDescending(xs[n], SortDescending(xs[..n], key), key);
    }
  }

  lemma {:induction false} SortStable<T>(xs: seq<T>, key: T -> real, k: real)
    ensures WithKey(SortDescending(xs, key), key, k) == WithKey(xs, key, k)
    decreases |xs|
  {
    if xs != [] {
      var n := |xs| - 1;
      var front := SortDescending(xs[..n], key);
      SortStable(xs[..n], key, k);
      SortOrders(xs[..n], key);
      InsertWithKey(xs[n], front, key, k);
      assert xs == xs[..n] + [xs[n]];
      WithKeyAppend(xs[..n], [xs[n]], key, k);
      assert WithKey([xs[n]], key, k) == (if key(xs[n]) == k then [xs[n]] else []) + WithKey([xs[n]][1..], key, k);
    }
  }

  /** The sort is a permutation of its input, ordered by descending key, and
      stable: the elements with any one key appear in their input order. */
  lemma {:induction false} SortProperties<T>(xs: seq<T>, key: T -> real, k: real)
    ensures multiset(SortDescending(xs, key)) == multiset(xs)
    ensures Descending(SortDescending(xs, key), key)
    ensures WithKey(SortDescending(xs, key), key, k) == WithKey(xs, key, k)
  {
    SortPermutes(xs, key);
    SortOrders(xs, key);
    SortStable(xs, key, k);
  }

  // ---------------------------------------------------------------------------
  // Ranking drafts
  // ---------------------------------------------------------------------------

  /** `_score`: the authority of the draft's host. */
  function Authority(draft: CitationDraft, urlparse: string -> ParsedUrl): real
  {
    ScoreDomainAuthority(urlparse(draft.url).netloc)
  }

  /** `rank_by_authority`. */
  function RankByAuthority(results: seq<CitationDraft>, urlparse: string -> ParsedUrl): seq<CitationDraft>
  {
    SortDescending(results, (d: CitationDraft) => Authority(d, urlparse))
  }

  /** The ranking holds the same drafts, from the most to the least
      authoritative, with drafts of equal authority in their input order. */
  lemma {:induction false} RankByAuthorityOrdered(results: seq<CitationDraft>, urlparse: string -> ParsedUrl, score: real)
    ensures multiset(RankByAuthority(results, urlparse)) == multiset(results)
    ensures forall i, j :: 0 <= i < j < |RankByAuthority(results, urlparse)| ==>
      Authority(RankByAuthority(results, urlparse)[i], urlparse) >= Authority(RankByAuthority(results, urlparse)[j], urlparse)
    ensures var key := (d: CitationDraft) => Authority(d, urlparse);
      WithKey(RankByAuthority(results, urlparse), key, score) == WithKey(results, key, score)
  {
    SortProperties(results, (d: CitationDraft) => Authority(d, urlparse), score);
  }

  /** A university's page ranks before a blog's. */
  lemma {:induction false} EduBeforeBlog(low: CitationDraft, high: CitationDraft, urlparse: string -> ParsedUrl)
    requires urlparse(low.url).netloc == "blog.com" && urlparse(high.url).netloc == "uni.edu"
    ensures RankByAuthority([low, high], urlparse) == [high, low]
  {
    var key := (d: CitationDraft) => Authority(d, urlparse);
    BlogScore();
    EduScore();
    assert key(low) == 0.5 && key(high) == 1.0;
    assert [low, high][..1] == [low] && [low][..0] == [];
    assert SortDescending([low], key) == [low];
  }

  lemma {:induction false} BlogScore()
    ensures ScoreDomainAuthority("blog.com") == 0.5
  {
    assert Lower("blog.com") == "blog.com";
    assert !EndsWith("blog.com", ".gov") && !EndsWith("blog.com", ".edu") && !EndsWith("blog.com", ".org");
  }

  lemma {:induction false} EduScore()
    ensures ScoreDomainAuthority("uni.edu") == 1.0
  {
    assert Lower("uni.edu") == "uni.edu";
    assert EndsWith("uni.edu", ".edu");
  }
}
