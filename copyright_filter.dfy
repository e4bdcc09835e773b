/**
 * The allowlist filter for citation drafts (src/agents/copyright_filter.py):
 * each draft is kept when some allowlisted pattern occurs in its host,
 * compared in lower case, and dropped otherwise.
 *
 * The allowlist (`Settings().allowlist_domains`) and `urlparse` are
 * parameters.
 */
module CopyrightFilter {
  import opened Text
  import opened Seqs
  import opened WebResearcher
  import opened AuthorityRanking

  /** `any(pattern in domain for pattern in patterns)`, with the lowercased
      host and patterns. */
  predicate Allowed(draft: CitationDraft, patterns: seq<string>, urlparse: string -> ParsedUrl)
  {
    ContainsAny(Lower(urlparse(draft.url).netloc), patterns)
  }

  /** The kept drafts, in input order. */
  function Kept(results: seq<CitationDraft>, patterns: seq<string>, urlparse: string -> ParsedUrl): seq<CitationDraft>
  {
    Filter(results, (d: CitationDraft) => Allowed(d, patterns, urlparse))
  }

  /** The dropped drafts, in input order. */
  function Dropped(results: seq<CitationDraft>, patterns: seq<string>, urlparse: string -> ParsedUrl): seq<CitationDraft>
  {
    Filter(results, (d: CitationDraft) => !Allowed(d, patterns, urlparse))
  }

  /** `filter_allowlist`: one pass over the drafts, appending each to the
      kept or the dropped list. */
  method FilterAllowlist(results: seq<CitationDraft>, allowlist: seq<string>, urlparse: string -> ParsedUrl)
    returns (kept: seq<CitationDraft>, dropped: seq<CitationDraft>)
    ensures kept == Kept(results, Map(allowlist, Lower), urlparse)
    ensures dropped == Dropped(results, Map(allowlist, Lower), urlparse)
  {
    var patterns := Map(allowlist, Lower);
    kept := [];
    dropped := [];
    var i := 0;
    while i < |results|
      invariant 0 <= i <= |results|
      invariant kept == Kept(results[..i], patterns, urlparse)
      invariant dropped == Dropped(results[..i], patterns, urlparse)
    {
      var draft := results[i];
      FilterStep(results, (d: CitationDraft) => Allowed(d, patterns, urlparse), i);
      FilterStep(results, (d: CitationDraft) => !Allowed(d, patterns, urlparse), i);
      var domain := Lower(urlparse(draft.url).netloc);
      if ContainsAny(domain, patterns) {
        kept := kept + [draft];
      } else {
        dropped := dropped + [draft];
      }
      i := i + 1;
    }
    assert results[..i] == results;
  }

  /** Every draft lands in exactly one of the two lists. */
  lemma {:induction false} FilterAllowlistPartition(results: seq<CitationDraft>, patterns: seq<string>, urlparse: string -> ParsedUrl)
    ensures multiset(Kept(results, patterns, urlparse)) + multiset(Dropped(results, patterns, urlparse)) == multiset(results)
  {
    FilterSplit(results, (d: CitationDraft) => Allowed(d, patterns, urlparse), (d: CitationDraft) => !Allowed(d, patterns, urlparse));
  }

  /** Both lists keep the input order. */
  lemma {:induction false} FilterAllowlistOrder(results: seq<CitationDraft>, patterns: seq<string>, urlparse: string -> ParsedUrl)
    ensures IsSubsequence(Kept(results, patterns, urlparse), results)
    ensures IsSubsequence(Dropped(results, patterns, urlparse), results)
  {
    FilterSubsequence(results, (d: CitationDraft) => Allowed(d, patterns, urlparse));
    FilterSubsequence(results, (d: CitationDraft) => !Allowed(d, patterns, urlparse));
  }

  /** A draft is kept exactly when some pattern occurs in its lowercased
      host, and dropped exactly when none does. */
  lemma {:induction false} FilterAllowlistKept(results: seq<CitationDraft>, patterns: seq<string>,
                                               urlparse: string -> ParsedUrl, draft: CitationDraft)
    ensures draft in Kept(results, patterns, urlparse) <==>
      draft in results && exists k :: 0 <= k < |patterns| && Contains(Lower(urlparse(draft.url).netloc), patterns[k])
    ensures draft in Dropped(results, patterns, urlparse) <==>
      draft in results && forall k :: 0 <= k < |patterns| ==> !Contains(Lower(urlparse(draft.url).netloc), patterns[k])
  {
    FilterIn(results, (d: CitationDraft) => Allowed(d, patterns, urlparse), draft);
    FilterIn(results, (d: CitationDraft) => !Allowed(d, patterns, urlparse), draft);
    ContainsAnyIff(Lower(urlparse(draft.url).netloc), patterns);
  }

  /** A lowercase text is its own lowercase form. */
  lemma {:induction false} LowerUnchanged(s: string)
    requires forall i :: 0 <= i < |s| ==> !('A' <= s[i] <= 'Z')
    ensures Lower(s) == s
  {
  }

  /** A pattern with a character the host lacks does not occur in it. */
  lemma {:induction false} MissingChar(s: string, sub: string, c: char)
    requires c in sub && c !in s
    ensures !Contains(s, sub)
    decreases |s|
  {
    if s != [] {
      assert forall d :: d in s[1..] ==> d in s;
      MissingChar(s[1..], sub, c);
    }
  }

  lemma {:induction false} Suffix(s: string, sub: string)
    requires EndsWith(s, sub)
    ensures Contains(s, sub)
    decreases |s|
  {
    if !StartsWith(s, sub) {
      assert |s| > |sub|;
      assert s[1..][|s[1..]| - |sub|..] == s[|s| - |sub|..];
      Suffix(s[1..], sub);
    }
  }

  /** `["example.com", ".edu"]`, lowercased. */
  lemma {:induction false} ExamplePatterns()
    ensures Map(["example.com", ".edu"], Lower) == ["example.com", ".edu"]
  {
    LowerUnchanged("example.com");
    LowerUnchanged(".edu");
  }

  lemma {:induction false} ExampleHostAllowed()
    ensures ContainsAny(Lower("example.com"), ["example.com", ".edu"])
  {
    LowerUnchanged("example.com");
    assert StartsWith("example.com", "example.com");
  }

  /** A pattern longer than the host does not occur in it. */
  lemma {:induction false} TooLong(s: string, sub: string)
    requires |sub| > |s|
    ensures !Contains(s, sub)
    decreases |s|
  {
    if s != [] {
      TooLong(s[1..], sub);
    }
  }

  lemma {:induction false} OtherHostDropped()
    ensures !ContainsAny(Lower("other.net"), ["example.com", ".edu"])
  {
    LowerUnchanged("other.net");
    TooLong("other.net", "example.com");
    OtherHostNotEdu();
    assert ["example.com", ".edu"][1..] == [".edu"] && [".edu"][1..] == [];
  }

  lemma {:induction false} OtherHostNotEdu()
    ensures !Contains("other.net", ".edu")
  {
    assert ".edu"[1] == 'e';
    assert forall i :: 0 <= i < |"other.net"| ==> "other.net"[i] != 'd';
    MissingChar("other.net", ".edu", 'd');
  }

  lemma {:induction false} SiteHostAllowed()
    ensures ContainsAny(Lower("site.edu"), ["example.com", ".edu"])
  {
    LowerUnchanged("site.edu");
    assert EndsWith("site.edu", ".edu");
    Suffix("site.edu", ".edu");
    assert ["example.com", ".edu"][1..] == [".edu"];
  }

  /** Allowlisting "example.com" and ".edu" keeps example.com and site.edu
      and drops other.net, in input order. */
  lemma {:induction false} AllowlistExample(a: CitationDraft, b: CitationDraft, c: CitationDraft, urlparse: string -> ParsedUrl)
    requires urlparse(a.url).netloc == "example.com"
    requires urlparse(b.url).netloc == "other.net"
    requires urlparse(c.url).netloc == "site.edu"
    ensures Kept([a, b, c], Map(["example.com", ".edu"], Lower), urlparse) == [a, c]
    ensures Dropped([a, b, c], Map(["example.com", ".edu"], Lower), urlparse) == [b]
  {
    ExamplePatterns();
    var patterns := ["example.com", ".edu"];
    ExampleHostAllowed();
    OtherHostDropped();
    SiteHostAllowed();
    FilterThree(a, b, c, (d: CitationDraft) => Allowed(d, patterns, urlparse), (d: CitationDraft) => !Allowed(d, patterns, urlparse));
  }
}
