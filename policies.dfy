/**
 * Edge policies of the orchestrator (src/core/policies.py): the per-agent
 * retry counter with its limit of three, the two retry policies that
 * consult it, and the merge of parallel search results by canonical URL.
 *
 * A raised `RuntimeError` is an `Err` result; the URL parser is a parameter.
 */
module Policies {
  import opened Wrappers
  import opened Text
  import opened Dedup
  import opened CoreState
  import opened Reports
  import opened Planner
  import opened WebResearcher

  /** The most retries an agent may make. */
  const RetryLimit: int := 3

  /** The default arguments of the two policies. */
  const DefaultThreshold: real := 0.8
  const PlannerAgent: string := "Planner"
  const WeaverAgent: string := "Content-Weaver"

  /** `state.retries.get(agent_name, 0)`. */
  function RetryCount(retries: map<string, int>, agent: string): int
  {
    if agent in retries then retries[agent] else 0
  }

  /** `retry_tracker` on the counters: the result and the counters after it. */
  function Track(retries: map<string, int>, agent: string): (r: (Result<int>, map<string, int>))
    ensures r.0.Ok? <==> RetryCount(retries, agent) < RetryLimit
    ensures r.0.Err? ==> r.1 == retries
    ensures r.0.Ok? ==> r.0.value == RetryCount(retries, agent) + 1 && RetryCount(r.1, agent) == r.0.value
    ensures forall a :: a != agent ==> RetryCount(r.1, a) == RetryCount(retries, a)
  {
    var count := RetryCount(retries, agent);
    if count >= RetryLimit then (Err("Retry limit exceeded for " + agent), retries)
    else (Ok(count + 1), retries[agent := count + 1])
  }

  /** Counters between 0 and the limit stay there. */
  predicate WithinLimit(retries: map<string, int>)
  {
    forall a :: a in retries ==> 0 <= retries[a] <= RetryLimit
  }

  lemma {:induction false} TrackKeepsLimit(retries: map<string, int>, agent: string)
    requires WithinLimit(retries)
    ensures WithinLimit(Track(retries, agent).1)
  {
  }

  /** The source's test: from no retries, three calls return 1, 2 and 3 and
      the fourth raises, leaving the counter at 3. */
  lemma {:induction false} ThreeThenRaise(retries: map<string, int>, agent: string)
    requires agent !in retries
    ensures var (r1, m1) := Track(retries, agent);
            var (r2, m2) := Track(m1, agent);
            var (r3, m3) := Track(m2, agent);
            var (r4, m4) := Track(m3, agent);
            r1 == Ok(1) && r2 == Ok(2) && r3 == Ok(3) && r4.Err? && RetryCount(m4, agent) == 3
  {
  }

  /** `retry_tracker(state, agent_name)`. */
  method RetryTracker(state: State, agentName: string) returns (r: Result<int>)
    modifies state`retries
    ensures (r, state.retries) == Track(old(state.retries), agentName)
  {
    var count := if agentName in state.retries then state.retries[agentName] else 0;
    if count >= RetryLimit {
      return Err("Retry limit exceeded for " + agentName);
    }
    count := count + 1;
    state.retries := state.retries[agentName := count];
    r := Ok(count);
  }

  /** What both policies do: when a retry is wanted, consult the tracker,
      which may raise; return whether a retry is wanted. */
  function Gate(shouldRetry: bool, retries: map<string, int>, agent: string): (r: (Result<bool>, map<string, int>))
    ensures r.0 == Ok(true) <==> shouldRetry && RetryCount(retries, agent) < RetryLimit
    ensures r.0 == Ok(false) <==> !shouldRetry
    ensures r.0.Err? <==> shouldRetry && RetryCount(retries, agent) >= RetryLimit
    ensures r.0 != Ok(true) ==> r.1 == retries
  {
    if shouldRetry then
      var (t, after) := Track(retries, agent);
      if t.Err? then (Err(t.error), after) else (Ok(true), after)
    else (Ok(false), retries)
  }

  /** `policy_retry_on_low_confidence`: retry while the planner's confidence
      is strictly below the threshold. */
  method PolicyRetryOnLowConfidence(prev: PlanResult, state: State, threshold: real, agentName: string)
    returns (r: Result<bool>)
    modifies state`retries
    ensures (r, state.retries) == Gate(prev.confidence < threshold, old(state.retries), agentName)
  {
    var shouldRetry := prev.confidence < threshold;
    if shouldRetry {
      var t := RetryTracker(state, agentName);
      if t.Err? {
        return Err(t.error);
      }
    }
    r := Ok(shouldRetry);
  }

  /** `policy_retry_on_critic_failure`: retry while the report lists issues. */
  method PolicyRetryOnCriticFailure(report: IssueReport, state: State, agentName: string)
    returns (r: Result<bool>)
    modifies state`retries
    ensures (r, state.retries) == Gate(|report.issues| > 0, old(state.retries), agentName)
  {
    var shouldRetry := |report.issues| > 0;
    if shouldRetry {
      var t := RetryTracker(state, agentName);
      if t.Err? {
        return Err(t.error);
      }
    }
    r := Ok(shouldRetry);
  }

  /** The source's policy tests: a confidence of 0.5 retries and 0.9 does
      not; a persistent low confidence retries three times, then raises. */
  lemma {:induction false} LowConfidenceExamples(retries: map<string, int>)
    requires PlannerAgent !in retries
    ensures Gate(0.5 < DefaultThreshold, retries, PlannerAgent).0 == Ok(true)
    ensures Gate(0.9 < DefaultThreshold, retries, PlannerAgent) == (Ok(false), retries)
    ensures var (r1, m1) := Gate(0.1 < DefaultThreshold, retries, PlannerAgent);
            var (r2, m2) := Gate(0.1 < DefaultThreshold, m1, PlannerAgent);
            var (r3, m3) := Gate(0.1 < DefaultThreshold, m2, PlannerAgent);
            r1 == r2 == r3 == Ok(true) && Gate(0.1 < DefaultThreshold, m3, PlannerAgent).0.Err?
  {
  }

  /** A report without issues never retries and never counts. */
  lemma {:induction false} NoIssuesNoRetry(report: IssueReport, retries: map<string, int>, agent: string)
    requires report.issues == []
    ensures Gate(|report.issues| > 0, retries, agent) == (Ok(false), retries)
  {
  }

  /** The merge key: lowercased host, then the path without trailing
      slashes, lowercased. */
  function MergeKey(parsed: ParsedUrl): string
  {
    Lower(parsed.netloc) + Lower(RStripChars(parsed.path, {'/'}))
  }

  /** One `Citation(url=...)` per result. */
  function Cite(results: seq<CitationResult>): (r: seq<Citation>)
    ensures |r| == |results|
    ensures forall k :: 0 <= k < |r| ==> r[k].url == results[k].url
  {
    seq(|results|, k requires 0 <= k < |results| => Citation(results[k].url))
  }

  lemma {:induction false} CiteAppend(xs: seq<CitationResult>, x: CitationResult)
    ensures Cite(xs + [x]) == Cite(xs) + [Citation(x.url)]
  {
  }

  /** The merge key of a result, its URL split by `urlparse`. */
  function ResultKey(urlparse: string -> ParsedUrl): CitationResult -> string
  {
    (r: CitationResult) => MergeKey(urlparse(r.url))
  }

  /** `merge_research_results`: the first result of each merge key, in the
      order keys first occur, as citations. */
  method MergeResearchResults(results: seq<CitationResult>, urlparse: string -> ParsedUrl) returns (merged: seq<Citation>)
    ensures merged == Cite(DedupBy(results, ResultKey(urlparse)))
  {
    var key := ResultKey(urlparse);
    var seen: set<string> := {};
    merged := [];
    var i := 0;
    while i < |results|
      invariant 0 <= i <= |results|
      invariant seen == KeySet(results[..i], key)
      invariant merged == Cite(DedupBy(results[..i], key))
    {
      seen, merged := MergeOne(results, key, i, seen, merged);
      i := i + 1;
    }
    assert results[..i] == results;
  }

  /** The body of the merge loop: result `i` is cited when its key has not
      been seen. */
  method MergeOne(results: seq<CitationResult>, key: CitationResult -> string, i: nat,
                  seen: set<string>, merged: seq<Citation>) returns (seen': set<string>, merged': seq<Citation>)
    requires i < |results|
    requires seen == KeySet(results[..i], key) && merged == Cite(DedupBy(results[..i], key))
    ensures seen' == KeySet(results[..i + 1], key) && merged' == Cite(DedupBy(results[..i + 1], key))
  {
    MergeStep(results, key, i);
    var k := key(results[i]);
    seen', merged' := seen, merged;
    if k !in seen {
      seen' := seen + {k};
      merged' := merged + [Citation(results[i].url)];
    }
  }

  /** One result more: its key joins the seen keys, and it is cited when
      its key is new. */
  lemma {:induction false} MergeStep(results: seq<CitationResult>, key: CitationResult -> string, i: nat)
    requires i < |results|
    ensures KeySet(results[..i + 1], key) == KeySet(results[..i], key) + {key(results[i])}
    ensures Cite(DedupBy(results[..i + 1], key)) ==
            if key(results[i]) in KeySet(results[..i], key) then Cite(DedupBy(results[..i], key))
            else Cite(DedupBy(results[..i], key)) + [Citation(results[i].url)]
  {
    DedupByStep(results, key, i);
    CiteAppend(DedupBy(results[..i], key), results[i]);
  }

  /** What the merge promises: no more citations than results, every URL is
      the URL of a result whose key is seen there first, no key repeats and
      no key is lost. */
  lemma {:induction false} MergeProperties(results: seq<CitationResult>, key: CitationResult -> string)
    ensures |Cite(DedupBy(results, key))| <= |results|
    ensures forall k :: 0 <= k < |DedupBy(results, key)| ==>
              exists i :: 0 <= i < |results| && results[i].url == Cite(DedupBy(results, key))[k].url && FirstOfKey(results, key, i)
    ensures DistinctKeys(DedupBy(results, key), key)
    ensures KeySet(DedupBy(results, key), key) == KeySet(results, key)
  {
    DedupByProperties(results, key);
  }

  /** The source's merge test: "https://a.com" and "https://a.com/" share a
      key, so the second is dropped and "https://b.com" is kept. */
  lemma {:induction false} MergeExample(urlparse: string -> ParsedUrl)
    requires urlparse("https://a.com") == ParsedUrl("a.com", "")
    requires urlparse("https://a.com/") == ParsedUrl("a.com", "/")
    requires urlparse("https://b.com") == ParsedUrl("b.com", "")
    ensures var key := ResultKey(urlparse);
            var a1, a2, b := CitationResult("https://a.com", "1"), CitationResult("https://a.com/", "2"),
                             CitationResult("https://b.com", "3");
            Cite(DedupBy([a1, a2, b], key)) == [Citation("https://a.com"), Citation("https://b.com")]
  {
    var key := ResultKey(urlparse);
    var a1, a2, b := CitationResult("https://a.com", "1"), CitationResult("https://a.com/", "2"),
                     CitationResult("https://b.com", "3");
    MergeKeyExamples(urlparse);
    assert key(a1) == key(a2) != key(b);
    assert [a1, a2, b][..2] == [a1, a2] && [a1, a2][..1] == [a1] && [a1][..0] == [];
    assert DedupBy([a1], key) == [a1];
    assert DedupBy([a1, a2], key) == [a1];
    assert DedupBy([a1, a2, b], key) == [a1, b];
  }

  lemma {:induction false} MergeKeyExamples(urlparse: string -> ParsedUrl)
    requires urlparse("https://a.com") == ParsedUrl("a.com", "")
    requires urlparse("https://a.com/") == ParsedUrl("a.com", "/")
    requires urlparse("https://b.com") == ParsedUrl("b.com", "")
    ensures MergeKey(urlparse("https://a.com")) == MergeKey(urlparse("https://a.com/")) == "a.com"
    ensures MergeKey(urlparse("https://b.com")) == "b.com"
  {
    assert RStripChars("/", {'/'}) == RStripChars("", {'/'}) == "";
    assert Lower("a.com") == "a.com" && Lower("b.com") == "b.com" && Lower("") == "";
  }
}
