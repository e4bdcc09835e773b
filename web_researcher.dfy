/**
 * The post-processing of the async web researcher (src/web/researcher_web.py):
 * the canonical form of a URL and the loop that drops failed fetches and
 * keeps the first response per canonical URL. Fetching itself, and the
 * concurrency of `asyncio.gather`, are outside the model: the loop starts
 * from the gathered responses, each a result or the exception raised.
 */
module WebResearcher {
  import opened Text
  import opened Dedup

  /** The fetched URL and its text. */
  datatype CitationResult = CitationResult(url: string, content: string)

  /** The two components of `urllib.parse.urlparse` the sources read. */
  datatype ParsedUrl = ParsedUrl(netloc: string, path: string)

  /** An element of `asyncio.gather(..., return_exceptions=True)`. */
  datatype Response = Fetched(result: CitationResult) | Raised(error: string)

  /** `_canonical`: the lowercased host without a leading "www.", then the
      lowercased path without trailing slashes. */
  function Canonical(url: string, urlparse: string -> ParsedUrl): string
  {
    var parsed := urlparse(url);
    var netloc := Lower(parsed.netloc);
    var host := if StartsWith(netloc, "www.") then netloc[4..] else netloc;
    host + RStripChars(Lower(parsed.path), {'/'})
  }

  /** Upper-case ASCII letters never reach the key, so URLs that differ only
      in the case of host and path share a key. */
  lemma {:induction false} CanonicalIgnoresCase(u1: string, u2: string, urlparse: string -> ParsedUrl)
    requires Lower(urlparse(u1).netloc) == Lower(urlparse(u2).netloc)
    requires Lower(urlparse(u1).path) == Lower(urlparse(u2).path)
    ensures Canonical(u1, urlparse) == Canonical(u2, urlparse)
  {
  }

  /** The examples of the source's tests: scheme, case and a trailing slash
      do not matter, and neither does a leading "www.". */
  lemma {:induction false} CanonicalCaseAndSlash(urlparse: string -> ParsedUrl)
    requires urlparse("https://Example.com/path") == ParsedUrl("Example.com", "/path")
    requires urlparse("http://example.com/path/") == ParsedUrl("example.com", "/path/")
    ensures Canonical("https://Example.com/path", urlparse) == Canonical("http://example.com/path/", urlparse)
  {
    assert Lower("Example.com") == "example.com" == Lower("example.com");
    assert Lower("/path") == "/path";
    assert Lower("/path/") == "/path/";
    assert "example.com"[..4][0] == 'e';
    assert RStripChars("/path/", {'/'}) == RStripChars("/path", {'/'});
  }

  lemma {:induction false} CanonicalWww(urlparse: string -> ParsedUrl)
    requires urlparse("https://www.example.com/") == ParsedUrl("www.example.com", "/")
    requires urlparse("http://example.com") == ParsedUrl("example.com", "")
    ensures Canonical("https://www.example.com/", urlparse) == "example.com"
    ensures Canonical("http://example.com", urlparse) == "example.com"
  {
    var host := "example.com";
    assert Lower(host) == host && host[..4][0] == 'e';
    assert "www." + host == "www.example.com";
    CanonicalHost("https://www.example.com/", urlparse, true, host, "/");
    CanonicalHost("http://example.com", urlparse, false, host, "");
  }

  /** A lowercase host, with or without "www.", and a path of slashes only
      have the host as their key. */
  lemma {:induction false} CanonicalHost(url: string, urlparse: string -> ParsedUrl, www: bool, host: string, path: string)
    requires Lower(host) == host && !StartsWith(host, "www.")
    requires forall i :: 0 <= i < |path| ==> path[i] == '/'
    requires urlparse(url) == ParsedUrl(if www then "www." + host else host, path)
    ensures Canonical(url, urlparse) == host
  {
    if www {
      WwwDropped(host);
    }
    var p := Lower(path);
    assert forall i :: 0 <= i < |p| ==> p[i] == '/';
  }

  /** A lowercase host keeps its name with or without "www.". */
  lemma {:induction false} WwwDropped(host: string)
    requires Lower(host) == host
    ensures Lower("www." + host) == "www." + host
    ensures StartsWith("www." + host, "www.") && ("www." + host)[4..] == host
  {
    var w := "www." + host;
    assert Lower("www.") == "www.";
    forall i | 0 <= i < |w| ensures Lower(w)[i] == w[i] {
      if i >= 4 {
        assert w[i] == host[i - 4] && Lower(host)[i - 4] == LowerChar(host[i - 4]);
      }
    }
  }

  /** The responses that are results, in order. */
  function Successes(responses: seq<Response>): (r: seq<CitationResult>)
    ensures |r| <= |responses|
    decreases |responses|
  {
    if responses == [] then []
    else
      var front, last := responses[..|responses| - 1], responses[|responses| - 1];
      if last.Fetched? then Successes(front) + [last.result] else Successes(front)
  }

  lemma {:induction false} SuccessesStep(responses: seq<Response>, i: nat)
    requires i < |responses|
    ensures responses[i].Fetched? ==> Successes(responses[..i + 1]) == Successes(responses[..i]) + [responses[i].result]
    ensures responses[i].Raised? ==> Successes(responses[..i + 1]) == Successes(responses[..i])
  {
    assert responses[..i + 1][..i] == responses[..i];
  }

  /** Every key of a successful response survives deduplication. */
  lemma {:induction false} KeysKept(responses: seq<Response>, key: CitationResult -> string, r: CitationResult)
    requires Fetched(r) in responses
    ensures exists k :: 0 <= k < |DedupBy(Successes(responses), key)| && key(DedupBy(Successes(responses), key)[k]) == key(r)
  {
    SuccessesComplete(responses, r);
    DedupKeys(Successes(responses), key);
    assert key(r) in KeySet(DedupBy(Successes(responses), key), key);
  }

  /** The results of the deduplicated list come from the responses. */
  lemma {:induction false} ResultsFetched(responses: seq<Response>, key: CitationResult -> string)
    ensures forall k :: 0 <= k < |DedupBy(Successes(responses), key)| ==> Fetched(DedupBy(Successes(responses), key)[k]) in responses
  {
    DedupFirst(Successes(responses), key);
    SuccessesSound(responses);
  }

  /** Every success is a response. */
  lemma {:induction false} SuccessesSound(responses: seq<Response>)
    ensures forall j :: 0 <= j < |Successes(responses)| ==> Fetched(Successes(responses)[j]) in responses
    decreases |responses|
  {
    if responses != [] {
      var front := responses[..|responses| - 1];
      SuccessesSound(front);
      assert forall r :: r in front ==> r in responses;
    }
  }

  /** The dict and its key order hold the first result of each key of `seen`. */
  ghost predicate Tracks(deduped: map<string, CitationResult>, order: seq<string>,
                         seen: seq<CitationResult>, key: CitationResult -> string)
  {
    var d := DedupBy(seen, key);
    && |order| == |d|
    && (forall k :: 0 <= k < |order| ==> order[k] == key(d[k]) && order[k] in deduped && deduped[order[k]] == d[k])
    && deduped.Keys == KeySet(seen, key)
  }

  lemma {:induction false} DedupAppend(seen: seq<CitationResult>, x: CitationResult, key: CitationResult -> string)
    ensures KeySet(seen + [x], key) == KeySet(seen, key) + {key(x)}
    ensures DedupBy(seen + [x], key) ==
      if key(x) in KeySet(seen, key) then DedupBy(seen, key) else DedupBy(seen, key) + [x]
  {
    var xs := seen + [x];
    assert xs[..|xs| - 1] == seen;
  }

  /** A result whose key is in the dict changes nothing. */
  lemma {:induction false} TracksKnown(deduped: map<string, CitationResult>, order: seq<string>,
                    seen: seq<CitationResult>, x: CitationResult, key: CitationResult -> string)
    requires Tracks(deduped, order, seen, key) && key(x) in deduped
    ensures Tracks(deduped, order, seen + [x], key)
  {
    DedupAppend(seen, x, key);
  }

  /** A result with a new key is added to the dict and its order. */
  lemma {:induction false} TracksNew(deduped: map<string, CitationResult>, order: seq<string>,
                  seen: seq<CitationResult>, x: CitationResult, key: CitationResult -> string)
    requires Tracks(deduped, order, seen, key) && key(x) !in deduped
    ensures Tracks(deduped[key(x) := x], order + [key(x)], seen + [x], key)
  {
    DedupAppend(seen, x, key);
    Extended(deduped, order, DedupBy(seen, key), x, key);
  }

  /** Order, list and dict extended by one new key stay in step. */
  lemma {:induction false} Extended(deduped: map<string, CitationResult>, order: seq<string>, d: seq<CitationResult>,
                 x: CitationResult, key: CitationResult -> string)
    requires |order| == |d| && key(x) !in deduped
    requires forall k :: 0 <= k < |order| ==> order[k] == key(d[k]) && order[k] in deduped && deduped[order[k]] == d[k]
    ensures var deduped', order' := deduped[key(x) := x], order + [key(x)];
            forall k :: 0 <= k < |order'| ==> order'[k] == key((d + [x])[k]) && order'[k] in deduped' && deduped'[order'[k]] == (d + [x])[k]
  {
    var deduped', order' := deduped[key(x) := x], order + [key(x)];
    forall k | 0 <= k < |order|
      ensures order'[k] == key((d + [x])[k]) && order'[k] in deduped' && deduped'[order'[k]] == (d + [x])[k]
    {
      assert order'[k] == order[k] && (d + [x])[k] == d[k];
    }
  }

  /** The list of the dict's values in insertion order is the deduplicated list. */
  lemma {:induction false} TracksValues(deduped: map<string, CitationResult>, order: seq<string>,
                     seen: seq<CitationResult>, key: CitationResult -> string)
    requires Tracks(deduped, order, seen, key)
    ensures forall k :: 0 <= k < |order| ==> order[k] in deduped
    ensures seq(|order|, k requires 0 <= k < |order| && order[k] in deduped => deduped[order[k]]) == DedupBy(seen, key)
  {
  }

  /** The dedup key of a result: the canonical form of its URL. */
  function UrlKey(urlparse: string -> ParsedUrl): CitationResult -> string
  {
    (r: CitationResult) => Canonical(r.url, urlparse)
  }

  /** The loop of `researcher_web` over the gathered responses: a dict from
      canonical URL to the first result with it, whose values, in insertion
      order, are returned. The keys are distinct, none is lost, and every
      returned result is a successful response. */
  method ResearcherWeb(responses: seq<Response>, urlparse: string -> ParsedUrl) returns (results: seq<CitationResult>)
    ensures results == DedupBy(Successes(responses), UrlKey(urlparse))
    ensures forall k :: 0 <= k < |results| ==> Fetched(results[k]) in responses
    ensures forall i, j :: 0 <= i < j < |results| ==>
              Canonical(results[i].url, urlparse) != Canonical(results[j].url, urlparse)
    ensures forall r :: Fetched(r) in responses ==>
              exists k :: 0 <= k < |results| && Canonical(results[k].url, urlparse) == Canonical(r.url, urlparse)
  {
    var key := UrlKey(urlparse);
    var deduped: map<string, CitationResult> := map[];
    var order: seq<string> := [];
    ghost var seen: seq<CitationResult> := [];
    var i := 0;
    while i < |responses|
      invariant 0 <= i <= |responses|
      invariant seen == Successes(responses[..i])
      invariant Tracks(deduped, order, seen, key)
    {
      SuccessesStep(responses, i);
      var result := responses[i];
      if result.Fetched? {
        deduped, order := Keep(deduped, order, seen, result.result, key);
        seen := seen + [result.result];
      }
      i := i + 1;
    }
    assert responses[..i] == responses;
    TracksValues(deduped, order, Successes(responses), key);
    results := seq(|order|, k requires 0 <= k < |order| && order[k] in deduped => deduped[order[k]]);
    ResearcherWebProperties(responses, key);
  }

  /** The body of the loop for a successful response: its result is stored
      under its key unless the key is already there. */
  method Keep(deduped: map<string, CitationResult>, order: seq<string>, ghost seen: seq<CitationResult>,
              result: CitationResult, key: CitationResult -> string)
    returns (deduped': map<string, CitationResult>, order': seq<string>)
    requires Tracks(deduped, order, seen, key)
    ensures Tracks(deduped', order', seen + [result], key)
  {
    var k := key(result);
    if k !in deduped {
      TracksNew(deduped, order, seen, result, key);
      deduped', order' := deduped[k := result], order + [k];
    } else {
      TracksKnown(deduped, order, seen, result, key);
      deduped', order' := deduped, order;
    }
  }

  /** What the deduplicated successes promise. */
  lemma {:induction false} ResearcherWebProperties(responses: seq<Response>, key: CitationResult -> string)
    ensures var results := DedupBy(Successes(responses), key);
            && (forall k :: 0 <= k < |results| ==> Fetched(results[k]) in responses)
            && (forall i, j :: 0 <= i < j < |results| ==> key(results[i]) != key(results[j]))
            && (forall r :: Fetched(r) in responses ==> exists k :: 0 <= k < |results| && key(results[k]) == key(r))
  {
    DedupKeys(Successes(responses), key);
    ResultsFetched(responses, key);
    forall r | Fetched(r) in responses
      ensures exists k :: 0 <= k < |DedupBy(Successes(responses), key)| && key(DedupBy(Successes(responses), key)[k]) == key(r)
    {
      KeysKept(responses, key, r);
    }
  }

  lemma {:induction false} SuccessesComplete(responses: seq<Response>, r: CitationResult)
    requires Fetched(r) in responses
    ensures exists j :: 0 <= j < |Successes(responses)| && Successes(responses)[j] == r
    decreases |responses|
  {
    var front, last := responses[..|responses| - 1], responses[|responses| - 1];
    assert responses == front + [last];
    if last == Fetched(r) {
      assert Successes(responses)[|Successes(responses)| - 1] == r;
    } else {
      assert Fetched(r) in front;
      SuccessesComplete(front, r);
      var j :| 0 <= j < |Successes(front)| && Successes(front)[j] == r;
      assert Successes(responses)[j] == r;
    }
  }

  /** The source's first test: of two spellings of one page the first is
      kept, and the other page is kept too ("https://Example.com/path" and
      "http://example.com/path/" share a key by `CanonicalCaseAndSlash`). */
  lemma {:induction false} FirstPerPageExample(urlparse: string -> ParsedUrl, a: CitationResult, b: CitationResult, c: CitationResult)
    requires Canonical(a.url, urlparse) == Canonical(b.url, urlparse) != Canonical(c.url, urlparse)
    ensures DedupBy(Successes([Fetched(a), Fetched(b), Fetched(c)]), UrlKey(urlparse)) == [a, c]
  {
    AllFetched(a, b, c);
    var key := UrlKey(urlparse);
    assert [a, b, c][..2] == [a, b] && [a, b][..1] == [a] && [a][..0] == [];
    assert DedupBy([a], key) == [a];
    assert DedupBy([a, b], key) == [a];
  }

  lemma {:induction false} AllFetched(a: CitationResult, b: CitationResult, c: CitationResult)
    ensures Successes([Fetched(a), Fetched(b), Fetched(c)]) == [a, b, c]
  {
    var rs := [Fetched(a), Fetched(b), Fetched(c)];
    assert rs[..2] == [Fetched(a), Fetched(b)] && rs[..2][..1] == [Fetched(a)] && rs[..2][..1][..0] == [];
    assert Successes(rs[..2][..1]) == [a];
    assert Successes(rs[..2]) == [a, b];
  }

  /** The source's second test: a fetch that raised is skipped. */
  lemma {:induction false} FailureSkippedExample(urlparse: string -> ParsedUrl, content: string, error: string)
    ensures var ok := CitationResult("http://example.com", content);
            DedupBy(Successes([Raised(error), Fetched(ok)]), UrlKey(urlparse)) == [ok]
  {
    var ok := CitationResult("http://example.com", content);
    var rs := [Raised(error), Fetched(ok)];
    assert rs[..1] == [Raised(error)] && rs[..1][..0] == [];
    assert Successes(rs) == [ok];
    assert [ok][..0] == [];
  }
}
