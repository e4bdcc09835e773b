/**
 * The pedagogy critic (src/agents/pedagogy_critic.py): Bloom's-taxonomy
 * coverage of an outline's objectives, the diversity of its activity types,
 * the cognitive load of its activities, and the recommendations drawn from
 * the three.
 *
 * Classifying an objective asks a language model; the model's reply and the
 * injected classifier are parameters here. The keyword fallback is modelled
 * exactly.
 */
module PedagogyCritic {
  import opened Wrappers
  import opened Text
  import opened AgentModels
  import opened Reports
  import opened Seqs
  import CoreState

  /** `BLOOM_LEVELS`, in taxonomy order. */
  const BloomLevels: seq<string> := ["remember", "understand", "apply", "analyze", "evaluate", "create"]

  /** `_VERB_MAP`, in its insertion order, which is the order it is tried in. */
  const VerbMap: seq<(string, string)> := [
    ("list", "remember"), ("define", "remember"),
    ("describe", "understand"), ("explain", "understand"),
    ("use", "apply"), ("apply", "apply"),
    ("compare", "analyze"), ("analyze", "analyze"),
    ("evaluate", "evaluate"), ("critique", "evaluate"),
    ("create", "create"), ("design", "create")]

  /** The critic's `Outline`: objectives and activities. */
  datatype CriticOutline = CriticOutline(learningObjectives: seq<string>, activities: seq<Activity>)

  predicate Distinct(xs: seq<string>)
  {
    forall i, j :: 0 <= i < j < |xs| ==> xs[i] != xs[j]
  }

  lemma {:induction false} BloomLevelsDistinct()
    ensures Distinct(BloomLevels)
  {
  }

  // ---------------------------------------------------------------------------
  // Keyword classification
  // ---------------------------------------------------------------------------

  /** The level of the first verb of `verbs` that occurs in `lowered`. */
  function FirstLevel(lowered: string, verbs: seq<(string, string)>): string
    decreases |verbs|
  {
    if verbs == [] then "unknown"
    else if Contains(lowered, verbs[0].0) then verbs[0].1
    else FirstLevel(lowered, verbs[1..])
  }

  /** The level `_keyword_classify` gives `text`. */
  function KeywordLevel(text: string): string
  {
    FirstLevel(Lower(text), VerbMap)
  }

  /** `_keyword_classify`: the verbs are tried in order, and the first one
      found in the lowercased text decides. */
  method KeywordClassify(text: string) returns (level: string)
    ensures level == KeywordLevel(text)
  {
    var lowered := Lower(text);
    var i := 0;
    while i < |VerbMap|
      invariant 0 <= i <= |VerbMap|
      invariant FirstLevel(lowered, VerbMap[i..]) == FirstLevel(lowered, VerbMap)
    {
      if Contains(lowered, VerbMap[i].0) {
        return VerbMap[i].1;
      }
      assert VerbMap[i..][1..] == VerbMap[i + 1..];
      i := i + 1;
    }
    return "unknown";
  }

  /** Verb `k` is the first of `verbs` that occurs in `lowered`. */
  predicate FirstFound(lowered: string, verbs: seq<(string, string)>, k: int)
  {
    0 <= k < |verbs| && Contains(lowered, verbs[k].0)
    && forall j :: 0 <= j < k ==> !Contains(lowered, verbs[j].0)
  }

  /** The first verb found gives the level. */
  lemma {:induction false} FirstLevelFound(lowered: string, verbs: seq<(string, string)>, k: int)
    requires FirstFound(lowered, verbs, k)
    ensures FirstLevel(lowered, verbs) == verbs[k].1
    decreases k
  {
    if k > 0 {
      assert !Contains(lowered, verbs[0].0);
      assert FirstFound(lowered, verbs[1..], k - 1) by {
        forall j | 0 <= j < k - 1 ensures !Contains(lowered, verbs[1..][j].0) {
          assert verbs[1..][j] == verbs[j + 1];
        }
      }
      FirstLevelFound(lowered, verbs[1..], k - 1);
    }
  }

  /** When no level is "unknown", the first level is "unknown" exactly
      when no verb occurs. */
  lemma {:induction false} FirstLevelUnknown(lowered: string, verbs: seq<(string, string)>)
    requires forall k :: 0 <= k < |verbs| ==> verbs[k].1 != "unknown"
    ensures FirstLevel(lowered, verbs) == "unknown" <==> forall k :: 0 <= k < |verbs| ==> !Contains(lowered, verbs[k].0)
    decreases |verbs|
  {
    if verbs != [] {
      assert forall k :: 0 <= k < |verbs| - 1 ==> verbs[1..][k] == verbs[k + 1];
      FirstLevelUnknown(lowered, verbs[1..]);
      if !Contains(lowered, verbs[0].0) && forall k :: 0 <= k < |verbs[1..]| ==> !Contains(lowered, verbs[1..][k].0) {
        forall k | 0 <= k < |verbs| ensures !Contains(lowered, verbs[k].0) {
          if k > 0 {
            assert verbs[k] == verbs[1..][k - 1];
          }
        }
      }
    }
  }

  /** Every level a verb maps to is a level of the taxonomy, and none is
      "unknown". */
  lemma {:induction false} VerbLevels()
    ensures forall k :: 0 <= k < |VerbMap| ==> VerbMap[k].1 in BloomLevels && VerbMap[k].1 != "unknown"
  {
  }

  lemma {:induction false} FirstLevelIn(lowered: string, verbs: seq<(string, string)>)
    requires forall k :: 0 <= k < |verbs| ==> verbs[k].1 in BloomLevels
    ensures FirstLevel(lowered, verbs) in BloomLevels || FirstLevel(lowered, verbs) == "unknown"
    decreases |verbs|
  {
    if verbs != [] {
      assert forall k :: 0 <= k < |verbs| - 1 ==> verbs[1..][k] == verbs[k + 1];
      FirstLevelIn(lowered, verbs[1..]);
    }
  }

  /** The keyword level is a level of the taxonomy, or "unknown" exactly when
      none of the verbs occurs in the lowercased text. */
  lemma {:induction false} KeywordLevelRange(text: string)
    ensures KeywordLevel(text) in BloomLevels || KeywordLevel(text) == "unknown"
    ensures KeywordLevel(text) == "unknown" <==> forall k :: 0 <= k < |VerbMap| ==> !Contains(Lower(text), VerbMap[k].0)
  {
    VerbLevels();
    FirstLevelIn(Lower(text), VerbMap);
    FirstLevelUnknown(Lower(text), VerbMap);
  }

  /** The order of the map decides: an objective that starts with "list" is
      a "remember" objective, whatever else it mentions. */
  lemma {:induction false} ListRemembers(rest: string)
    ensures KeywordLevel("list" + rest) == "remember"
  {
    var lowered := Lower("list" + rest);
    assert lowered[..4] == "list";
    assert Contains(lowered, VerbMap[0].0);
  }

  /** `classify_bloom_level`, given the `level` field of the model's reply
      (`None` when there is no model, the reply is not JSON, or the call
      fails): a reply naming a level, once stripped and lowercased, is
      taken; anything else falls back to the keywords. */
  method ClassifyBloomLevel(reply: Option<string>, text: string) returns (level: string)
    ensures reply.Some? && Lower(Strip(reply.value)) in BloomLevels ==> level == Lower(Strip(reply.value))
    ensures !(reply.Some? && Lower(Strip(reply.value)) in BloomLevels) ==> level == KeywordLevel(text)
    ensures level in BloomLevels || level == "unknown"
  {
    if reply.Some? {
      var answered := Lower(Strip(reply.value));
      if answered in BloomLevels {
        return answered;
      }
    }
    KeywordLevelRange(text);
    level := KeywordClassify(text);
  }

  // ---------------------------------------------------------------------------
  // Bloom coverage
  // ---------------------------------------------------------------------------

  /** The objectives of the activities, activity by activity. */
  function ActivityObjectives(acts: seq<Activity>): seq<string>
    decreases |acts|
  {
    if acts == [] then []
    else ActivityObjectives(acts[..|acts| - 1]) + acts[|acts| - 1].learningObjectives
  }

  /** The objectives in the order they are classified: the outline's, then
      each activity's. */
  function AllObjectives(o: CriticOutline): seq<string>
  {
    o.learningObjectives + ActivityObjectives(o.activities)
  }

  /** The counter every level starts from. */
  function ZeroCounts(): map<string, nat>
  {
    map l | l in BloomLevels :: 0 as nat
  }

  /** `if level in counts: counts[level] += 1`. */
  function Bump(counts: map<string, nat>, level: string): map<string, nat>
  {
    if level in counts then counts[level := counts[level] + 1] else counts
  }

  /** The counters after classifying the objectives one by one. */
  function Tally(counts: map<string, nat>, objectives: seq<string>, classify: string -> string): map<string, nat>
    decreases |objectives|
  {
    if objectives == [] then counts
    else Bump(Tally(counts, objectives[..|objectives| - 1], classify), classify(objectives[|objectives| - 1]))
  }

  /** How many objectives are classified into `level`. */
  function Count(objectives: seq<string>, classify: string -> string, level: string): nat
    decreases |objectives|
  {
    if objectives == [] then 0
    else Count(objectives[..|objectives| - 1], classify, level)
         + (if classify(objectives[|objectives| - 1]) == level then 1 else 0)
  }

  /** How many objectives are classified into one of `levels`. */
  function CountIn(objectives: seq<string>, classify: string -> string, levels: seq<string>): nat
    decreases |objectives|
  {
    if objectives == [] then 0
    else CountIn(objectives[..|objectives| - 1], classify, levels)
         + (if classify(objectives[|objectives| - 1]) in levels then 1 else 0)
  }

  /** The sum of the counters of `levels`. */
  function SumOver(counts: map<string, nat>, levels: seq<string>): nat
    requires forall k :: 0 <= k < |levels| ==> levels[k] in counts
    decreases |levels|
  {
    if levels == [] then 0 else counts[levels[0]] + SumOver(counts, levels[1..])
  }

  /** The levels of `levels` whose counter is zero, in their order. */
  function MissingIn(counts: map<string, nat>, levels: seq<string>): seq<string>
    requires forall k :: 0 <= k < |levels| ==> levels[k] in counts
    decreases |levels|
  {
    if levels == [] then []
    else (if counts[levels[0]] == 0 then [levels[0]] else []) + MissingIn(counts, levels[1..])
  }

  /** The levels of `levels` whose counter is positive, in their order. */
  function CoveredIn(counts: map<string, nat>, levels: seq<string>): seq<string>
    requires forall k :: 0 <= k < |levels| ==> levels[k] in counts
    decreases |levels|
  {
    if levels == [] then []
    else (if counts[levels[0]] > 0 then [levels[0]] else []) + CoveredIn(counts, levels[1..])
  }

  /** `covered`: the levels with a positive count. */
  function Covered(counts: map<string, nat>): set<string>
  {
    set l | l in counts && counts[l] > 0
  }

  /** The report drawn from the counters. */
  function Coverage(counts: map<string, nat>): BloomCoverageReport
    requires forall k :: 0 <= k < |BloomLevels| ==> BloomLevels[k] in counts
  {
    BloomCoverageReport(counts, MissingIn(counts, BloomLevels), |Covered(counts)| as real / |BloomLevels| as real)
  }

  /** The counters of an outline. */
  function BloomCounts(o: CriticOutline, classify: string -> string): map<string, nat>
  {
    Tally(ZeroCounts(), AllObjectives(o), classify)
  }

  lemma {:induction false} TallyCounts(counts: map<string, nat>, objectives: seq<string>, classify: string -> string, level: string)
    ensures Tally(counts, objectives, classify).Keys == counts.Keys
    ensures level in counts ==> Tally(counts, objectives, classify)[level] == counts[level] + Count(objectives, classify, level)
    decreases |objectives|
  {
    if objectives != [] {
      TallyCounts(counts, objectives[..|objectives| - 1], classify, level);
    }
  }

  /** The counters of the levels of the taxonomy. */
  function BloomCoverage(o: CriticOutline, classify: string -> string): BloomCoverageReport
  {
    var counts := BloomCounts(o, classify);
    assert forall k :: 0 <= k < |BloomLevels| ==> BloomLevels[k] in counts by {
      TallyCounts(ZeroCounts(), AllObjectives(o), classify, "");
    }
    Coverage(counts)
  }

  /** Every level of the taxonomy has a counter and nothing else does; each
      counter is the number of objectives classified into its level. */
  lemma {:induction false} BloomLevelCounts(o: CriticOutline, classify: string -> string, level: string)
    ensures BloomCoverage(o, classify).levelCounts.Keys == set l | l in BloomLevels
    ensures level in BloomLevels ==> BloomCoverage(o, classify).levelCounts[level] == Count(AllObjectives(o), classify, level)
  {
    TallyCounts(ZeroCounts(), AllObjectives(o), classify, level);
  }

  lemma {:induction false} TallyAppend(counts: map<string, nat>, a: seq<string>, b: seq<string>, classify: string -> string)
    ensures Tally(counts, a + b, classify) == Tally(Tally(counts, a, classify), b, classify)
    decreases |b|
  {
    if b == [] {
      assert a + b == a;
    } else {
      assert (a + b)[..|a + b| - 1] == a + b[..|b| - 1];
      TallyAppend(counts, a, b[..|b| - 1], classify);
    }
  }

  lemma {:induction false} ActivityObjectivesStep(acts: seq<Activity>, i: nat)
    requires i < |acts|
    ensures ActivityObjectives(acts[..i + 1]) == ActivityObjectives(acts[..i]) + acts[i].learningObjectives
  {
    assert acts[..i + 1][..i] == acts[..i];
  }

  /** One classification of the loops. */
  lemma {:induction false} TallyStep(counts: map<string, nat>, done: seq<string>, objectives: seq<string>, j: nat, classify: string -> string)
    requires j < |objectives|
    ensures Tally(counts, done + objectives[..j + 1], classify) == Bump(Tally(counts, done + objectives[..j], classify), classify(objectives[j]))
  {
    assert (done + objectives[..j + 1])[..|done + objectives[..j + 1]| - 1] == done + objectives[..j];
  }

  /** `analyze_bloom_coverage`: the counters start at zero for every level,
      each objective of the outline and then of each activity bumps the
      counter of its level when it has one. */
  method AnalyzeBloomCoverage(outline: CriticOutline, classify: string -> string) returns (r: BloomCoverageReport)
    ensures r == BloomCoverage(outline, classify)
  {
    var objectives := outline.learningObjectives;
    var counts := TallyEach(ZeroCounts(), [], objectives, classify);
    assert [] + objectives == objectives;
    counts := TallyActivities(counts, objectives, outline.activities, classify);
    TallyCounts(ZeroCounts(), AllObjectives(outline), classify, "");
    r := Coverage(counts);
  }

  /** The loop over the activities, after the outline's own objectives. */
  method TallyActivities(counts: map<string, nat>, objectives: seq<string>, acts: seq<Activity>, classify: string -> string)
    returns (after: map<string, nat>)
    requires counts == Tally(ZeroCounts(), objectives, classify)
    ensures after == Tally(ZeroCounts(), objectives + ActivityObjectives(acts), classify)
  {
    after := counts;
    var a := 0;
    ghost var done := objectives;
    ClassifiedBefore(objectives, acts, 0);
    while a < |acts|
      invariant 0 <= a <= |acts|
      invariant done == objectives + ActivityObjectives(acts[..a])
      invariant after == Tally(ZeroCounts(), done, classify)
    {
      after := TallyEach(after, done, acts[a].learningObjectives, classify);
      ClassifiedBefore(objectives, acts, a + 1);
      done := done + acts[a].learningObjectives;
      a := a + 1;
    }
    assert acts[..a] == acts;
  }

  /** The objectives classified before activity `a`, and one activity on. */
  lemma {:induction false} ClassifiedBefore(objectives: seq<string>, acts: seq<Activity>, a: nat)
    requires a <= |acts|
    ensures a == 0 ==> objectives + ActivityObjectives(acts[..a]) == objectives
    ensures a > 0 ==> objectives + ActivityObjectives(acts[..a])
                      == objectives + ActivityObjectives(acts[..a - 1]) + acts[a - 1].learningObjectives
  {
    if a == 0 {
      assert acts[..a] == [];
    } else {
      ActivityObjectivesStep(acts, a - 1);
    }
  }

  /** `for objective in objectives: level = classify(objective); if level in
      counts: counts[level] += 1`, after the objectives `done`. */
  method TallyEach(counts: map<string, nat>, ghost done: seq<string>, objectives: seq<string>, classify: string -> string)
    returns (after: map<string, nat>)
    requires counts == Tally(ZeroCounts(), done, classify)
    ensures after == Tally(ZeroCounts(), done + objectives, classify)
  {
    after := counts;
    var j := 0;
    assert done + objectives[..j] == done;
    while j < |objectives|
      invariant 0 <= j <= |objectives|
      invariant after == Tally(ZeroCounts(), done + objectives[..j], classify)
    {
      TallyStep(ZeroCounts(), done, objectives, j, classify);
      after := Bump(after, classify(objectives[j]));
      j := j + 1;
    }
    assert objectives[..j] == objectives;
  }

  /** One more classification adds one to the sum exactly when it falls into
      one of the levels. */
  lemma {:induction false} SumBump(counts: map<string, nat>, levels: seq<string>, level: string)
    requires Distinct(levels)
    requires forall k :: 0 <= k < |levels| ==> levels[k] in counts
    requires level in counts
    ensures forall k :: 0 <= k < |levels| ==> levels[k] in counts[level := counts[level] + 1]
    ensures SumOver(counts[level := counts[level] + 1], levels) == SumOver(counts, levels) + (if level in levels then 1 else 0)
    decreases |levels|
  {
    if levels != [] {
      var bumped := counts[level := counts[level] + 1];
      assert Distinct(levels[1..]) by {
        forall i, j | 0 <= i < j < |levels[1..]| ensures levels[1..][i] != levels[1..][j] {
          assert levels[1..][i] == levels[i + 1] && levels[1..][j] == levels[j + 1];
        }
      }
      SumBump(counts, levels[1..], level);
      if levels[0] == level {
        assert level !in levels[1..] by {
          forall k | 0 <= k < |levels[1..]| ensures levels[1..][k] != level {
            assert levels[1..][k] == levels[k + 1];
          }
        }
      }
      assert level in levels <==> level == levels[0] || level in levels[1..];
    }
  }

  lemma {:induction false} SumTally(counts: map<string, nat>, objectives: seq<string>, classify: string -> string)
    requires Distinct(BloomLevels)
    requires counts.Keys == set l | l in BloomLevels
    ensures Tally(counts, objectives, classify).Keys == counts.Keys
    ensures SumOver(Tally(counts, objectives, classify), BloomLevels) == SumOver(counts, BloomLevels) + CountIn(objectives, classify, BloomLevels)
    decreases |objectives|
  {
    TallyCounts(counts, objectives, classify, "");
    if objectives != [] {
      var front := objectives[..|objectives| - 1];
      SumTally(counts, front, classify);
      SumBumpLevel(Tally(counts, front, classify), classify(objectives[|objectives| - 1]));
    }
  }

  lemma {:induction false} SumBumpLevel(t: map<string, nat>, level: string)
    requires Distinct(BloomLevels)
    requires t.Keys == set l | l in BloomLevels
    ensures forall k :: 0 <= k < |BloomLevels| ==> BloomLevels[k] in t
    ensures forall k :: 0 <= k < |BloomLevels| ==> BloomLevels[k] in Bump(t, level)
    ensures SumOver(Bump(t, level), BloomLevels) == SumOver(t, BloomLevels) + (if level in BloomLevels then 1 else 0)
  {
    if level in t {
      SumBump(t, BloomLevels, level);
    }
  }

  lemma {:induction false} SumZero(levels: seq<string>)
    requires forall k :: 0 <= k < |levels| ==> levels[k] in BloomLevels
    ensures forall k :: 0 <= k < |levels| ==> levels[k] in ZeroCounts()
    ensures SumOver(ZeroCounts(), levels) == 0
    decreases |levels|
  {
    if levels != [] {
      SumZero(levels[1..]);
    }
  }

  /** The counters add up to the number of objectives classified into a
      level of the taxonomy: no classification is lost or counted twice. */
  lemma {:induction false} BloomCountsSum(o: CriticOutline, classify: string -> string)
    ensures forall k :: 0 <= k < |BloomLevels| ==> BloomLevels[k] in BloomCoverage(o, classify).levelCounts
    ensures SumOver(BloomCoverage(o, classify).levelCounts, BloomLevels) == CountIn(AllObjectives(o), classify, BloomLevels)
  {
    BloomLevelsDistinct();
    SumZero(BloomLevels);
    SumTally(ZeroCounts(), AllObjectives(o), classify);
  }

  /** What is listed as missing is exactly the levels with a zero counter. */
  lemma {:induction false} MissingInIff(counts: map<string, nat>, levels: seq<string>, level: string)
    requires forall k :: 0 <= k < |levels| ==> levels[k] in counts
    ensures level in MissingIn(counts, levels) <==> level in levels && counts[level] == 0
    decreases |levels|
  {
    if levels != [] {
      MissingInIff(counts, levels[1..], level);
      assert level in levels <==> level == levels[0] || level in levels[1..];
    }
  }

  /** The missing levels keep the order of the taxonomy. */
  lemma {:induction false} MissingInOrder(counts: map<string, nat>, levels: seq<string>)
    requires forall k :: 0 <= k < |levels| ==> levels[k] in counts
    ensures IsSubsequence(MissingIn(counts, levels), levels)
    decreases |levels|
  {
    if levels != [] {
      MissingInOrder(counts, levels[1..]);
      var m := MissingIn(counts, levels);
      if counts[levels[0]] == 0 {
        assert m[0] == levels[0] && m[1..] == MissingIn(counts, levels[1..]);
      } else {
        assert m == MissingIn(counts, levels[1..]);
      }
    }
  }

  /** What is covered and what is missing share out the levels. */
  lemma {:induction false} CoveredSplit(counts: map<string, nat>, levels: seq<string>)
    requires forall k :: 0 <= k < |levels| ==> levels[k] in counts
    ensures |CoveredIn(counts, levels)| + |MissingIn(counts, levels)| == |levels|
    ensures forall l :: l in CoveredIn(counts, levels) <==> l in levels && counts[l] > 0
    ensures Distinct(levels) ==> Distinct(CoveredIn(counts, levels))
    decreases |levels|
  {
    if levels != [] {
      CoveredSplit(counts, levels[1..]);
      assert forall l :: l in levels <==> l == levels[0] || l in levels[1..];
      if Distinct(levels) {
        DistinctTail(levels);
        CoveredCons(counts, levels);
      }
    }
  }

  /** Without repetitions, the rest of a list is without repetitions and
      does not hold its head. */
  lemma {:induction false} DistinctTail(xs: seq<string>)
    requires xs != [] && Distinct(xs)
    ensures Distinct(xs[1..]) && xs[0] !in xs[1..]
  {
    forall i, j | 0 <= i < j < |xs[1..]| ensures xs[1..][i] != xs[1..][j] {
      assert xs[1..][i] == xs[i + 1] && xs[1..][j] == xs[j + 1];
    }
    forall k | 0 <= k < |xs[1..]| ensures xs[1..][k] != xs[0] {
      assert xs[1..][k] == xs[k + 1];
    }
  }

  lemma {:induction false} CoveredCons(counts: map<string, nat>, levels: seq<string>)
    requires levels != [] && forall k :: 0 <= k < |levels| ==> levels[k] in counts
    requires levels[0] !in CoveredIn(counts, levels[1..]) && Distinct(CoveredIn(counts, levels[1..]))
    ensures Distinct(CoveredIn(counts, levels))
  {
    var c := CoveredIn(counts, levels);
    var rest := CoveredIn(counts, levels[1..]);
    if counts[levels[0]] > 0 {
      assert c == [levels[0]] + rest;
      forall i, j | 0 <= i < j < |c| ensures c[i] != c[j] {
        if i == 0 {
          assert c[j] == rest[j - 1] && c[j] in rest;
        } else {
          assert c[i] == rest[i - 1] && c[j] == rest[j - 1];
        }
      }
    } else {
      assert c == rest;
    }
  }

  /** A list without repetitions has as many distinct elements as it is
      long. */
  lemma {:induction false} DistinctCard(xs: seq<string>)
    requires Distinct(xs)
    ensures |(set x | x in xs)| == |xs|
    decreases |xs|
  {
    if xs != [] {
      assert Distinct(xs[1..]) by {
        forall i, j | 0 <= i < j < |xs[1..]| ensures xs[1..][i] != xs[1..][j] {
          assert xs[1..][i] == xs[i + 1] && xs[1..][j] == xs[j + 1];
        }
      }
      DistinctCard(xs[1..]);
      assert xs[0] !in xs[1..] by {
        forall k | 0 <= k < |xs[1..]| ensures xs[1..][k] != xs[0] {
          assert xs[1..][k] == xs[k + 1];
        }
      }
      assert (set x | x in xs) == {xs[0]} + (set x | x in xs[1..]);
    }
  }

  /** `missing_levels` lists, in taxonomy order, exactly the levels no
      objective was classified into; `coverage_score` is the share of the
      six levels that are covered, between 0 and 1, and 1 exactly when
      nothing is missing. */
  lemma {:induction false} MissingLevels(o: CriticOutline, classify: string -> string, level: string)
    ensures var r := BloomCoverage(o, classify);
      && (level in r.missingLevels <==> level in BloomLevels && Count(AllObjectives(o), classify, level) == 0)
      && IsSubsequence(r.missingLevels, BloomLevels)
  {
    var counts := BloomCounts(o, classify);
    TallyCounts(ZeroCounts(), AllObjectives(o), classify, level);
    MissingInIff(counts, BloomLevels, level);
    MissingInOrder(counts, BloomLevels);
  }

  /** The covered set has one element per level of the taxonomy with a
      positive counter. */
  lemma {:induction false} CoveredSize(counts: map<string, nat>)
    requires counts.Keys == set l | l in BloomLevels
    ensures forall k :: 0 <= k < |BloomLevels| ==> BloomLevels[k] in counts
    ensures |Covered(counts)| + |MissingIn(counts, BloomLevels)| == |BloomLevels|
  {
    BloomLevelsDistinct();
    CoveredSplit(counts, BloomLevels);
    CoveredIsSet(counts);
    DistinctCard(CoveredIn(counts, BloomLevels));
  }

  lemma {:induction false} CoveredIsSet(counts: map<string, nat>)
    requires counts.Keys == set l | l in BloomLevels
    requires forall k :: 0 <= k < |BloomLevels| ==> BloomLevels[k] in counts
    requires forall l :: l in CoveredIn(counts, BloomLevels) <==> l in BloomLevels && counts[l] > 0
    ensures Covered(counts) == set x | x in CoveredIn(counts, BloomLevels)
  {
  }

  /** `coverage_score` is the share of the six levels that are covered,
      between 0 and 1, and 1 exactly when nothing is missing. */
  lemma {:induction false} CoverageScore(o: CriticOutline, classify: string -> string)
    ensures var r := BloomCoverage(o, classify);
      && r.coverageScore == (6 - |r.missingLevels|) as real / 6.0
      && 0.0 <= r.coverageScore <= 1.0
      && (r.coverageScore == 1.0 <==> r.missingLevels == [])
  {
    var counts := BloomCounts(o, classify);
    TallyCounts(ZeroCounts(), AllObjectives(o), classify, "");
    CoveredSize(counts);
  }

  lemma {:induction false} CountZeroIff(objectives: seq<string>, classify: string -> string, level: string)
    ensures Count(objectives, classify, level) == 0 <==> forall k :: 0 <= k < |objectives| ==> classify(objectives[k]) != level
    decreases |objectives|
  {
    if objectives != [] {
      var n := |objectives| - 1;
      CountZeroIff(objectives[..n], classify, level);
      assert forall k :: 0 <= k < n ==> objectives[..n][k] == objectives[k];
    }
  }

  /** An outline none of whose objectives is an "apply" objective misses
      that level and scores below 1. */
  lemma {:induction false} ApplyMissing(o: CriticOutline, classify: string -> string)
    requires forall k :: 0 <= k < |AllObjectives(o)| ==> classify(AllObjectives(o)[k]) != "apply"
    ensures "apply" in BloomCoverage(o, classify).missingLevels
    ensures BloomCoverage(o, classify).coverageScore < 1.0
  {
    CountZeroIff(AllObjectives(o), classify, "apply");
    MissingLevels(o, classify, "apply");
    CoverageScore(o, classify);
  }

  /** One objective the classifier puts at "create" covers that level. */
  lemma {:induction false} CreateCovered(o: CriticOutline, classify: string -> string, k: nat)
    requires k < |AllObjectives(o)| && classify(AllObjectives(o)[k]) == "create"
    ensures "create" !in BloomCoverage(o, classify).missingLevels
  {
    CountZeroIff(AllObjectives(o), classify, "create");
    MissingLevels(o, classify, "create");
  }

  // ---------------------------------------------------------------------------
  // Activity diversity
  // ---------------------------------------------------------------------------

  /** How many activities have type `kind`. */
  function KindCount(acts: seq<Activity>, kind: string): nat
    decreases |acts|
  {
    if acts == [] then 0
    else KindCount(acts[..|acts| - 1], kind) + (if acts[|acts| - 1].kind == kind then 1 else 0)
  }

  /** The keys of the `Counter`, in the order of their first occurrence. */
  function Kinds(acts: seq<Activity>): seq<string>
    decreases |acts|
  {
    if acts == [] then []
    else
      var front := Kinds(acts[..|acts| - 1]);
      if acts[|acts| - 1].kind in front then front else front + [acts[|acts| - 1].kind]
  }

  lemma {:induction false} KindsCounted(acts: seq<Activity>, kind: string)
    ensures kind in Kinds(acts) <==> KindCount(acts, kind) > 0
    ensures Distinct(Kinds(acts))
    decreases |acts|
  {
    if acts != [] {
      KindsCounted(acts[..|acts| - 1], kind);
      KindsCounted(acts[..|acts| - 1], acts[|acts| - 1].kind);
    }
  }

  /** The sum of the counts of `kinds`. */
  function CountSum(acts: seq<Activity>, kinds: seq<string>): nat
    decreases |kinds|
  {
    if kinds == [] then 0 else KindCount(acts, kinds[0]) + CountSum(acts, kinds[1..])
  }

  /** `sum(counts.values()) or 1`. */
  function Total(acts: seq<Activity>): nat
  {
    var s := CountSum(acts, Kinds(acts));
    if s == 0 then 1 else s
  }

  /** `percentages`. */
  function Percentages(acts: seq<Activity>): map<string, real>
  {
    map kind | kind in Kinds(acts) :: KindCount(acts, kind) as real / Total(acts) as real
  }

  /** The first of `kinds` holding more than half of the activities. */
  function FirstDominant(acts: seq<Activity>, kinds: seq<string>): Option<string>
    decreases |kinds|
  {
    if kinds == [] then None
    else if 2 * KindCount(acts, kinds[0]) > Total(acts) then Some(kinds[0])
    else FirstDominant(acts, kinds[1..])
  }

  /** The report `evaluate_activity_diversity` returns. */
  function Diversity(acts: seq<Activity>): ActivityDiversityReport
  {
    var dominant := FirstDominant(acts, Kinds(acts));
    ActivityDiversityReport(Percentages(acts), dominant.None?, dominant)
  }

  /** A share above one half: `count / total > 0.5`. */
  lemma {:induction false} AboveHalf(count: nat, total: nat)
    requires total > 0
    ensures count as real / total as real > 0.5 <==> 2 * count > total
  {
    var p := count as real / total as real;
    var t := total as real;
    assert (p - 0.5) * t == count as real - t / 2.0;
    PositiveProduct(p - 0.5, t);
  }

  lemma {:induction false} PositiveProduct(x: real, t: real)
    requires t > 0.0
    ensures x * t > 0.0 <==> x > 0.0
  {
    if x <= 0.0 {
      assert x * t <= 0.0 * t;
    }
  }

  /** `evaluate_activity_diversity`: the types are visited in the order the
      counter holds them and the first one above half stops the loop. */
  method EvaluateActivityDiversity(outline: CriticOutline) returns (r: ActivityDiversityReport)
    ensures r == Diversity(outline.activities)
  {
    var acts := outline.activities;
    var kinds := Kinds(acts);
    var total := Total(acts);
    var percentages := Percentages(acts);
    var dominant: Option<string> := None;
    var balanced := true;
    var i := 0;
    while i < |kinds|
      invariant 0 <= i <= |kinds|
      invariant FirstDominant(acts, kinds[i..]) == FirstDominant(acts, kinds)
      invariant dominant == None && balanced
    {
      var kind := kinds[i];
      AboveHalf(KindCount(acts, kind), total);
      if percentages[kind] > 0.5 {
        dominant := Some(kind);
        balanced := false;
        break;
      }
      assert kinds[i..][1..] == kinds[i + 1..];
      i := i + 1;
    }
    r := ActivityDiversityReport(percentages, balanced, dominant);
  }

  /** Two different types together have no more activities than there are. */
  lemma {:induction false} KindCountPair(acts: seq<Activity>, a: string, b: string)
    requires a != b
    ensures KindCount(acts, a) + KindCount(acts, b) <= |acts|
    decreases |acts|
  {
    if acts != [] {
      KindCountPair(acts[..|acts| - 1], a, b);
    }
  }

  lemma {:induction false} KindCountBound(acts: seq<Activity>, kind: string)
    ensures KindCount(acts, kind) <= |acts|
    decreases |acts|
  {
    if acts != [] {
      KindCountBound(acts[..|acts| - 1], kind);
    }
  }

  /** Adding the last activity adds one to the sum over the known kinds
      when its type is among them. */
  lemma {:induction false} CountSumStep(acts: seq<Activity>, kinds: seq<string>)
    requires acts != [] && Distinct(kinds)
    ensures CountSum(acts, kinds) == CountSum(acts[..|acts| - 1], kinds) + (if acts[|acts| - 1].kind in kinds then 1 else 0)
    decreases |kinds|
  {
    if kinds != [] {
      assert Distinct(kinds[1..]) by {
        forall i, j | 0 <= i < j < |kinds[1..]| ensures kinds[1..][i] != kinds[1..][j] {
          assert kinds[1..][i] == kinds[i + 1] && kinds[1..][j] == kinds[j + 1];
        }
      }
      CountSumStep(acts, kinds[1..]);
      assert kinds[0] !in kinds[1..] by {
        forall k | 0 <= k < |kinds[1..]| ensures kinds[1..][k] != kinds[0] {
          assert kinds[1..][k] == kinds[k + 1];
        }
      }
      assert acts[|acts| - 1].kind in kinds <==> acts[|acts| - 1].kind == kinds[0] || acts[|acts| - 1].kind in kinds[1..];
    }
  }

  lemma {:induction false} CountSumAppend(acts: seq<Activity>, kinds: seq<string>, kind: string)
    ensures CountSum(acts, kinds + [kind]) == CountSum(acts, kinds) + KindCount(acts, kind)
    decreases |kinds|
  {
    if kinds != [] {
      assert (kinds + [kind])[1..] == kinds[1..] + [kind];
      CountSumAppend(acts, kinds[1..], kind);
    }
  }

  /** The counter's values add up to the number of activities, so `total`
      is that number, or 1 when there are none. */
  lemma {:induction false} TotalIsLength(acts: seq<Activity>)
    ensures CountSum(acts, Kinds(acts)) == |acts|
    ensures Total(acts) == if acts == [] then 1 else |acts|
    decreases |acts|
  {
    if acts != [] {
      var front := acts[..|acts| - 1];
      var last := acts[|acts| - 1].kind;
      TotalIsLength(front);
      KindsCounted(front, last);
      KindsCounted(acts, last);
      var kinds := Kinds(acts);
      if last in Kinds(front) {
        CountSumStep(acts, kinds);
      } else {
        CountSumStep(acts, Kinds(front));
        CountSumAppend(acts, Kinds(front), last);
        assert KindCount(acts, last) == 1;
      }
    }
  }

  lemma {:induction false} FirstDominantFound(acts: seq<Activity>, kinds: seq<string>)
    ensures FirstDominant(acts, kinds).Some? ==>
      FirstDominant(acts, kinds).value in kinds && 2 * KindCount(acts, FirstDominant(acts, kinds).value) > Total(acts)
    ensures FirstDominant(acts, kinds).None? ==> forall k :: 0 <= k < |kinds| ==> 2 * KindCount(acts, kinds[k]) <= Total(acts)
    decreases |kinds|
  {
    if kinds != [] {
      FirstDominantFound(acts, kinds[1..]);
      assert forall k :: 1 <= k < |kinds| ==> kinds[k] == kinds[1..][k - 1];
    }
  }

  /** A type is reported as dominant exactly when it holds more than half
      of the activities, whatever the order of the types; then the outline
      is not balanced, and it is balanced exactly when no type has such a
      majority. */
  lemma {:induction false} DominantIsMajority(acts: seq<Activity>, kind: string)
    ensures Diversity(acts).dominantType == Some(kind) <==> 2 * KindCount(acts, kind) > |acts|
    ensures Diversity(acts).isBalanced <==> Diversity(acts).dominantType.None?
  {
    TotalIsLength(acts);
    KindsCounted(acts, kind);
    var kinds := Kinds(acts);
    FirstDominantFound(acts, kinds);
    var d := FirstDominant(acts, kinds);
    if acts == [] {
      assert KindCount(acts, kind) == 0;
      assert d.None?;
    } else {
      if d.Some? && d.value != kind {
        KindCountPair(acts, d.value, kind);
      }
    }
  }

  /** Each type's share is its count over the number of activities. */
  lemma {:induction false} PercentageOf(acts: seq<Activity>, kind: string)
    requires acts != []
    ensures kind in Diversity(acts).typePercentages <==> KindCount(acts, kind) > 0
    ensures kind in Diversity(acts).typePercentages ==>
      Diversity(acts).typePercentages[kind] == KindCount(acts, kind) as real / |acts| as real
  {
    TotalIsLength(acts);
    KindsCounted(acts, kind);
  }

  /** Two lectures and a discussion: the lectures dominate. */
  lemma {:induction false} LecturesDominate(a: Activity, b: Activity, c: Activity)
    requires a.kind == "lecture" && b.kind == "lecture" && c.kind == "discussion"
    ensures Diversity([a, b, c]).dominantType == Some("lecture")
    ensures !Diversity([a, b, c]).isBalanced
  {
    var acts := [a, b, c];
    assert acts[..2] == [a, b] && [a, b][..1] == [a] && [a][..0] == [];
    assert KindCount([a], "lecture") == 1;
    assert KindCount([a, b], "lecture") == 2;
    assert "discussion" != "lecture";
    assert KindCount(acts, "lecture") == 2;
    DominantIsMajority(acts, "lecture");
  }

  // ---------------------------------------------------------------------------
  // Cognitive load
  // ---------------------------------------------------------------------------

  /** The longest an activity may run without overloading: 45 minutes. */
  const MaxSegmentMinutes := 45

  function TotalDuration(acts: seq<Activity>): int
    decreases |acts|
  {
    if acts == [] then 0 else TotalDuration(acts[..|acts| - 1]) + acts[|acts| - 1].durationMin
  }

  /** The descriptions of the activities longer than 45 minutes, in order. */
  function Overloaded(acts: seq<Activity>): seq<string>
    decreases |acts|
  {
    if acts == [] then []
    else Overloaded(acts[..|acts| - 1])
         + (if acts[|acts| - 1].durationMin > MaxSegmentMinutes then [acts[|acts| - 1].description] else [])
  }

  /** `assess_cognitive_load`. */
  function AssessCognitiveLoad(outline: CriticOutline): CognitiveLoadReport
  {
    CognitiveLoadReport(TotalDuration(outline.activities), Overloaded(outline.activities))
  }

  /** Both measures split over concatenated activity lists. */
  lemma {:induction false} LoadAppend(a: seq<Activity>, b: seq<Activity>)
    ensures TotalDuration(a + b) == TotalDuration(a) + TotalDuration(b)
    ensures Overloaded(a + b) == Overloaded(a) + Overloaded(b)
    decreases |b|
  {
    if b == [] {
      assert a + b == a;
    } else {
      assert (a + b)[..|a + b| - 1] == a + b[..|b| - 1];
      LoadAppend(a, b[..|b| - 1]);
    }
  }

  /** Every overloaded segment is the description of a long activity, and a
      list of activities none longer than 45 minutes has none. */
  lemma {:induction false} OverloadedSound(acts: seq<Activity>)
    ensures forall d :: d in Overloaded(acts) ==>
      exists k :: 0 <= k < |acts| && acts[k].description == d && acts[k].durationMin > MaxSegmentMinutes
    ensures (forall k :: 0 <= k < |acts| ==> acts[k].durationMin <= MaxSegmentMinutes) ==> Overloaded(acts) == []
    decreases |acts|
  {
    if acts != [] {
      var n := |acts| - 1;
      OverloadedSound(acts[..n]);
      assert forall k :: 0 <= k < n ==> acts[..n][k] == acts[k];
    }
  }

  /** With no negative durations, each overloaded segment accounts for more
      than 45 minutes of the total. */
  lemma {:induction false} LoadBound(acts: seq<Activity>)
    requires forall k :: 0 <= k < |acts| ==> acts[k].durationMin >= 0
    ensures TotalDuration(acts) >= (MaxSegmentMinutes + 1) * |Overloaded(acts)|
    decreases |acts|
  {
    if acts != [] {
      var n := |acts| - 1;
      assert forall k :: 0 <= k < n ==> acts[..n][k] == acts[k];
      LoadBound(acts[..n]);
    }
  }

  /** A 90-minute activity between 30-minute ones is the one overloaded
      segment. */
  lemma {:induction false} LongIntroOverloads(a: Activity, b: Activity, c: Activity)
    requires a.durationMin == 90 && b.durationMin == 30 && c.durationMin == 30
    ensures Overloaded([a, b, c]) == [a.description]
  {
    assert [a, b, c][..2] == [a, b] && [a, b][..1] == [a] && [a][..0] == [];
    assert Overloaded([a]) == [a.description];
    assert Overloaded([a, b]) == [a.description];
  }

  // ---------------------------------------------------------------------------
  // The critique
  // ---------------------------------------------------------------------------

  const BloomAdvice := "cover additional Bloom levels: "
  const DiversityAdvice := "balance activities; too much "
  const LoadAdvice := "reduce cognitive load in segments: "

  /** The recommendations, in the order bloom, diversity, load. */
  function Recommendations(bloom: BloomCoverageReport, diversity: ActivityDiversityReport, load: CognitiveLoadReport): (r: seq<string>)
    ensures var b := bloom.missingLevels != [];
      var d := !diversity.isBalanced && diversity.dominantType.Some? && diversity.dominantType.value != "";
      var l := load.overloadedSegments != [];
      && |r| == (if b then 1 else 0) + (if d then 1 else 0) + (if l then 1 else 0)
      && (b ==> r[0] == BloomAdvice + Join(", ", bloom.missingLevels))
      && (d ==> r[if b then 1 else 0] == DiversityAdvice + diversity.dominantType.value)
      && (l ==> r[|r| - 1] == LoadAdvice + Join(", ", load.overloadedSegments))
  {
    (if bloom.missingLevels != [] then [BloomAdvice + Join(", ", bloom.missingLevels)] else [])
    + (if !diversity.isBalanced && diversity.dominantType.Some? && diversity.dominantType.value != ""
       then [DiversityAdvice + diversity.dominantType.value] else [])
    + (if load.overloadedSegments != [] then [LoadAdvice + Join(", ", load.overloadedSegments)] else [])
  }

  /** Some recommendation starts with `advice`. */
  predicate Advises(r: seq<string>, advice: string)
  {
    exists k :: 0 <= k < |r| && StartsWith(r[k], advice)
  }

  lemma {:induction false} AdviceStarts(advice: string, rest: string)
    ensures StartsWith(advice + rest, advice)
  {
    assert (advice + rest)[..|advice|] == advice;
  }

  /** Each kind of advice is given exactly when its condition holds. */
  lemma {:induction false} AdviceIff(bloom: BloomCoverageReport, diversity: ActivityDiversityReport, load: CognitiveLoadReport)
    ensures var r := Recommendations(bloom, diversity, load);
      && (Advises(r, BloomAdvice) <==> bloom.missingLevels != [])
      && (Advises(r, DiversityAdvice) <==> !diversity.isBalanced && diversity.dominantType.Some? && diversity.dominantType.value != "")
      && (Advises(r, LoadAdvice) <==> load.overloadedSegments != [])
  {
    var r := Recommendations(bloom, diversity, load);
    var m := BloomAdvice + Join(", ", bloom.missingLevels);
    var d := DiversityAdvice + (if diversity.dominantType.Some? then diversity.dominantType.value else "");
    var l := LoadAdvice + Join(", ", load.overloadedSegments);
    AdviceStarts(BloomAdvice, Join(", ", bloom.missingLevels));
    AdviceStarts(DiversityAdvice, if diversity.dominantType.Some? then diversity.dominantType.value else "");
    AdviceStarts(LoadAdvice, Join(", ", load.overloadedSegments));
    assert m[0] == 'c' && d[0] == 'b' && l[0] == 'r';
    assert forall k :: 0 <= k < |r| ==> r[k] == m || r[k] == d || r[k] == l;
  }

  /** The critic's view of the state's outline: its objectives and the
      activities of its modules. */
  function CriticView(state: CoreState.Outline): CriticOutline
  {
    CriticOutline(state.learningObjectives, CoreState.ModuleActivities(state.modules))
  }

  /** `run_pedagogy_critic`, with the classifier as a parameter. */
  method RunPedagogyCritic(state: CoreState.State, classify: string -> string) returns (r: CritiqueReport)
    ensures var o := CriticView(state.outline);
      && r.bloom == BloomCoverage(o, classify)
      && r.diversity == Diversity(o.activities)
      && r.cognitiveLoad == AssessCognitiveLoad(o)
      && r.recommendations == Recommendations(r.bloom, r.diversity, r.cognitiveLoad)
  {
    var outline := CriticView(state.outline);
    var bloom := AnalyzeBloomCoverage(outline, classify);
    var diversity := EvaluateActivityDiversity(outline);
    var cognitive := AssessCognitiveLoad(outline);
    r := CritiqueReport(bloom, diversity, cognitive, Recommendations(bloom, diversity, cognitive));
  }
}
