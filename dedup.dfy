/**
 * Order-preserving deduplication by a key, the loop shared by
 * `merge_research_results` (src/core/policies.py), the toy `researcher_web`
 * node (src/agentic_demo/orchestration/graph.py) and the post-processing of
 * the async `researcher_web` (src/web/researcher_web.py): walk the items,
 * keep an item when its key has not been seen, and remember the key.
 */
module Dedup {
  import opened Seqs

  /** The keys of a list of items. */
  function KeySet<T>(xs: seq<T>, key: T -> string): (r: set<string>)
    ensures forall i :: 0 <= i < |xs| ==> key(xs[i]) in r
    ensures forall k :: k in r ==> exists i :: 0 <= i < |xs| && key(xs[i]) == k
    decreases |xs|
  {
    if xs == [] then {} else KeySet(xs[..|xs| - 1], key) + {key(xs[|xs| - 1])}
  }

  /** The first item of each key, in the order the keys first occur. */
  function DedupBy<T>(xs: seq<T>, key: T -> string): seq<T>
    decreases |xs|
  {
    if xs == [] then []
    else
      var front, last := xs[..|xs| - 1], xs[|xs| - 1];
      if key(last) in KeySet(front, key) then DedupBy(front, key)
      else DedupBy(front, key) + [last]
  }

  /** The item at position `i` is the first of its key. */
  predicate FirstOfKey<T>(xs: seq<T>, key: T -> string, i: int)
    requires 0 <= i < |xs|
  {
    forall j :: 0 <= j < i ==> key(xs[j]) != key(xs[i])
  }

  predicate DistinctKeys<T>(xs: seq<T>, key: T -> string)
  {
    forall i, j :: 0 <= i < j < |xs| ==> key(xs[i]) != key(xs[j])
  }

  lemma {:induction false} DedupSubseq<T>(xs: seq<T>, key: T -> string)
    ensures IsSubsequence(DedupBy(xs, key), xs) && |DedupBy(xs, key)| <= |xs|
    decreases |xs|
  {
    if xs != [] {
      var front, last := xs[..|xs| - 1], xs[|xs| - 1];
      var d := DedupBy(front, key);
      DedupSubseq(front, key);
      assert xs == front + [last];
      if key(last) !in KeySet(front, key) {
        SubsequenceSnoc(d, front, last);
      } else {
        SubsequenceLonger(d, front, last);
      }
    }
  }

  lemma {:induction false} DedupKeys<T>(xs: seq<T>, key: T -> string)
    ensures DistinctKeys(DedupBy(xs, key), key)
    ensures KeySet(DedupBy(xs, key), key) == KeySet(xs, key)
    decreases |xs|
  {
    if xs != [] {
      var front, last := xs[..|xs| - 1], xs[|xs| - 1];
      var d := DedupBy(front, key);
      DedupKeys(front, key);
      if key(last) !in KeySet(front, key) {
        var r := d + [last];
        assert r[..|r| - 1] == d && r[|r| - 1] == last;
        forall i, j | 0 <= i < j < |r| ensures key(r[i]) != key(r[j]) {
          assert r[i] == d[i];
          if j < |r| - 1 {
            assert r[j] == d[j];
          }
        }
      }
    }
  }

  lemma {:induction false} FirstOfKeyPrefix<T>(xs: seq<T>, key: T -> string, i: nat)
    requires xs != [] && i < |xs| - 1 && FirstOfKey(xs[..|xs| - 1], key, i)
    ensures FirstOfKey(xs, key, i)
  {
    forall j | 0 <= j < i ensures key(xs[j]) != key(xs[i]) {
      assert xs[j] == xs[..|xs| - 1][j] && xs[i] == xs[..|xs| - 1][i];
    }
  }

  lemma {:induction false} DedupFirst<T>(xs: seq<T>, key: T -> string)
    ensures forall k :: 0 <= k < |DedupBy(xs, key)| ==>
              exists i :: 0 <= i < |xs| && xs[i] == DedupBy(xs, key)[k] && FirstOfKey(xs, key, i)
    decreases |xs|
  {
    if xs != [] {
      var front, last := xs[..|xs| - 1], xs[|xs| - 1];
      var d := DedupBy(front, key);
      DedupFirst(front, key);
      var r := DedupBy(xs, key);
      forall k | 0 <= k < |r| ensures exists i :: 0 <= i < |xs| && xs[i] == DedupBy(xs, key)[k] && FirstOfKey(xs, key, i) {
        if k < |d| {
          assert r[k] == d[k];
          var i :| 0 <= i < |front| && front[i] == d[k] && FirstOfKey(front, key, i);
          FirstOfKeyPrefix(xs, key, i);
          assert xs[i] == front[i] == r[k];
        } else {
          assert r == d + [last] && r[k] == last;
          forall j | 0 <= j < |xs| - 1 ensures key(xs[j]) != key(xs[|xs| - 1]) {
            assert xs[j] == front[j];
          }
          assert FirstOfKey(xs, key, |xs| - 1) && xs[|xs| - 1] == r[k];
        }
      }
      assert forall k :: 0 <= k < |r| ==> exists i :: 0 <= i < |xs| && xs[i] == DedupBy(xs, key)[k] && FirstOfKey(xs, key, i);
    } else {
      assert DedupBy(xs, key) == [];
    }
  }

  /** What deduplication promises: the result keeps items of the input in
      their order, no key repeats, no key is lost, and each kept item is the
      first one of its key. */
  lemma {:induction false} DedupByProperties<T>(xs: seq<T>, key: T -> string)
    ensures IsSubsequence(DedupBy(xs, key), xs)
    ensures |DedupBy(xs, key)| <= |xs|
    ensures DistinctKeys(DedupBy(xs, key), key)
    ensures KeySet(DedupBy(xs, key), key) == KeySet(xs, key)
    ensures forall k :: 0 <= k < |DedupBy(xs, key)| ==>
              exists i :: 0 <= i < |xs| && xs[i] == DedupBy(xs, key)[k] && FirstOfKey(xs, key, i)
  {
    DedupSubseq(xs, key);
    DedupKeys(xs, key);
    DedupFirst(xs, key);
  }

  /** One step of the deduplicating loop: the next item is kept exactly when
      its key is not among the keys seen so far. */
  lemma {:induction false} DedupByStep<T>(xs: seq<T>, key: T -> string, i: nat)
    requires i < |xs|
    ensures xs[..i + 1][..i] == xs[..i] && xs[..i + 1][i] == xs[i]
    ensures KeySet(xs[..i + 1], key) == KeySet(xs[..i], key) + {key(xs[i])}
    ensures DedupBy(xs[..i + 1], key) ==
      if key(xs[i]) in KeySet(xs[..i], key) then DedupBy(xs[..i], key) else DedupBy(xs[..i], key) + [xs[i]]
  {
    assert xs[..i + 1][..i] == xs[..i];
  }
}
