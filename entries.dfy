/**
 * The data entry endpoints (src/web/routes/entries.py): an in-memory,
 * append-only list of submitted topics, each given the next id.
 *
 * The module-level list is the field of an `EntryStore`; the HTTP routing
 * and the request validation are not part of this model.
 */
module Entries {
  /** `Entry`: the submitted `topic` and its `id`. */
  datatype Entry = Entry(id: int, topic: string)

  /** Ids are 1, 2, 3, ... in creation order. */
  predicate NumberedFromOne(entries: seq<Entry>)
  {
    forall k :: 0 <= k < |entries| ==> entries[k].id == k + 1
  }

  /** The list after `create_entry(topic)`. */
  function Created(entries: seq<Entry>, topic: string): (r: seq<Entry>)
    ensures |r| == |entries| + 1 && r[..|entries|] == entries
    ensures r[|entries|] == Entry(|entries| + 1, topic)
    ensures NumberedFromOne(entries) ==> NumberedFromOne(r)
  {
    entries + [Entry(|entries| + 1, topic)]
  }

  /** The list after creating the given topics, in order, from an empty
      list. */
  function CreatedAll(topics: seq<string>): seq<Entry>
    decreases |topics|
  {
    if topics == [] then [] else Created(CreatedAll(topics[..|topics| - 1]), topics[|topics| - 1])
  }

  /** After `n` creations the entries carry ids 1 to `n` and the submitted
      topics, in creation order. */
  lemma {:induction false} CreatedAllNumbers(topics: seq<string>)
    ensures |CreatedAll(topics)| == |topics|
    ensures forall k :: 0 <= k < |topics| ==> CreatedAll(topics)[k] == Entry(k + 1, topics[k])
    decreases |topics|
  {
    if topics != [] {
      var front := topics[..|topics| - 1];
      CreatedAllNumbers(front);
      assert forall k :: 0 <= k < |front| ==> topics[k] == front[k];
    }
  }

  /** `_entries` with its two routes. */
  class EntryStore {
    var entries: seq<Entry>

    predicate Valid()
      reads this
    {
      NumberedFromOne(entries)
    }

    /** The list starts empty. */
    constructor ()
      ensures entries == [] && Valid()
    {
      entries := [];
    }

    /** `list_entries`: every entry, in insertion order. */
    method ListEntries() returns (r: seq<Entry>)
      ensures r == entries
    {
      r := entries;
    }

    /** `create_entry`: the next id, appended at the end. */
    method CreateEntry(topic: string) returns (entry: Entry)
      requires Valid()
      modifies this
      ensures entries == Created(old(entries), topic) && Valid()
      ensures entry == Entry(|old(entries)| + 1, topic) && entry == entries[|entries| - 1]
    {
      entry := Entry(|entries| + 1, topic);
      entries := entries + [entry];
    }
  }
}
