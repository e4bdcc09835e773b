/**
 * The cache file names of the offline search cache
 * (src/agents/offline_cache.py): a query becomes a file name under
 * "workspace/cache" by replacing every character outside `[A-Za-z0-9_-]`
 * with an underscore. Reading and writing the cached JSON are not part of
 * this model.
 */
module OfflineCache {
  /** `CACHE_DIR`. */
  const CacheDir: string := "workspace/cache"

  /** The characters `re.sub(r"[^A-Za-z0-9_-]", "_", ...)` keeps. */
  predicate IsNameChar(c: char)
  {
    ('A' <= c <= 'Z') || ('a' <= c <= 'z') || ('0' <= c <= '9') || c == '_' || c == '-'
  }

  function SanitizeChar(c: char): (r: char)
    ensures IsNameChar(r)
    ensures IsNameChar(c) ==> r == c
    ensures !IsNameChar(c) ==> r == '_'
  {
    if IsNameChar(c) then c else '_'
  }

  /** The sanitised query. */
  function Sanitize(query: string): (r: string)
    ensures |r| == |query|
    ensures forall i :: 0 <= i < |r| ==> IsNameChar(r[i])
    ensures forall i :: 0 <= i < |r| ==> r[i] == query[i] || (r[i] == '_' && !IsNameChar(query[i]))
    decreases |query|
  {
    if query == [] then [] else [SanitizeChar(query[0])] + Sanitize(query[1..])
  }

  /** A query made of name characters is its own name. */
  lemma {:induction false} SanitizeKeeps(query: string)
    requires forall i :: 0 <= i < |query| ==> IsNameChar(query[i])
    ensures Sanitize(query) == query
    decreases |query|
  {
    if query != [] {
      SanitizeKeeps(query[1..]);
    }
  }

  /** Sanitising twice is sanitising once. */
  lemma {:induction false} Idempotent(query: string)
    ensures Sanitize(Sanitize(query)) == Sanitize(query)
  {
    SanitizeKeeps(Sanitize(query));
  }

  /** `_cache_file(query)`: `CACHE_DIR / f"{sanitized}.json"`. Whatever the
      query, the file is a ".json" file directly inside the cache directory:
      its name has one character per query character and no separator or
      dot, so it cannot reach another directory. */
  function CacheFile(query: string): (path: string)
    ensures |path| == |CacheDir| + 1 + |query| + 5
    ensures path[..|CacheDir| + 1] == CacheDir + "/" && path[|path| - 5..] == ".json"
    ensures forall i :: |CacheDir| + 1 <= i < |path| - 5 ==> IsNameChar(path[i]) && path[i] != '/' && path[i] != '.'
  {
    CacheDir + "/" + Sanitize(query) + ".json"
  }

  /** Two words joined by a space are cached under the words joined by an
      underscore, as "hello world" is in "hello_world.json". */
  lemma {:induction false} SpaceBecomesUnderscore(a: string, b: string)
    requires forall i :: 0 <= i < |a| ==> IsNameChar(a[i])
    requires forall i :: 0 <= i < |b| ==> IsNameChar(b[i])
    ensures CacheFile(a + " " + b) == CacheDir + "/" + a + "_" + b + ".json"
  {
    SanitizeKeeps(a);
    SanitizeKeeps(b);
    SanitizeSplit(a, ' ', b);
    assert a + " " + b == a + [' '] + b;
    assert a + "_" + b == a + ['_'] + b;
  }

  lemma {:induction false} HelloWorld()
    ensures CacheFile("hello world") == "workspace/cache/hello_world.json"
  {
    var a, b := "hello", "world";
    SpaceBecomesUnderscore(a, b);
    assert a + " " + b == "hello world";
    assert CacheDir + "/" + a + "_" + b + ".json" == "workspace/cache/hello_world.json";
  }

  lemma {:induction false} SanitizeSplit(a: string, c: char, b: string)
    ensures Sanitize(a + [c] + b) == Sanitize(a) + [SanitizeChar(c)] + Sanitize(b)
  {
    var s := a + [c] + b;
    assert |Sanitize(s)| == |Sanitize(a) + [SanitizeChar(c)] + Sanitize(b)|;
    forall i | 0 <= i < |s| ensures Sanitize(s)[i] == (Sanitize(a) + [SanitizeChar(c)] + Sanitize(b))[i] {
      SanitizeAt(s, i);
      if i < |a| {
        SanitizeAt(a, i);
      } else if i > |a| {
        SanitizeAt(b, i - |a| - 1);
      }
    }
  }

  lemma {:induction false} SanitizeAt(s: string, i: nat)
    requires i < |s|
    ensures Sanitize(s)[i] == SanitizeChar(s[i])
    decreases i
  {
    if i > 0 {
      SanitizeAt(s[1..], i - 1);
    }
  }

  /** Different queries can share a file: "a b" and "a_b" do. */
  lemma {:induction false} SharedFile()
    ensures CacheFile("a b") == CacheFile("a_b")
  {
    SanitizeSplit("a", ' ', "b");
    SanitizeSplit("a", '_', "b");
    SanitizeKeeps("a");
    SanitizeKeeps("b");
  }
}
