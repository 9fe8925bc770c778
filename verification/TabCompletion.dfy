/** The tab-completion cache: answers for a longer prefix are taken from the listing of a shorter one. */
module TabCompletion {
  import opened Wrappers

  const CACHE_TTL: int := 15
  const MAX_RESULTS: nat := 1000

  // ---------------------------------------------------------------------------
  // Listings
  // ---------------------------------------------------------------------------

  predicate StartsWith(s: string, p: string) { p <= s }

  function FirstSlash(s: string): (i: nat)
    ensures i <= |s| && (forall k :: 0 <= k < i ==> s[k] != '/') && (i < |s| ==> s[i] == '/')
  {
    if s == "" || s[0] == '/' then 0 else 1 + FirstSlash(s[1..])
  }

  /** What a listing of `p*` shows for a name: the name, or its directory below the prefix. */
  function Entry(name: string, p: string): string
    requires StartsWith(name, p)
  {
    var i := |p| + FirstSlash(name[|p|..]);
    if i < |name| then name[..i + 1] else name
  }

  /** Appends an entry that is not there yet. */
  function Add(s: seq<string>, e: string): seq<string> { if e in s then s else s + [e] }

  /** The complete one-level listing of `p*`, in the order of the names; each entry once. */
  function OneLevel(names: seq<string>, p: string): seq<string> {
    if names == [] then []
    else
      var front, name := OneLevel(names[..|names| - 1], p), names[|names| - 1];
      if StartsWith(name, p) then Add(front, Entry(name, p)) else front
  }

  function Filter(s: seq<string>, q: string): seq<string> {
    if s == [] then []
    else Filter(s[..|s| - 1], q) + if StartsWith(s[|s| - 1], q) then [s[|s| - 1]] else []
  }

  function Slashes(s: string): nat {
    if s == "" then 0 else (if s[0] == '/' then 1 else 0) + Slashes(s[1..])
  }

  lemma {:induction false} SlashesCat(a: string, b: string)
    ensures Slashes(a + b) == Slashes(a) + Slashes(b)
  {
    if a == "" {
      assert a + b == b;
    } else {
      assert (a + b)[1..] == a[1..] + b;
      SlashesCat(a[1..], b);
    }
  }

  lemma {:induction false} NoSlashes(s: string)
    ensures Slashes(s) == 0 <==> '/' !in s
  {
    if s != "" {
      NoSlashes(s[1..]);
      assert s == [s[0]] + s[1..];
    }
  }

  /** A prefix of a string with as many slashes leaves no slash behind. */
  lemma SameSlashes(p: string, q: string)
    requires StartsWith(q, p)
    ensures Slashes(p) == Slashes(q) <==> '/' !in q[|p|..]
  {
    assert q == p + q[|p|..];
    SlashesCat(p, q[|p|..]);
    NoSlashes(q[|p|..]);
  }

  /** An entry is the name, if no slash follows the prefix, or its front up to the first such slash. */
  lemma EntryExact(name: string, p: string, e: string)
    requires StartsWith(name, p)
    ensures Entry(name, p) == e <==>
      e <= name && if '/' !in name[|p|..] then e == name else |p| < |e| && e[|e| - 1] == '/' && '/' !in e[|p|..|e| - 1]
  {
    var rest := name[|p|..];
    var k := FirstSlash(rest);
    var i := |p| + k;
    assert forall j :: |p| <= j < |name| ==> name[j] == rest[j - |p|];
    if k < |rest| {
      assert rest[k] == '/' && name[..i + 1][|p|..i] == rest[..k];
      if e <= name && |p| < |e| && e[|e| - 1] == '/' && '/' !in e[|p|..|e| - 1] {
        assert forall j :: |p| <= j < |e| - 1 ==> e[j] == e[|p|..|e| - 1][j - |p|] && e[|p|..|e| - 1][j - |p|] in e[|p|..|e| - 1];
        assert i == |e| - 1;
        assert e == name[..|e|];
      }
    }
  }

  /** The listing has the entries of all names with the prefix and no others, each once. */
  lemma {:induction false} OneLevelExact(names: seq<string>, p: string)
    ensures forall e :: e in OneLevel(names, p) <==> exists name :: name in names && StartsWith(name, p) && Entry(name, p) == e
    ensures forall i, j :: 0 <= i < j < |OneLevel(names, p)| ==> OneLevel(names, p)[i] != OneLevel(names, p)[j]
    decreases |names|
  {
    if names != [] {
      var front := names[..|names| - 1];
      assert names == front + [names[|names| - 1]];
      OneLevelExact(front, p);
    }
  }

  /** Entries are in the order of the names that give them first. */
  lemma {:induction false} OneLevelInOrder(a: seq<string>, b: seq<string>, p: string)
    ensures OneLevel(a, p) <= OneLevel(a + b, p)
    decreases |b|
  {
    if b == [] {
      assert a + b == a;
    } else {
      assert (a + b)[..|a + b| - 1] == a + b[..|b| - 1];
      OneLevelInOrder(a, b[..|b| - 1], p);
    }
  }

  /** A longer prefix without another slash shows the same entry, for the names that have it. */
  lemma EntryAgrees(name: string, p: string, q: string)
    requires StartsWith(q, p) && '/' !in q[|p|..] && StartsWith(name, p)
    ensures StartsWith(Entry(name, p), q) <==> StartsWith(name, q)
    ensures StartsWith(name, q) ==> Entry(name, p) == Entry(name, q)
  {
    var i := |p| + FirstSlash(name[|p|..]);
    if i < |name| { assert name[i] == '/'; }
    assert forall k :: |p| <= k < i ==> name[k] == name[|p|..][k - |p|] != '/';
    if StartsWith(name, q) {
      assert forall k :: |p| <= k < |q| ==> name[k] == q[|p|..][k - |p|] && q[|p|..][k - |p|] in q[|p|..];
      var j := |q| + FirstSlash(name[|q|..]);
      assert forall k :: |q| <= k < j ==> name[k] == name[|q|..][k - |q|] != '/';
      assert j < |name| ==> name[j] == '/';
      assert i == j;
    }
  }

  lemma {:induction false} FilterHas(s: seq<string>, q: string, e: string)
    ensures e in Filter(s, q) <==> e in s && StartsWith(e, q)
  {
    if s != [] {
      assert s == s[..|s| - 1] + [s[|s| - 1]];
      FilterHas(s[..|s| - 1], q, e);
    }
  }

  lemma FilterAdd(s: seq<string>, e: string, q: string)
    ensures Filter(Add(s, e), q) == if StartsWith(e, q) then Add(Filter(s, q), e) else Filter(s, q)
  {
    FilterHas(s, q, e);
    if e !in s { assert (s + [e])[..|s|] == s; }
  }

  /** The filtered listing of a prefix is the listing of every extension without another slash. */
  lemma {:induction false} FilteredListing(names: seq<string>, p: string, q: string)
    requires StartsWith(q, p) && Slashes(p) == Slashes(q)
    ensures Filter(OneLevel(names, p), q) == OneLevel(names, q)
    decreases |names|
  {
    if names != [] {
      var front, name := names[..|names| - 1], names[|names| - 1];
      FilteredListing(front, p, q);
      SameSlashes(p, q);
      if StartsWith(name, p) {
        EntryAgrees(name, p, q);
        FilterAdd(OneLevel(front, p), Entry(name, p), q);
      }
    }
  }

  lemma EntryEndsBefore(name: string, p: string, q: string, k: nat)
    requires StartsWith(q, p) && |p| <= k < |q| - 1 && q[k] == '/' && StartsWith(name, p)
    ensures !StartsWith(Entry(name, p), q)
  {
    var i := |p| + FirstSlash(name[|p|..]);
    assert forall j :: |p| <= j < i ==> name[j] == name[|p|..][j - |p|] != '/';
    assert k < |Entry(name, p)| - 1 ==> Entry(name, p)[k] == name[k] && k < i;
  }

  /** The slash count matters: past another slash, the filtered listing has nothing at all. */
  lemma {:induction false} OtherLevelIsEmpty(names: seq<string>, p: string, q: string, k: nat)
    requires StartsWith(q, p) && |p| <= k < |q| - 1 && q[k] == '/'
    ensures Filter(OneLevel(names, p), q) == []
    ensures OneLevel(names, q) == [] <==> (forall name :: name in names ==> !StartsWith(name, q))
    decreases |names|
  {
    if names != [] {
      var front, name := names[..|names| - 1], names[|names| - 1];
      assert names == front + [name];
      OtherLevelIsEmpty(front, p, q, k);
      if StartsWith(name, p) {
        var e := Entry(name, p);
        FilterAdd(OneLevel(front, p), e, q);
        EntryEndsBefore(name, p, q, k);
      }
    }
  }

  /** What a listing request returns. */
  function Listed(names: seq<string>, p: string): seq<string> {
    var all := OneLevel(names, p);
    all[..Min(MAX_RESULTS, |all|)]
  }

  // ---------------------------------------------------------------------------
  // The cache
  // ---------------------------------------------------------------------------

  class TabCompletionCache {
    var prefix: Option<string>
    var results: seq<string>
    var timestamp: int
    var partialResults: bool

    /** What is loaded from the cache file, or the values used when it cannot be read. */
    constructor (saved: Option<(string, (seq<string>, int, bool))>)
      ensures saved.Some? ==> (prefix, (results, timestamp, partialResults)) == (Some(saved.value.0), saved.value.1)
      ensures saved.None? ==> prefix.None? && timestamp == 0
    {
      if saved.Some? {
        var (p, (r, t, partial)) := saved.value;
        prefix, results, timestamp, partialResults := Some(p), r, t, partial;
      } else {
        prefix, results, timestamp, partialResults := None, [], 0, false;
      }
    }

    /** The cache holds what a listing of its prefix returned, and says whether that may be cut off. */
    ghost predicate Valid(names: seq<string>)
      reads this
    {
      && (prefix.None? ==> timestamp == 0)
      && (prefix.Some? ==> results == Listed(names, prefix.value) && (partialResults <==> |results| == MAX_RESULTS))
    }

    /** When the cache has an answer: it was used less than the time to live ago, and is for this prefix,
        or complete and for a shorter one on the same level. */
    ghost predicate Hits(p: string, now: int)
      reads this
    {
      && now - timestamp < CACHE_TTL
      && prefix.Some?
      && (prefix.value == p || (!partialResults && StartsWith(p, prefix.value) && Slashes(p) == Slashes(prefix.value)))
    }

    /** A hit keeps the entry alive: its time starts again. Whether it is one is a matter of the age, and of
        what the prefix adds to the cached one. */
    method GetCachedResults(p: string, now: int) returns (r: Option<seq<string>>)
      requires now >= CACHE_TTL && (prefix.None? ==> timestamp == 0)
      modifies this`timestamp
      ensures r.Some? <==> old(Hits(p, now))
      ensures now - old(timestamp) >= CACHE_TTL ==> r.None?
      ensures now - old(timestamp) < CACHE_TTL && prefix.Some? ==>
        (r.Some? <==> p == prefix.value || (!partialResults && prefix.value <= p && '/' !in p[|prefix.value|..]))
      ensures r.Some? ==> r.value == if prefix == Some(p) then results else Filter(results, p)
      ensures timestamp == if r.Some? then now else old(timestamp)
    {
      if prefix.Some? && StartsWith(p, prefix.value) { SameSlashes(prefix.value, p); }
      if now - timestamp >= CACHE_TTL { return None; }
      r := None;
      if prefix == Some(p) {
        r := Some(results);
      } else if !partialResults && StartsWith(p, prefix.value) && Slashes(p) == Slashes(prefix.value) {
        r := Some(Filter(results, p));
      }
      if r.Some? { timestamp := now; }
    }

    method UpdateCache(p: string, found: seq<string>, partial: bool, now: int)
      modifies this
      ensures (prefix, results, partialResults, timestamp) == (Some(p), found, partial, now)
    {
      prefix, results, partialResults, timestamp := Some(p), found, partial, now;
    }
  }

  /** The listing request, which may not end in time. */
  method PerformCloudListing(names: seq<string>, p: string) returns (r: Option<seq<string>>)
    ensures r.Some? ==> r.value == Listed(names, p)
  {
    var inTime: bool := *;
    return if inTime then Some(Listed(names, p)) else None;
  }

  /** The completer for objects, from the cache look-up on. As long as the listing does not change, the
      answer is what a new listing would return, from the cache or not, or nothing after a timeout; and
      a listing is requested exactly when the cache has no answer. */
  method Complete(cache: TabCompletionCache, names: seq<string>, p: string, now: int)
    returns (results: seq<string>, timedOut: bool, requested: bool)
    requires cache.Valid(names) && now >= CACHE_TTL
    modifies cache
    ensures cache.Valid(names)
    ensures results == if timedOut then [] else Listed(names, p)
    ensures requested <==> !old(cache.Hits(p, now))
    ensures timedOut ==> requested
    ensures !requested || timedOut ==> cache.prefix == old(cache.prefix) && cache.results == old(cache.results)
    ensures requested && !timedOut ==> cache.prefix == Some(p)
    ensures !timedOut ==> cache.timestamp == now
  {
    timedOut, requested := false, false;
    var cached := cache.GetCachedResults(p, now);
    if cached.Some? {
      results := cached.value;
      if cache.prefix != Some(p) {
        FilteredListing(names, cache.prefix.value, p);
        var all := OneLevel(names, cache.prefix.value);
        assert cache.results == all[..|all|] == all;
        FilterShorter(all, p);
      }
    } else {
      requested := true;
      var listed := PerformCloudListing(names, p);
      if listed.Some? {
        results := listed.value;
        cache.UpdateCache(p, results, |results| == MAX_RESULTS, now);
      } else {
        results, timedOut := [], true;
      }
    }
  }

  lemma {:induction false} FilterShorter(s: seq<string>, q: string)
    ensures |Filter(s, q)| <= |s|
  {
    if s != [] { FilterShorter(s[..|s| - 1], q); }
  }

  /** Any series of completions on one cache, whatever the prefixes and times, is answered as if there
      were no cache. */
  method CompleteAll(cache: TabCompletionCache, names: seq<string>, asked: seq<(string, int)>)
    returns (answers: seq<seq<string>>, timedOut: seq<bool>)
    requires cache.Valid(names) && forall k :: 0 <= k < |asked| ==> asked[k].1 >= CACHE_TTL
    modifies cache
    ensures |answers| == |timedOut| == |asked|
    ensures forall k :: 0 <= k < |asked| ==> answers[k] == if timedOut[k] then [] else Listed(names, asked[k].0)
  {
    answers, timedOut := [], [];
    var i := 0;
    while i < |asked|
      invariant i <= |asked| && |answers| == |timedOut| == i && cache.Valid(names)
      invariant forall k :: 0 <= k < i ==> answers[k] == if timedOut[k] then [] else Listed(names, asked[k].0)
    {
      var results, late, _ := Complete(cache, names, asked[i].0, asked[i].1);
      answers, timedOut, i := answers + [results], timedOut + [late], i + 1;
    }
  }
}
