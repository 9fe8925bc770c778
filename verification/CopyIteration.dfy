/** The iterator of a copy command over several sources, each with its destination. */
module CopyIteration {
  import opened Wrappers

  datatype StorageUrl = FileUrl | CloudUrl(scheme: string)

  function Scheme(u: StorageUrl): string { if u.FileUrl? then "file" else u.scheme }

  datatype Destination = Destination(url: StorageUrl, haveExistingContainer: bool)

  datatype CopyObjectInfo = CopyObjectInfo(source: StorageUrl, destination: Destination)

  /** One step of a name expansion, and of the iterator over the expansions. */
  datatype Expansion<E> = Expands(source: StorageUrl) | ExpansionRaises(error: E)

  datatype Pair<E> = Pair(expansions: seq<Expansion<E>>, destination: Destination) | PairRaises(error: E)

  datatype Outcome<E> = Yield(info: CopyObjectInfo) | Raise(error: E)

  function Outcomes<E>(expansions: seq<Expansion<E>>, d: Destination): seq<Outcome<E>> {
    if expansions == [] then []
    else
      [First(expansions[0], d)] + Outcomes(expansions[1..], d)
  }

  /** The concatenation of all expansions in order, each source with its own destination. */
  function AllOutcomes<E>(pairs: seq<Pair<E>>): seq<Outcome<E>> {
    if pairs == [] then []
    else (if pairs[0].Pair? then Outcomes(pairs[0].expansions, pairs[0].destination) else [Raise(pairs[0].error)]) +
         AllOutcomes(pairs[1..])
  }

  /** What is left in the middle of one expansion. */
  function Rest<E>(current: seq<Expansion<E>>, d: Destination, pairs: seq<Pair<E>>): seq<Outcome<E>> {
    Outcomes(current, d) + AllOutcomes(pairs)
  }

  function First<E>(x: Expansion<E>, d: Destination): Outcome<E> {
    if x.Expands? then Yield(CopyObjectInfo(x.source, d)) else Raise(x.error)
  }

  /** Each expansion gives its source or its exception, in order, and each source the same destination. */
  lemma {:induction false} OutcomesExact<E>(expansions: seq<Expansion<E>>, d: Destination)
    ensures |Outcomes(expansions, d)| == |expansions|
    ensures forall k :: 0 <= k < |expansions| ==>
      match expansions[k]
      case Expands(source) => Outcomes(expansions, d)[k] == Yield(CopyObjectInfo(source, d))
      case ExpansionRaises(error) => Outcomes(expansions, d)[k] == Raise(error)
  {
    if expansions != [] {
      OutcomesExact(expansions[1..], d);
      assert forall k :: 0 < k < |expansions| ==> expansions[k] == expansions[1..][k - 1];
    }
  }

  /** What comes of the pairs is what comes of each, one after the other; a pair that raises is not dropped. */
  lemma {:induction false} AllOutcomesExact<E>(a: seq<Pair<E>>, pair: Pair<E>, b: seq<Pair<E>>)
    ensures AllOutcomes(a + [pair] + b) ==
            AllOutcomes(a) + (match pair
                              case Pair(expansions, d) => Outcomes(expansions, d)
                              case PairRaises(error) => [Raise(error)]) + AllOutcomes(b)
  {
    if a == [] {
      assert (a + [pair] + b)[1..] == b;
    } else {
      assert (a + [pair] + b)[1..] == a[1..] + [pair] + b;
      AllOutcomesExact(a[1..], pair, b);
    }
  }

  lemma RestTake<E>(current: seq<Expansion<E>>, d: Destination, pairs: seq<Pair<E>>)
    requires current != []
    ensures Rest(current, d, pairs) == [First(current[0], d)] + Rest(current[1..], d, pairs)
  {
  }

  lemma RestPair<E>(current: seq<Expansion<E>>, d: Destination, pairs: seq<Pair<E>>)
    requires current == []
    ensures pairs == [] ==> Rest(current, d, pairs) == []
    ensures pairs != [] && pairs[0].Pair? ==>
      Rest(current, d, pairs) == Rest(pairs[0].expansions, pairs[0].destination, pairs[1..])
    ensures pairs != [] && pairs[0].PairRaises? ==>
      Rest(current, d, pairs) == [Raise(pairs[0].error)] + Rest(current, d, pairs[1..])
  {
    assert Outcomes(current, d) == [];
  }

  lemma CatSnoc<T>(a: seq<T>, x: T, b: seq<T>)
    ensures a + ([x] + b) == (a + [x]) + b
  {
  }

  // ---------------------------------------------------------------------------
  // The summary of what was yielded
  // ---------------------------------------------------------------------------

  datatype Summary = Summary(isDaisyChain: bool, hasFileSrc: bool, hasCloudSrc: bool, providerTypes: seq<string>)

  predicate NeedsDaisyChain(info: CopyObjectInfo) {
    info.destination.url.CloudUrl? && info.source.CloudUrl? && info.source.scheme != info.destination.url.scheme
  }

  function Include(s: Summary, info: CopyObjectInfo): Summary {
    Summary(s.isDaisyChain || NeedsDaisyChain(info), s.hasFileSrc || info.source.FileUrl?, s.hasCloudSrc || info.source.CloudUrl?,
            if Scheme(info.source) in s.providerTypes then s.providerTypes else s.providerTypes + [Scheme(info.source)])
  }

  function Summarize(daisyChain: bool, infos: seq<CopyObjectInfo>): Summary
    decreases |infos|
  {
    if infos == [] then Summary(daisyChain, false, false, [])
    else Include(Summarize(daisyChain, infos[..|infos| - 1]), infos[|infos| - 1])
  }

  lemma SummarizeSnoc(daisyChain: bool, infos: seq<CopyObjectInfo>, info: CopyObjectInfo)
    ensures Summarize(daisyChain, infos + [info]) == Include(Summarize(daisyChain, infos), info)
  {
    assert (infos + [info])[..|infos|] == infos;
  }

  predicate Distinct(s: seq<string>) { forall i, j :: 0 <= i < j < |s| ==> s[i] != s[j] }

  /** The first place where a scheme is seen. */
  ghost predicate FirstSeen(infos: seq<CopyObjectInfo>, i: nat, scheme: string) {
    i < |infos| && Scheme(infos[i].source) == scheme && forall k :: 0 <= k < i ==> Scheme(infos[k].source) != scheme
  }

  lemma InSnoc(infos: seq<CopyObjectInfo>)
    requires infos != []
    ensures forall x :: x in infos <==> x in infos[..|infos| - 1] || x == infos[|infos| - 1]
  {
    assert infos == infos[..|infos| - 1] + [infos[|infos| - 1]];
  }

  /** The flags say exactly what the yielded sources are: no kind is missed or made up. */
  lemma {:induction false} FlagsExact(daisyChain: bool, infos: seq<CopyObjectInfo>)
    ensures Summarize(daisyChain, infos).isDaisyChain <==>
            (daisyChain ||
             exists x :: x in infos && x.source.CloudUrl? && x.destination.url.CloudUrl? &&
                         x.source.scheme != x.destination.url.scheme)
    ensures
      var s := Summarize(daisyChain, infos);
      && (s.hasFileSrc <==> exists info :: info in infos && info.source.FileUrl?)
      && (s.hasCloudSrc <==> exists info :: info in infos && info.source.CloudUrl?)
    decreases |infos|
  {
    if infos != [] {
      InSnoc(infos);
      FlagsExact(daisyChain, infos[..|infos| - 1]);
    }
  }

  /** The providers are exactly the schemes of the yielded sources, once each. */
  lemma {:induction false} ProvidersExact(daisyChain: bool, infos: seq<CopyObjectInfo>)
    ensures
      var providers := Summarize(daisyChain, infos).providerTypes;
      && Distinct(providers)
      && (forall p :: p in providers <==> exists info :: info in infos && Scheme(info.source) == p)
      && (forall p :: p in providers <==>
            (p == "file" && exists info :: info in infos && info.source.FileUrl?) ||
            exists info :: info in infos && info.source == CloudUrl(p))
    decreases |infos|
  {
    if infos != [] {
      InSnoc(infos);
      ProvidersExact(daisyChain, infos[..|infos| - 1]);
    }
  }

  /** Providers are listed in the order they were first seen. */
  ghost predicate InOrderSeen(infos: seq<CopyObjectInfo>, providers: seq<string>) {
    forall a, b, i, j :: 0 <= a < b < |providers| && FirstSeen(infos, i, providers[a]) && FirstSeen(infos, j, providers[b])
      ==> i < j
  }

  lemma {:induction false} ProvidersInOrder(daisyChain: bool, infos: seq<CopyObjectInfo>)
    ensures InOrderSeen(infos, Summarize(daisyChain, infos).providerTypes)
    decreases |infos|
  {
    if infos != [] {
      var front, info := infos[..|infos| - 1], infos[|infos| - 1];
      assert infos == front + [info];
      ProvidersInOrder(daisyChain, front);
      ProvidersExact(daisyChain, front);
      var before, providers := Summarize(daisyChain, front).providerTypes, Summarize(daisyChain, infos).providerTypes;
      forall a, b, i, j |
        0 <= a < b < |providers| && FirstSeen(infos, i, providers[a]) && FirstSeen(infos, j, providers[b])
        ensures i < j
      {
        SeenBefore(front, info, before, i, providers[a]);
        SeenBefore(front, info, before, j, providers[b]);
        assert providers[a] in before;
      }
    }
  }

  lemma SeenBefore(front: seq<CopyObjectInfo>, info: CopyObjectInfo, providers: seq<string>, i: nat, p: string)
    requires FirstSeen(front + [info], i, p)
    requires forall q :: q in providers <==> exists x :: x in front && Scheme(x.source) == q
    ensures if p in providers then FirstSeen(front, i, p) else i == |front|
  {
    var all := front + [info];
    assert forall k :: 0 <= k < |front| ==> all[k] == front[k];
    if i < |front| { assert front[i] in front; }
    if p in providers {
      var x :| x in front && Scheme(x.source) == p;
      var k :| 0 <= k < |front| && front[k] == x;
      assert all[k] == x;
    }
  }

  // ---------------------------------------------------------------------------
  // The iterator
  // ---------------------------------------------------------------------------

  class CopyObjectsIterator<E> {
    var isDaisyChain: bool
    var hasFileSrc: bool
    var hasCloudSrc: bool
    var providerTypes: seq<string>
    var pairs: seq<Pair<E>>
    var current: seq<Expansion<E>>
    var destination: Destination
    ghost const daisyChainAsked: bool
    ghost var yielded: seq<CopyObjectInfo>

    constructor (expansions: seq<Expansion<E>>, destination: Destination, pairs: seq<Pair<E>>, isDaisyChain: bool)
      ensures Valid() && yielded == [] && daisyChainAsked == isDaisyChain
      ensures Pending() == Rest(expansions, destination, pairs)
    {
      this.isDaisyChain, daisyChainAsked := isDaisyChain, isDaisyChain;
      hasFileSrc, hasCloudSrc, providerTypes := false, false, [];
      this.pairs, current, this.destination := pairs, expansions, destination;
      yielded := [];
    }

    /** The first pair is taken at once: None is StopIteration, Err what taking it raises. */
    static method Create(pairs: seq<Pair<E>>, isDaisyChain: bool) returns (r: Option<Result<CopyObjectsIterator<E>, E>>)
      ensures r.None? <==> pairs == []
      ensures r.Some? ==> (r.value.Ok? <==> pairs[0].Pair?) && (r.value.Err? ==> r.value.error == pairs[0].error)
      ensures r.Some? && r.value.Ok? ==>
        var it := r.value.value;
        fresh(it) && it.Valid() && it.yielded == [] && it.daisyChainAsked == isDaisyChain && it.Pending() == AllOutcomes(pairs)
    {
      if pairs == [] { return None; }
      if pairs[0].PairRaises? { return Some(Err(pairs[0].error)); }
      var it := new CopyObjectsIterator(pairs[0].expansions, pairs[0].destination, pairs[1..], isDaisyChain);
      return Some(Ok(it));
    }

    ghost function Pending(): seq<Outcome<E>>
      reads this
    {
      Rest(current, destination, pairs)
    }

    /** The fields summarize exactly what was yielded so far. */
    ghost predicate Valid()
      reads this
    {
      Now() == Summarize(daisyChainAsked, yielded)
    }

    ghost function Now(): Summary
      reads this
    {
      Summary(isDaisyChain, hasFileSrc, hasCloudSrc, providerTypes)
    }

    /** The next outcome of the concatenation; None is StopIteration. Expansions that are used up are
        skipped, by recursion. */
    method Next() returns (r: Option<Outcome<E>>)
      requires Valid()
      modifies this
      ensures Valid()
      ensures r.Some? <==> old(Pending()) != []
      ensures r.Some? ==> old(Pending()) == [r.value] + Pending()
      ensures r.None? ==> Pending() == []
      ensures yielded == old(yielded) + if r.Some? && r.value.Yield? then [r.value.info] else []
      decreases |pairs|
    {
      if current == [] {
        RestPair(current, destination, pairs);
        if pairs == [] { return None; }
        var pair := pairs[0];
        pairs := pairs[1..];
        if pair.PairRaises? { return Some(Raise(pair.error)); }
        current, destination := pair.expansions, pair.destination;
        r := Next();
        return;
      }
      RestTake(current, destination, pairs);
      var expansion := current[0];
      current := current[1..];
      if expansion.ExpansionRaises? { return Some(Raise(expansion.error)); }
      var info := CopyObjectInfo(expansion.source, destination);
      Note(info);
      SummarizeSnoc(daisyChainAsked, yielded, info);
      yielded := yielded + [info];
      return Some(Yield(info));
    }

    /** The part of `__next__` that keeps the summary. */
    method Note(info: CopyObjectInfo)
      requires info.destination == destination
      modifies this`isDaisyChain, this`hasFileSrc, this`hasCloudSrc, this`providerTypes
      ensures Now() == Include(old(Now()), info)
    {
      if !hasFileSrc && info.source.FileUrl? { hasFileSrc := true; }
      if !hasCloudSrc && info.source.CloudUrl? { hasCloudSrc := true; }
      var scheme := if destination.url.CloudUrl? then Some(destination.url.scheme) else None;
      if !isDaisyChain && scheme.Some? && info.source.CloudUrl? && info.source.scheme != scheme.value {
        isDaisyChain := true;
      }
      if Scheme(info.source) !in providerTypes { providerTypes := providerTypes + [Scheme(info.source)]; }
    }

    /** Iterating to the end gives the whole concatenation. */
    method Drain() returns (outcomes: seq<Outcome<E>>)
      requires Valid()
      modifies this
      ensures outcomes == old(Pending()) && Pending() == [] && Valid()
      ensures yielded == old(yielded) + Yielded(outcomes)
    {
      outcomes := [];
      while true
        invariant Valid() && old(Pending()) == outcomes + Pending()
        invariant yielded == old(yielded) + Yielded(outcomes)
        decreases |Pending()|
      {
        var r := Next();
        if r.None? { return; }
        CatSnoc(outcomes, r.value, Pending());
        YieldedSnoc(outcomes, r.value);
        outcomes := outcomes + [r.value];
      }
    }
  }

  function Yielded<E>(outcomes: seq<Outcome<E>>): seq<CopyObjectInfo> {
    if outcomes == [] then []
    else (if outcomes[0].Yield? then [outcomes[0].info] else []) + Yielded(outcomes[1..])
  }

  lemma {:induction false} YieldedSnoc<E>(outcomes: seq<Outcome<E>>, x: Outcome<E>)
    ensures Yielded(outcomes + [x]) == Yielded(outcomes) + if x.Yield? then [x.info] else []
  {
    if outcomes != [] {
      assert (outcomes + [x])[1..] == outcomes[1..] + [x];
      YieldedSnoc(outcomes[1..], x);
    } else {
      assert (outcomes + [x])[1..] == [];
    }
  }
}
