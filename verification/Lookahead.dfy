/** The iterator that can look ahead without losing elements or exceptions. */
module Lookahead {
  import opened Wrappers

  /** What an underlying iterator does at one call of next: it yields an element, yields a tuple of an
      exception and its trace, or raises. After the last event it stops. */
  datatype Event<T, E> = Yields(element: T) | YieldsException(error: E) | Raises(error: E)

  /** What is buffered, and surfaces later. */
  datatype Item<T, E> = Element(element: T) | Exception(error: E)

  function Buffered<T, E>(e: Event<T, E>): Item<T, E> {
    match e
    case Yields(x) => Element(x)
    case YieldsException(x) => Exception(x)
    case Raises(x) => Exception(x)
  }

  function Items<T, E>(events: seq<Event<T, E>>): (items: seq<Item<T, E>>)
    ensures |items| == |events|
  {
    if events == [] then [] else [Buffered(events[0])] + Items(events[1..])
  }

  class PluralityCheckableIterator<T, E> {
    var underlying: seq<Event<T, E>>
    var head: seq<Item<T, E>>
    var underlyingIterEmpty: bool

    constructor (events: seq<Event<T, E>>)
      ensures Valid() && Remaining() == Items(events) && head == []
    {
      underlying, head, underlyingIterEmpty := events, [], false;
    }

    ghost predicate Valid()
      reads this
    {
      underlyingIterEmpty ==> underlying == []
    }

    /** What is still to surface, in order. */
    ghost function Remaining(): seq<Item<T, E>>
      reads this
    {
      head + Items(underlying)
    }

    /** Nothing is lost or reordered, and nothing is read ahead that is not needed. */
    method PopulateHead(numElements: nat) returns (k: nat)
      requires Valid()
      modifies this
      ensures Valid() && Remaining() == old(Remaining())
      ensures k == |head| && (k >= numElements <==> |Remaining()| >= numElements)
      ensures k < numElements ==> underlying == []
      ensures k == old(|head|) || k <= numElements
    {
      while !underlyingIterEmpty && |head| < numElements
        invariant Valid() && Remaining() == old(Remaining())
        invariant |head| == old(|head|) || |head| <= numElements
        decreases |underlying|, !underlyingIterEmpty
      {
        if underlying == [] {
          underlyingIterEmpty := true;
        } else {
          var e := underlying[0];
          assert head + Items(underlying) == (head + [Buffered(e)]) + Items(underlying[1..]);
          underlying := underlying[1..];
          underlyingIterEmpty := false;
          head := head + [Buffered(e)];
        }
      }
      return |head|;
    }

    /** None is StopIteration. */
    method Next() returns (r: Option<Item<T, E>>)
      requires Valid()
      modifies this
      ensures Valid()
      ensures r.Some? <==> old(Remaining()) != []
      ensures r.Some? ==> old(Remaining()) == [r.value] + Remaining()
      ensures r.None? ==> Remaining() == []
    {
      var k := PopulateHead(1);
      if k == 0 { return None; }
      r := Some(head[0]);
      head := head[1..];
    }

    method IsEmpty() returns (b: bool)
      requires Valid()
      modifies this
      ensures Valid() && Remaining() == old(Remaining())
      ensures b <==> Remaining() == []
    {
      var k := PopulateHead(1);
      return k == 0;
    }

    method HasPlurality() returns (b: bool)
      requires Valid()
      modifies this
      ensures Valid() && Remaining() == old(Remaining())
      ensures b <==> |Remaining()| > 1
    {
      var k := PopulateHead(2);
      return k > 1;
    }

    /** The exception raised, if the next item is one; it is raised again by the next call of Next. */
    method PeekException() returns (r: Option<E>)
      requires Valid()
      modifies this
      ensures Valid() && Remaining() == old(Remaining())
      ensures r == if Remaining() != [] && Remaining()[0].Exception? then Some(Remaining()[0].error) else None
    {
      var k := PopulateHead(1);
      if k > 0 && head[0].Exception? { return Some(head[0].error); }
      return None;
    }
  }

  // ---------------------------------------------------------------------------
  // Any interleaving of calls
  // ---------------------------------------------------------------------------

  datatype Call = CallNext | CallIsEmpty | CallHasPlurality | CallPeekException

  datatype Answer<T, E> = Got(item: Option<Item<T, E>>) | Is(b: bool) | Peeked(error: Option<E>)

  /** The answer of an iterator that simply holds all items, and what it holds afterwards. */
  function AnswerTo<T, E>(items: seq<Item<T, E>>, call: Call): (Answer<T, E>, seq<Item<T, E>>) {
    match call
    case CallNext => if items == [] then (Got(None), []) else (Got(Some(items[0])), items[1..])
    case CallIsEmpty => (Is(items == []), items)
    case CallHasPlurality => (Is(|items| > 1), items)
    case CallPeekException =>
      (Peeked(if items != [] && items[0].Exception? then Some(items[0].error) else None), items)
  }

  function Answers<T, E>(items: seq<Item<T, E>>, calls: seq<Call>): seq<Answer<T, E>>
    decreases |calls|
  {
    if calls == [] then []
    else
      var (answer, rest) := AnswerTo(items, calls[0]);
      [answer] + Answers(rest, calls[1..])
  }

  method MakeCall<T, E>(it: PluralityCheckableIterator<T, E>, call: Call) returns (answer: Answer<T, E>)
    requires it.Valid()
    modifies it
    ensures it.Valid() && (answer, it.Remaining()) == AnswerTo(old(it.Remaining()), call)
  {
    match call {
      case CallNext =>
        var r := it.Next();
        return Got(r);
      case CallIsEmpty =>
        var b := it.IsEmpty();
        return Is(b);
      case CallHasPlurality =>
        var b := it.HasPlurality();
        return Is(b);
      case CallPeekException =>
        var e := it.PeekException();
        return Peeked(e);
    }
  }

  /** Looking ahead is transparent: any sequence of calls is answered as if all items were known. */
  method Drive<T, E>(it: PluralityCheckableIterator<T, E>, calls: seq<Call>) returns (answers: seq<Answer<T, E>>)
    requires it.Valid()
    modifies it
    ensures answers == Answers(old(it.Remaining()), calls)
  {
    answers := [];
    var i := 0;
    while i < |calls|
      invariant i <= |calls| && it.Valid()
      invariant Answers(old(it.Remaining()), calls) == answers + Answers(it.Remaining(), calls[i..])
    {
      var answer := MakeCall(it, calls[i]);
      answers := answers + [answer];
      i := i + 1;
    }
  }

  /** What surfaced: the items that calls of Next gave. */
  function Surfaced<T, E>(answers: seq<Answer<T, E>>): seq<Item<T, E>> {
    if answers == [] then []
    else (if answers[0].Got? && answers[0].item.Some? then [answers[0].item.value] else []) + Surfaced(answers[1..])
  }

  function Nexts(calls: seq<Call>): nat {
    if calls == [] then 0 else (if calls[0].CallNext? then 1 else 0) + Nexts(calls[1..])
  }

  /** Exactly the underlying events surface, in order, one for each call of Next and none lost after an
      exception, whatever is asked in between. */
  lemma {:induction false} SurfacedExact<T, E>(events: seq<Event<T, E>>, items: seq<Item<T, E>>, calls: seq<Call>)
    requires items == Items(events)
    ensures Surfaced(Answers(items, calls)) == items[..Min(Nexts(calls), |items|)]
    decreases |calls|
  {
    if calls != [] {
      var (answer, rest) := AnswerTo(items, calls[0]);
      assert Answers(items, calls)[1..] == Answers(rest, calls[1..]);
      if calls[0].CallNext? && events != [] {
        assert items[1..] == Items(events[1..]);
        SurfacedExact(events[1..], items[1..], calls[1..]);
      } else {
        SurfacedExact(events, items, calls[1..]);
      }
    }
  }
}
