/** Sums of a weight over a sequence. */
module Sums {
  function Sum<T>(s: seq<T>, f: T -> nat): nat {
    if s == [] then 0 else f(s[0]) + Sum(s[1..], f)
  }

  lemma {:induction false} SumAppend<T>(s: seq<T>, t: seq<T>, f: T -> nat)
    ensures Sum(s + t, f) == Sum(s, f) + Sum(t, f)
  {
    if s == [] {
      assert s + t == t;
    } else {
      assert (s + t)[0] == s[0] && (s + t)[1..] == s[1..] + t;
      SumAppend(s[1..], t, f);
    }
  }

  lemma {:induction false} SumUpdate<T>(s: seq<T>, i: nat, x: T, f: T -> nat)
    requires i < |s|
    ensures Sum(s[i := x], f) + f(s[i]) == Sum(s, f) + f(x)
  {
    if i == 0 {
      assert s[i := x][1..] == s[1..];
    } else {
      assert s[i := x][1..] == s[1..][i - 1 := x];
      SumUpdate(s[1..], i - 1, x, f);
    }
  }

  lemma {:induction false} SumAgree<T>(s: seq<T>, f: T -> nat, g: T -> nat)
    requires forall x :: x in s ==> f(x) == g(x)
    ensures Sum(s, f) == Sum(s, g)
  {
    if s != [] { SumAgree(s[1..], f, g); }
  }

  lemma {:induction false} SumMap<S, T>(s: seq<S>, t: seq<T>, f: S -> nat, g: T -> nat)
    requires |s| == |t| && forall i :: 0 <= i < |s| ==> f(s[i]) == g(t[i])
    ensures Sum(s, f) == Sum(t, g)
  {
    if s != [] { SumMap(s[1..], t[1..], f, g); }
  }

  /** All elements of the parts that are chosen among the first `n`. */
  function Bag<T>(n: nat, part: nat -> seq<T>, chosen: set<nat>): multiset<T> {
    if n == 0 then multiset{} else
      Bag(n - 1, part, chosen) + if n - 1 in chosen then multiset(part(n - 1)) else multiset{}
  }

  lemma {:induction false} BagSkip<T>(n: nat, part: nat -> seq<T>, chosen: set<nat>, i: nat)
    requires n <= i
    ensures Bag(n, part, chosen + {i}) == Bag(n, part, chosen)
  {
    if n > 0 { BagSkip(n - 1, part, chosen, i); }
  }

  /** Choosing one more part adds its elements. */
  lemma {:induction false} BagChoose<T>(n: nat, part: nat -> seq<T>, chosen: set<nat>, i: nat)
    requires i < n && i !in chosen
    ensures Bag(n, part, chosen + {i}) == Bag(n, part, chosen) + multiset(part(i))
  {
    if n == i + 1 {
      BagSkip(i, part, chosen, i);
    } else {
      BagChoose(n - 1, part, chosen, i);
      BagSwap(Bag(n - 1, part, chosen), multiset(part(i)), if n - 1 in chosen then multiset(part(n - 1)) else multiset{});
    }
  }

  lemma BagSwap<T>(a: multiset<T>, b: multiset<T>, c: multiset<T>)
    ensures (a + b) + c == (a + c) + b
  {
  }
}
