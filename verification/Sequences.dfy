/** Bytes, chunks of bytes, and facts about sequences that several modules use. */
module Sequences {
  /** Bytes are only moved, never looked at: a byte stands for the place it comes from. */
  type byte = int

  function Concat(chunks: seq<seq<byte>>): seq<byte> {
    if chunks == [] then [] else chunks[0] + Concat(chunks[1..])
  }

  predicate NoEmptyChunk(chunks: seq<seq<byte>>) { forall i :: 0 <= i < |chunks| ==> chunks[i] != [] }

  lemma {:induction false} ConcatCat(a: seq<seq<byte>>, b: seq<seq<byte>>)
    ensures Concat(a + b) == Concat(a) + Concat(b)
  {
    if a == [] {
      assert a + b == b;
    } else {
      assert (a + b)[1..] == a[1..] + b;
      ConcatCat(a[1..], b);
      CatAssoc(a[0], Concat(a[1..]), Concat(b));
    }
  }

  lemma ConcatSnoc(a: seq<seq<byte>>, x: seq<byte>)
    ensures Concat(a + [x]) == Concat(a) + x
  {
    ConcatCat(a, [x]);
    assert Concat([x]) == x + Concat([]) == x;
  }

  lemma CatAssoc<T>(a: seq<T>, b: seq<T>, c: seq<T>)
    ensures a + b + c == a + (b + c)
  {
  }

  lemma SliceOfSlice<T>(s: seq<T>, from: nat, to: nat, a: nat, b: nat)
    requires from <= to <= |s| && a <= b <= to - from
    ensures s[from..to][a..b] == s[from + a..from + b]
  {
    var t, u := s[from..to][a..b], s[from + a..from + b];
    assert forall i :: 0 <= i < |t| ==> t[i] == s[from..to][a + i] == u[i];
  }
}
