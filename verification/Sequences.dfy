/** Facts about sequences that several components share. */
module Sequences {

  function Flatten<T>(parts: seq<seq<T>>): (s: seq<T>) {
    if parts == [] then [] else Flatten(parts[..|parts| - 1]) + parts[|parts| - 1]
  }

  lemma FlattenPush<T>(parts: seq<seq<T>>, part: seq<T>)
    ensures Flatten(parts + [part]) == Flatten(parts) + part
  {
    assert (parts + [part])[..|parts|] == parts;
  }

  lemma {:induction false} FlattenConcat<T>(a: seq<seq<T>>, b: seq<seq<T>>)
    ensures Flatten(a + b) == Flatten(a) + Flatten(b)
  {
    if b == [] {
      assert a + b == a;
    } else {
      var front, last := b[..|b| - 1], b[|b| - 1];
      FlattenConcat(a, front);
      FlattenPush(a + front, last);
      assert a + b == a + front + [last];
      Associative(Flatten(a), Flatten(front), last);
    }
  }

  lemma Associative<T>(a: seq<T>, b: seq<T>, c: seq<T>)
    ensures a + b + c == a + (b + c)
  {
  }
}

/** Rearranging sums of multisets. */
module Multisets {

  lemma CancelSame<T>(a: multiset<T>, b: multiset<T>, rest: multiset<T>)
    requires a + rest == b + rest
    ensures a == b
  {
    assert a == a + rest - rest;
  }

  lemma Cancel<T>(before: multiset<T>, after: multiset<T>, rest: multiset<T>, left: multiset<T>, gone: multiset<T>)
    requires after + rest == before + left && rest == left + gone
    ensures before == after + gone
  {
    forall x ensures before[x] == (after + gone)[x] {
      assert (after + rest)[x] == (before + left)[x];
    }
  }

  lemma Associate<T>(a: multiset<T>, b: multiset<T>, c: multiset<T>)
    ensures a + (b + c) == a + b + c
  {
  }

  lemma MoveIntoThird<T>(a: multiset<T>, b: multiset<T>, c: multiset<T>)
    ensures a + b + c == a + multiset{} + (c + b)
  {
  }

  lemma FirstToLast<T>(a: multiset<T>, b: multiset<T>, c: multiset<T>, d: multiset<T>)
    ensures a + b + c + d == a + c + d + b
  {
  }

  lemma SecondToLast<T>(a: multiset<T>, b: multiset<T>, c: multiset<T>, d: multiset<T>)
    ensures a + (b + c) + d == a + b + d + c
  {
  }

  lemma TakeOut<T>(before: multiset<T>, after: multiset<T>, x: T)
    requires before == after + multiset{x}
    ensures x in before && after == before - multiset{x}
  {
  }
}
