/** Visiting a set or the keys of a map in some order: what a hash map's iteration
    promises, and no more. */
module Orders {

  /** order lists each element of s exactly once. */
  ghost predicate Enumerates<T(!new)>(order: seq<T>, s: set<T>) {
    && (forall x :: x in order <==> x in s)
    && (forall i, j :: 0 <= i < j < |order| ==> order[i] != order[j])
  }

  /** One more element, new to the list. */
  lemma EnumeratesMore<T(!new)>(order: seq<T>, s: set<T>, x: T)
    requires Enumerates(order, s) && x !in s
    ensures Enumerates(order + [x], s + {x})
  {
    var next := order + [x];
    forall a, b | 0 <= a < b < |next|
      ensures next[a] != next[b]
    {
      if b < |order| {
        assert order[a] != order[b];
      } else {
        assert next[a] in order;
      }
    }
    forall y
      ensures y in next <==> y in s + {x}
    {
      assert y in next <==> y in order || y == x;
    }
  }

  lemma NotVisited<T(!new)>(order: seq<T>, s: set<T>, i: nat)
    requires Enumerates(order, s) && i < |order|
    ensures order[i] in s && order[i] !in order[..i]
  {
    assert order[i] in order;
  }
}
