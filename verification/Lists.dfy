/** Taking items out of a list by their keys, and one fact about joining lists. */
module Lists {

  /** The list without the items of these keys, in the same order. */
  function Without<T, K(==)>(xs: seq<T>, key: T -> K, keys: set<K>): seq<T> {
    if xs == [] then []
    else (if key(xs[0]) in keys then [] else [xs[0]]) + Without(xs[1..], key, keys)
  }

  lemma {:induction false} WithoutTwice<T, K>(xs: seq<T>, key: T -> K, a: set<K>, b: set<K>)
    ensures Without(Without(xs, key, a), key, b) == Without(xs, key, a + b)
  {
    if xs != [] {
      WithoutTwice(xs[1..], key, a, b);
      var rest := Without(xs[1..], key, a);
      assert ([xs[0]] + rest)[1..] == rest && [] + rest == rest;
    }
  }

  lemma {:induction false} WithoutMember<T, K>(xs: seq<T>, key: T -> K, keys: set<K>, x: T)
    ensures x in Without(xs, key, keys) <==> x in xs && key(x) !in keys
  {
    if xs != [] {
      WithoutMember(xs[1..], key, keys, x);
      assert xs == [xs[0]] + xs[1..];
    }
  }

  lemma Snoc<T>(xs: seq<T>, ys: seq<T>, x: T)
    ensures xs + (ys + [x]) == xs + ys + [x]
  {
  }
}
