/** `slice::sort_by_key` with a pair key: sorted, a permutation, and stable.
    `Unique` shows that these facts determine the result, so the choice of
    algorithm here is immaterial. */
module StableSort {
  type Key = (int, int)

  predicate Leq(a: Key, b: Key) { a.0 < b.0 || (a.0 == b.0 && a.1 <= b.1) }

  // `x` comes from before every element of `s`, so it goes in front of equal keys.
  function Insert<T>(x: T, s: seq<T>, key: T -> Key): seq<T> {
    if s == [] || Leq(key(x), key(s[0])) then [x] + s
    else [s[0]] + Insert(x, s[1..], key)
  }

  function Sort<T>(s: seq<T>, key: T -> Key): seq<T> {
    if s == [] then [] else Insert(s[0], Sort(s[1..], key), key)
  }

  ghost predicate Sorted<T>(s: seq<T>, key: T -> Key) {
    forall i, j | 0 <= i < j < |s| :: Leq(key(s[i]), key(s[j]))
  }

  // The elements with key `k`, in order.
  function Class<T>(s: seq<T>, key: T -> Key, k: Key): seq<T> {
    if s == [] then []
    else (if key(s[0]) == k then [s[0]] else []) + Class(s[1..], key, k)
  }

  lemma {:induction false} InsertMembers<T>(x: T, s: seq<T>, key: T -> Key)
    ensures |Insert(x, s, key)| == |s| + 1
    ensures multiset(Insert(x, s, key)) == multiset{x} + multiset(s)
  {
    if s != [] && !Leq(key(x), key(s[0])) {
      InsertMembers(x, s[1..], key);
      assert s == [s[0]] + s[1..];
    }
  }

  lemma InsertMember<T>(x: T, s: seq<T>, key: T -> Key, y: T)
    ensures y in Insert(x, s, key) <==> y == x || y in s
  {
    InsertMembers(x, s, key);
    assert y in Insert(x, s, key) <==> y in multiset(Insert(x, s, key));
    assert y in s <==> y in multiset(s);
  }

  lemma {:induction false} InsertSorted<T>(x: T, s: seq<T>, key: T -> Key)
    requires Sorted(s, key)
    ensures Sorted(Insert(x, s, key), key)
  {
    if s != [] && !Leq(key(x), key(s[0])) {
      var rest := Insert(x, s[1..], key);
      InsertSorted(x, s[1..], key);
      forall i | 0 <= i < |rest| ensures Leq(key(s[0]), key(rest[i])) {
        InsertMember(x, s[1..], key, rest[i]);
      }
    }
  }

  lemma {:induction false} SortSpec<T>(s: seq<T>, key: T -> Key)
    ensures |Sort(s, key)| == |s| && multiset(Sort(s, key)) == multiset(s) && Sorted(Sort(s, key), key)
  {
    if s != [] {
      SortSpec(s[1..], key);
      InsertMembers(s[0], Sort(s[1..], key), key);
      InsertSorted(s[0], Sort(s[1..], key), key);
      assert s == [s[0]] + s[1..];
    }
  }

  lemma SortSize<T>(s: seq<T>, key: T -> Key)
    ensures |Sort(s, key)| == |s|
  {
    SortSpec(s, key);
  }

  lemma {:induction false} InsertClass<T>(x: T, s: seq<T>, key: T -> Key, k: Key)
    requires Sorted(s, key)
    ensures Class(Insert(x, s, key), key, k) == Class([x] + s, key, k)
  {
    if s == [] || Leq(key(x), key(s[0])) {
    } else {
      InsertClass(x, s[1..], key, k);
      assert ([s[0]] + Insert(x, s[1..], key))[1..] == Insert(x, s[1..], key);
      assert ([x] + s)[1..] == s && ([x] + s[1..])[1..] == s[1..];
      if key(x) == k && key(s[0]) == k { assert false; }
    }
  }

  // Stability: elements with equal keys keep their order.
  lemma {:induction false} SortIsStable<T>(s: seq<T>, key: T -> Key, k: Key)
    ensures Class(Sort(s, key), key, k) == Class(s, key, k)
  {
    if s != [] {
      SortSpec(s[1..], key);
      SortIsStable(s[1..], key, k);
      InsertClass(s[0], Sort(s[1..], key), key, k);
      assert ([s[0]] + Sort(s[1..], key))[1..] == Sort(s[1..], key);
    }
  }

  lemma {:induction false} ClassHead<T>(s: seq<T>, key: T -> Key, k: Key)
    ensures Class(s, key, k) != [] ==> Class(s, key, k)[0] in s && key(Class(s, key, k)[0]) == k
  {
    if s != [] { ClassHead(s[1..], key, k); }
  }

  lemma Inhabited<T>(a: seq<T>, key: T -> Key, b: seq<T>)
    requires a != [] && forall k :: Class(a, key, k) == Class(b, key, k)
    ensures b != []
  {
    assert Class(b, key, key(a[0])) == Class(a, key, key(a[0])) != [];
  }

  // A sorted sequence is determined by its classes.
  lemma {:induction false} Unique<T(!new)>(a: seq<T>, b: seq<T>, key: T -> Key)
    requires Sorted(a, key) && Sorted(b, key)
    requires forall k :: Class(a, key, k) == Class(b, key, k)
    ensures a == b
  {
    if b == [] && a != [] {
      Inhabited(a, key, b);
    } else if a == [] && b != [] {
      Inhabited(b, key, a);
    } else if a != [] {
      FirstsAgree(a, b, key);
      FirstsAgree(b, a, key);
      var k0 := key(a[0]);
      assert key(b[0]) == k0;
      assert Class(a, key, k0)[0] == a[0] && Class(b, key, k0)[0] == b[0];
      assert a[0] == b[0];
      forall k ensures Class(a[1..], key, k) == Class(b[1..], key, k) {
        assert Class(a, key, k) == Class(b, key, k);
        var head := if k == k0 then [a[0]] else [];
        assert Class(a, key, k) == head + Class(a[1..], key, k);
        assert Class(b, key, k) == head + Class(b[1..], key, k);
        assert Class(a, key, k)[|head|..] == Class(a[1..], key, k);
        assert Class(b, key, k)[|head|..] == Class(b[1..], key, k);
      }
      Unique(a[1..], b[1..], key);
    }
  }

  lemma FirstsAgree<T>(a: seq<T>, b: seq<T>, key: T -> Key)
    requires a != [] && b != [] && Sorted(b, key)
    requires forall k :: Class(a, key, k) == Class(b, key, k)
    ensures Leq(key(b[0]), key(a[0]))
  {
    var k := key(a[0]);
    assert Class(b, key, k) == Class(a, key, k) != [];
    ClassHead(b, key, k);
    var y := Class(b, key, k)[0];
    var i :| 0 <= i < |b| && b[i] == y;
  }

  // The least key of a permutation is the least key.
  lemma LeastOfPermutation<T>(a: seq<T>, b: seq<T>, key: T -> Key)
    requires a != [] && Sorted(b, key) && multiset(a) == multiset(b)
    ensures b != [] && Leq(key(b[0]), key(a[0]))
  {
    assert a[0] in multiset(b);
    var i :| 0 <= i < |b| && b[i] == a[0];
  }

  lemma TailOfPermutation<T>(a: seq<T>, b: seq<T>)
    requires a != [] && b != [] && a[0] == b[0] && multiset(a) == multiset(b)
    ensures multiset(a[1..]) == multiset(b[1..]) <= multiset(a)
  {
    assert a == [a[0]] + a[1..] && b == [b[0]] + b[1..];
    assert multiset(a) == multiset{a[0]} + multiset(a[1..]);
    assert multiset(b) == multiset{b[0]} + multiset(b[1..]);
    assert multiset(a[1..]) == multiset(a) - multiset{a[0]};
    assert multiset(b[1..]) == multiset(b) - multiset{b[0]};
  }

  ghost predicate KeyIdentifies<T>(all: multiset<T>, key: T -> Key) {
    forall x, y | x in all && y in all :: key(x) == key(y) ==> x == y
  }

  // When the key identifies the element, only the multiset matters.
  lemma {:induction false} SortedPermutationsAgree<T>(a: seq<T>, b: seq<T>, key: T -> Key)
    requires Sorted(a, key) && Sorted(b, key) && multiset(a) == multiset(b)
    requires KeyIdentifies(multiset(a), key)
    ensures a == b
  {
    if a == [] {
      if b != [] { LeastOfPermutation(b, a, key); }
    } else {
      LeastOfPermutation(a, b, key);
      LeastOfPermutation(b, a, key);
      assert a[0] in multiset(a) && b[0] in multiset(b);
      assert a[0] == b[0];
      TailOfPermutation(a, b);
      SortedPermutationsAgree(a[1..], b[1..], key);
    }
  }

  lemma {:induction false} SortOfSorted<T>(s: seq<T>, key: T -> Key)
    requires Sorted(s, key)
    ensures Sort(s, key) == s
  {
    if s != [] {
      SortOfSorted(s[1..], key);
      if |s| > 1 { assert Leq(key(s[0]), key(s[1])); }
    }
  }

  // A symmetric relation between all pairs does not depend on their order.
  predicate Pairwise<T(==)>(s: seq<T>, rel: (T, T) -> bool) {
    s == [] || (RelatedTo(s[0], s[1..], rel) && Pairwise(s[1..], rel))
  }

  predicate RelatedTo<T(==)>(x: T, s: seq<T>, rel: (T, T) -> bool) {
    forall y | y in s :: rel(x, y)
  }

  lemma RelatedToInsert<T>(z: T, x: T, s: seq<T>, key: T -> Key, rel: (T, T) -> bool)
    ensures RelatedTo(z, Insert(x, s, key), rel) <==> rel(z, x) && RelatedTo(z, s, rel)
  {
    var all := Insert(x, s, key);
    InsertMember(x, s, key, x);
    forall y ensures y in all <==> y == x || y in s { InsertMember(x, s, key, y); }
  }

  lemma {:induction false} InsertPairwise<T(!new)>(x: T, s: seq<T>, key: T -> Key, rel: (T, T) -> bool)
    requires forall a, b :: rel(a, b) == rel(b, a)
    ensures Pairwise(Insert(x, s, key), rel) <==> RelatedTo(x, s, rel) && Pairwise(s, rel)
  {
    if s == [] || Leq(key(x), key(s[0])) {
      assert ([x] + s)[1..] == s;
    } else {
      InsertPairwise(x, s[1..], key, rel);
      RelatedToInsert(s[0], x, s[1..], key, rel);
      RelatedToCons(x, s, rel);
      assert Insert(x, s, key)[1..] == Insert(x, s[1..], key);
    }
  }

  lemma RelatedToCons<T>(x: T, s: seq<T>, rel: (T, T) -> bool)
    requires s != []
    ensures RelatedTo(x, s, rel) <==> rel(x, s[0]) && RelatedTo(x, s[1..], rel)
  {
    assert forall y :: y in s <==> y == s[0] || y in s[1..];
  }

  lemma {:induction false} SortPairwise<T(!new)>(s: seq<T>, key: T -> Key, rel: (T, T) -> bool)
    requires forall a, b :: rel(a, b) == rel(b, a)
    ensures Pairwise(Sort(s, key), rel) <==> Pairwise(s, rel)
  {
    if s != [] {
      SortPairwise(s[1..], key, rel);
      InsertPairwise(s[0], Sort(s[1..], key), key, rel);
      SortMembers(s[1..], key);
    }
  }

  lemma SortMembers<T>(s: seq<T>, key: T -> Key)
    ensures forall y :: y in Sort(s, key) <==> y in s
  {
    SortSpec(s, key);
    assert forall y :: y in s <==> y in multiset(s);
    assert forall y :: y in Sort(s, key) <==> y in multiset(Sort(s, key));
  }
}
