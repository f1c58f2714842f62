/** Small vocabulary shared by the models of the individual source files. */
module Common {
  datatype Option<+T> = None | Some(value: T)

  datatype Result<+T, +E> = Ok(value: T) | Err(error: E)

  // A half-open byte range, `start..end` in the source.
  datatype Range = Range(start: nat, end: nat)

  datatype Ordering = Less | Equal | Greater {
    function Reverse(): Ordering {
      match this
      case Less => Greater
      case Equal => Equal
      case Greater => Less
    }

    // `Ordering::then`
    function Then(next: Ordering): Ordering {
      if this == Equal then next else this
    }
  }

  function CompareInt(a: int, b: int): Ordering {
    if a < b then Less else if a == b then Equal else Greater
  }

  function Min(a: nat, b: nat): nat { if a <= b then a else b }

  function Max(a: nat, b: nat): nat { if a <= b then b else a }

  function Pow10(n: nat): nat { if n == 0 then 1 else 10 * Pow10(n - 1) }

  lemma TakeNext<T>(s: seq<T>, i: nat)
    requires i < |s|
    ensures s[..i + 1] == s[..i] + [s[i]]
  {
  }

  // The positions of `s` whose element satisfies `p`.
  function Where<T>(s: seq<T>, p: T -> bool): set<nat> {
    set i: nat | i < |s| && p(s[i])
  }

  // Changing one element moves at most that position in or out.
  lemma WhereUpdate<T>(s: seq<T>, p: T -> bool, k: nat, x: T)
    requires k < |s|
    ensures |Where(s[k := x], p)| ==
            |Where(s, p)| - (if p(s[k]) then 1 else 0) + (if p(x) then 1 else 0)
  {
    var base := Where(s, p) - {k};
    assert Where(s, p) == if p(s[k]) then base + {k} else base;
    assert Where(s[k := x], p) == if p(x) then base + {k} else base;
  }

  lemma WhereAppend<T>(s: seq<T>, p: T -> bool, x: T)
    ensures |Where(s + [x], p)| == |Where(s, p)| + (if p(x) then 1 else 0)
  {
    assert Where(s + [x], p) == if p(x) then Where(s, p) + {|s|} else Where(s, p);
  }

  // If every element satisfies exactly one of two predicates, the counts add up.
  lemma {:induction false} WherePartition<T>(s: seq<T>, p: T -> bool, q: T -> bool)
    requires forall i: nat | i < |s| :: p(s[i]) != q(s[i])
    ensures |Where(s, p)| + |Where(s, q)| == |s|
  {
    if s == [] {
      assert Where(s, p) == {} && Where(s, q) == {};
    } else {
      var init, last := s[..|s| - 1], s[|s| - 1];
      assert s == init + [last];
      WherePartition(init, p, q);
      WhereAppend(init, p, last);
      WhereAppend(init, q, last);
    }
  }

  // Sum of a non-negative weight over a sequence.
  function Total<T>(s: seq<T>, weight: T -> nat): nat {
    if s == [] then 0 else Total(s[..|s| - 1], weight) + weight(s[|s| - 1])
  }

  lemma {:induction false} TotalUpdate<T>(s: seq<T>, weight: T -> nat, k: nat, x: T)
    requires k < |s|
    ensures Total(s[k := x], weight) + weight(s[k]) == Total(s, weight) + weight(x)
  {
    var last := |s| - 1;
    if k == last {
      assert s[k := x][..last] == s[..last];
    } else {
      assert s[k := x][..last] == s[..last][k := x];
      TotalUpdate(s[..last], weight, k, x);
    }
  }
}
