/** Byte offsets into UTF-8 text (section 3 of RFC 3629).
    A string is the sequence of its scalar values; the byte offset of a character
    is the total width of the characters before it. */
module Utf8 {
  import opened Common

  function Width(c: char): (w: nat)
    ensures 1 <= w <= 4
  {
    if c as int < 0x80 then 1
    else if c as int < 0x800 then 2
    else if c as int < 0x1_0000 then 3
    else 4
  }

  // Byte offset of character `k`.
  function Off(s: string, k: nat): nat
    requires k <= |s|
  {
    if k == 0 then 0 else Off(s, k - 1) + Width(s[k - 1])
  }

  // `str::len`
  function Size(s: string): nat { Off(s, |s|) }

  // The last character position at or before byte `b`.
  function Index(s: string, b: nat): (k: nat)
    ensures k <= |s|
  {
    LastAt(s, b, |s|)
  }

  function LastAt(s: string, b: nat, k: nat): (r: nat)
    requires k <= |s|
    ensures r <= k
  {
    if k == 0 || Off(s, k) <= b then k else LastAt(s, b, k - 1)
  }

  // The greatest char boundary at or below `b`.
  function Floor(s: string, b: nat): nat { Off(s, Index(s, b)) }

  // `str::is_char_boundary`
  predicate Boundary(s: string, b: nat) { Floor(s, b) == b }

  // `&s[a..b]` for boundaries `a` and `b`
  function Slice(s: string, a: nat, b: nat): string {
    if Index(s, a) <= Index(s, b) then s[Index(s, a)..Index(s, b)] else ""
  }

  // ----- prefix sums

  lemma {:induction false} OffGrows(s: string, j: nat, k: nat)
    requires j <= k <= |s|
    ensures Off(s, j) + (k - j) <= Off(s, k)
  {
    if j < k { OffGrows(s, j, k - 1); }
  }

  lemma {:induction false} OffPrefix(s: string, t: string, k: nat)
    requires k <= |s| && k <= |t| && s[..k] == t[..k]
    ensures Off(s, k) == Off(t, k)
  {
    if k > 0 {
      assert s[..k - 1] == s[..k][..k - 1] == t[..k - 1];
      assert s[k - 1] == s[..k][k - 1] == t[k - 1];
      OffPrefix(s, t, k - 1);
    }
  }

  lemma {:induction false} OffDrop(s: string, i: nat, k: nat)
    requires i + k <= |s|
    ensures Off(s[i..], k) == Off(s, i + k) - Off(s, i)
  {
    if k > 0 { OffDrop(s, i, k - 1); }
  }

  lemma OffConcat(a: string, b: string, k: nat)
    requires k <= |b|
    ensures Off(a + b, |a|) == Size(a)
    ensures Off(a + b, |a| + k) == Size(a) + Off(b, k)
  {
    OffPrefix(a + b, a, |a|);
    OffDrop(a + b, |a|, k);
    assert (a + b)[|a|..] == b;
  }

  lemma SizeConcat(a: string, b: string)
    ensures Size(a + b) == Size(a) + Size(b)
  {
    OffConcat(a, b, |b|);
  }

  lemma SizeSlice(s: string, i: nat, j: nat)
    requires i <= j <= |s|
    ensures Size(s[i..j]) == Off(s, j) - Off(s, i)
  {
    OffPrefix(s[i..j], s[i..], j - i);
    assert s[i..][..j - i] == s[i..j];
    OffDrop(s, i, j - i);
  }

  // ----- flooring

  lemma {:induction false} LastAtBounds(s: string, b: nat, k: nat)
    requires k <= |s|
    ensures var r := LastAt(s, b, k); Off(s, r) <= b && (r < k ==> b < Off(s, r + 1))
  {
    if k > 0 && Off(s, k) > b { LastAtBounds(s, b, k - 1); }
  }

  lemma FloorBounds(s: string, b: nat)
    ensures Floor(s, b) <= b && Floor(s, b) <= Size(s)
    ensures Index(s, b) < |s| ==> b < Off(s, Index(s, b) + 1)
  {
    LastAtBounds(s, b, |s|);
    OffGrows(s, Index(s, b), |s|);
  }

  // `Index` inverts `Off`.
  lemma IndexOff(s: string, k: nat)
    requires k <= |s|
    ensures Index(s, Off(s, k)) == k && Boundary(s, Off(s, k))
  {
    var r := Index(s, Off(s, k));
    FloorBounds(s, Off(s, k));
    if r < k { OffGrows(s, r + 1, k); }
    if k < r { OffGrows(s, k, r); }
  }

  lemma IndexMonotone(s: string, a: nat, b: nat)
    requires a <= b
    ensures Index(s, a) <= Index(s, b) && Floor(s, a) <= Floor(s, b)
  {
    FloorBounds(s, a);
    FloorBounds(s, b);
    if Index(s, b) < Index(s, a) { OffGrows(s, Index(s, b) + 1, Index(s, a)); }
    OffGrows(s, Index(s, a), Index(s, b));
  }

  lemma FloorIsBoundary(s: string, b: nat)
    ensures Boundary(s, Floor(s, b)) && Floor(s, Floor(s, b)) == Floor(s, b)
  {
    IndexOff(s, Index(s, b));
  }

  lemma EndsAreBoundaries(s: string)
    ensures Boundary(s, 0) && Index(s, 0) == 0
    ensures Boundary(s, Size(s)) && Index(s, Size(s)) == |s|
  {
    IndexOff(s, 0);
    IndexOff(s, |s|);
  }

  // Distinct boundaries are distinct characters apart.
  lemma IndexStrict(s: string, a: nat, b: nat)
    requires Boundary(s, a) && Boundary(s, b) && a < b
    ensures Index(s, a) < Index(s, b)
  {
    IndexMonotone(s, a, b);
  }

  // Two texts with a common prefix of `p` characters agree on offsets inside it.
  lemma IndexInPrefix(s: string, t: string, p: nat, b: nat)
    requires p <= |s| && p <= |t| && s[..p] == t[..p]
    requires b <= Off(s, p) && Boundary(s, b)
    ensures Index(t, b) == Index(s, b) <= p && Boundary(t, b)
  {
    IndexOff(s, p);
    IndexMonotone(s, b, Off(s, p));
    var k := Index(s, b);
    assert s[..k] == s[..p][..k] == t[..k];
    OffPrefix(s, t, k);
    IndexOff(t, k);
  }

  lemma {:induction false} AsciiSize(s: string, k: nat)
    requires k <= |s| && forall i | 0 <= i < |s| :: s[i] as int < 0x80
    ensures Off(s, k) == k
  {
    if k > 0 { AsciiSize(s, k - 1); }
  }

  // The bounds of `FloorBounds` determine the position.
  lemma IndexUnique(s: string, b: nat, k: nat)
    requires k <= |s| && Off(s, k) <= b && (k < |s| ==> b < Off(s, k + 1))
    ensures Index(s, b) == k
  {
    var r := Index(s, b);
    FloorBounds(s, b);
    if r < k { OffGrows(s, r + 1, k); }
    if k < r { OffGrows(s, k + 1, r); }
  }

  lemma IndexConcat(a: string, x: string, b: nat)
    requires Size(a) <= b
    ensures Index(a + x, b) == |a| + Index(x, b - Size(a))
  {
    var k := Index(x, b - Size(a));
    FloorBounds(x, b - Size(a));
    OffConcat(a, x, k);
    if k < |x| { OffConcat(a, x, k + 1); }
    IndexUnique(a + x, b, |a| + k);
  }

  // A position that does not need the end of the text does not move when text is appended.
  lemma IndexStays(a: string, x: string, b: nat)
    requires b < Size(a)
    ensures Index(a, b) < |a| && Index(a + x, b) == Index(a, b) && Floor(a + x, b) == Floor(a, b)
  {
    var k := Index(a, b);
    FloorBounds(a, b);
    OffPrefix(a + x, a, k);
    if k < |a| { OffPrefix(a + x, a, k + 1); }
    IndexUnique(a + x, b, k);
  }

  // The loop that every caller writes: step down until a boundary is found.
  method FloorByStepping(text: string, offset: nat) returns (r: nat)
    ensures r == Floor(text, offset)
    ensures r <= offset && r <= Size(text) && Boundary(text, r)
    ensures forall b: nat | Boundary(text, b) && b <= offset :: b <= r
  {
    FloorBounds(text, offset);
    EndsAreBoundaries(text);
    r := Min(offset, Size(text));
    FloorOfMin(text, offset);
    while !Boundary(text, r)
      invariant r <= Min(offset, Size(text)) && Floor(text, r) == Floor(text, offset)
      decreases r
    {
      FloorBounds(text, r);
      FloorStep(text, r);
      r := r - 1;
    }
    forall b: nat | Boundary(text, b) && b <= offset ensures b <= r { IndexMonotone(text, b, offset); }
  }

  lemma FloorOfMin(s: string, b: nat)
    ensures Floor(s, Min(b, Size(s))) == Floor(s, b)
  {
    if Size(s) < b {
      IndexOff(s, |s|);
      IndexMonotone(s, Size(s), b);
    }
  }

  lemma FloorStep(s: string, b: nat)
    requires !Boundary(s, b) && 0 < b
    ensures Floor(s, b - 1) == Floor(s, b)
  {
    FloorBounds(s, b);
    FloorBounds(s, b - 1);
    IndexMonotone(s, b - 1, b);
    IndexOff(s, Index(s, b));
    IndexMonotone(s, Floor(s, b), b - 1);
  }
}
