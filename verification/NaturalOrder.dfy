/** Human-friendly name ordering: digit runs by value, the rest by case-folded text. */
module NaturalOrder {
  import opened Common
  import opened Text

  // `char::to_lowercase`, as far as the ordering depends on it.
  ghost predicate Folding(lower: char -> string) {
    forall c :: if Digit(c) then lower(c) == [c] else lower(c) != [] && !Digit(lower(c)[0])
  }

  // Lexicographic order of scalar values, which is also the byte order of their UTF-8 form.
  function CompareText(l: string, r: string): Ordering {
    if l == [] && r == [] then Equal
    else if l == [] then Less
    else if r == [] then Greater
    else CompareInt(l[0] as int, r[0] as int).Then(CompareText(l[1..], r[1..]))
  }

  // Length of the leading digit run.
  function RunLength(s: string): (n: nat)
    ensures n <= |s|
  {
    if s == [] || !Digit(s[0]) then 0 else 1 + RunLength(s[1..])
  }

  // `trim_start_matches('0')`
  function TrimZeros(s: string): string {
    if s != [] && s[0] == '0' then TrimZeros(s[1..]) else s
  }

  // `compare_digit_runs`
  function CompareRuns(l: string, r: string): Ordering {
    CompareInt(|TrimZeros(l)|, |TrimZeros(r)|)
      .Then(CompareText(TrimZeros(l), TrimZeros(r)))
      .Then(CompareInt(|l|, |r|))
  }

  // The loop of `natural_compare`.
  function Folded(l: string, r: string, lower: char -> string): Ordering
    decreases |l|
  {
    if l == [] && r == [] then Equal
    else if l == [] then Less
    else if r == [] then Greater
    else if Digit(l[0]) && Digit(r[0]) then
      var n, m := RunLength(l), RunLength(r);
      CompareRuns(l[..n], r[..m]).Then(Folded(l[n..], r[m..], lower))
    else
      CompareText(lower(l[0]), lower(r[0])).Then(Folded(l[1..], r[1..], lower))
  }

  function Natural(l: string, r: string, lower: char -> string): Ordering {
    Folded(l, r, lower).Then(CompareText(l, r))
  }

  // `natural_compare`
  method NaturalCompare(left: string, right: string, lower: char -> string) returns (o: Ordering)
    ensures o == Natural(left, right, lower)
  {
    var l, r := left, right;
    while true
      invariant Folded(l, r, lower) == Folded(left, right, lower)
      decreases |l|
    {
      if l == [] && r == [] { break; }
      if l == [] { return Less; }
      if r == [] { return Greater; }
      if Digit(l[0]) && Digit(r[0]) {
        var n, m := RunLength(l), RunLength(r);
        var ordering := CompareRuns(l[..n], r[..m]);
        if ordering != Equal { return ordering; }
        l, r := l[n..], r[m..];
      } else {
        var ordering := CompareText(lower(l[0]), lower(r[0]));
        if ordering != Equal { return ordering; }
        l, r := l[1..], r[1..];
      }
    }
    return CompareText(left, right);
  }

  // ----- text comparison is a total order

  lemma {:induction false} TextEqual(l: string, r: string)
    ensures CompareText(l, r) == Equal <==> l == r
  {
    if l != [] && r != [] {
      TextEqual(l[1..], r[1..]);
      assert l == [l[0]] + l[1..] && r == [r[0]] + r[1..];
    }
  }

  lemma {:induction false} TextReverse(l: string, r: string)
    ensures CompareText(r, l) == CompareText(l, r).Reverse()
  {
    if l != [] && r != [] { TextReverse(l[1..], r[1..]); }
  }

  lemma {:induction false} TextTransitive(a: string, b: string, c: string)
    requires CompareText(a, b) != Greater && CompareText(b, c) != Greater
    ensures CompareText(a, c) != Greater
    ensures CompareText(a, c) == Equal ==> CompareText(a, b) == Equal && CompareText(b, c) == Equal
  {
    if a != [] && b != [] && c != [] {
      if a[0] == b[0] == c[0] { TextTransitive(a[1..], b[1..], c[1..]); }
    }
  }

  // ----- digit runs compare by value, then by padding

  ghost predicate AllDigits(s: string) { forall i | 0 <= i < |s| :: Digit(s[i]) }

  function DigitValue(c: char): nat
    requires Digit(c)
  {
    c as int - '0' as int
  }

  function Value(s: string): nat
    requires AllDigits(s)
  {
    if s == [] then 0 else DigitValue(s[0]) * Pow10(|s| - 1) + Value(s[1..])
  }

  lemma {:induction false} ValueBound(s: string)
    requires AllDigits(s)
    ensures Value(s) < Pow10(|s|)
    ensures s != [] && s[0] != '0' ==> Pow10(|s| - 1) <= Value(s)
  {
    if s != [] {
      ValueBound(s[1..]);
      Multiples(DigitValue(s[0]), 9, Pow10(|s| - 1));
      if s[0] != '0' { Multiples(1, DigitValue(s[0]), Pow10(|s| - 1)); }
    }
  }

  lemma Multiples(a: nat, b: nat, p: nat)
    requires a <= b
    ensures a * p <= b * p
  {
  }

  lemma {:induction false} Pow10Grows(m: nat, n: nat)
    requires m <= n
    ensures Pow10(m) <= Pow10(n)
  {
    if m < n { Pow10Grows(m, n - 1); }
  }

  lemma {:induction false} TrimKeepsValue(s: string)
    requires AllDigits(s)
    ensures AllDigits(TrimZeros(s)) && |TrimZeros(s)| <= |s| && Value(TrimZeros(s)) == Value(s)
    ensures TrimZeros(s) != [] ==> TrimZeros(s)[0] != '0'
  {
    if s != [] && s[0] == '0' { TrimKeepsValue(s[1..]); }
  }

  lemma LeadingDigitDecides(a: nat, b: nat, p: nat, x: nat, y: nat)
    requires x < p && y < p
    ensures CompareInt(a * p + x, b * p + y) == CompareInt(a, b).Then(CompareInt(x, y))
  {
    if a < b { Multiples(a + 1, b, p); assert (a + 1) * p == a * p + p; }
    if b < a { Multiples(b + 1, a, p); assert (b + 1) * p == b * p + p; }
  }

  lemma {:induction false} EqualLengthByValue(l: string, r: string)
    requires AllDigits(l) && AllDigits(r) && |l| == |r|
    ensures CompareText(l, r) == CompareInt(Value(l), Value(r))
  {
    if l != [] {
      EqualLengthByValue(l[1..], r[1..]);
      ValueBound(l[1..]);
      ValueBound(r[1..]);
      LeadingDigitDecides(DigitValue(l[0]), DigitValue(r[0]), Pow10(|l| - 1), Value(l[1..]), Value(r[1..]));
    }
  }

  lemma ShorterIsSmaller(l: string, r: string)
    requires AllDigits(l) && AllDigits(r) && |l| < |r| && r[0] != '0'
    ensures Value(l) < Value(r)
  {
    ValueBound(l);
    ValueBound(r);
    Pow10Grows(|l|, |r| - 1);
  }

  // No parsing, no overflow, yet numeric order; equal numbers differ only in padding.
  lemma RunsCompareByValue(l: string, r: string)
    requires AllDigits(l) && AllDigits(r)
    ensures CompareRuns(l, r) == CompareInt(Value(l), Value(r)).Then(CompareInt(|l|, |r|))
  {
    var a, b := TrimZeros(l), TrimZeros(r);
    TrimKeepsValue(l);
    TrimKeepsValue(r);
    if |a| < |b| { ShorterIsSmaller(a, b); }
    else if |b| < |a| { ShorterIsSmaller(b, a); }
    else { EqualLengthByValue(a, b); }
  }

  // ----- names as token sequences

  datatype Token = Number(run: string) | Letter(folded: string)

  function First(s: string, lower: char -> string): Token
    requires s != []
  {
    if Digit(s[0]) then Number(s[..RunLength(s)]) else Letter(lower(s[0]))
  }

  function Rest(s: string): (t: string)
    requires s != []
    ensures |t| < |s|
  {
    if Digit(s[0]) then s[RunLength(s)..] else s[1..]
  }

  ghost predicate Proper(t: Token) {
    match t
    case Number(run) => run != [] && AllDigits(run)
    case Letter(folded) => folded != [] && !Digit(folded[0])
  }

  function CompareTokens(l: Token, r: Token): Ordering
    requires l.Number? ==> l.run != []
    requires r.Number? ==> r.run != []
  {
    if l.Number? && r.Number? then CompareRuns(l.run, r.run)
    else CompareText(if l.Number? then [l.run[0]] else l.folded, if r.Number? then [r.run[0]] else r.folded)
  }

  lemma {:induction false} RunIsDigits(s: string)
    ensures AllDigits(s[..RunLength(s)])
    ensures RunLength(s) < |s| ==> !Digit(s[RunLength(s)])
  {
    if s != [] && Digit(s[0]) { RunIsDigits(s[1..]); }
  }

  lemma FirstIsProper(s: string, lower: char -> string)
    requires Folding(lower) && s != []
    ensures Proper(First(s, lower))
  {
    RunIsDigits(s);
  }

  // A digit never ties with a letter.
  lemma MixedTokensDiffer(l: Token, r: Token)
    requires Proper(l) && Proper(r) && l.Number? != r.Number?
    ensures CompareTokens(l, r) != Equal
    ensures CompareTokens(l, r) == if l.Number? then CompareInt('9' as int, r.folded[0] as int)
                                   else CompareInt(l.folded[0] as int, '0' as int)
  {
  }

  lemma TokensReverse(l: Token, r: Token)
    requires Proper(l) && Proper(r)
    ensures CompareTokens(r, l) == CompareTokens(l, r).Reverse()
  {
    if l.Number? && r.Number? {
      RunsCompareByValue(l.run, r.run);
      RunsCompareByValue(r.run, l.run);
    } else {
      TextReverse(if l.Number? then [l.run[0]] else l.folded, if r.Number? then [r.run[0]] else r.folded);
    }
  }

  lemma TokensTransitive(a: Token, b: Token, c: Token)
    requires Proper(a) && Proper(b) && Proper(c)
    requires CompareTokens(a, b) != Greater && CompareTokens(b, c) != Greater
    ensures CompareTokens(a, c) != Greater
    ensures CompareTokens(a, c) == Equal ==> CompareTokens(a, b) == Equal && CompareTokens(b, c) == Equal
    ensures CompareTokens(a, b) == Equal && CompareTokens(b, c) == Equal ==> CompareTokens(a, c) == Equal
  {
    if a.Number? && b.Number? && c.Number? {
      RunsCompareByValue(a.run, b.run);
      RunsCompareByValue(b.run, c.run);
      RunsCompareByValue(a.run, c.run);
    } else if a.Letter? && b.Letter? && c.Letter? {
      TextTransitive(a.folded, b.folded, c.folded);
      TextEqual(a.folded, b.folded);
      TextEqual(b.folded, c.folded);
      TextEqual(a.folded, c.folded);
    } else {
      if a.Number? != b.Number? { MixedTokensDiffer(a, b); }
      if b.Number? != c.Number? { MixedTokensDiffer(b, c); }
      if a.Number? != c.Number? { MixedTokensDiffer(a, c); }
    }
  }

  // The loop compares tokens one after the other.
  lemma FoldedStep(l: string, r: string, lower: char -> string)
    requires Folding(lower) && l != [] && r != []
    ensures Proper(First(l, lower)) && Proper(First(r, lower))
    ensures Folded(l, r, lower) ==
            CompareTokens(First(l, lower), First(r, lower)).Then(Folded(Rest(l), Rest(r), lower))
  {
    FirstIsProper(l, lower);
    FirstIsProper(r, lower);
    if Digit(l[0]) != Digit(r[0]) { MixedTokensDiffer(First(l, lower), First(r, lower)); }
  }

  // ----- the total order

  lemma {:induction false} FoldedReverse(l: string, r: string, lower: char -> string)
    requires Folding(lower)
    ensures Folded(r, l, lower) == Folded(l, r, lower).Reverse()
    decreases |l|
  {
    if l != [] && r != [] {
      FoldedStep(l, r, lower);
      FoldedStep(r, l, lower);
      TokensReverse(First(l, lower), First(r, lower));
      FoldedReverse(Rest(l), Rest(r), lower);
    }
  }

  lemma {:induction false} FoldedTransitive(a: string, b: string, c: string, lower: char -> string)
    requires Folding(lower)
    requires Folded(a, b, lower) != Greater && Folded(b, c, lower) != Greater
    ensures Folded(a, c, lower) != Greater
    ensures Folded(a, c, lower) == Equal ==> Folded(a, b, lower) == Equal && Folded(b, c, lower) == Equal
    decreases |a|
  {
    if a != [] && b != [] && c != [] {
      FoldedStep(a, b, lower);
      FoldedStep(b, c, lower);
      FoldedStep(a, c, lower);
      TokensTransitive(First(a, lower), First(b, lower), First(c, lower));
      if CompareTokens(First(a, lower), First(c, lower)) == Equal {
        FoldedTransitive(Rest(a), Rest(b), Rest(c), lower);
      }
    }
  }

  lemma {:induction false} FoldedReflexive(s: string, lower: char -> string)
    requires Folding(lower)
    ensures Folded(s, s, lower) == Equal
    decreases |s|
  {
    FoldedReverse(s, s, lower);
  }

  // Equal only for identical names.
  lemma NaturalEqual(l: string, r: string, lower: char -> string)
    requires Folding(lower)
    ensures Natural(l, r, lower) == Equal <==> l == r
  {
    TextEqual(l, r);
    FoldedReflexive(l, lower);
  }

  lemma NaturalAntisymmetric(l: string, r: string, lower: char -> string)
    requires Folding(lower)
    ensures Natural(r, l, lower) == Natural(l, r, lower).Reverse()
  {
    FoldedReverse(l, r, lower);
    TextReverse(l, r);
  }

  lemma NaturalTransitive(a: string, b: string, c: string, lower: char -> string)
    requires Folding(lower)
    requires Natural(a, b, lower) == Less && Natural(b, c, lower) == Less
    ensures Natural(a, c, lower) == Less
  {
    FoldedTransitive(a, b, c, lower);
    if Folded(a, c, lower) == Equal {
      TextTransitive(a, b, c);
    }
  }

  // ----- what a reader sees

  lemma {:induction false} SharedPrefix(p: string, l: string, r: string, lower: char -> string)
    requires Folding(lower)
    requires p == [] || !Digit(p[|p| - 1])
    ensures Folded(p + l, p + r, lower) == Folded(l, r, lower)
    decreases |p|
  {
    if p == [] {
      assert p + l == l && p + r == r;
    } else {
      FoldedStep(p + l, p + r, lower);
      PrefixToken(p, l, lower);
      PrefixToken(p, r, lower);
      TokensReverse(First(p, lower), First(p, lower));
      SharedPrefix(Rest(p), l, r, lower);
    }
  }

  lemma PrefixToken(p: string, s: string, lower: char -> string)
    requires p != [] && !Digit(p[|p| - 1])
    ensures First(p + s, lower) == First(p, lower) && Rest(p + s) == Rest(p) + s
    ensures Rest(p) == [] || Rest(p)[|Rest(p)| - 1] == p[|p| - 1]
  {
    RunInPrefix(p, s);
    var n := if Digit(p[0]) then RunLength(p) else 1;
    assert (p + s)[n..] == p[n..] + s && (p + s)[..n] == p[..n];
  }

  // A run that ends inside the prefix is not affected by what follows.
  lemma {:induction false} RunInPrefix(p: string, s: string)
    requires p != [] && !Digit(p[|p| - 1])
    ensures RunLength(p + s) == RunLength(p) < |p|
  {
    if Digit(p[0]) {
      assert (p + s)[1..] == p[1..] + s;
      RunInPrefix(p[1..], s);
    }
  }

  lemma {:induction false} RunThenOther(u: string, s: string)
    requires AllDigits(u) && (s == [] || !Digit(s[0]))
    ensures RunLength(u + s) == |u|
  {
    if u == [] {
      assert u + s == s;
    } else {
      assert (u + s)[1..] == u[1..] + s;
      RunThenOther(u[1..], s);
    }
  }

  // `host-9.local` sorts before `host-10.local`, for every prefix, number and suffix.
  lemma NumbersSortByValue(p: string, u: string, s: string, v: string, t: string, lower: char -> string)
    requires Folding(lower)
    requires p == [] || !Digit(p[|p| - 1])
    requires u != [] && v != [] && AllDigits(u) && AllDigits(v) && Value(u) < Value(v)
    requires (s == [] || !Digit(s[0])) && (t == [] || !Digit(t[0]))
    ensures Natural(p + (u + s), p + (v + t), lower) == Less
  {
    SharedPrefix(p, u + s, v + t, lower);
    FoldedStep(u + s, v + t, lower);
    RunThenOther(u, s);
    RunThenOther(v, t);
    assert (u + s)[..|u|] == u && (v + t)[..|v|] == v;
    RunsCompareByValue(u, v);
  }

  // ----- letter case

  // The same name up to letter case.
  ghost predicate Alike(a: string, b: string, lower: char -> string) {
    |a| == |b| && forall i | 0 <= i < |a| :: lower(a[i]) == lower(b[i])
  }

  lemma {:induction false} AlikeRuns(a: string, b: string, lower: char -> string)
    requires Folding(lower) && Alike(a, b, lower)
    ensures RunLength(a) == RunLength(b) && a[..RunLength(a)] == b[..RunLength(b)]
  {
    if a != [] {
      assert lower(a[0]) == lower(b[0]);
      if Digit(a[0]) {
        AlikeRuns(a[1..], b[1..], lower);
        assert a[..RunLength(a)] == [a[0]] + a[1..][..RunLength(a[1..])];
        assert b[..RunLength(b)] == [b[0]] + b[1..][..RunLength(b[1..])];
      }
    }
  }

  lemma AlikeTokens(a: string, b: string, lower: char -> string)
    requires Folding(lower) && Alike(a, b, lower) && a != []
    ensures First(a, lower) == First(b, lower) && Alike(Rest(a), Rest(b), lower)
  {
    assert lower(a[0]) == lower(b[0]);
    AlikeRuns(a, b, lower);
  }

  // Letter case plays no part in the folded comparison ...
  lemma {:induction false} FoldedIgnoresCase(a: string, b: string, r: string, lower: char -> string)
    requires Folding(lower) && Alike(a, b, lower)
    ensures Folded(a, r, lower) == Folded(b, r, lower)
    decreases |a|
  {
    if a != [] && r != [] {
      AlikeTokens(a, b, lower);
      FoldedStep(a, r, lower);
      FoldedStep(b, r, lower);
      FoldedIgnoresCase(Rest(a), Rest(b), Rest(r), lower);
    }
  }

  // ... so it decides between two names only when they are the same up to case; and a name compared
  // with another spelling of itself is ordered by the raw characters.
  lemma CaseOnlyBreaksTies(a: string, b: string, r: string, lower: char -> string)
    requires Folding(lower) && Alike(a, b, lower)
    ensures Folded(a, r, lower) != Equal ==> Natural(a, r, lower) == Natural(b, r, lower)
    ensures Natural(a, b, lower) == CompareText(a, b)
  {
    FoldedIgnoresCase(a, b, r, lower);
    FoldedIgnoresCase(a, b, b, lower);
    FoldedReflexive(b, lower);
  }

  // After a common prefix, two characters that are not both digits are compared by their lower case.
  lemma LettersSortByFolding(p: string, a: char, s: string, b: char, t: string, lower: char -> string)
    requires Folding(lower) && (p == [] || !Digit(p[|p| - 1]))
    requires !(Digit(a) && Digit(b)) && lower(a) != lower(b)
    ensures Natural(p + ([a] + s), p + ([b] + t), lower) == CompareText(lower(a), lower(b))
  {
    SharedPrefix(p, [a] + s, [b] + t, lower);
    TextEqual(lower(a), lower(b));
  }

  // A proper prefix sorts first.
  lemma PrefixSortsFirst(p: string, s: string, lower: char -> string)
    requires Folding(lower) && s != [] && (p == [] || !Digit(p[|p| - 1]))
    ensures Natural(p, p + s, lower) == Less
  {
    SharedPrefix(p, [], s, lower);
    assert p + [] == p;
  }
}
