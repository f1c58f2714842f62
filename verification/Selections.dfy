/** Selection normalisation and rectangle selections over byte ranges. */
module Selections {
  import opened Common
  import opened Utf8
  import opened StableSort

  predicate WellFormed(content: string, r: Range) {
    r.start <= r.end && Boundary(content, r.start) && Boundary(content, r.end)
  }

  function RangeKey(r: Range): Key { (r.start, r.end) }

  // ----- normalisation

  // Swap a reversed range and move both ends down to char boundaries.
  function Snap(content: string, r: Range): Range {
    Range(Floor(content, Min(r.start, r.end)), Floor(content, Max(r.end, r.start)))
  }

  function SnapAll(content: string, ranges: seq<Range>): seq<Range> {
    seq(|ranges|, i requires 0 <= i < |ranges| => Snap(content, ranges[i]))
  }

  predicate Empty(r: Range) { r.end <= r.start }

  // Overlap, equality, or a caret on the right edge.
  predicate Absorbs(last: Range, next: Range) {
    next.start < last.end || next == last || (Empty(next) && next.start == last.end)
  }

  function Join(last: Range, next: Range): Range { Range(last.start, Max(last.end, next.end)) }

  function Add(acc: seq<Range>, next: Range): seq<Range> {
    if acc != [] && Absorbs(acc[|acc| - 1], next)
    then acc[..|acc| - 1] + [Join(acc[|acc| - 1], next)]
    else acc + [next]
  }

  function Merge(acc: seq<Range>, ranges: seq<Range>): seq<Range>
    decreases |ranges|
  {
    if ranges == [] then acc else Merge(Add(acc, ranges[0]), ranges[1..])
  }

  function Normalize(content: string, ranges: seq<Range>): seq<Range> {
    Merge([], Sort(SnapAll(content, ranges), RangeKey))
  }

  // `normalize_selections`
  method NormalizeSelections(content: string, ranges: seq<Range>) returns (result: seq<Range>)
    ensures result == Normalize(content, ranges)
  {
    var snapped := [];
    var i := 0;
    while i < |ranges|
      invariant 0 <= i <= |ranges| && snapped == SnapAll(content, ranges)[..i]
    {
      var start := FloorByStepping(content, Min(ranges[i].start, ranges[i].end));
      var end := FloorByStepping(content, Max(ranges[i].end, ranges[i].start));
      snapped := snapped + [Range(start, end)];
      i := i + 1;
    }
    assert snapped == SnapAll(content, ranges);
    var sorted := Sort(snapped, RangeKey);
    result := [];
    i := 0;
    while i < |sorted|
      invariant 0 <= i <= |sorted| && Merge(result, sorted[i..]) == Merge([], sorted)
    {
      assert sorted[i..][1..] == sorted[i + 1..];
      result := Add(result, sorted[i]);
      i := i + 1;
    }
  }

  // Apart, or touching where the second one selects something.
  predicate Separate(a: Range, b: Range) {
    a.end < b.start || (a.end == b.start && b.start < b.end)
  }

  // Sorted, disjoint, on boundaries, and nothing left to merge.
  ghost predicate Normal(content: string, ranges: seq<Range>) {
    && (forall i | 0 <= i < |ranges| :: WellFormed(content, ranges[i]))
    && (forall i | 0 < i < |ranges| :: Separate(ranges[i - 1], ranges[i]))
  }

  ghost predicate Covers(ranges: seq<Range>, p: int) {
    exists i :: 0 <= i < |ranges| && ranges[i].start <= p < ranges[i].end
  }

  ghost predicate Inside(ranges: seq<Range>, r: Range) {
    exists i :: 0 <= i < |ranges| && ranges[i].start <= r.start && r.end <= ranges[i].end
  }

  lemma SnapWellFormed(content: string, r: Range)
    ensures WellFormed(content, Snap(content, r))
  {
    FloorIsBoundary(content, Min(r.start, r.end));
    FloorIsBoundary(content, Max(r.start, r.end));
    IndexMonotone(content, Min(r.start, r.end), Max(r.start, r.end));
  }

  // The floor of `b` is at or before a character exactly when `b` is before its end.
  lemma FloorReaches(content: string, b: nat, k: nat)
    requires k < |content|
    ensures Floor(content, b) <= Off(content, k) <==> b < Off(content, k + 1)
  {
    var i := Index(content, b);
    FloorBounds(content, b);
    if i <= k {
      OffGrows(content, i, k);
      OffGrows(content, i + 1, k + 1);
    } else {
      OffGrows(content, k + 1, i);
    }
  }

  // A snapped range holds exactly the characters that end behind its lower end and not behind its
  // upper one, whichever way round it was given.
  lemma SnapCovers(content: string, r: Range, k: nat)
    requires k < |content|
    ensures Snap(content, r).start <= Off(content, k) < Snap(content, r).end
            <==> Min(r.start, r.end) < Off(content, k + 1) <= Max(r.start, r.end)
    ensures Boundary(content, r.start) && Boundary(content, r.end) ==>
              Snap(content, r) == Range(Min(r.start, r.end), Max(r.start, r.end))
  {
    FloorReaches(content, Min(r.start, r.end), k);
    FloorReaches(content, Max(r.start, r.end), k);
  }

  // What merging relies on: the list is ready for a range that starts no earlier.
  ghost predicate Ready(content: string, acc: seq<Range>, rest: seq<Range>) {
    && Normal(content, acc)
    && (forall i | 0 <= i < |rest| :: WellFormed(content, rest[i]))
    && (forall i | 0 <= i < |rest| && acc != [] :: acc[|acc| - 1].start <= rest[i].start)
    && Sorted(rest, RangeKey)
  }

  lemma AddKeepsNormal(content: string, acc: seq<Range>, next: Range)
    requires Normal(content, acc) && WellFormed(content, next)
    requires acc != [] ==> acc[|acc| - 1].start <= next.start
    ensures Normal(content, Add(acc, next))
    ensures Add(acc, next) != [] && Add(acc, next)[|Add(acc, next)| - 1].start <= next.start
  {
    var out := Add(acc, next);
    forall i | 0 < i < |out|
      ensures Separate(out[i - 1], out[i])
    {
      if i < |acc| { assert Separate(acc[i - 1], acc[i]); }
    }
  }

  lemma AddCovers(content: string, acc: seq<Range>, next: Range, p: int)
    requires Normal(content, acc) && WellFormed(content, next)
    requires acc != [] ==> acc[|acc| - 1].start <= next.start
    ensures Covers(Add(acc, next), p) <==> Covers(acc, p) || next.start <= p < next.end
  {
    var out, n := Add(acc, next), |acc|;
    if i :| 0 <= i < n && acc[i].start <= p < acc[i].end {
      assert out[i].start <= p < out[i].end;
    }
    if next.start <= p < next.end { assert out[|out| - 1].start <= p < out[|out| - 1].end; }
    if i :| 0 <= i < |out| && out[i].start <= p < out[i].end {
      if i < n && i < |out| - 1 { assert acc[i].start <= p < acc[i].end; }
      else if n > 0 && |out| == n { assert acc[n - 1].start <= p < acc[n - 1].end || next.start <= p < next.end; }
    }
  }

  lemma AddInside(acc: seq<Range>, next: Range, r: Range)
    requires acc != [] ==> acc[|acc| - 1].start <= next.start
    requires Inside(acc, r) || r == next
    ensures Inside(Add(acc, next), r)
  {
    var out := Add(acc, next);
    if r == next {
      assert out[|out| - 1].start <= r.start && r.end <= out[|out| - 1].end;
    } else {
      var i :| 0 <= i < |acc| && acc[i].start <= r.start && r.end <= acc[i].end;
      assert out[i].start <= r.start && r.end <= out[i].end;
    }
  }

  lemma AddReady(content: string, acc: seq<Range>, rest: seq<Range>)
    requires Ready(content, acc, rest) && rest != []
    ensures Ready(content, Add(acc, rest[0]), rest[1..])
  {
    AddKeepsNormal(content, acc, rest[0]);
    forall i | 0 <= i < |rest[1..]| ensures rest[0].start <= rest[1..][i].start {
      assert Leq(RangeKey(rest[0]), RangeKey(rest[i + 1]));
    }
  }

  lemma {:induction false} MergeNormal(content: string, acc: seq<Range>, rest: seq<Range>)
    requires Ready(content, acc, rest)
    ensures Normal(content, Merge(acc, rest))
    decreases |rest|
  {
    if rest != [] {
      AddReady(content, acc, rest);
      MergeNormal(content, Add(acc, rest[0]), rest[1..]);
    }
  }

  lemma {:induction false} MergeCovers(content: string, acc: seq<Range>, rest: seq<Range>, p: int)
    requires Ready(content, acc, rest)
    ensures Covers(Merge(acc, rest), p) <==> Covers(acc, p) || Covers(rest, p)
    decreases |rest|
  {
    if rest != [] {
      AddReady(content, acc, rest);
      AddCovers(content, acc, rest[0], p);
      MergeCovers(content, Add(acc, rest[0]), rest[1..], p);
      if i :| 0 <= i < |rest[1..]| && rest[1..][i].start <= p < rest[1..][i].end {
        assert rest[i + 1].start <= p < rest[i + 1].end;
      }
      if i :| 0 <= i < |rest| && rest[i].start <= p < rest[i].end && i > 0 {
        assert rest[1..][i - 1].start <= p < rest[1..][i - 1].end;
      }
    }
  }

  lemma {:induction false} MergeInside(content: string, acc: seq<Range>, rest: seq<Range>, r: Range)
    requires Ready(content, acc, rest) && (Inside(acc, r) || r in rest)
    ensures Inside(Merge(acc, rest), r)
    decreases |rest|
  {
    if rest != [] {
      AddReady(content, acc, rest);
      if Inside(acc, r) || r == rest[0] { AddInside(acc, rest[0], r); }
      MergeInside(content, Add(acc, rest[0]), rest[1..], r);
    }
  }

  lemma SnappedReady(content: string, ranges: seq<Range>)
    ensures Ready(content, [], Sort(SnapAll(content, ranges), RangeKey))
  {
    var all := SnapAll(content, ranges);
    var sorted := Sort(all, RangeKey);
    SortSpec(all, RangeKey);
    forall i | 0 <= i < |sorted| ensures WellFormed(content, sorted[i]) {
      assert sorted[i] in multiset(sorted);
      assert sorted[i] in multiset(all);
      var k :| 0 <= k < |all| && all[k] == sorted[i];
      SnapWellFormed(content, ranges[k]);
    }
  }

  // The result is normal and says neither more nor less than the input.
  lemma NormalizeSpec(content: string, ranges: seq<Range>)
    ensures Normal(content, Normalize(content, ranges))
    ensures forall p :: Covers(Normalize(content, ranges), p) <==> Covers(SnapAll(content, ranges), p)
    ensures forall i | 0 <= i < |ranges| :: Inside(Normalize(content, ranges), Snap(content, ranges[i]))
  {
    var all := SnapAll(content, ranges);
    var sorted := Sort(all, RangeKey);
    SnappedReady(content, ranges);
    SortSpec(all, RangeKey);
    MergeNormal(content, [], sorted);
    forall p ensures Covers(Normalize(content, ranges), p) <==> Covers(all, p) {
      MergeCovers(content, [], sorted, p);
      CoversPermutation(sorted, all, p);
      CoversPermutation(all, sorted, p);
    }
    forall i | 0 <= i < |ranges| ensures Inside(Normalize(content, ranges), Snap(content, ranges[i])) {
      assert all[i] in multiset(all);
      assert all[i] in multiset(sorted);
      MergeInside(content, [], sorted, all[i]);
    }
  }

  // No end is invented: every result range starts where an input range starts and ends where one ends.
  ghost predicate EndsFrom(ranges: seq<Range>, from: seq<Range>) {
    forall r | r in ranges :: (exists a :: a in from && a.start == r.start) && (exists b :: b in from && b.end == r.end)
  }

  lemma AddEnds(acc: seq<Range>, next: Range, from: seq<Range>)
    requires EndsFrom(acc, from) && next in from
    ensures EndsFrom(Add(acc, next), from)
  {
    forall r | r in Add(acc, next)
      ensures (exists a :: a in from && a.start == r.start) && (exists b :: b in from && b.end == r.end)
    {
      if r !in acc {
        if acc != [] && Absorbs(acc[|acc| - 1], next) { assert acc[|acc| - 1] in acc; }
      }
    }
  }

  lemma {:induction false} MergeEnds(acc: seq<Range>, rest: seq<Range>, from: seq<Range>)
    requires EndsFrom(acc, from) && forall r | r in rest :: r in from
    ensures EndsFrom(Merge(acc, rest), from)
    decreases |rest|
  {
    if rest != [] {
      AddEnds(acc, rest[0], from);
      MergeEnds(Add(acc, rest[0]), rest[1..], from);
    }
  }

  lemma NormalizeEnds(content: string, ranges: seq<Range>)
    ensures EndsFrom(Normalize(content, ranges), SnapAll(content, ranges))
  {
    var snapped := SnapAll(content, ranges);
    var sorted := Sort(snapped, RangeKey);
    SortSpec(snapped, RangeKey);
    forall r | r in sorted ensures r in snapped {
      assert r in multiset(sorted);
      assert r in multiset(snapped);
    }
    MergeEnds([], sorted, snapped);
  }

  lemma CoversPermutation(a: seq<Range>, b: seq<Range>, p: int)
    requires multiset(a) == multiset(b)
    ensures Covers(a, p) ==> Covers(b, p)
  {
    if i :| 0 <= i < |a| && a[i].start <= p < a[i].end {
      assert a[i] in multiset(b);
      var j :| 0 <= j < |b| && b[j] == a[i];
    }
  }

  lemma {:induction false} NormalSorted(content: string, ranges: seq<Range>, i: nat, j: nat)
    requires Normal(content, ranges) && i < j < |ranges|
    ensures Leq(RangeKey(ranges[i]), RangeKey(ranges[j])) && ranges[i].end <= ranges[j].start
    decreases j
  {
    if i < j - 1 { NormalSorted(content, ranges, i, j - 1); }
  }

  lemma {:induction false} MergeFixed(content: string, acc: seq<Range>, rest: seq<Range>)
    requires Normal(content, acc + rest)
    ensures Merge(acc, rest) == acc + rest
    decreases |rest|
  {
    if rest == [] {
      assert acc + rest == acc;
    } else {
      var all := acc + rest;
      if acc != [] {
        assert all[|acc| - 1] == acc[|acc| - 1] && all[|acc|] == rest[0];
        assert !Absorbs(acc[|acc| - 1], rest[0]);
      }
      assert Add(acc, rest[0]) + rest[1..] == all;
      MergeFixed(content, Add(acc, rest[0]), rest[1..]);
    }
  }

  // Normal lists are exactly the fixed points.
  lemma NormalIffFixed(content: string, ranges: seq<Range>)
    ensures Normal(content, ranges) <==> Normalize(content, ranges) == ranges
  {
    NormalizeSpec(content, ranges);
    if Normal(content, ranges) {
      forall i | 0 <= i < |ranges| ensures Snap(content, ranges[i]) == ranges[i] {
        assert WellFormed(content, ranges[i]);
      }
      assert SnapAll(content, ranges) == ranges;
      forall i, j | 0 <= i < j < |ranges| ensures Leq(RangeKey(ranges[i]), RangeKey(ranges[j])) {
        NormalSorted(content, ranges, i, j);
      }
      SortOfSorted(ranges, RangeKey);
      assert [] + ranges == ranges;
      MergeFixed(content, [], ranges);
    }
  }

  lemma NormalizeIdempotent(content: string, ranges: seq<Range>)
    ensures Normalize(content, Normalize(content, ranges)) == Normalize(content, ranges)
  {
    NormalizeSpec(content, ranges);
    NormalIffFixed(content, Normalize(content, ranges));
  }

  // ----- rectangles

  // Line and column, in characters, of character position `k`.
  function Line(content: string, k: nat): nat
    requires k <= |content|
  {
    if k == 0 then 0 else Line(content, k - 1) + (if content[k - 1] == '\n' then 1 else 0)
  }

  function Column(content: string, k: nat): nat
    requires k <= |content|
  {
    if k == 0 || content[k - 1] == '\n' then 0 else Column(content, k - 1) + 1
  }

  // Just behind the line break that ends the line around `k`.
  function LineEnd(content: string, k: nat): (e: nat)
    requires k < |content|
    ensures k < e <= |content|
    decreases |content| - k
  {
    if content[k] == '\n' || k + 1 == |content| then k + 1 else LineEnd(content, k + 1)
  }

  // The same without the line break.
  function LineStop(content: string, k: nat): (e: nat)
    requires k < |content|
    ensures LineEnd(content, k) - 1 <= e <= LineEnd(content, k)
  {
    if content[LineEnd(content, k) - 1] == '\n' then LineEnd(content, k) - 1 else LineEnd(content, k)
  }

  datatype Box = Box(top: nat, bottom: nat, left: nat, right: nat)

  function BoxBetween(content: string, anchor: nat, head: nat): Box {
    var (a, h) := (Index(content, anchor), Index(content, head));
    Box(Min(Line(content, a), Line(content, h)), Max(Line(content, a), Line(content, h)),
        Min(Column(content, a), Column(content, h)), Max(Column(content, a), Column(content, h)))
  }

  // The part of the line starting at `k` that lies in the box.
  function Row(content: string, k: nat, box: Box): Range
    requires k < |content|
  {
    Range(Off(content, Min(k + box.left, LineStop(content, k))),
          Off(content, Min(k + box.right, LineStop(content, k))))
  }

  function Rows(content: string, k: nat, line: nat, box: Box): seq<Range>
    requires k <= |content|
    decreases |content| - k
  {
    if k == |content| then []
    else
      (if box.top <= line <= box.bottom then [Row(content, k, box)] else [])
      + Rows(content, LineEnd(content, k), line + 1, box)
  }

  function Rectangle(content: string, anchor: nat, head: nat): seq<Range> {
    Rows(content, 0, 0, BoxBetween(content, anchor, head))
  }

  // `rectangle_selections`
  method RectangleSelections(content: string, anchor: nat, head: nat) returns (result: seq<Range>)
    ensures result == Rectangle(content, anchor, head)
  {
    var box := BoxBetween(content, anchor, head);
    var k, line, offset := 0, 0, 0;
    result := [];
    while k < |content|
      invariant 0 <= k <= |content| && offset == Off(content, k)
      invariant result + Rows(content, k, line, box) == Rows(content, 0, 0, box)
    {
      RowsTake(result, content, k, line, box);
      if box.top <= line <= box.bottom {
        var row := RowFrom(content, k, offset, box);
        result := result + [row];
      }
      LineOffset(content, k);
      offset := offset + Size(content[k..LineEnd(content, k)]);
      k, line := LineEnd(content, k), line + 1;
    }
  }

  // The columns of one line, counted from the byte where the line starts.
  method RowFrom(content: string, k: nat, offset: nat, box: Box) returns (row: Range)
    requires k < |content| && offset == Off(content, k)
    ensures row == Row(content, k, box)
  {
    var text := content[k..LineStop(content, k)];
    row := Range(offset + Off(text, Min(box.left, |text|)), offset + Off(text, Min(box.right, |text|)));
    RowInLine(content, k, box);
  }

  lemma LineOffset(content: string, k: nat)
    requires k < |content|
    ensures Off(content, k) + Size(content[k..LineEnd(content, k)]) == Off(content, LineEnd(content, k))
  {
    SizeSlice(content, k, LineEnd(content, k));
  }

  lemma RowsTake(done: seq<Range>, content: string, k: nat, line: nat, box: Box)
    requires k < |content|
    ensures done + Rows(content, k, line, box)
            == (if box.top <= line <= box.bottom then done + [Row(content, k, box)] else done)
               + Rows(content, LineEnd(content, k), line + 1, box)
  {
  }

  lemma RowInLine(content: string, k: nat, box: Box)
    requires k < |content|
    ensures var text := content[k..LineStop(content, k)];
            Row(content, k, box) == Range(Off(content, k) + Off(text, Min(box.left, |text|)),
                                          Off(content, k) + Off(text, Min(box.right, |text|)))
  {
    var e := LineStop(content, k);
    ColumnOffset(content, k, e, Min(box.left, e - k));
    ColumnOffset(content, k, e, Min(box.right, e - k));
  }

  lemma ColumnOffset(content: string, k: nat, e: nat, col: nat)
    requires k <= e <= |content| && col <= e - k
    ensures Off(content, k) + Off(content[k..e], col) == Off(content, k + col)
  {
    OffPrefix(content[k..e], content[k..], col);
    assert content[k..e][..col] == content[k..][..col];
    OffDrop(content, k, col);
  }

  lemma RowBounds(content: string, k: nat, box: Box)
    requires k < |content| && box.left <= box.right
    ensures WellFormed(content, Row(content, k, box))
    ensures Off(content, k) <= Row(content, k, box).start
    ensures Row(content, k, box).end <= Off(content, LineStop(content, k))
  {
    var e := LineStop(content, k);
    var a, b := Min(k + box.left, e), Min(k + box.right, e);
    IndexOff(content, a);
    IndexOff(content, b);
    OffGrows(content, a, b);
    OffGrows(content, k, a);
    OffGrows(content, b, e);
  }

  lemma RowsFirst(content: string, k: nat, line: nat, box: Box)
    requires k < |content|
    ensures var rest := Rows(content, LineEnd(content, k), line + 1, box);
            Rows(content, k, line, box)
            == if box.top <= line <= box.bottom then [Row(content, k, box)] + rest else rest
  {
    RowsTake([], content, k, line, box);
  }

  // Rows of later lines lie behind the row of this one.
  lemma RowsPrepend(content: string, k: nat, box: Box, rest: seq<Range>)
    requires k < |content| && box.left <= box.right && Normal(content, rest)
    requires rest != [] ==> LineEnd(content, k) < |content| && Off(content, LineEnd(content, k)) <= rest[0].start
    ensures Normal(content, [Row(content, k, box)] + rest)
  {
    RowBounds(content, k, box);
    if rest != [] {
      LineBreaks(content, k);
      OffGrows(content, LineStop(content, k), LineEnd(content, k));
      NormalCons(content, Row(content, k, box), rest);
    }
  }

  lemma {:induction false} RowsNormal(content: string, k: nat, line: nat, box: Box)
    requires k <= |content| && box.left <= box.right
    ensures Normal(content, Rows(content, k, line, box))
    ensures Rows(content, k, line, box) != [] ==> Off(content, k) <= Rows(content, k, line, box)[0].start
    decreases |content| - k
  {
    if k < |content| {
      var next := LineEnd(content, k);
      var rest := Rows(content, next, line + 1, box);
      RowsNormal(content, next, line + 1, box);
      OffGrows(content, k, next);
      RowsFirst(content, k, line, box);
      if box.top <= line <= box.bottom {
        if rest != [] { RowsStop(content, next, line + 1, box); }
        RowBounds(content, k, box);
        RowsPrepend(content, k, box, rest);
      }
    }
  }

  lemma NormalCons(content: string, row: Range, rest: seq<Range>)
    requires WellFormed(content, row) && Normal(content, rest) && rest != [] && row.end < rest[0].start
    ensures Normal(content, [row] + rest)
  {
    var all := [row] + rest;
    forall i | 0 < i < |all| ensures Separate(all[i - 1], all[i]) {
      if i > 1 { assert Separate(rest[i - 2], rest[i - 1]); }
    }
  }

  lemma RowsStop(content: string, k: nat, line: nat, box: Box)
    requires k <= |content| && Rows(content, k, line, box) != []
    ensures k < |content|
  {
  }

  // Only the last line can lack its line break.
  lemma {:induction false} LineBreaks(content: string, k: nat)
    requires k < |content|
    ensures LineEnd(content, k) < |content| ==>
              content[LineEnd(content, k) - 1] == '\n' && LineStop(content, k) < LineEnd(content, k)
    ensures forall i | k <= i < LineStop(content, k) :: content[i] != '\n'
    decreases |content| - k
  {
    if content[k] != '\n' && k + 1 < |content| { LineBreaks(content, k + 1); }
  }

  // A rectangle needs no further normalisation.
  lemma RectangleIsNormal(content: string, anchor: nat, head: nat)
    ensures Normal(content, Rectangle(content, anchor, head))
    ensures Normalize(content, Rectangle(content, anchor, head)) == Rectangle(content, anchor, head)
  {
    RowsNormal(content, 0, 0, BoxBetween(content, anchor, head));
    NormalIffFixed(content, Rectangle(content, anchor, head));
  }

  // The lines of the text from the line start `k` on.
  function Lines(content: string, k: nat): nat
    requires k <= |content|
    decreases |content| - k
  {
    if k == |content| then 0 else 1 + Lines(content, LineEnd(content, k))
  }

  // How many lines of the box come before `line`.
  function Passed(box: Box, line: nat): int
    requires box.top <= box.bottom
  {
    if line <= box.top then 0 else if line <= box.bottom then line - box.top else box.bottom + 1 - box.top
  }

  lemma {:induction false} RowPerLine(content: string, k: nat, line: nat, box: Box)
    requires k <= |content| && box.top <= box.bottom
    ensures |Rows(content, k, line, box)| == Passed(box, line + Lines(content, k)) - Passed(box, line)
    decreases |content| - k
  {
    if k < |content| { RowPerLine(content, LineEnd(content, k), line + 1, box); }
  }

  // One range, possibly empty, for every line of the box that the text has.
  lemma RectangleHasRowPerLine(content: string, anchor: nat, head: nat)
    ensures var a, h := Line(content, Index(content, anchor)), Line(content, Index(content, head));
            |Rectangle(content, anchor, head)|
            == Min(Lines(content, 0), Max(a, h) + 1) - Min(Lines(content, 0), Min(a, h))
  {
    RowPerLine(content, 0, 0, BoxBetween(content, anchor, head));
  }

  predicate InBox(content: string, k: nat, box: Box)
    requires k < |content|
  {
    && content[k] != '\n'
    && box.top <= Line(content, k) <= box.bottom
    && box.left <= Column(content, k) < box.right
  }

  // Positions on the line that starts at `k`.
  lemma {:induction false} WithinLine(content: string, k: nat, i: nat)
    requires k < |content| && k <= i < LineEnd(content, k) && Column(content, k) == 0
    ensures Line(content, i) == Line(content, k) && Column(content, i) == i - k
    ensures i < LineStop(content, k) <==> content[i] != '\n'
    decreases i
  {
    LineBreaks(content, k);
    if i > k {
      WithinLine(content, k, i - 1);
      assert i - 1 < LineStop(content, k);
    }
  }

  lemma NextLine(content: string, k: nat)
    requires k < |content| && Column(content, k) == 0 && LineEnd(content, k) < |content|
    ensures Line(content, LineEnd(content, k)) == Line(content, k) + 1
    ensures Column(content, LineEnd(content, k)) == 0
  {
    LineBreaks(content, k);
    WithinLine(content, k, LineEnd(content, k) - 1);
  }

  lemma RowCovers(content: string, k: nat, box: Box, i: nat)
    requires k < |content| && i < |content| && box.left <= box.right
    ensures Row(content, k, box).start <= Off(content, i) < Row(content, k, box).end
            <==> k + box.left <= i < Min(k + box.right, LineStop(content, k))
  {
    var e := LineStop(content, k);
    var a, b := Min(k + box.left, e), Min(k + box.right, e);
    if a <= i { OffGrows(content, a, i); } else { OffGrows(content, i, a); }
    if b <= i { OffGrows(content, b, i); } else { OffGrows(content, i, b); }
  }

  lemma {:induction false} RowsCover(content: string, k: nat, line: nat, box: Box, i: nat)
    requires k <= i < |content| && box.left <= box.right
    requires Line(content, k) == line && Column(content, k) == 0
    ensures Covers(Rows(content, k, line, box), Off(content, i)) <==> InBox(content, i, box)
    decreases |content| - k
  {
    var next := LineEnd(content, k);
    RowCovers(content, k, box, i);
    CoversCons(Row(content, k, box), Rows(content, next, line + 1, box), Off(content, i));
    assert [] + Rows(content, next, line + 1, box) == Rows(content, next, line + 1, box);
    if i < next {
      WithinLine(content, k, i);
      RowsBehind(content, next, line + 1, box, i);
    } else {
      NextLine(content, k);
      RowsCover(content, next, line + 1, box, i);
    }
  }

  lemma CoversCons(row: Range, rest: seq<Range>, p: int)
    ensures Covers([row] + rest, p) <==> row.start <= p < row.end || Covers(rest, p)
  {
    var all := [row] + rest;
    if i :| 0 <= i < |rest| && rest[i].start <= p < rest[i].end { assert all[i + 1].start <= p < all[i + 1].end; }
    if row.start <= p < row.end { assert all[0].start <= p < all[0].end; }
    if i :| 0 <= i < |all| && all[i].start <= p < all[i].end {
      if i > 0 { assert rest[i - 1].start <= p < rest[i - 1].end; }
    }
  }

  lemma RowsBehind(content: string, k: nat, line: nat, box: Box, i: nat)
    requires i < k <= |content| && box.left <= box.right
    ensures !Covers(Rows(content, k, line, box), Off(content, i))
  {
    var rows := Rows(content, k, line, box);
    RowsNormal(content, k, line, box);
    OffGrows(content, i, k);
    forall q | 0 <= q < |rows| ensures Off(content, i) < rows[q].start {
      if q > 0 { NormalSorted(content, rows, 0, q); }
    }
  }

  predicate Between(x: nat, a: nat, b: nat) { a <= x <= b || b <= x <= a }

  // A character is selected exactly when it lies in the box between the two corners.
  lemma RectangleCoversBox(content: string, anchor: nat, head: nat, i: nat)
    requires i < |content|
    ensures var a, h := Index(content, anchor), Index(content, head);
            Covers(Rectangle(content, anchor, head), Off(content, i)) <==>
              && content[i] != '\n'
              && Between(Line(content, i), Line(content, a), Line(content, h))
              && Between(Column(content, i), Column(content, a), Column(content, h))
              && Column(content, i) != Max(Column(content, a), Column(content, h))
  {
    RowsCover(content, 0, 0, BoxBetween(content, anchor, head), i);
  }
}
