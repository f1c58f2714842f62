/** The folded view of a document and the offset maps between source and view. */
module Folds {
  import opened Common
  import opened Utf8
  import opened StableSort
  import opened Selections

  // The view keeps this in place of a folded range.
  const PLACEHOLDER: string := "\U{2026}\n"

  datatype Segment = Segment(input: Range, output: Range, hidden: bool)

  datatype Projection = Projection(text: string, segments: seq<Segment>)

  // Outer folds sort before the folds they contain.
  function FoldKey(r: Range): Key { (r.start, -(r.end as int)) }

  predicate Foldable(content: string, r: Range) { WellFormed(content, r) && r.start < r.end }

  // The folds that take effect, given sorted folds and the end of the last one used.
  function Kept(content: string, folds: seq<Range>, cursor: nat): seq<Range> {
    if folds == [] then []
    else if folds[0].start < cursor || !Foldable(content, folds[0]) then Kept(content, folds[1..], cursor)
    else [folds[0]] + Kept(content, folds[1..], folds[0].end)
  }

  // Disjoint folds in order, the first at or after `from`.
  predicate Chain(content: string, kept: seq<Range>, from: nat) {
    if kept == [] then Boundary(content, from)
    else
      && Boundary(content, from) && from <= kept[0].start && Foldable(content, kept[0])
      && Chain(content, kept[1..], kept[0].end)
  }

  // The view of the text from `cursor` on.
  function Shown(content: string, kept: seq<Range>, cursor: nat): string {
    if kept == [] then content[Index(content, cursor)..]
    else Slice(content, cursor, kept[0].start) + PLACEHOLDER + Shown(content, kept[1..], kept[0].end)
  }

  function Plain(cursor: nat, end: nat, out: nat): Segment
    requires cursor <= end
  {
    Segment(Range(cursor, end), Range(out, out + (end - cursor)), false)
  }

  function Build(content: string, kept: seq<Range>, cursor: nat, out: nat): seq<Segment>
    requires Chain(content, kept, cursor)
  {
    FloorBounds(content, cursor);
    if kept == [] then [Plain(cursor, Size(content), out)]
    else
      var at := out + (kept[0].start - cursor);
      [Plain(cursor, kept[0].start, out), Segment(kept[0], Range(at, at + Size(PLACEHOLDER)), true)]
      + Build(content, kept[1..], kept[0].end, at + Size(PLACEHOLDER))
  }

  function FoldsOf(content: string, folds: seq<Range>): seq<Range> {
    Kept(content, Sort(folds, FoldKey), 0)
  }

  lemma {:induction false} KeptChains(content: string, folds: seq<Range>, cursor: nat)
    requires Boundary(content, cursor)
    ensures Chain(content, Kept(content, folds, cursor), cursor)
    decreases |folds|
  {
    if folds != [] {
      if folds[0].start < cursor || !Foldable(content, folds[0]) {
        KeptChains(content, folds[1..], cursor);
      } else {
        KeptChains(content, folds[1..], folds[0].end);
      }
    }
  }

  // A projection that covers everything before `cursor`, completed by the folds to come.
  function Finish(content: string, p: Projection, kept: seq<Range>, cursor: nat): Projection
    requires Chain(content, kept, cursor)
  {
    Projection(p.text + Shown(content, kept, cursor), p.segments + Build(content, kept, cursor, Size(p.text)))
  }

  function Project(content: string, folds: seq<Range>): Projection {
    EndsAreBoundaries(content);
    KeptChains(content, Sort(folds, FoldKey), 0);
    Finish(content, Projection("", []), FoldsOf(content, folds), 0)
  }

  // `FoldProjection::new`
  method NewProjection(content: string, folds: seq<Range>) returns (p: Projection)
    ensures p == Project(content, folds)
  {
    var sorted := Sort(folds, FoldKey);
    ghost var goal := Project(content, folds);
    var cursor, i := 0, 0;
    p := Projection("", []);
    EndsAreBoundaries(content);
    KeptChains(content, sorted, 0);
    assert sorted[0..] == sorted;
    while i < |sorted|
      invariant 0 <= i <= |sorted| && Chain(content, Kept(content, sorted[i..], cursor), cursor)
      invariant Finish(content, p, Kept(content, sorted[i..], cursor), cursor) == goal
    {
      var r := sorted[i];
      ghost var rest := sorted[i + 1..];
      assert sorted[i..][0] == r && sorted[i..][1..] == rest;
      FloorBounds(content, r.end);
      if r.start < cursor || r.start >= r.end || r.end > Size(content)
         || !Boundary(content, r.start) || !Boundary(content, r.end)
      {
        assert Kept(content, sorted[i..], cursor) == Kept(content, rest, cursor);
      } else {
        assert Kept(content, sorted[i..], cursor) == [r] + Kept(content, rest, r.end);
        p := AddFold(content, p, Kept(content, rest, r.end), cursor, r);
        cursor := r.end;
      }
      i := i + 1;
    }
    assert sorted[i..] == [];
    p := AddRest(content, p, cursor);
  }

  // The body of the loop for a fold that takes effect.
  method AddFold(content: string, p: Projection, ghost kept: seq<Range>, cursor: nat, r: Range) returns (q: Projection)
    requires Chain(content, [r] + kept, cursor)
    ensures Chain(content, kept, r.end)
    ensures Finish(content, q, kept, r.end) == Finish(content, p, [r] + kept, cursor)
  {
    BuildStep(content, kept, cursor, r, Size(p.text), p.segments);
    ShownStep(content, kept, cursor, r, p.text);
    GapSize(content, cursor, r.start, p.text);
    var text := p.text + Slice(content, cursor, r.start);
    var gap := Segment(Range(cursor, r.start), Range(Size(p.text), Size(text)), false);
    SizeConcat(text, PLACEHOLDER);
    var fold := Segment(r, Range(Size(text), Size(text + PLACEHOLDER)), true);
    q := Projection(text + PLACEHOLDER, p.segments + [gap] + [fold]);
  }

  // What follows the last fold.
  method AddRest(content: string, p: Projection, cursor: nat) returns (q: Projection)
    requires Chain(content, [], cursor)
    ensures q == Finish(content, p, [], cursor)
  {
    FloorBounds(content, cursor);
    SizeSlice(content, Index(content, cursor), |content|);
    var rest := content[Index(content, cursor)..];
    assert rest == content[Index(content, cursor)..|content|];
    SizeConcat(p.text, rest);
    q := Projection(p.text + rest,
                    p.segments + [Segment(Range(cursor, Size(content)),
                                          Range(Size(p.text), Size(p.text + rest)), false)]);
  }

  lemma GapSize(content: string, a: nat, b: nat, text: string)
    requires a <= b && Boundary(content, a) && Boundary(content, b)
    ensures Size(text + Slice(content, a, b)) == Size(text) + (b - a)
  {
    IndexMonotone(content, a, b);
    SizeSlice(content, Index(content, a), Index(content, b));
    SizeConcat(text, Slice(content, a, b));
  }

  lemma ShownStep(content: string, kept: seq<Range>, cursor: nat, r: Range, text: string)
    ensures (text + Slice(content, cursor, r.start) + PLACEHOLDER) + Shown(content, kept, r.end)
            == text + Shown(content, [r] + kept, cursor)
  {
    assert ([r] + kept)[1..] == kept;
    var gap, rest := Slice(content, cursor, r.start), Shown(content, kept, r.end);
    assert text + (gap + PLACEHOLDER + rest) == (text + gap + PLACEHOLDER) + rest;
  }

  lemma BuildStep(content: string, kept: seq<Range>, cursor: nat, r: Range, out: nat, segments: seq<Segment>)
    requires Chain(content, [r] + kept, cursor)
    ensures Chain(content, kept, r.end) && cursor <= r.start
    ensures Boundary(content, cursor) && Foldable(content, r)
    ensures var at := out + (r.start - cursor);
            (segments + [Plain(cursor, r.start, out)] + [Segment(r, Range(at, at + Size(PLACEHOLDER)), true)])
              + Build(content, kept, r.end, at + Size(PLACEHOLDER))
            == segments + Build(content, [r] + kept, cursor, out)
  {
    assert ([r] + kept)[1..] == kept;
    var at := out + (r.start - cursor);
    var a, b := Plain(cursor, r.start, out), Segment(r, Range(at, at + Size(PLACEHOLDER)), true);
    var rest := Build(content, kept, r.end, at + Size(PLACEHOLDER));
    assert (segments + [a] + [b]) + rest == segments + ([a, b] + rest);
  }

  // ----- the offset maps

  predicate In(r: Range, x: nat) { r.start <= x < r.end }

  function DisplayIn(segments: seq<Segment>, source: nat, default: nat): nat {
    if segments == [] then default
    else if In(segments[0].input, source) then
      segments[0].output.start + (if segments[0].hidden then 0 else source - segments[0].input.start)
    else DisplayIn(segments[1..], source, default)
  }

  function SourceIn(segments: seq<Segment>, display: nat, default: nat): nat {
    if segments == [] then default
    else if In(segments[0].output, display) then
      segments[0].input.start + (if segments[0].hidden then 0 else display - segments[0].output.start)
    else SourceIn(segments[1..], display, default)
  }

  // `display_offset`
  function DisplayOffset(p: Projection, source: nat): nat {
    DisplayIn(p.segments, source, Size(p.text))
  }

  // `source_offset`
  function SourceOffset(p: Projection, display: nat): nat {
    SourceIn(p.segments, display,
             if p.segments == [] then 0 else p.segments[|p.segments| - 1].input.end)
  }

  // The segments lie end to end from `(a, b)` to `(c, d)` in source and view.
  predicate Tiles(segments: seq<Segment>, a: nat, b: nat, c: nat, d: nat) {
    if segments == [] then a == c && b == d
    else
      var s := segments[0];
      && s.input.start == a <= s.input.end && s.output.start == b <= s.output.end
      && (s.hidden ==> a < s.input.end && s.output.end == b + Size(PLACEHOLDER))
      && (!s.hidden ==> s.input.end - a == s.output.end - b)
      && Tiles(segments[1..], s.input.end, s.output.end, c, d)
  }

  // Where a source position is seen: itself, or the start of the fold that hides it.
  function Anchor(segments: seq<Segment>, source: nat): nat {
    if segments == [] then source
    else if In(segments[0].input, source) then
      (if segments[0].hidden then segments[0].input.start else source)
    else Anchor(segments[1..], source)
  }

  // The same for the view: the placeholder counts as one position.
  function ViewAnchor(segments: seq<Segment>, display: nat): nat {
    if segments == [] then display
    else if In(segments[0].output, display) then
      (if segments[0].hidden then segments[0].output.start else display)
    else ViewAnchor(segments[1..], display)
  }

  lemma PlaceholderSize()
    ensures Size(PLACEHOLDER) == 4
  {
    assert Off(PLACEHOLDER, 1) == 3 && Off(PLACEHOLDER, 2) == 4;
  }

  lemma {:induction false} TilesGrow(segments: seq<Segment>, a: nat, b: nat, c: nat, d: nat)
    requires Tiles(segments, a, b, c, d)
    ensures a <= c && b <= d
    ensures segments != [] ==> segments[|segments| - 1].input.end == c
  {
    if segments != [] {
      var s := segments[0];
      TilesGrow(segments[1..], s.input.end, s.output.end, c, d);
    }
  }

  lemma {:induction false} DisplayBounds(segments: seq<Segment>, a: nat, b: nat, c: nat, d: nat, x: nat)
    requires Tiles(segments, a, b, c, d) && a <= x
    ensures b <= DisplayIn(segments, x, d) <= d
    ensures x < c ==> DisplayIn(segments, x, d) < d
    ensures x >= c ==> DisplayIn(segments, x, d) == d
  {
    TilesGrow(segments, a, b, c, d);
    if segments != [] {
      PlaceholderSize();
      var s := segments[0];
      TilesGrow(segments[1..], s.input.end, s.output.end, c, d);
      if !In(s.input, x) { DisplayBounds(segments[1..], s.input.end, s.output.end, c, d, x); }
    }
  }

  lemma {:induction false} SourceBounds(segments: seq<Segment>, a: nat, b: nat, c: nat, d: nat, y: nat)
    requires Tiles(segments, a, b, c, d) && b <= y
    ensures a <= SourceIn(segments, y, c) <= c
    ensures y < d ==> SourceIn(segments, y, c) < c
    ensures y >= d ==> SourceIn(segments, y, c) == c
  {
    TilesGrow(segments, a, b, c, d);
    if segments != [] {
      PlaceholderSize();
      var s := segments[0];
      TilesGrow(segments[1..], s.input.end, s.output.end, c, d);
      if !In(s.output, y) { SourceBounds(segments[1..], s.input.end, s.output.end, c, d, y); }
    }
  }

  lemma {:induction false} DisplayMonotoneIn(segments: seq<Segment>, a: nat, b: nat, c: nat, d: nat, x: nat, y: nat)
    requires Tiles(segments, a, b, c, d) && a <= x <= y
    ensures DisplayIn(segments, x, d) <= DisplayIn(segments, y, d)
  {
    if segments != [] {
      PlaceholderSize();
      var s := segments[0];
      if !In(s.input, y) {
        DisplayBounds(segments[1..], s.input.end, s.output.end, c, d, y);
        if !In(s.input, x) { DisplayMonotoneIn(segments[1..], s.input.end, s.output.end, c, d, x, y); }
      }
    }
  }

  lemma {:induction false} SourceMonotoneIn(segments: seq<Segment>, a: nat, b: nat, c: nat, d: nat, x: nat, y: nat)
    requires Tiles(segments, a, b, c, d) && b <= x <= y
    ensures SourceIn(segments, x, c) <= SourceIn(segments, y, c)
  {
    if segments != [] {
      var s := segments[0];
      if !In(s.output, y) {
        SourceBounds(segments[1..], s.input.end, s.output.end, c, d, y);
        if !In(s.output, x) { SourceMonotoneIn(segments[1..], s.input.end, s.output.end, c, d, x, y); }
      }
    }
  }

  lemma {:induction false} ThereAndBack(segments: seq<Segment>, a: nat, b: nat, c: nat, d: nat, x: nat)
    requires Tiles(segments, a, b, c, d) && a <= x
    ensures SourceIn(segments, DisplayIn(segments, x, d), c) == if x < c then Anchor(segments, x) else c
  {
    TilesGrow(segments, a, b, c, d);
    if segments != [] {
      PlaceholderSize();
      var s := segments[0];
      TilesGrow(segments[1..], s.input.end, s.output.end, c, d);
      if !In(s.input, x) {
        DisplayBounds(segments[1..], s.input.end, s.output.end, c, d, x);
        ThereAndBack(segments[1..], s.input.end, s.output.end, c, d, x);
      }
    }
  }

  lemma {:induction false} BackAndThere(segments: seq<Segment>, a: nat, b: nat, c: nat, d: nat, y: nat)
    requires Tiles(segments, a, b, c, d) && b <= y
    ensures DisplayIn(segments, SourceIn(segments, y, c), d) == if y < d then ViewAnchor(segments, y) else d
  {
    TilesGrow(segments, a, b, c, d);
    if segments != [] {
      var s := segments[0];
      TilesGrow(segments[1..], s.input.end, s.output.end, c, d);
      if !In(s.output, y) {
        SourceBounds(segments[1..], s.input.end, s.output.end, c, d, y);
        BackAndThere(segments[1..], s.input.end, s.output.end, c, d, y);
      }
    }
  }

  // ----- what a projection is

  lemma ShownSize(content: string, kept: seq<Range>, cursor: nat)
    requires Chain(content, kept, cursor)
    ensures cursor <= Size(content)
    ensures kept == [] ==> Size(Shown(content, kept, cursor)) == Size(content) - cursor
    ensures kept != [] ==>
      Size(Shown(content, kept, cursor))
      == (kept[0].start - cursor) + Size(PLACEHOLDER) + Size(Shown(content, kept[1..], kept[0].end))
  {
    FloorBounds(content, cursor);
    if kept == [] {
      SizeSlice(content, Index(content, cursor), |content|);
      assert content[Index(content, cursor)..] == content[Index(content, cursor)..|content|];
    } else {
      var gap, rest := Slice(content, cursor, kept[0].start), Shown(content, kept[1..], kept[0].end);
      GapSize(content, cursor, kept[0].start, "");
      assert "" + gap == gap;
      SizeConcat(gap, PLACEHOLDER);
      SizeConcat(gap + PLACEHOLDER, rest);
    }
  }

  lemma TilesCons(a: Segment, b: Segment, rest: seq<Segment>, c: nat, d: nat)
    requires !a.hidden && a.input.start <= a.input.end && a.output.end == a.output.start + (a.input.end - a.input.start)
    requires b.hidden && b.input.start == a.input.end < b.input.end && b.output.start == a.output.end
    requires b.output.end == b.output.start + Size(PLACEHOLDER)
    requires Tiles(rest, b.input.end, b.output.end, c, d)
    ensures Tiles([a, b] + rest, a.input.start, a.output.start, c, d)
  {
    var all := [a, b] + rest;
    assert all[1..] == [b] + rest && all[1..][1..] == rest;
    assert Tiles(all[1..], b.input.start, b.output.start, c, d);
  }

  lemma {:induction false} BuildTiles(content: string, kept: seq<Range>, cursor: nat, out: nat)
    requires Chain(content, kept, cursor)
    ensures Build(content, kept, cursor, out) != []
    ensures Tiles(Build(content, kept, cursor, out), cursor, out,
                  Size(content), out + Size(Shown(content, kept, cursor)))
    decreases |kept|
  {
    ShownSize(content, kept, cursor);
    if kept != [] {
      var at := out + (kept[0].start - cursor);
      var end := at + Size(PLACEHOLDER);
      var rest := Build(content, kept[1..], kept[0].end, end);
      BuildTiles(content, kept[1..], kept[0].end, end);
      TilesCons(Plain(cursor, kept[0].start, out), Segment(kept[0], Range(at, end), true), rest,
                Size(content), out + Size(Shown(content, kept, cursor)));
    }
  }

  // The segments partition the source and the view.
  lemma ProjectionPartitions(content: string, folds: seq<Range>)
    ensures var p := Project(content, folds);
            && p.segments != []
            && Tiles(p.segments, 0, 0, Size(content), Size(p.text))
            && p.segments[|p.segments| - 1].input.end == Size(content)
  {
    EndsAreBoundaries(content);
    KeptChains(content, Sort(folds, FoldKey), 0);
    var kept := FoldsOf(content, folds);
    BuildTiles(content, kept, 0, 0);
    assert [] + Build(content, kept, 0, 0) == Build(content, kept, 0, 0);
    assert "" + Shown(content, kept, 0) == Shown(content, kept, 0);
    TilesGrow(Project(content, folds).segments, 0, 0, Size(content), Size(Project(content, folds).text));
  }

  lemma OffsetsAreMonotone(content: string, folds: seq<Range>, x: nat, y: nat)
    requires x <= y
    ensures DisplayOffset(Project(content, folds), x) <= DisplayOffset(Project(content, folds), y)
    ensures SourceOffset(Project(content, folds), x) <= SourceOffset(Project(content, folds), y)
  {
    var p := Project(content, folds);
    ProjectionPartitions(content, folds);
    DisplayMonotoneIn(p.segments, 0, 0, Size(content), Size(p.text), x, y);
    SourceMonotoneIn(p.segments, 0, 0, Size(content), Size(p.text), x, y);
  }

  // Visible positions survive the trip to the view and back; hidden ones land on their fold's start.
  lemma OffsetsRoundTrip(content: string, folds: seq<Range>, x: nat)
    ensures var p := Project(content, folds);
            && SourceOffset(p, DisplayOffset(p, x))
               == (if x < Size(content) then Anchor(p.segments, x) else Size(content))
            && DisplayOffset(p, SourceOffset(p, x))
               == (if x < Size(p.text) then ViewAnchor(p.segments, x) else Size(p.text))
  {
    var p := Project(content, folds);
    ProjectionPartitions(content, folds);
    ThereAndBack(p.segments, 0, 0, Size(content), Size(p.text), x);
    BackAndThere(p.segments, 0, 0, Size(content), Size(p.text), x);
  }

  // ----- which folds take effect

  ghost predicate Hides(kept: seq<Range>, x: nat) {
    exists i :: 0 <= i < |kept| && In(kept[i], x)
  }

  lemma {:induction false} AnchorIsFold(content: string, kept: seq<Range>, cursor: nat, out: nat, x: nat)
    requires Chain(content, kept, cursor) && cursor <= x < Size(content)
    ensures var a := Anchor(Build(content, kept, cursor, out), x);
            if Hides(kept, x) then exists i :: 0 <= i < |kept| && In(kept[i], x) && a == kept[i].start else a == x
    decreases |kept|
  {
    FloorBounds(content, cursor);
    if kept != [] {
      var at := out + (kept[0].start - cursor) + Size(PLACEHOLDER);
      var all := Build(content, kept, cursor, out);
      assert all[1..][1..] == Build(content, kept[1..], kept[0].end, at);
      if x >= kept[0].end {
        AnchorIsFold(content, kept[1..], kept[0].end, at, x);
        if i :| 0 <= i < |kept[1..]| && In(kept[1..][i], x) { assert In(kept[i + 1], x); }
        if i :| 0 <= i < |kept| && In(kept[i], x) { assert In(kept[1..][i - 1], x); }
        if i :| 0 <= i < |kept[1..]| && In(kept[1..][i], x)
                && Anchor(Build(content, kept[1..], kept[0].end, at), x) == kept[1..][i].start {
          assert In(kept[i + 1], x) && kept[i + 1].start == kept[1..][i].start;
        }
      } else if x < kept[0].start {
        forall i | 0 <= i < |kept| ensures !In(kept[i], x) { ChainStarts(content, kept, cursor, i); }
      } else {
        assert In(kept[0], x);
      }
    }
  }

  // Showing a position and coming back: a visible one is kept, a hidden one becomes the start
  // of the fold that hides it, and anything behind the end becomes the end.
  lemma RoundTripFromSource(content: string, folds: seq<Range>, x: nat)
    ensures var p, kept := Project(content, folds), FoldsOf(content, folds);
            var back := SourceOffset(p, DisplayOffset(p, x));
            if x >= Size(content) then back == Size(content)
            else if Hides(kept, x) then exists i :: 0 <= i < |kept| && In(kept[i], x) && back == kept[i].start
            else back == x
  {
    OffsetsRoundTrip(content, folds, x);
    EndsAreBoundaries(content);
    KeptChains(content, Sort(folds, FoldKey), 0);
    var kept := FoldsOf(content, folds);
    assert Project(content, folds).segments == [] + Build(content, kept, 0, 0) == Build(content, kept, 0, 0);
    if x < Size(content) { AnchorIsFold(content, kept, 0, 0, x); }
  }

  lemma {:induction false} ChainStarts(content: string, kept: seq<Range>, from: nat, i: nat)
    requires Chain(content, kept, from) && i < |kept|
    ensures kept[0].start <= kept[i].start
    decreases |kept|
  {
    if i > 0 { ChainStarts(content, kept[1..], kept[0].end, i - 1); }
  }

  // Hides the start of `r`, and all of it where both start at one place.
  predicate HidesAs(kept: Range, r: Range) { In(kept, r.start) && (kept.start == r.start ==> r.end <= kept.end) }

  ghost predicate HidesFold(kept: seq<Range>, r: Range) { exists i :: 0 <= i < |kept| && HidesAs(kept[i], r) }

  lemma {:induction false} KeptHides(content: string, folds: seq<Range>, cursor: nat, r: Range)
    requires Sorted(folds, FoldKey) && r in folds && Foldable(content, r) && cursor <= r.start
    ensures HidesFold(Kept(content, folds, cursor), r)
    decreases |folds|
  {
    var h, rest := folds[0], folds[1..];
    var i :| 0 <= i < |folds| && folds[i] == r;
    if i > 0 { assert Leq(FoldKey(h), FoldKey(r)) && rest[i - 1] == r; }
    if h.start < cursor || !Foldable(content, h) {
      KeptHides(content, rest, cursor, r);
    } else {
      var kept := Kept(content, folds, cursor);
      if In(h, r.start) {
        assert HidesAs(kept[0], r);
      } else {
        KeptHides(content, rest, h.end, r);
        var k :| 0 <= k < |Kept(content, rest, h.end)| && HidesAs(Kept(content, rest, h.end)[k], r);
        assert HidesAs(kept[k + 1], r);
      }
    }
  }

  // No valid fold is lost: its start is hidden by itself or by a fold around it.
  lemma EveryFoldHides(content: string, folds: seq<Range>, r: Range)
    requires r in folds && Foldable(content, r)
    ensures HidesFold(FoldsOf(content, folds), r)
  {
    SortSpec(folds, FoldKey);
    assert r in multiset(folds);
    assert r in multiset(Sort(folds, FoldKey));
    KeptHides(content, Sort(folds, FoldKey), 0, r);
  }

  // The order in which folds are supplied does not matter.
  lemma ProjectionIgnoresOrder(content: string, folds: seq<Range>, other: seq<Range>)
    requires multiset(folds) == multiset(other)
    ensures Project(content, folds) == Project(content, other)
  {
    FoldSortIgnoresOrder(folds, other);
  }

  lemma FoldKeyIdentifies(all: multiset<Range>)
    ensures KeyIdentifies(all, FoldKey)
  {
  }

  lemma FoldSortIgnoresOrder(folds: seq<Range>, other: seq<Range>)
    requires multiset(folds) == multiset(other)
    ensures Sort(folds, FoldKey) == Sort(other, FoldKey)
  {
    SortSpec(folds, FoldKey);
    SortSpec(other, FoldKey);
    FoldKeyIdentifies(multiset(Sort(folds, FoldKey)));
    SortedPermutationsAgree(Sort(folds, FoldKey), Sort(other, FoldKey), FoldKey);
  }

  // ----- what is visible is shown unchanged

  // Character `k` of `content`, shown as part of a piece copied behind `prefix`.
  lemma CopiedChar(prefix: string, content: string, i: nat, j: nat, suffix: string, k: nat)
    requires i <= k < j <= |content|
    ensures var text := prefix + content[i..j] + suffix;
            var d := Size(prefix) + (Off(content, k) - Off(content, i));
            && Off(content, i) <= Off(content, k)
            && Boundary(text, d) && Index(text, d) < |text| && text[Index(text, d)] == content[k]
  {
    var piece := content[i..j];
    var text := prefix + piece + suffix;
    assert text == prefix + (piece + suffix);
    OffConcat(prefix, piece + suffix, k - i);
    OffPrefix(piece + suffix, content[i..], k - i);
    assert (piece + suffix)[..k - i] == content[i..][..k - i];
    OffDrop(content, i, k - i);
    OffGrows(content, i, k);
    IndexOff(text, |prefix| + (k - i));
  }

  predicate ShowsChar(text: string, d: nat, c: char) {
    Boundary(text, d) && Index(text, d) < |text| && text[Index(text, d)] == c
  }

  lemma ShownLastPiece(content: string, cursor: nat, prefix: string, x: nat, default: nat)
    requires Chain(content, [], cursor) && cursor <= x < Size(content) && Boundary(content, x)
    requires Index(content, cursor) <= Index(content, x) < |content|
    ensures ShowsChar(prefix + Shown(content, [], cursor),
                      DisplayIn(Build(content, [], cursor, Size(prefix)), x, default), content[Index(content, x)])
  {
    var i := Index(content, cursor);
    CopiedChar(prefix, content, i, |content|, "", Index(content, x));
    assert prefix + content[i..|content|] + "" == prefix + content[i..];
  }

  lemma DisplayInGap(content: string, kept: seq<Range>, cursor: nat, out: nat, x: nat, default: nat)
    requires kept != [] && Chain(content, kept, cursor) && cursor <= x < kept[0].start
    ensures DisplayIn(Build(content, kept, cursor, out), x, default) == out + (x - cursor)
  {
  }

  lemma ShownGap(content: string, kept: seq<Range>, cursor: nat, prefix: string, x: nat, default: nat)
    requires kept != [] && Chain(content, kept, cursor) && cursor <= x < kept[0].start && Boundary(content, x)
    requires Index(content, cursor) <= Index(content, x) < |content|
    ensures ShowsChar(prefix + Shown(content, kept, cursor),
                      DisplayIn(Build(content, kept, cursor, Size(prefix)), x, default), content[Index(content, x)])
  {
    DisplayInGap(content, kept, cursor, Size(prefix), x, default);
    var suffix := ShownSplit(content, kept, cursor, prefix);
    GapChar(prefix + Shown(content, kept, cursor), prefix, content, Range(cursor, kept[0].start), suffix, x);
  }

  lemma ShownSplit(content: string, kept: seq<Range>, cursor: nat, prefix: string) returns (suffix: string)
    requires kept != []
    ensures prefix + Shown(content, kept, cursor) == prefix + Slice(content, cursor, kept[0].start) + suffix
  {
    suffix := PLACEHOLDER + Shown(content, kept[1..], kept[0].end);
  }

  lemma GapChar(text: string, prefix: string, content: string, gap: Range, suffix: string, x: nat)
    requires text == prefix + Slice(content, gap.start, gap.end) + suffix
    requires Boundary(content, gap.start) && Boundary(content, x) && Boundary(content, gap.end) && In(gap, x)
    ensures Index(content, x) < |content|
    ensures ShowsChar(text, Size(prefix) + (x - gap.start), content[Index(content, x)])
  {
    IndexMonotone(content, gap.start, x);
    IndexStrict(content, x, gap.end);
    CopiedChar(prefix, content, Index(content, gap.start), Index(content, gap.end), suffix, Index(content, x));
  }

  lemma {:induction false} ShownChar(content: string, kept: seq<Range>, cursor: nat, prefix: string, x: nat,
                                     default: nat)
    requires Chain(content, kept, cursor) && cursor <= x < Size(content) && Boundary(content, x)
    requires !Hides(kept, x)
    ensures Index(content, x) < |content|
    ensures ShowsChar(prefix + Shown(content, kept, cursor),
                      DisplayIn(Build(content, kept, cursor, Size(prefix)), x, default), content[Index(content, x)])
    decreases |kept|
  {
    EndsAreBoundaries(content);
    IndexStrict(content, x, Size(content));
    IndexMonotone(content, cursor, x);
    if kept == [] {
      ShownLastPiece(content, cursor, prefix, x, default);
    } else if x < kept[0].start {
      ShownGap(content, kept, cursor, prefix, x, default);
    } else {
      var r := kept[0];
      assert !In(r, x);
      HidesTail(kept, x);
      var next := prefix + Slice(content, cursor, r.start) + PLACEHOLDER;
      ShownChar(content, kept[1..], r.end, next, x, default);
      ShownSkips(content, kept, cursor, prefix);
      DisplaySkips(content, kept, cursor, Size(prefix), x, default);
    }
  }

  lemma HidesTail(kept: seq<Range>, x: nat)
    requires kept != [] && !Hides(kept, x)
    ensures !Hides(kept[1..], x)
  {
    forall q | 0 <= q < |kept[1..]| ensures !In(kept[1..][q], x) { assert kept[1..][q] == kept[q + 1]; }
  }

  lemma ShownSkips(content: string, kept: seq<Range>, cursor: nat, prefix: string)
    requires Chain(content, kept, cursor) && kept != []
    ensures var next := prefix + Slice(content, cursor, kept[0].start) + PLACEHOLDER;
            && Size(next) == Size(prefix) + (kept[0].start - cursor) + Size(PLACEHOLDER)
            && prefix + Shown(content, kept, cursor) == next + Shown(content, kept[1..], kept[0].end)
  {
    var gap, rest := Slice(content, cursor, kept[0].start), Shown(content, kept[1..], kept[0].end);
    GapSize(content, cursor, kept[0].start, prefix);
    SizeConcat(prefix + gap, PLACEHOLDER);
    assert prefix + (gap + PLACEHOLDER + rest) == prefix + gap + PLACEHOLDER + rest;
  }

  lemma DisplaySkips(content: string, kept: seq<Range>, cursor: nat, out: nat, x: nat, default: nat)
    requires Chain(content, kept, cursor) && kept != [] && kept[0].end <= x
    ensures var end := out + (kept[0].start - cursor) + Size(PLACEHOLDER);
            DisplayIn(Build(content, kept, cursor, out), x, default)
            == DisplayIn(Build(content, kept[1..], kept[0].end, end), x, default)
  {
    var end := out + (kept[0].start - cursor) + Size(PLACEHOLDER);
    var all := Build(content, kept, cursor, out);
    assert all[1..][1..] == Build(content, kept[1..], kept[0].end, end);
  }

  // A character outside every effective fold appears at its display offset.
  lemma VisibleTextIsShown(content: string, folds: seq<Range>, x: nat)
    requires x < Size(content) && Boundary(content, x) && !Hides(FoldsOf(content, folds), x)
    ensures Index(content, x) < |content|
    ensures var p := Project(content, folds); ShowsChar(p.text, DisplayOffset(p, x), content[Index(content, x)])
  {
    EndsAreBoundaries(content);
    KeptChains(content, Sort(folds, FoldKey), 0);
    var kept := FoldsOf(content, folds);
    assert [] + Build(content, kept, 0, 0) == Build(content, kept, 0, 0);
    ShownChar(content, kept, 0, "", x, Size(Project(content, folds).text));
  }
}
