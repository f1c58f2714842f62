/** Atomic multi-edit transactions on a text document. */
module DocumentEdit {
  import opened Common
  import opened Utf8
  import opened StableSort
  import opened Selections

  datatype Edit = Edit(range: Range, text: string)

  function EditKey(e: Edit): Key { (e.range.start, e.range.end) }

  datatype Snapshot = Snapshot(content: string, anchor: nat, head: nat, additional: seq<Range>)

  // ----- which transactions are accepted

  predicate Apart(a: Edit, b: Edit) {
    a.range.end <= b.range.start || b.range.end <= a.range.start
  }

  // Said of the list as the caller wrote it, in any order.
  ghost predicate Applicable(content: string, edits: seq<Edit>) {
    && (forall e | e in edits :: WellFormed(content, e.range))
    && Pairwise(edits, Apart)
  }

  // Said of the sorted list: each edit starts no earlier than the previous one ends.
  predicate Ordered(content: string, edits: seq<Edit>, from: nat) {
    edits == [] ||
    (from <= edits[0].range.start && WellFormed(content, edits[0].range)
     && Ordered(content, edits[1..], edits[0].range.end))
  }

  // For sorted edits it is enough that the first one stays clear of the next.
  lemma ApartFromSorted(content: string, x: Edit, rest: seq<Edit>)
    requires Sorted([x] + rest, EditKey) && WellFormed(content, x.range)
    requires forall e | e in rest :: WellFormed(content, e.range)
    ensures RelatedTo(x, rest, Apart) <==> (rest != [] ==> x.range.end <= rest[0].range.start)
  {
    var s := [x] + rest;
    forall i | 0 <= i < |rest|
      ensures Leq(EditKey(x), EditKey(rest[i])) && Leq(EditKey(rest[0]), EditKey(rest[i]))
      ensures WellFormed(content, rest[i].range)
    {
      assert Leq(EditKey(s[0]), EditKey(s[i + 1]));
      if i > 0 { assert Leq(EditKey(s[1]), EditKey(s[i + 1])); }
    }
    if rest != [] { assert rest[0] in rest; }
  }

  lemma {:induction false} SortedOrdered(content: string, s: seq<Edit>, from: nat)
    requires Sorted(s, EditKey)
    ensures Ordered(content, s, from) <==>
            Applicable(content, s) && (s != [] ==> from <= s[0].range.start)
  {
    if s != [] {
      var x, rest := s[0], s[1..];
      SortedOrdered(content, rest, x.range.end);
      assert s == [x] + rest;
      assert forall e :: e in s <==> e == x || e in rest;
      if WellFormed(content, x.range) && forall e | e in rest :: WellFormed(content, e.range) {
        ApartFromSorted(content, x, rest);
      }
    }
  }

  lemma AcceptedIffApplicable(content: string, edits: seq<Edit>)
    ensures Ordered(content, Sort(edits, EditKey), 0) <==> Applicable(content, edits)
  {
    SortSpec(edits, EditKey);
    SortedOrdered(content, Sort(edits, EditKey), 0);
    SortPairwise(edits, EditKey, Apart);
    SortMembers(edits, EditKey);
  }

  // ----- the simultaneous splice

  // Keep what lies between the edits, put each text in place of its range.
  function Splice(content: string, edits: seq<Edit>, from: nat): string
    requires Ordered(content, edits, from)
  {
    if edits == [] then content[Index(content, from)..]
    else
      Slice(content, from, edits[0].range.start) + edits[0].text
      + Splice(content, edits[1..], edits[0].range.end)
  }

  // End of the previous edit's range.
  function Before(edits: seq<Edit>, n: nat): nat
    requires n <= |edits|
  {
    if n == 0 then 0 else edits[n - 1].range.end
  }

  // The result up to and including the text of edit `n - 1`.
  function Head(content: string, edits: seq<Edit>, n: nat): string
    requires n <= |edits|
  {
    if n == 0 then ""
    else
      Head(content, edits, n - 1)
      + Slice(content, Before(edits, n - 1), edits[n - 1].range.start) + edits[n - 1].text
  }

  lemma {:induction false} OrderedAt(content: string, edits: seq<Edit>, n: nat)
    requires Ordered(content, edits, 0) && n <= |edits|
    ensures Ordered(content, edits[n..], Before(edits, n)) && Boundary(content, Before(edits, n))
    ensures n < |edits| ==> Before(edits, n) <= edits[n].range.start && WellFormed(content, edits[n].range)
  {
    if n == 0 {
      assert edits[0..] == edits;
      EndsAreBoundaries(content);
    } else {
      OrderedAt(content, edits, n - 1);
      assert edits[n - 1..][1..] == edits[n..];
    }
  }

  lemma SpliceAt(content: string, edits: seq<Edit>, n: nat)
    requires Ordered(content, edits, 0) && n < |edits|
    ensures Ordered(content, edits[n..], Before(edits, n)) && Ordered(content, edits[n + 1..], edits[n].range.end)
    ensures Splice(content, edits[n..], Before(edits, n)) ==
            Slice(content, Before(edits, n), edits[n].range.start) + edits[n].text
            + Splice(content, edits[n + 1..], edits[n].range.end)
  {
    OrderedAt(content, edits, n);
    OrderedAt(content, edits, n + 1);
    assert edits[n..][1..] == edits[n + 1..];
  }

  lemma Reassociate(a: string, b: string, c: string, d: string)
    ensures a + (b + c + d) == (a + b + c) + d
  {
  }

  lemma {:induction false} HeadThenRest(content: string, edits: seq<Edit>, n: nat)
    requires Ordered(content, edits, 0) && n <= |edits|
    ensures Ordered(content, edits[n..], Before(edits, n))
    ensures Splice(content, edits, 0) ==
            Head(content, edits, n) + Splice(content, edits[n..], Before(edits, n))
  {
    OrderedAt(content, edits, n);
    if n == 0 {
      assert edits[0..] == edits;
    } else {
      HeadThenRest(content, edits, n - 1);
      SpliceAt(content, edits, n - 1);
      Reassociate(Head(content, edits, n - 1), Slice(content, Before(edits, n - 1), edits[n - 1].range.start),
                  edits[n - 1].text, Splice(content, edits[n..], edits[n - 1].range.end));
    }
  }

  lemma SliceSize(content: string, a: nat, b: nat)
    requires a <= b && Boundary(content, a) && Boundary(content, b)
    ensures Size(Slice(content, a, b)) == b - a
  {
    IndexMonotone(content, a, b);
    SizeSlice(content, Index(content, a), Index(content, b));
  }

  // One step of the cursor computation.
  lemma HeadSize(content: string, edits: seq<Edit>, n: nat)
    requires Ordered(content, edits, 0) && n < |edits|
    ensures Size(Head(content, edits, n + 1)) ==
            Size(Head(content, edits, n)) - Before(edits, n) + edits[n].range.start + Size(edits[n].text)
  {
    OrderedAt(content, edits, n);
    var gap := Slice(content, Before(edits, n), edits[n].range.start);
    SliceSize(content, Before(edits, n), edits[n].range.start);
    SizeConcat(Head(content, edits, n) + gap, edits[n].text);
    SizeConcat(Head(content, edits, n), gap);
  }

  // Every cursor is a char boundary of the result.
  lemma HeadIsBoundary(content: string, edits: seq<Edit>, n: nat)
    requires Ordered(content, edits, 0) && n <= |edits|
    ensures Boundary(Splice(content, edits, 0), Size(Head(content, edits, n)))
  {
    HeadThenRest(content, edits, n);
    var head, rest := Head(content, edits, n), Splice(content, edits[n..], Before(edits, n));
    OffConcat(head, rest, 0);
    IndexOff(head + rest, |head|);
  }

  // ----- replacing in place

  // `String::replace_range`
  function ReplaceRange(content: string, r: Range, text: string): string {
    content[..Index(content, r.start)] + text + content[Index(content, r.end)..]
  }

  // The text while the edits from `n` on are in place and the earlier ones are not.
  ghost function Partly(content: string, edits: seq<Edit>, n: nat): string
    requires Ordered(content, edits, 0) && n <= |edits|
  {
    OrderedAt(content, edits, n);
    content[..Index(content, Before(edits, n))] + Splice(content, edits[n..], Before(edits, n))
  }

  lemma PartlyEnds(content: string, edits: seq<Edit>)
    requires Ordered(content, edits, 0)
    ensures Partly(content, edits, |edits|) == content
    ensures Partly(content, edits, 0) == Splice(content, edits, 0)
  {
    var k := Index(content, Before(edits, |edits|));
    assert content == content[..k] + content[k..];
    EndsAreBoundaries(content);
    OrderedAt(content, edits, 0);
    assert edits[0..] == edits;
  }

  // On a text that starts like `content`, replacing a range of that start is local.
  lemma ReplaceInPrefix(content: string, r: Range, text: string, rest: string)
    requires WellFormed(content, r)
    ensures ReplaceRange(content[..Index(content, r.end)] + rest, r, text)
            == content[..Index(content, r.start)] + text + rest
  {
    var p := Index(content, r.end);
    var now := content[..p] + rest;
    assert now[..p] == content[..p];
    IndexMonotone(content, r.start, r.end);
    IndexInPrefix(content, now, p, r.start);
    IndexInPrefix(content, now, p, r.end);
    var j := Index(content, r.start);
    assert now[..j] == content[..j] && now[p..] == rest;
  }

  lemma PartlyStep(content: string, edits: seq<Edit>, n: nat)
    requires Ordered(content, edits, 0) && n < |edits|
    ensures Ordered(content, edits[n + 1..], edits[n].range.end)
    ensures Partly(content, edits, n) == content[..Index(content, edits[n].range.start)] + edits[n].text
                                         + Splice(content, edits[n + 1..], edits[n].range.end)
  {
    OrderedAt(content, edits, n);
    SpliceAt(content, edits, n);
    IndexMonotone(content, Before(edits, n), edits[n].range.start);
    var i, j := Index(content, Before(edits, n)), Index(content, edits[n].range.start);
    assert content[..j] == content[..i] + content[i..j];
    Reassociate(content[..i], content[i..j], edits[n].text, Splice(content, edits[n + 1..], edits[n].range.end));
  }

  // Replacing the last untouched range leaves all earlier offsets alone.
  lemma ReplaceStep(content: string, edits: seq<Edit>, n: nat)
    requires Ordered(content, edits, 0) && n < |edits|
    ensures ReplaceRange(Partly(content, edits, n + 1), edits[n].range, edits[n].text)
            == Partly(content, edits, n)
  {
    OrderedAt(content, edits, n);
    PartlyStep(content, edits, n);
    ReplaceInPrefix(content, edits[n].range, edits[n].text, Splice(content, edits[n + 1..], edits[n].range.end));
  }

  // ----- the document

  const UNDO_LIMIT := 64

  // The undo stack after a checkpoint: the oldest entry goes once there are more than 64.
  function Pushed(stack: seq<Snapshot>, top: Snapshot): seq<Snapshot> {
    if |stack| >= UNDO_LIMIT then stack[1..] + [top] else stack + [top]
  }

  function Caret(at: nat): Range { Range(at, at) }

  // Where each edit leaves a caret.
  ghost function Carets(content: string, edits: seq<Edit>): seq<Range> {
    seq(|edits|, i requires 0 <= i < |edits| => Caret(Size(Head(content, edits, i + 1))))
  }

  class TextDocument {
    var content: string
    var anchor: nat
    var head: nat
    var additional: seq<Range>
    var undo: seq<Snapshot>
    var redo: seq<Snapshot>

    constructor (content: string, cursor: nat)
      ensures this.content == content && anchor == head == Floor(content, cursor)
      ensures additional == [] && undo == [] && redo == []
    {
      var c := FloorByStepping(content, cursor);
      this.content, anchor, head := content, c, c;
      additional, undo, redo := [], [], [];
    }

    function Now(): Snapshot
      reads this
    {
      Snapshot(content, anchor, head, additional)
    }

    // `checkpoint`
    method Checkpoint()
      modifies this`undo, this`redo
      ensures undo == Pushed(old(undo), Now()) && redo == []
      ensures undo == (if |old(undo)| < 64 then old(undo) else old(undo)[1..]) + [Now()]
    {
      undo := undo + [Now()];
      if |undo| > UNDO_LIMIT {
        undo := undo[1..];
      }
      redo := [];
    }

    // The replacement loop of `apply`.
    method ReplaceFromBack(sorted: seq<Edit>)
      requires Ordered(content, sorted, 0)
      modifies this`content
      ensures content == Splice(old(content), sorted, 0)
    {
      PartlyEnds(content, sorted);
      var n := |sorted|;
      while n > 0
        invariant 0 <= n <= |sorted|
        invariant content == Partly(old(content), sorted, n)
      {
        n := n - 1;
        ReplaceOne(old(content), sorted, n);
      }
    }

    method ReplaceOne(ghost before: string, sorted: seq<Edit>, n: nat)
      requires Ordered(before, sorted, 0) && n < |sorted| && content == Partly(before, sorted, n + 1)
      modifies this`content
      ensures content == Partly(before, sorted, n)
    {
      ReplaceStep(before, sorted, n);
      content := ReplaceRange(content, sorted[n].range, sorted[n].text);
    }

    // The second half of `apply`, once the transaction has been validated.
    method Commit(sorted: seq<Edit>)
      requires Ordered(content, sorted, 0) && sorted != []
      modifies this
      ensures content == Splice(old(content), sorted, 0)
      ensures undo == Pushed(old(undo), old(Now())) && redo == []
      ensures additional + [Range(anchor, head)] == Carets(old(content), sorted)
    {
      Checkpoint();
      var cursors := Cursors(content, sorted);
      ReplaceFromBack(sorted);
      Place(cursors);
    }

    // The last cursor becomes the primary selection.
    method Place(cursors: seq<Range>)
      requires cursors != []
      modifies this`anchor, this`head, this`additional
      ensures additional + [Range(anchor, head)] == cursors
    {
      var primary := cursors[|cursors| - 1];
      anchor, head := primary.start, primary.end;
      additional := cursors[..|cursors| - 1];
    }

    // `apply`: validate the whole transaction, then replace from the back.
    method Apply(edits: seq<Edit>) returns (ok: bool)
      modifies this
      ensures ok <==> Applicable(old(content), edits)
      ensures ok <==> Ordered(old(content), Sort(edits, EditKey), 0)
      ensures !ok || edits == [] ==> unchanged(this)
      ensures ok && edits != [] ==>
        && content == Splice(old(content), Sort(edits, EditKey), 0)
        && undo == Pushed(old(undo), old(Now())) && redo == []
        && additional + [Range(anchor, head)] == Carets(old(content), Sort(edits, EditKey))
    {
      var sorted := Sort(edits, EditKey);
      SortSize(edits, EditKey);
      AcceptedIffApplicable(content, edits);
      ok := Validate(content, sorted);
      if ok && sorted != [] {
        Commit(sorted);
      }
    }

    // What `selections` normalises: the extra selections and the primary one.
    function Selected(): seq<Range>
      reads this
    {
      additional + [Range(Min(anchor, head), Max(anchor, head))]
    }

    // `selections`
    method CurrentSelections() returns (ranges: seq<Range>)
      ensures ranges == Normalize(content, Selected())
      ensures SelectsExactly(content, additional, anchor, head, ranges)
    {
      ranges := NormalizeSelections(content, Selected());
      NormalizedSelects(content, additional, anchor, head);
    }

    // `replace_selections`: whatever is selected, the replacement goes through.
    method ReplaceSelections(text: string) returns (ok: bool, ghost ranges: seq<Range>)
      modifies this
      ensures ok && SelectsExactly(old(content), old(additional), old(anchor), old(head), ranges)
      ensures var edits := Retyped(ranges, text);
              && edits != [] && Ordered(old(content), edits, 0)
              && content == Splice(old(content), edits, 0)
              && additional + [Range(anchor, head)] == Carets(old(content), edits)
      ensures undo == Pushed(old(undo), old(Now())) && redo == []
    {
      var found := CurrentSelections();
      ranges := found;
      RetypedIsOrdered(content, Selected(), text);
      ok := Apply(Retyped(found, text));
    }
  }

  // An extra selection, or the primary one between anchor and head.
  predicate Chosen(additional: seq<Range>, anchor: nat, head: nat, r: Range) {
    r in additional || r == Range(Min(anchor, head), Max(anchor, head))
  }

  // `ranges` are normal and select what was chosen: every chosen range, moved to char boundaries, lies
  // inside one of them, they cover no byte besides, and no end of theirs is invented.
  ghost predicate SelectsExactly(content: string, additional: seq<Range>, anchor: nat, head: nat, ranges: seq<Range>) {
    && Normal(content, ranges) && ranges != []
    && (forall r | Chosen(additional, anchor, head, r) :: Inside(ranges, Snap(content, r)))
    && (forall p :: Covers(ranges, p) <==> ChosenAt(content, additional, anchor, head, p))
    && (forall x | x in ranges ::
          && (exists r :: Chosen(additional, anchor, head, r) && Snap(content, r).start == x.start)
          && (exists r :: Chosen(additional, anchor, head, r) && Snap(content, r).end == x.end))
  }

  ghost predicate ChosenAt(content: string, additional: seq<Range>, anchor: nat, head: nat, p: int) {
    exists r :: Chosen(additional, anchor, head, r) && Snap(content, r).start <= p < Snap(content, r).end
  }

  lemma ChosenIsSnapped(content: string, additional: seq<Range>, anchor: nat, head: nat, r: Range) returns (i: nat)
    requires Chosen(additional, anchor, head, r)
    ensures var all := additional + [Range(Min(anchor, head), Max(anchor, head))];
            i < |all| && all[i] == r && SnapAll(content, all)[i] == Snap(content, r)
  {
    if r in additional { i :| 0 <= i < |additional| && additional[i] == r; } else { i := |additional|; }
  }

  lemma SnappedIsChosen(content: string, additional: seq<Range>, anchor: nat, head: nat, x: Range) returns (r: Range)
    requires x in SnapAll(content, additional + [Range(Min(anchor, head), Max(anchor, head))])
    ensures Chosen(additional, anchor, head, r) && Snap(content, r) == x
  {
    var all := additional + [Range(Min(anchor, head), Max(anchor, head))];
    var i :| 0 <= i < |SnapAll(content, all)| && SnapAll(content, all)[i] == x;
    r := all[i];
  }

  lemma CoverageIsChosen(content: string, additional: seq<Range>, anchor: nat, head: nat, p: int)
    ensures Covers(SnapAll(content, additional + [Range(Min(anchor, head), Max(anchor, head))]), p)
            <==> ChosenAt(content, additional, anchor, head, p)
  {
    var all := additional + [Range(Min(anchor, head), Max(anchor, head))];
    var snapped := SnapAll(content, all);
    if Covers(snapped, p) {
      var i :| 0 <= i < |snapped| && snapped[i].start <= p < snapped[i].end;
      var r := SnappedIsChosen(content, additional, anchor, head, snapped[i]);
    }
    if ChosenAt(content, additional, anchor, head, p) {
      var r :| Chosen(additional, anchor, head, r) && Snap(content, r).start <= p < Snap(content, r).end;
      var i := ChosenIsSnapped(content, additional, anchor, head, r);
    }
  }

  lemma NormalizedSelects(content: string, additional: seq<Range>, anchor: nat, head: nat)
    ensures SelectsExactly(content, additional, anchor, head,
                           Normalize(content, additional + [Range(Min(anchor, head), Max(anchor, head))]))
  {
    var all := additional + [Range(Min(anchor, head), Max(anchor, head))];
    var ranges := Normalize(content, all);
    NormalizeSpec(content, all);
    NormalizeEnds(content, all);
    assert Inside(ranges, Snap(content, all[|additional|]));
    forall r | Chosen(additional, anchor, head, r) ensures Inside(ranges, Snap(content, r)) {
      var i := ChosenIsSnapped(content, additional, anchor, head, r);
      assert Inside(ranges, Snap(content, all[i]));
    }
    forall p ensures Covers(ranges, p) <==> ChosenAt(content, additional, anchor, head, p) {
      CoverageIsChosen(content, additional, anchor, head, p);
    }
    forall x | x in ranges
      ensures exists r :: Chosen(additional, anchor, head, r) && Snap(content, r).start == x.start
      ensures exists r :: Chosen(additional, anchor, head, r) && Snap(content, r).end == x.end
    {
      var a :| a in SnapAll(content, all) && a.start == x.start;
      var b :| b in SnapAll(content, all) && b.end == x.end;
      var r := SnappedIsChosen(content, additional, anchor, head, a);
      var q := SnappedIsChosen(content, additional, anchor, head, b);
    }
  }

  // One edit per range, all with the same text.
  function Retyped(ranges: seq<Range>, text: string): seq<Edit> {
    seq(|ranges|, i requires 0 <= i < |ranges| => Edit(ranges[i], text))
  }

  lemma RetypedIsOrdered(content: string, ranges: seq<Range>, text: string)
    ensures var edits := Retyped(Normalize(content, ranges), text);
            Sort(edits, EditKey) == edits && Ordered(content, edits, 0)
  {
    var normal := Normalize(content, ranges);
    var edits := Retyped(normal, text);
    NormalizeSpec(content, ranges);
    forall i, j | 0 <= i < j < |edits| ensures Leq(EditKey(edits[i]), EditKey(edits[j])) {
      NormalSorted(content, normal, i, j);
    }
    SortOfSorted(edits, EditKey);
    RetypedFrom(content, normal, text, 0);
    assert edits[0..] == edits;
  }

  lemma {:induction false} RetypedFrom(content: string, normal: seq<Range>, text: string, n: nat)
    requires Normal(content, normal) && n <= |normal|
    ensures Ordered(content, Retyped(normal, text)[n..], if n == 0 then 0 else normal[n - 1].end)
    decreases |normal| - n
  {
    if n < |normal| {
      RetypedFrom(content, normal, text, n + 1);
      var edits := Retyped(normal, text);
      assert edits[n..][1..] == edits[n + 1..] && edits[n..][0] == Edit(normal[n], text);
      assert WellFormed(content, normal[n]);
    }
  }

  // Each caret sits right after its inserted text, on a char boundary of the result.
  lemma CaretsFollowInsertions(content: string, edits: seq<Edit>, i: nat)
    requires Ordered(content, edits, 0) && i < |edits|
    ensures var result, at := Splice(content, edits, 0), Carets(content, edits)[i].start;
            && Carets(content, edits)[i] == Caret(at)
            && Boundary(result, at)
            && Head(content, edits, i + 1) <= result
            && result[..Index(result, at)] == Head(content, edits, i + 1)
  {
    HeadThenRest(content, edits, i + 1);
    HeadIsBoundary(content, edits, i + 1);
    var head, rest := Head(content, edits, i + 1), Splice(content, edits[i + 1..], Before(edits, i + 1));
    OffConcat(head, rest, 0);
    IndexOff(head + rest, |head|);
  }

  method Validate(content: string, sorted: seq<Edit>) returns (ok: bool)
    ensures ok <==> Ordered(content, sorted, 0)
  {
    var previousEnd := 0;
    var i := 0;
    while i < |sorted|
      invariant 0 <= i <= |sorted|
      invariant Ordered(content, sorted, 0) <==> Ordered(content, sorted[i..], previousEnd)
    {
      var r := sorted[i].range;
      assert sorted[i..][1..] == sorted[i + 1..];
      if r.start < previousEnd || r.start > r.end || r.end > Size(content)
         || !Boundary(content, r.start) || !Boundary(content, r.end)
      {
        FloorBounds(content, r.end);
        return false;
      }
      previousEnd := r.end;
      i := i + 1;
    }
    return true;
  }

  // How far the edits before the i-th move what follows them.
  ghost function ShiftAt(content: string, sorted: seq<Edit>, i: nat): int
    requires i <= |sorted|
  {
    Size(Head(content, sorted, i)) - Before(sorted, i)
  }

  // One step of the cursor loop: the shift is what the result has gained so far.
  lemma NextCaret(content: string, sorted: seq<Edit>, i: nat, shift: int)
    requires Ordered(content, sorted, 0) && i < |sorted| && shift == ShiftAt(content, sorted, i)
    ensures sorted[i].range.start + shift >= 0
    ensures Carets(content, sorted)[i] == Caret(sorted[i].range.start + shift + Size(sorted[i].text))
    ensures shift + Size(sorted[i].text) - (sorted[i].range.end - sorted[i].range.start)
            == ShiftAt(content, sorted, i + 1)
  {
    OrderedAt(content, sorted, i);
    HeadSize(content, sorted, i);
  }

  // The carets, computed from a running signed shift before anything is replaced.
  method Cursors(content: string, sorted: seq<Edit>) returns (cursors: seq<Range>)
    requires Ordered(content, sorted, 0)
    ensures cursors == Carets(content, sorted)
  {
    var shift: int := 0;
    cursors := [];
    ghost var goal := Carets(content, sorted);
    assert |goal| == |sorted|;
    var i := 0;
    while i < |sorted|
      invariant 0 <= i <= |sorted| && cursors == goal[..i]
      invariant shift == ShiftAt(content, sorted, i)
    {
      NextCaret(content, sorted, i, shift);
      TakeNext(goal, i);
      var e := sorted[i];
      cursors := cursors + [Caret(e.range.start + shift + Size(e.text))];
      shift := shift + Size(e.text) - (e.range.end - e.range.start);
      i := i + 1;
    }
  }
}
