/** A single-line text field: content, caret and selection anchor in byte offsets. */
module TextEdits {
  import opened Common
  import opened Utf8
  import opened Text

  datatype CharClass = Space | Word | Punctuation

  // `char_class`; the alphanumeric table is a parameter.
  function ClassOf(c: char, alnum: char -> bool): CharClass {
    if Whitespace(c) then Space else if alnum(c) || c == '_' then Word else Punctuation
  }

  datatype Field = Field(content: string, cursor: nat, anchor: Option<nat>)

  datatype Motion = Left | Right | WordLeft | WordRight | Start | End

  datatype Operation =
    | SetContent(content: string)
    | SetSelection(start: nat, end: nat, reversed: bool)
    | SetCursor(offset: nat)
    | SelectAll
    | Replace(start: nat, end: nat, text: string)
    | Insert(text: string)
    | DeleteBackward
    | DeleteForward
    | DeleteWordBackward
    | Move(motion: Motion, extend: bool)

  // The caret and the anchor are boundaries, and a kept anchor selects something.
  predicate Valid(f: Field) {
    && Boundary(f.content, f.cursor)
    && (f.anchor.Some? ==> Boundary(f.content, f.anchor.value) && f.anchor.value != f.cursor)
  }

  // ----- reading

  function Selection(f: Field): (r: Range)
    ensures r.start <= r.end
  {
    match f.anchor
    case Some(a) => if a <= f.cursor then Range(a, f.cursor) else Range(f.cursor, a)
    case None => Range(f.cursor, f.cursor)
  }

  function Previous(s: string, b: nat): nat {
    if Index(s, b) == 0 then 0 else Off(s, Index(s, b) - 1)
  }

  function Next(s: string, b: nat): nat {
    if Index(s, b) == |s| then Floor(s, b) else Off(s, Index(s, b) + 1)
  }

  // Where the run of `kind` that ends before character `k` begins.
  function Back(s: string, k: nat, kind: CharClass, alnum: char -> bool): (j: nat)
    requires k <= |s|
    ensures j <= k
  {
    if k > 0 && ClassOf(s[k - 1], alnum) == kind then Back(s, k - 1, kind, alnum) else k
  }

  // Where the run of `kind` that begins at character `k` ends.
  function Ahead(s: string, k: nat, kind: CharClass, alnum: char -> bool): (j: nat)
    requires k <= |s|
    ensures k <= j <= |s|
    decreases |s| - k
  {
    if k < |s| && ClassOf(s[k], alnum) == kind then Ahead(s, k + 1, kind, alnum) else k
  }

  // `word_boundary_before` in characters: over the spaces, then over one run.
  function WordBefore(s: string, k: nat, alnum: char -> bool): (j: nat)
    requires k <= |s|
    ensures j <= k
  {
    var m := Back(s, k, Space, alnum);
    if m == 0 then 0 else Back(s, m, ClassOf(s[m - 1], alnum), alnum)
  }

  // `word_boundary_after` in characters
  function WordAfter(s: string, k: nat, alnum: char -> bool): (j: nat)
    requires k <= |s|
    ensures k <= j <= |s|
  {
    var m := Ahead(s, k, Space, alnum);
    if m == |s| then m else Ahead(s, m, ClassOf(s[m], alnum), alnum)
  }

  // The character a double click at byte `b` falls on.
  function Probe(s: string, b: nat): (k: nat)
    requires s != ""
    ensures k < |s|
  {
    if Index(s, b) == |s| then |s| - 1 else Index(s, b)
  }

  // `word_range_at`
  function WordRange(s: string, b: nat, alnum: char -> bool): Range {
    if s == "" then Range(0, 0) else
      var k := Probe(s, b);
      var kind := ClassOf(s[k], alnum);
      Range(Off(s, Back(s, k, kind, alnum)), Off(s, Ahead(s, k, kind, alnum)))
  }

  // ----- changing

  function Collapse(f: Field): Field {
    if f.anchor == Some(f.cursor) then f.(anchor := None) else f
  }

  function Placed(f: Field, offset: nat): Field { Field(f.content, Floor(f.content, offset), None) }

  function Replaced(f: Field, start: nat, end: nat, text: string): Field {
    var i := Index(f.content, start);
    var j := Max(i, Index(f.content, end));
    Field(f.content[..i] + text + f.content[j..], Off(f.content, i) + Size(text), None)
  }

  // The selection, or the part between the caret and `other` when there is none.
  function Doomed(f: Field, other: nat): Range {
    if Selection(f).start < Selection(f).end then Selection(f) else Range(Min(other, f.cursor), Max(other, f.cursor))
  }

  function Deleted(f: Field, range: Range): Field {
    if range.start < range.end then Replaced(f, range.start, range.end, "") else f
  }

  function Target(f: Field, motion: Motion, alnum: char -> bool): nat {
    match motion
    case Left => Previous(f.content, f.cursor)
    case Right => Next(f.content, f.cursor)
    case WordLeft => Off(f.content, WordBefore(f.content, Index(f.content, f.cursor), alnum))
    case WordRight => Off(f.content, WordAfter(f.content, Index(f.content, f.cursor), alnum))
    case Start => 0
    case End => Size(f.content)
  }

  function FixedEnd(f: Field): nat { if f.anchor.Some? then f.anchor.value else f.cursor }

  function Moved(f: Field, motion: Motion, extend: bool, alnum: char -> bool): Field {
    if extend then Collapse(Field(f.content, Target(f, motion, alnum), Some(FixedEnd(f))))
    else if f.anchor.Some? && (motion.Left? || motion.WordLeft?) then Placed(f, Selection(f).start)
    else if f.anchor.Some? && (motion.Right? || motion.WordRight?) then Placed(f, Selection(f).end)
    else Placed(f, Target(f, motion, alnum))
  }

  function Selected(f: Field, start: nat, end: nat, reversed: bool): Field {
    var a, b := Floor(f.content, start), Floor(f.content, Max(end, start));
    Collapse(if reversed then Field(f.content, a, Some(b)) else Field(f.content, b, Some(a)))
  }

  function Refreshed(f: Field, content: string): Field {
    Collapse(Field(content, Floor(content, f.cursor),
                   if f.anchor.Some? then Some(Floor(content, f.anchor.value)) else None))
  }

  function Step(f: Field, op: Operation, alnum: char -> bool): Field {
    match op
    case SetContent(content) => Refreshed(f, content)
    case SetSelection(start, end, reversed) => Selected(f, start, end, reversed)
    case SetCursor(offset) => Placed(f, offset)
    case SelectAll => Collapse(Field(f.content, Size(f.content), Some(0)))
    case Replace(start, end, text) => Replaced(f, start, end, text)
    case Insert(text) => Replaced(f, Selection(f).start, Selection(f).end, text)
    case DeleteBackward => Deleted(f, Doomed(f, Previous(f.content, f.cursor)))
    case DeleteForward => Deleted(f, Doomed(f, Next(f.content, f.cursor)))
    case DeleteWordBackward => Deleted(f, Doomed(f, Target(f, WordLeft, alnum)))
    case Move(motion, extend) => Moved(f, motion, extend, alnum)
  }

  function Run(f: Field, ops: seq<Operation>, alnum: char -> bool): Field
    decreases |ops|
  {
    if ops == [] then f else Run(Step(f, ops[0], alnum), ops[1..], alnum)
  }

  // ----- the invariant

  lemma PreviousSpec(s: string, b: nat)
    ensures Boundary(s, Previous(s, b)) && Previous(s, b) <= Floor(s, b)
    ensures Index(s, b) > 0 ==> Index(s, Previous(s, b)) == Index(s, b) - 1 && Previous(s, b) < Floor(s, b)
  {
    if Index(s, b) > 0 {
      IndexOff(s, Index(s, b) - 1);
      OffGrows(s, Index(s, b) - 1, Index(s, b));
    } else {
      EndsAreBoundaries(s);
    }
  }

  lemma NextSpec(s: string, b: nat)
    ensures Boundary(s, Next(s, b)) && Floor(s, b) <= Next(s, b)
    ensures Index(s, b) < |s| ==> Index(s, Next(s, b)) == Index(s, b) + 1 && Floor(s, b) < Next(s, b)
  {
    if Index(s, b) < |s| {
      IndexOff(s, Index(s, b) + 1);
      OffGrows(s, Index(s, b), Index(s, b) + 1);
    } else {
      FloorIsBoundary(s, b);
    }
  }

  lemma ReplacedSpec(f: Field, start: nat, end: nat, text: string)
    ensures var i := Index(f.content, start);
            var r := Replaced(f, start, end, text);
            Boundary(r.content, r.cursor) && Index(r.content, r.cursor) == i + |text|
  {
    var i, j := Index(f.content, start), Max(Index(f.content, start), Index(f.content, end));
    var head, tail := f.content[..i] + text, f.content[j..];
    OffConcat(head, tail, 0);
    SizeConcat(f.content[..i], text);
    OffPrefix(f.content[..i], f.content, i);
    IndexOff(head + tail, |head|);
  }

  lemma TargetIsBoundary(f: Field, motion: Motion, alnum: char -> bool)
    ensures Boundary(f.content, Target(f, motion, alnum))
  {
    var s, k := f.content, Index(f.content, f.cursor);
    match motion
    case Left => PreviousSpec(s, f.cursor);
    case Right => NextSpec(s, f.cursor);
    case WordLeft => IndexOff(s, WordBefore(s, k, alnum));
    case WordRight => IndexOff(s, WordAfter(s, k, alnum));
    case _ => EndsAreBoundaries(s);
  }

  lemma MovedKeepsValid(f: Field, motion: Motion, extend: bool, alnum: char -> bool)
    requires Valid(f)
    ensures Valid(Moved(f, motion, extend, alnum))
  {
    TargetIsBoundary(f, motion, alnum);
  }

  lemma StepKeepsValid(f: Field, op: Operation, alnum: char -> bool)
    requires Valid(f)
    ensures Valid(Step(f, op, alnum))
  {
    match op
    case SetContent(content) =>
      FloorIsBoundary(content, f.cursor);
      if f.anchor.Some? { FloorIsBoundary(content, f.anchor.value); }
    case SetSelection(start, end, _) =>
      FloorIsBoundary(f.content, start);
      FloorIsBoundary(f.content, Max(end, start));
    case SetCursor(offset) => FloorIsBoundary(f.content, offset);
    case SelectAll => EndsAreBoundaries(f.content);
    case Replace(start, end, text) => ReplacedSpec(f, start, end, text);
    case Insert(text) => ReplacedSpec(f, Selection(f).start, Selection(f).end, text);
    case DeleteBackward => DeletedKeepsValid(f, Doomed(f, Previous(f.content, f.cursor)));
    case DeleteForward => DeletedKeepsValid(f, Doomed(f, Next(f.content, f.cursor)));
    case DeleteWordBackward => DeletedKeepsValid(f, Doomed(f, Target(f, WordLeft, alnum)));
    case Move(motion, extend) => MovedKeepsValid(f, motion, extend, alnum);
  }

  lemma DeletedKeepsValid(f: Field, range: Range)
    requires Valid(f)
    ensures Valid(Deleted(f, range))
  {
    ReplacedSpec(f, range.start, range.end, "");
  }

  // Through every sequence of operations.
  lemma {:induction false} RunKeepsValid(f: Field, ops: seq<Operation>, alnum: char -> bool)
    requires Valid(f)
    ensures Valid(Run(f, ops, alnum))
    decreases |ops|
  {
    if ops != [] {
      StepKeepsValid(f, ops[0], alnum);
      RunKeepsValid(Step(f, ops[0], alnum), ops[1..], alnum);
    }
  }

  // ----- words

  // `[j, k)` is a run of `kind` that cannot be extended to the left.
  predicate RunEndingAt(s: string, j: nat, k: nat, kind: CharClass, alnum: char -> bool) {
    && j <= k <= |s|
    && (forall i | j <= i < k :: ClassOf(s[i], alnum) == kind)
    && (j == 0 || ClassOf(s[j - 1], alnum) != kind)
  }

  // `[j, k)` is a run of `kind` that cannot be extended to the right.
  predicate RunStartingAt(s: string, j: nat, k: nat, kind: CharClass, alnum: char -> bool) {
    && j <= k <= |s|
    && (forall i | j <= i < k :: ClassOf(s[i], alnum) == kind)
    && (k == |s| || ClassOf(s[k], alnum) != kind)
  }

  lemma {:induction false} BackIsMaximal(s: string, k: nat, kind: CharClass, alnum: char -> bool)
    requires k <= |s|
    ensures RunEndingAt(s, Back(s, k, kind, alnum), k, kind, alnum)
  {
    if k > 0 && ClassOf(s[k - 1], alnum) == kind { BackIsMaximal(s, k - 1, kind, alnum); }
  }

  lemma {:induction false} AheadIsMaximal(s: string, k: nat, kind: CharClass, alnum: char -> bool)
    requires k <= |s|
    ensures RunStartingAt(s, k, Ahead(s, k, kind, alnum), kind, alnum)
    decreases |s| - k
  {
    if k < |s| && ClassOf(s[k], alnum) == kind { AheadIsMaximal(s, k + 1, kind, alnum); }
  }

  // Leftwards: spaces first, then exactly one maximal run, and never in place.
  lemma WordBeforeSpec(s: string, k: nat, alnum: char -> bool) returns (m: nat)
    requires k <= |s|
    ensures var j := WordBefore(s, k, alnum);
            && j <= m <= k && (k > 0 ==> j < k)
            && RunEndingAt(s, m, k, Space, alnum)
            && (m > 0 ==> j < m && RunEndingAt(s, j, m, ClassOf(s[j], alnum), alnum) && !ClassOf(s[j], alnum).Space?)
            && (m == 0 ==> j == 0)
  {
    m := Back(s, k, Space, alnum);
    BackIsMaximal(s, k, Space, alnum);
    if m > 0 { BackIsMaximal(s, m, ClassOf(s[m - 1], alnum), alnum); }
  }

  lemma WordAfterSpec(s: string, k: nat, alnum: char -> bool) returns (m: nat)
    requires k <= |s|
    ensures var j := WordAfter(s, k, alnum);
            && k <= m <= j <= |s| && (k < |s| ==> k < j)
            && RunStartingAt(s, k, m, Space, alnum)
            && (m < |s| ==>
                  m < j && RunStartingAt(s, m, j, ClassOf(s[m], alnum), alnum) && !ClassOf(s[m], alnum).Space?)
            && (m == |s| ==> j == |s|)
  {
    m := Ahead(s, k, Space, alnum);
    AheadIsMaximal(s, k, Space, alnum);
    if m < |s| { AheadIsMaximal(s, m, ClassOf(s[m], alnum), alnum); }
  }

  // A double click selects the maximal run of one class around the character it falls on, the last
  // one when it falls behind the text.
  lemma WordRangeSpec(s: string, b: nat, alnum: char -> bool)
    requires s != ""
    ensures var r := WordRange(s, b, alnum);
            var i, j, k := Index(s, r.start), Index(s, r.end), Probe(s, b);
            && Boundary(s, r.start) && Boundary(s, r.end) && i <= k < j
            && RunEndingAt(s, i, j, ClassOf(s[k], alnum), alnum)
            && RunStartingAt(s, i, j, ClassOf(s[k], alnum), alnum)
            && if b < Size(s) then Off(s, k) <= b < Off(s, k + 1) else k == |s| - 1
  {
    FloorBounds(s, b);
    if b >= Size(s) { IndexUnique(s, b, |s|); }
    var k := Probe(s, b);
    var kind := ClassOf(s[k], alnum);
    BackIsMaximal(s, k, kind, alnum);
    AheadIsMaximal(s, k, kind, alnum);
    IndexOff(s, Back(s, k, kind, alnum));
    IndexOff(s, Ahead(s, k, kind, alnum));
  }

  predicate Identifier(s: string, alnum: char -> bool) {
    forall c | c in s :: (alnum(c) || c == '_') && !Whitespace(c)
  }

  // Letters, digits and underscores hang together; anything else ends a word, and only blanks are
  // passed over.
  lemma IdentifiersAreWords(left: string, c: char, right: string, alnum: char -> bool)
    requires Identifier(left, alnum) && Identifier(right, alnum) && left != "" && right != "" && !alnum(c) && c != '_'
    ensures var s, i, j := left + [c] + right, |left|, |left| + 1;
            && WordAfter(s, 0, alnum) == i && WordBefore(s, |s|, alnum) == j
            && WordAfter(s, i, alnum) == (if Whitespace(c) then |s| else j)
            && WordBefore(s, j, alnum) == (if Whitespace(c) then 0 else i)
  {
    var s, i, j := left + [c] + right, |left|, |left| + 1;
    assert forall k | 0 <= k < i :: s[k] == left[k];
    assert forall k | j <= k < |s| :: s[k] == right[k - j];
    var a := WordAfterSpec(s, 0, alnum);
    var b := WordBeforeSpec(s, |s|, alnum);
    var d := WordAfterSpec(s, i, alnum);
    var e := WordBeforeSpec(s, j, alnum);
  }

  function Repeat(op: Operation, n: nat): seq<Operation> { seq(n, _ => op) }

  // Enough word motions always reach the edge.
  lemma {:induction false} WordRightReachesEnd(f: Field, n: nat, alnum: char -> bool)
    requires Valid(f) && f.anchor.None? && n + Index(f.content, f.cursor) >= |f.content|
    ensures Run(f, Repeat(Move(WordRight, false), n), alnum) == Field(f.content, Size(f.content), None)
    decreases n
  {
    var s, k := f.content, Index(f.content, f.cursor);
    if n > 0 {
      var m := WordAfterSpec(s, k, alnum);
      var g := Step(f, Move(WordRight, false), alnum);
      IndexOff(s, WordAfter(s, k, alnum));
      assert Repeat(Move(WordRight, false), n)[1..] == Repeat(Move(WordRight, false), n - 1);
      WordRightReachesEnd(g, n - 1, alnum);
    }
  }

  lemma {:induction false} WordLeftReachesStart(f: Field, n: nat, alnum: char -> bool)
    requires Valid(f) && f.anchor.None? && n >= Index(f.content, f.cursor)
    ensures Run(f, Repeat(Move(WordLeft, false), n), alnum) == Field(f.content, 0, None)
    decreases n
  {
    var s, k := f.content, Index(f.content, f.cursor);
    if n > 0 {
      var m := WordBeforeSpec(s, k, alnum);
      var g := Step(f, Move(WordLeft, false), alnum);
      IndexOff(s, WordBefore(s, k, alnum));
      assert Repeat(Move(WordLeft, false), n)[1..] == Repeat(Move(WordLeft, false), n - 1);
      WordLeftReachesStart(g, n - 1, alnum);
    }
  }

  // ----- operations that undo each other

  lemma TypeSpec(f: Field, i: nat, j: nat, c: char, alnum: char -> bool)
    requires Valid(f) && i == Index(f.content, Selection(f).start) && j == Index(f.content, Selection(f).end)
    ensures i <= j
    ensures var g := Step(f, Insert([c]), alnum);
            && Valid(g) && g.anchor.None? && Index(g.content, g.cursor) == i + 1
            && g.content[..i] == f.content[..i] && g.content[i + 1..] == f.content[j..]
            && Off(g.content, i) == Off(f.content, i)
  {
    var r := Selection(f);
    IndexMonotone(f.content, r.start, r.end);
    ReplacedSpec(f, r.start, r.end, [c]);
    var g := Step(f, Insert([c]), alnum);
    assert g.content[..i] == f.content[..i];
    OffPrefix(g.content, f.content, i);
  }

  // Typing a character over a selection and erasing it leaves the text without the selection.
  lemma TypeThenErase(f: Field, c: char, alnum: char -> bool)
    requires Valid(f)
    ensures Step(Step(f, Insert([c]), alnum), DeleteBackward, alnum)
            == Replaced(f, Selection(f).start, Selection(f).end, "")
    ensures f.anchor.None? ==> Step(Step(f, Insert([c]), alnum), DeleteBackward, alnum) == f
  {
    var s, i, j := f.content, Index(f.content, Selection(f).start), Index(f.content, Selection(f).end);
    TypeSpec(f, i, j, c, alnum);
    BackspaceTakesOne(Step(f, Insert([c]), alnum), alnum);
    assert s[..i] + "" + s[j..] == s[..i] + s[j..];
    if f.anchor.None? { assert s[..i] + s[i..] == s; }
  }

  lemma RightThenLeft(f: Field, alnum: char -> bool)
    requires Valid(f) && f.anchor.None? && Index(f.content, f.cursor) < |f.content|
    ensures Step(Step(f, Move(Right, false), alnum), Move(Left, false), alnum) == f
  {
    NextSpec(f.content, f.cursor);
  }

  // Shift keeps one end of the selection fixed and puts the caret on the other.
  lemma ExtendKeepsFixedEnd(f: Field, motion: Motion, alnum: char -> bool)
    ensures var g := Step(f, Move(motion, true), alnum);
            && g.content == f.content && g.cursor == Target(f, motion, alnum) && FixedEnd(g) == FixedEnd(f)
            && Selection(g) == Range(Min(FixedEnd(f), g.cursor), Max(FixedEnd(f), g.cursor))
  {
  }

  // ----- what each operation does, in characters

  // The text without the characters `[i, j)` and the caret where they were.
  function Without(f: Field, i: nat, j: nat): Field
    requires i <= j <= |f.content|
  {
    Field(f.content[..i] + f.content[j..], Off(f.content, i), None)
  }

  // With a selection, every deleting operation removes exactly the selection.
  lemma DeletingTakesSelection(f: Field, op: Operation, alnum: char -> bool)
    requires Valid(f) && f.anchor.Some? && (op.DeleteBackward? || op.DeleteForward? || op.DeleteWordBackward?)
    ensures var i, j := Index(f.content, Selection(f).start), Index(f.content, Selection(f).end);
            i < j && Step(f, op, alnum) == Without(f, i, j)
  {
    var r := Selection(f);
    IndexStrict(f.content, r.start, r.end);
    RemovesRange(f, r.start, r.end);
  }

  lemma RemovesRange(f: Field, start: nat, end: nat)
    requires Index(f.content, start) <= Index(f.content, end)
    ensures Replaced(f, start, end, "") == Without(f, Index(f.content, start), Index(f.content, end))
  {
    assert f.content[..Index(f.content, start)] + "" == f.content[..Index(f.content, start)];
  }

  lemma DeletesBackTo(f: Field, i: nat)
    requires Valid(f) && f.anchor.None? && i <= Index(f.content, f.cursor)
    ensures var k := Index(f.content, f.cursor);
            Deleted(f, Doomed(f, Off(f.content, i))) == if i == k then f else Without(f, i, k)
  {
    var s, k := f.content, Index(f.content, f.cursor);
    OffGrows(s, i, k);
    IndexOff(s, i);
    if i < k { RemovesRange(f, Off(s, i), f.cursor); }
  }

  lemma DeletesAheadTo(f: Field, j: nat)
    requires Valid(f) && f.anchor.None? && Index(f.content, f.cursor) <= j <= |f.content|
    ensures var k := Index(f.content, f.cursor);
            Deleted(f, Doomed(f, Off(f.content, j))) == if j == k then f else Without(f, k, j)
  {
    var s, k := f.content, Index(f.content, f.cursor);
    OffGrows(s, k, j);
    IndexOff(s, j);
    if k < j { RemovesRange(f, f.cursor, Off(s, j)); }
  }

  // Without one they remove the character before, the character after, or back to the word boundary,
  // and do nothing at the edge.
  lemma BackspaceTakesOne(f: Field, alnum: char -> bool)
    requires Valid(f) && f.anchor.None?
    ensures var k := Index(f.content, f.cursor);
            Step(f, DeleteBackward, alnum) == if k == 0 then f else Without(f, k - 1, k)
  {
    var k := Index(f.content, f.cursor);
    DeletesBackTo(f, if k == 0 then 0 else k - 1);
  }

  lemma DeleteTakesOne(f: Field, alnum: char -> bool)
    requires Valid(f) && f.anchor.None?
    ensures var k := Index(f.content, f.cursor);
            Step(f, DeleteForward, alnum) == if k == |f.content| then f else Without(f, k, k + 1)
  {
    var k := Index(f.content, f.cursor);
    DeletesAheadTo(f, if k == |f.content| then k else k + 1);
  }

  lemma DeleteWordTakesWord(f: Field, alnum: char -> bool)
    requires Valid(f) && f.anchor.None?
    ensures var k := Index(f.content, f.cursor);
            Step(f, DeleteWordBackward, alnum)
            == if k == 0 then f else Without(f, WordBefore(f.content, k, alnum), k)
  {
    var k := Index(f.content, f.cursor);
    DeletesBackTo(f, WordBefore(f.content, k, alnum));
    var m := WordBeforeSpec(f.content, k, alnum);
  }

  // Where each motion puts the caret of a collapsed field.
  lemma MotionsMoveBy(f: Field, alnum: char -> bool)
    requires Valid(f) && f.anchor.None?
    ensures var s, k := f.content, Index(f.content, f.cursor);
            && Step(f, Move(Start, false), alnum) == Field(s, 0, None)
            && Step(f, Move(End, false), alnum) == Field(s, Size(s), None)
            && Step(f, Move(Left, false), alnum) == Field(s, Off(s, if k == 0 then 0 else k - 1), None)
            && Step(f, Move(Right, false), alnum) == Field(s, Off(s, if k == |s| then k else k + 1), None)
            && Step(f, Move(WordLeft, false), alnum) == Field(s, Off(s, WordBefore(s, k, alnum)), None)
            && Step(f, Move(WordRight, false), alnum) == Field(s, Off(s, WordAfter(s, k, alnum)), None)
  {
    var s, k := f.content, Index(f.content, f.cursor);
    EndsAreBoundaries(s);
    PreviousSpec(s, f.cursor);
    NextSpec(s, f.cursor);
    IndexOff(s, WordBefore(s, k, alnum));
    IndexOff(s, WordAfter(s, k, alnum));
  }

  // A plain motion with a selection collapses to the edge it points at; the two ends ignore it.
  lemma MotionsCollapse(f: Field, alnum: char -> bool)
    requires Valid(f) && f.anchor.Some?
    ensures Step(f, Move(Left, false), alnum) == Field(f.content, Selection(f).start, None)
    ensures Step(f, Move(WordLeft, false), alnum) == Field(f.content, Selection(f).start, None)
    ensures Step(f, Move(Right, false), alnum) == Field(f.content, Selection(f).end, None)
    ensures Step(f, Move(WordRight, false), alnum) == Field(f.content, Selection(f).end, None)
    ensures Step(f, Move(Start, false), alnum) == Field(f.content, 0, None)
    ensures Step(f, Move(End, false), alnum) == Field(f.content, Size(f.content), None)
  {
    EndsAreBoundaries(f.content);
  }

  // Selecting: everything, or the range asked for when its ends are boundaries, with the caret at the
  // end asked for.
  lemma SelectingSelects(f: Field, start: nat, end: nat, reversed: bool, alnum: char -> bool)
    requires Boundary(f.content, start) && Boundary(f.content, end) && start < end
    ensures var g := Step(f, SetSelection(start, end, reversed), alnum);
            && Selection(g) == Range(start, end) && g.cursor == (if reversed then start else end)
            && g.content == f.content
    ensures Step(f, SelectAll, alnum) == Field(f.content, Size(f.content), Some(0))
    ensures Step(f, SetCursor(start), alnum) == Field(f.content, start, None)
  {
    OffGrows(f.content, 0, |f.content|);
  }

  // New content keeps the caret and the selection where they still fall on characters, and moves them
  // to its end when they lie beyond it.
  lemma NewContentKeepsPlaces(f: Field, content: string, alnum: char -> bool)
    requires Valid(f)
    ensures var g := Step(f, SetContent(content), alnum);
            && (Boundary(content, f.cursor) && (f.anchor.Some? ==> Boundary(content, f.anchor.value)) ==>
                  g == f.(content := content))
            && (f.cursor >= Size(content) && (f.anchor.Some? ==> f.anchor.value >= Size(content)) ==>
                  g == Field(content, Size(content), None))
  {
    if f.cursor >= Size(content) { IndexUnique(content, f.cursor, |content|); }
    if f.anchor.Some? && f.anchor.value >= Size(content) { IndexUnique(content, f.anchor.value, |content|); }
  }

  // Inserting puts the text where the selection was and the caret behind it.
  lemma InsertingReplacesSelection(f: Field, text: string, alnum: char -> bool)
    requires Valid(f)
    ensures var i, j := Index(f.content, Selection(f).start), Index(f.content, Selection(f).end);
            && i <= j
            && Step(f, Insert(text), alnum)
               == Field(f.content[..i] + text + f.content[j..], Off(f.content, i) + Size(text), None)
  {
    IndexMonotone(f.content, Selection(f).start, Selection(f).end);
  }

  // ----- the field itself

  // Steps back over characters of one class.
  method SkipBack(s: string, from: nat, kind: CharClass, alnum: char -> bool) returns (b: nat)
    requires Boundary(s, from)
    ensures b == Off(s, Back(s, Index(s, from), kind, alnum))
  {
    b := from;
    while b > 0
      invariant Boundary(s, b) && b <= from
      invariant Back(s, Index(s, b), kind, alnum) == Back(s, Index(s, from), kind, alnum)
      decreases b
    {
      var previous := Previous(s, b);
      PreviousSpec(s, b);
      EndsAreBoundaries(s);
      IndexStrict(s, 0, b);
      if ClassOf(s[Index(s, previous)], alnum) != kind {
        break;
      }
      b := previous;
    }
    EndsAreBoundaries(s);
  }

  // Steps ahead over characters of one class.
  method SkipAhead(s: string, from: nat, kind: CharClass, alnum: char -> bool) returns (b: nat)
    requires Boundary(s, from)
    ensures b == Off(s, Ahead(s, Index(s, from), kind, alnum))
  {
    b := from;
    FloorBounds(s, from);
    EndsAreBoundaries(s);
    while b < Size(s)
      invariant Boundary(s, b) && b <= Size(s)
      invariant Ahead(s, Index(s, b), kind, alnum) == Ahead(s, Index(s, from), kind, alnum)
      decreases Size(s) - b
    {
      IndexStrict(s, b, Size(s));
      NextSpec(s, b);
      if ClassOf(s[Index(s, b)], alnum) != kind {
        break;
      }
      b := b + Width(s[Index(s, b)]);
      FloorBounds(s, b);
    }
  }

  class TextEdit {
    const alnum: char -> bool
    var content: string
    var cursor: nat
    var anchor: Option<nat>

    function State(): Field
      reads this
    {
      Field(content, cursor, anchor)
    }

    // `new`
    constructor (content: string, alnum: char -> bool)
      ensures this.alnum == alnum && State() == Field(content, Size(content), None) && Valid(State())
    {
      this.content, this.cursor, this.anchor, this.alnum := content, Size(content), None, alnum;
      EndsAreBoundaries(content);
    }

    // `collapse_empty_selection`
    method CollapseEmptySelection()
      modifies `anchor
      ensures State() == Collapse(old(State()))
    {
      if anchor == Some(cursor) {
        anchor := None;
      }
    }

    method SetContent(text: string)
      requires Valid(State())
      modifies this
      ensures State() == Step(old(State()), Operation.SetContent(text), alnum) && Valid(State())
    {
      StepKeepsValid(State(), Operation.SetContent(text), alnum);
      content := text;
      cursor := FloorByStepping(content, cursor);
      if anchor.Some? {
        var a := FloorByStepping(content, anchor.value);
        anchor := Some(a);
      }
      CollapseEmptySelection();
    }

    method SetSelection(start: nat, end: nat, reversed: bool)
      requires Valid(State())
      modifies this
      ensures State() == Step(old(State()), Operation.SetSelection(start, end, reversed), alnum) && Valid(State())
    {
      StepKeepsValid(State(), Operation.SetSelection(start, end, reversed), alnum);
      var a := FloorByStepping(content, start);
      var b := FloorByStepping(content, Max(end, start));
      if reversed {
        cursor, anchor := a, Some(b);
      } else {
        cursor, anchor := b, Some(a);
      }
      CollapseEmptySelection();
    }

    method SetCursor(offset: nat)
      requires Valid(State())
      modifies this
      ensures State() == Step(old(State()), Operation.SetCursor(offset), alnum) && Valid(State())
    {
      StepKeepsValid(State(), Operation.SetCursor(offset), alnum);
      cursor := FloorByStepping(content, offset);
      anchor := None;
    }

    method SelectAll()
      requires Valid(State())
      modifies this
      ensures State() == Step(old(State()), Operation.SelectAll, alnum) && Valid(State())
    {
      StepKeepsValid(State(), Operation.SelectAll, alnum);
      anchor := Some(0);
      cursor := Size(content);
      CollapseEmptySelection();
    }

    method Replace(start: nat, end: nat, text: string)
      requires Valid(State())
      modifies this
      ensures State() == Step(old(State()), Operation.Replace(start, end, text), alnum) && Valid(State())
    {
      StepKeepsValid(State(), Operation.Replace(start, end, text), alnum);
      var a := FloorByStepping(content, start);
      var b := FloorByStepping(content, end);
      FlooredRange(content, start, end);
      content := content[..Index(content, a)] + text + content[Index(content, Max(a, b))..];
      cursor := a + Size(text);
      anchor := None;
    }

    method Insert(text: string)
      requires Valid(State())
      modifies this
      ensures State() == Step(old(State()), Operation.Insert(text), alnum) && Valid(State())
    {
      Replace(Selection(State()).start, Selection(State()).end, text);
    }

    // The shared tail of the deleting operations.
    method DeleteRange(range: Range) returns (changed: bool)
      requires Valid(State())
      modifies this
      ensures State() == Deleted(old(State()), range) && Valid(State())
      ensures changed == (range.start < range.end)
    {
      if range.start >= range.end {
        return false;
      }
      Replace(range.start, range.end, "");
      changed := true;
    }

    method DeleteBackward() returns (changed: bool)
      requires Valid(State())
      modifies this
      ensures State() == Step(old(State()), Operation.DeleteBackward, alnum) && Valid(State())
      ensures changed == (old(anchor.Some?) || old(cursor) > 0)
    {
      var range := Selection(State());
      PreviousSpec(content, cursor);
      EdgeIndex(content, cursor);
      if range.start == range.end {
        range := Range(Previous(content, cursor), cursor);
      }
      changed := DeleteRange(range);
    }

    method DeleteForward() returns (changed: bool)
      requires Valid(State())
      modifies this
      ensures State() == Step(old(State()), Operation.DeleteForward, alnum) && Valid(State())
      ensures changed == (old(anchor.Some?) || old(cursor) < Size(old(content)))
    {
      var range := Selection(State());
      NextSpec(content, cursor);
      EdgeIndex(content, cursor);
      if range.start == range.end {
        range := Range(cursor, Next(content, cursor));
      }
      changed := DeleteRange(range);
    }

    method DeleteWordBackward() returns (changed: bool)
      requires Valid(State())
      modifies this
      ensures State() == Step(old(State()), Operation.DeleteWordBackward, alnum) && Valid(State())
      ensures changed == (old(anchor.Some?) || old(cursor) > 0)
    {
      var range := Selection(State());
      WordTargets(State(), alnum);
      if range.start == range.end {
        var before := WordBoundaryBefore(cursor);
        range := Range(before, cursor);
      }
      assert range == Doomed(State(), Target(State(), WordLeft, alnum));
      changed := DeleteRange(range);
    }

    method WordBoundaryBefore(offset: nat) returns (b: nat)
      ensures b == Off(content, WordBefore(content, Index(content, offset), alnum))
    {
      var from := FloorByStepping(content, offset);
      IndexOff(content, Index(content, offset));
      var skipped := SkipBack(content, from, Space, alnum);
      var m := Back(content, Index(content, offset), Space, alnum);
      IndexOff(content, m);
      if m == 0 {
        return skipped;
      }
      b := SkipBack(content, skipped, ClassOf(content[m - 1], alnum), alnum);
    }

    method WordBoundaryAfter(offset: nat) returns (b: nat)
      ensures b == Off(content, WordAfter(content, Index(content, offset), alnum))
    {
      var from := FloorByStepping(content, offset);
      IndexOff(content, Index(content, offset));
      var skipped := SkipAhead(content, from, Space, alnum);
      var m := Ahead(content, Index(content, offset), Space, alnum);
      IndexOff(content, m);
      if m == |content| {
        return skipped;
      }
      b := SkipAhead(content, skipped, ClassOf(content[m], alnum), alnum);
    }

    method WordRangeAt(offset: nat) returns (r: Range)
      ensures r == WordRange(content, offset, alnum)
    {
      if content == "" {
        return Range(0, 0);
      }
      var from := FloorByStepping(content, offset);
      IndexOff(content, Index(content, offset));
      EdgeIndex(content, from);
      PreviousSpec(content, from);
      var probe := if from == Size(content) then Previous(content, from) else from;
      var kind := ClassOf(content[Index(content, probe)], alnum);
      var start := SkipBack(content, probe, kind, alnum);
      var end := SkipAhead(content, probe, kind, alnum);
      r := Range(start, end);
    }

    method Move(motion: Motion, extend: bool)
      requires Valid(State())
      modifies this
      ensures State() == Step(old(State()), Operation.Move(motion, extend), alnum) && Valid(State())
    {
      StepKeepsValid(State(), Operation.Move(motion, extend), alnum);
      if !extend && anchor.Some? {
        if motion.Left? || motion.WordLeft? {
          SetCursor(Selection(State()).start);
          return;
        }
        if motion.Right? || motion.WordRight? {
          SetCursor(Selection(State()).end);
          return;
        }
      }
      var next;
      match motion {
        case Left => next := Previous(content, cursor);
        case Right => next := Next(content, cursor);
        case WordLeft => next := WordBoundaryBefore(cursor);
        case WordRight => next := WordBoundaryAfter(cursor);
        case Start => next := 0;
        case End => next := Size(content);
      }
      if extend {
        anchor := Some(FixedEnd(State()));
        cursor := next;
        CollapseEmptySelection();
      } else {
        SetCursor(next);
      }
    }
  }

  lemma FlooredRange(s: string, start: nat, end: nat)
    ensures Index(s, Floor(s, start)) == Index(s, start)
    ensures Index(s, Max(Floor(s, start), Floor(s, end))) == Max(Index(s, start), Index(s, end))
  {
    IndexOff(s, Index(s, start));
    IndexOff(s, Index(s, end));
    if start <= end { IndexMonotone(s, start, end); } else { IndexMonotone(s, end, start); }
  }

  lemma EdgeIndex(s: string, b: nat)
    requires Boundary(s, b)
    ensures Index(s, b) == 0 <==> b == 0
    ensures Index(s, b) == |s| <==> b == Size(s)
  {
    EndsAreBoundaries(s);
  }

  lemma WordTargets(f: Field, alnum: char -> bool)
    requires Valid(f)
    ensures Target(f, WordLeft, alnum) <= f.cursor
    ensures Target(f, WordLeft, alnum) < f.cursor <==> f.cursor > 0
  {
    var s, k := f.content, Index(f.content, f.cursor);
    var m := WordBeforeSpec(s, k, alnum);
    EdgeIndex(s, f.cursor);
    OffGrows(s, WordBefore(s, k, alnum), k);
  }
}
