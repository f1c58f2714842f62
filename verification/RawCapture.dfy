/** Capturing the output of one command on a device, and deciding when it has ended. */
module RawCapture {
  import opened Common
  import opened Utf8
  import opened Text
  import opened PromptLines

  const OUTPUT_LIMIT := 1024 * 1024
  const PROMPT_SETTLE := 400      // milliseconds
  const UNKNOWN_IDLE := 8000

  datatype Ending = Prompt | Interaction | IdleUnconfirmed | TimedOut | Truncated

  datatype Capture = Capture(
    output: string, line: Line, expected: Option<string>, lastOutput: int, received: bool, truncated: bool)

  // `new`: remembers the prompt before the command, if it is one.
  function Begin(initial: string, now: int): Capture {
    var prompt := Trim(Shown(Feed(NEW, initial)));
    Capture("", NEW, if PromptShape(prompt) then Some(prompt) else None, now, false, false)
  }

  // How much of a chunk still fits.
  function Keep(c: Capture, text: string): string {
    var room := if Size(c.output) <= OUTPUT_LIMIT then OUTPUT_LIMIT - Size(c.output) else 0;
    text[..Index(text, Min(Size(text), room))]
  }

  // `feed`
  function Fed(c: Capture, text: string, now: int): Capture {
    if text == "" then c else
      var kept := Keep(c, text);
      var truncated := c.truncated || Size(kept) < Size(text);
      Capture(c.output + kept, if truncated then c.line else Feed(c.line, text), c.expected, now, true, truncated)
  }

  function Since(now: int, then_: int): nat { if now < then_ then 0 else now - then_ }

  // `poll`
  function Poll(c: Capture, now: int, deadline: int): Option<Ending> {
    if c.truncated then Some(Truncated)
    else if now >= deadline then Some(TimedOut)
    else if !c.received || Since(now, c.lastOutput) < PROMPT_SETTLE then None
    else
      var line := Trim(Shown(c.line));
      if InputWait(line) then Some(Interaction)
      else if PromptShape(line) && c.expected.Some? && SameDevice(c.expected.value, line) then Some(Prompt)
      else if c.expected.None? && Since(now, c.lastOutput) >= UNKNOWN_IDLE then Some(IdleUnconfirmed)
      else None
  }

  // ----- chunks

  datatype Chunk = Chunk(text: string, at: int)

  function FedAll(c: Capture, chunks: seq<Chunk>): Capture
    decreases |chunks|
  {
    if chunks == [] then c
    else Fed(FedAll(c, chunks[..|chunks| - 1]), chunks[|chunks| - 1].text, chunks[|chunks| - 1].at)
  }

  function Joined(chunks: seq<Chunk>): string {
    if chunks == [] then "" else Joined(chunks[..|chunks| - 1]) + chunks[|chunks| - 1].text
  }

  // The time of the last chunk that carried text.
  function LastArrival(chunks: seq<Chunk>, start: int): int {
    if chunks == [] then start
    else if chunks[|chunks| - 1].text != "" then chunks[|chunks| - 1].at
    else LastArrival(chunks[..|chunks| - 1], start)
  }

  lemma KeepSpec(c: Capture, text: string)
    ensures Keep(c, text) <= text
    ensures Size(c.output) <= OUTPUT_LIMIT ==> Size(c.output + Keep(c, text)) <= OUTPUT_LIMIT
    ensures Size(c.output) <= OUTPUT_LIMIT ==>
              (Size(Keep(c, text)) == Size(text) <==> Size(c.output) + Size(text) <= OUTPUT_LIMIT)
    ensures Size(Keep(c, text)) <= Size(text)
    ensures Size(Keep(c, text)) == Size(text) ==> Keep(c, text) == text
  {
    var room := if Size(c.output) <= OUTPUT_LIMIT then OUTPUT_LIMIT - Size(c.output) else 0;
    var b := Min(Size(text), room);
    var k := Index(text, b);
    FloorBounds(text, b);
    OffPrefix(text[..k], text, k);
    SizeConcat(c.output, Keep(c, text));
    if k < |text| { OffGrows(text, k, |text|); }
    if Size(text) <= room { EndsAreBoundaries(text); assert text[..|text|] == text; }
  }

  // What is known of a capture that was fed `text` in all, in whatever pieces.
  ghost predicate Tracks(c: Capture, initial: Capture, text: string) {
    && Size(c.output) <= OUTPUT_LIMIT
    && c.expected == initial.expected
    && c.received == (text != "")
    && c.truncated == (Size(text) > OUTPUT_LIMIT)
    && (!c.truncated ==> c.output == text && c.line == Feed(NEW, text))
  }

  lemma FedTracks(c: Capture, initial: Capture, text: string, chunk: Chunk)
    requires Tracks(c, initial, text)
    ensures Tracks(Fed(c, chunk.text, chunk.at), initial, text + chunk.text)
  {
    KeepSpec(c, chunk.text);
    SizeConcat(text, chunk.text);
    FeedConcat(NEW, text, chunk.text);
    assert chunk.text == "" ==> text + chunk.text == text;
  }

  // Truncated exactly when the bytes exceed the limit; otherwise the output is complete
  // and the observer is where one run over it would be.
  lemma {:induction false} CaptureIsExact(initial: string, start: int, chunks: seq<Chunk>)
    ensures Tracks(FedAll(Begin(initial, start), chunks), Begin(initial, start), Joined(chunks))
    ensures FedAll(Begin(initial, start), chunks).lastOutput == LastArrival(chunks, start)
    decreases |chunks|
  {
    if chunks != [] {
      var front, last := chunks[..|chunks| - 1], chunks[|chunks| - 1];
      CaptureIsExact(initial, start, front);
      FedTracks(FedAll(Begin(initial, start), front), Begin(initial, start), Joined(front), last);
    } else {
      assert Size("") == 0;
    }
  }

  // Cutting the same output differently changes no decision.
  lemma PollIgnoresChunking(initial: string, start: int, a: seq<Chunk>, b: seq<Chunk>, now: int, deadline: int)
    requires Joined(a) == Joined(b) && LastArrival(a, start) == LastArrival(b, start)
    ensures Poll(FedAll(Begin(initial, start), a), now, deadline)
            == Poll(FedAll(Begin(initial, start), b), now, deadline)
  {
    CaptureIsExact(initial, start, a);
    CaptureIsExact(initial, start, b);
  }

  // A prompt is only ever reported for complete, settled output of a recognised device.
  lemma PromptMeans(initial: string, start: int, chunks: seq<Chunk>, now: int, deadline: int)
    requires Poll(FedAll(Begin(initial, start), chunks), now, deadline) == Some(Prompt)
    ensures FedAll(Begin(initial, start), chunks).output == Joined(chunks) && Size(Joined(chunks)) <= OUTPUT_LIMIT
    ensures Joined(chunks) != "" && LastArrival(chunks, start) + PROMPT_SETTLE <= now < deadline
    ensures var before := Trim(Shown(Feed(NEW, initial)));
            var after := Trim(Shown(Feed(NEW, Joined(chunks))));
            PromptShape(before) && PromptShape(after) && Related(before, after) && !InputWait(after)
  {
    CaptureIsExact(initial, start, chunks);
    SameDeviceExactly(Trim(Shown(Feed(NEW, initial))), Trim(Shown(Feed(NEW, Joined(chunks)))));
  }

  // The line that is shown once `text` has arrived.
  function Line(text: string): string { Trim(Shown(Feed(NEW, text))) }

  // Something arrived, all of it was kept, nothing has arrived for a while, and there is time left.
  predicate Quiet(chunks: seq<Chunk>, start: int, now: int, deadline: int) {
    && Joined(chunks) != "" && Size(Joined(chunks)) <= 1048576
    && LastArrival(chunks, start) + 400 <= now < deadline
  }

  // The device's prompt before the command came back.
  predicate Returned(initial: string, text: string) {
    PromptShape(Line(initial)) && PromptShape(Line(text)) && Related(Line(initial), Line(text))
  }

  // Exactly when each ending is reported, and exactly when none is.
  lemma EndingsExactly(initial: string, start: int, chunks: seq<Chunk>, now: int, deadline: int)
    ensures var r := Poll(FedAll(Begin(initial, start), chunks), now, deadline);
            var text := Joined(chunks);
            var quiet, waits := Quiet(chunks, start, now, deadline), InputWait(Line(Joined(chunks)));
            && (r == Some(Truncated) <==> Size(text) > 1048576)
            && (r == Some(TimedOut) <==> Size(text) <= 1048576 && deadline <= now)
            && (r == Some(Interaction) <==> quiet && waits)
            && (r == Some(Prompt) <==> quiet && !waits && Returned(initial, text))
            && (r == Some(IdleUnconfirmed) <==>
                  quiet && !waits && !PromptShape(Line(initial)) && LastArrival(chunks, start) + 8000 <= now)
            && (r == None <==>
                  && Size(text) <= 1048576 && now < deadline
                  && (quiet ==>
                        && !waits && !Returned(initial, text)
                        && (PromptShape(Line(initial)) || now < LastArrival(chunks, start) + 8000)))
  {
    CaptureIsExact(initial, start, chunks);
    var before, after := Line(initial), Line(Joined(chunks));
    if PromptShape(before) && PromptShape(after) { SameDeviceExactly(before, after); }
  }

  // Truncation is permanent, and is all that is reported from then on.
  lemma {:induction false} TruncationIsPermanent(c: Capture, chunks: seq<Chunk>, now: int, deadline: int)
    requires c.truncated
    ensures FedAll(c, chunks).truncated && Poll(FedAll(c, chunks), now, deadline) == Some(Truncated)
    decreases |chunks|
  {
    if chunks != [] { TruncationIsPermanent(c, chunks[..|chunks| - 1], now, deadline); }
  }

  // ----- what is stored once output was cut

  // Where output is cut for the first time, and the bytes that stay free there.
  function CutAt(text: string): nat { Index(text, OUTPUT_LIMIT) }

  function RoomLeft(text: string): int { OUTPUT_LIMIT - Floor(text, OUTPUT_LIMIT) }

  // No chunk that comes after the first cut begins with a character that fits the room left.
  predicate NothingFitsLater(chunks: seq<Chunk>) {
    chunks == []
    || (var front, last := chunks[..|chunks| - 1], chunks[|chunks| - 1].text;
        && NothingFitsLater(front)
        && (Size(Joined(front)) > OUTPUT_LIMIT && last != "" ==> Width(last[0]) > RoomLeft(Joined(front))))
  }

  // The character at the cut is too wide for the room left.
  lemma CutIsTight(text: string)
    requires Size(text) > OUTPUT_LIMIT
    ensures CutAt(text) < |text| && Width(text[CutAt(text)]) > RoomLeft(text) && 0 <= RoomLeft(text)
  {
    FloorBounds(text, OUTPUT_LIMIT);
  }

  // Nothing was stored beyond the first cut, or something was that does not belong there.
  predicate CutCleanly(output: string, text: string) { output == text[..CutAt(text)] }

  predicate Diverged(output: string, text: string) {
    var k := CutAt(text);
    k < |output| && output[..k] == text[..k] && Width(output[k]) <= RoomLeft(text)
  }

  lemma KeepOfRoom(c: Capture, text: string)
    requires text != "" && Size(c.output) <= OUTPUT_LIMIT
    ensures Keep(c, text) != "" <==> Width(text[0]) <= OUTPUT_LIMIT - Size(c.output)
    ensures Keep(c, text) != "" ==> Keep(c, text)[0] == text[0]
  {
    var room := OUTPUT_LIMIT - Size(c.output);
    var b := Min(Size(text), room);
    assert Off(text, 1) == Off(text, 0) + Width(text[0]);
    OffGrows(text, 1, |text|);
    if Width(text[0]) <= room {
      IndexOff(text, 1);
      IndexMonotone(text, Off(text, 1), b);
    } else {
      IndexUnique(text, b, 0);
    }
  }

  lemma FirstCut(c: Capture, text: string, more: string)
    requires c.output == text && Size(text) <= OUTPUT_LIMIT < Size(text + more)
    ensures CutCleanly(c.output + Keep(c, more), text + more)
  {
    SizeConcat(text, more);
    IndexConcat(text, more, OUTPUT_LIMIT);
    var k := Index(more, OUTPUT_LIMIT - Size(text));
    assert Keep(c, more) == more[..k];
    assert (text + more)[..|text| + k] == text + more[..k];
  }

  lemma CutSize(text: string)
    ensures Size(text[..CutAt(text)]) == Floor(text, OUTPUT_LIMIT)
  {
    OffPrefix(text[..CutAt(text)], text, CutAt(text));
  }

  lemma LaterCut(c: Capture, text: string, more: string)
    requires CutCleanly(c.output, text) && Size(text) > OUTPUT_LIMIT && more != ""
    ensures if Width(more[0]) > RoomLeft(text) then CutCleanly(c.output + Keep(c, more), text + more)
            else Diverged(c.output + Keep(c, more), text + more)
  {
    CutIsTight(text);
    CutSize(text);
    KeepOfRoom(c, more);
    IndexStays(text, more, OUTPUT_LIMIT);
    var k := CutAt(text);
    assert (text + more)[..k] == text[..k];
    if Width(more[0]) > RoomLeft(text) {
      assert c.output + Keep(c, more) == c.output;
    } else {
      assert (c.output + Keep(c, more))[..k] == text[..k] && (c.output + Keep(c, more))[k] == more[0];
    }
  }

  lemma StaysDiverged(output: string, kept: string, text: string, more: string)
    requires Diverged(output, text) && Size(text) > OUTPUT_LIMIT
    ensures Diverged(output + kept, text + more)
  {
    CutIsTight(text);
    IndexStays(text, more, OUTPUT_LIMIT);
    var k := CutAt(text);
    assert (output + kept)[..k] == output[..k] && (text + more)[..k] == text[..k];
  }

  lemma StoredStep(c: Capture, text: string, more: string, clean: bool)
    requires Size(text) <= OUTPUT_LIMIT ==> c.output == text
    requires Size(text) > OUTPUT_LIMIT ==> if clean then CutCleanly(c.output, text) else Diverged(c.output, text)
    requires Size(text + more) > OUTPUT_LIMIT && (Size(text) <= OUTPUT_LIMIT ==> clean)
    ensures var now := clean && (Size(text) > OUTPUT_LIMIT && more != "" ==> Width(more[0]) > RoomLeft(text));
            var output := if more == "" then c.output else c.output + Keep(c, more);
            if now then CutCleanly(output, text + more) else Diverged(output, text + more)
  {
    if more == "" {
      assert text + more == text;
    } else if Size(text) <= OUTPUT_LIMIT {
      FirstCut(c, text, more);
    } else if clean {
      LaterCut(c, text, more);
    } else {
      StaysDiverged(c.output, Keep(c, more), text, more);
    }
  }

  lemma NothingFitsEarly(chunks: seq<Chunk>)
    requires Size(Joined(chunks)) <= OUTPUT_LIMIT
    ensures NothingFitsLater(chunks)
  {
    if chunks != [] {
      var front := chunks[..|chunks| - 1];
      SizeConcat(Joined(front), chunks[|chunks| - 1].text);
      NothingFitsEarly(front);
    }
  }

  lemma {:induction false} StoredOutput(initial: string, start: int, chunks: seq<Chunk>)
    ensures var c, text := FedAll(Begin(initial, start), chunks), Joined(chunks);
            Size(text) > OUTPUT_LIMIT ==>
              if NothingFitsLater(chunks) then CutCleanly(c.output, text) else Diverged(c.output, text)
    decreases |chunks|
  {
    if chunks == [] {
      assert Size("") == 0;
    } else if Size(Joined(chunks)) > OUTPUT_LIMIT {
      var front := chunks[..|chunks| - 1];
      CaptureIsExact(initial, start, front);
      StoredOutput(initial, start, front);
      if Size(Joined(front)) <= OUTPUT_LIMIT { NothingFitsEarly(front); }
      StoredStep(FedAll(Begin(initial, start), front), Joined(front), chunks[|chunks| - 1].text,
                 NothingFitsLater(front));
    }
  }

  // The stored output is a prefix of what arrived exactly when, after the first cut, no chunk
  // begins with a character that fits the room left; it is then cut at the limit.
  lemma OutputIsPrefixIff(initial: string, start: int, chunks: seq<Chunk>)
    ensures var output, text := FedAll(Begin(initial, start), chunks).output, Joined(chunks);
            && (output <= text <==> NothingFitsLater(chunks))
            && (NothingFitsLater(chunks) ==> output == text[..CutAt(text)])
  {
    var text := Joined(chunks);
    CaptureIsExact(initial, start, chunks);
    if Size(text) <= OUTPUT_LIMIT {
      NothingFitsEarly(chunks);
      EndsAreBoundaries(text);
      IndexMonotone(text, Size(text), OUTPUT_LIMIT);
      assert text[..|text|] == text;
    } else {
      StoredOutput(initial, start, chunks);
      CutIsTight(text);
    }
  }

  // One byte short of the limit, a character of two bytes, then one of one byte.
  function SkippingChunks(): seq<Chunk> {
    [Chunk(seq(OUTPUT_LIMIT - 1, _ => 'a'), 0), Chunk([0xe9 as char], 0), Chunk("x", 0)]
  }

  lemma JoinedLast(front: seq<Chunk>, last: Chunk)
    ensures Joined(front + [last]) == Joined(front) + last.text
    ensures NothingFitsLater(front + [last]) ==>
              (Size(Joined(front)) > OUTPUT_LIMIT && last.text != "" ==> Width(last.text[0]) > RoomLeft(Joined(front)))
  {
    assert (front + [last])[..|front|] == front;
  }

  lemma JoinedTwo(a: Chunk, b: Chunk)
    ensures Joined([a, b]) == a.text + b.text
  {
    JoinedLast([], a);
    JoinedLast([a], b);
    assert [] + [a] == [a] && [a] + [b] == [a, b];
    assert Joined([]) + a.text == a.text;
  }

  // So the output of this run of chunks is not a prefix of what arrived.
  lemma OutputMaySkip(initial: string, start: int)
    ensures !(FedAll(Begin(initial, start), SkippingChunks()).output <= Joined(SkippingChunks()))
  {
    var all := SkippingChunks();
    JoinedTwo(all[0], all[1]);
    RoomAfterFill(all[0].text, all[1].text);
    assert all == [all[0], all[1]] + [all[2]];
    JoinedLast([all[0], all[1]], all[2]);
    OutputIsPrefixIff(initial, start, all);
  }

  lemma RoomAfterFill(fill: string, wide: string)
    requires |fill| == OUTPUT_LIMIT - 1 && forall i | 0 <= i < |fill| :: fill[i] as int < 0x80
    requires wide == [0xe9 as char]
    ensures Size(fill + wide) > OUTPUT_LIMIT && RoomLeft(fill + wide) == 1
  {
    AsciiSize(fill, |fill|);
    assert Off(wide, 1) == Off(wide, 0) + 2;
    SizeConcat(fill, wide);
    IndexConcat(fill, wide, OUTPUT_LIMIT);
    IndexUnique(wide, 1, 0);
    OffConcat(fill, wide, 0);
  }

  class RawCliCapture {
    var output: string
    const line: PromptLine
    var expected: Option<string>
    var lastOutput: int
    var received: bool
    var truncated: bool

    function State(): Capture
      reads this, line
    {
      Capture(output, line.State(), expected, lastOutput, received, truncated)
    }

    // `new`
    constructor (initial: string, now: int)
      ensures State() == Begin(initial, now) && Bounded(State().line) && fresh(line)
    {
      var observer := new PromptLine();
      observer.FeedText(initial);
      var prompt := Trim(Shown(observer.State()));
      output := "";
      line := new PromptLine();
      expected := if PromptShape(prompt) then Some(prompt) else None;
      lastOutput, received, truncated := now, false, false;
    }

    // `feed`
    method FeedText(text: string, now: int)
      requires Bounded(State().line)
      modifies this, line
      ensures State() == Fed(old(State()), text, now) && Bounded(State().line)
    {
      if text == "" {
        return;
      }
      received := true;
      lastOutput := now;
      var room := if Size(output) <= OUTPUT_LIMIT then OUTPUT_LIMIT - Size(output) else 0;
      var keep := FloorByStepping(text, Min(Size(text), room));
      KeptSize(text, Min(Size(text), room));
      output := output + text[..Index(text, keep)];
      truncated := truncated || keep < Size(text);
      if !truncated {
        line.FeedText(text);
      }
    }
  }

  lemma KeptSize(text: string, b: nat)
    ensures Index(text, Floor(text, b)) == Index(text, b)
    ensures Size(text[..Index(text, b)]) == Floor(text, b)
  {
    IndexOff(text, Index(text, b));
    OffPrefix(text[..Index(text, b)], text, Index(text, b));
  }
}
