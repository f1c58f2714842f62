/** The incremental observer of the last terminal line, and the prompt shapes it is compared with. */
module PromptLines {
  import opened Common
  import opened Utf8
  import opened Text

  const BELL: char := 7 as char
  const BACKSPACE: char := 8 as char
  const ESCAPE: char := 0x1b as char
  const LINE_LIMIT := 512
  const CSI_LIMIT := 32

  // `escape`: 0 text, 1 after ESC, 2 control sequence, 3 operating system command, 4 after ESC inside one
  datatype Line = Line(line: string, previous: string, cursor: nat, escape: nat, csi: string, overflow: bool)

  const NEW := Line("", "", 0, 0, "", false)

  // Final bytes of a control sequence (section 5.4 of ECMA-48)
  predicate Final(c: char) { 0x40 <= c as int <= 0x7e }

  function Put(l: Line, c: char): Line {
    if l.cursor >= LINE_LIMIT then l.(overflow := true)
    else if l.cursor < |l.line| then l.(line := l.line[l.cursor := c], cursor := l.cursor + 1)
    else l.(line := l.line + [c], cursor := l.cursor + 1)
  }

  function NewLine(l: Line): Line {
    Line("", if l.overflow then "" else if l.line != "" then l.line else l.previous, 0, l.escape, l.csi, false)
  }

  function EndSequence(l: Line, c: char): Line {
    if c == 'K' then
      if l.csi == "2" then l.(line := "", cursor := 0, escape := 0)
      else l.(line := l.line[..Min(l.cursor, |l.line|)], escape := 0)
    else if c == 'G' && (l.csi == "" || l.csi == "1") then l.(cursor := 0, escape := 0)
    else l.(escape := 0)
  }

  function Plain(l: Line, c: char): Line {
    if c == ESCAPE then l.(escape := 1)
    else if c == '\r' then l.(cursor := 0)
    else if c == '\n' then NewLine(l)
    else if c == BACKSPACE then l.(cursor := if l.cursor == 0 then 0 else l.cursor - 1)
    else if !Control(c) then Put(l, c)
    else l
  }

  // One character.
  function See(l: Line, c: char): Line {
    if l.escape == 1 then l.(escape := if c == '[' then 2 else if c == ']' then 3 else 0, csi := "")
    else if l.escape == 2 then
      if Final(c) then EndSequence(l, c) else if Size(l.csi) < CSI_LIMIT then l.(csi := l.csi + [c]) else l
    else if l.escape == 3 then
      if c == BELL then l.(escape := 0) else if c == ESCAPE then l.(escape := 4) else l
    else if l.escape == 4 then l.(escape := if c == '\\' then 0 else 3)
    else Plain(l, c)
  }

  function Feed(l: Line, text: string): Line
    decreases |text|
  {
    if text == "" then l else Feed(See(l, text[0]), text[1..])
  }

  // `text`
  function Shown(l: Line): string {
    if l.overflow || l.escape != 0 || l.cursor < |l.line| then ""
    else if l.line == "" then l.previous else l.line
  }

  // ----- the observer is incremental and bounded

  lemma {:induction false} FeedConcat(l: Line, a: string, b: string)
    ensures Feed(l, a + b) == Feed(Feed(l, a), b)
    decreases |a|
  {
    if a == "" {
      assert a + b == b;
    } else {
      assert (a + b)[1..] == a[1..] + b;
      FeedConcat(See(l, a[0]), a[1..], b);
    }
  }

  predicate Bounded(l: Line) {
    l.cursor <= |l.line| <= LINE_LIMIT && l.escape <= 4 && Size(l.csi) <= CSI_LIMIT + 3 && |l.previous| <= LINE_LIMIT
  }

  lemma SeeKeepsBounded(l: Line, c: char)
    requires Bounded(l)
    ensures Bounded(See(l, c))
  {
    SizeConcat(l.csi, [c]);
    assert Off([c], 1) == Off([c], 0) + Width(c);
  }

  // Whatever the device sends, the observer's memory stays bounded and its cursor inside the line.
  lemma {:induction false} FeedKeepsBounded(l: Line, text: string)
    requires Bounded(l)
    ensures Bounded(Feed(l, text))
    decreases |text|
  {
    if text != "" {
      SeeKeepsBounded(l, text[0]);
      FeedKeepsBounded(See(l, text[0]), text[1..]);
    }
  }

  class PromptLine {
    var line: string
    var previous: string
    var cursor: nat
    var escape: nat
    var csi: string
    var overflow: bool

    function State(): Line
      reads this
    {
      Line(line, previous, cursor, escape, csi, overflow)
    }

    constructor ()
      ensures State() == NEW && Bounded(State())
    {
      line, previous, cursor, escape, csi, overflow := "", "", 0, 0, "", false;
    }

    method PutChar(c: char)
      requires Bounded(State())
      modifies this
      ensures State() == Put(old(State()), c)
    {
      if cursor < LINE_LIMIT {
        if cursor < |line| {
          line := line[cursor := c];
        } else {
          line := line + [c];
        }
        cursor := cursor + 1;
      } else {
        overflow := true;
      }
    }

    method EndControl(c: char)
      requires Bounded(State())
      modifies this
      ensures State() == EndSequence(old(State()), c)
    {
      if c == 'K' {
        if csi == "2" {
          line, cursor := "", 0;
        } else {
          line := line[..cursor];
        }
      } else if c == 'G' && (csi == "" || csi == "1") {
        cursor := 0;
      }
      escape := 0;
    }

    method SeeText(c: char)
      requires Bounded(State()) && escape == 0
      modifies this
      ensures State() == Plain(old(State()), c)
    {
      if c == ESCAPE {
        escape := 1;
      } else if c == '\r' {
        cursor := 0;
      } else if c == '\n' {
        if overflow {
          previous := "";
        } else if line != "" {
          previous := line;
        }
        line, cursor, overflow := "", 0, false;
      } else if c == BACKSPACE {
        cursor := if cursor == 0 then 0 else cursor - 1;
      } else if !Control(c) {
        PutChar(c);
      }
    }

    method SeeChar(c: char)
      requires Bounded(State())
      modifies this
      ensures State() == See(old(State()), c) && Bounded(State())
    {
      SeeKeepsBounded(State(), c);
      match escape {
        case 1 =>
          escape := if c == '[' then 2 else if c == ']' then 3 else 0;
          csi := "";
        case 2 =>
          if Final(c) {
            EndControl(c);
          } else if Size(csi) < CSI_LIMIT {
            csi := csi + [c];
          }
        case 3 =>
          if c == BELL {
            escape := 0;
          } else if c == ESCAPE {
            escape := 4;
          }
        case 4 =>
          escape := if c == '\\' then 0 else 3;
        case _ =>
          SeeText(c);
      }
    }

    // `feed`
    method FeedText(text: string)
      requires Bounded(State())
      modifies this
      ensures State() == Feed(old(State()), text) && Bounded(State())
    {
      for i := 0 to |text|
        invariant Bounded(State()) && Feed(State(), text[i..]) == Feed(old(State()), text)
      {
        SeeChar(text[i]);
        assert text[i..][1..] == text[i + 1..];
      }
    }
  }

  // ----- escape sequences are invisible

  // Equal but for parameters that the next sequence discards.
  predicate Alike(a: Line, b: Line) {
    a.(csi := "") == b.(csi := "") && (a.escape == 2 ==> a.csi == b.csi)
  }

  lemma SeeAlike(a: Line, b: Line, c: char)
    requires Alike(a, b)
    ensures Alike(See(a, c), See(b, c))
  {
    var x := b.csi;
    assert b == a.(csi := x);
  }

  lemma {:induction false} FeedAlike(a: Line, b: Line, text: string)
    requires Alike(a, b)
    ensures Alike(Feed(a, text), Feed(b, text)) && Shown(Feed(a, text)) == Shown(Feed(b, text))
    decreases |text|
  {
    if text != "" {
      SeeAlike(a, b, text[0]);
      FeedAlike(See(a, text[0]), See(b, text[0]), text[1..]);
    } else {
      assert b == a.(csi := b.csi);
    }
  }

  // A control sequence that neither erases nor moves: colours, modes, queries.
  predicate Attribute(params: string, final: char) {
    Final(final) && final != 'K' && final != 'G' && forall i | 0 <= i < |params| :: !Final(params[i])
  }

  // The text of an operating system command, such as a window title.
  predicate Title(body: string) {
    || body == ""
    || (body[0] != BELL && body[0] != ESCAPE && Title(body[1..]))
    || (|body| >= 2 && body[0] == ESCAPE && body[1] != '\\' && Title(body[2..]))
  }

  lemma {:induction false} ParametersStay(l: Line, params: string)
    requires l.escape == 2 && forall i | 0 <= i < |params| :: !Final(params[i])
    ensures var m := Feed(l, params); m.escape == 2 && m.(csi := l.csi) == l
    decreases |params|
  {
    if params != "" { ParametersStay(See(l, params[0]), params[1..]); }
  }

  lemma {:induction false} TitleStays(l: Line, body: string)
    requires l.escape == 3 && Title(body)
    ensures Feed(l, body) == l
    decreases |body|
  {
    if body != "" {
      if body[0] != ESCAPE {
        TitleStays(l, body[1..]);
      } else {
        assert See(See(l, ESCAPE), body[1]) == l && body[1..][1..] == body[2..];
        TitleStays(l, body[2..]);
      }
    }
  }

  lemma FeedOne(l: Line, c: char)
    ensures Feed(l, [c]) == See(l, c)
  {
    assert [c][1..] == [];
  }

  lemma FeedTwo(l: Line, c: char, d: char)
    ensures Feed(l, [c, d]) == See(See(l, c), d)
  {
    assert [c, d][1..] == [d];
    FeedOne(See(l, c), d);
  }

  lemma AttributeIsIgnored(l: Line, params: string, final: char)
    requires l.escape == 0 && Attribute(params, final)
    ensures Alike(Feed(l, [ESCAPE, '['] + params + [final]), l)
  {
    FeedConcat(l, [ESCAPE, '['] + params, [final]);
    FeedConcat(l, [ESCAPE, '['], params);
    FeedTwo(l, ESCAPE, '[');
    var open := l.(escape := 2, csi := "");
    ParametersStay(open, params);
    FeedOne(Feed(open, params), final);
  }

  lemma TitleOpens(l: Line, body: string)
    requires l.escape == 0 && Title(body)
    ensures Feed(l, [ESCAPE, ']'] + body) == l.(escape := 3, csi := "")
  {
    FeedConcat(l, [ESCAPE, ']'], body);
    FeedTwo(l, ESCAPE, ']');
    TitleStays(l.(escape := 3, csi := ""), body);
  }

  predicate TitleEnd(end: string) { end == [BELL] || end == [ESCAPE, '\\'] }

  lemma TitleCloses(l: Line, end: string)
    requires l.escape == 3 && TitleEnd(end)
    ensures Feed(l, end) == l.(escape := 0)
  {
    if end == [BELL] { FeedOne(l, BELL); } else { FeedTwo(l, ESCAPE, '\\'); }
  }

  lemma TitleIsIgnored(l: Line, body: string, end: string)
    requires l.escape == 0 && Title(body) && TitleEnd(end)
    ensures Alike(Feed(l, [ESCAPE, ']'] + body + end), l)
  {
    FeedConcat(l, [ESCAPE, ']'] + body, end);
    TitleOpens(l, body);
    TitleCloses(l.(escape := 3, csi := ""), end);
  }

  // Decorating the output changes nothing the observer reports, however the rest continues.
  lemma DecorationIsInvisible(l: Line, before: string, decoration: string, after: string)
    requires Alike(Feed(Feed(l, before), decoration), Feed(l, before))
    ensures Shown(Feed(l, before + decoration + after)) == Shown(Feed(l, before + after))
  {
    FeedConcat(l, before + decoration, after);
    FeedConcat(l, before, decoration);
    FeedConcat(l, before, after);
    FeedAlike(Feed(Feed(l, before), decoration), Feed(l, before), after);
  }

  lemma ColourIsInvisible(l: Line, before: string, params: string, final: char, after: string)
    requires Feed(l, before).escape == 0 && Attribute(params, final)
    ensures Shown(Feed(l, before + ([ESCAPE, '['] + params + [final]) + after)) == Shown(Feed(l, before + after))
  {
    AttributeIsIgnored(Feed(l, before), params, final);
    DecorationIsInvisible(l, before, [ESCAPE, '['] + params + [final], after);
  }

  lemma TitleIsInvisible(l: Line, before: string, body: string, end: string, after: string)
    requires Feed(l, before).escape == 0 && Title(body) && TitleEnd(end)
    ensures Shown(Feed(l, before + ([ESCAPE, ']'] + body + end) + after)) == Shown(Feed(l, before + after))
  {
    TitleIsIgnored(Feed(l, before), body, end);
    DecorationIsInvisible(l, before, [ESCAPE, ']'] + body + end, after);
  }

  // Control characters without a meaning of their own.
  predicate Idle(c: char) { Control(c) && c != ESCAPE && c != '\r' && c != '\n' && c != BACKSPACE }

  lemma {:induction false} IdleIsIgnored(l: Line, s: string)
    requires l.escape == 0 && forall c | c in s :: Idle(c)
    ensures Feed(l, s) == l
    decreases |s|
  {
    if s != "" {
      assert Idle(s[0]);
      IdleIsIgnored(l, s[1..]);
    }
  }

  lemma IdleIsInvisible(l: Line, before: string, s: string, after: string)
    requires Feed(l, before).escape == 0 && forall c | c in s :: Idle(c)
    ensures Shown(Feed(l, before + s + after)) == Shown(Feed(l, before + after))
  {
    IdleIsIgnored(Feed(l, before), s);
    DecorationIsInvisible(l, before, s, after);
  }

  // The beginning of a sequence of either kind.
  predicate Opening(s: string) {
    || s == [ESCAPE]
    || (|s| >= 2 && s[0] == ESCAPE && s[1] == '[' && forall i | 2 <= i < |s| :: !Final(s[i]))
    || (|s| >= 2 && s[0] == ESCAPE && s[1] == ']' && Title(s[2..]))
  }

  // While a sequence is incomplete nothing is reported.
  lemma UnfinishedSequenceHides(l: Line, before: string, s: string)
    requires Feed(l, before).escape == 0 && Opening(s)
    ensures Shown(Feed(l, before + s)) == ""
  {
    var m := Feed(l, before);
    FeedConcat(l, before, s);
    if s == [ESCAPE] {
      FeedOne(m, ESCAPE);
    } else {
      assert s == [ESCAPE, s[1]] + s[2..];
      FeedConcat(m, [ESCAPE, s[1]], s[2..]);
      FeedTwo(m, ESCAPE, s[1]);
      if s[1] == '[' {
        ParametersStay(m.(escape := 2, csi := ""), s[2..]);
      } else {
        TitleStays(m.(escape := 3, csi := ""), s[2..]);
      }
    }
  }

  // ----- what is shown

  predicate Printable(s: string) { forall i | 0 <= i < |s| :: !Control(s[i]) }

  // `s` written over `line` from position `at` on.
  function Overwrite(line: string, at: nat, s: string): string
    requires at <= |line|
  {
    line[..at] + s + line[Min(at + |s|, |line|)..]
  }

  lemma OverwriteFirst(line: string, at: nat, c: char, s: string)
    requires at <= |line|
    ensures |Overwrite(line, at, [c])| >= at + 1
    ensures Overwrite(line, at, [c] + s) == Overwrite(Overwrite(line, at, [c]), at + 1, s)
  {
    var next := Overwrite(line, at, [c]);
    assert next[..at + 1] == line[..at] + [c];
    assert next[Min(at + 1 + |s|, |next|)..] == line[Min(at + 1 + |s|, |line|)..];
    assert line[..at] + ([c] + s) == line[..at] + [c] + s;
  }

  lemma PutOverwrites(l: Line, c: char)
    requires l.escape == 0 && !Control(c) && l.cursor <= |l.line| && l.cursor < LINE_LIMIT
    ensures See(l, c) == l.(line := Overwrite(l.line, l.cursor, [c]), cursor := l.cursor + 1)
  {
    assert See(l, c) == Put(l, c);
  }

  lemma FeedFirst(l: Line, m: Line, s: string)
    requires s != "" && See(l, s[0]) == m
    ensures Feed(l, s) == Feed(m, s[1..]) && s == [s[0]] + s[1..]
  {
  }

  // Printed text overwrites from the cursor on.
  lemma {:induction false} PrintOverwrites(l: Line, s: string)
    requires l.escape == 0 && Printable(s) && l.cursor <= |l.line| && l.cursor + |s| <= LINE_LIMIT
    ensures Feed(l, s) == l.(line := Overwrite(l.line, l.cursor, s), cursor := l.cursor + |s|)
    decreases |s|
  {
    if s == "" {
      assert Overwrite(l.line, l.cursor, s) == l.line;
    } else {
      var m := l.(line := Overwrite(l.line, l.cursor, [s[0]]), cursor := l.cursor + 1);
      PutOverwrites(l, s[0]);
      FeedFirst(l, m, s);
      OverwriteFirst(l.line, l.cursor, s[0], s[1..]);
      PrintOverwrites(m, s[1..]);
    }
  }

  lemma PrintOnEmpty(l: Line, s: string)
    requires l.escape == 0 && !l.overflow && l.line == "" && l.cursor == 0
    requires Printable(s) && 0 < |s| <= LINE_LIMIT
    ensures Shown(Feed(l, s)) == s
  {
    PrintOverwrites(l, s);
    assert l.line[..0] + s + l.line[0..] == s;
  }

  // The last line is reported exactly, whatever came before it.
  lemma LastLineIsShown(l: Line, before: string, s: string)
    requires Feed(l, before).escape == 0 && Printable(s) && 0 < |s| <= 512
    ensures Shown(Feed(l, before + "\n" + s)) == s
  {
    FeedConcat(l, before + "\n", s);
    FeedConcat(l, before, "\n");
    FeedOne(Feed(l, before), '\n');
    PrintOnEmpty(NewLine(Feed(l, before)), s);
  }

  // A trailing line feed keeps reporting the line it ended.
  lemma FinishedLineIsShown(l: Line, before: string, s: string)
    requires Feed(l, before).escape == 0 && Printable(s) && 0 < |s| <= 512
    ensures Shown(Feed(l, before + "\n" + s + "\n")) == s
  {
    var last := before + "\n" + s;
    LastLineIsShown(l, before, s);
    FeedConcat(l, last, "\n");
    FeedOne(Feed(l, last), '\n');
  }

  lemma {:induction false} PrintOverflows(l: Line, s: string)
    requires l.escape == 0 && Printable(s) && l.cursor >= LINE_LIMIT && s != ""
    ensures Feed(l, s) == l.(overflow := true)
    decreases |s|
  {
    assert See(l, s[0]) == Put(l, s[0]);
    if |s| > 1 { PrintOverflows(l.(overflow := true), s[1..]); }
  }

  // A line that is too long is not shown at all, not even once it has ended.
  lemma LongLineIsHidden(l: Line, before: string, s: string)
    requires Feed(l, before).escape == 0 && Printable(s) && |s| > 512
    ensures Shown(Feed(l, before + "\n" + s)) == "" && Shown(Feed(l, before + "\n" + s + "\n")) == ""
  {
    var open, m := before + "\n", NewLine(Feed(l, before));
    FeedConcat(l, before, "\n");
    FeedOne(Feed(l, before), '\n');
    FeedConcat(l, open, s);
    assert s == s[..512] + s[512..];
    FeedConcat(m, s[..512], s[512..]);
    PrintOverwrites(m, s[..512]);
    PrintOverflows(Feed(m, s[..512]), s[512..]);
    FeedConcat(l, open + s, "\n");
    FeedOne(Feed(l, open + s), '\n');
  }

  // Moving to the first column is a return.
  lemma ColumnOneIsReturn(l: Line, param: string)
    requires l.escape == 0 && (param == "" || param == "1")
    ensures Alike(Feed(l, [ESCAPE, '['] + param + "G"), Feed(l, "\r"))
  {
    FeedConcat(l, [ESCAPE, '['] + param, "G");
    FeedConcat(l, [ESCAPE, '['], param);
    FeedTwo(l, ESCAPE, '[');
    var open := l.(escape := 2, csi := "");
    ParameterIsKept(open, param);
    FeedOne(open.(csi := param), 'G');
    FeedOne(l, '\r');
  }

  // Redrawing: return, erase, print. The old line leaves no trace.
  lemma RedrawIsShown(l: Line, erase: string, s: string)
    requires Bounded(l) && l.escape == 0 && !l.overflow && (erase == "" || erase == "2")
    requires Printable(s) && 0 < |s| <= LINE_LIMIT
    ensures Shown(Feed(l, "\r" + ([ESCAPE, '['] + erase + "K") + s)) == s
  {
    var home := l.(cursor := 0);
    FeedConcat(l, "\r" + ([ESCAPE, '['] + erase + "K"), s);
    FeedConcat(l, "\r", [ESCAPE, '['] + erase + "K");
    FeedOne(l, '\r');
    FeedConcat(home, [ESCAPE, '['] + erase, "K");
    FeedConcat(home, [ESCAPE, '['], erase);
    FeedTwo(home, ESCAPE, '[');
    var open := home.(escape := 2, csi := "");
    ParameterIsKept(open, erase);
    FeedOne(open.(csi := erase), 'K');
    PrintOnEmpty(open.(csi := erase, line := "", escape := 0), s);
  }

  lemma ParameterIsKept(l: Line, param: string)
    requires l.escape == 2 && l.csi == "" && |param| <= 1 && (param != "" ==> !Final(param[0]))
    ensures Feed(l, param) == l.(csi := param)
  {
    if param != "" {
      assert param == [param[0]] && Size(l.csi) == 0;
      FeedOne(l, param[0]);
    }
  }

  // After a return with nothing printed over it, a line that may be stale is not reported.
  lemma StaleLineIsHidden(l: Line, s: string)
    requires l.escape == 0 && Printable(s) && l.cursor <= |l.line| <= LINE_LIMIT && |s| < |l.line|
    ensures Shown(Feed(l, "\r" + s)) == ""
  {
    FeedConcat(l, "\r", s);
    FeedOne(l, '\r');
    PrintOverwrites(l.(cursor := 0), s);
  }

  // ----- prompt shapes

  predicate HostnameChar(c: char) {
    'a' <= c <= 'z' || 'A' <= c <= 'Z' || '0' <= c <= '9' || c == '.' || c == '_' || c == '-'
  }

  // `is_hostname_token`
  predicate Hostname(s: string) { s != "" && forall i | 0 <= i < |s| :: HostnameChar(s[i]) }

  // `is_device_context_token`
  predicate Context(s: string) {
    s != "" && forall i | 0 <= i < |s| :: HostnameChar(s[i]) || s[i] in "/() "
  }

  const WAIT_HINTS: seq<string> :=
    ["--more--", "-- more --", "---- more ----", "[y/n]", "[yes/no]", "(y/n)", "[confirm]",
     "password:", "press any key", "continue?", "are you sure"]

  // `looks_like_cli_input_wait`
  predicate InputWait(line: string) { exists hint | hint in WAIT_HINTS :: Contains(Lowercase(line), hint) }

  const SHELLS: seq<string> := ["root", "sh", "bash", "zsh", "fish", "dash", "ksh", "ash"]

  predicate ShellName(s: string) {
    exists name | name in SHELLS :: Lowercase(s) == name || name + "-" <= Lowercase(s)
  }

  // `strip_prefix(open)` then `strip_suffix(close)`
  function Enclosed(s: string, open: char, close: char): Option<string> {
    if |s| >= 2 && s[0] == open && s[|s| - 1] == close then Some(s[1..|s| - 1]) else None
  }

  predicate Terminator(c: char) { c == '#' || c == '*' || c == '>' }

  // `Host`, `(Name)` or `Host(context)`
  predicate DeviceBody(body: string) {
    || Hostname(body)
    || (Enclosed(body, '(', ')').Some? && Hostname(Enclosed(body, '(', ')').value))
    || ('(' in body
        && var host := Before(body, '(');
           var context := After(body, '(');
           Hostname(host) && context != "" && context[|context| - 1] == ')' && Hostname(context[..|context| - 1]))
  }

  // `looks_like_network_cli_prompt_line`
  predicate PromptShape(line: string) {
    if '@' in line || (line != "" && line[|line| - 1] == '$') || InputWait(line) then false
    else if Enclosed(line, '<', '>').Some? then Hostname(Enclosed(line, '<', '>').value)
    else if Enclosed(line, '[', ']').Some? then Context(Enclosed(line, '[', ']').value)
    else
      var body := TrimEndOf(line, Terminator);
      body != line && !ShellName(TrimEndOf(body, Whitespace)) && DeviceBody(TrimEndOf(body, Whitespace))
  }

  function Bracketed(s: string): Option<string> {
    if Enclosed(s, '<', '>').Some? then Enclosed(s, '<', '>') else Enclosed(s, '[', ']')
  }

  function HostOf(s: string): string { Before(Trim(TrimEndOf(s, Terminator)), '(') }

  // `same_device_prompt`
  predicate SameDevice(expected: string, actual: string) {
    if expected == actual then true
    else if Bracketed(expected).Some? && Bracketed(actual).Some? then
      var host, view := Bracketed(expected).value, Bracketed(actual).value;
      view == host || host + "-" <= view
    else HostOf(expected) != "" && HostOf(expected) == HostOf(actual)
  }

  // ----- modes of one device

  // `Host#`, `Host>`, `Host(config)#`
  function PromptOf(host: string, mode: string, end: char): string {
    host + (if mode == "" then "" else "(" + mode + ")") + [end]
  }

  lemma {:induction false} BeforeMode(host: string, rest: string)
    requires '(' !in host && (rest == "" || rest[0] == '(')
    ensures Before(host + rest, '(') == host
  {
    if host == "" {
      assert host + rest == rest;
    } else {
      assert (host + rest)[1..] == host[1..] + rest;
      BeforeMode(host[1..], rest);
    }
  }

  lemma HostOfPrompt(host: string, mode: string, end: char)
    requires Hostname(host) && Terminator(end)
    ensures HostOf(PromptOf(host, mode, end)) == host
    ensures Bracketed(PromptOf(host, mode, end)).None?
  {
    var rest := if mode == "" then "" else "(" + mode + ")";
    var body := host + rest;
    var s := PromptOf(host, mode, end);
    assert s[..|s| - 1] == body && s[0] == host[0];
    assert HostnameChar(body[0]);
    var last := body[|body| - 1];
    assert last == ')' || HostnameChar(last);
    assert TrimEndOf(s, Terminator) == body;
    assert Trim(body) == body;
    BeforeMode(host, rest);
  }

  // Prompts of two modes belong to the same device exactly when the host names agree.
  lemma SameDeviceIffSameHost(host: string, mode: string, end: char, host2: string, mode2: string, end2: char)
    requires Hostname(host) && Hostname(host2) && Terminator(end) && Terminator(end2)
    ensures SameDevice(PromptOf(host, mode, end), PromptOf(host2, mode2, end2)) <==> host == host2
  {
    HostOfPrompt(host, mode, end);
    HostOfPrompt(host2, mode2, end2);
  }

  // ----- which prompts count as the same device

  // The host-name characters a line starts with.
  function Leading(line: string): string {
    if line != "" && HostnameChar(line[0]) then [line[0]] + Leading(line[1..]) else ""
  }

  // Two recognised prompts are taken for the same device when they are the same line, or when both
  // are bracketed and the second continues the first or continues it after a dash, or when neither
  // is and both start with the same host name.
  predicate Related(expected: string, actual: string) {
    || expected == actual
    || (Bracketed(expected).Some? && Bracketed(actual).Some?
        && (Bracketed(actual).value == Bracketed(expected).value
            || Bracketed(expected).value + "-" <= Bracketed(actual).value))
    || (Bracketed(expected).None? && Bracketed(actual).None?
        && Leading(expected) != "" && Leading(expected) == Leading(actual))
  }

  lemma {:induction false} LeadingIs(line: string, host: string)
    requires host <= line && (forall i | 0 <= i < |host| :: HostnameChar(host[i]))
    requires |host| < |line| ==> !HostnameChar(line[|host|])
    ensures Leading(line) == host
  {
    if host != "" {
      assert host[0] == line[0] && HostnameChar(host[0]);
      LeadingIs(line[1..], host[1..]);
      assert host == [host[0]] + host[1..];
    }
  }

  // A line that starts with a character that is never trimmed.
  predicate Firm(c: char) { !Terminator(c) && !Whitespace(c) }

  lemma TrimsToBody(line: string)
    requires line != "" && Firm(line[0])
    ensures Trim(TrimEndOf(line, Terminator)) == TrimEndOf(TrimEndOf(line, Terminator), Whitespace)
  {
    TrimKeepsFirst(line, Terminator);
  }

  // What follows the body of an unbracketed prompt is no host-name character.
  lemma BodyEnds(line: string)
    requires TrimEndOf(line, Terminator) != line
    ensures var body := TrimEndOf(TrimEndOf(line, Terminator), Whitespace);
            body <= line && |body| < |line| && !HostnameChar(line[|body|])
  {
    TrimEndSpec(line, Terminator);
    TrimEndSpec(TrimEndOf(line, Terminator), Whitespace);
  }

  lemma DeviceBodyLeads(line: string, body: string)
    requires DeviceBody(body) && body <= line && |body| < |line| && !HostnameChar(line[|body|])
    ensures body != "" && Firm(body[0]) && Leading(line) == Before(body, '(')
  {
    BeforeSpec(body, '(');
    var host := Before(body, '(');
    if Hostname(body) {
      LeadingIs(line, body);
    } else if Enclosed(body, '(', ')').Some? && body[0] == '(' {
      LeadingIs(line, "");
    } else {
      LeadingIs(line, host);
    }
  }

  lemma PlainHost(line: string)
    requires PromptShape(line) && Bracketed(line).None?
    ensures HostOf(line) == Leading(line)
  {
    var body := TrimEndOf(TrimEndOf(line, Terminator), Whitespace);
    BodyEnds(line);
    DeviceBodyLeads(line, body);
    TrimsToBody(line);
  }

  lemma BracketedHost(line: string)
    requires Bracketed(line).Some?
    ensures HostOf(line) != "" && !HostnameChar(HostOf(line)[0])
  {
    TrimKeepsFirst(line, Terminator);
    TrimsToBody(line);
    TrimKeepsFirst(TrimEndOf(line, Terminator), Whitespace);
  }

  lemma {:induction false} LeadingIsHostname(line: string)
    ensures forall i | 0 <= i < |Leading(line)| :: HostnameChar(Leading(line)[i])
  {
    if line != "" && HostnameChar(line[0]) { LeadingIsHostname(line[1..]); }
  }

  // Exactly which recognised prompts `same_device_prompt` accepts.
  lemma SameDeviceExactly(expected: string, actual: string)
    requires PromptShape(expected) && PromptShape(actual)
    ensures SameDevice(expected, actual) <==> Related(expected, actual)
  {
    LeadingIsHostname(expected);
    LeadingIsHostname(actual);
    if Bracketed(expected).Some? { BracketedHost(expected); } else { PlainHost(expected); }
    if Bracketed(actual).Some? { BracketedHost(actual); } else { PlainHost(actual); }
  }

  function InBrackets(angle: bool, body: string): string { if angle then "<" + body + ">" else "[" + body + "]" }

  lemma BracketedBody(angle: bool, body: string)
    ensures Bracketed(InBrackets(angle, body)) == Some(body)
  {
    var s := InBrackets(angle, body);
    assert s[1..|s| - 1] == body;
  }

  // For bracketed prompts the answer agrees with "the hosts are equal" exactly when the second is
  // not the first continued by a dash.
  lemma BracketedHostsAgreeIff(x: bool, host: string, y: bool, other: string)
    ensures (SameDevice(InBrackets(x, host), InBrackets(y, other)) <==> host == other) <==> !(host + "-" <= other)
  {
    BracketedBody(x, host);
    BracketedBody(y, other);
  }

  lemma ContainsChars(s: string, part: string, c: char)
    requires Contains(s, part) && c in part
    ensures c in s
  {
    var i :| 0 <= i <= |s| && part <= s[i..];
    var k :| 0 <= k < |part| && part[k] == c;
    assert s[i..][k] == s[i + k] == c;
  }

  lemma LowerHostChars(host: string)
    requires Hostname(host)
    ensures forall c | c in Lowercase(InBrackets(true, host)) :: HostnameChar(c) || c == '<' || c == '>'
  {
    var line := InBrackets(true, host);
    assert forall i | 0 <= i < |line| :: HostnameChar(line[i]) || line[i] == '<' || line[i] == '>';
  }

  // A hint without an `m` has a character that a bracketed host cannot have.
  lemma HostIsNoWait(host: string, hint: string)
    requires Hostname(host) && 'm' !in Lowercase(InBrackets(true, host)) && hint in WAIT_HINTS
    ensures !Contains(Lowercase(InBrackets(true, host)), hint)
  {
    var lower := Lowercase(InBrackets(true, host));
    LowerHostChars(host);
    var c: char := if 'm' in hint then 'm' else if '[' in hint then '[' else if '(' in hint then '('
                   else if ':' in hint then ':' else if ' ' in hint then ' ' else '?';
    assert c in hint && c !in lower;
    if Contains(lower, hint) { ContainsChars(lower, hint, c); }
  }

  lemma AngleIsPrompt(host: string)
    requires Hostname(host) && 'm' !in Lowercase(InBrackets(true, host))
    ensures PromptShape(InBrackets(true, host))
  {
    var line := InBrackets(true, host);
    forall hint | hint in WAIT_HINTS ensures !Contains(Lowercase(line), hint) { HostIsNoWait(host, hint); }
    BracketedBody(true, host);
    assert forall i | 0 <= i < |line| :: HostnameChar(line[i]) || line[i] == '<' || line[i] == '>';
  }

  // Two recognised prompts of different hosts that pass for one device, in this order only.
  lemma DifferentHostsMayPass()
    ensures PromptShape("<core>") && PromptShape("<core-2>")
    ensures SameDevice("<core>", "<core-2>") && !SameDevice("<core-2>", "<core>")
  {
    assert InBrackets(true, "core") == "<core>" && InBrackets(true, "core-2") == "<core-2>";
    AngleIsPrompt("core");
    AngleIsPrompt("core-2");
    BracketedHostsAgreeIff(true, "core", true, "core-2");
    BracketedHostsAgreeIff(true, "core-2", true, "core");
    assert "core" + "-" <= "core-2";
  }

  // ----- which lines are prompts

  // A hint anywhere in the line, in any letter case, is a wait for input.
  lemma HintIsWait(before: string, hint: string, after: string)
    requires Lowercase(hint) in WAIT_HINTS
    ensures InputWait(before + hint + after)
  {
    var line := before + hint + after;
    var lower := Lowercase(line);
    assert lower[|before|..][..|hint|] == Lowercase(hint);
    assert Lowercase(hint) <= lower[|before|..];
    assert Contains(lower, Lowercase(hint));
  }

  // No shell prompt and no plain text: a recognised line has no `@`, waits for nothing, and ends in one
  // of the four marks of a device prompt.
  lemma PromptEnds(line: string)
    requires PromptShape(line)
    ensures '@' !in line && !InputWait(line) && line != ""
    ensures Terminator(line[|line| - 1]) || line[|line| - 1] == ']'
  {
    if Enclosed(line, '<', '>').None? && Enclosed(line, '[', ']').None? { TrimEndSpec(line, Terminator); }
  }

  lemma AnglePromptIff(host: string)
    ensures PromptShape(InBrackets(true, host)) <==> Hostname(host) && !InputWait(InBrackets(true, host))
  {
    var line := InBrackets(true, host);
    BracketedBody(true, host);
    assert line[|line| - 1] == '>';
    assert forall i | 0 < i < |line| - 1 :: line[i] == host[i - 1];
    if Hostname(host) { assert '@' !in line; }
  }

  lemma SquarePromptIff(view: string)
    ensures PromptShape(InBrackets(false, view)) <==> Context(view) && !InputWait(InBrackets(false, view))
  {
    var line := InBrackets(false, view);
    BracketedBody(false, view);
    assert line[|line| - 1] == ']' && line[0] == '[';
    assert forall i | 0 < i < |line| - 1 :: line[i] == view[i - 1];
    if Context(view) { assert '@' !in line; }
  }

  // `Host(context)`
  predicate HostWithMode(body: string, host: string, mode: string) {
    body == host + "(" + mode + ")" && Hostname(host) && Hostname(mode)
  }

  ghost predicate DeviceForm(body: string) {
    || Hostname(body)
    || (exists name :: body == "(" + name + ")" && Hostname(name))
    || (exists host, mode :: HostWithMode(body, host, mode))
  }

  lemma FormIsBody(body: string)
    requires DeviceForm(body)
    ensures DeviceBody(body)
  {
    if !Hostname(body) {
      if name :| body == "(" + name + ")" && Hostname(name) {
        assert Enclosed(body, '(', ')') == Some(name);
      } else {
        var host, mode :| HostWithMode(body, host, mode);
        assert body == host + ['('] + (mode + ")") && (mode + ")")[..|mode|] == mode;
        CutAt(host, '(', mode + ")");
        assert body[|host|] == '(';
      }
    }
  }

  lemma ModeIsForm(body: string)
    requires '(' in body
    requires var context := After(body, '(');
             context != "" && context[|context| - 1] == ')' && Hostname(context[..|context| - 1])
    requires Hostname(Before(body, '('))
    ensures DeviceForm(body)
  {
    var host := Before(body, '(');
    BeforeSpec(body, '(');
    var rest := body[|host| + 1..];
    assert body == host + ['('] + rest;
    CutAt(host, '(', rest);
    var mode := rest[..|rest| - 1];
    assert rest == mode + ")";
    assert HostWithMode(body, host, mode);
  }

  lemma BodyIsForm(body: string)
    requires DeviceBody(body)
    ensures DeviceForm(body)
  {
    if Hostname(body) {
    } else if Enclosed(body, '(', ')').Some? && Hostname(Enclosed(body, '(', ')').value) {
      assert body == "(" + Enclosed(body, '(', ')').value + ")";
    } else {
      ModeIsForm(body);
    }
  }

  // A device, blanks, and at least one terminator.
  ghost predicate Composed(line: string, body: string, blanks: string, ends: string) {
    && line == body + blanks + ends && ends != "" && DeviceForm(body) && !ShellName(body)
    && (forall i | 0 <= i < |blanks| :: Whitespace(blanks[i]))
    && (forall i | 0 <= i < |ends| :: Terminator(ends[i]))
  }

  lemma FormChars(body: string, i: nat)
    requires DeviceForm(body) && i < |body|
    ensures HostnameChar(body[i]) || body[i] == '(' || body[i] == ')'
    ensures i == |body| - 1 ==> !Terminator(body[i]) && !Whitespace(body[i])
  {
    if !Hostname(body) {
      if name :| body == "(" + name + ")" && Hostname(name) {
      } else {
        var host, mode :| HostWithMode(body, host, mode);
      }
    }
  }

  lemma ComposedIsPrompt(line: string, body: string, blanks: string, ends: string)
    requires Composed(line, body, blanks, ends) && Bracketed(line).None? && !InputWait(line)
    ensures PromptShape(line)
  {
    FormIsBody(body);
    assert body != "";
    FormChars(body, |body| - 1);
    assert line == (body + blanks) + ends && Terminator(line[|line| - 1]);
    TrimsEnd(body + blanks, ends, Terminator);
    TrimsEnd(body, blanks, Whitespace);
    forall i | 0 <= i < |line| ensures line[i] != '@' {
      if i < |body| { FormChars(body, i); }
    }
  }

  lemma PromptIsComposed(line: string) returns (body: string, blanks: string, ends: string)
    requires PromptShape(line) && Bracketed(line).None?
    ensures Composed(line, body, blanks, ends)
  {
    var cut := TrimEndOf(line, Terminator);
    body := TrimEndOf(cut, Whitespace);
    TrimEndSpec(line, Terminator);
    TrimEndSpec(cut, Whitespace);
    blanks, ends := cut[|body|..], line[|cut|..];
    assert cut == body + blanks && line == cut + ends;
    BodyIsForm(body);
  }

  // Exactly which unbracketed lines are recognised: `Host#`, `(Name) #`, `Host(context)#` and the like,
  // unless the device is called like a shell or the line asks for input.
  lemma PlainPromptIff(line: string)
    requires Bracketed(line).None?
    ensures PromptShape(line) <==>
            !InputWait(line) && exists body, blanks, ends :: Composed(line, body, blanks, ends)
  {
    if PromptShape(line) {
      var body, blanks, ends := PromptIsComposed(line);
    }
    if !InputWait(line) {
      forall body, blanks, ends | Composed(line, body, blanks, ends) ensures PromptShape(line) {
        ComposedIsPrompt(line, body, blanks, ends);
      }
    }
  }

  // ----- backspace

  // Backspace steps over the last character, and printing then replaces it.
  lemma BackspaceReplaces(l: Line, s: string, c: char)
    requires l.escape == 0 && !l.overflow && l.line == "" && l.cursor == 0
    requires Printable(s) && !Control(c) && 0 < |s| <= LINE_LIMIT
    ensures Shown(Feed(l, s + [BACKSPACE] + [c])) == s[..|s| - 1] + [c]
  {
    FeedConcat(l, s + [BACKSPACE], [c]);
    FeedConcat(l, s, [BACKSPACE]);
    PrintOverwrites(l, s);
    assert Overwrite("", 0, s) == s;
    var m := l.(line := s, cursor := |s|);
    FeedOne(m, BACKSPACE);
    var n := m.(cursor := |s| - 1);
    FeedOne(n, c);
    PutOverwrites(n, c);
    assert Overwrite(s, |s| - 1, [c]) == s[..|s| - 1] + [c];
  }
}
