/** File names for note export: portable, bounded, and unique without regard to case. */
module ExportNames {
  import opened Common
  import opened Utf8
  import opened Text

  const MAX_COMPONENT_BYTES := 240

  // `char::to_uppercase`, as far as names depend on it: ASCII is the usual mapping.
  ghost predicate Uppercasing(upper: char -> string) {
    forall c | c as int < 0x80 ::
      upper(c) == [if 'a' <= c <= 'z' then (c as int - 32) as char else c]
  }

  // `str::to_uppercase` works character by character.
  function Upper(s: string, upper: char -> string): string {
    if s == [] then [] else upper(s[0]) + Upper(s[1..], upper)
  }

  // `truncate_utf8`
  function Truncate(s: string, limit: nat): string { s[..Index(s, limit)] }

  predicate SpaceOrDot(c: char) { c == ' ' || c == '.' }

  function Clean(c: char): char {
    if Control(c) || c in "<>:\"/\\|?*" then '_' else c
  }

  function CleanAll(s: string): string { seq(|s|, i requires 0 <= i < |s| => Clean(s[i])) }

  // A Windows device, compared against an upper-cased stem.
  predicate DeviceStem(stem: string) {
    || stem == "CON" || stem == "PRN" || stem == "AUX" || stem == "NUL"
    || (|stem| == 4 && (stem[..3] == "COM" || stem[..3] == "LPT")
        && ('1' <= stem[3] <= '9' || stem[3] as int == 0xb9 || stem[3] as int == 0xb2 || stem[3] as int == 0xb3))
  }

  // What the system reads as a device: the part before the first dot, without trailing blanks.
  predicate DeviceName(name: string, upper: char -> string) {
    DeviceStem(Upper(TrimEndOf(Before(name, '.'), Whitespace), upper))
  }

  // Cleaned, cut to size, without trailing blanks and dots, and never empty.
  function Trimmed(title: string): string {
    var trimmed := TrimEndOf(Truncate(CleanAll(title), MAX_COMPONENT_BYTES), SpaceOrDot);
    if trimmed == "" then "Untitled" else trimmed
  }

  // `sanitize_name`
  function Sanitize(title: string, upper: char -> string): string {
    if DeviceName(Trimmed(title), upper) then "_" + Trimmed(title) else Trimmed(title)
  }

  function Digits(n: nat): string {
    if n < 10 then [(n + '0' as int) as char] else Digits(n / 10) + [(n % 10 + '0' as int) as char]
  }

  function Suffix(index: nat): string {
    if index == 1 then "" else " (" + Digits(index) + ")"
  }

  function Extension(markdown: bool): string { if markdown then ".md" else "" }

  const LAST_INDEX := 0xFFFF_FFFF_FFFF_FFFF

  // The 64-bit counter of attempts.
  type Attempt = n: nat | 1 <= n <= LAST_INDEX witness 1

  // The room the suffix and the extension leave for the stem.
  function Room(markdown: bool, index: Attempt): nat {
    SuffixFits(index, markdown);
    MAX_COMPONENT_BYTES - |Extension(markdown)| - |Suffix(index)|
  }

  function Stem(base: string, markdown: bool, index: Attempt): string {
    TrimEndOf(Truncate(base, Room(markdown, index)), SpaceOrDot)
  }

  // The `index`-th name tried for a base.
  function Candidate(base: string, markdown: bool, index: Attempt): string {
    Stem(base, markdown, index) + Suffix(index) + Extension(markdown)
  }

  // ----- numbers

  lemma {:induction false} DigitsAreDigits(n: nat)
    ensures Digits(n) != [] && forall i | 0 <= i < |Digits(n)| :: Digit(Digits(n)[i])
  {
    if n >= 10 { DigitsAreDigits(n / 10); }
  }

  // What a decimal numeral denotes.
  function Number(s: string): int {
    if s == "" then 0 else 10 * Number(s[..|s| - 1]) + (s[|s| - 1] as int - '0' as int)
  }

  lemma {:induction false} DigitsRead(n: nat)
    ensures Number(Digits(n)) == n && (n > 0 ==> Digits(n)[0] != '0')
  {
    DigitsAreDigits(n / 10);
    if n >= 10 {
      DigitsRead(n / 10);
      assert Digits(n)[..|Digits(n)| - 1] == Digits(n / 10);
    }
  }

  lemma DigitsInjective(m: nat, n: nat)
    requires Digits(m) == Digits(n)
    ensures m == n
  {
    DigitsRead(m);
    DigitsRead(n);
  }

  lemma {:induction false} DigitsShort(n: nat, k: nat)
    requires n < Pow10(k) && k > 0
    ensures |Digits(n)| <= k
  {
    if n >= 10 { DigitsShort(n / 10, k - 1); }
  }

  lemma Pow10Of20()
    ensures LAST_INDEX < Pow10(20)
  {
    assert Pow10(5) == 100000;
    assert Pow10(10) == 100000 * 100000 by {
      assert Pow10(7) == 100 * Pow10(5);
      assert Pow10(10) == 1000 * Pow10(7);
    }
    assert Pow10(15) == 100000 * Pow10(10) by {
      assert Pow10(12) == 100 * Pow10(10);
      assert Pow10(15) == 1000 * Pow10(12);
    }
    assert Pow10(20) == 100000 * Pow10(15) by {
      assert Pow10(17) == 100 * Pow10(15);
      assert Pow10(20) == 1000 * Pow10(17);
    }
  }

  // Every index of the source's 64-bit counter leaves room for a stem.
  lemma SuffixFits(index: nat, markdown: bool)
    requires index <= LAST_INDEX
    ensures |Suffix(index)| <= 23 && |Extension(markdown)| + |Suffix(index)| <= 26
  {
    Pow10Of20();
    DigitsShort(index, 20);
  }

  // ----- numbered names never collide

  lemma {:induction false} UpperConcat(a: string, b: string, upper: char -> string)
    ensures Upper(a + b, upper) == Upper(a, upper) + Upper(b, upper)
  {
    if a == [] {
      assert a + b == b;
    } else {
      assert (a + b)[1..] == a[1..] + b;
      UpperConcat(a[1..], b, upper);
    }
  }

  lemma {:induction false} UpperFixes(s: string, upper: char -> string)
    requires Uppercasing(upper)
    requires forall i | 0 <= i < |s| :: s[i] as int < 0x80 && !('a' <= s[i] <= 'z')
    ensures Upper(s, upper) == s
  {
    if s != [] { UpperFixes(s[1..], upper); }
  }

  lemma Regroup(u: string, d: string, e: string)
    ensures (u + (" (" + d + ")")) + e == (u + " ") + "(" + d + (")" + e)
  {
    assert " (" == " " + "(";
  }

  lemma UpperCandidate(base: string, markdown: bool, index: Attempt, upper: char -> string) returns (stem: string)
    requires Uppercasing(upper) && index >= 2
    ensures Upper(Candidate(base, markdown, index), upper)
            == stem + "(" + Digits(index) + (")" + Upper(Extension(markdown), upper))
  {
    DigitsAreDigits(index);
    var cut := Stem(base, markdown, index);
    UpperConcat(cut + Suffix(index), Extension(markdown), upper);
    UpperConcat(cut, Suffix(index), upper);
    UpperFixes(Suffix(index), upper);
    Regroup(Upper(cut, upper), Digits(index), Upper(Extension(markdown), upper));
    stem := Upper(cut, upper) + " ";
  }

  predicate LastBracket(s: string, k: nat) {
    k < |s| && s[k] == '(' && forall i | k < i < |s| :: s[i] != '('
  }

  lemma BracketBeforeDigits(a: string, x: string)
    requires forall i | 0 <= i < |x| :: Digit(x[i])
    ensures LastBracket(a + "(" + x, |a|)
  {
    var s := a + "(" + x;
    forall i | |a| < i < |s| ensures s[i] != '(' { assert s[i] == x[i - |a| - 1]; }
  }

  // The digits between the last parenthesis and a common ending are determined.
  lemma BracketDetermines(a: string, x: string, b: string, y: string, end: string)
    requires a + "(" + x + end == b + "(" + y + end
    requires forall i | 0 <= i < |x| :: Digit(x[i])
    requires forall i | 0 <= i < |y| :: Digit(y[i])
    ensures x == y
  {
    var left, right := a + "(" + x, b + "(" + y;
    var n := |left + end| - |end|;
    assert left == (left + end)[..n] && right == (right + end)[..n];
    BracketBeforeDigits(a, x);
    BracketBeforeDigits(b, y);
    assert |a| == |b|;
    assert x == left[|a| + 1..] && y == right[|b| + 1..];
  }

  lemma CandidatesDiffer(base: string, markdown: bool, i: Attempt, j: Attempt, upper: char -> string)
    requires Uppercasing(upper) && i >= 2 && j >= 2 && i != j
    ensures Upper(Candidate(base, markdown, i), upper) != Upper(Candidate(base, markdown, j), upper)
  {
    var a := UpperCandidate(base, markdown, i, upper);
    var b := UpperCandidate(base, markdown, j, upper);
    if Upper(Candidate(base, markdown, i), upper) == Upper(Candidate(base, markdown, j), upper) {
      DigitsAreDigits(i);
      DigitsAreDigits(j);
      BracketDetermines(a, Digits(i), b, Digits(j), ")" + Upper(Extension(markdown), upper));
      DigitsInjective(i, j);
    }
  }

  // ----- what every candidate looks like

  predicate CleanChar(c: char) { !Control(c) && c !in "<>:\"/\\|?*" }

  predicate Portable(name: string) { forall i | 0 <= i < |name| :: CleanChar(name[i]) }

  // One portable component that does not end in a blank or a dot.
  predicate Presentable(name: string) {
    Portable(name) && name != "" && name[|name| - 1] != ' ' && name[|name| - 1] != '.'
  }

  lemma TrimmedIsPresentable(title: string)
    ensures Presentable(Trimmed(title))
  {
    var cut := Truncate(CleanAll(title), MAX_COMPONENT_BYTES);
    var trimmed := TrimEndOf(cut, SpaceOrDot);
    TrimEndSpec(cut, SpaceOrDot);
    forall i | 0 <= i < |trimmed| ensures CleanChar(trimmed[i]) {
      assert trimmed[i] == cut[i] == Clean(title[i]);
    }
  }

  lemma SanitizeIsPresentable(title: string, upper: char -> string)
    ensures Presentable(Sanitize(title, upper))
  {
    TrimmedIsPresentable(title);
    UnderscoreIsPresentable(Trimmed(title));
  }

  lemma UnderscoreIsPresentable(name: string)
    requires Presentable(name)
    ensures Presentable("_" + name)
  {
    assert ("_" + name)[|"_" + name| - 1] == name[|name| - 1];
  }

  lemma TruncateSize(s: string, limit: nat)
    ensures Size(TrimEndOf(Truncate(s, limit), SpaceOrDot)) <= limit
    ensures TrimEndOf(Truncate(s, limit), SpaceOrDot) <= s
  {
    var cut := Truncate(s, limit);
    TrimEndSpec(cut, SpaceOrDot);
    var n := |TrimEndOf(cut, SpaceOrDot)|;
    FloorBounds(s, limit);
    OffPrefix(TrimEndOf(cut, SpaceOrDot), s, n);
    OffGrows(s, n, Index(s, limit));
  }

  // At most 240 bytes, and one portable path component.
  lemma CandidateSpec(title: string, markdown: bool, index: Attempt, upper: char -> string)
    ensures var name := Candidate(Sanitize(title, upper), markdown, index);
            Size(name) <= MAX_COMPONENT_BYTES && Portable(name)
  {
    var base := Sanitize(title, upper);
    SanitizeIsPresentable(title, upper);
    TruncateSize(base, Room(markdown, index));
    var stem, tail := Stem(base, markdown, index), Suffix(index) + Extension(markdown);
    TailIsPortable(index, markdown);
    AsciiSize(tail, |tail|);
    SizeConcat(stem, tail);
    var name := Candidate(base, markdown, index);
    assert name == stem + tail;
    forall i | 0 <= i < |name| ensures CleanChar(name[i]) {
      if i < |stem| { assert name[i] == base[i]; } else { assert name[i] == tail[i - |stem|]; }
    }
  }

  lemma TailIsPortable(index: nat, markdown: bool)
    ensures var tail := Suffix(index) + Extension(markdown);
            Portable(tail) && forall i | 0 <= i < |tail| :: tail[i] as int < 0x80
  {
    DigitsAreDigits(index);
    var tail := Suffix(index) + Extension(markdown);
    forall i | 0 <= i < |tail| ensures CleanChar(tail[i]) && tail[i] as int < 0x80 {
      assert Digit(tail[i]) || tail[i] in " ().md";
    }
  }

  lemma TruncateWhole(base: string, limit: nat)
    requires Size(base) <= limit && (base == "" || !SpaceOrDot(base[|base| - 1]))
    ensures TrimEndOf(Truncate(base, limit), SpaceOrDot) == base
  {
    EndsAreBoundaries(base);
    IndexMonotone(base, Size(base), limit);
    assert base[..|base|] == base;
  }

  lemma TrimmedSize(title: string)
    ensures Size(Trimmed(title)) <= MAX_COMPONENT_BYTES
  {
    TruncateSize(CleanAll(title), MAX_COMPONENT_BYTES);
    AsciiSize("Untitled", 8);
  }

  // Only an inserted underscore can make the base longer than a component.
  lemma LongBase(title: string, upper: char -> string)
    requires Size(Sanitize(title, upper)) > MAX_COMPONENT_BYTES
    ensures Sanitize(title, upper)[0] == '_'
  {
    TrimmedSize(title);
  }

  lemma CutKeepsFirst(base: string, limit: nat)
    requires base != [] && base[0] == '_' && limit > 0
    ensures var stem := TrimEndOf(Truncate(base, limit), SpaceOrDot); stem != [] && stem[0] == '_'
  {
    IndexOff(base, 1);
    assert Off(base, 1) == Off(base, 0) + Width('_') == 1;
    IndexMonotone(base, 1, limit);
    TrimKeepsFirst(Truncate(base, limit), SpaceOrDot);
  }

  // A proper component: not empty and neither of the two special names.
  lemma CandidateIsComponent(title: string, markdown: bool, index: Attempt, upper: char -> string)
    ensures Candidate(Sanitize(title, upper), markdown, index) !in {"", ".", ".."}
  {
    var base := Sanitize(title, upper);
    var name := Candidate(base, markdown, index);
    if markdown {
      assert name[|name| - 1] == 'd';
    } else if index > 1 {
      assert name[|name| - 1] == ')';
    } else {
      FirstFolderName(title, upper);
      assert name == Stem(base, false, 1);
    }
  }

  lemma FirstFolderName(title: string, upper: char -> string)
    ensures var stem := Stem(Sanitize(title, upper), false, 1);
            stem != "" && !SpaceOrDot(stem[|stem| - 1])
  {
    var base := Sanitize(title, upper);
    SanitizeIsPresentable(title, upper);
    assert Room(false, 1) == MAX_COMPONENT_BYTES;
    if Size(base) <= MAX_COMPONENT_BYTES {
      TruncateWhole(base, MAX_COMPONENT_BYTES);
    } else {
      LongBase(title, upper);
      CutKeepsFirst(base, MAX_COMPONENT_BYTES);
      TrimEndSpec(Truncate(base, MAX_COMPONENT_BYTES), SpaceOrDot);
    }
  }

  // ----- what a name keeps of its title

  // Apart from the stand-in for an empty one, a cleaned title is the beginning of the title, with
  // exactly the characters that are not portable replaced.
  lemma NamesKeepPortable(title: string, i: nat)
    requires i < |Trimmed(title)|
    ensures Trimmed(title) == "Untitled"
            || (i < |title| && Trimmed(title)[i] == if CleanChar(title[i]) then title[i] else '_')
  {
    TruncateIsLongest(CleanAll(title), MAX_COMPONENT_BYTES);
    TrimEndSpec(Truncate(CleanAll(title), MAX_COMPONENT_BYTES), SpaceOrDot);
  }

  // The cut is the longest prefix that fits.
  lemma TruncateIsLongest(s: string, limit: nat)
    ensures var cut := Truncate(s, limit);
            cut <= s && Size(cut) <= limit && (cut == s || Size(s[..|cut| + 1]) > limit)
  {
    var k := Index(s, limit);
    FloorBounds(s, limit);
    OffPrefix(s[..k], s, k);
    if k < |s| { OffPrefix(s[..k + 1], s, k + 1); }
    if k == |s| { assert s[..k] == s; }
  }

  lemma PortableIsTrimmed(title: string)
    requires Presentable(title) && Size(title) <= MAX_COMPONENT_BYTES
    ensures Trimmed(title) == title
  {
    assert CleanAll(title) == title;
    TruncateWhole(title, MAX_COMPONENT_BYTES);
  }

  // A portable title that fits keeps its spelling: `title`, `title (2)`, `title.md`, `title (2).md`;
  // a device gets an underscore in front.
  lemma PortableTitleIsKept(title: string, markdown: bool, index: Attempt, upper: char -> string)
    requires Uppercasing(upper) && Presentable(title) && Size(title) < Room(markdown, index)
    ensures Candidate(Sanitize(title, upper), markdown, index)
            == (if DeviceName(title, upper) then "_" + title else title)
               + (if index == 1 then "" else " (" + Digits(index) + ")") + (if markdown then ".md" else "")
  {
    var base := Sanitize(title, upper);
    PortableIsTrimmed(title);
    SizeConcat("_", title);
    assert Off("_", 1) == Off("_", 0) + 1;
    SanitizeIsPresentable(title, upper);
    TruncateWhole(base, Room(markdown, index));
  }

  // A title of blanks and dots only, or an empty one, is called Untitled.
  lemma BlankTitleIsUntitled(title: string, upper: char -> string)
    requires Uppercasing(upper) && forall i | 0 <= i < |title| :: SpaceOrDot(title[i])
    ensures Trimmed(title) == "Untitled"
  {
    assert CleanAll(title) == title;
    var cut := Truncate(title, MAX_COMPONENT_BYTES);
    TrimEndSpec(cut, SpaceOrDot);
    assert forall i | 0 <= i < |cut| :: SpaceOrDot(cut[i]);
  }

  const PORT_NUMBERS: set<char> :=
    {'1', '2', '3', '4', '5', '6', '7', '8', '9', 0xb9 as char, 0xb2 as char, 0xb3 as char}

  // The devices: four words, and COM and LPT with one of the nine digits or three superscripts.
  predicate Device(stem: string) {
    || stem in {"CON", "PRN", "AUX", "NUL"}
    || (exists c | c in PORT_NUMBERS :: stem == "COM" + [c] || stem == "LPT" + [c])
  }

  lemma DevicesAreListed(stem: string)
    ensures DeviceStem(stem) <==> Device(stem)
  {
    if |stem| == 4 {
      assert stem == stem[..3] + [stem[3]];
      if DeviceStem(stem) { assert stem[3] in PORT_NUMBERS; }
    }
    if c :| c in PORT_NUMBERS && (stem == "COM" + [c] || stem == "LPT" + [c]) {
      assert stem[..3] == "COM" || stem[..3] == "LPT";
    }
  }

  lemma StemOfWord(word: string, rest: string)
    requires '.' !in word && word != "" && !Whitespace(word[|word| - 1]) && (rest == "" || rest[0] == '.')
    ensures TrimEndOf(Before(word + rest, '.'), Whitespace) == word
  {
    if rest == "" {
      BeforeSpec(word, '.');
      assert word + rest == word;
    } else {
      CutAt(word, '.', rest[1..]);
      assert word + rest == word + ['.'] + rest[1..];
    }
  }

  // A device in any case, with or without an extension, gets an underscore in front.
  lemma DevicesAreMarked(word: string, rest: string, upper: char -> string)
    requires '.' !in word && word != "" && !Whitespace(word[|word| - 1]) && (rest == "" || rest[0] == '.')
    requires Presentable(word + rest) && Size(word + rest) <= MAX_COMPONENT_BYTES && Device(Upper(word, upper))
    ensures Sanitize(word + rest, upper) == "_" + (word + rest)
  {
    PortableIsTrimmed(word + rest);
    StemOfWord(word, rest);
    DevicesAreListed(Upper(word, upper));
  }

  // ----- device names

  lemma {:induction false} BeforeInside(a: string, b: string)
    requires '.' in a
    ensures Before(a + b, '.') == Before(a, '.')
  {
    assert (a + b)[1..] == a[1..] + b;
    if a[0] != '.' { BeforeInside(a[1..], b); }
  }

  lemma {:induction false} BeforePast(a: string, b: string)
    requires '.' !in a
    ensures Before(a + b, '.') == a + Before(b, '.')
  {
    if a == [] {
      assert a + b == b;
    } else {
      assert (a + b)[1..] == a[1..] + b;
      BeforePast(a[1..], b);
    }
  }

  lemma BeforeConcat(a: string, b: string)
    ensures Before(a + b, '.') == if '.' in a then Before(a, '.') else a + Before(b, '.')
  {
    if '.' in a { BeforeInside(a, b); } else { BeforePast(a, b); }
  }

  lemma {:induction false} BeforeSelf(a: string)
    requires '.' !in a
    ensures Before(a, '.') == a
  {
    if a != [] { BeforeSelf(a[1..]); }
  }

  lemma MarkedIsNoDevice(stem: string, upper: char -> string)
    requires Uppercasing(upper) && stem != [] && stem[0] == '_'
    ensures !DeviceName(stem, upper)
  {
    var word := Before(stem, '.');
    TrimKeepsFirst(word, Whitespace);
    assert Upper(TrimEndOf(word, Whitespace), upper)[0] == '_';
  }

  lemma SanitizeIsNoDevice(title: string, upper: char -> string)
    requires Uppercasing(upper)
    ensures !DeviceName(Sanitize(title, upper), upper)
  {
    if DeviceName(Trimmed(title), upper) {
      MarkedIsNoDevice("_" + Trimmed(title), upper);
    }
  }

  // A prefix that reaches the first dot has the word of the whole.
  lemma DottedPrefix(stem: string, base: string, tail: string)
    requires stem <= base && '.' in stem
    ensures Before(stem + tail, '.') == Before(base, '.')
  {
    BeforeConcat(stem, tail);
    BeforeConcat(stem, base[|stem|..]);
    assert base == stem + base[|stem|..];
  }

  lemma NumberedIsNoDevice(title: string, markdown: bool, index: Attempt, upper: char -> string)
    requires Uppercasing(upper) && index >= 2
    ensures !DeviceName(Candidate(Sanitize(title, upper), markdown, index), upper)
  {
    var base := Sanitize(title, upper);
    var stem, tail := Stem(base, markdown, index), Suffix(index) + Extension(markdown);
    TruncateSize(base, Room(markdown, index));
    SanitizeIsNoDevice(title, upper);
    assert Candidate(base, markdown, index) == stem + tail;
    if '.' in stem {
      DottedPrefix(stem, base, tail);
    } else {
      BeforeConcat(stem, tail);
      NumberedWord(index, markdown);
      ClosedIsNoDevice(stem + Suffix(index), upper);
    }
  }

  lemma NumberedWord(index: nat, markdown: bool)
    requires index >= 2
    ensures Before(Suffix(index) + Extension(markdown), '.') == Suffix(index)
  {
    DigitsAreDigits(index);
    BeforeConcat(Suffix(index), Extension(markdown));
  }

  lemma ClosedIsNoDevice(word: string, upper: char -> string)
    requires Uppercasing(upper) && word != [] && word[|word| - 1] == ')'
    ensures !DeviceStem(Upper(TrimEndOf(word, Whitespace), upper))
  {
    UpperClosed(word, upper);
    ClosedStem(Upper(word, upper));
  }

  lemma UpperClosed(word: string, upper: char -> string)
    requires Uppercasing(upper) && word != [] && word[|word| - 1] == ')'
    ensures var u := Upper(word, upper); u != [] && u[|u| - 1] == ')'
  {
    var front := word[..|word| - 1];
    assert word == front + ")";
    UpperConcat(front, ")", upper);
    UpperFixes(")", upper);
  }

  lemma ClosedStem(s: string)
    requires s != [] && s[|s| - 1] == ')'
    ensures !DeviceStem(s)
  {
  }

  const NOTE_ROOM := MAX_COMPONENT_BYTES - 3

  // `text` is a device word of `n` characters with nothing but blanks after it.
  predicate DeviceThenBlanks(text: string, n: nat, upper: char -> string) {
    && n <= |text| && DeviceStem(Upper(text[..n], upper))
    && (n == 0 || !Whitespace(text[n - 1]))
    && forall i | n <= i < |text| :: Whitespace(text[i])
  }

  // The whole failing family: a title that is no device itself, longer than a note's name can be,
  // and up to that length a device word followed by blanks.
  predicate PaddedDevice(title: string, upper: char -> string) {
    var text := Trimmed(title);
    && !DeviceName(text, upper) && Size(text) > NOTE_ROOM
    && exists n | 0 <= n <= |Truncate(text, NOTE_ROOM)| :: DeviceThenBlanks(Truncate(text, NOTE_ROOM), n, upper)
  }

  lemma {:induction false} UpperKeepsDot(s: string, upper: char -> string)
    requires Uppercasing(upper) && '.' in s
    ensures '.' in Upper(s, upper)
  {
    if s[0] != '.' { UpperKeepsDot(s[1..], upper); }
  }

  lemma DeviceHasNoDot(stem: string)
    requires DeviceStem(stem)
    ensures '.' !in stem
  {
    if |stem| == 4 { assert stem == stem[..3] + [stem[3]]; }
  }

  // Trimming blanks from a text without dots leaves a device exactly when it is one with blanks after it.
  lemma TrimmedDeviceIff(head: string, upper: char -> string)
    requires Uppercasing(upper)
    ensures ('.' !in head && DeviceStem(Upper(TrimEndOf(head, Whitespace), upper)))
            <==> exists n | 0 <= n <= |head| :: DeviceThenBlanks(head, n, upper)
  {
    var word := TrimEndOf(head, Whitespace);
    TrimEndSpec(head, Whitespace);
    assert head[..|word|] == word;
    if DeviceStem(Upper(word, upper)) { assert DeviceThenBlanks(head, |word|, upper); }
    if n :| 0 <= n <= |head| && DeviceThenBlanks(head, n, upper) {
      assert n == |word|;
      DeviceHasNoDot(Upper(word, upper));
      if '.' in word { UpperKeepsDot(word, upper); }
    }
  }

  lemma {:induction false} BlanksTrimTwice(head: string)
    requires '.' !in head
    ensures TrimEndOf(TrimEndOf(head, SpaceOrDot), Whitespace) == TrimEndOf(head, Whitespace)
  {
    if head != [] && SpaceOrDot(head[|head| - 1]) { BlanksTrimTwice(head[..|head| - 1]); }
  }

  // Nor does anything else come between the stem and a dot that was cut off.
  lemma {:induction false} CutDot(head: string)
    requires '.' in head && '.' !in TrimEndOf(head, SpaceOrDot)
    ensures TrimEndOf(Before(head, '.'), Whitespace) == TrimEndOf(TrimEndOf(head, SpaceOrDot), Whitespace)
  {
    var front := head[..|head| - 1];
    assert head == front + head[|head| - 1..];
    BeforeConcat(front, head[|head| - 1..]);
    if '.' in front {
      CutDot(front);
    } else {
      assert head[|head| - 1..] == ".";
      assert front + [] == front;
      BlanksTrimTwice(front);
    }
  }

  lemma NoteWord(stem: string)
    requires '.' !in stem
    ensures Before(stem + ".md", '.') == stem
  {
    BeforeConcat(stem, ".md");
    assert stem + [] == stem;
  }

  // A base that is no device itself becomes one only by being cut.
  lemma CutToDevice(base: string, room: nat, upper: char -> string)
    requires !DeviceName(base, upper) && (base == "" || !SpaceOrDot(base[|base| - 1]))
    ensures var head := Truncate(base, room);
            DeviceName(TrimEndOf(head, SpaceOrDot) + ".md", upper)
            <==> Size(base) > room && '.' !in head && DeviceStem(Upper(TrimEndOf(head, Whitespace), upper))
  {
    var head := Truncate(base, room);
    var stem := TrimEndOf(head, SpaceOrDot);
    TrimEndSpec(head, SpaceOrDot);
    if '.' in stem {
      DottedPrefix(stem, base, ".md");
    } else {
      NoteWord(stem);
      if Size(base) <= room {
        TruncateWhole(base, room);
        BeforeSelf(base);
      } else if '.' in head {
        CutDot(head);
        DottedPrefix(head, base, "");
        assert head + "" == head;
      } else {
        BlanksTrimTwice(head);
      }
    }
  }

  lemma FirstNoteName(base: string)
    ensures Candidate(base, true, 1) == TrimEndOf(Truncate(base, NOTE_ROOM), SpaceOrDot) + ".md"
  {
  }

  lemma FirstNoteDevice(title: string, upper: char -> string)
    requires Uppercasing(upper)
    ensures DeviceName(Candidate(Sanitize(title, upper), true, 1), upper)
            <==> PaddedDevice(title, upper)
  {
    var base := Sanitize(title, upper);
    FirstNoteName(base);
    SanitizeIsNoDevice(title, upper);
    SanitizeIsPresentable(title, upper);
    CutToDevice(base, NOTE_ROOM, upper);
    if DeviceName(Trimmed(title), upper) {
      MarkedCut(base, upper);
    } else {
      TrimmedDeviceIff(Truncate(base, NOTE_ROOM), upper);
    }
  }

  // An inserted underscore survives the cut.
  lemma MarkedCut(base: string, upper: char -> string)
    requires Uppercasing(upper) && base != [] && base[0] == '_'
    ensures !DeviceName(TrimEndOf(Truncate(base, NOTE_ROOM), SpaceOrDot) + ".md", upper)
  {
    CutKeepsFirst(base, NOTE_ROOM);
    MarkedIsNoDevice(TrimEndOf(Truncate(base, NOTE_ROOM), SpaceOrDot) + ".md", upper);
  }

  lemma FirstFolderIsNoDevice(title: string, upper: char -> string)
    requires Uppercasing(upper)
    ensures !DeviceName(Candidate(Sanitize(title, upper), false, 1), upper)
  {
    var base := Sanitize(title, upper);
    assert Room(false, 1) == MAX_COMPONENT_BYTES;
    assert Candidate(base, false, 1) == Stem(base, false, 1);
    SanitizeIsNoDevice(title, upper);
    if Size(base) <= MAX_COMPONENT_BYTES {
      SanitizeIsPresentable(title, upper);
      TruncateWhole(base, MAX_COMPONENT_BYTES);
    } else {
      LongBase(title, upper);
      CutKeepsFirst(base, MAX_COMPONENT_BYTES);
      MarkedIsNoDevice(Stem(base, false, 1), upper);
    }
  }

  // A name is a device exactly when it is the unnumbered name of a note whose long title
  // is a device padded with blanks up to the cut.
  lemma DeviceExactly(title: string, markdown: bool, index: Attempt, upper: char -> string)
    requires Uppercasing(upper)
    ensures DeviceName(Candidate(Sanitize(title, upper), markdown, index), upper)
            <==> markdown && index == 1 && PaddedDevice(title, upper)
  {
    if index > 1 {
      NumberedIsNoDevice(title, markdown, index, upper);
    } else if markdown {
      FirstNoteDevice(title, upper);
    } else {
      FirstFolderIsNoDevice(title, upper);
    }
  }

  function Blanks(n: nat): string { seq(n, _ => ' ') }

  lemma {:induction false} AsciiUpperLength(s: string, upper: char -> string)
    requires Uppercasing(upper) && forall i | 0 <= i < |s| :: s[i] as int < 0x80
    ensures |Upper(s, upper)| == |s|
  {
    if s != [] { AsciiUpperLength(s[1..], upper); }
  }

  function PaddedTitle(): string { "CON" + Blanks(234) + "xyz" }

  lemma PaddedTitleIsPlain(t: string)
    requires t == PaddedTitle()
    ensures |t| == 240 && t[239] == 'z' && '.' !in t
    ensures forall i | 0 <= i < |t| :: t[i] as int < 0x80 && CleanChar(t[i])
    ensures t[..237] == "CON" + Blanks(234)
  {
    assert forall i | 0 <= i < |t| :: t[i] in "CON xyz";
  }

  lemma PlainIsKept(t: string)
    requires |t| == 240 && t[239] == 'z'
    requires forall i | 0 <= i < |t| :: t[i] as int < 0x80 && CleanChar(t[i])
    ensures Trimmed(t) == t
  {
    assert CleanAll(t) == t;
    AsciiSize(t, |t|);
    TruncateWhole(t, MAX_COMPONENT_BYTES);
  }

  lemma LongIsNoDevice(t: string, upper: char -> string)
    requires Uppercasing(upper) && |t| > 4 && '.' !in t && !Whitespace(t[|t| - 1])
    requires forall i | 0 <= i < |t| :: t[i] as int < 0x80
    ensures !DeviceName(t, upper)
  {
    BeforeSelf(t);
    AsciiUpperLength(t, upper);
  }

  lemma PaddedTitleIsPadded(t: string, upper: char -> string)
    requires Uppercasing(upper) && t == PaddedTitle() && Trimmed(t) == t && !DeviceName(t, upper)
    ensures PaddedDevice(t, upper)
  {
    PaddedTitleIsPlain(t);
    AsciiSize(t, |t|);
    AsciiSize(t, NOTE_ROOM);
    IndexOff(t, NOTE_ROOM);
    var head := Truncate(t, NOTE_ROOM);
    assert head == "CON" + Blanks(234) && head[..3] == "CON";
    UpperFixes("CON", upper);
    assert DeviceThenBlanks(head, 3, upper);
  }

  // A title whose first export is read as the console device.
  lemma PaddedTitleIsDevice(title: string, upper: char -> string)
    requires Uppercasing(upper) && title == PaddedTitle()
    ensures DeviceName(Candidate(Sanitize(title, upper), true, 1), upper)
  {
    PaddedTitleIsPlain(title);
    PlainIsKept(title);
    LongIsNoDevice(title, upper);
    PaddedTitleIsPadded(title, upper);
    DeviceExactly(title, true, 1, upper);
  }

  // ----- picking a name

  function Key(title: string, markdown: bool, index: Attempt, upper: char -> string): string {
    Upper(Candidate(Sanitize(title, upper), markdown, index), upper)
  }

  // `unique`: the first candidate that is still free, found within |taken| + 2 attempts.
  method Pick(taken: set<string>, title: string, markdown: bool, upper: char -> string)
    returns (name: string, index: Attempt)
    requires Uppercasing(upper) && |taken| + 2 <= LAST_INDEX
    ensures index <= |taken| + 2
    ensures name == Candidate(Sanitize(title, upper), markdown, index)
    ensures Upper(name, upper) !in taken
    ensures forall i: Attempt | i < index :: Key(title, markdown, i, upper) in taken
  {
    index := 1;
    name := Candidate(Sanitize(title, upper), markdown, index);
    while Upper(name, upper) in taken
      invariant index <= |taken| + 2
      invariant name == Candidate(Sanitize(title, upper), markdown, index)
      invariant forall i: Attempt | i < index :: Key(title, markdown, i, upper) in taken
      decreases |taken| + 2 - index
    {
      assert Key(title, markdown, index, upper) in taken;
      Crowded(taken, title, markdown, index, upper);
      index := index + 1;
      name := Candidate(Sanitize(title, upper), markdown, index);
    }
  }

  // Pigeonhole: only as many numbered attempts can fail as there are names.
  lemma Crowded(taken: set<string>, title: string, markdown: bool, last: Attempt, upper: char -> string)
    requires Uppercasing(upper)
    requires forall i: Attempt | i <= last :: Key(title, markdown, i, upper) in taken
    ensures last <= |taken| + 1
  {
    var f := (i: int) => if 2 <= i <= last then Key(title, markdown, i, upper) else "";
    forall i, j | 2 <= i < j <= last ensures f(i) != f(j) {
      CandidatesDiffer(Sanitize(title, upper), markdown, i, j, upper);
    }
    Injected(taken, f, last);
  }

  lemma {:induction false} Injected<T>(s: set<T>, f: int -> T, last: int)
    requires forall i | 2 <= i <= last :: f(i) in s
    requires forall i, j | 2 <= i < j <= last :: f(i) != f(j)
    ensures last <= |s| + 1
    decreases last
  {
    if last >= 2 {
      Injected(s - {f(last)}, f, last - 1);
    }
  }

  // The sibling namespace: files and directories share it.
  class Namespace {
    var taken: set<string>   // upper-cased names

    constructor ()
      ensures taken == {}
    {
      taken := {};
    }

    predicate Free(name: string, upper: char -> string)
      reads this
    {
      Upper(name, upper) !in taken
    }

    // `reserve`: exactly the names equal to it without regard to case are no longer free.
    method Reserve(name: string, upper: char -> string)
      modifies this
      ensures taken == old(taken) + {Upper(name, upper)}
      ensures forall other ::
                Free(other, upper) <==> old(Free(other, upper)) && Upper(other, upper) != Upper(name, upper)
    {
      taken := taken + {Upper(name, upper)};
    }

    // `unique`
    method Unique(title: string, markdown: bool, upper: char -> string) returns (name: string)
      requires Uppercasing(upper) && |taken| + 2 <= LAST_INDEX
      modifies this
      ensures Upper(name, upper) !in old(taken)
      ensures taken == old(taken) + {Upper(name, upper)}
      ensures Size(name) <= MAX_COMPONENT_BYTES && Portable(name) && name !in {"", ".", ".."}
    {
      var index;
      name, index := Pick(taken, title, markdown, upper);
      CandidateSpec(title, markdown, index, upper);
      CandidateIsComponent(title, markdown, index, upper);
      Reserve(name, upper);
    }
  }
}
