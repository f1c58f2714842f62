/** The string operations of the standard library that the models share. */
module Text {
  // `char::is_whitespace`: the White_Space property.
  predicate Whitespace(c: char) {
    var v := c as int;
    0x09 <= v <= 0x0d || v == 0x20 || v == 0x85 || v == 0xa0 || v == 0x1680 || 0x2000 <= v <= 0x200a
    || v == 0x2028 || v == 0x2029 || v == 0x202f || v == 0x205f || v == 0x3000
  }

  // `char::is_control`: general category Cc.
  predicate Control(c: char) {
    var v := c as int;
    v <= 0x1f || 0x7f <= v <= 0x9f
  }

  // `char::is_ascii_digit`
  predicate Digit(c: char) { '0' <= c <= '9' }

  // `trim_end_matches` for a set of characters
  function TrimEndOf(s: string, p: char -> bool): string {
    if s != [] && p(s[|s| - 1]) then TrimEndOf(s[..|s| - 1], p) else s
  }

  function TrimStartOf(s: string, p: char -> bool): string {
    if s != [] && p(s[0]) then TrimStartOf(s[1..], p) else s
  }

  function Trim(s: string): string { TrimEndOf(TrimStartOf(s, Whitespace), Whitespace) }

  lemma {:induction false} TrimEndSpec(s: string, p: char -> bool)
    ensures TrimEndOf(s, p) <= s
    ensures TrimEndOf(s, p) == [] || !p(TrimEndOf(s, p)[|TrimEndOf(s, p)| - 1])
    ensures forall i | |TrimEndOf(s, p)| <= i < |s| :: p(s[i])
  {
    if s != [] && p(s[|s| - 1]) { TrimEndSpec(s[..|s| - 1], p); }
  }

  lemma {:induction false} TrimKeepsFirst(s: string, p: char -> bool)
    requires s != [] && !p(s[0])
    ensures TrimEndOf(s, p) != [] && TrimEndOf(s, p)[0] == s[0]
  {
    if p(s[|s| - 1]) { TrimKeepsFirst(s[..|s| - 1], p); }
  }

  function AsciiLower(c: char): char {
    if 'A' <= c <= 'Z' then (c as int + 32) as char else c
  }

  // `to_ascii_lowercase`
  function Lowercase(s: string): string {
    seq(|s|, i requires 0 <= i < |s| => AsciiLower(s[i]))
  }

  // `str::contains`
  predicate Contains(s: string, part: string) {
    exists i | 0 <= i <= |s| :: part <= s[i..]
  }

  // The text before the first `c`, or all of it: `split(c).next()`.
  function Before(s: string, c: char): string {
    if s == [] || s[0] == c then [] else [s[0]] + Before(s[1..], c)
  }

  // The text after the first `c`, or nothing.
  function After(s: string, c: char): (r: string)
    ensures |r| <= |s| && (s != "" ==> |r| < |s|)
  {
    if s == "" then "" else if s[0] == c then s[1..] else After(s[1..], c)
  }

  lemma {:induction false} BeforeSpec(s: string, c: char)
    ensures Before(s, c) <= s && c !in Before(s, c)
    ensures c in s ==> |Before(s, c)| < |s| && s[|Before(s, c)|] == c
    ensures c !in s ==> Before(s, c) == s
  {
    if s != "" && s[0] != c {
      BeforeSpec(s[1..], c);
      assert s == [s[0]] + s[1..];
    }
  }

  // Cutting at the first `c` takes apart what was joined by it.
  lemma {:induction false} CutAt(a: string, c: char, b: string)
    requires c !in a
    ensures Before(a + [c] + b, c) == a && After(a + [c] + b, c) == b
  {
    var s := a + [c] + b;
    if a == "" {
      assert s[0] == c && s[1..] == b;
    } else {
      assert s[1..] == a[1..] + [c] + b;
      CutAt(a[1..], c, b);
    }
  }

  lemma {:induction false} TrimsStart(left: string, s: string, p: char -> bool)
    requires (forall i | 0 <= i < |left| :: p(left[i])) && (s == "" || !p(s[0]))
    ensures TrimStartOf(left + s, p) == s
  {
    if left == "" {
      assert left + s == s;
    } else {
      assert (left + s)[1..] == left[1..] + s;
      TrimsStart(left[1..], s, p);
    }
  }

  lemma {:induction false} TrimsEnd(s: string, right: string, p: char -> bool)
    requires (forall i | 0 <= i < |right| :: p(right[i])) && (s == "" || !p(s[|s| - 1]))
    ensures TrimEndOf(s + right, p) == s
  {
    if right == "" {
      assert s + right == s;
    } else {
      assert (s + right)[..|s + right| - 1] == s + right[..|right| - 1];
      TrimsEnd(s, right[..|right| - 1], p);
    }
  }
}
