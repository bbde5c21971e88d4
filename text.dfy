/**
 * String primitives the segmenters rely on: case-insensitive substring search
 * as Python's `re.IGNORECASE` performs it for the letters the markers use,
 * `str.split('\n')` and `str.join`.
 */
module Text {

  /**
   * The character a case-insensitive match compares: ASCII letters fold to
   * lower case, and so do the four non-ASCII characters that Python's regex
   * engine treats as case variants of an ASCII letter (dotted and dotless i,
   * long s, Kelvin sign).
   */
  function Fold(c: char): char {
    if 'A' <= c <= 'Z' then (c as int - 'A' as int + 'a' as int) as char
    else if c == '\U{0130}' || c == '\U{0131}' then 'i'
    else if c == '\U{017F}' then 's'
    else if c == '\U{212A}' then 'k'
    else c
  }

  predicate EqualIgnoreCase(a: string, b: string) {
    |a| == |b| && forall i :: 0 <= i < |a| ==> Fold(a[i]) == Fold(b[i])
  }

  predicate MatchesAt(line: string, word: string, i: nat) {
    i + |word| <= |line| && EqualIgnoreCase(line[i..i + |word|], word)
  }

  /** `re.search(word, line, re.IGNORECASE)` for a pattern made of literal characters. */
  predicate ContainsIgnoreCase(line: string, word: string) {
    exists i: nat :: i <= |line| && MatchesAt(line, word, i)
  }

  /** Index of the first occurrence of `c` in `s`. */
  function IndexOf(s: string, c: char): (i: nat)
    requires c in s
    ensures i < |s| && s[i] == c && c !in s[..i]
  {
    if s[0] == c then 0
    else
      var j := IndexOf(s[1..], c);
      assert s[..j + 1] == [s[0]] + s[1..][..j];
      j + 1
  }

  /** `s.split('\n')`: at least one part, none holding a newline. */
  function Split(s: string): (parts: seq<string>)
    ensures |parts| >= 1
    ensures forall i :: 0 <= i < |parts| ==> '\n' !in parts[i]
    decreases |s|
  {
    if '\n' !in s then [s]
    else
      var i := IndexOf(s, '\n');
      [s[..i]] + Split(s[i + 1..])
  }

  /** `sep.join(parts)` */
  function Join(sep: string, parts: seq<string>): string {
    if |parts| == 0 then ""
    else if |parts| == 1 then parts[0]
    else parts[0] + sep + Join(sep, parts[1..])
  }

  /** Splitting on newlines loses nothing: joining the lines back gives the text. */
  lemma {:induction false} JoinSplit(s: string)
    ensures Join("\n", Split(s)) == s
    decreases |s|
  {
    if '\n' in s {
      var i := IndexOf(s, '\n');
      var rest := Split(s[i + 1..]);
      JoinSplit(s[i + 1..]);
      assert Split(s) == [s[..i]] + rest;
      assert s == s[..i] + "\n" + s[i + 1..];
    }
  }

  /** A text without newlines is a single line. */
  lemma SplitSingleLine(s: string)
    requires '\n' !in s
    ensures Split(s) == [s]
  {
  }
}
