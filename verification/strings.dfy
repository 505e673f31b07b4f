/** The Python `str` methods the distribution builder relies on:
    `rstrip(chars)`, `lower()`, `replace(old, new)` on one character and
    `splitlines()`. */
module Strings {

  /** `s.rstrip(chars)`: removes every trailing character that belongs to the
      set `chars`. It strips a character SET, not a suffix. */
  function RStrip(s: string, chars: set<char>): (r: string)
    ensures r <= s
    ensures r == [] || r[|r| - 1] !in chars
    ensures forall i :: |r| <= i < |s| ==> s[i] in chars
    decreases |s|
  {
    if s != [] && s[|s| - 1] in chars then RStrip(s[..|s| - 1], chars) else s
  }

  /** Appending characters that `rstrip` removes does not change its result. */
  lemma {:induction false} RStripIgnoresStrippable(s: string, t: string, chars: set<char>)
    requires forall i :: 0 <= i < |t| ==> t[i] in chars
    ensures RStrip(s + t, chars) == RStrip(s, chars)
    decreases |t|
  {
    if t == [] {
      assert s + t == s;
    } else {
      var t' := t[..|t| - 1];
      assert (s + t)[..|s + t| - 1] == s + t';
      RStripIgnoresStrippable(s, t', chars);
    }
  }

  /** `rstrip` leaves a string alone exactly when it does not end in a
      stripped character. */
  lemma RStripIdentity(s: string, chars: set<char>)
    ensures RStrip(s, chars) == s <==> (s == [] || s[|s| - 1] !in chars)
  {
  }

  predicate IsUpper(c: char) { 'A' <= c <= 'Z' }

  function LowerChar(c: char): char
  {
    if IsUpper(c) then (c as int + 32) as char else c
  }

  /** `s.lower()` on ASCII letters: each of `A`..`Z` becomes the letter 32
      code points further on, `a`..`z`. */
  function Lower(s: string): (r: string)
    ensures |r| == |s|
    ensures forall i :: 0 <= i < |r| ==> !IsUpper(r[i])
    ensures forall i :: 0 <= i < |s| && IsUpper(s[i]) ==> r[i] == (s[i] as int + 32) as char
    ensures forall i :: 0 <= i < |s| && !IsUpper(s[i]) ==> r[i] == s[i]
  {
    seq(|s|, i requires 0 <= i < |s| => LowerChar(s[i]))
  }

  /** A value lower-cases to `zip` exactly when it is `zip` spelt in any mix
      of cases. */
  lemma LowerIsZipIff(s: string)
    ensures Lower(s) == "zip" <==>
      |s| == 3 && s[0] in {'z', 'Z'} && s[1] in {'i', 'I'} && s[2] in {'p', 'P'}
  {
    if Lower(s) == "zip" {
      assert Lower(s)[0] == LowerChar(s[0]) && Lower(s)[1] == LowerChar(s[1]) && Lower(s)[2] == LowerChar(s[2]);
    }
    if |s| == 3 && s[0] in {'z', 'Z'} && s[1] in {'i', 'I'} && s[2] in {'p', 'P'} {
      assert Lower(s)[0] == 'z' && Lower(s)[1] == 'i' && Lower(s)[2] == 'p';
    }
  }

  /** `s.replace(from, to)` for single characters. */
  function Replace(s: string, from: char, to: char): (r: string)
    ensures |r| == |s|
    ensures from != to ==> forall i :: 0 <= i < |r| ==> r[i] != from
    ensures forall i :: 0 <= i < |s| && s[i] != from ==> r[i] == s[i]
    ensures forall i :: 0 <= i < |s| && s[i] == from ==> r[i] == to
  {
    seq(|s|, i requires 0 <= i < |s| => if s[i] == from then to else s[i])
  }

  /** The characters `str.splitlines` treats as line boundaries. */
  predicate IsLineBreak(c: char)
  {
    c in {'\n', '\r', '\U{0B}', '\U{0C}', '\U{1C}', '\U{1D}', '\U{1E}', '\U{85}', '\U{2028}', '\U{2029}'}
  }

  predicate NoLineBreak(s: string)
  {
    forall i :: 0 <= i < |s| ==> !IsLineBreak(s[i])
  }

  /** `str.splitlines` scanning from the start of `s` with the current,
      unfinished line `cur`; "\r\n" is one boundary and a final line is
      produced only when it is not empty. */
  function SplitLinesFrom(s: string, cur: string): (lines: seq<string>)
    requires NoLineBreak(cur)
    ensures forall i :: 0 <= i < |lines| ==> NoLineBreak(lines[i])
    decreases |s|
  {
    if s == [] then
      (if cur == [] then [] else [cur])
    else if s[0] == '\r' && |s| >= 2 && s[1] == '\n' then
      [cur] + SplitLinesFrom(s[2..], [])
    else if IsLineBreak(s[0]) then
      [cur] + SplitLinesFrom(s[1..], [])
    else
      SplitLinesFrom(s[1..], cur + [s[0]])
  }

  /** `s.splitlines()`: no line holds a boundary, an empty string has no
      lines, and a boundary-free string is its own single line. */
  function SplitLines(s: string): (lines: seq<string>)
    ensures forall i :: 0 <= i < |lines| ==> NoLineBreak(lines[i])
    ensures NoLineBreak(s) ==> lines == if s == [] then [] else [s]
  {
    if NoLineBreak(s) then
      SplitOneLine(s, []);
      assert [] + s == s;
      SplitLinesFrom(s, [])
    else
      SplitLinesFrom(s, [])
  }

  /** A boundary-free text continues the current line and ends the scan
      with that single line, if it is not empty. */
  lemma {:induction false} SplitOneLine(line: string, cur: string)
    requires NoLineBreak(line) && NoLineBreak(cur)
    ensures SplitLinesFrom(line, cur) == if cur + line == [] then [] else [cur + line]
    decreases |line|
  {
    if line == [] {
      assert cur + line == cur;
    } else {
      assert (cur + [line[0]]) + line[1..] == cur + line;
      SplitOneLine(line[1..], cur + [line[0]]);
    }
  }
}
