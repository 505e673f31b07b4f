/** The part of Python's `re.match(pattern, s)` that the builder's patterns
    use. A pattern is read character by character: `.*` matches any run of
    characters, `.` matches any one character except a newline, and every
    other character matches itself. `re.match` anchors the match at the start
    of `s` only, so any prefix of `s` may be the part matched. */
module Pattern {

  predicate IsStar(p: string)
  {
    |p| >= 2 && p[0] == '.' && p[1] == '*'
  }

  /** True when some prefix of `s` matches the pattern `p`. */
  predicate Matches(s: string, p: string)
    ensures Matches(s, p) && NoStar(p) ==> |p| <= |s|
    decreases |p|, |s|
  {
    if p == [] then true
    else if IsStar(p) then
      Matches(s, p[2..]) || (s != [] && s[0] != '\n' && Matches(s[1..], p))
    else
      s != [] && (if p[0] == '.' then s[0] != '\n' else s[0] == p[0]) && Matches(s[1..], p[1..])
  }

  predicate NoStar(p: string)
  {
    forall i :: 0 <= i < |p| ==> p[i] != '*'
  }

  predicate NoDot(p: string)
  {
    forall i :: 0 <= i < |p| ==> p[i] != '.'
  }

  /** The match is anchored at the start only: whatever follows a matching
      prefix is ignored. */
  lemma {:induction false} MatchesExtends(s: string, p: string, t: string)
    requires Matches(s, p)
    ensures Matches(s + t, p)
    decreases |p|, |s|
  {
    if p == [] {
    } else if IsStar(p) {
      if Matches(s, p[2..]) {
        MatchesExtends(s, p[2..], t);
      } else {
        MatchesExtends(s[1..], p, t);
        assert (s + t)[1..] == s[1..] + t;
      }
    } else {
      MatchesExtends(s[1..], p[1..], t);
      assert (s + t)[1..] == s[1..] + t;
    }
  }

  /** A pattern without `*` matches its own text, followed by anything: a
      `.` in it matches the `.` that stands at the same place. */
  lemma {:induction false} MatchesOwnText(p: string, t: string)
    requires NoStar(p)
    ensures Matches(p + t, p)
    decreases |p|
  {
    if p != [] {
      assert !IsStar(p);
      assert (p + t)[1..] == p[1..] + t;
      MatchesOwnText(p[1..], t);
    }
  }

  /** `.*` followed by a pattern matches any newline-free run followed by a
      text that pattern matches. */
  lemma {:induction false} StarSkips(v: string, s: string, q: string)
    requires forall i :: 0 <= i < |v| ==> v[i] != '\n'
    requires Matches(s, q)
    ensures Matches(v + s, ".*" + q)
    decreases |v|
  {
    var p := ".*" + q;
    assert IsStar(p) && p[2..] == q;
    if v == [] {
      assert v + s == s;
    } else {
      assert (v + s)[1..] == v[1..] + s;
      StarSkips(v[1..], s, q);
    }
  }

  /** A pattern that begins with a literal text (no `.` and no `*`) only
      matches strings that begin with that text. */
  lemma {:induction false} LiteralPrefixOfMatch(s: string, lit: string, q: string)
    requires NoDot(lit) && NoStar(lit)
    requires Matches(s, lit + q)
    ensures lit <= s
    decreases |lit|
  {
    if lit != [] {
      var p := lit + q;
      assert p[0] == lit[0] && !IsStar(p);
      assert p[1..] == lit[1..] + q;
      LiteralPrefixOfMatch(s[1..], lit[1..], q);
    }
  }

  /** A literal text in front of a pattern consumes the same text in front
      of the string. */
  lemma {:induction false} LiteralThen(lit: string, s: string, q: string)
    requires NoStar(lit)
    requires q == [] || q[0] != '*'
    requires Matches(s, q)
    ensures Matches(lit + s, lit + q)
    decreases |lit|
  {
    if lit != [] {
      var p := lit + q;
      assert !IsStar(p) by {
        if |lit| >= 2 { assert p[1] == lit[1]; } else if |p| >= 2 { assert p[1] == q[0]; }
      }
      assert p[1..] == lit[1..] + q;
      assert (lit + s)[1..] == lit[1..] + s;
      assert (lit + s)[0] == lit[0] == p[0];
      LiteralThen(lit[1..], s, q);
    } else {
      assert lit + s == s && lit + q == q;
    }
  }
}
