/** The POSIX path operations the distribution builder uses: `os.path.join`
    of two parts, the head of `os.path.split` (which is also
    `os.path.dirname`) and `os.path.abspath` without normalisation. */
module Paths {
  import opened Strings

  /** `os.path.join(a, b)`: an absolute `b` replaces `a`; otherwise one
      separator is inserted unless `a` is empty or already ends in one. */
  function Join(a: string, b: string): (r: string)
    ensures |b| <= |r| && r[|r| - |b|..] == b
    ensures b != [] && b[0] == '/' ==> r == b
    ensures (b == [] || b[0] != '/') ==> a <= r
  {
    if b != [] && b[0] == '/' then b
    else if a == [] || a[|a| - 1] == '/' then a + b
    else a + "/" + b
  }

  /** The index just after the last `/` of `p`, or 0 when `p` has none. */
  function LastSlashEnd(p: string): (k: nat)
    ensures k <= |p|
    ensures k > 0 ==> p[k - 1] == '/'
    ensures forall i :: k <= i < |p| ==> p[i] != '/'
    decreases |p|
  {
    if p == [] then 0
    else if p[|p| - 1] == '/' then |p|
    else LastSlashEnd(p[..|p| - 1])
  }

  predicate AllSlashes(s: string)
  {
    forall i :: 0 <= i < |s| ==> s[i] == '/'
  }

  /** `os.path.split(p)[0]`: everything up to the last separator, with
      trailing separators removed unless the head consists of nothing else. */
  function SplitHead(p: string): (head: string)
    ensures head <= p
    ensures (forall i :: 0 <= i < |p| ==> p[i] != '/') ==> head == []
  {
    var h := p[..LastSlashEnd(p)];
    if h != [] && !AllSlashes(h) then RStrip(h, {'/'}) else h
  }

  /** `os.path.abspath(p)` relative to the working directory `cwd`; the
      normalisation of `.` and `..` components is not modelled. */
  function Abspath(cwd: string, p: string): (r: string)
    ensures p != [] && p[0] == '/' ==> r == p
  {
    Join(cwd, p)
  }

  /** Splitting a path made by joining a directory and a file name gives the
      directory back, provided the directory has no trailing separator. */
  lemma SplitHeadOfJoin(dir: string, name: string)
    requires dir != [] && dir[|dir| - 1] != '/'
    requires name != [] && forall i :: 0 <= i < |name| ==> name[i] != '/'
    ensures SplitHead(Join(dir, name)) == dir
  {
    var p := Join(dir, name);
    assert p == dir + "/" + name;
    assert p[..|dir| + 1] == dir + "/";
    LastSlashEndOf(dir + "/", name);
    var h := dir + "/";
    assert h[|h| - 1] == '/' && h[|h| - 2] != '/';
    assert !AllSlashes(h);
    assert h[..|h| - 1] == dir;
  }

  /** The last separator of `a + b` is the last one of `a` when `a` ends in a
      separator and `b` has none. */
  lemma LastSlashEndOf(a: string, b: string)
    requires a != [] && a[|a| - 1] == '/'
    requires forall i :: 0 <= i < |b| ==> b[i] != '/'
    ensures LastSlashEnd(a + b) == |a|
  {
    assert (a + b)[|a| - 1] == '/';
  }
}
