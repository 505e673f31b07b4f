/** A snapshot of the file system as the builder observes it, and
    `find_file`, the first-match search over a directory listing. */
module Files {
  import opened Outcomes
  import opened Paths
  import opened Pattern

  /** One triple produced by `os.walk`: a directory and the names of the
      non-directory entries directly inside it. */
  datatype WalkStep = WalkStep(root: string, files: seq<string>)

  /** `files` holds the paths for which `os.path.isfile` is true;
      `listings` gives `os.listdir` for every existing directory, in the
      order the operating system returns; `walks` gives the triples
      `os.walk` yields for a starting directory, in order. Paths are
      compared as the strings the program passes. */
  datatype FileSystem = FileSystem(
    files: set<string>,
    listings: map<string, seq<string>>,
    walks: map<string, seq<WalkStep>>)
  {
    predicate IsFile(path: string) { path in files }

    /** `os.path.exists`: a regular file or a directory. */
    predicate Exists(path: string) { path in files || path in listings }

    /** `os.walk` of a missing directory yields nothing: its listing error is
        swallowed by default. */
    function Walk(path: string): seq<WalkStep>
    {
      if path in walks then walks[path] else []
    }
  }

  /** The test `find_file` applies to a directory entry. */
  predicate Hit(fs: FileSystem, direc: string, pattern: string, entry: string)
  {
    Matches(entry, pattern) && fs.IsFile(Join(direc, entry))
  }

  /** The loop of `find_file` from position `from` of the listing onwards:
      the position of the first entry that passes the test, or the length of
      the listing when none does. */
  function FirstHit(fs: FileSystem, direc: string, pattern: string, listing: seq<string>, from: nat): (k: nat)
    requires from <= |listing|
    ensures from <= k <= |listing|
    ensures k < |listing| ==> Hit(fs, direc, pattern, listing[k])
    ensures forall j :: from <= j < k ==> !Hit(fs, direc, pattern, listing[j])
    decreases |listing| - from
  {
    if from == |listing| then from
    else if Hit(fs, direc, pattern, listing[from]) then from
    else FirstHit(fs, direc, pattern, listing, from + 1)
  }

  /** `find_file(direc, pattern)`: the path of the first entry of the
      listing of `direc` that matches `pattern` and is a regular file. */
  function FindFile(fs: FileSystem, direc: string, pattern: string): (r: Result<string>)
    ensures direc !in fs.listings ==> r == Err(DirectoryNotFound(direc))
    ensures r.Ok? ==> fs.IsFile(r.value)
    ensures r.Ok? ==>
      direc in fs.listings &&
      exists k :: 0 <= k < |fs.listings[direc]|
        && r.value == Join(direc, fs.listings[direc][k])
        && Hit(fs, direc, pattern, fs.listings[direc][k])
        && forall j :: 0 <= j < k ==> !Hit(fs, direc, pattern, fs.listings[direc][j])
    ensures direc in fs.listings ==>
      (r.Err? <==> forall i :: 0 <= i < |fs.listings[direc]| ==> !Hit(fs, direc, pattern, fs.listings[direc][i]))
    ensures direc in fs.listings && r.Err? ==> r.error == NoMatchingFile(pattern)
  {
    if direc !in fs.listings then Err(DirectoryNotFound(direc))
    else
      var listing := fs.listings[direc];
      var k := FirstHit(fs, direc, pattern, listing, 0);
      if k < |listing| then Ok(Join(direc, listing[k])) else Err(NoMatchingFile(pattern))
  }

  /** What a successful `find_file` returned is the joined path of one
      listed entry that matches the pattern. */
  lemma FoundEntry(fs: FileSystem, direc: string, pattern: string)
    requires FindFile(fs, direc, pattern).Ok?
    ensures direc in fs.listings
    ensures exists e ::
      e in fs.listings[direc] && FindFile(fs, direc, pattern).value == Join(direc, e) && Matches(e, pattern)
  {
    var listing := fs.listings[direc];
    var k :| 0 <= k < |listing| && FindFile(fs, direc, pattern).value == Join(direc, listing[k])
      && Hit(fs, direc, pattern, listing[k]);
    assert listing[k] in listing;
  }

  /** Among several matching regular files, the one listed first is chosen,
      whatever the others are. */
  lemma FindFileTakesEarliest(fs: FileSystem, direc: string, pattern: string, k: nat)
    requires direc in fs.listings && k < |fs.listings[direc]|
    requires Hit(fs, direc, pattern, fs.listings[direc][k])
    requires forall j :: 0 <= j < k ==> !Hit(fs, direc, pattern, fs.listings[direc][j])
    ensures FindFile(fs, direc, pattern) == Ok(Join(direc, fs.listings[direc][k]))
  {
  }
}
