/** The builder: runs `setup.py` for a source distribution and a wheel inside
    the directory that holds it, then finds the two artifacts in the
    distribution directory by file-name pattern. The wheel is looked for
    under the distribution name with every `-` escaped to `_`, as wheel file
    names are escaped (PEP 427); the source archive under the name as
    declared. */
module Building {
  import opened Outcomes
  import opened Strings
  import opened Paths
  import opened Pattern
  import opened Files
  import opened Records
  import opened SetupPy
  import opened Scope

  /** A `Builder` object: its three attributes are set once, in its
      initialiser, and never changed. */
  datatype Builder = Builder(distDir: string, setupPy: string, distName: string)

  /** `Builder(dist_dir, setup_py)`: reads the distribution name out of the
      already parsed `setup.py`; a module the name cannot be read from raises
      before any build step runs. */
  function NewBuilder(build: BuildConfig, setupModule: seq<Stmt>): (r: Result<Builder>)
    ensures r.Ok? ==> r.value.distDir == build.distDir && r.value.setupPy == build.setupPy
    ensures r.Ok? ==> GetDistName(setupModule).Ok? && r.value.distName == GetDistName(setupModule).value
    ensures r.Err? <==> GetDistName(setupModule).Err?
    ensures r.Err? ==> r.error == GetDistName(setupModule).error
  {
    var name :- GetDistName(setupModule);
    Ok(Builder(build.distDir, build.setupPy, name))
  }

  /** `dist_name.replace('-', '_')`. */
  function UnderscoreName(name: string): (r: string)
    ensures |r| == |name| && forall i :: 0 <= i < |r| ==> r[i] != '-'
    ensures forall i :: 0 <= i < |name| && name[i] == '-' ==> r[i] == '_'
    ensures forall i :: 0 <= i < |name| && name[i] != '-' ==> r[i] == name[i]
  {
    Replace(name, '-', '_')
  }

  /** The escaped name is the declared one exactly when the latter has no
      hyphen. */
  lemma UnderscoreNameKeepsIff(name: string)
    ensures UnderscoreName(name) == name <==> forall i :: 0 <= i < |name| ==> name[i] != '-'
  {
    if UnderscoreName(name) == name {
      forall i | 0 <= i < |name| ensures name[i] != '-' {
        assert UnderscoreName(name)[i] != '-';
      }
    }
  }

  /** The pattern `_find_dist` builds: the name, a hyphen, anything, then the
      extension; it is anchored at the start of a file name only. */
  function ArtifactPattern(name: string, extension: string): (p: string)
    ensures name + "-" <= p
    ensures |p| == |name| + 3 + |extension| && p[|name| + 1..|name| + 3] == ".*"
    ensures p[|p| - |extension|..] == extension
  {
    name + "-.*" + extension
  }

  /** `Builder._find_dist(name, extension)`. */
  function FindDist(fs: FileSystem, b: Builder, name: string, extension: string): (r: Result<string>)
    ensures b.distDir !in fs.listings ==> r == Err(DirectoryNotFound(b.distDir))
    ensures r.Ok? ==> b.distDir in fs.listings && fs.IsFile(r.value)
    ensures r.Ok? ==>
      exists e :: e in fs.listings[b.distDir] && r.value == Join(b.distDir, e)
           && Matches(e, ArtifactPattern(name, extension))
    ensures b.distDir in fs.listings && r.Err? ==> r.error == NoMatchingFile(ArtifactPattern(name, extension))
    ensures r == FindFile(fs, b.distDir, ArtifactPattern(name, extension))
  {
    var r := FindFile(fs, b.distDir, ArtifactPattern(name, extension));
    if r.Ok? then
      FoundEntry(fs, b.distDir, ArtifactPattern(name, extension));
      r
    else r
  }

  /** The lookup that ends `Builder.build`: the wheel first, then the source
      archive. */
  function LocateArtifacts(fs: FileSystem, b: Builder): (r: Result<BuildResult>)
    ensures r.Ok? ==>
      FindFile(fs, b.distDir, ArtifactPattern(UnderscoreName(b.distName), ".whl")).Ok?
      && FindFile(fs, b.distDir, ArtifactPattern(b.distName, ".tar.gz")).Ok?
    ensures r.Ok? ==> r.value == BuildResult(
      FindFile(fs, b.distDir, ArtifactPattern(UnderscoreName(b.distName), ".whl")).value,
      FindFile(fs, b.distDir, ArtifactPattern(b.distName, ".tar.gz")).value)
    ensures r.Ok? ==> fs.IsFile(r.value.wheel) && fs.IsFile(r.value.source)
    ensures r.Ok? ==> b.distDir in fs.listings
    ensures r.Ok? ==>
      exists e :: e in fs.listings[b.distDir] && r.value.wheel == Join(b.distDir, e)
        && Matches(e, ArtifactPattern(UnderscoreName(b.distName), ".whl"))
    ensures r.Ok? ==>
      exists e :: e in fs.listings[b.distDir] && r.value.source == Join(b.distDir, e)
        && Matches(e, ArtifactPattern(b.distName, ".tar.gz"))
    ensures r.Err? <==>
      FindDist(fs, b, UnderscoreName(b.distName), ".whl").Err? || FindDist(fs, b, b.distName, ".tar.gz").Err?
    ensures r.Err? ==>
      r.error == if FindDist(fs, b, UnderscoreName(b.distName), ".whl").Err?
                 then FindDist(fs, b, UnderscoreName(b.distName), ".whl").error
                 else FindDist(fs, b, b.distName, ".tar.gz").error
  {
    var wheel := FindDist(fs, b, UnderscoreName(b.distName), ".whl");
    if wheel.Err? then Err(wheel.error)
    else
      var source := FindDist(fs, b, b.distName, ".tar.gz");
      if source.Err? then Err(source.error)
      else
        FoundEntry(fs, b.distDir, ArtifactPattern(UnderscoreName(b.distName), ".whl"));
        FoundEntry(fs, b.distDir, ArtifactPattern(b.distName, ".tar.gz"));
        Ok(BuildResult(wheel.value, source.value))
  }

  /** With several candidates listed, each artifact is the first listed
      regular file matching its own pattern, whatever follows it. */
  lemma LocateArtifactsTakesEarliest(fs: FileSystem, b: Builder, k: nat, m: nat)
    requires b.distDir in fs.listings && k < |fs.listings[b.distDir]| && m < |fs.listings[b.distDir]|
    requires Hit(fs, b.distDir, ArtifactPattern(UnderscoreName(b.distName), ".whl"), fs.listings[b.distDir][k])
    requires forall j :: 0 <= j < k ==>
      !Hit(fs, b.distDir, ArtifactPattern(UnderscoreName(b.distName), ".whl"), fs.listings[b.distDir][j])
    requires Hit(fs, b.distDir, ArtifactPattern(b.distName, ".tar.gz"), fs.listings[b.distDir][m])
    requires forall j :: 0 <= j < m ==>
      !Hit(fs, b.distDir, ArtifactPattern(b.distName, ".tar.gz"), fs.listings[b.distDir][j])
    ensures LocateArtifacts(fs, b) ==
      Ok(BuildResult(Join(b.distDir, fs.listings[b.distDir][k]), Join(b.distDir, fs.listings[b.distDir][m])))
  {
    FindFileTakesEarliest(fs, b.distDir, ArtifactPattern(UnderscoreName(b.distName), ".whl"), k);
    FindFileTakesEarliest(fs, b.distDir, ArtifactPattern(b.distName, ".tar.gz"), m);
  }

  /** Every file name made of the name, a hyphen, a newline-free middle part
      and the extension matches the artifact pattern, whatever follows. */
  lemma ArtifactNameMatches(name: string, middle: string, extension: string, rest: string)
    requires NoStar(name) && NoStar(extension)
    requires forall i :: 0 <= i < |middle| ==> middle[i] != '\n'
    ensures Matches(name + "-" + middle + extension + rest, ArtifactPattern(name, extension))
  {
    MatchesOwnText(extension, rest);
    StarSkips(middle, extension + rest, extension);
    LiteralThen(name + "-", middle + (extension + rest), ".*" + extension);
    assert name + "-" + middle + extension + rest == (name + "-") + (middle + (extension + rest));
    assert ArtifactPattern(name, extension) == (name + "-") + (".*" + extension);
  }

  /** Conversely, for a name without `.` or `*`, only file names that start
      with the name and a hyphen match the artifact pattern. */
  lemma ArtifactMatchStartsWithName(entry: string, name: string, extension: string)
    requires NoStar(name) && NoDot(name)
    requires Matches(entry, ArtifactPattern(name, extension))
    ensures name + "-" <= entry
  {
    assert ArtifactPattern(name, extension) == (name + "-") + (".*" + extension);
    LiteralPrefixOfMatch(entry, name + "-", ".*" + extension);
  }

  /** What the external build tool did: the file system it left behind, or
      an exception it raised. */
  datatype ToolRun = Produced(fs: FileSystem) | Raised

  /** `Builder.build()`: change into the directory of `setup.py`, run the
      tool there, change back, then find the artifacts. */
  method Build(p: Process, b: Builder, tool: ToolRun) returns (r: Result<BuildResult>)
    modifies p
    ensures p.cwd == old(p.cwd) && p.saved == old(p.saved)
    ensures SplitHead(b.setupPy) !in p.dirs ==> r == Err(CannotChdir(SplitHead(b.setupPy)))
    ensures SplitHead(b.setupPy) in p.dirs && tool.Raised? ==> r == Err(BuildToolFailed)
    ensures SplitHead(b.setupPy) in p.dirs && tool.Produced? ==> r == LocateArtifacts(tool.fs, b)
  {
    var setupPyDir := SplitHead(b.setupPy);
    var err := p.EnterScope(setupPyDir);
    if err.Some? {
      return Err(err.value);
    }
    // The sdist and bdist_wheel runs of setup.py and the removal of the
    // egg-info directory happen here; `tool` says how they ended. Each run
    // assigns `sys.argv[1:]` in place on the very list it saved as
    // `orig_argv`, so the assignment meant to restore the arguments puts
    // back the changed list: nothing about the arguments is restored.
    p.ExitScope();
    match tool
    case Raised =>
      r := Err(BuildToolFailed);
    case Produced(fs) =>
      r := LocateArtifacts(fs, b);
  }
}
