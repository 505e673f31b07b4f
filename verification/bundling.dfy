/** The bundler: `bundler_factory` composes the list of files and the target
    name, `Bundler.bundle` picks the archive strategy by its format tag, and
    `build_zip` / `zipdir` write the archive's entries in order. The archive
    is modelled as its name and the sequence of paths written into it; the
    bytes of the ZIP format are not. */
module Bundling {
  import opened Outcomes
  import opened Strings
  import opened Paths
  import opened Files
  import opened Records

  /** The characters `wheel.rstrip('.whl')` removes. */
  const WheelStripChars: set<char> := {'.', 'w', 'h', 'l'}

  /** A `Bundler` object: its attributes are set once and never changed. */
  datatype Bundler = Bundler(target: string, format: string, dirs: seq<string>, files: seq<string>)

  /** `build_result.wheel.rstrip('.whl')`: the wheel path with every
      trailing `.`, `w`, `h` and `l` removed, which is not the same as
      removing the `.whl` suffix. */
  function WheelTarget(wheel: string): (target: string)
    ensures target <= wheel
    ensures target == [] || target[|target| - 1] !in WheelStripChars
    ensures forall i :: |target| <= i < |wheel| ==> wheel[i] in WheelStripChars
  {
    RStrip(wheel, WheelStripChars)
  }

  /** The target is the wheel path without its `.whl` suffix exactly when
      that stem does not itself end in one of the stripped characters. */
  lemma WheelTargetIsStemIff(stem: string)
    ensures WheelTarget(stem + ".whl") == stem <==> (stem == [] || stem[|stem| - 1] !in WheelStripChars)
  {
    RStripIgnoresStrippable(stem, ".whl", WheelStripChars);
    RStripIdentity(stem, WheelStripChars);
  }

  /** A wheel for the `linux_armv7l` platform loses the final `l` of its
      platform tag: the archive is named after `linux_armv7`. */
  lemma ArmWheelTargetLosesLetter()
    ensures WheelTarget("dist/demo-1.0-py3-none-linux_armv7l.whl") == "dist/demo-1.0-py3-none-linux_armv7"
  {
    var stem := "dist/demo-1.0-py3-none-linux_armv7";
    assert "dist/demo-1.0-py3-none-linux_armv7l.whl" == stem + "l.whl";
    RStripIgnoresStrippable(stem, "l.whl", WheelStripChars);
    RStripIdentity(stem, WheelStripChars);
  }

  /** `bundler_factory(build_result, config)`: the configured files, then the
      wheel, then the source archive when the configuration asks for it. The
      configuration's own list is left as it was: a new list is built. */
  function BundlerFactory(buildResult: BuildResult, config: BundleConfig): (b: Bundler)
    ensures b.format == config.format && b.dirs == config.dirs
    ensures b.target <= buildResult.wheel
    ensures b.target == [] || b.target[|b.target| - 1] !in WheelStripChars
    ensures forall i :: |b.target| <= i < |buildResult.wheel| ==> buildResult.wheel[i] in WheelStripChars
    ensures |b.files| == |config.files| + (if config.includeSource then 2 else 1)
    ensures b.files[..|config.files|] == config.files
    ensures b.files[|config.files|] == buildResult.wheel
    ensures config.includeSource ==> b.files[|config.files| + 1] == buildResult.source
  {
    var files := config.files + [buildResult.wheel];
    var target := WheelTarget(buildResult.wheel);
    var files' := if config.includeSource then files + [buildResult.source] else files;
    Bundler(target, config.format, config.dirs, files')
  }

  /** The archive strategies, one per known format tag. */
  datatype Strategy = ZipArchive | NoArchive

  /** The tag that selects a strategy (`BundleFormat.ZIP` and `.NONE`). */
  function FormatTag(s: Strategy): string
  {
    match s
    case ZipArchive => "zip"
    case NoArchive => ""
  }

  /** The dispatch of `Bundler.bundle`: a known tag selects its strategy, any
      other tag is rejected. */
  function SelectStrategy(format: string): (r: Result<Strategy>)
    ensures r.Ok? ==> FormatTag(r.value) == format
    ensures r.Err? ==> r.error == InvalidFormat(format)
  {
    if format == "zip" then Ok(ZipArchive)
    else if format == "" then Ok(NoArchive)
    else Err(InvalidFormat(format))
  }

  /** Every strategy's tag selects that strategy; with the contract of
      `SelectStrategy`, tags and strategies correspond one to one. */
  lemma SelectStrategyOfTag(s: Strategy)
    ensures SelectStrategy(FormatTag(s)) == Ok(s)
  {
  }

  /** An archive being written: its file name and the paths written into it,
      in order. */
  class Archive {
    const name: string
    var entries: seq<string>

    /** Opening with mode `w` starts an empty archive. */
    constructor (name: string)
      ensures this.name == name && entries == []
    {
      this.name := name;
      entries := [];
    }

    /** `z.write(path)`: a path that does not exist raises and adds nothing. */
    method Write(path: string, fs: FileSystem) returns (err: Option<Error>)
      modifies this`entries
      ensures fs.Exists(path) ==> err == None && entries == old(entries) + [path]
      ensures !fs.Exists(path) ==> err == Some(ArchiveInputMissing(path)) && entries == old(entries)
    {
      if fs.Exists(path) {
        entries := entries + [path];
        err := None;
      } else {
        err := Some(ArchiveInputMissing(path));
      }
    }
  }

  /** The paths of one `os.walk` triple: its root joined with each file name. */
  function StepEntries(step: WalkStep): seq<string>
  {
    seq(|step.files|, i requires 0 <= i < |step.files| => Join(step.root, step.files[i]))
  }

  /** Every path written for a walk triple lies directly in that triple's
      directory: its head is the root again, for a root without a trailing
      separator and file names without one. */
  lemma StepEntriesUnderRoot(step: WalkStep, i: nat)
    requires i < |step.files|
    requires step.root != [] && step.root[|step.root| - 1] != '/'
    requires step.files[i] != [] && forall j :: 0 <= j < |step.files[i]| ==> step.files[i][j] != '/'
    ensures SplitHead(StepEntries(step)[i]) == step.root
  {
    SplitHeadOfJoin(step.root, step.files[i]);
  }

  /** The paths `zipdir` writes for the first `n` triples of a walk, triple
      after triple. */
  function WalkPrefix(steps: seq<WalkStep>, n: nat): seq<string>
    requires n <= |steps|
  {
    if n == 0 then [] else WalkPrefix(steps, n - 1) + StepEntries(steps[n - 1])
  }

  /** The paths `zipdir` writes for a whole walk. */
  function WalkEntries(steps: seq<WalkStep>): seq<string>
  {
    WalkPrefix(steps, |steps|)
  }

  /** The paths `build_zip` writes for its first `n` directories, directory
      after directory. */
  function DirPrefix(fs: FileSystem, dirs: seq<string>, n: nat): seq<string>
    requires n <= |dirs|
  {
    if n == 0 then [] else DirPrefix(fs, dirs, n - 1) + WalkEntries(fs.Walk(dirs[n - 1]))
  }

  /** The paths `build_zip` writes for all of its directories. */
  function DirEntries(fs: FileSystem, dirs: seq<string>): seq<string>
  {
    DirPrefix(fs, dirs, |dirs|)
  }

  /** Everything `build_zip` sets out to write: the walked directories, then
      the listed files. */
  function ZipPlan(fs: FileSystem, dirs: seq<string>, files: seq<string>): seq<string>
  {
    DirEntries(fs, dirs) + files
  }

  /** The position of the first path that does not exist, where writing
      stops with an error; the length of the plan when every path exists. */
  function FirstMissing(fs: FileSystem, plan: seq<string>): (k: nat)
    ensures k <= |plan|
    ensures forall i :: 0 <= i < k ==> fs.Exists(plan[i])
    ensures k < |plan| ==> !fs.Exists(plan[k])
  {
    if plan == [] then 0
    else if !fs.Exists(plan[0]) then 0
    else 1 + FirstMissing(fs, plan[1..])
  }

  /** The entries an archive holds once the plan has been carried out. */
  function Written(fs: FileSystem, plan: seq<string>): seq<string>
  {
    plan[..FirstMissing(fs, plan)]
  }

  /** Every path of a plan exists. */
  predicate AllExist(fs: FileSystem, plan: seq<string>)
  {
    forall i :: 0 <= i < |plan| ==> fs.Exists(plan[i])
  }

  /** Writing stops at the first missing path, wherever that is. */
  lemma {:induction false} StopsAt(fs: FileSystem, plan: seq<string>, m: nat)
    requires m <= |plan|
    requires forall i :: 0 <= i < m ==> fs.Exists(plan[i])
    requires m < |plan| ==> !fs.Exists(plan[m])
    ensures FirstMissing(fs, plan) == m
    decreases m
  {
    if m > 0 {
      assert forall i :: 0 <= i < m - 1 ==> plan[1..][i] == plan[i + 1];
      StopsAt(fs, plan[1..], m - 1);
    }
  }

  lemma {:induction false} FirstMissingConcat(fs: FileSystem, a: seq<string>, b: seq<string>)
    ensures FirstMissing(fs, a + b) ==
      if FirstMissing(fs, a) < |a| then FirstMissing(fs, a) else |a| + FirstMissing(fs, b)
    decreases |a|
  {
    if a == [] {
      assert a + b == b;
    } else {
      assert (a + b)[0] == a[0];
      assert (a + b)[1..] == a[1..] + b;
      if fs.Exists(a[0]) {
        FirstMissingConcat(fs, a[1..], b);
      }
    }
  }

  /** Writing a plan in two parts: the second part is only reached when the
      whole first part exists. */
  lemma WrittenConcat(fs: FileSystem, a: seq<string>, b: seq<string>)
    ensures FirstMissing(fs, a) < |a| ==>
      FirstMissing(fs, a + b) == FirstMissing(fs, a) && Written(fs, a + b) == Written(fs, a)
    ensures FirstMissing(fs, a) == |a| ==>
      FirstMissing(fs, a + b) == |a| + FirstMissing(fs, b) && Written(fs, a + b) == a + Written(fs, b)
  {
    FirstMissingConcat(fs, a, b);
    var m := FirstMissing(fs, a);
    if m < |a| {
      assert (a + b)[..m] == a[..m];
    } else {
      assert (a + b)[..|a| + FirstMissing(fs, b)] == a + b[..FirstMissing(fs, b)];
    }
  }

  /** A missing path inside one part of a plan stops the whole plan there,
      after the earlier parts, which all exist. */
  lemma StopInPart(fs: FileSystem, done: seq<string>, part: seq<string>, plan: seq<string>)
    requires done + part <= plan
    requires AllExist(fs, done) && FirstMissing(fs, part) < |part|
    ensures FirstMissing(fs, plan) == |done| + FirstMissing(fs, part)
    ensures Written(fs, plan) == done + Written(fs, part)
    ensures plan[FirstMissing(fs, plan)] == part[FirstMissing(fs, part)]
  {
    var m := FirstMissing(fs, part);
    var k := |done| + m;
    forall i | 0 <= i < k
      ensures fs.Exists(plan[i])
    {
      assert plan[i] == (done + part)[i];
      if i >= |done| {
        assert plan[i] == part[i - |done|];
      }
    }
    assert plan[k] == (done + part)[k] == part[m];
    StopsAt(fs, plan, k);
    assert plan[..k] == done + part[..m];
  }

  /** A part written in full extends what has been written. */
  lemma PartComplete(fs: FileSystem, done: seq<string>, part: seq<string>)
    requires AllExist(fs, done) && FirstMissing(fs, part) == |part|
    ensures AllExist(fs, done + part) && Written(fs, part) == part
  {
    assert part[..|part|] == part;
  }

  lemma {:induction false} WalkPrefixGrows(steps: seq<WalkStep>, m: nat, n: nat)
    requires m <= n <= |steps|
    ensures WalkPrefix(steps, m) <= WalkPrefix(steps, n)
    decreases n - m
  {
    if m < n {
      WalkPrefixGrows(steps, m, n - 1);
      assert WalkPrefix(steps, n - 1) <= WalkPrefix(steps, n);
    }
  }

  lemma {:induction false} DirPrefixGrows(fs: FileSystem, dirs: seq<string>, m: nat, n: nat)
    requires m <= n <= |dirs|
    ensures DirPrefix(fs, dirs, m) <= DirPrefix(fs, dirs, n)
    decreases n - m
  {
    if m < n {
      DirPrefixGrows(fs, dirs, m, n - 1);
      assert DirPrefix(fs, dirs, n - 1) <= DirPrefix(fs, dirs, n);
    }
  }

  /** Entry order: the files of the directory at position `i` come right
      after those of every earlier directory, and all of them come before
      those of later directories and before the listed files. */
  lemma DirectoryOrder(fs: FileSystem, dirs: seq<string>, files: seq<string>, i: nat)
    requires i < |dirs|
    ensures DirPrefix(fs, dirs, i) + WalkEntries(fs.Walk(dirs[i])) <= ZipPlan(fs, dirs, files)
  {
    DirPrefixGrows(fs, dirs, i + 1, |dirs|);
  }

  /** A missing path among the files of walk triple `i` stops the whole
      walk there. */
  lemma WalkStopsInStep(fs: FileSystem, steps: seq<WalkStep>, i: nat)
    requires i < |steps| && AllExist(fs, WalkPrefix(steps, i))
    requires FirstMissing(fs, StepEntries(steps[i])) < |StepEntries(steps[i])|
    ensures var w, s := WalkEntries(steps), StepEntries(steps[i]);
      FirstMissing(fs, w) == |WalkPrefix(steps, i)| + FirstMissing(fs, s) < |w|
      && Written(fs, w) == WalkPrefix(steps, i) + Written(fs, s)
      && w[FirstMissing(fs, w)] == s[FirstMissing(fs, s)]
  {
    WalkPrefixGrows(steps, i + 1, |steps|);
    StopInPart(fs, WalkPrefix(steps, i), StepEntries(steps[i]), WalkEntries(steps));
  }

  /** A missing path under directory `i` stops the whole plan there. */
  lemma PlanStopsInDir(fs: FileSystem, dirs: seq<string>, files: seq<string>, i: nat)
    requires i < |dirs| && AllExist(fs, DirPrefix(fs, dirs, i))
    requires FirstMissing(fs, WalkEntries(fs.Walk(dirs[i]))) < |WalkEntries(fs.Walk(dirs[i]))|
    ensures var plan, w := ZipPlan(fs, dirs, files), WalkEntries(fs.Walk(dirs[i]));
      FirstMissing(fs, plan) == |DirPrefix(fs, dirs, i)| + FirstMissing(fs, w) < |plan|
      && Written(fs, plan) == DirPrefix(fs, dirs, i) + Written(fs, w)
      && plan[FirstMissing(fs, plan)] == w[FirstMissing(fs, w)]
  {
    DirectoryOrder(fs, dirs, files, i);
    StopInPart(fs, DirPrefix(fs, dirs, i), WalkEntries(fs.Walk(dirs[i])), ZipPlan(fs, dirs, files));
  }

  /** The whole archive a configuration and a build produce: the walked
      directories in configured order, the configured files in order, the
      wheel, and the source archive last when it is included. */
  lemma BundleContents(fs: FileSystem, buildResult: BuildResult, config: BundleConfig)
    ensures var b := BundlerFactory(buildResult, config);
      ZipPlan(fs, b.dirs, b.files) ==
        DirEntries(fs, config.dirs) + config.files + [buildResult.wheel]
          + (if config.includeSource then [buildResult.source] else [])
  {
    var b := BundlerFactory(buildResult, config);
    var tail := if config.includeSource then [buildResult.source] else [];
    assert b.files == config.files + [buildResult.wheel] + tail;
  }

  /** Writes each path in turn, stopping at the first that does not exist:
      the loop of `build_zip` over its files, and the inner loop of `zipdir`
      over the files of one walk triple. */
  method WriteEach(z: Archive, paths: seq<string>, fs: FileSystem) returns (err: Option<Error>)
    modifies z`entries
    ensures z.entries == old(z.entries) + Written(fs, paths)
    ensures err.None? <==> FirstMissing(fs, paths) == |paths|
    ensures err.Some? ==> err == Some(ArchiveInputMissing(paths[FirstMissing(fs, paths)]))
  {
    err := None;
    for j := 0 to |paths|
      invariant z.entries == old(z.entries) + paths[..j]
      invariant AllExist(fs, paths[..j]) && err == None
    {
      err := z.Write(paths[j], fs);
      if err.Some? {
        StopsAt(fs, paths, j);
        return;
      }
      assert paths[..j + 1] == paths[..j] + [paths[j]];
    }
    assert paths[..|paths|] == paths;
    StopsAt(fs, paths, |paths|);
  }

  /** The entries before a walk triple, its prefix and its own paths group
      either way; stated apart so that the loop of `ZipDir` stays small. */
  lemma ConcatAssoc(a: seq<string>, b: seq<string>, c: seq<string>)
    ensures a + b + c == a + (b + c)
  {
  }

  /** `Bundler.zipdir(z, path)`: every file `os.walk(path)` reports, joined
      with the directory it was found in, in walk order. */
  method ZipDir(z: Archive, path: string, fs: FileSystem) returns (err: Option<Error>)
    modifies z`entries
    ensures var w := WalkEntries(fs.Walk(path));
      z.entries == old(z.entries) + Written(fs, w)
      && (err.None? <==> FirstMissing(fs, w) == |w|)
      && (err.Some? ==> err == Some(ArchiveInputMissing(w[FirstMissing(fs, w)])))
  {
    var steps := fs.Walk(path);
    err := None;
    for i := 0 to |steps|
      invariant z.entries == old(z.entries) + WalkPrefix(steps, i)
      invariant AllExist(fs, WalkPrefix(steps, i)) && err == None
    {
      err := WriteEach(z, StepEntries(steps[i]), fs);
      ConcatAssoc(old(z.entries), WalkPrefix(steps, i), Written(fs, StepEntries(steps[i])));
      if err.Some? {
        WalkStopsInStep(fs, steps, i);
        return;
      }
      PartComplete(fs, WalkPrefix(steps, i), StepEntries(steps[i]));
    }
    StopsAt(fs, WalkEntries(steps), |WalkEntries(steps)|);
    PartComplete(fs, [], WalkEntries(steps));
  }

  /** `Bundler.build_zip(target, dirs, files)`: an archive named after the
      target holding every walked directory's files, then the listed files.
      Writing stops at the first path that does not exist; the archive keeps
      what was written before it. */
  method BuildZip(target: string, dirs: seq<string>, files: seq<string>, fs: FileSystem)
    returns (z: Archive, err: Option<Error>)
    ensures fresh(z) && z.name == target + ".zip"
    ensures var plan := ZipPlan(fs, dirs, files);
      z.entries == Written(fs, plan)
      && (err.None? <==> FirstMissing(fs, plan) == |plan|)
      && (err.Some? ==> err == Some(ArchiveInputMissing(plan[FirstMissing(fs, plan)])))
  {
    z := new Archive(target + ".zip");
    err := None;
    for i := 0 to |dirs|
      invariant z.entries == DirPrefix(fs, dirs, i)
      invariant AllExist(fs, z.entries) && err == None
    {
      err := ZipDir(z, dirs[i], fs);
      if err.Some? {
        PlanStopsInDir(fs, dirs, files, i);
        return;
      }
      PartComplete(fs, DirPrefix(fs, dirs, i), WalkEntries(fs.Walk(dirs[i])));
    }
    ghost var done := z.entries;
    err := WriteEach(z, files, fs);
    StopsAt(fs, done, |done|);
    WrittenConcat(fs, done, files);
  }

  /** `Bundler.bundle()`: a zip archive named after the target, nothing at
      all for the empty format, and an error for any other format. */
  method Bundle(b: Bundler, fs: FileSystem) returns (archive: Option<Archive>, err: Option<Error>)
    ensures b.format == "zip" ==>
      archive.Some? && fresh(archive.value) && archive.value.name == b.target + ".zip"
      && archive.value.entries == Written(fs, ZipPlan(fs, b.dirs, b.files))
      && (err.None? <==> FirstMissing(fs, ZipPlan(fs, b.dirs, b.files)) == |ZipPlan(fs, b.dirs, b.files)|)
      && (err.Some? ==> err == Some(ArchiveInputMissing(
            ZipPlan(fs, b.dirs, b.files)[FirstMissing(fs, ZipPlan(fs, b.dirs, b.files))])))
    ensures b.format == "" ==> archive == None && err == None
    ensures b.format != "zip" && b.format != "" ==> archive == None && err == Some(InvalidFormat(b.format))
  {
    match SelectStrategy(b.format)
    case Ok(ZipArchive) =>
      var z;
      z, err := BuildZip(b.target, b.dirs, b.files, fs);
      archive := Some(z);
    case Ok(NoArchive) =>
      archive, err := None, None;
    case Err(e) =>
      archive, err := None, Some(e);
  }
}
