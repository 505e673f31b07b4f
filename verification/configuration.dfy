/** Configuration resolution: `find_build_ini` picks the configuration file
    from the command-line arguments and `load_config` turns its sections into
    a `Config`, applying a fallback to every option. The INI syntax itself is
    not modelled: a file's content is the map from (section, option) to the
    raw value that the INI reader produces for it. */
module Configuration {
  import opened Outcomes
  import opened Strings
  import opened Paths
  import opened Files
  import opened Records

  type Ini = map<(string, string), string>

  /** `config.get(section, option, fallback=...)`. */
  function Get(ini: Ini, section: string, option: string, fallback: string): (r: string)
    ensures (section, option) in ini ==> r == ini[(section, option)]
    ensures (section, option) !in ini ==> r == fallback
  {
    if (section, option) in ini then ini[(section, option)] else fallback
  }

  /** The spellings the INI reader accepts as booleans, after lower-casing. */
  const BooleanStates: map<string, bool> :=
    map["1" := true, "yes" := true, "true" := true, "on" := true,
        "0" := false, "no" := false, "false" := false, "off" := false]

  /** `config.getboolean(section, option, fallback=...)`. */
  function GetBoolean(ini: Ini, section: string, option: string, fallback: bool): (r: Result<bool>)
    ensures (section, option) !in ini ==> r == Ok(fallback)
    ensures (section, option) in ini ==>
      (r == Ok(true) <==> Lower(ini[(section, option)]) in {"1", "yes", "true", "on"})
    ensures (section, option) in ini ==>
      (r == Ok(false) <==> Lower(ini[(section, option)]) in {"0", "no", "false", "off"})
    ensures r.Err? ==> r.error == NotABoolean(ini[(section, option)])
  {
    if (section, option) !in ini then Ok(fallback)
    else
      var v := Lower(ini[(section, option)]);
      if v in BooleanStates then Ok(BooleanStates[v]) else Err(NotABoolean(ini[(section, option)]))
  }

  /** The list comprehension that drops empty lines, keeping the order. */
  function NonEmptyLines(lines: seq<string>): (r: seq<string>)
    ensures forall i :: 0 <= i < |r| ==> r[i] != [] && r[i] in lines
    ensures forall l :: l in lines && l != [] ==> l in r
  {
    if lines == [] then []
    else if lines[0] == [] then NonEmptyLines(lines[1..])
    else [lines[0]] + NonEmptyLines(lines[1..])
  }

  lemma {:induction false} NonEmptyLinesConcat(a: seq<string>, b: seq<string>)
    ensures NonEmptyLines(a + b) == NonEmptyLines(a) + NonEmptyLines(b)
  {
    if a == [] {
      assert a + b == b;
    } else {
      assert (a + b)[1..] == a[1..] + b;
      NonEmptyLinesConcat(a[1..], b);
    }
  }

  /** The `dirs` and `files` options: one entry per line of the value, in
      order, with empty lines dropped. */
  function ParseList(value: string): (r: seq<string>)
    ensures forall i :: 0 <= i < |r| ==> r[i] != [] && NoLineBreak(r[i])
  {
    NonEmptyLines(SplitLines(value))
  }

  /** Splitting a value at a newline splits its list at the same place; so
      the entries keep the order of the lines they come from. */
  lemma ParseListConcat(a: string, b: string)
    ensures ParseList(a + "\n" + b) == ParseList(a) + ParseList(b)
  {
    SplitAtNewline(a, b, []);
  }

  lemma {:induction false} SplitAtNewline(a: string, b: string, cur: string)
    requires NoLineBreak(cur)
    ensures NonEmptyLines(SplitLinesFrom(a + "\n" + b, cur))
         == NonEmptyLines(SplitLinesFrom(a, cur)) + NonEmptyLines(SplitLinesFrom(b, []))
    decreases |a|, 1
  {
    var s := a + "\n" + b;
    if a == [] {
      assert s[0] == '\n' && s[1..] == b;
      assert SplitLinesFrom(s, cur) == [cur] + SplitLinesFrom(b, []);
      NonEmptyLinesConcat([cur], SplitLinesFrom(b, []));
      assert NonEmptyLines(SplitLinesFrom(a, cur)) == NonEmptyLines([cur]);
    } else if !IsLineBreak(a[0]) {
      assert s[0] == a[0] && s[1..] == a[1..] + "\n" + b;
      assert SplitLinesFrom(s, cur) == SplitLinesFrom(s[1..], cur + [a[0]]);
      SplitAtNewline(a[1..], b, cur + [a[0]]);
    } else {
      SplitAtNewlineAfterBreak(a, b, cur);
    }
  }

  /** The length of the line boundary at the start of `s`: `\r\n` counts as
      one boundary of two characters. */
  function BreakLength(s: string): nat
    requires s != []
  {
    if s[0] == '\r' && |s| >= 2 && s[1] == '\n' then 2 else 1
  }

  /** At a line boundary the current line ends and the rest is split afresh. */
  lemma BreakStep(s: string, cur: string)
    requires NoLineBreak(cur) && s != [] && IsLineBreak(s[0])
    ensures BreakLength(s) <= |s|
    ensures SplitLinesFrom(s, cur) == [cur] + SplitLinesFrom(s[BreakLength(s)..], [])
  {
  }

  /** The case of `SplitAtNewline` where the value starts with a line break:
      the current line ends there and the rest is split afresh. */
  lemma {:induction false} SplitAtNewlineAfterBreak(a: string, b: string, cur: string)
    requires NoLineBreak(cur) && a != [] && IsLineBreak(a[0])
    ensures NonEmptyLines(SplitLinesFrom(a + "\n" + b, cur))
         == NonEmptyLines(SplitLinesFrom(a, cur)) + NonEmptyLines(SplitLinesFrom(b, []))
    decreases |a|, 0
  {
    if a == ['\r'] {
      LoneCarriageReturn(b, cur);
    } else {
      var s := a + "\n" + b;
      assert s[0] == a[0];
      assert |a| >= 2 ==> s[1] == a[1];
      assert BreakLength(s) == BreakLength(a);
      var rest := a[BreakLength(a)..];
      assert s[BreakLength(a)..] == rest + "\n" + b;
      BreakStep(s, cur);
      BreakStep(a, cur);
      var head := NonEmptyLines([cur]);
      var middle := NonEmptyLines(SplitLinesFrom(rest, []));
      var tail := NonEmptyLines(SplitLinesFrom(b, []));
      calc {
        NonEmptyLines(SplitLinesFrom(s, cur));
        NonEmptyLines([cur] + SplitLinesFrom(rest + "\n" + b, []));
        { NonEmptyLinesConcat([cur], SplitLinesFrom(rest + "\n" + b, [])); }
        head + NonEmptyLines(SplitLinesFrom(rest + "\n" + b, []));
        { SplitAtNewline(rest, b, []); }
        head + (middle + tail);
        (head + middle) + tail;
        { NonEmptyLinesConcat([cur], SplitLinesFrom(rest, [])); }
        NonEmptyLines([cur] + SplitLinesFrom(rest, [])) + tail;
        NonEmptyLines(SplitLinesFrom(a, cur)) + tail;
      }
    }
  }

  /** A value ending in a lone `\r`, followed by the newline that joins it to
      the next value, ends one line there, not two. */
  lemma LoneCarriageReturn(b: string, cur: string)
    requires NoLineBreak(cur)
    ensures NonEmptyLines(SplitLinesFrom(['\r'] + "\n" + b, cur))
         == NonEmptyLines(SplitLinesFrom(['\r'], cur)) + NonEmptyLines(SplitLinesFrom(b, []))
  {
    var s := ['\r'] + "\n" + b;
    assert s[0] == '\r' && s[1] == '\n' && s[2..] == b;
    BreakStep(s, cur);
    BreakStep(['\r'], cur);
    NonEmptyLinesConcat([cur], SplitLinesFrom(b, []));
  }

  /** The value a list option holds when its entries are written one per line. */
  function JoinLines(lines: seq<string>): string
  {
    if |lines| == 0 then ""
    else if |lines| == 1 then lines[0]
    else lines[0] + "\n" + JoinLines(lines[1..])
  }

  /** Writing a list one entry per line and parsing it back gives the list. */
  lemma {:induction false} ParseListJoinLines(lines: seq<string>)
    requires forall i :: 0 <= i < |lines| ==> lines[i] != [] && NoLineBreak(lines[i])
    ensures ParseList(JoinLines(lines)) == lines
  {
    if |lines| == 0 {
    } else if |lines| == 1 {
      SplitOneLine(lines[0], []);
      assert [] + lines[0] == lines[0];
      assert SplitLines(lines[0]) == [lines[0]];
      assert [lines[0]][1..] == [];
      assert NonEmptyLines([lines[0]]) == [lines[0]] + NonEmptyLines([]);
    } else {
      SplitOneLine(lines[0], []);
      assert [] + lines[0] == lines[0];
      ParseListConcat(lines[0], JoinLines(lines[1..]));
      ParseListJoinLines(lines[1..]);
      assert lines == [lines[0]] + lines[1..];
    }
  }

  /** `find_build_ini(args)`: the configuration file chosen by the number of
      command-line arguments. */
  function FindBuildIni(fs: FileSystem, args: seq<string>): (r: Result<string>)
    ensures r.Ok? ==> fs.IsFile(r.value)
    ensures |args| == 0 ==> r == FindFile(fs, ".", "build.ini")
    ensures |args| == 1 ==> (r.Ok? <==> fs.IsFile(args[0]))
    ensures |args| == 1 && r.Ok? ==> r.value == args[0]
    ensures |args| == 1 && r.Err? ==> r.error == FileNotFound(args[0])
    ensures |args| >= 2 ==> r == Err(TooManyArguments(args))
  {
    if |args| == 0 then FindFile(fs, ".", "build.ini")
    else if |args| == 1 then
      (if fs.IsFile(args[0]) then Ok(args[0]) else Err(FileNotFound(args[0])))
    else Err(TooManyArguments(args))
  }

  /** The content the INI reader gives for a path; an unreadable file is
      silently skipped and gives no options at all. */
  function ReadIni(inis: map<string, Ini>, path: string): (ini: Ini)
    ensures path in inis ==> ini == inis[path]
    ensures path !in inis ==> ini == map[]
  {
    if path in inis then inis[path] else map[]
  }

  /** `load_config(args)`, for a process whose working directory is `cwd`
      and whose readable INI files have the contents `inis`. */
  function LoadConfig(fs: FileSystem, inis: map<string, Ini>, cwd: string, args: seq<string>): (r: Result<Config>)
    ensures FindBuildIni(fs, args).Err? ==> r == Err(FindBuildIni(fs, args).error)
    ensures r.Err? && FindBuildIni(fs, args).Ok? ==>
      var ini := ReadIni(inis, FindBuildIni(fs, args).value);
      ("bundle", "include_source") in ini && r.error == NotABoolean(ini[("bundle", "include_source")])
    ensures r.Err? <==>
      FindBuildIni(fs, args).Err? ||
      GetBoolean(ReadIni(inis, FindBuildIni(fs, args).value), "bundle", "include_source", false).Err?
    ensures r.Ok? ==> FindBuildIni(fs, args).Ok?
    ensures r.Ok? ==>
      var buildIni := FindBuildIni(fs, args).value;
      var ini := ReadIni(inis, buildIni);
      r.value.repoRoot == Abspath(cwd, Join(SplitHead(buildIni), Get(ini, "repo", "root", ".")))
      && r.value.build.distDir == Get(ini, "build", "dist_dir", "dist/")
      && r.value.build.setupPy == Join(r.value.repoRoot, Get(ini, "build", "setup_py", "setup.py"))
      && r.value.bundle.format == Lower(Get(ini, "bundle", "format", "zip"))
      && r.value.bundle.includeSource == GetBoolean(ini, "bundle", "include_source", false).value
      && r.value.bundle.dirs == ParseList(Get(ini, "bundle", "dirs", ""))
      && r.value.bundle.files == ParseList(Get(ini, "bundle", "files", ""))
    ensures r.Ok? ==> forall i :: 0 <= i < |r.value.bundle.format| ==> !IsUpper(r.value.bundle.format[i])
    ensures r.Ok? ==> forall i :: 0 <= i < |r.value.bundle.dirs| ==> r.value.bundle.dirs[i] != []
    ensures r.Ok? ==> forall i :: 0 <= i < |r.value.bundle.files| ==> r.value.bundle.files[i] != []
  {
    var buildIni :- FindBuildIni(fs, args);
    var ini := ReadIni(inis, buildIni);
    var repoRoot := Abspath(cwd, Join(SplitHead(buildIni), Get(ini, "repo", "root", ".")));
    var includeSource :- GetBoolean(ini, "bundle", "include_source", false);
    Ok(Config(
      repoRoot,
      BuildConfig(
        Get(ini, "build", "dist_dir", "dist/"),
        Join(repoRoot, Get(ini, "build", "setup_py", "setup.py"))),
      BundleConfig(
        Lower(Get(ini, "bundle", "format", "zip")),
        includeSource,
        ParseList(Get(ini, "bundle", "dirs", "")),
        ParseList(Get(ini, "bundle", "files", "")))))
  }

  /** A configuration file that sets none of the bundle and build options
      gives the documented defaults: a zip bundle without the source archive,
      no extra directories or files, artifacts under `dist/`, and `setup.py`
      in the repository root. */
  lemma DefaultsWhenUnset(fs: FileSystem, inis: map<string, Ini>, cwd: string, args: seq<string>)
    requires FindBuildIni(fs, args).Ok?
    requires forall option :: ("bundle", option) !in ReadIni(inis, FindBuildIni(fs, args).value)
    requires forall option :: ("build", option) !in ReadIni(inis, FindBuildIni(fs, args).value)
    ensures LoadConfig(fs, inis, cwd, args).Ok?
    ensures LoadConfig(fs, inis, cwd, args).value.bundle == BundleConfig("zip", false, [], [])
    ensures LoadConfig(fs, inis, cwd, args).value.build.distDir == "dist/"
    ensures LoadConfig(fs, inis, cwd, args).value.build.setupPy
         == Join(LoadConfig(fs, inis, cwd, args).value.repoRoot, "setup.py")
  {
    var ini := ReadIni(inis, FindBuildIni(fs, args).value);
    assert ("bundle", "format") !in ini && ("bundle", "dirs") !in ini && ("bundle", "files") !in ini;
    assert ("bundle", "include_source") !in ini;
    assert ("build", "dist_dir") !in ini && ("build", "setup_py") !in ini;
    assert Lower("zip") == "zip";
    assert SplitLines("") == [];
  }

  /** An empty value, and so a missing list option, gives an empty list. */
  lemma ParseListEmpty()
    ensures ParseList("") == []
  {
  }

  /** Each list option falls back on its own: a missing `dirs` or `files`
      option gives an empty list whatever else the file sets. */
  lemma MissingListOptionIsEmpty(fs: FileSystem, inis: map<string, Ini>, cwd: string, args: seq<string>)
    requires LoadConfig(fs, inis, cwd, args).Ok?
    ensures var ini := ReadIni(inis, FindBuildIni(fs, args).value);
      (("bundle", "dirs") !in ini ==> LoadConfig(fs, inis, cwd, args).value.bundle.dirs == [])
      && (("bundle", "files") !in ini ==> LoadConfig(fs, inis, cwd, args).value.bundle.files == [])
  {
    ParseListEmpty();
  }

  /** The format option is compared case-insensitively: every spelling of
      `zip` in any mix of cases resolves to `zip`. */
  lemma FormatIsCaseInsensitive(fs: FileSystem, inis: map<string, Ini>, cwd: string, args: seq<string>)
    requires LoadConfig(fs, inis, cwd, args).Ok?
    ensures var ini := ReadIni(inis, FindBuildIni(fs, args).value);
      LoadConfig(fs, inis, cwd, args).value.bundle.format == "zip" <==>
        (("bundle", "format") !in ini ||
         var f := ini[("bundle", "format")];
         |f| == 3 && f[0] in {'z', 'Z'} && f[1] in {'i', 'I'} && f[2] in {'p', 'P'})
  {
    var ini := ReadIni(inis, FindBuildIni(fs, args).value);
    var f := Get(ini, "bundle", "format", "zip");
    assert LoadConfig(fs, inis, cwd, args).value.bundle.format == Lower(f);
    LowerIsZipIff(f);
    if ("bundle", "format") !in ini {
      assert f == "zip";
    } else {
      assert f == ini[("bundle", "format")];
    }
  }
}
