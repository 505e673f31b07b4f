# dist_builder, modelled in Dafny

`dist_builder.py` builds a Python project's source distribution and wheel,
then bundles the wheel, optionally the source archive, and further
configured directories and files into one zip archive. This project models
the decision layer of that script:

- how the configuration file is chosen and read (`find_build_ini`,
  `load_config`);
- how the distribution name is read statically from `setup.py`
  (`SetupPyParser`);
- how the builder changes into the directory of `setup.py` and back
  (`temporarily_cd_to`, `Builder.build`);
- how it finds the artifacts by file-name pattern (`_find_dist`,
  `find_file`);
- how the bundler composes and writes the archive (`bundler_factory`,
  `Bundler.bundle`, `build_zip`, `zipdir`).

Modules, one per concern of the script:

| module | file | what it holds |
|---|---|---|
| `Outcomes` | outcomes.dfy | `Option`, `Result` and the error cases. Each error names the Python exception the script raises. |
| `Strings` | strings.dfy | `rstrip` with a character set, ASCII `lower`, `replace` of one character, `splitlines` |
| `Paths` | paths.dfy | POSIX `os.path.join`, the head of `os.path.split`/`dirname`, `abspath` |
| `Pattern` | pattern.dfy | The part of `re.match` the patterns use: `.`, `.*` and literal characters. Matching is anchored at the start only. |
| `Files` | files.dfy | A file-system snapshot (regular files, directory listings, walks) and `find_file` |
| `Records` | records.dfy | The four named tuples `Config`, `BuildConfig`, `BundleConfig`, `BuildResult` |
| `Configuration` | configuration.dfy | `find_build_ini`, `load_config`, `getboolean`, the list options |
| `SetupPy` | setup_py.dfy | The statement/call/keyword syntax tree and the setup-call scan |
| `Scope` | scope.dfy | `Process`, a class whose `cwd` field the scoped directory change updates and restores |
| `Building` | building.dfy | `Builder`, the escaped wheel name, `_find_dist`, `Builder.build` |
| `Bundling` | bundling.dfy | `bundler_factory` and the format dispatch. `Archive` is a class whose entry sequence `build_zip`/`zipdir` append to. |

The pure parts of the script are functions and lemmas. The parts that change
state step by step are methods over classes:

- `Scope.Process` holds the working directory.
- `Bundling.Archive` holds the entries written so far.
- The loops of `build_zip` and `zipdir` are loops.

Where the code does something other than its own comments or its calls
suggest, the model follows what the code does:

- `find_file` carries the comment `# todo recursive, handle multiple`
  (line 143). It returns the first matching regular file in listing order,
  with no check that the match is unique.
- The target name is `wheel.rstrip('.whl')`, which reads as removing the
  `.whl` suffix. It strips a trailing character set instead.
- A top-level call whose callee is not a plain name (`os.chdir(here)`,
  `setuptools.setup(...)`) makes `_locate_setup_call` fail with an
  `AttributeError` when it comes before the `setup` call.
- A missing `setup` call surfaces as an `AttributeError` on `None.keywords`.
- A missing `name` keyword raises `KeyError`.
- A listed directory that does not exist and a directory without a matching
  file both raise `OSError` (`FileNotFoundError` is a subclass of it). The
  model keeps them apart as `DirectoryNotFound` and `NoMatchingFile`.

## Model

| member | source | states |
|---|---|---|
| Configuration.FindBuildIni | dist_builder.py:49-57 | No arguments: the result of looking for `build.ini` in `.`. One argument: that argument exactly when it is an existing regular file, otherwise a file-not-found error naming it. Two or more: always the too-many-arguments error. Any success is a regular file. |
| Configuration.GetBoolean | dist_builder.py:42 | A missing option gives the fallback. A present value gives true exactly for `1`/`yes`/`true`/`on` and false exactly for `0`/`no`/`false`/`off`, in any letter case. Any other value is an error naming it. |
| Configuration.NonEmptyLines | dist_builder.py:43-44 | The filtered list holds only non-empty lines, all taken from the input, and keeps every non-empty input line. |
| Configuration.ParseList | dist_builder.py:43-44 | Every entry of a `dirs`/`files` list is non-empty and contains no line break. |
| Configuration.ParseListConcat | dist_builder.py:43-44 | Parsing two values joined by a newline gives the first value's entries followed by the second's, so entries keep the order of their lines. |
| Configuration.ParseListJoinLines | dist_builder.py:43-44 | Writing non-empty, break-free entries one per line and parsing the value gives back exactly those entries in order. |
| Configuration.Get | dist_builder.py:32-44 | A set option gives its raw value. A missing one gives the fallback. |
| Configuration.ReadIni | dist_builder.py:30-31 | A readable file gives its options. An unreadable one gives no options at all. |
| Configuration.LoadConfig | dist_builder.py:25-46 | A failure to find the configuration file is passed on unchanged. The result is an error exactly when the file is not found or `include_source` is not a boolean. On success each field is its own option or that option's fallback: the repository root is `root` (default `.`) joined onto the file's directory and made absolute; the distribution directory is `dist_dir` (default `dist/`); `setup.py` is `setup_py` (default `setup.py`) joined onto the root; the format is `format` (default `zip`) lower-cased; `include_source` is read as a boolean (default false); `dirs` and `files` are their values parsed as lists (default empty). The format has no upper-case letter and no list entry is empty. |
| Configuration.ParseListEmpty | dist_builder.py:43-44 | The empty fallback parses to an empty list. |
| Configuration.MissingListOptionIsEmpty | dist_builder.py:43-44 | A missing `dirs` or `files` option gives an empty list, whatever the other options say. |
| Configuration.DefaultsWhenUnset | dist_builder.py:34-45 | With no `[build]` or `[bundle]` option set, loading succeeds with format `zip`, no source, empty `dirs` and `files`, `dist/` as the distribution directory and `setup.py` inside the repository root. |
| Configuration.FormatIsCaseInsensitive | dist_builder.py:41 | The resolved format is `zip` exactly when the option is missing or is `zip` in any mix of letter cases. |
| Strings.RStrip | dist_builder.py:62 | `rstrip` returns a prefix that does not end in a stripped character. Everything it removed is in the character set. |
| Strings.RStripIgnoresStrippable | dist_builder.py:62 | Appending only stripped characters does not change the result of `rstrip`. |
| Strings.Lower | dist_builder.py:41 | Lower-casing keeps the length, turns each upper-case letter into its lower-case partner, leaves no upper-case letter and changes no other character. |
| Strings.LowerIsZipIff | dist_builder.py:41 | A string lower-cases to `zip` exactly when it is three letters z, i, p in any case. |
| Strings.Replace | dist_builder.py:86 | Replacing one character keeps the length, turns every occurrence of it into the replacement, and leaves every other character as it was. |
| Strings.SplitLinesFrom | dist_builder.py:43-44 | No line produced by `splitlines` contains any of Python's line boundaries. |
| Strings.SplitLines | dist_builder.py:43-44 | No line holds a boundary. An empty value has no lines, and a value without a boundary is its own single line. |
| Paths.Join | dist_builder.py:145 | The joined path ends with the second part. An absolute second part replaces the first. Otherwise the first part is a prefix of the result. |
| Paths.SplitHead | dist_builder.py:87 | The head of a split is a prefix of the path, and it is empty for a path without a separator. |
| Paths.SplitHeadOfJoin | dist_builder.py:38 | The directory of `join(d, name)` is `d` again when `d` has no trailing separator and `name` none at all: splitting `setup_py` (line 87) gives back the root it was joined onto here. |
| Paths.Abspath | dist_builder.py:32-33 | An absolute path is its own absolute path. |
| Pattern.Matches | dist_builder.py:146 | `re.match` over `.`, `.*` and literal characters, anchored at the start. A pattern without `*` only matches strings at least as long as itself. |
| Pattern.MatchesExtends | dist_builder.py:146 | `re.match` is anchored at the start only: anything may follow a matching prefix. |
| Pattern.LiteralPrefixOfMatch | dist_builder.py:146 | A pattern starting with literal text only matches names starting with that text. |
| Files.FirstHit | dist_builder.py:144-147 | The loop of `find_file` stops at the first entry that matches and is a regular file. Every entry before it fails one of the two tests. |
| Files.FindFile | dist_builder.py:142-148 | A missing directory is an error. A success is the joined path of the first entry that matches and is a regular file, after entries that all fail. The result is an error naming the pattern exactly when no entry passes. |
| Files.FoundEntry | dist_builder.py:144-147 | What `find_file` returns is the directory joined with a listed entry that matches the pattern. |
| Files.FindFileTakesEarliest | dist_builder.py:144-147 | Among several passing entries the first in listing order is returned, whatever follows it. |
| SetupPy.LocateSetupCall | dist_builder.py:171-178 | Over the whole module: nothing found exactly when every top-level statement is skipped; otherwise the first `setup(...)` expression statement after skipped statements only, or the attribute error at the first call whose callee is not a plain name. |
| SetupPy.LocateFrom | dist_builder.py:172-178 | The scan finds nothing exactly when every top-level statement is skipped. Otherwise it returns the first top-level `setup(...)` expression statement, after skipped statements only, or fails at the first call with a callee that is not a plain name. |
| SetupPy.NameFrom | dist_builder.py:181-185 | The name is the literal of the first keyword called `name`. A missing `name` keyword is the `KeyError` case. A non-literal first `name` keyword is the attribute-error case. These are the only errors. |
| SetupPy.NameFromSetupCall | dist_builder.py:181-182 | An absent setup call fails on reading its keywords. |
| SetupPy.GetDistName | dist_builder.py:167-169 | A name is only read from a top-level `setup` call, reached past skipped statements, that has a `name` keyword with that literal. |
| SetupPy.LocateReaches | dist_builder.py:175-178 | The scan reaches the first `setup` call across any skipped statements before it. |
| SetupPy.NameReaches | dist_builder.py:182-184 | The keyword loop reaches the first `name` keyword across any others before it. |
| SetupPy.NameOfFirstSetupCall | dist_builder.py:167-185 | A module whose first relevant statement is `setup(..., name="pkg", ...)` yields exactly `pkg`, whatever follows. |
| SetupPy.NoSetupCallFails | dist_builder.py:167-182 | A module without a top-level `setup` call, and without an attribute call, fails on the absent call. |
| SetupPy.AttributeCallBeforeSetupRaises | dist_builder.py:175-177 | A top-level call through an attribute placed before `setup(name="demo")` stops the scan with an error. |
| Scope.Process.Chdir | dist_builder.py:154 | Changing into a known directory succeeds and sets `cwd`. An unknown one fails and leaves `cwd` unchanged. |
| Scope.Process.EnterScope | dist_builder.py:153-154 | On entry the old directory is recorded and the new one entered. On failure nothing is recorded and `cwd` is unchanged. |
| Scope.Process.ExitScope | dist_builder.py:157-158 | On exit the most recently recorded directory is entered again and dropped from the record. |
| Scope.Process.TemporarilyCdTo | dist_builder.py:151-158 | Whatever the block does (finishes, changes directory, raises), `cwd` and the record end as they began. The block's own error is passed on when its directory changes succeed. Otherwise the error is the first failing change. |
| Building.NewBuilder | dist_builder.py:80-83 | The builder keeps the configured distribution directory and `setup.py`, and holds the name read from `setup.py`. It fails exactly when the name cannot be read, with that error. |
| Building.UnderscoreName | dist_builder.py:86 | The escaped name has the same length, every `-` becomes `_` and every other character stays; so no hyphen remains. |
| Building.UnderscoreNameKeepsIff | dist_builder.py:86 | The escaped name equals the declared one exactly when the declared one has no hyphen. |
| Building.ArtifactPattern | dist_builder.py:107 | The pattern is the name, `-`, `.*`, then the extension. |
| Building.FindDist | dist_builder.py:106-107 | A missing distribution directory is an error naming it. A success is a regular file joined from a listed entry that matches the artifact pattern. A failure in an existing directory names the pattern. The result is exactly `find_file`'s, so the first listed match wins and an existing directory holding a matching regular file succeeds. |
| Building.LocateArtifacts | dist_builder.py:93-95 | The wheel is what `find_file` returns for the underscore name with `.whl`, and the source what it returns for the declared name with `.tar.gz`, so each is the first listed match. Both artifacts are regular files listed in the distribution directory. The wheel's name matches the underscore name followed by `-`, anything, `.whl`. The source's name matches the declared name followed by `-`, anything, `.tar.gz`. The wheel lookup's error wins over the source's. |
| Building.LocateArtifactsTakesEarliest | dist_builder.py:93-95 | With several candidates listed, each artifact is the first listed regular file matching its own pattern. |
| Building.ArtifactNameMatches | dist_builder.py:106-107 | Every file named name, `-`, a newline-free middle and the extension matches the artifact pattern, whatever follows. |
| Building.ArtifactMatchStartsWithName | dist_builder.py:106-107 | For a name without `.` or `*`, only entries beginning with the name and `-` match. |
| Building.Build | dist_builder.py:85-96 | The working directory is always restored. A directory change that fails, or a failed build run, is an error. Otherwise the result is the artifact lookup in the resulting file system. |
| Bundling.WheelTarget | dist_builder.py:62 | The target is a prefix of the wheel path that does not end in `.`, `w`, `h` or `l`. Only such characters were removed. |
| Bundling.WheelTargetIsStemIff | dist_builder.py:62 | Stripping `stem.whl` gives `stem` exactly when the stem does not end in `.`, `w`, `h` or `l`. |
| Bundling.ArmWheelTargetLosesLetter | dist_builder.py:62 | A `linux_armv7l` wheel's target loses the final `l` of its platform tag. |
| Bundling.BundlerFactory | dist_builder.py:60-65 | The files are the configured files, then the wheel, then the source archive when `include_source` is true. The length is one or two more than configured. The format and directories are passed through, and the target is the stripped wheel path. |
| Bundling.SelectStrategy | dist_builder.py:118-125 | A selected strategy's tag equals the format. An unknown format is an invalid-format error naming it. |
| Bundling.SelectStrategyOfTag | dist_builder.py:74-76 | Each strategy's tag selects that strategy, so tags and strategies correspond one to one. |
| Bundling.Archive.constructor | dist_builder.py:129 | A new archive has the given name and no entries. |
| Bundling.Archive.Write | dist_builder.py:133 | Writing an existing path appends exactly it. Writing a missing path is an error naming it and adds nothing. |
| Bundling.StepEntriesUnderRoot | dist_builder.py:137-139 | Each path written for a walk triple lies directly in that triple's directory: its head is the root again. |
| Bundling.FirstMissing | dist_builder.py:129-139 | Writing stops at the first path that does not exist, and every earlier one exists. |
| Bundling.StopsAt | dist_builder.py:129-139 | Any position preceded only by existing paths and holding a missing one (or the end) is where writing stops. |
| Bundling.WrittenConcat | dist_builder.py:130-133 | For a plan in two parts, the second part is written only after the whole first part. A missing path in the first part stops everything there. |
| Bundling.DirectoryOrder | dist_builder.py:130-131 | The files of the i-th directory come right after those of all earlier directories, ahead of later directories and the listed files. |
| Bundling.BundleContents | dist_builder.py:60-65 | The planned archive holds the walked directories in configured order, then the configured files, then the wheel, then the source archive when included. |
| Bundling.WriteEach | dist_builder.py:132-133 | The paths are written in order up to the first missing one. The error names that path, and there is no error exactly when all exist. |
| Bundling.ZipDir | dist_builder.py:136-139 | The archive gains the walk's files, each joined with its directory, in walk order, up to the first missing one. The error names that path. |
| Bundling.BuildZip | dist_builder.py:128-133 | A fresh archive named target + `.zip` holds the directories' files then the listed files, in order, up to the first missing path. There is no error exactly when every planned path exists. |
| Bundling.Bundle | dist_builder.py:118-125 | Format `zip` writes exactly one archive, named target + `.zip`, with the planned entries, and passes on the error naming the first missing path. The empty format writes nothing and succeeds. Any other format is an invalid-format error. |

## Left out

- INI syntax is not modelled: a file's content is given as a map from (section, option) to its raw value. Not modelled either are comments, continuation-line whitespace, `%` interpolation, the `DEFAULT` section and the lower-casing of option names.
- Configuration.GetBoolean: the accepted spellings come from the INI reader's table of boolean states rather than from its code.
- Strings.Lower: only ASCII letters are lower-cased; Python's full Unicode case mapping is not modelled.
- Paths.Abspath: joins onto the working directory without normalising `.`, `..` or repeated separators.
- The file system is a snapshot: regular files, directory listings in the order the operating system returns them, and the triples `os.walk` yields. Their order is an input, and symbolic links are not modelled.
- Files.FileSystem: paths are looked up as the literal strings the program passes, not resolved against the working directory. `Scope.Process` (the working directory) and the snapshot are not connected, so a relative path means the same before and after a directory change. The model agrees with the program because `Builder.build` changes back before it looks up the artifacts, and `main`'s change into the repository root (line 18) is not modelled.
- Pattern: only `.`, `.*` and literal characters have meaning in a pattern. Other regular-expression metacharacters (a `+` or `[` in a distribution name) are read literally.
- Running `setup.py` through `imp.load_source` is external code and is not modelled (`Builder.setup`, dist_builder.py:98-104). So are the `sdist`/`bdist_wheel` arguments built from the absolute distribution directory (line 88) and the removal of the egg-info directory (line 92). `Building.ToolRun` stands for their outcome: a new file-system snapshot, or an exception.
- `Builder.setup` assigns `sys.argv[1:]` in place on the same list object it saved as `orig_argv`, so nothing about the arguments is restored. The model records this in a comment and proves no restoration property.
- Reading `setup.py` and `ast.parse` are not modelled: `SetupPy` takes the parsed top-level statements. Calls nested inside other statements and positional arguments are not represented.
- SetupPy.NameFrom: any keyword value other than a string literal is an error. Python itself is more lenient: before 3.8 a bytes literal also has `.s`, and from 3.8 on `.s` returns the value of any constant (a number, bytes, `None`, a boolean) instead of raising.
- Scope.Process.TemporarilyCdTo: the block is modelled as a sequence of directory changes followed by an optional error. A failure to change back to the original directory is not modelled (the directory is assumed to still exist).
- The bytes of the ZIP format, the archive's member names (`arcname`), a failure to create the archive file itself, and closing it are not modelled. The archive is its name and the sequence of paths written into it.
- The message printed for the empty format (line 123) and `main`'s wiring of the steps (lines 16-22) are not modelled.
