/** The immutable records the builder passes between its stages
    (`Config`, `BuildConfig`, `BundleConfig` and `BuildResult`). */
module Records {

  datatype BuildConfig = BuildConfig(distDir: string, setupPy: string)

  datatype BundleConfig = BundleConfig(
    format: string,
    includeSource: bool,
    dirs: seq<string>,
    files: seq<string>)

  datatype Config = Config(repoRoot: string, build: BuildConfig, bundle: BundleConfig)

  /** The paths of the wheel and of the source archive the build produced. */
  datatype BuildResult = BuildResult(wheel: string, source: string)
}
