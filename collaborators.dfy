/** The capabilities the package descriptor calls but does not implement:
    the npm registry client, the file system as `path-exists`, `pkg-dir` and
    `require` see it, the `path` functions and the `npminstall` installer.
    Each is a value handed to the operations, so that the model fixes
    nothing about them beyond what the calling code relies on. */
module Collaborators {
  import opened Wrappers
  import opened JsValues

  /** What the registry answered when asked for a package's latest version:
      a version value, or a rejected request (network failure). */
  datatype Lookup = Resolved(version: Value) | Rejected

  /** The registry client: `getDefaultRegistry()` and
      `getNpmLatestVersion(name)`. */
  datatype Registry = Registry(defaultRegistry: string, latestVersion: Value -> Lookup)

  /** A registry that never names the sentinel tag as a version. */
  ghost predicate NeverAnswersLatestTag(reg: Registry)
  {
    forall name :: reg.latestVersion(name).Resolved? ==> reg.latestVersion(name).version != Str("latest")
  }

  /** Loading a `package.json` with `require`: the value of its `main`
      property (`undefined` when the document has none or is itself falsy),
      or a load that throws (missing or malformed file). */
  datatype ManifestRead = Loaded(main: Value) | Unreadable

  /** The file system: the paths that exist, what `pkg-dir` finds when
      started from a value, and what `require` gives for a manifest path.
      A directory `pkg-dir` finds is the parent of an absolute path, so it
      is a non-empty, hence truthy, string: `Some` stands for the caller's
      truthiness test on it. */
  datatype Disk = Disk(
    existing: set<string>,
    pkgDir: Value -> Option<string>,
    readManifest: string -> ManifestRead)

  /** `path-exists`: a non-string argument makes the underlying access call
      throw, which `path-exists` reports as "does not exist". */
  predicate PathExists(disk: Disk, v: Value)
  {
    v.Str? && v.s in disk.existing
  }

  /** `path.resolve(a, b)` and `formatPath(p)`. */
  datatype Paths = Paths(resolve: (string, string) -> string, format: string -> string)

  /** `path.resolve` always yields an absolute, hence non-empty, path. */
  ghost predicate ResolvesNonEmpty(paths: Paths)
  {
    forall a, b :: paths.resolve(a, b) != ""
  }

  /** Everything outside the descriptor that its operations consult. */
  datatype Env = Env(registry: Registry, disk: Disk, paths: Paths)

  /** One entry of the `pkgs` list given to the installer. */
  datatype InstallPkg = InstallPkg(name: Value, version: Value)

  /** The argument record of one `npminstall` call. */
  datatype InstallArgs = InstallArgs(root: Value, storeDir: Value, registry: string, pkgs: seq<InstallPkg>)

  /** The installer, observed through the calls made to it. */
  class Installer {
    var calls: seq<InstallArgs>

    constructor ()
      ensures calls == []
    {
      calls := [];
    }

    /** One `npminstall(args)` call. */
    method Install(args: InstallArgs)
      modifies this
      ensures calls == old(calls) + [args]
    {
      calls := calls + [args];
    }
  }
}
