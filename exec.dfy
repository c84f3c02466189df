/** The driver of core/exec/lib/index.js: it picks the package for the
    command, chooses cached or local mode from the target-path environment
    value, builds the descriptor, and invokes the descriptor's entry file
    when one is found. Environment variables and the command object are
    parameters; loading and running the entry file is reported as the path
    that would be invoked. */
module Exec {
  import opened Wrappers
  import opened JsValues
  import opened Collaborators
  import opened PackageModel

  /** The command table: command name to package name. */
  const Settings: map<string, Value> := map["init" := Str("@vic-cli-test/init")]

  /** The directory under the CLI home that holds downloaded packages. */
  const CacheDir: string := "dependencies"

  /** The store directory's name under the target path. */
  const StoreSubdir: string := "node_modules"

  /** `SETTINGS[cmdName]`: `init` names the init package, any other command
      gives `undefined`. */
  function PackageNameFor(cmdName: string): (r: Value)
    ensures cmdName == "init" ==> r == Str("@vic-cli-test/init")
    ensures cmdName != "init" ==> r == Undefined
  {
    if cmdName in Settings then Settings[cmdName] else Undefined
  }

  /** `exec()`. `targetPathEnv` and `homePath` are the values of the
      target-path and home-path environment variables. The result is the
      descriptor built and the entry file invoked (`None` when none is), or
      the failure `getRootFilePath` threw. The installer is never called:
      `pkg.exists()` is not awaited, its pending promise is truthy, and the
      install branch is never taken. */
  method Exec(cmdName: string, targetPathEnv: Value, homePath: string, env: Env, installer: Installer)
    returns (pkg: Package, invoked: Result<Option<string>, OpError>)
    ensures fresh(pkg)
    ensures pkg.packageName == PackageNameFor(cmdName)
    ensures !Truthy(targetPathEnv) ==>
      var target := env.paths.resolve(homePath, CacheDir);
      var d := Descriptor(Str(target), Str(env.paths.resolve(target, StoreSubdir)), PackageNameFor(cmdName), LatestTag);
      pkg.State() == (if ExistsStep(d, env.registry, env.disk).Success? then ExistsStep(d, env.registry, env.disk).value.0 else d)
    ensures !Truthy(targetPathEnv) && ResolvesNonEmpty(env.paths) ==> pkg.State().Cached()
    ensures Truthy(targetPathEnv) ==>
      pkg.State() == Descriptor(targetPathEnv, Undefined, PackageNameFor(cmdName), LatestTag) && !pkg.State().Cached()
    ensures invoked.Failure? <==> RootFileOf(pkg.State(), env.disk, env.paths).Failure?
    ensures invoked.Failure? ==> invoked.error == RootFileOf(pkg.State(), env.disk, env.paths).error
    ensures invoked.Success? ==>
      (invoked.value.Some? <==> RootFileOf(pkg.State(), env.disk, env.paths).value.Some? &&
                                RootFileOf(pkg.State(), env.disk, env.paths).value.value != "")
    ensures invoked.Success? && invoked.value.Some? ==>
      invoked.value.value == RootFileOf(pkg.State(), env.disk, env.paths).value.value
    ensures installer.calls == old(installer.calls)
  {
    var targetPath := targetPathEnv;
    var storeDir := Str("");
    var packageName := PackageNameFor(cmdName);
    var packageVersion := LatestTag;
    var created: Result<Package, ConstructError>;
    if !Truthy(targetPath) {
      targetPath := Str(env.paths.resolve(homePath, CacheDir));
      storeDir := Str(env.paths.resolve(targetPath.s, StoreSubdir));
      created := New(Obj(map["targetPath" := targetPath, "storeDir" := storeDir,
                             "packageName" := packageName, "packageVersion" := packageVersion]));
      pkg := created.value;
      // The promise of `exists()` is not awaited and gets no handler: a
      // rejected lookup becomes an unhandled rejection in the program, which
      // the model discards here. The value tested below is the promise itself.
      var _ := pkg.Exists(env.registry, env.disk);
      var existsResult := Pending;
      if !Truthy(existsResult) {
        // `install` would run here; a pending promise is truthy, so the
        // empty update branch is always the one taken.
        assert false;
      }
    } else {
      created := New(Obj(map["targetPath" := targetPath,
                             "packageName" := packageName, "packageVersion" := packageVersion]));
      pkg := created.value;
    }
    var rootFile := pkg.GetRootFilePath(env.disk, env.paths);
    if rootFile.Failure? {
      invoked := Failure(rootFile.error);
    } else if rootFile.value.Some? && Truthy(Str(rootFile.value.value)) {
      invoked := Success(rootFile.value);
    } else {
      invoked := Success(None);
    }
  }
}
