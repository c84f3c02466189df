# Package descriptor and exec driver of vic-cli-test

This project models the package descriptor of the `vic-cli-test` command-line tool
(`models/package/lib/index.js`) and the `exec` driver that sets it up
(`core/exec/lib/index.js`). It proves properties of the model in Dafny.

A descriptor holds four fields: `targetPath`, `storeDir`, `packageName` and
`packageVersion`. A truthy `storeDir` puts it in cached mode. Otherwise it is in
local mode. Its operations behave as follows:

- `prepare` replaces the sentinel version `latest` with the registry's latest version.
- `exists` prepares in cached mode. In local mode it tests whether `targetPath` exists.
- `install` hands the current fields to the installer.
- `update` does nothing.
- `getRootFilePath` finds the package directory from `targetPath`, reads `main` from its
  manifest, and returns the formatted path of the entry file, or `null`.

The driver works in three steps:

1. It looks up the package for the command (`init` is the only entry in its table).
2. It picks the mode. Without a target path it uses `<home>/dependencies` as the target
   and `<target>/node_modules` as the store, which gives cached mode. A given target path
   gives local mode.
3. It invokes the entry file when `getRootFilePath` yields one.

Files and modules:

- `wrappers.dfy` (`Wrappers`): `Option` and `Result`.
- `js_values.dfy` (`JsValues`): JavaScript values and their truthiness. It also holds the
  plain-object test and property reads.
- `collaborators.dfy` (`Collaborators`): the registry client, the file system as
  `path-exists`, `pkg-dir` and `require` see it, `path.resolve`/`formatPath`, and the
  installer. Each is a value passed in, never fixed by the model.
- `package.dfy` (`PackageModel`): the descriptor value, one specification function per
  operation, and the `Package` class whose methods are proved against those functions.
- `lifecycle.dfy` (`Lifecycle`): sequences of awaited calls on a descriptor, and what
  holds after any of them.
- `exec.dfy` (`Exec`): the driver.

Several behaviours one might expect of a package cache are absent from the code, and the model
does not add them:

- the code has no version-keyed cache path and no name prefix derived from the package name;
- `update` is empty;
- `install` does not prepare;
- in cached mode `exists` resolves to `undefined`, not to a boolean;
- the constructor checks only that `options` is a truthy plain object, and an empty or missing
  `packageName` is accepted;
- `getRootFilePath` always searches from `targetPath`, in either mode.

## Model

| member | source | states |
|---|---|---|
| PackageModel.Construct | models/package/lib/index.js:12-27 | A falsy `options` fails with the "empty" error, and a truthy non-object fails with the "not an object" error. Every plain object is accepted. The four fields are then copied unchanged, and a missing property becomes `undefined`. |
| PackageModel.New | models/package/lib/index.js:12-27 | `new Package(options)` returns a fresh object whose fields are the validated descriptor, or throws exactly the error that validation names. |
| PackageModel.Package.FromDescriptor | models/package/lib/index.js:20-26 | The four fields hold the given values. |
| PackageModel.PrepareStep | models/package/lib/index.js:29-35 | Only the version can change. A version other than `latest` is kept. `latest` becomes the registry's answer for the package name. A rejected lookup fails and changes nothing. |
| PackageModel.Package.Prepare | models/package/lib/index.js:29-35 | Rewrites `packageVersion` in place as `PrepareStep` says. On failure the object is unchanged. |
| PackageModel.PrepareIdempotent | models/package/lib/index.js:30-32 | Suppose the registry never answers `latest`. Then a successful prepare leaves a version that is not `latest`, and preparing again gives the same descriptor. |
| PackageModel.ExistsStep | models/package/lib/index.js:37-43 | Cached mode (truthy `storeDir`) prepares and resolves to `undefined`. Local mode never fails, changes nothing, and answers `true` exactly when `targetPath` exists. |
| PackageModel.Package.Exists | models/package/lib/index.js:37-43 | The object's new fields and the resolved value are those `ExistsStep` gives. A failure leaves the object unchanged. |
| PackageModel.InstallRequest | models/package/lib/index.js:46-58 | The installer record has `root = targetPath`, the `storeDir`, the default registry, and the one package `{name: packageName, version: packageVersion}` with the current version. |
| PackageModel.Package.Install | models/package/lib/index.js:46-58 | Makes exactly one installer call, with that record. No field of the descriptor changes. |
| Collaborators.Installer.Install | models/package/lib/index.js:47-57 | One `npminstall` call is appended to the installer's record of calls. |
| PackageModel.Package.Update | models/package/lib/index.js:61-63 | No field changes. |
| PackageModel.RootFileOf | models/package/lib/index.js:66-79 | No package directory found from `targetPath` gives `null`. A manifest with a falsy `main` gives `null`. A manifest that cannot be loaded throws, and so does a truthy `main` that is not a string. Otherwise the result is `formatPath(resolve(dir, main))`. |
| PackageModel.Package.GetRootFilePath | models/package/lib/index.js:66-79 | Leaves the object unchanged and returns what `RootFileOf` gives for its fields. |
| PackageModel.RootFileIgnoresModeAndVersion | models/package/lib/index.js:66-68 | The entry file depends only on `targetPath`: two descriptors with the same target get the same answer in either mode and at any version. |
| Lifecycle.StepKeeps | models/package/lib/index.js:29-79 | A single successful call keeps `targetPath`, `storeDir` and `packageName`. It only moves the version from `latest` to the registry's answer, and installer calls are made only by `install`. |
| Lifecycle.RunKeepsIdentity | models/package/lib/index.js:29-79 | After any sequence of calls, `targetPath`, `storeDir`, `packageName` and hence the mode are unchanged. The version is either the original or the registry's answer for `latest`. |
| Lifecycle.RunInstalls | models/package/lib/index.js:46-58 | Every installer call made by any sequence carries the descriptor's own root, store directory, registry and name, with a version that is the original or the registry's answer. A sequence that does not fail makes exactly one call per `install`. |
| Lifecycle.UpdateHasNoEffect | models/package/lib/index.js:61-63 | Appending `update` to any sequence of calls changes neither the final descriptor, nor the installer calls, nor whether it failed. |
| Lifecycle.SecondPrepareIsNoOp | models/package/lib/index.js:29-35 | Suppose the registry never answers `latest`. After any sequence of calls, a second `prepare` right after a first changes nothing. |
| Lifecycle.CachedExistsPins | models/package/lib/index.js:37-40 | In cached mode a successful `exists` leaves a version other than `latest`, when the registry never answers `latest`. It also keeps the other fields. |
| Lifecycle.LocalExistsReadsOnly | models/package/lib/index.js:40-42 | In local mode `exists` neither fails nor changes the descriptor, and it calls no installer. |
| Lifecycle.InstallKeepsSentinel | models/package/lib/index.js:46-57 | `install` does not prepare, so a descriptor still at `latest` passes `latest` to the installer. |
| Exec.PackageNameFor | core/exec/lib/index.js:8-10 | The command `init` gives the package `@vic-cli-test/init`. Every other command gives `undefined`. |
| Exec.Exec | core/exec/lib/index.js:14-55 | Without a truthy target path, the target becomes `resolve(home, 'dependencies')` and the store becomes `resolve(target, 'node_modules')`. That is cached mode, and the descriptor is then prepared by `exists`. A given target path passes through unchanged, with no store directory (local mode). The name comes from the command table, and the version starts as `latest`. The installer is never called. The entry file is invoked exactly when `getRootFilePath` yields a non-empty path, and a throw from `getRootFilePath` is the driver's failure, with the same error. |

## Left out

- Network I/O: the registry lookup (`getNpmLatestVersion`) and `getDefaultRegistry` are parameters. A lookup either answers a value or is rejected.
- The installer: `npminstall` (fetching, unpacking, dependency resolution) is represented only by the record of its calls. A failing install is not modelled. It cannot be reached from the driver anyway.
- The file system: how `pkg-dir` walks up directories, how `require` parses `package.json`, and how `path.resolve` and `formatPath` treat separators are all abstract functions passed in. `isObject` from the utilities package is not part of this model. It is taken to accept exactly plain objects.
- Asynchrony: every call is modelled as one finished step. In the driver, the registry answer to the un-awaited `exists()` arrives after `getRootFilePath` has run. The entry file does not depend on the version, so the order makes no difference there.
- Exec.Exec: the promise of the un-awaited `exists()` has no handler, so a rejected registry lookup becomes an unhandled promise rejection, which in recent Node versions ends the process after the driver has run. The model discards that failure: it keeps the descriptor unchanged and lets the driver go on, and it does not model the process ending.
- Exec.Exec: the dynamic `require(rootFile).apply(null, arguments)` is reported as the path that would be invoked, and what that code does is not modelled. Logging (`console.log`, `log.verbose`) is left out. The home-path environment value is taken to be a string, so the `path.resolve` error for a missing home is not modelled.
- PackageModel.RootFileOf: `pkg-dir` is an abstract function of whatever `targetPath` holds, so the `TypeError` it raises when started from a truthy value that is not a string is not modelled; for such a `targetPath` the model answers `null` or a directory, as the supplied `pkgDir` says. The driver only ever passes a string.
- Exec.PackageNameFor: names inherited from `Object.prototype` (for example `toString`) would read an inherited property from `SETTINGS`. The model gives `undefined` for them.
- JavaScript numbers are integers here. `NaN` and fractions only matter for truthiness, which these operations never test on numbers from the source.
- The command-line glue in `core/cli`, the logger in `utils/log` and the launcher in `core/cli/bin`: they hold environment setup and no logic of the descriptor.
