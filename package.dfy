/** The package descriptor of models/package/lib/index.js: validation of the
    constructor's options, the four fields, and the operations `prepare`,
    `exists`, `install`, `update` and `getRootFilePath`.

    Each operation is specified by a function on the descriptor's value
    (`Descriptor`); the class `Package` holds the fields the source mutates
    and its methods are proved against those functions. */
module PackageModel {
  import opened Wrappers
  import opened JsValues
  import opened Collaborators

  /** The sentinel version that `prepare` replaces. */
  const LatestTag: Value := Str("latest")

  /** The value of a package descriptor: its four fields, each whatever the
      options record held (possibly `undefined`). */
  datatype Descriptor = Descriptor(targetPath: Value, storeDir: Value, packageName: Value, packageVersion: Value)
  {
    /** Cached mode: the store directory is truthy. Local mode otherwise. */
    predicate Cached()
    {
      Truthy(storeDir)
    }

    /** Agrees with `other` on every field but the version. */
    predicate SameIdentity(other: Descriptor)
    {
      targetPath == other.targetPath && storeDir == other.storeDir && packageName == other.packageName
    }
  }

  /** The two errors the constructor throws. */
  datatype ConstructError = OptionsEmpty | OptionsNotObject

  /** What the other operations can fail with: the registry request was
      rejected, `require` of the manifest threw, or `path.resolve` was given
      a truthy `main` that is not a string. */
  datatype OpError = LookupRejected | ManifestUnreadable | MainNotString

  /** `new Package(options)`: rejects a falsy `options`, then one that is not
      a plain object; otherwise copies the four properties, checking nothing
      else (an empty or missing name or version is accepted). */
  function Construct(options: Value): (r: Result<Descriptor, ConstructError>)
    ensures r == Failure(OptionsEmpty) <==> !Truthy(options)
    ensures r == Failure(OptionsNotObject) <==> Truthy(options) && !IsObject(options)
    ensures r.Success? <==> options.Obj?
    ensures r.Success? ==>
      r.value.targetPath == Get(options, "targetPath") &&
      r.value.storeDir == Get(options, "storeDir") &&
      r.value.packageName == Get(options, "packageName") &&
      r.value.packageVersion == Get(options, "packageVersion")
  {
    if !Truthy(options) then Failure(OptionsEmpty)
    else if !IsObject(options) then Failure(OptionsNotObject)
    else Success(Descriptor(
      Get(options, "targetPath"), Get(options, "storeDir"),
      Get(options, "packageName"), Get(options, "packageVersion")))
  }

  /** `prepare()`: the sentinel version is replaced by the registry's latest
      version for the package name; any other version is kept. A rejected
      lookup leaves the descriptor as it was. */
  function PrepareStep(d: Descriptor, reg: Registry): (r: Result<Descriptor, OpError>)
    ensures r.Success? ==> r.value.SameIdentity(d)
    ensures d.packageVersion != LatestTag ==> r == Success(d)
    ensures r.Failure? <==> d.packageVersion == LatestTag && reg.latestVersion(d.packageName).Rejected?
    ensures r.Failure? ==> r.error == LookupRejected
    ensures r.Success? && d.packageVersion == LatestTag ==>
      r.value.packageVersion == reg.latestVersion(d.packageName).version
  {
    if d.packageVersion == LatestTag then
      match reg.latestVersion(d.packageName)
      case Resolved(v) => Success(d.(packageVersion := v))
      case Rejected => Failure(LookupRejected)
    else
      Success(d)
  }

  /** `exists()`: in cached mode it prepares and resolves to `undefined`; in
      local mode it resolves to whether `targetPath` exists and changes
      nothing. The result is the new descriptor and the resolved value. */
  function ExistsStep(d: Descriptor, reg: Registry, disk: Disk): (r: Result<(Descriptor, Value), OpError>)
    ensures d.Cached() ==> (r.Success? <==> PrepareStep(d, reg).Success?)
    ensures d.Cached() && r.Success? ==> r.value.0 == PrepareStep(d, reg).value && r.value.1 == Undefined
    ensures d.Cached() && r.Failure? ==> r.error == PrepareStep(d, reg).error
    ensures !d.Cached() ==> r.Success? && r.value.0 == d && r.value.1.Bool?
    ensures !d.Cached() ==> (r.value.1 == Bool(true) <==> PathExists(disk, d.targetPath))
  {
    if d.Cached() then
      match PrepareStep(d, reg)
      case Success(d') => Success((d', Undefined))
      case Failure(e) => Failure(e)
    else
      Success((d, Bool(PathExists(disk, d.targetPath))))
  }

  /** `install()`: the record handed to the installer. It is built from the
      current fields, without preparing first, so the version may still be
      the sentinel. */
  function InstallRequest(d: Descriptor, reg: Registry): (a: InstallArgs)
    ensures a.root == d.targetPath && a.storeDir == d.storeDir
    ensures a.registry == reg.defaultRegistry
    ensures |a.pkgs| == 1 && a.pkgs[0].name == d.packageName && a.pkgs[0].version == d.packageVersion
  {
    InstallArgs(d.targetPath, d.storeDir, reg.defaultRegistry, [InstallPkg(d.packageName, d.packageVersion)])
  }

  /** The value of `main` in the manifest found from `targetPath`, when a
      manifest is found and loads. */
  function ManifestMain(d: Descriptor, disk: Disk, paths: Paths): Option<Value>
  {
    match disk.pkgDir(d.targetPath)
    case None => None
    case Some(dir) =>
      match disk.readManifest(paths.resolve(dir, "package.json"))
      case Unreadable => None
      case Loaded(main) => Some(main)
  }

  /** `getRootFilePath()`: the search always starts from `targetPath`, in
      either mode. No package directory, or a manifest without a truthy
      `main`, gives `null` (`None`); otherwise the formatted resolution of
      `main` against the package directory. */
  function RootFileOf(d: Descriptor, disk: Disk, paths: Paths): (r: Result<Option<string>, OpError>)
    ensures disk.pkgDir(d.targetPath).None? ==> r == Success(None)
    ensures r == Success(None) <==>
      disk.pkgDir(d.targetPath).None? || (ManifestMain(d, disk, paths).Some? && !Truthy(ManifestMain(d, disk, paths).value))
    ensures r.Success? && r.value.Some? ==>
      var main := ManifestMain(d, disk, paths);
      main.Some? && main.value.Str? && main.value.s != "" &&
      r.value.value == paths.format(paths.resolve(disk.pkgDir(d.targetPath).value, main.value.s))
    ensures r == Failure(ManifestUnreadable) <==> disk.pkgDir(d.targetPath).Some? && ManifestMain(d, disk, paths).None?
    ensures disk.pkgDir(d.targetPath).Some? && ManifestMain(d, disk, paths).Some? && Truthy(ManifestMain(d, disk, paths).value) ==>
      var main := ManifestMain(d, disk, paths).value;
      if main.Str? then r == Success(Some(paths.format(paths.resolve(disk.pkgDir(d.targetPath).value, main.s))))
      else r == Failure(MainNotString)
  {
    match disk.pkgDir(d.targetPath)
    case None => Success(None)
    case Some(dir) =>
      match disk.readManifest(paths.resolve(dir, "package.json"))
      case Unreadable => Failure(ManifestUnreadable)
      case Loaded(main) =>
        if !Truthy(main) then Success(None)
        else if !main.Str? then Failure(MainNotString)
        else Success(Some(paths.format(paths.resolve(dir, main.s))))
  }

  /** `getRootFilePath` reads `targetPath` only: the mode, the name and the
      version make no difference to the entry file. */
  lemma RootFileIgnoresModeAndVersion(d: Descriptor, e: Descriptor, disk: Disk, paths: Paths)
    requires d.targetPath == e.targetPath
    ensures RootFileOf(d, disk, paths) == RootFileOf(e, disk, paths)
  {
  }

  /** Once the version is not the sentinel, preparing again changes
      nothing; with a registry that never answers the sentinel, preparing
      twice is preparing once. */
  lemma PrepareIdempotent(d: Descriptor, reg: Registry)
    requires NeverAnswersLatestTag(reg)
    requires PrepareStep(d, reg).Success?
    ensures PrepareStep(d, reg).value.packageVersion != LatestTag
    ensures PrepareStep(PrepareStep(d, reg).value, reg) == PrepareStep(d, reg)
  {
  }

  /** The object form of the descriptor: the four fields the source
      assigns, of which `prepare` rewrites `packageVersion` in place. */
  class Package {
    var targetPath: Value
    var storeDir: Value
    var packageName: Value
    var packageVersion: Value

    /** The descriptor value these fields hold. */
    function State(): Descriptor
      reads this
    {
      Descriptor(targetPath, storeDir, packageName, packageVersion)
    }

    /** Stores a descriptor that `New` has validated. */
    constructor FromDescriptor(d: Descriptor)
      ensures State() == d
    {
      targetPath := d.targetPath;
      storeDir := d.storeDir;
      packageName := d.packageName;
      packageVersion := d.packageVersion;
    }

    method Prepare(reg: Registry) returns (r: Result<(), OpError>)
      modifies this
      ensures r.Success? <==> PrepareStep(old(State()), reg).Success?
      ensures r.Success? ==> State() == PrepareStep(old(State()), reg).value
      ensures r.Failure? ==> State() == old(State()) && r.error == PrepareStep(old(State()), reg).error
    {
      if packageVersion == LatestTag {
        match reg.latestVersion(packageName) {
          case Resolved(v) =>
            packageVersion := v;
            r := Success(());
          case Rejected =>
            r := Failure(LookupRejected);
        }
      } else {
        r := Success(());
      }
    }

    method Exists(reg: Registry, disk: Disk) returns (r: Result<Value, OpError>)
      modifies this
      ensures r.Success? <==> ExistsStep(old(State()), reg, disk).Success?
      ensures r.Success? ==> State() == ExistsStep(old(State()), reg, disk).value.0
      ensures r.Success? ==> r.value == ExistsStep(old(State()), reg, disk).value.1
      ensures r.Failure? ==> State() == old(State()) && r.error == ExistsStep(old(State()), reg, disk).error
    {
      if Truthy(storeDir) {
        var p := Prepare(reg);
        if p.Success? {
          r := Success(Undefined);
        } else {
          r := Failure(p.error);
        }
      } else {
        r := Success(Bool(PathExists(disk, targetPath)));
      }
    }

    /** Hands the current fields to the installer, once, and changes no
        field. */
    method Install(reg: Registry, installer: Installer)
      modifies installer
      ensures installer.calls == old(installer.calls) + [InstallRequest(State(), reg)]
    {
      installer.Install(InstallArgs(targetPath, storeDir, reg.defaultRegistry, [InstallPkg(packageName, packageVersion)]));
    }

    /** `update()` has an empty body. */
    method Update()
      ensures State() == old(State())
    {
    }

    method GetRootFilePath(disk: Disk, paths: Paths) returns (r: Result<Option<string>, OpError>)
      ensures r == RootFileOf(State(), disk, paths)
    {
      var dir := disk.pkgDir(targetPath);
      r := Success(None);
      if dir.Some? {
        var pkgFile := disk.readManifest(paths.resolve(dir.value, "package.json"));
        if pkgFile.Unreadable? {
          r := Failure(ManifestUnreadable);
        } else if Truthy(pkgFile.main) {
          if pkgFile.main.Str? {
            r := Success(Some(paths.format(paths.resolve(dir.value, pkgFile.main.s))));
          } else {
            r := Failure(MainNotString);
          }
        }
      }
    }
  }

  /** `new Package(options)`: a fresh descriptor object, or the error the
      constructor throws. */
  method New(options: Value) returns (r: Result<Package, ConstructError>)
    ensures r.Success? <==> Construct(options).Success?
    ensures r.Success? ==> fresh(r.value) && r.value.State() == Construct(options).value
    ensures r.Failure? ==> r.error == Construct(options).error
  {
    if !Truthy(options) {
      r := Failure(OptionsEmpty);
    } else if !IsObject(options) {
      r := Failure(OptionsNotObject);
    } else {
      var d := Descriptor(Get(options, "targetPath"), Get(options, "storeDir"),
                          Get(options, "packageName"), Get(options, "packageVersion"));
      var p := new Package.FromDescriptor(d);
      r := Success(p);
    }
  }
}
