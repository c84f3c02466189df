/** The descriptor's lifecycle: a caller awaits the descriptor's operations
    one after another, and the first that throws ends the sequence. These
    lemmas state what holds after any such sequence: the mode and the other
    non-version fields never change, the version only ever moves from the
    sentinel to the registry's answer, every installer call carries the
    descriptor's own fields, `update` is a no-op and a second `prepare` is
    too. */
module Lifecycle {
  import opened Wrappers
  import opened JsValues
  import opened Collaborators
  import opened PackageModel

  /** One awaited call on the descriptor. */
  datatype Op = DoPrepare | DoExists | DoInstall | DoUpdate | DoGetRootFilePath

  /** Where a sequence of calls leaves things: the descriptor, the installer
      calls made in order, and the failure that stopped the sequence, if
      one did. */
  datatype Outcome = Outcome(state: Descriptor, installs: seq<InstallArgs>, failure: Option<OpError>)

  /** One call: the new descriptor and the installer calls it made. */
  function Step(d: Descriptor, op: Op, env: Env): Result<(Descriptor, seq<InstallArgs>), OpError>
  {
    match op
    case DoPrepare =>
      (match PrepareStep(d, env.registry)
       case Success(d') => Success((d', []))
       case Failure(e) => Failure(e))
    case DoExists =>
      (match ExistsStep(d, env.registry, env.disk)
       case Success(answer) => Success((answer.0, []))
       case Failure(e) => Failure(e))
    case DoInstall => Success((d, [InstallRequest(d, env.registry)]))
    case DoUpdate => Success((d, []))
    case DoGetRootFilePath =>
      (match RootFileOf(d, env.disk, env.paths)
       case Success(_) => Success((d, []))
       case Failure(e) => Failure(e))
  }

  /** The calls `ops` in order, stopping at the first failure. */
  function Run(d: Descriptor, ops: seq<Op>, env: Env): Outcome
    decreases |ops|
  {
    if ops == [] then Outcome(d, [], None)
    else
      match Step(d, ops[0], env)
      case Failure(e) => Outcome(d, [], Some(e))
      case Success(next) =>
        var rest := Run(next.0, ops[1..], env);
        Outcome(rest.state, next.1 + rest.installs, rest.failure)
  }

  /** Continue an outcome with more calls, unless it already failed. */
  function Then(o: Outcome, ops: seq<Op>, env: Env): Outcome
  {
    if o.failure.Some? then o
    else
      var rest := Run(o.state, ops, env);
      Outcome(rest.state, o.installs + rest.installs, rest.failure)
  }

  /** The version after any calls: the original one, or the registry's
      answer for the package when the original was the sentinel. */
  ghost predicate VersionFrom(v: Value, d: Descriptor, reg: Registry)
  {
    v == d.packageVersion ||
    (d.packageVersion == LatestTag && reg.latestVersion(d.packageName).Resolved? &&
     v == reg.latestVersion(d.packageName).version)
  }

  /** The record of an installer call made by descriptor `d`. */
  ghost predicate InstallOf(a: InstallArgs, d: Descriptor, reg: Registry)
  {
    a.root == d.targetPath && a.storeDir == d.storeDir && a.registry == reg.defaultRegistry &&
    |a.pkgs| == 1 && a.pkgs[0].name == d.packageName && VersionFrom(a.pkgs[0].version, d, reg)
  }

  /** How many installs a sequence of calls asks for. */
  function CountInstalls(ops: seq<Op>): nat
  {
    if ops == [] then 0 else (if ops[0] == DoInstall then 1 else 0) + CountInstalls(ops[1..])
  }

  lemma StepKeeps(d: Descriptor, op: Op, env: Env)
    requires Step(d, op, env).Success?
    ensures Step(d, op, env).value.0.SameIdentity(d)
    ensures VersionFrom(Step(d, op, env).value.0.packageVersion, d, env.registry)
    ensures |Step(d, op, env).value.1| == if op == DoInstall then 1 else 0
    ensures forall a :: a in Step(d, op, env).value.1 ==> InstallOf(a, d, env.registry)
  {
  }

  /** No sequence of calls changes `targetPath`, `storeDir` or
      `packageName`, so the mode chosen at construction is kept; the
      version only ever becomes the registry's answer for the sentinel. */
  lemma {:induction false} RunKeepsIdentity(d: Descriptor, ops: seq<Op>, env: Env)
    ensures Run(d, ops, env).state.SameIdentity(d)
    ensures Run(d, ops, env).state.Cached() == d.Cached()
    ensures VersionFrom(Run(d, ops, env).state.packageVersion, d, env.registry)
    decreases |ops|
  {
    if ops != [] && Step(d, ops[0], env).Success? {
      var next := Step(d, ops[0], env).value.0;
      StepKeeps(d, ops[0], env);
      RunKeepsIdentity(next, ops[1..], env);
    }
  }

  /** Every installer call made by any sequence of calls carries the
      descriptor's own root, store directory, name and a version that is
      the original one or the registry's answer; a sequence that does not
      fail makes exactly one call per `install`. */
  lemma {:induction false} RunInstalls(d: Descriptor, ops: seq<Op>, env: Env)
    ensures forall a :: a in Run(d, ops, env).installs ==> InstallOf(a, d, env.registry)
    ensures Run(d, ops, env).failure.None? ==> |Run(d, ops, env).installs| == CountInstalls(ops)
    decreases |ops|
  {
    if ops != [] && Step(d, ops[0], env).Success? {
      var next := Step(d, ops[0], env).value.0;
      StepKeeps(d, ops[0], env);
      RunInstalls(next, ops[1..], env);
      RunKeepsIdentity(next, ops[1..], env);
    }
  }

  /** Running `a + b` is running `a`, then `b` from where `a` left off. */
  lemma {:induction false} RunAppend(d: Descriptor, a: seq<Op>, b: seq<Op>, env: Env)
    ensures Run(d, a + b, env) == Then(Run(d, a, env), b, env)
    decreases |a|
  {
    if a == [] {
      assert a + b == b;
    } else {
      assert (a + b)[0] == a[0];
      assert (a + b)[1..] == a[1..] + b;
      if Step(d, a[0], env).Success? {
        var next := Step(d, a[0], env).value;
        RunAppend(next.0, a[1..], b, env);
        var ra := Run(next.0, a[1..], env);
        if ra.failure.None? {
          var rb := Run(ra.state, b, env);
          assert next.1 + (ra.installs + rb.installs) == (next.1 + ra.installs) + rb.installs;
        }
      }
    }
  }

  /** `update` has no effect: appending it to any sequence of calls changes
      neither the descriptor, nor the installer calls, nor the outcome. */
  lemma {:induction false} UpdateHasNoEffect(d: Descriptor, ops: seq<Op>, env: Env)
    ensures Run(d, ops + [DoUpdate], env) == Run(d, ops, env)
  {
    RunAppend(d, ops, [DoUpdate], env);
    var o := Run(d, ops, env);
    if o.failure.None? {
      assert o.installs + [] == o.installs;
    }
  }

  /** With a registry that never answers the sentinel, a second `prepare`
      right after a first is a no-op, whatever came before. */
  lemma {:induction false} SecondPrepareIsNoOp(d: Descriptor, ops: seq<Op>, env: Env)
    requires NeverAnswersLatestTag(env.registry)
    ensures Run(d, ops + [DoPrepare, DoPrepare], env) == Run(d, ops + [DoPrepare], env)
  {
    RunAppend(d, ops, [DoPrepare, DoPrepare], env);
    RunAppend(d, ops, [DoPrepare], env);
    var o := Run(d, ops, env);
    if o.failure.None? {
      var p := PrepareStep(o.state, env.registry);
      if p.Success? {
        PrepareIdempotent(o.state, env.registry);
        assert [DoPrepare, DoPrepare][1..] == [DoPrepare];
      }
    }
  }

  /** In cached mode a successful `exists` leaves the version pinned: it is
      no longer the sentinel when the registry never answers the sentinel. */
  lemma CachedExistsPins(d: Descriptor, env: Env)
    requires d.Cached() && NeverAnswersLatestTag(env.registry)
    requires Run(d, [DoExists], env).failure.None?
    ensures Run(d, [DoExists], env).state.packageVersion != LatestTag
    ensures Run(d, [DoExists], env).state.SameIdentity(d)
  {
  }

  /** In local mode `exists` never fails and never changes the
      descriptor. */
  lemma LocalExistsReadsOnly(d: Descriptor, env: Env)
    requires !d.Cached()
    ensures Run(d, [DoExists], env) == Outcome(d, [], None)
  {
  }

  /** `install` does not prepare: a descriptor still holding the sentinel
      hands the sentinel to the installer. */
  lemma InstallKeepsSentinel(d: Descriptor, env: Env)
    requires d.packageVersion == LatestTag
    ensures Run(d, [DoInstall], env).installs[0].pkgs[0].version == LatestTag
  {
  }
}
