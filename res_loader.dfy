/** Argument resolution of the resource loader (`res/ResLoader.ts`). Its
    loading functions accept several overloads, told apart at run time by the
    types of the arguments; this module models how the arguments are sorted
    into a bundle, paths, an asset type and two callbacks, and which loader
    call of the engine's asset manager they end up in. The loading itself is
    foreign and not modelled. */
module ResLoader {

  /** A JavaScript value passed as an argument. `Class` is a constructor;
      `isAsset` is what `js.isChildClassOf(c, Asset)` answers for it. `Settle`
      is the callback the promise-returning loaders create. */
  datatype Arg =
    | Undefined
    | Null
    | Str(s: string)
    | StrArray(items: seq<string>)
    | Class(name: string, isAsset: bool)
    | Callback(id: nat)
    | Settle

  /** JavaScript truthiness of these values. */
  predicate Truthy(a: Arg) {
    !(a.Undefined? || a.Null? || a == Str(""))
  }

  /** `js.isChildClassOf(type, Asset)`. */
  predicate IsAssetType(a: Arg) {
    a.Class? && a.isAsset
  }

  /** `ILoadResArgs`: an absent `bundle` or `dir` is `Undefined`. */
  datatype LoadResArgs = LoadResArgs(bundle: Arg, dir: Arg, paths: Arg, assetType: Arg, onProgress: Arg, onComplete: Arg)

  /** `parseLoadResArgs(paths, type, onProgress, onComplete)`. Only when
      `onComplete` is missing are the arguments shifted: the last callback
      given becomes `onComplete`, and a `type` that is no asset class was in
      fact a callback. */
  function ParseLoadResArgs(paths: Arg, assetType: Arg, onProgress: Arg, onComplete: Arg): (r: LoadResArgs)
    ensures r.bundle == Undefined && r.dir == Undefined && r.paths == paths
    ensures onComplete != Undefined ==> r == LoadResArgs(Undefined, Undefined, paths, assetType, onProgress, onComplete)
    ensures onComplete == Undefined && Truthy(onProgress) && IsAssetType(assetType) ==>
      r.assetType == assetType && r.onProgress == Null && r.onComplete == onProgress
    ensures onComplete == Undefined && !Truthy(onProgress) && IsAssetType(assetType) ==>
      r.assetType == assetType && r.onProgress == onProgress && r.onComplete == Undefined
    ensures onComplete == Undefined && onProgress == Undefined && !IsAssetType(assetType) ==>
      r.assetType == Null && r.onProgress == Null && r.onComplete == assetType
    ensures onComplete == Undefined && onProgress != Undefined && !IsAssetType(assetType) ==>
      r.assetType == Null && r.onProgress == assetType
      && r.onComplete == (if Truthy(onProgress) then onProgress else Undefined)
  {
    var valid := IsAssetType(assetType);
    if onComplete != Undefined then
      LoadResArgs(Undefined, Undefined, paths, assetType, onProgress, onComplete)
    else
      // the first if / else-if of `parseLoadResArgs`
      var (t1, p1, c1) :=
        if Truthy(onProgress) then (assetType, if valid then Null else onProgress, onProgress)
        else if onProgress == Undefined && !valid then (Null, Null, assetType)
        else (assetType, onProgress, onComplete);
      // its second if
      var (t2, p2) := if onProgress != Undefined && !valid then (Null, assetType) else (t1, p1);
      LoadResArgs(Undefined, Undefined, paths, t2, p2, c1)
  }

  /** `typeof a === "string" || a instanceof Array`. */
  predicate IsPaths(a: Arg) {
    a.Str? || a.StrArray?
  }

  /** `load(bundleName, paths, type, onProgress, onComplete)`: the first
      argument is a bundle name exactly when the second is a string or an
      array; otherwise every argument moves one place to the left. */
  function Load(bundleName: Arg, paths: Arg, assetType: Arg, onProgress: Arg, onComplete: Arg): (r: LoadResArgs)
    ensures IsPaths(paths) ==> r.bundle == bundleName && r.paths == paths
    ensures !IsPaths(paths) ==> r.bundle == Undefined && r.paths == bundleName
    ensures IsPaths(paths) && onComplete != Undefined ==>
      r.assetType == assetType && r.onProgress == onProgress && r.onComplete == onComplete
    ensures !IsPaths(paths) && onProgress != Undefined ==>
      r.assetType == paths && r.onProgress == assetType && r.onComplete == onProgress
    ensures r.dir == Undefined
  {
    if IsPaths(paths) then
      var args := ParseLoadResArgs(paths, assetType, onProgress, onComplete);
      args.(bundle := bundleName)
    else
      ParseLoadResArgs(bundleName, paths, assetType, onProgress)
  }

  /** `loadDir(bundleName, dir, type, onProgress, onComplete)`: as `load`,
      but only a string counts as the directory, and `dir` is then set to
      the resolved paths. */
  function LoadDir(bundleName: Arg, dir: Arg, assetType: Arg, onProgress: Arg, onComplete: Arg): (r: LoadResArgs)
    ensures r.dir == r.paths
    ensures dir.Str? ==> r.bundle == bundleName && r.paths == dir
    ensures !dir.Str? ==> r.bundle == Undefined && r.paths == bundleName
    ensures dir.Str? && onComplete != Undefined ==>
      r.assetType == assetType && r.onProgress == onProgress && r.onComplete == onComplete
  {
    var args :=
      if dir.Str? then ParseLoadResArgs(dir, assetType, onProgress, onComplete).(bundle := bundleName)
      else ParseLoadResArgs(bundleName, dir, assetType, onProgress);
    args.(dir := args.paths)
  }

  /** Argument `i` of a rest parameter; a missing one is `undefined`. */
  function ArgAt(args: seq<Arg>, i: nat): Arg {
    if i < |args| then args[i] else Undefined
  }

  /** `a ?? null`. */
  function OrNull(a: Arg): (r: Arg)
    ensures r == Null <==> a == Null || a == Undefined
    ensures r != Null ==> r == a
  {
    if a.Undefined? then Null else a
  }

  /** `loadAsync(...args)`: the bundle form exactly when the first argument
      is a string and so is the second; then `load` is called with its own
      completion callback, with the bundle name when that is non-empty. */
  function LoadAsync(args: seq<Arg>): (r: LoadResArgs)
    ensures r.onComplete == Settle && r.dir == Undefined
    ensures ArgAt(args, 0).Str? && ArgAt(args, 0) != Str("") && ArgAt(args, 1).Str? ==>
      r.bundle == ArgAt(args, 0) && r.paths == ArgAt(args, 1)
  {
    var bundleForm := ArgAt(args, 0).Str? && !ArgAt(args, 1).StrArray? && ArgAt(args, 1).Str?;
    var bundleName := if bundleForm then ArgAt(args, 0) else Null;
    var first := if bundleForm then 1 else 0;
    var paths, assetType, onProgress := ArgAt(args, first), OrNull(ArgAt(args, first + 1)), OrNull(ArgAt(args, first + 2));
    if Truthy(bundleName) then Load(bundleName, paths, assetType, onProgress, Settle)
    else Load(paths, assetType, onProgress, Settle, Undefined)
  }

  /** `loadDirAsync(...args)`: the bundle form exactly when the first two
      arguments are strings; then `loadDir` is called as `loadAsync` calls `load`. */
  function LoadDirAsync(args: seq<Arg>): (r: LoadResArgs)
    ensures r.onComplete == Settle && r.dir == r.paths
    ensures ArgAt(args, 0).Str? && ArgAt(args, 0) != Str("") && ArgAt(args, 1).Str? ==>
      r.bundle == ArgAt(args, 0) && r.dir == ArgAt(args, 1)
  {
    var bundleForm := ArgAt(args, 0).Str? && ArgAt(args, 1).Str?;
    var bundleName := if bundleForm then ArgAt(args, 0) else Null;
    var first := if bundleForm then 1 else 0;
    var dir, assetType, onProgress := ArgAt(args, first), OrNull(ArgAt(args, first + 1)), OrNull(ArgAt(args, first + 2));
    if Truthy(bundleName) then LoadDir(bundleName, dir, assetType, onProgress, Settle)
    else LoadDir(dir, assetType, onProgress, Settle, Undefined)
  }

  /** Where `loadByArgs` sends resolved arguments: to the named bundle when
      `bundle` is truthy, to the built-in `resources` bundle otherwise, and
      to the bundle's `loadDir` when `dir` is truthy, its `load` otherwise. */
  datatype Target = Resources | Bundle(name: Arg)
  datatype LoaderCall = LoaderCall(target: Target, isDir: bool, args: LoadResArgs)

  function Dispatch(args: LoadResArgs): (c: LoaderCall)
    ensures c.target == Resources <==> !Truthy(args.bundle)
    ensures c.isDir <==> Truthy(args.dir)
    ensures c.args == args
  {
    LoaderCall(if Truthy(args.bundle) then Bundle(args.bundle) else Resources, Truthy(args.dir), args)
  }

  /** A valid asset type or `null`: what the typed overloads pass as `type`. */
  predicate TypeOrNull(a: Arg) {
    IsAssetType(a) || a == Null
  }

  /** Whatever `type` and progress callback are given (missing ones read as
      `null`), `loadAsync(bundle, path, ...)` with a non-empty bundle name
      asks that bundle for the path, with the promise's callback as `onComplete`. */
  lemma LoadAsyncBundleForm(bundle: string, path: string, assetType: Arg, onProgress: Arg)
    requires bundle != "" && TypeOrNull(OrNull(assetType))
    ensures LoadAsync([Str(bundle), Str(path), assetType, onProgress])
      == LoadResArgs(Str(bundle), Undefined, Str(path), OrNull(assetType), OrNull(onProgress), Settle)
    ensures Dispatch(LoadAsync([Str(bundle), Str(path), assetType, onProgress])).target == Bundle(Str(bundle))
    ensures !Dispatch(LoadAsync([Str(bundle), Str(path), assetType, onProgress])).isDir
  {
  }

  /** `loadAsync(paths, type)` without a bundle: `load` shifts the arguments
      back, and the resources bundle receives the paths, the type and the
      promise's callback, with no progress callback. */
  lemma LoadAsyncPlainForm(paths: Arg, assetType: Arg)
    requires IsPaths(paths) && !paths.Str? && IsAssetType(assetType)
    ensures LoadAsync([paths, assetType]) == LoadResArgs(Undefined, Undefined, paths, assetType, Null, Settle)
    ensures Dispatch(LoadAsync([paths, assetType])).target == Resources
  {
  }

  /** A bundle name followed by an array of paths is not taken as the bundle
      form, yet `load` recognises the array and resolves to the same bundle:
      the promise's callback ends up as `onComplete` and no type is passed. */
  lemma LoadAsyncArrayReachesBundle(bundle: string, items: seq<string>)
    requires bundle != ""
    ensures LoadAsync([Str(bundle), StrArray(items)])
      == LoadResArgs(Str(bundle), Undefined, StrArray(items), Null, Null, Settle)
  {
  }

  /** `loadDirAsync(bundle, dir)` asks that bundle's `loadDir` for the directory. */
  lemma LoadDirAsyncBundleForm(bundle: string, dir: string, assetType: Arg)
    requires bundle != "" && dir != "" && TypeOrNull(OrNull(assetType))
    ensures LoadDirAsync([Str(bundle), Str(dir), assetType])
      == LoadResArgs(Str(bundle), Str(dir), Str(dir), OrNull(assetType), Null, Settle)
    ensures Dispatch(LoadDirAsync([Str(bundle), Str(dir), assetType])) ==
      LoaderCall(Bundle(Str(bundle)), true, LoadDirAsync([Str(bundle), Str(dir), assetType]))
  {
  }

  /** An empty directory name is falsy, so `loadDir` with it ends up in the
      bundle's `load`, not its `loadDir`. */
  lemma EmptyDirLoadsAsFiles(bundle: string, onComplete: nat)
    ensures !Dispatch(LoadDir(Str(bundle), Str(""), Null, Null, Callback(onComplete))).isDir
  {
  }

  /** `load(paths, onComplete)`: with neither type nor progress given, the
      single callback is the completion callback. */
  lemma LoadWithOnlyCallback(path: string, cb: nat)
    ensures Load(Str(path), Callback(cb), Undefined, Undefined, Undefined)
      == LoadResArgs(Undefined, Undefined, Str(path), Null, Null, Callback(cb))
  {
  }

  /** `load(paths, onProgress, onComplete)`: two callbacks and no type. */
  lemma LoadWithTwoCallbacks(path: string, progress: nat, complete: nat)
    ensures Load(Str(path), Callback(progress), Callback(complete), Undefined, Undefined)
      == LoadResArgs(Undefined, Undefined, Str(path), Null, Callback(progress), Callback(complete))
  {
  }
}
