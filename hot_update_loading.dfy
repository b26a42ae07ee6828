/** The native hot-update component of the loading scene
    (`loading/HotUpdate.ts`): the same flag machine as the library one, but
    it keeps the bundle name of an up-to-date manifest in `_bundleName` and
    enters the game with it itself. The assets manager is abstract: what it
    reports comes in as arguments, what is asked of it is appended to
    `requests`. */
module HotUpdateLoading {
  import opened Wrappers
  import opened HotUpdateEvents

  class HotUpdate {
    /** `_updating`: a check or an update is in progress. */
    var updating: bool
    /** `_canRetry`: the last update failed and may be retried. */
    var canRetry: bool
    /** `_failCount`. */
    var failCount: int
    /** `_bundleName`, undefined (None) until a check finds the game up to date. */
    var bundleName: Option<string>
    /** `_am` is set: `onLoad` ran in a native build. */
    var hasAm: bool
    /** The manager is still in its `UNINITED` state. */
    var amUninited: bool
    /** The callback registered with the manager. */
    var listener: Listener
    /** The file utilities' search paths. */
    var searchPaths: seq<string>
    /** Every request made so far, oldest first. */
    var requests: seq<Request>

    /** The counters and callbacks keep to what the methods can produce:
        nothing ever raises the failure count, only a loaded manager can be
        busy, and a registered check callback means a check is in progress
        on an initialised manager. */
    ghost predicate Valid()
      reads this
    {
      failCount == 0
      && (updating ==> hasAm) && (listener != NoListener ==> hasAm)
      && (listener == CheckListener ==> updating && !amUninited)
    }

    /** The component with its field initialisers, before `onLoad`. */
    constructor (paths: seq<string>)
      ensures Valid() && !updating && !canRetry && !hasAm && listener == NoListener
      ensures bundleName == None && searchPaths == paths && requests == []
    {
      updating := false;
      canRetry := false;
      failCount := 0;
      bundleName := None;
      hasAm := false;
      amUninited := true;
      listener := NoListener;
      searchPaths := paths;
      requests := [];
    }

    /** `onLoad`: outside a native build nothing happens; otherwise a new
        manager is created and an update check begins. `manifestLoaded` is
        whether the local manifest is loaded once the check asks for it. */
    method OnLoad(native: bool, manifestLoaded: bool)
      requires Valid() && !hasAm
      modifies this
      ensures Valid()
      ensures !native ==> (!updating && !hasAm && listener == old(listener) && amUninited == old(amUninited)
        && requests == old(requests))
      ensures native ==> !amUninited
      ensures native && manifestLoaded ==>
        hasAm && updating && listener == CheckListener && requests == old(requests) + [LoadLocalManifest, CheckForUpdate]
      ensures native && !manifestLoaded ==>
        hasAm && !updating && listener == NoListener && requests == old(requests) + [LoadLocalManifest]
      ensures canRetry == old(canRetry) && searchPaths == old(searchPaths) && bundleName == old(bundleName)
    {
      if !native {
        return;
      }
      hasAm := true;
      amUninited := true;
      CheckUpdate(manifestLoaded);
    }

    /** `checkCb`, the callback of an update check. The four handled groups
        of codes unregister the callback and clear `_updating`; an up-to-date
        manifest first stores the manifest root as `_bundleName` and enters
        the game with that bundle, a new version first calls `doUpdate`. Any
        other code changes nothing. */
    method CheckCb(code: EventCode, manifestRoot: string)
      requires Valid() && listener == CheckListener
      modifies this
      ensures Valid()
      ensures CheckHandled(code) ==> !updating && listener == NoListener
      ensures !CheckHandled(code) ==> updating == old(updating) && listener == old(listener)
      ensures code == AlreadyUpToDate ==>
        bundleName == Some(manifestRoot) && requests == old(requests) + [EnterGame(manifestRoot)]
      ensures code != AlreadyUpToDate ==> bundleName == old(bundleName) && requests == old(requests)
      ensures canRetry == old(canRetry) && hasAm == old(hasAm) && searchPaths == old(searchPaths)
      ensures amUninited == old(amUninited)
    {
      match code {
        case ErrorNoLocalManifest =>
        case ErrorDownloadManifest =>
        case ErrorParseManifest =>
        case AlreadyUpToDate =>
          bundleName := Some(manifestRoot);
          requests := requests + [EnterGame(bundleName.value)];
        case NewVersionFound =>
          DoUpdate();
        case _ =>
          return;
      }
      listener := NoListener;
      updating := false;
    }

    /** `checkCb` as evidently intended for a new version: the check ends
        before `doUpdate` runs, so the update does start. */
    method CheckCbFixed(code: EventCode, manifestRoot: string)
      requires Valid() && listener == CheckListener
      modifies this
      ensures Valid()
      ensures code == NewVersionFound ==>
        updating && listener == UpdateListener && failCount == 0 && requests == old(requests) + [StartUpdate]
      ensures code != NewVersionFound && CheckHandled(code) ==> !updating && listener == NoListener
      ensures !CheckHandled(code) ==> updating == old(updating) && listener == old(listener)
      ensures code == AlreadyUpToDate ==>
        bundleName == Some(manifestRoot) && requests == old(requests) + [EnterGame(manifestRoot)]
      ensures code != AlreadyUpToDate ==> bundleName == old(bundleName)
      ensures code != AlreadyUpToDate && code != NewVersionFound ==> requests == old(requests)
      ensures canRetry == old(canRetry) && hasAm == old(hasAm) && searchPaths == old(searchPaths)
      ensures amUninited == old(amUninited)
    {
      if code == NewVersionFound {
        listener := NoListener;
        updating := false;
        DoUpdate();
        return;
      }
      CheckCb(code, manifestRoot);
    }

    /** `updateCb`, the callback of a running update. A missing or unreadable
        manifest, or one already up to date, gives the update up; a finished
        update puts the manifest's search paths `newPaths` in front and asks
        for a restart; a failed one calls `retry` (while `_updating` still
        holds) and then allows a retry. Progress and other codes change no flag. */
    method UpdateCb(code: EventCode, newPaths: seq<string>)
      requires Valid() && listener == UpdateListener
      modifies this
      ensures Valid()
      ensures UpdateGivenUp(code) ==> !updating && listener == NoListener && canRetry == old(canRetry)
      ensures code == UpdateFinished ==>
        listener == NoListener && updating == old(updating) && canRetry == old(canRetry)
        && searchPaths == newPaths + old(searchPaths) && requests == old(requests) + [Restart]
      ensures code == UpdateFailed ==> !updating && canRetry && listener == old(listener)
      ensures code == UpdateFailed ==>
        requests == old(requests) + (if !old(updating) && old(canRetry) then [DownloadFailedAssets] else [])
      ensures UpdateGivenUp(code) ==> requests == old(requests)
      ensures code != UpdateFinished ==> searchPaths == old(searchPaths)
      ensures !UpdateGivenUp(code) && code != UpdateFinished && code != UpdateFailed ==>
        updating == old(updating) && canRetry == old(canRetry) && listener == old(listener) && requests == old(requests)
      ensures hasAm == old(hasAm) && amUninited == old(amUninited) && bundleName == old(bundleName)
    {
      var needRestart, failed := false, false;
      match code {
        case ErrorNoLocalManifest =>
          failed := true;
        case ErrorDownloadManifest =>
          failed := true;
        case ErrorParseManifest =>
          failed := true;
        case AlreadyUpToDate =>
          failed := true;
        case UpdateFinished =>
          needRestart := true;
        case UpdateFailed =>
          Retry();
          updating := false;
          canRetry := true;
        case _ =>
      }
      if failed {
        listener := NoListener;
        updating := false;
      }
      if needRestart {
        listener := NoListener;
        searchPaths := newPaths + searchPaths;
        requests := requests + [Restart];
      }
    }

    /** `retry`: only with no check or update in progress and a failed
        update behind, the failed assets are downloaded again, once. */
    method Retry()
      requires Valid()
      modifies this
      ensures Valid()
      ensures !old(updating) && old(canRetry) ==> !canRetry && requests == old(requests) + [DownloadFailedAssets]
      ensures old(updating) || !old(canRetry) ==> canRetry == old(canRetry) && requests == old(requests)
      ensures updating == old(updating) && listener == old(listener) && hasAm == old(hasAm) && bundleName == old(bundleName)
      ensures searchPaths == old(searchPaths) && amUninited == old(amUninited)
    {
      if !updating && canRetry {
        canRetry := false;
        requests := requests + [DownloadFailedAssets];
      }
    }

    /** `checkUpdate`: while a check or update runs it only reports so.
        Otherwise an uninitialised manager loads its local manifest; if the
        manifest is then loaded, the check callback is registered, the check
        requested and `_updating` set. */
    method CheckUpdate(manifestLoaded: bool)
      requires Valid() && hasAm
      modifies this
      ensures Valid()
      ensures old(updating) ==> (updating && listener == old(listener) && requests == old(requests)
        && amUninited == old(amUninited))
      ensures !old(updating) ==> !amUninited
      ensures !old(updating) && manifestLoaded ==> (updating && listener == CheckListener
        && requests == old(requests) + (if old(amUninited) then [LoadLocalManifest] else []) + [CheckForUpdate])
      ensures !old(updating) && !manifestLoaded ==> (!updating && listener == old(listener)
        && requests == old(requests) + (if old(amUninited) then [LoadLocalManifest] else []))
      ensures canRetry == old(canRetry) && hasAm == old(hasAm) && searchPaths == old(searchPaths) && bundleName == old(bundleName)
    {
      if updating {
        return;
      }
      if amUninited {
        requests := requests + [LoadLocalManifest];
        amUninited := false;
      }
      if !manifestLoaded {
        return;
      }
      listener := CheckListener;
      requests := requests + [CheckForUpdate];
      updating := true;
    }

    /** `doUpdate`: with a manager and nothing in progress, the update
        callback is registered, an uninitialised manager loads its manifest,
        the failure count is cleared, the update requested and `_updating`
        set. Otherwise nothing happens. */
    method DoUpdate()
      requires Valid()
      modifies this
      ensures Valid()
      ensures hasAm && !old(updating) ==> (updating && failCount == 0 && listener == UpdateListener && !amUninited
        && requests == old(requests) + (if old(amUninited) then [LoadLocalManifest] else []) + [StartUpdate])
      ensures !hasAm || old(updating) ==> (updating == old(updating) && listener == old(listener)
        && requests == old(requests) && amUninited == old(amUninited))
      ensures canRetry == old(canRetry) && hasAm == old(hasAm) && searchPaths == old(searchPaths) && bundleName == old(bundleName)
    {
      if hasAm && !updating {
        listener := UpdateListener;
        if amUninited {
          requests := requests + [LoadLocalManifest];
          amUninited := false;
        }
        failCount := 0;
        requests := requests + [StartUpdate];
        updating := true;
      }
    }
  }

  /** The start of an update as written: the check finds a new version,
      but `doUpdate` sees `_updating` still set by the check and does
      nothing, after which the callback is dropped and `_updating`
      cleared. No update is ever requested. */
  method NewVersionAsWritten() returns (started: bool, idle: bool)
    ensures !started && idle
  {
    var h := new HotUpdate([]);
    h.OnLoad(true, true);
    h.CheckCb(NewVersionFound, "");
    started := StartUpdate in h.requests;
    idle := !h.updating && h.listener == NoListener;
  }

  /** The same start with the corrected callback: the update is requested
      and runs with the update callback registered. */
  method NewVersionFixed() returns (started: bool, running: bool)
    ensures started && running
  {
    var h := new HotUpdate([]);
    h.OnLoad(true, true);
    h.CheckCbFixed(NewVersionFound, "");
    started := StartUpdate in h.requests;
    running := h.updating && h.listener == UpdateListener;
  }
}
