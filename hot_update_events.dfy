/** What the native hot-update components exchange with the engine's assets
    manager (`jsb.AssetsManager`): the event codes its callbacks receive,
    which callback is registered, and the requests made of it and of the
    game. Both components share these. */
module HotUpdateEvents {

  /** `jsb.EventAssetsManager` event codes. */
  datatype EventCode =
    | ErrorNoLocalManifest
    | ErrorDownloadManifest
    | ErrorParseManifest
    | NewVersionFound
    | AlreadyUpToDate
    | UpdateProgression
    | AssetUpdated
    | ErrorUpdating
    | UpdateFinished
    | UpdateFailed
    | ErrorDecompress

  /** The event callback registered with the assets manager. */
  datatype Listener = NoListener | CheckListener | UpdateListener

  /** A request to the assets manager or the running game. */
  datatype Request =
    | LoadLocalManifest
    | CheckForUpdate
    | StartUpdate
    | DownloadFailedAssets
    | EnterGame(bundle: string)
    | Restart

  /** The codes `checkCb` has a case for; any other code returns early. */
  predicate CheckHandled(code: EventCode) {
    code.ErrorNoLocalManifest? || code.ErrorDownloadManifest? || code.ErrorParseManifest?
    || code.AlreadyUpToDate? || code.NewVersionFound?
  }

  /** The codes after which `updateCb` gives up the update. */
  predicate UpdateGivenUp(code: EventCode) {
    code.ErrorNoLocalManifest? || code.ErrorDownloadManifest? || code.ErrorParseManifest?
    || code.AlreadyUpToDate?
  }
}
