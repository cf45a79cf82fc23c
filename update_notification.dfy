/** useUpdateNotification: the "what's new" dialog, shown until the user
    acknowledges the current version with "do not show again". The
    acknowledged version lives in localStorage; the current version is a
    parameter (the update-info constants are not part of this model). */
module UpdateNotification {
  import opened Common
  import opened BrowserStorage

  const ACK_KEY: string := "update_acknowledged_version"

  /** Whether the dialog starts open, given what reading the acknowledged
      version gave: open unless the read succeeded and found exactly the
      current version; a read error leaves it open. */
  function InitiallyOpen(read: Result<Option<string>, StorageError>, version: string): (open: bool)
    ensures !open <==> read == Ok(Some(version))
  {
    match read
    case Err(_) => true
    case Ok(stored) => stored != Some(version)
  }

  class Notification {
    var isOpen: bool
    const version: string

    /** The lazy initial state of isOpen. */
    constructor (storage: LocalStorage, currentVersion: string)
      ensures version == currentVersion
      ensures isOpen <==> (!storage.accessible || ACK_KEY !in storage.items
        || storage.items[ACK_KEY] != currentVersion)
    {
      version := currentVersion;
      var read := storage.GetItem(ACK_KEY);
      isOpen := InitiallyOpen(read, currentVersion);
    }

    /** handleClose: the dialog closes in every case; with doNotShowAgain
        the current version is stored (a write error is swallowed), without
        it the storage is left alone. */
    method HandleClose(doNotShowAgain: bool, storage: LocalStorage)
      modifies this, storage
      ensures !isOpen
      ensures storage.accessible == old(storage.accessible)
      ensures storage.items == if doNotShowAgain && old(storage.accessible)
        then old(storage.items)[ACK_KEY := version] else old(storage.items)
    {
      if doNotShowAgain {
        var _ := storage.SetItem(ACK_KEY, version);
      }
      isOpen := false;
    }
  }

  /** After "do not show again" on a working storage, the next start with
      the same version keeps the dialog closed; after a plain close it
      opens again if it would have before. */
  method CloseThenRestart(storage: LocalStorage, currentVersion: string, doNotShowAgain: bool)
    returns (reopened: bool)
    modifies storage
    ensures doNotShowAgain && old(storage.accessible) ==> !reopened
    ensures !doNotShowAgain ==> (reopened == (!old(storage.accessible) || ACK_KEY !in old(storage.items)
      || old(storage.items)[ACK_KEY] != currentVersion))
  {
    var n := new Notification(storage, currentVersion);
    n.HandleClose(doNotShowAgain, storage);
    var next := new Notification(storage, currentVersion);
    reopened := next.isOpen;
  }
}
