/** window.localStorage as the hooks use it: a map from keys to strings
    that may be inaccessible (private browsing, a full quota), in which case
    every access throws. */
module BrowserStorage {
  import opened Common

  /** The error a storage access throws. */
  datatype StorageError = StorageUnavailable

  class LocalStorage {
    var items: map<string, string>
    var accessible: bool

    constructor (items0: map<string, string>, accessible0: bool)
      ensures items == items0 && accessible == accessible0
    {
      items := items0;
      accessible := accessible0;
    }

    /** getItem: the stored string or null; throws when inaccessible. */
    method GetItem(key: string) returns (r: Result<Option<string>, StorageError>)
      ensures accessible ==> r == Ok(if key in items then Some(items[key]) else None)
      ensures !accessible ==> r == Err(StorageUnavailable)
    {
      if !accessible {
        return Err(StorageUnavailable);
      }
      r := Ok(if key in items then Some(items[key]) else None);
    }

    /** setItem: overwrites the key; throws, changing nothing, when
        inaccessible. */
    method SetItem(key: string, value: string) returns (r: Result<(), StorageError>)
      modifies this
      ensures accessible == old(accessible)
      ensures old(accessible) ==> r == Ok(()) && items == old(items)[key := value]
      ensures !old(accessible) ==> r == Err(StorageUnavailable) && items == old(items)
    {
      if !accessible {
        return Err(StorageUnavailable);
      }
      items := items[key := value];
      r := Ok(());
    }

    /** removeItem: deletes the key; throws, changing nothing, when
        inaccessible. */
    method RemoveItem(key: string) returns (r: Result<(), StorageError>)
      modifies this
      ensures accessible == old(accessible)
      ensures old(accessible) ==> r == Ok(()) && items == old(items) - {key}
      ensures !old(accessible) ==> r == Err(StorageUnavailable) && items == old(items)
    {
      if !accessible {
        return Err(StorageUnavailable);
      }
      items := items - {key};
      r := Ok(());
    }
  }
}
