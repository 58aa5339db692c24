/** The client's auth storage adapter: getAuthData, setAuthData and
    clearAuthData over either the desktop file backend (auth/session.json,
    merged writes stamped with updatedAt, cleared to {}) or the browser's
    single local-storage slot (replaced wholesale, removed on clear).
    Reads degrade to null and writes to a no-op on any backend fault. */
module AuthStorage {
  import opened Json
  import opened Storage

  const SessionFile := "auth/session.json"
  const StorageKey := "softwareAuth"
  const UpdatedAt := "updatedAt"

  /** The backend the environment offers; the desktop shell exposes the file service. */
  datatype Backend = Electron | Browser

  /** File backend read: null when the read raises, the file is missing or
      it holds an object without keys; the stored object otherwise. */
  function ReadFileRecord(files: map<string, Document>, faults: Faults): (r: Value)
    ensures r == Null <==> faults.onRead.Some? || SessionFile !in files || files[SessionFile] == map[]
    ensures r != Null ==> r == Obj(files[SessionFile])
  {
    if faults.onRead.Some? then Null
    else if SessionFile !in files then Null
    else if |files[SessionFile]| == 0 then Null
    else Obj(files[SessionFile])
  }

  /** Browser backend read: null when the read or the parse raises or the
      slot is empty; the stored value otherwise. */
  function ReadBrowserRecord(items: map<string, Value>, faults: Faults): (r: Value)
    ensures faults.onRead.Some? || StorageKey !in items ==> r == Null
    ensures faults.onRead.None? && StorageKey in items ==> r == items[StorageKey]
  {
    if faults.onRead.Some? || StorageKey !in items then Null else items[StorageKey]
  }

  /** getAuthData(): the stored auth record, or null; it never raises. */
  function GetAuthData(backend: Backend, fs: FileStore, ls: LocalStore, faults: Faults): (r: Value)
    reads fs, ls
    ensures faults.onRead.Some? ==> r == Null
    ensures backend == Electron && r != Null ==>
              SessionFile in fs.files && fs.files[SessionFile] != map[] && r == Obj(fs.files[SessionFile])
    ensures backend == Browser && r != Null ==> StorageKey in ls.items && r == ls.items[StorageKey]
    // with a working read, the stored record is what it returns
    ensures backend == Electron && faults.onRead.None? && SessionFile in fs.files && fs.files[SessionFile] != map[] ==>
              r == Obj(fs.files[SessionFile])
    ensures backend == Browser && faults.onRead.None? && StorageKey in ls.items ==> r == ls.items[StorageKey]
  {
    match backend
    case Electron => ReadFileRecord(fs.files, faults)
    case Browser => ReadBrowserRecord(ls.items, faults)
  }

  /** `{ ...existing, ...auth, updatedAt: now }`, given the properties
      `incoming` that `...auth` copies: they win over the existing
      record's, and updatedAt is stamped last. */
  function Merge(existing: Document, incoming: Document, now: string): (r: Document)
    ensures r.Keys == existing.Keys + incoming.Keys + {UpdatedAt}
    ensures r[UpdatedAt] == Str(now)
    ensures forall k :: k in incoming && k != UpdatedAt ==> r[k] == incoming[k]
    ensures forall k :: k in existing && k !in incoming && k != UpdatedAt ==> r[k] == existing[k]
  {
    existing + incoming + map[UpdatedAt := Str(now)]
  }

  /** The file store after clearing: {} is written unless the write raises. */
  function FilesAfterClear(files: map<string, Document>, faults: Faults): (r: map<string, Document>)
    ensures faults.onWrite.Some? ==> r == files
    ensures faults.onWrite.None? ==> SessionFile in r && r[SessionFile] == map[] && ReadFileRecord(r, NoFaults) == Null
    ensures forall p :: p != SessionFile ==> (p in r <==> p in files) && (p in files ==> r[p] == files[p])
  {
    if faults.onWrite.Some? then files else files[SessionFile := map[]]
  }

  /** The file store after setAuthData(auth) on the file backend. */
  function FilesAfterSet(files: map<string, Document>, auth: Value, now: string, faults: Faults): (r: map<string, Document>)
    // a falsy record clears
    ensures !Truthy(auth) ==> r == FilesAfterClear(files, faults)
    // a raising read or write leaves the store as it was
    ensures Truthy(auth) && (faults.onRead.Some? || faults.onWrite.Some?) ==> r == files
    // otherwise the record is merged over what was there and the next read sees it
    ensures Truthy(auth) && faults.onRead.None? && faults.onWrite.None? ==>
              var existing := if SessionFile in files then files[SessionFile] else map[];
              r == files[SessionFile := Merge(existing, Spread(auth), now)] &&
              ReadFileRecord(r, NoFaults) == Obj(Merge(existing, Spread(auth), now))
    ensures forall p :: p != SessionFile ==> (p in r <==> p in files) && (p in files ==> r[p] == files[p])
  {
    if !Truthy(auth) then FilesAfterClear(files, faults)
    else if faults.onRead.Some? then files
    else
      var existing := if SessionFile in files then files[SessionFile] else map[];
      var updated := Merge(existing, Spread(auth), now);
      if faults.onWrite.Some? then files else files[SessionFile := updated]
  }

  /** The browser slots after clearing: the slot is removed unless that raises. */
  function ItemsAfterClear(items: map<string, Value>, faults: Faults): (r: map<string, Value>)
    ensures faults.onWrite.Some? ==> r == items
    ensures faults.onWrite.None? ==> StorageKey !in r && ReadBrowserRecord(r, NoFaults) == Null
    ensures forall k :: k != StorageKey ==> (k in r <==> k in items) && (k in items ==> r[k] == items[k])
  {
    if faults.onWrite.Some? then items else items - {StorageKey}
  }

  /** The browser slots after setAuthData(auth): replaced wholesale. */
  function ItemsAfterSet(items: map<string, Value>, auth: Value, faults: Faults): (r: map<string, Value>)
    ensures !Truthy(auth) ==> r == ItemsAfterClear(items, faults)
    ensures Truthy(auth) && faults.onWrite.Some? ==> r == items
    ensures Truthy(auth) && faults.onWrite.None? ==> ReadBrowserRecord(r, NoFaults) == auth
    ensures forall k :: k != StorageKey ==> (k in r <==> k in items) && (k in items ==> r[k] == items[k])
  {
    if !Truthy(auth) then ItemsAfterClear(items, faults)
    else if faults.onWrite.Some? then items
    else items[StorageKey := auth]
  }

  /** setAuthData(auth): persists auth on the chosen backend; it never raises. */
  method SetAuthData(backend: Backend, fs: FileStore, ls: LocalStore, auth: Value, now: string, faults: Faults)
    modifies fs, ls
    ensures backend == Electron ==> fs.files == FilesAfterSet(old(fs.files), auth, now, faults) && ls.items == old(ls.items)
    ensures backend == Browser ==> ls.items == ItemsAfterSet(old(ls.items), auth, faults) && fs.files == old(fs.files)
  {
    if backend == Electron {
      if !Truthy(auth) {
        if faults.onWrite.None? {
          fs.WriteJson(SessionFile, map[]);
        }
        return;
      }
      if faults.onRead.Some? {
        return;
      }
      var stored := fs.ReadJson(SessionFile, false);
      var existing := if stored.Some? then stored.value else map[];
      var updated := Merge(existing, Spread(auth), now);
      if faults.onWrite.None? {
        fs.WriteJson(SessionFile, updated);
      }
      return;
    }
    if faults.onWrite.Some? {
      return;
    }
    if !Truthy(auth) {
      ls.RemoveItem(StorageKey);
    } else {
      ls.SetItem(StorageKey, auth);
    }
  }

  /** clearAuthData(): setAuthData(null). */
  method ClearAuthData(backend: Backend, fs: FileStore, ls: LocalStore, faults: Faults)
    modifies fs, ls
    ensures backend == Electron ==> fs.files == FilesAfterClear(old(fs.files), faults) && ls.items == old(ls.items)
    ensures backend == Browser ==> ls.items == ItemsAfterClear(old(ls.items), faults) && fs.files == old(fs.files)
  {
    SetAuthData(backend, fs, ls, Null, "", faults);
  }

  /** Write-then-read on the file backend: every field of a written object
      other than updatedAt reads back as written, fields it does not name
      keep their stored values, and updatedAt reads back as the stamp. */
  lemma FileWriteThenRead(files: map<string, Document>, fields: Document, now: string)
    ensures var r := ReadFileRecord(FilesAfterSet(files, Obj(fields), now, NoFaults), NoFaults);
            var existing := if SessionFile in files then files[SessionFile] else map[];
            r.Obj? && r.fields[UpdatedAt] == Str(now) &&
            (forall k :: k in fields && k != UpdatedAt ==> k in r.fields && r.fields[k] == fields[k]) &&
            (forall k :: k in existing && k !in fields && k != UpdatedAt ==> k in r.fields && r.fields[k] == existing[k])
  {
  }

  /** clearAuthData behaves exactly as setAuthData(null), whatever the clock. */
  lemma ClearIsSetNull(files: map<string, Document>, items: map<string, Value>, now: string, faults: Faults)
    ensures FilesAfterSet(files, Null, now, faults) == FilesAfterClear(files, faults)
    ensures ItemsAfterSet(items, Null, faults) == ItemsAfterClear(items, faults)
  {
  }
}
