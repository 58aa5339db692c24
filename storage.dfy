/** The two persistence backends the core talks to, abstracted as maps:
    the file service (path to JSON object) and the browser's local storage
    (slot name to the value whose JSON text it holds). A backend call that
    raises is described by a Faults value passed to the core. */
module Storage {
  import opened Json

  /** Which backend calls of one operation raise, and with what message. */
  datatype Faults = Faults(onRead: Option<string>, onWrite: Option<string>)

  const NoFaults := Faults(None, None)

  /** The file service: one JSON object per relative path. */
  class FileStore {
    var files: map<string, Document>

    constructor (initial: map<string, Document>)
      ensures files == initial
    {
      files := initial;
    }

    /** readJson(path, { defaultToObject }): the stored object; a missing
        file is {} when defaultToObject is set and null otherwise. */
    function ReadJson(path: string, defaultToObject: bool): (r: Option<Document>)
      reads this
      ensures path in files ==> r == Some(files[path])
      ensures path !in files ==> r == if defaultToObject then Some(map[]) else None
    {
      if path in files then Some(files[path])
      else if defaultToObject then Some(map[])
      else None
    }

    /** writeJson(path, doc): replaces the file at path. */
    method WriteJson(path: string, doc: Document)
      modifies this
      ensures files == old(files)[path := doc]
    {
      files := files[path := doc];
    }
  }

  /** The browser's local storage. A slot holds JSON.stringify(v); since
      JSON.parse undoes JSON.stringify on JSON values, the slot is modelled
      by v itself. */
  class LocalStore {
    var items: map<string, Value>

    constructor (initial: map<string, Value>)
      ensures items == initial
    {
      items := initial;
    }

    method SetItem(key: string, v: Value)
      modifies this
      ensures items == old(items)[key := v]
    {
      items := items[key := v];
    }

    method RemoveItem(key: string)
      modifies this
      ensures items == old(items) - {key}
    {
      items := items - {key};
    }
  }
}
