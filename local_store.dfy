/**
 * The browser's localStorage as the stores in src/lib/storage.ts and src/lib/db.ts use it:
 * a map from keys to stored items, and a flag saying whether writes succeed.
 */
module LocalStore {
  import opened Js
  import opened Schema
  import opened Tickets

  /** A JSON document one of the stores writes. Serialising and parsing one is the identity. */
  datatype Doc =
    | SchemaDoc(schema: FormSchema)
    | SubmissionsDoc(records: seq<Record>)
    | TicketsDoc(tickets: seq<Ticket>)

  /** A stored string: plain text (the user id), or the serialisation of a document. */
  datatype Item = Raw(s: string) | Json(doc: Doc)

  /** The stored items; `writable` is false when `setItem` throws (storage full or disabled). */
  class LocalStorage {
    var items: map<string, Item>
    var writable: bool

    constructor(initial: map<string, Item>, canWrite: bool)
      ensures items == initial && writable == canWrite
    {
      items := initial;
      writable := canWrite;
    }

    /** `setItem(key, item)`, which throws (ok false) and stores nothing when not writable. */
    method SetItem(key: string, item: Item) returns (ok: bool)
      modifies this
      ensures ok == old(writable) && writable == old(writable)
      ensures items == if ok then old(items)[key := item] else old(items)
    {
      ok := writable;
      if ok {
        items := items[key := item];
      }
    }

    /** `removeItem(key)`, which never throws. */
    method RemoveItem(key: string)
      modifies this
      ensures writable == old(writable)
      ensures items == old(items) - {key}
    {
      items := items - {key};
    }
  }
}
