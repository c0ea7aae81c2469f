/**
 * The form store (src/lib/storage.ts): the published and draft schema slots, the list of
 * form submissions, and the maintenance helpers, all kept in localStorage.
 */
module Storage {
  import opened Wrappers
  import opened Js
  import opened Schema
  import opened LocalStore

  const PublishedKey: string := "thardraw:schema:published"
  const DraftKey: string := "thardraw:schema:draft"
  const SubmissionKey: string := "thardraw:form_submission"
  /** The keys `clearAllStoredData` removes, in the order `Object.values` lists them. */
  const SlotKeys: seq<string> := [PublishedKey, DraftKey, SubmissionKey]
  const TestKey: string := "thardraw:test"

  /** The schema a slot holds, when it is present, truthy and parses as a schema. */
  function StoredSchema(items: map<string, Item>, key: string): (r: Option<FormSchema>)
    ensures key !in items ==> r.None?
    ensures key in items && items[key].Raw? ==> r.None?
    ensures forall s :: key in items && items[key] == Json(SchemaDoc(s)) ==> r == Some(s)
  {
    if key in items && items[key].Json? && items[key].doc.SchemaDoc? then Some(items[key].doc.schema)
    else None
  }

  /** What fetching the schema URL gives: a network failure, or a response with its status
      and its body, which may fail to parse. */
  datatype Fetched = Unreachable | Response(ok: bool, body: Option<FormSchema>)

  /** The URL is configured and answered with an ok response whose body parsed. */
  predicate FromUrl(schemaUrl: Option<string>, fetched: Fetched) {
    schemaUrl.Some? && schemaUrl.value != "" && fetched.Response? && fetched.ok && fetched.body.Some?
  }

  /** `loadPublishedSchema`: the URL's schema, else the stored published schema, else the
      default schema; no source failing makes it throw. */
  method LoadPublishedSchema(ls: LocalStorage, schemaUrl: Option<string>, fetched: Fetched)
    returns (schema: FormSchema)
    ensures FromUrl(schemaUrl, fetched) ==> schema == fetched.body.value
    ensures !FromUrl(schemaUrl, fetched) && StoredSchema(ls.items, PublishedKey).Some? ==>
      schema == StoredSchema(ls.items, PublishedKey).value
    ensures !FromUrl(schemaUrl, fetched) && StoredSchema(ls.items, PublishedKey).None? ==>
      schema == DefaultFormSchema
  {
    if schemaUrl.Some? && schemaUrl.value != "" {
      if fetched.Response? && fetched.ok && fetched.body.Some? {
        return fetched.body.value;
      }
    }
    if PublishedKey in ls.items {
      var stored := ls.items[PublishedKey];
      if stored.Json? && stored.doc.SchemaDoc? {
        return stored.doc.schema;
      }
    }
    return DefaultFormSchema;
  }

  /** `savePublishedSchema`: writes the published slot only, and throws when the store
      refuses the write. */
  method SavePublishedSchema(ls: LocalStorage, schema: FormSchema) returns (threw: bool)
    modifies ls
    ensures threw == !old(ls.writable) && ls.writable == old(ls.writable)
    ensures threw ==> ls.items == old(ls.items)
    ensures !threw ==> ls.items == old(ls.items)[PublishedKey := Json(SchemaDoc(schema))]
    ensures !threw ==> StoredSchema(ls.items, PublishedKey) == Some(schema)
  {
    var ok := ls.SetItem(PublishedKey, Json(SchemaDoc(schema)));
    threw := !ok;
  }

  /** `loadDraftSchema`: the draft slot's schema, or null when it is absent or unparsable. */
  function LoadDraftSchema(ls: LocalStorage): (r: Option<FormSchema>)
    reads ls
    ensures r.Some? <==> DraftKey in ls.items && ls.items[DraftKey].Json? && ls.items[DraftKey].doc.SchemaDoc?
    ensures r.Some? ==> ls.items[DraftKey] == Json(SchemaDoc(r.value))
  {
    StoredSchema(ls.items, DraftKey)
  }

  /** `saveDraftSchema`: writes the draft slot only, after which loading the draft gives the
      saved schema back; throws when the store refuses the write. */
  method SaveDraftSchema(ls: LocalStorage, schema: FormSchema) returns (threw: bool)
    modifies ls
    ensures threw == !old(ls.writable) && ls.writable == old(ls.writable)
    ensures threw ==> ls.items == old(ls.items)
    ensures !threw ==> ls.items == old(ls.items)[DraftKey := Json(SchemaDoc(schema))]
    ensures !threw ==> LoadDraftSchema(ls) == Some(schema)
  {
    var ok := ls.SetItem(DraftKey, Json(SchemaDoc(schema)));
    threw := !ok;
  }

  /** `getFormSubmissions`: the stored list, or `[]` when the slot is absent or unparsable. */
  function GetFormSubmissions(items: map<string, Item>): (r: seq<Record>)
    ensures SubmissionKey !in items ==> r == []
    ensures SubmissionKey in items && !(items[SubmissionKey].Json? && items[SubmissionKey].doc.SubmissionsDoc?) ==> r == []
    ensures forall rs :: SubmissionKey in items && items[SubmissionKey] == Json(SubmissionsDoc(rs)) ==> r == rs
  {
    if SubmissionKey in items && items[SubmissionKey].Json? && items[SubmissionKey].doc.SubmissionsDoc? then
      items[SubmissionKey].doc.records
    else []
  }

  /** `{...data, submittedAt}`. */
  function Stamped(data: Record, now: string): (r: Record)
    ensures r.Keys == data.Keys + {"submittedAt"} && r["submittedAt"] == Str(now)
    ensures forall k :: k in data && k != "submittedAt" ==> r[k] == data[k]
  {
    data["submittedAt" := Str(now)]
  }

  /** `storeFormSubmission`: appends the stamped record to the stored list, keeping every
      earlier entry in order; a refused write is swallowed and changes nothing. */
  method StoreFormSubmission(ls: LocalStorage, data: Record, now: string)
    modifies ls
    ensures ls.writable == old(ls.writable)
    ensures !old(ls.writable) ==> ls.items == old(ls.items)
    ensures old(ls.writable) ==>
      ls.items == old(ls.items)[SubmissionKey := Json(SubmissionsDoc(old(GetFormSubmissions(ls.items)) + [Stamped(data, now)]))]
    ensures old(ls.writable) ==>
      GetFormSubmissions(ls.items) == old(GetFormSubmissions(ls.items)) + [Stamped(data, now)]
  {
    var submissions := GetFormSubmissions(ls.items);
    submissions := submissions + [Stamped(data, now)];
    var _ := ls.SetItem(SubmissionKey, Json(SubmissionsDoc(submissions)));
  }

  /** `clearAllStoredData`: removes the three slots, one after the other, and nothing else. */
  method ClearAllStoredData(ls: LocalStorage)
    modifies ls
    ensures ls.writable == old(ls.writable)
    ensures ls.items == old(ls.items) - {PublishedKey, DraftKey, SubmissionKey}
  {
    for i := 0 to |SlotKeys|
      invariant ls.writable == old(ls.writable)
      invariant ls.items == old(ls.items) - (set j | 0 <= j < i :: SlotKeys[j])
    {
      ls.RemoveItem(SlotKeys[i]);
      assert (set j | 0 <= j < i + 1 :: SlotKeys[j]) == (set j | 0 <= j < i :: SlotKeys[j]) + {SlotKeys[i]};
    }
    assert (set j | 0 <= j < 3 :: SlotKeys[j]) == {PublishedKey, DraftKey, SubmissionKey} by {
      assert SlotKeys[0] == PublishedKey && SlotKeys[1] == DraftKey && SlotKeys[2] == SubmissionKey;
    }
  }

  /** `checkStorageAvailability`: writes and removes a test key. When the write is refused the
      store is unchanged and the error is the thrown Error's message, or a fixed text when
      what was thrown is not an Error. On success the store differs at most by lacking the
      test key, so it is unchanged when that key was not there before. */
  method CheckStorageAvailability(ls: LocalStorage, thrownMessage: Option<string>)
    returns (available: bool, error: Option<string>)
    modifies ls
    ensures available == old(ls.writable) && ls.writable == old(ls.writable)
    ensures available ==> error.None? && ls.items == old(ls.items) - {TestKey}
    ensures available && TestKey !in old(ls.items) ==> ls.items == old(ls.items)
    ensures !available ==> ls.items == old(ls.items) && error == Some(thrownMessage.GetOr("Storage not available"))
  {
    var ok := ls.SetItem(TestKey, Raw("test"));
    if ok {
      ls.RemoveItem(TestKey);
      available, error := true, None;
    } else {
      available, error := false, Some(thrownMessage.GetOr("Storage not available"));
    }
  }
}
