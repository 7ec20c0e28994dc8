/** The logged data (`state.data`): general entries, LDC entries and the selected
    service type, with the normalisation applied when it is loaded from storage or
    imported from a file. */
module Store {
  import opened Wrappers
  import opened Registry

  /** A general entry: the month key ("YYYY-MM-01"), the service type it was logged
      under and its hours in hundredths of an hour. */
  datatype Entry = Entry(date: string, serviceType: string, hours: int)

  /** An LDC entry: a month key and hours in hundredths of an hour. */
  datatype LdcEntry = LdcEntry(date: string, hours: int)

  datatype Dataset = Dataset(entries: seq<Entry>, ldcEntries: seq<LdcEntry>, selectedService: string)

  /** A field of a parsed document that ought to hold an array: either it does, or it
      is missing or holds something else. */
  datatype RawList<T> = NotAnArray | AnArray(items: seq<T>)

  /** The value `JSON.parse` returned. A number, string or boolean reads like an object
      whose three fields are missing; `selectedService` is `None` when the field is
      missing or holds a falsy value that is not a string. */
  datatype JsonDoc =
    | JsonNull
    | JsonObject(entries: RawList<Entry>, ldcEntries: RawList<LdcEntry>, selectedService: Option<string>)

  /** The outcome of `JSON.parse` on a stored or imported text. */
  datatype Text = Unparsable | Parsed(doc: JsonDoc)

  /** Why an import is refused: the text is not JSON, or it is `null` (reading a field
      of it throws). */
  datatype ImportError = NotJson | NullDocument

  /** `defaultData()`: no entries and the first service type selected. */
  function DefaultData(): Dataset {
    Dataset([], [], DefaultService())
  }

  function ArrayOrEmpty<T>(field: RawList<T>): seq<T> {
    match field
    case AnArray(items) => items
    case NotAnArray => []
  }

  /** `obj.selected_service || SERVICE_TYPES[0]`. */
  function SelectedOrDefault(selected: Option<string>): (s: string)
    ensures s != ""
    ensures selected.Some? && selected.value != "" ==> s == selected.value
    ensures (selected.None? || selected.value == "") ==> s == DefaultService()
  {
    if selected.Some? && selected.value != "" then selected.value else DefaultService()
  }

  /** The object literal that `loadData` and `importJsonFile` build from a parsed
      document: fields that are not arrays become empty lists and a falsy selection
      becomes the first service type. `None` when the document is `null`. */
  function Normalise(doc: JsonDoc): (r: Option<Dataset>)
    ensures r.None? <==> doc.JsonNull?
    ensures r.Some? ==> r.value.selectedService != ""
  {
    match doc
    case JsonNull => None
    case JsonObject(entries, ldcEntries, selected) =>
      Some(Dataset(ArrayOrEmpty(entries), ArrayOrEmpty(ldcEntries), SelectedOrDefault(selected)))
  }

  /** `loadData` on the storage slot (`None`: nothing or an empty string stored): every
      failure falls back to the default data, and nothing is ever thrown. */
  function Load(slot: Option<Text>): (d: Dataset)
    ensures d.selectedService != ""
    ensures slot.None? || slot == Some(Unparsable) || slot == Some(Parsed(JsonNull)) ==> d == DefaultData()
    ensures slot.Some? && slot.value.Parsed? && slot.value.doc.JsonObject? ==> Some(d) == Normalise(slot.value.doc)
  {
    match slot
    case None => DefaultData()
    case Some(Unparsable) => DefaultData()
    case Some(Parsed(doc)) =>
      match Normalise(doc)
      case None => DefaultData()
      case Some(d) => d
  }

  /** `JSON.stringify(state.data)` read back by `JSON.parse`: what `saveData` stores
      and `exportJson` writes. */
  function Serialise(d: Dataset): Text {
    Parsed(JsonObject(AnArray(d.entries), AnArray(d.ldcEntries), Some(d.selectedService)))
  }

  /** The data an import would install, or why it is refused. */
  function Import(text: Text): (r: Result<Dataset, ImportError>)
    ensures text.Unparsable? ==> r == Err(NotJson)
    ensures text == Parsed(JsonNull) ==> r == Err(NullDocument)
    ensures r.Ok? <==> text.Parsed? && text.doc.JsonObject?
    ensures r.Ok? ==> text.Parsed? && Some(r.value) == Normalise(text.doc)
  {
    match text
    case Unparsable => Err(NotJson)
    case Parsed(doc) =>
      match Normalise(doc)
      case None => Err(NullDocument)
      case Some(d) => Ok(d)
  }

  /** Loading what was saved gives the saved data back, provided a service is selected. */
  lemma LoadSerialised(d: Dataset)
    requires d.selectedService != ""
    ensures Load(Some(Serialise(d))) == d
  {
  }

  /** Importing an exported file gives the exported data back. */
  lemma ImportSerialised(d: Dataset)
    requires d.selectedService != ""
    ensures Import(Serialise(d)) == Ok(d)
  {
  }

  /** Normalising is idempotent: saving normalised data and loading it again changes
      nothing. */
  lemma NormaliseIdempotent(doc: JsonDoc)
    requires doc.JsonObject?
    ensures Normalise(Serialise(Normalise(doc).value).doc) == Normalise(doc)
  {
  }

  /** A document whose `entries` is not an array loads with no entries, keeping the rest. */
  lemma LoadNonArrayEntries(ldc: RawList<LdcEntry>, selected: Option<string>)
    ensures Load(Some(Parsed(JsonObject(NotAnArray, ldc, selected)))) ==
              Dataset([], ArrayOrEmpty(ldc), SelectedOrDefault(selected))
  {
  }
}
