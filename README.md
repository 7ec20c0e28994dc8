# Predigtdienst hour logger — a Dafny model of its core

`predigtdienst_pwa/app.js` is a one-page app for logging service hours by month. It keeps
two lists: general entries, each tagged with one of nine service types, and LDC entries,
which have no type. Both lists live in `localStorage`. The app also shows totals, either
all-time or for a *service year* running from September to August. This project models
the logic of that page:

- **Registry** (`registry.dfy`): the ordered list `SERVICE_TYPES` and its first element,
  which is used as the fallback selection.
- **Store** (`store.dfy`): entries, LDC entries and the dataset. Also the shape
  normalisation that `loadData` and `importJsonFile` apply to a parsed document, and what
  `saveData`/`exportJson` write. `JSON.parse` is treated as opaque: its outcome is either
  "not JSON" or a document value.
- **Dates** (`dates.dfy`):
  - `getEntryDate`, the zero-padded `YYYY-MM-01` key, together with its two errors.
  - `isInServiceYear`, including how it re-parses the key with `split("-")` and
    `parseInt`.
  - The service-year start used by the overview.
  - `prevMonth`/`nextMonth`.
- **JsText** (`js_text.dfy`): the JavaScript built-ins those rely on, written out
  precisely: `parseInt(s, 10)` (leading white space, sign, digit run, NaN),
  `String(n)`, `padStart` and `split`.
- **Aggregates** (`aggregates.dfy`):
  - The summing loops `hoursByServiceAllTime`, `serviceYearSummary` and
    `serviceYearLdcTotal`, written as methods with loop invariants.
  - The `reduce` totals, written as functions.
  - The figures `showOverview` computes.
- **Session** (`session.dfy`): the live `state` object as a class. Its fields are the
  dataset, the counters `gH/gM/lH/lM` and the storage slot. Its methods are the "+1h"
  buttons, `add15`, `reset`, `saveData`, a tile selection, `saveGeneral`, `saveLdc` and
  the import.

Hours are integers counting hundredths of an hour. Minutes are always 0, 15, 30 or 45
when a save gets through its check, so `Number((h + m/60).toFixed(2))` equals exactly
`h*100 + m*5/3` hundredths, and the model needs no floating point.

Points where the code behaves in ways a reader may not expect (the model follows the code):

- A loaded or imported `selected_service` is kept whenever it is a non-empty string,
  even if it is not a known service type. Only a falsy value falls back to the first type.
- Selecting a tile changes `selected_service` without saving. The next save writes it.
- The export/import round trip gives the data back only when a service is selected,
  that is, when `selected_service` is not the empty string. Every state the app can reach
  satisfies this (`AppState.Valid`).
- The overview's service-year "general" figure is the sum of the per-service table. So,
  unlike the all-time general figure, it leaves out entries whose service type is unknown.
- `isInServiceYear` only rejects a year or month that parses to NaN or 0. A stored key
  such as "2024-13-01" therefore counts for the service year 2024. Keys written by
  `getEntryDate` never have such months (`KeyInServiceYear`).
- A key written for year 0 ("0000-MM-01") is in no service year, because its year parses
  to 0 (`YearZeroInNoServiceYear`). That is why the containment lemma for the overview
  month starts at year 1.
- `getEntryDate` accepts a negative year, because `parseInt("-5")` is finite. The key then
  carries a minus sign after the padding zeros ("00-5-09-01") or at the front
  ("-2024-09-01"). Its first `-`-separated field is then all zeros or empty, so such a key
  is in no service year (`NegativeYearInNoServiceYear`).

## Model

| member | source | states |
|---|---|---|
| Registry.DefaultService | predigtdienst_pwa/app.js:1-11 | the fallback selection is a non-empty, known service type |
| Registry.ServiceTypesDistinct | predigtdienst_pwa/app.js:1-11 | there are nine service types and none is listed twice |
| JsText.ParseInt | predigtdienst_pwa/app.js:102 | `parseInt(s, 10)`; its white-space skip and digit run are pinned down by `TrimStartIsLongestSuffix` and `LeadingDigitsIsLongest`, and its value on padded numerals by `ParseIntPadded` |
| JsText.Split | predigtdienst_pwa/app.js:102 | `split("-")` gives at least one field and no field contains a "-"; `JoinSplit` shows that nothing is lost |
| JsText.PadStart | predigtdienst_pwa/app.js:77 | the result has the requested width (or the text's own length if that is larger), ends with the text, and is filled in front with the fill character |
| JsText.IntToString | predigtdienst_pwa/app.js:77 | `String(y)` for an integer; `DigitsValueOfNatToDigits` shows that it reads back to the number |
| JsText.TrimStartIsLongestSuffix | predigtdienst_pwa/app.js:102 | `parseInt` drops exactly the leading white space: what is cut off is white space, what remains does not start with it |
| JsText.LeadingDigitsIsLongest | predigtdienst_pwa/app.js:102 | the digits `parseInt` reads are the longest digit prefix, ended by the end of the text or a non-digit |
| JsText.JoinSplit | predigtdienst_pwa/app.js:102 | `split("-")` loses nothing: joining the fields with "-" gives the text back |
| JsText.DigitsValueOfNatToDigits | predigtdienst_pwa/app.js:77 | reading the decimal numeral `String(n)` gives `n` back |
| JsText.DigitsValueLeadingZeros | predigtdienst_pwa/app.js:77 | the zeros `padStart` adds do not change the value of the numeral |
| JsText.ParseIntPadded | predigtdienst_pwa/app.js:77 | `parseInt` of a zero-padded numeral of `n` is `n` |
| JsText.ParseIntZeros | predigtdienst_pwa/app.js:102 | `parseInt` of a run of zeros is 0, and of the empty string NaN |
| JsText.PaddedNegativeFirstField | predigtdienst_pwa/app.js:77 | once the numeral of a negative number is zero-padded, the text before its first "-" parses to NaN or 0 |
| Store.SelectedOrDefault | predigtdienst_pwa/app.js:56 | the selection is the stored one if it is a non-empty string, otherwise the first service type; never empty |
| Store.Normalise | predigtdienst_pwa/app.js:53-57 | a parsed document gives data with a non-empty selection; only a `null` document gives none (reading its fields throws) |
| Store.Load | predigtdienst_pwa/app.js:47-61 | loading never fails: nothing stored, unparsable text and `null` all give the default data; any other parsed document gives its normalisation, the same one an import installs; the selection is never empty |
| Store.DefaultData | predigtdienst_pwa/app.js:39-45 | no entries and the first service type selected; `Load` returns it for nothing stored, unparsable text and `null` |
| Store.Serialise | predigtdienst_pwa/app.js:63-66 | what `saveData` and `exportJson` write; `LoadSerialised` and `ImportSerialised` read it back to the same data |
| Store.Import | predigtdienst_pwa/app.js:277-295 | an import succeeds exactly when the text parses to a non-null document: unparsable text and `null` are refused with their own errors, and a success yields the same normalisation that loading applies |
| Store.LoadSerialised | predigtdienst_pwa/app.js:47-66 | loading what `saveData` wrote gives the saved data back |
| Store.ImportSerialised | predigtdienst_pwa/app.js:266-295 | importing an exported file gives the exported data back |
| Store.NormaliseIdempotent | predigtdienst_pwa/app.js:282-286 | normalising, saving and normalising again changes nothing |
| Store.LoadNonArrayEntries | predigtdienst_pwa/app.js:54 | an `entries` field that is not an array loads as no entries, and the other fields are kept |
| Dates.DateKey | predigtdienst_pwa/app.js:77 | the key `getEntryDate` writes; `DateKeyFields`, `DateKeyRoundTrip` and the examples below characterise it |
| Dates.IsInServiceYear | predigtdienst_pwa/app.js:101-109 | the service-year test on a stored date; `KeyInServiceYear`, `ServiceYearIsTwelveMonths`, `ServiceYearUnique` and the year-0, negative-year and empty-date lemmas characterise it |
| Dates.StartYear | predigtdienst_pwa/app.js:235 | for a month in 1..12, the chosen start year is the one whose September-to-August window contains that month |
| Dates.EntryDate | predigtdienst_pwa/app.js:72-78 | the key is refused exactly when the year is NaN or the month is outside 1..12, the year being checked first; for a year of 0 or more, the key reads back as that year and month |
| Dates.DateKeyFields | predigtdienst_pwa/app.js:77 | for a year of 0 or more, the key splits into a numeral of at least four digits for the year, two digits for the month, and "01"; a negative year's key splits differently (see `NegativeYearInNoServiceYear`) |
| Dates.DateKeyRoundTrip | predigtdienst_pwa/app.js:72-109 | for a year of 0 or more, `isInServiceYear` parses a key made by `getEntryDate` back to the year and month it was made from; a negative year's key does not read back (its first field parses to NaN or 0, see `NegativeYearInNoServiceYear`) |
| Dates.DateKeyExamples | predigtdienst_pwa/app.js:77 | the key of September 2024 is "2024-09-01" |
| Dates.DateKeySmallYear | predigtdienst_pwa/app.js:77 | a year below 1000 is padded to four digits: December of year 5 is "0005-12-01" |
| Dates.KeyInServiceYear | predigtdienst_pwa/app.js:101-109 | for a year y of 0 or more, a key made for (y, m) is in the service year starting in Y iff y is not 0 and either y = Y with m ≥ 9, or y = Y+1 with m ≤ 8; a key made for a negative year is in no service year (`NegativeYearInNoServiceYear`) |
| Dates.ServiceYearIsTwelveMonths | predigtdienst_pwa/app.js:100-109 | for a real month of a non-zero year, the service year starting in Y is exactly the twelve months from September Y to August Y+1 |
| Dates.ServiceYearUnique | predigtdienst_pwa/app.js:101-109 | a date lies in at most one service year |
| Dates.ServiceYearExamples | predigtdienst_pwa/app.js:101-109 | the service year 2024 holds September 2024 and August 2025, but not September 2025 or January 2024 |
| Dates.YearZeroInNoServiceYear | predigtdienst_pwa/app.js:103 | a key written for year 0 is in no service year |
| Dates.NegativeYearInNoServiceYear | predigtdienst_pwa/app.js:72-109 | a key written for a negative year is in no service year |
| Dates.EmptyDateInNoServiceYear | predigtdienst_pwa/app.js:114 | an empty date is in no service year, so the `!e.date` guard skips nothing the test would count |
| Dates.StartYearContainsMonth | predigtdienst_pwa/app.js:235 | for a year from 1 on and a month in 1..12, the month's key lies in the service year the overview derives from that month |
| Dates.NextMonth | predigtdienst_pwa/app.js:308-316 | from a month in 1..12, the result is again in 1..12 and exactly one month later, December wrapping into the next year |
| Dates.PrevMonth | predigtdienst_pwa/app.js:298-306 | from a month in 1..12, the result is again in 1..12 and exactly one month earlier, January wrapping into the previous year |
| Dates.NextPrevRoundTrip | predigtdienst_pwa/app.js:298-316 | `prevMonth` after `nextMonth`, and `nextMonth` after `prevMonth`, give the original year and month |
| Aggregates.TotalHours | predigtdienst_pwa/app.js:92-94 | the all-time general total; `TotalHoursAppend`, `ServiceYearSplitsTotal` and `KnownTotalOfKnownEntries` relate it to appends, the service year and the per-service table |
| Aggregates.LdcTotal | predigtdienst_pwa/app.js:96-98 | the all-time LDC total; `LdcTotalAppend` and `SavedLdcEntryInItsServiceYear` relate it to saves |
| Aggregates.HoursByServiceAllTime | predigtdienst_pwa/app.js:84-90 | the table has exactly the service types as keys, and each holds the sum of the hours logged under that type; entries of other types add nothing |
| Aggregates.ServiceYearSummary | predigtdienst_pwa/app.js:111-119 | the same table, over exactly the entries in the service year starting in `startYear` |
| Aggregates.ServiceYearLdcTotal | predigtdienst_pwa/app.js:121-129 | the LDC hours of exactly the LDC entries in the service year |
| Aggregates.InServiceYearMembers | predigtdienst_pwa/app.js:113-116 | an entry is counted for a service year iff it is logged and its date lies in that year |
| Aggregates.LdcInServiceYearMembers | predigtdienst_pwa/app.js:123-126 | an LDC entry is counted for a service year iff it is logged and its date lies in that year |
| Aggregates.SumAcrossServiceTypes | predigtdienst_pwa/app.js:84-90 | the per-service sums add up to the hours of the entries with a known service type |
| Aggregates.SumAcrossAppend | predigtdienst_pwa/app.js:87 | one more entry adds its hours to the sum over distinct service types iff its type is among them |
| Aggregates.SumValuesOfSums | predigtdienst_pwa/app.js:242 | summing the values of a table of per-service sums gives the sum across the service types |
| Aggregates.KnownTotalOfKnownEntries | predigtdienst_pwa/app.js:92-94 | when every entry has a known type, the per-service table accounts for the whole general total |
| Aggregates.ServiceYearSplitsTotal | predigtdienst_pwa/app.js:92-119 | the hours inside a service year plus those outside it make up the general total |
| Aggregates.TotalHoursAppend | predigtdienst_pwa/app.js:92-94 | appending an entry adds its hours to the general total |
| Aggregates.ServiceSumAppend | predigtdienst_pwa/app.js:87 | appending an entry adds its hours to its own service type's sum only |
| Aggregates.KnownTotalAppend | predigtdienst_pwa/app.js:87 | appending an entry adds its hours to the known total iff its type is known |
| Aggregates.LdcTotalAppend | predigtdienst_pwa/app.js:96-98 | appending an LDC entry adds its hours to the LDC total |
| Aggregates.SavedEntryInItsServiceYear | predigtdienst_pwa/app.js:199-242 | an entry saved for a month joins the service year the overview shows for that month, and adds its hours to that year's general figure iff its type is known |
| Aggregates.SavedLdcEntryInItsServiceYear | predigtdienst_pwa/app.js:216-243 | an LDC entry saved for a month adds its hours to the LDC figure of that month's service year |
| Aggregates.ShowOverview | predigtdienst_pwa/app.js:232-243 | the overview uses the service year that holds the selected month; it shows the per-service table, the all-time general and LDC totals, the year's general figure (the known-type hours in that year) and the year's LDC hours |
| Session.CentiHours | predigtdienst_pwa/app.js:80-82 | for quarter-hour minutes, the rounded hours equal the composed minutes exactly, and they are positive iff the composed time is |
| Session.TrolleyScenario | predigtdienst_pwa/app.js:199-213 | 1 h 15 min of "Trolley" saved for September 2024 is 1.25 h, and both the all-time table and the service year 2024 count it under "Trolley" |
| Session.AppState.constructor | predigtdienst_pwa/app.js:132-138 | the page starts with the loaded data and all counters at zero |
| Session.AppState.AddHour | predigtdienst_pwa/app.js:323-330 | adds one hour to the bucket; its minutes, the other bucket, the data and the slot are unchanged |
| Session.AppState.Add15 | predigtdienst_pwa/app.js:178-191 | the bucket's composed time grows by exactly 15 minutes; minutes in range stay in range, quarter minutes stay quarters, and the other bucket is untouched |
| Session.AppState.Reset | predigtdienst_pwa/app.js:193-197 | the bucket's hours and minutes become 0 and nothing else changes |
| Session.AppState.SaveData | predigtdienst_pwa/app.js:63-66 | the slot holds the serialised data, which loads back to the data |
| Session.AppState.SelectService | predigtdienst_pwa/app.js:160-161 | only the selected service type changes |
| Session.AppState.SaveGeneral | predigtdienst_pwa/app.js:199-214 | a bad year, a bad month or non-quarter minutes throws, and a non-positive time does nothing: in all these cases no field changes. Otherwise exactly one entry (key, selected type, composed hours) is appended, the general counters are zeroed and the data is saved |
| Session.AppState.SaveLdc | predigtdienst_pwa/app.js:216-230 | the same rules as `SaveGeneral` for the LDC counters and LDC entries |
| Session.AppState.ImportJsonFile | predigtdienst_pwa/app.js:277-295 | a failed import changes nothing; a successful one replaces the data with the normalised document, saves it and leaves the counters alone |

## Left out

- DOM rendering and wiring: `renderTiles`, `refreshTimeLabels`, `setStatus`, the report
  text and dialog of `showOverview`, and `init`. Only the state changes behind the
  buttons and tiles are modelled.
- `localStorage`, `JSON.parse` and `JSON.stringify`. The storage value is a field holding
  the outcome of `JSON.parse`. `null` (which makes reading a field throw) is told apart
  from other values, and a number, string or boolean behaves like an object without the
  three fields.
- Browser file handling: `Blob`, object URLs and the download in `exportJson`, and
  `FileReader` and `alert` in `importJsonFile`. Export is modelled only as the serialised
  data, and import starts from the text once it has been read.
- The year and month inputs are given already parsed: an integer, or `None` for NaN.
  `parseInt` of the DOM text is not modelled. `prevMonth`/`nextMonth` and `showOverview`
  are modelled on integers only, not on NaN. With a NaN year, `showOverview`'s start year
  is NaN and no entry matches. With a finite year and a NaN month it reports the service
  year starting in `y - 1`, as for months 1 to 8. The model takes integers only and
  states neither case.
- JavaScript number semantics. Stored hours are integer hundredths, so
  `Number(e.hours || 0)` coercion of arbitrary imported values and floating-point
  rounding in the sums are not modelled. Nor are integers beyond 2^53 and years of 10^21
  or more, which `String` writes in exponent notation.
- The elements of `entries` and `ldc_entries` are taken to be entry objects. Loading and
  importing check only that each field is an array, so an element such as `null`
  survives normalisation and is saved. Reading `service_type`, `hours` or `date` from it
  then makes the summing loops and reductions, and with them the overview, throw. That
  exception path is not modelled.
- Entries whose `service_type` names an inherited `Object.prototype` member, such as
  "toString": the source's `res[...] != null` test lets them through, but the model
  treats them as unknown types. Dates and selections that are not strings are not
  modelled either.
- The display tables `TILE_TOP`/`TILE_BOTTOM` and their fallbacks, and the status texts.
