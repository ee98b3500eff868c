# python_batch_geocode in Dafny

A model of the batch geocoder `python_batch_geocode`: a script that reads a table of addresses,
sends each unresolved address to the Google Maps Geocoding API, stores the formatted address it
gets back in the row, writes partial results out as it goes, and pauses after failures so that it
can sit out the provider's rate limit. The model covers four source files:

- `python_batch_geocoding.py` (module `BatchGeocoding`, file `batch_geocoding.dfy`): the row loop of
  `main` as the method `RunBatch` over an `array<Row>` updated in place, the shared failure list
  `last_3_failures` as the class `FailureList`, and `assess_failures` as the method
  `AssessFailures`. The methods are proved against specification functions (`Run`, `Step`,
  `ChooseBreak`), and the lemmas about those functions state what a run does to the table, which
  calls, writes and pauses it records, and how the failure list grows. The events are kept in a
  ghost trace: `Call`, `Write` (with the whole table as written) and `Pause` (60 s or 5 s).
- `google.py` (module `Google`): the request URL, and `get_google_result` as a function from the
  decoded JSON response to either the raised `OverQueryLimit` or the flat output record; also the
  per-item wrapper `get_google_result_and_write_to_db`.
- `load_csv.py` (module `LoadCsv`): `load_input` as a method whose loop builds one entry per row,
  and `fix_address`.
- `geo_csv.py` (module `GeoCsv`): `load_input` with its per-column loop, and `fix_address`.

Supporting modules: `Wrappers` (Option, Result), `Cells` (cell values, rows as column-to-cell
maps, the "empty" predicate, Python exceptions) and `CommaText` (`",".join` and `split(",")`, with
the lemma that splitting undoes joining).

The model follows the code as written. Where the code does something other than what its comments,
docstring or names say, the model does what the code does:

- The module docstring speaks of a temporary file after every 500 successful operations. The code
  writes the table after a success at a row index that is a positive multiple of 10, and after
  every failure; nothing else triggers a write, and the loop ends without a final write
  (`RunEvents`).
- The comment at line 103 says a dummy value is written for a row without an address. The value
  `'NO_ADDRESS'` is bound to a local and never stored, so such a row stays unresolved
  (`RunRows`).
- `last_3_failures` is never shortened: `assess_failures` appends to the caller's list, and its
  slice only rebinds the local name. From the fourth failure on, the window it looks at is frozen
  at the second to fourth failure ever recorded (`WindowFrozenAfterFourthFailure`), so the break is
  decided by the second failure ever (`BreakDecidedBySecondFailure`).
- The one-minute break is taken when the oldest retained failure is more than a minute old. As
  that entry is the second failure ever from the second failure on, the first two failures always
  take the 5 s break, and every later failure takes the 60 s break exactly when the second failure
  ever is more than a minute before it. From a minute after the second failure on, every failure
  takes the long break, whether it comes in a burst or not, and a second failure long after the
  first still takes the short one (`BackoffScenarios`).
- `geo_csv.load_input`, the loader the runner imports, never adds `FIXED_ADDRESS`: its loop visits
  column labels and refers to the unbound name `row_series`, so each iteration raises and the
  exception is swallowed. On an input without that column a run makes no call at all
  (`NoFixedAddressNoCalls`).
- `fix_address` returns a one-element tuple, because of the trailing comma of its return
  expression.
- A response without results is a success: the runner stores None as the geocode, which counts as
  empty, so the row is asked for again on the next run (`ZeroResultsLeaveRowUnresolved`).
- The address goes into the URL without encoding; an address without `&` can be read back from the
  URL (`UrlRoundTrip`).

Inputs from outside the program are parameters: the provider's answer for the call made for row
`i` is `provider(i, address)` (a decoded response, or a failed request), the clock reading when row
`i`'s failure is assessed is `clock(i)` in integer seconds, and the response given to
`get_google_result` is a `Google.Response` value.

## Model

| member | source | states |
|---|---|---|
| `LoadCsv.FixAddress` | load_csv.py:26-27 | succeeds exactly when both columns are present with string values, giving the one-element tuple of `address,county,country`; a missing address column raises KeyError for it, a non-string address raises TypeError, a missing county column (after a string address) raises KeyError for it, and a non-string county (after a string address) raises TypeError |
| `LoadCsv.FixAddressRoundTrip` | load_csv.py:27 | the fixed address is a one-element tuple whose text splits on commas back into address, county and country when none holds a comma |
| `LoadCsv.LoadEntry` | load_csv.py:15-22 | an entry keeps every original column other than FIXED_ADDRESS with its value; when `fix_address` succeeds it adds exactly FIXED_ADDRESS with the fixed value, and when it raises the entry is the row unchanged |
| `LoadCsv.LoadInput` | load_csv.py:5-24 | ValueError exactly when the address column is not among the columns (the county column is not checked); otherwise exactly one entry per input row, in input order, each the row's `LoadEntry` |
| `LoadCsv.NoCountyNoFixedAddress` | load_csv.py:9-22 | a row without the county column gets no fixed address and is passed through unchanged |
| `GeoCsv.LoadInput` | geo_csv.py:5-18 | ValueError exactly when the address column is absent; otherwise the table comes back unchanged, with no FIXED_ADDRESS added (every iteration of the column loop raises NameError for the unbound `row_series`, which is swallowed) |
| `GeoCsv.FixAddress` | geo_csv.py:20-21 | computes the same value as `load_csv.fix_address` for every row and every column choice |
| `Google.GeocodeUrl` | google.py:61-63 | the URL is the base URL followed by the raw address, and `&key=` plus the key follows exactly when a key is given |
| `Google.UrlRoundTrip` | google.py:61-63 | for an address without `&`, the URL determines the address and whether and which key was given |
| `Google.GetGoogleResult` | google.py:47-104 | raises OverQueryLimit exactly when the status is `OVER_QUERY_LIMIT`; otherwise input string, result count and status are copied, the full response is included exactly when asked for, zero results give all seven location fields None, and otherwise the fields come from the first result with comma-joined types and postcode |
| `Google.FirstResultOnly` | google.py:85-91 | responses that agree on status, result count and first result give the same record apart from the `response` copy: results after the first play no part |
| `Google.TypeFieldRecoversTypes` | google.py:92 | the `type` field splits back into the first result's type list, in order, when that list is non-empty and no type holds a comma (an empty list joins to `""`, which splits to `[""]`) |
| `Google.PostalNames` | google.py:93-94 | the comprehension keeps at most one name per component, and a first component of type `postal_code` gives the first name |
| `Google.PostalNamesAppend` | google.py:93-94 | the postal-code names of a concatenation are the names of each part in turn: component order is kept |
| `Google.PostalNamesMembers` | google.py:93-94 | a name is in the postcode list exactly when some component with type `postal_code` has that long name |
| `Google.NoPostalComponentEmptyPostcode` | google.py:93-94 | without a `postal_code` component the postcode is the empty string, not None |
| `Google.GeocodeWork` | google.py:32-45 | returns without calling anything exactly when the item has no FIXED_ADDRESS key; an `OVER_QUERY_LIMIT` status is caught and reported as such, a failed request is caught and reported as some other failure; otherwise the update requested is for the item itself with exactly the record `get_google_result` returns for its own FIXED_ADDRESS |
| `Cells.IsEmpty` | python_batch_geocoding.py:96-101 | None and NaN are empty, a string is empty exactly when it has no characters, and numbers and tuples are never empty |
| `Cells.Get` | python_batch_geocoding.py:95-100 | `row.get(column, None)` gives the column's value when present, and an empty cell when the column is absent |
| `CommaText.CommaJoin` | google.py:92-94 | the join starts with the first part, puts a comma right after it when there is a second part, and holds exactly one comma fewer than there are parts when no part holds one |
| `BatchGeocoding.OutputPath` | python_batch_geocoding.py:89 | the results path is `data/results_` followed by the input file name |
| `BatchGeocoding.OutputPathSeparatesRuns` | python_batch_geocoding.py:89 | different input names give different results paths, and the results path is never the input name |
| `BatchGeocoding.Slice` | python_batch_geocoding.py:76 | Python's slice with non-negative bounds clamped to the length: the exact subsequence when both bounds fit, the tail from `lo` when only `hi` is past the end, empty when `lo` is past `hi` or the end |
| `BatchGeocoding.Retained` | python_batch_geocoding.py:75-76 | the window looked at holds one to three entries of a non-empty failure list |
| `BatchGeocoding.FailureList.constructor` | python_batch_geocoding.py:87 | the shared failure list starts empty |
| `BatchGeocoding.ChooseBreak` | python_batch_geocoding.py:74-83 | the break is one minute exactly when the list's only entry, or else its second entry, is more than a minute before `now` |
| `BatchGeocoding.AssessFailures` | python_batch_geocoding.py:71-83 | the caller's list grows by exactly `now`; the break is one minute exactly when the oldest retained entry is before `now` minus a minute |
| `BatchGeocoding.BreakDecidedBySecondFailure` | python_batch_geocoding.py:71-83 | the first and second failures ever always take the 5 s break; every later one takes the 60 s break exactly when the second failure ever is more than a minute before it |
| `BatchGeocoding.WindowFrozenAfterFourthFailure` | python_batch_geocoding.py:74-76 | once four failures are recorded, the retained window is the second to fourth failure whatever comes later |
| `BatchGeocoding.BackoffScenarios` | python_batch_geocoding.py:78-83 | four failures ten seconds apart take the 5 s break; a fourth failure ninety seconds after the first takes the 60 s break; a burst of failures long after the second failure takes the 60 s break, and a second failure long after the first takes the 5 s break |
| `BatchGeocoding.CallGeocoder` | python_batch_geocoding.py:108-110 | a failed request ends in the generic error branch, an `OVER_QUERY_LIMIT` status in the over-limit branch, and a success yields the first result's formatted address, or None when there are no results |
| `BatchGeocoding.Kind` | python_batch_geocoding.py:95-125 | a row is skipped as geocoded exactly when its GEOCODE is not empty, skipped for lack of address exactly when GEOCODE and FIXED_ADDRESS are both empty, failed exactly when it needs a call and the request fails or answers `OVER_QUERY_LIMIT`, and otherwise resolved with the first result's formatted address (None without results) |
| `BatchGeocoding.Step` | python_batch_geocoding.py:95-128 | one iteration keeps the number of rows, changes no row but its own, appends at most the clock reading of its failure to the shared list, and adds at most three events |
| `BatchGeocoding.Run` | python_batch_geocoding.py:92 | the loop over rows 0 to k - 1 keeps the number of rows |
| `BatchGeocoding.RunRows` | python_batch_geocoding.py:95-112 | after the loop a row with a geocode, a row without an address and a failed row are unchanged, and a resolved row differs only in GEOCODE, set to the returned formatted address; rows not yet reached are untouched |
| `BatchGeocoding.RunWithNothingToCall` | python_batch_geocoding.py:95-104 | a table in which every row has a geocode or no address comes out of a run unchanged, with no event and the failure list as it was |
| `BatchGeocoding.NoFixedAddressNoCalls` | python_batch_geocoding.py:100-104 | rows without a FIXED_ADDRESS key (all of them after `geo_csv.load_input` on such a file) make the whole run a no-op |
| `BatchGeocoding.RunLeavesLaterRow` | python_batch_geocoding.py:92-93 | a row the loop has not reached yet is as it was when the run began |
| `BatchGeocoding.UnresolvedRowUnchanged` | python_batch_geocoding.py:95-128 | an iteration that does not resolve its row (already geocoded, no address, or failed) leaves the whole table as it was |
| `BatchGeocoding.ZeroResultsLeaveRowUnresolved` | python_batch_geocoding.py:109-112 | a call answered with no results stores None, so the row's GEOCODE is still empty |
| `BatchGeocoding.ExpectedIncreasing` | python_batch_geocoding.py:92 | the rows that emit events are listed once each, below k, in strictly increasing order |
| `BatchGeocoding.StepEventIndices` | python_batch_geocoding.py:100-128 | one iteration records a call, a write or a pause for row `i` exactly when that row's kind emits it |
| `BatchGeocoding.RunEvents` | python_batch_geocoding.py:92-128 | over a run, calls happen exactly at the rows that need one, writes exactly after failures and after successes at positive multiples of 10, pauses exactly after failures, all in row order |
| `BatchGeocoding.RunStepEventIndices` | python_batch_geocoding.py:100-128 | the iteration for row k - 1 of a run records an event of a kind exactly when that row's kind in the initial table emits it |
| `BatchGeocoding.RunFailures` | python_batch_geocoding.py:118-128 | the shared failure list grows by exactly one clock reading per failed row, in row order |
| `BatchGeocoding.StepWritesWholeTable` | python_batch_geocoding.py:114-127 | every write of an iteration goes to the results path and holds the whole table as it stands after that iteration |
| `BatchGeocoding.FailedStep` | python_batch_geocoding.py:118-128 | a failed row stays as it was; the table is written, then the break chosen from the failure list with `now` appended is taken, and the loop goes on |
| `BatchGeocoding.ProcessRow` | python_batch_geocoding.py:93-128 | one pass of the loop body changes the table, the shared failure list and the trace exactly as one `Step` of the specification |
| `BatchGeocoding.RunBatch` | python_batch_geocoding.py:88-128 | the method's final table, failure list and trace are those of `Run`; each row ends as its kind dictates, the failure list grows by the failed rows' times, and the events fall at the expected rows |

## Left out

- File and console I/O: `load_config`, `load_data` (existence check, `makedirs`, `copyfile`),
  `pd.read_csv`, `write_output` / `to_csv`, `print` and the logging setup. A write appears only as a
  `Write` event carrying the table.
- `time.sleep` and `datetime.now`: the pause is recorded as a `Pause` event; the clock is the
  parameter `clock`, in whole seconds, so sub-second timestamps are not modelled.
- `requests.get` and `.json()`: the decoded response is a parameter; a failing request or decoding
  is the single case `Google.RequestFailed`.
- Google.GeocodeWork: other exceptions inside `get_google_result` (a malformed place, see below) are
  not modelled, so the wrapper reports some other failure only for a failed request.
- The parallel mode (`get_google_result_async`, `_get_google_result_async`): its point is the
  thread pool and event loop, which are concurrency.
- `update_record` and the rest of `db.py`: MongoDB access through a foreign library.
  `GeocodeWork` returns the update it would request. As written, `update_record` is an `async def`
  (db.py:46), so `return update_record(work, geocode)` only builds a coroutine that nothing awaits,
  and no update is ever made.
- Latitude, longitude and location type are opaque provider values, passed through as `Opaque`.
- `geo_enum` is not part of this model; `GEOCODE` and `FIXED_ADDRESS` are the distinct string
  constants of the same names.
- Google.GetGoogleResult: a response place is modelled with geometry, types and components always
  present (the three values read from the geometry with `.get` may each be absent and then give
  None), so the AttributeError, TypeError or KeyError the source raises on a malformed place (and
  that the runner would handle in its generic error branch) is not modelled.
- Google.GeocodeUrl: takes the address as text; the `"{}".format` rendering of a non-string address
  (such as the one-element tuple from `fix_address`) is not modelled.
- BatchGeocoding.RunBatch: when the GEOCODE column is absent, pandas' `set_value` adds it and fills
  the other rows with NaN; the model leaves those rows without the key. Both count as empty, so no
  skip decision differs. The model takes a pandas older than 1.0, which still has
  `DataFrame.set_value`; under a newer pandas that call raises AttributeError, so every success
  would end in the generic failure branch instead. Row labels are taken to be the positions 0 to n - 1 (the default index of
  a freshly read CSV).
- `geo_csv.py` defines no `empty_cells`, so the import at python_batch_geocoding.py:33 fails as
  written and the runner would not start; the model assumes the evident definition (None, NaN and
  the empty string) as `Cells.IsEmpty`.
- Python's `in` test against `empty_cells` is modelled as the predicate `IsEmpty` (absent, NaN or
  the empty string); the identity subtleties of NaN membership tests are not modelled.
