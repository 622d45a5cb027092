# GeoAsset: a verified model

GeoAsset tracks energy infrastructure assets (solar arrays, substations, wind,
hydro, battery storage and district-energy plants) on a map of Calgary.
Each asset has a status and a `lastUpdated` watermark. It also owns a history
of inspection logs. The system has two halves, and this project models the
logic of both:

- **The API** (ASP.NET Core with Entity Framework) exposes two REST
  controllers over two tables:
  - `Assets`;
  - `InspectionLogs`, whose rows carry a mandatory, cascading foreign key to
    their asset.

  Recording an inspection advances the owning asset's watermark.
- **The browser client** (React) holds the asset collection in component
  state. It derives from that state:
  - a filtered list;
  - a selected asset;
  - marker styles;
  - a four-figure dashboard.

  It also lets the user append an inspection to the selected asset through a
  small submit state machine.

An asset is *stale*, meaning it needs inspection, when it has no watermark or
when its watermark is more than thirty days old.

## Model

The project has twelve modules:

- `Domain`: the shared entities `Asset` and `InspectionLog`, with an `Option`
  watermark and an optional log list.
- `Text`: ASCII `trim`, `toLowerCase` and `includes`.
- `Sequences`: `Array.prototype.filter` and facts about it.
- `Staleness`: the thirty-day rule. It is shared, because the client and the
  dashboard carry identical copies.
- `Ordering`: the newest-first order of logs and the by-name order of assets.
  Both are given as "sorted, and a permutation of the input".
- `View`: the pure derivations in `App.tsx`.
- `App`: the class `AppState` holding the React state slots, with one method
  per handler.
- `Dashboard`: the four counters.
- `Store`: the class `AppDb`, which holds both tables as maps keyed by id,
  plus their identity counters. It also holds the foreign-key and cascade
  rules.
- `Http`: the action results the controllers return.
- `AssetsApi` and `InspectionLogsApi`: one controller class each, over a
  shared `AppDb`.

Timestamps are integers in milliseconds. The current time (`now`) and the
current day (`today`) are parameters.

| member | source | states |
|---|---|---|
| Text.Trim | geoasset-client/src/App.tsx:88-90 | the trimmed term is an infix of the input, obtained by dropping leading and trailing whitespace only, and neither starts nor ends with whitespace |
| Text.TrimEmptyIffAllSpace | geoasset-client/src/App.tsx:90 | a term trims to empty exactly when it is all whitespace |
| Text.SameSpacesSameEnds | geoasset-client/src/App.tsx:90 | strings with whitespace at the same positions lose the same leading and trailing parts to `trim` |
| Text.TrimIdempotent | geoasset-client/src/App.tsx:90 | trimming twice is trimming once |
| Text.Lower | geoasset-client/src/App.tsx:89-90 | case folding keeps the length, leaves no ASCII capital, and changes only capitals, each to its own lower-case letter |
| Text.LowerIdempotent | geoasset-client/src/App.tsx:89-90 | folding twice is folding once |
| Text.ContainsAt | geoasset-client/src/App.tsx:88-90 | `includes` (`Text.Contains`) holds exactly when the needle occurs at some position of the haystack |
| Sequences.Filter | geoasset-client/src/App.tsx:87-95 | `filter` yields an order-preserving subsequence of passing elements that contains every passing element of the input |
| Sequences.FilterCounts | geoasset-client/src/App.tsx:87-95 | each passing element occurs in the result exactly as often as in the input, and a failing one not at all |
| Sequences.FilterFull | geoasset-client/src/Dashboard.tsx:37 | the filtered length equals the input length exactly when every element passes |
| Sequences.FilterKeepsDistinct | GeoAsset.Api/Controllers/InspectionLogsController.cs:40-42 | a filtered list without repeats has no repeats |
| Sequences.PermutationKeepsDistinct | GeoAsset.Api/Controllers/InspectionLogsController.cs:40-42 | reordering a list without repeats leaves no repeats |
| Staleness.StaleThreshold | geoasset-client/src/App.tsx:15-22 | for `IsStale` (`isStale`, also Dashboard.tsx:24-29): a missing watermark is stale; a present one is stale exactly when it is more than 2,592,000,000 ms before now, so a watermark exactly at the cutoff is fresh |
| Staleness.StaleAsTimePasses | geoasset-client/src/Dashboard.tsx:24-29 | a stale asset stays stale as time passes |
| Staleness.StaleAntitoneInWatermark | geoasset-client/src/App.tsx:17-22 | a later watermark is never staler than an earlier one |
| Ordering.SortByDateDesc | GeoAsset.Api/Controllers/InspectionLogsController.cs:41 | the result is newest first and a permutation of the input |
| Ordering.InsertByDateSorted | geoasset-client/src/App.tsx:299-300 | inserting into a newest-first list keeps it newest first |
| Ordering.InsertByDatePermutes | geoasset-client/src/App.tsx:299-300 | insertion adds exactly the one log and loses none |
| Ordering.NameLeTotal | GeoAsset.Api/Controllers/AssetsController.cs:24 | any two names are comparable |
| Ordering.NameLeTransitive | GeoAsset.Api/Controllers/AssetsController.cs:24 | the name order is transitive |
| Ordering.NameLeAntisymmetric | GeoAsset.Api/Controllers/AssetsController.cs:24 | names that each sort before the other are equal |
| Ordering.InsertByNameSorted | GeoAsset.Api/Controllers/AssetsController.cs:24 | inserting into a by-name list keeps it ordered by name |
| Ordering.InsertByNamePermutes | GeoAsset.Api/Controllers/AssetsController.cs:24 | insertion adds exactly the one asset and loses none |
| Ordering.SortByName | GeoAsset.Api/Controllers/AssetsController.cs:24 | the result is ordered by name and is a permutation of the input |
| View.StatusColorDistinguishes | geoasset-client/src/App.tsx:24-35 | for `StatusColor`: the colour is the neutral `#3498db` exactly for unknown statuses; the three known statuses get distinct colours |
| View.MarkerHighlightsStale | geoasset-client/src/App.tsx:37-49 | for `Marker`: the fill is the status colour; the border is 3px `#f1c40f` and the needs-inspection class is set exactly when stale, else the border is 2px white |
| View.FilteredAssets | geoasset-client/src/App.tsx:87-95 | an order-preserving subsequence holding exactly the assets that match the name search, the status filter and the stale-only toggle |
| View.BlankSearchMatchesAll | geoasset-client/src/App.tsx:88-90 | an empty or whitespace-only search term matches every name |
| View.SearchIgnoresCase | geoasset-client/src/App.tsx:88-90 | folding the case of the name or of the term never changes whether it matches |
| View.LowerTrimCommute | geoasset-client/src/App.tsx:89-90 | trimming a folded term gives the folded trimmed term |
| View.FilterIdentity | geoasset-client/src/App.tsx:87-95 | a blank search with status "All" and the stale-only toggle off returns the collection unchanged |
| View.FindById | geoasset-client/src/App.tsx:84 | `find` gives the first position carrying the id, or nothing when no asset carries it |
| View.SelectedAsset | geoasset-client/src/App.tsx:83-85 | nothing is selected when the id is null; otherwise the selection is an asset of the collection with that id, and absent exactly when none has it |
| View.SelectedIsMember | geoasset-client/src/App.tsx:83-85 | with unique ids, selecting an asset's id resolves to that asset |
| View.AppendLog | geoasset-client/src/App.tsx:133-139 | length and order are kept; assets with another id are unchanged; each asset with the id gains exactly the log at the end of its list (absent list read as empty) and nothing else about it changes, its watermark included |
| View.AppendKeepsFields | geoasset-client/src/App.tsx:133-139 | the append keeps every id, watermark, status and name in place |
| View.AppendKeepsSelection | geoasset-client/src/App.tsx:83-85 | after the append the selection resolves to the same position, now holding the new log |
| View.Timeline | geoasset-client/src/App.tsx:299-300 | the timeline is the asset's logs, newest first, as a permutation |
| Dashboard.ActiveAssets | geoasset-client/src/Dashboard.tsx:36-37 | the active count is at most the total (`TotalAssets`, `assets.length`), and equals it exactly when every asset is Active |
| Dashboard.NeedsInspection | geoasset-client/src/Dashboard.tsx:38 | the stale count is at most the total, and is positive exactly when some asset is stale |
| Dashboard.EmptyMetrics | geoasset-client/src/Dashboard.tsx:36-42 | for the four figures (`ComputeMetrics`) and the alert styling (`AlertShown`, Dashboard.tsx:56-60): an empty collection shows four zeros and no alert |
| Dashboard.MissingWatermarkRaisesAlert | geoasset-client/src/Dashboard.tsx:25-60 | an asset without a watermark is always counted, so the alert shows |
| Dashboard.NeedsInspectionGrowsWithTime | geoasset-client/src/Dashboard.tsx:38 | the needs-inspection count never falls as time passes |
| Dashboard.TotalInspectionsAppend | geoasset-client/src/Dashboard.tsx:39-42 | the inspection total (`TotalInspections`, the `reduce`) is additive over concatenation |
| Dashboard.AppendLogAddsPerMatch | geoasset-client/src/Dashboard.tsx:39-42 | the local append raises the inspection total by the number of assets carrying the id |
| Dashboard.UniqueIdCountsOnce | geoasset-client/src/Dashboard.tsx:39-42 | in a collection with unique ids, an id that occurs is carried by exactly one asset |
| Dashboard.AppendLogMetrics | geoasset-client/src/App.tsx:133-139 | appending one confirmed log raises the inspection total by exactly one and leaves the other three counters unchanged |
| App.AppState.constructor | geoasset-client/src/App.tsx:69-80 | the initial state: no assets, no selection, the empty form dated today, not submitting, no error |
| App.AppState.LoadAssets | geoasset-client/src/App.tsx:103 | the fetched collection replaces the assets |
| App.AppState.SelectAsset | geoasset-client/src/App.tsx:111-114 | the asset's id becomes selected, and a fly-to its coordinates at zoom 15 is issued |
| App.AppState.ListItemClick | geoasset-client/src/App.tsx:204 | a click on a list item selects the asset and flies to it |
| App.AppState.ListItemKeyDown | geoasset-client/src/App.tsx:207-211 | Enter and Space select and fly exactly as a click does; other keys change nothing |
| App.AppState.MarkerClick | geoasset-client/src/App.tsx:244 | a marker click sets the selected id and issues no fly-to |
| App.AppState.CloseDetail | geoasset-client/src/App.tsx:272 | from any state, nothing is selected afterwards |
| App.AppState.BeginAddLog | geoasset-client/src/App.tsx:116-127 | with no selection nothing changes; otherwise the error is cleared, the form is disabled and the payload carries the selected id, the trimmed name and notes, and the date as entered |
| App.AppState.CompleteAddLog | geoasset-client/src/App.tsx:132-152 | on success the log is appended and the form is reset to today; on failure the error is set to the server's non-empty message or else "Failed to add inspection log." (`FailureMessage`) and the assets and form are kept; submitting is cleared either way |
| App.AppState.HandleAddLogSubmit | geoasset-client/src/App.tsx:116-153 | the whole submit: nothing without a selection; on success the selected asset (`AppState.SelectedAsset`, App.tsx:83-85) now ends with the new log; on failure the assets and form are unchanged |
| InspectionLogsApi.RaiseWatermark | GeoAsset.Api/Controllers/InspectionLogsController.cs:57-59 | a present watermark becomes the later of itself and the date, so it never decreases; a null watermark stays null |
| InspectionLogsApi.WatermarkOrderIndependent | GeoAsset.Api/Controllers/InspectionLogsController.cs:57-59 | two recorded inspections leave the same watermark in either order |
| Store.CascadeKeepsIntegrity | GeoAsset.Api/Migrations/20260217192433_AddInspectionLogs.cs:36-41 | after an asset goes with its logs (`CascadeDelete`, AppDbContext.cs:13-17), every log still names an existing asset |
| Store.DeleteWithoutCascadeDangles | GeoAsset.Api/Data/AppDbContext.cs:13-17 | without the cascade, deleting an asset that owns a log breaks the foreign key |
| Store.AppDb.constructor | GeoAsset.Api/Migrations/20260217192433_AddInspectionLogs.cs:26-27 | the empty database has both identity counters at 1 and satisfies `Valid`: every key is below its counter and at least 1, every row is stored under its own id, and every log names an existing asset (the foreign key, Migration lines 36-41) |
| Store.AppDb.AddAsset | GeoAsset.Api/Controllers/AssetsController.cs:55-56 | the row is stored under the next identity id and nothing else changes |
| Store.AppDb.UpdateAsset | GeoAsset.Api/Controllers/AssetsController.cs:75-79 | the row under the id is replaced and nothing else changes |
| Store.AppDb.RemoveAsset | GeoAsset.Api/Data/AppDbContext.cs:13-17 | the row goes together with exactly the logs it owns, and the foreign key still holds |
| Store.AppDb.AddLog | GeoAsset.Api/Controllers/InspectionLogsController.cs:55 | a log of an existing asset is stored under the next identity id and nothing else changes |
| Store.AppDb.UpdateLog | GeoAsset.Api/Controllers/InspectionLogsController.cs:80-84 | the log under the id is replaced and nothing else changes |
| Store.AppDb.RemoveLog | GeoAsset.Api/Controllers/InspectionLogsController.cs:109-110 | exactly that log goes and nothing else changes |
| Store.AppDb.AssetRows | GeoAsset.Api/Controllers/AssetsController.cs:18 | the Assets table listed: every stored row exactly once, in ascending id |
| Store.AppDb.LogRows | GeoAsset.Api/Controllers/InspectionLogsController.cs:18 | the InspectionLogs table listed: every stored row exactly once, in ascending id |
| Store.AppDb.LogsOf | GeoAsset.Api/Controllers/InspectionLogsController.cs:39-40 | exactly the stored logs of the asset, without repeats |
| AssetsApi.StampIdempotent | GeoAsset.Api/Controllers/AssetsController.cs:50-53 | the save-time watermark (`Stamp`) is never replaced once set: saving again at any later time keeps it |
| AssetsApi.StampedNullIsFresh | GeoAsset.Api/Controllers/AssetsController.cs:70-73 | a row saved without a watermark is fresh at the moment of saving; a row saved with one keeps its staleness |
| AssetsApi.AssetsController.AsResource | GeoAsset.Api/Controllers/AssetsController.cs:19-22 | the row's fields, and a log list without repeats that, when `Include` is requested, holds exactly the stored logs whose asset is this row, and is empty otherwise |
| AssetsApi.AssetsController.GetAssets | GeoAsset.Api/Controllers/AssetsController.cs:16-25 | every stored asset exactly once, ordered by name |
| AssetsApi.AssetsController.GetAsset | GeoAsset.Api/Controllers/AssetsController.cs:29-44 | NotFound exactly when no row has the id, else that row |
| AssetsApi.AssetsController.GetAssetAgreesWithListing | GeoAsset.Api/Controllers/AssetsController.cs:16-44 | the single read finds exactly the assets the listing shows, and returns the listed entry |
| AssetsApi.AssetsController.AssetExists | GeoAsset.Api/Controllers/AssetsController.cs:110-113 | the `Any` query over the listed rows holds exactly when the id is a key of the table |
| AssetsApi.AssetsController.PostAsset | GeoAsset.Api/Controllers/AssetsController.cs:48-59 | the body is stored under a fresh id, with a null watermark stamped now; nothing else changes; the created asset reads back |
| AssetsApi.AssetsController.PutAsset | GeoAsset.Api/Controllers/AssetsController.cs:63-92 | an id mismatch is BadRequest and a missing row is NotFound, both changing nothing; otherwise the row is replaced with a null watermark stamped now, possibly moving it backwards; logs are untouched |
| AssetsApi.AssetsController.DeleteAsset | GeoAsset.Api/Controllers/AssetsController.cs:96-108 | a missing row is NotFound and changes nothing; otherwise exactly that asset goes, with its logs; the foreign key still holds |
| InspectionLogsApi.InspectionLogsController.GetInspectionLogs | GeoAsset.Api/Controllers/InspectionLogsController.cs:16-19 | every stored log exactly once |
| InspectionLogsApi.InspectionLogsController.GetInspectionLog | GeoAsset.Api/Controllers/InspectionLogsController.cs:23-33 | NotFound exactly when no row has the id, else that row |
| InspectionLogsApi.InspectionLogsController.GetInspectionLogsByAsset | GeoAsset.Api/Controllers/InspectionLogsController.cs:37-43 | exactly the asset's logs, each once, newest first; empty for an unknown asset |
| InspectionLogsApi.InspectionLogsController.InspectionLogExists | GeoAsset.Api/Controllers/InspectionLogsController.cs:115-118 | the `Any` query over the listed rows holds exactly when the id is a key of the table |
| InspectionLogsApi.InspectionLogsController.PostInspectionLog | GeoAsset.Api/Controllers/InspectionLogsController.cs:47-64 | an unknown asset is BadRequest with both tables unchanged; otherwise exactly one log is added under a fresh id, and only the owner's watermark moves, by the raise rule; the created log reads back and appears in the asset's history |
| InspectionLogsApi.InspectionLogsController.PutInspectionLog | GeoAsset.Api/Controllers/InspectionLogsController.cs:68-97 | the id check, then the asset check, then the row check, each refusing without change; otherwise the log is replaced wholesale and no asset changes |
| InspectionLogsApi.InspectionLogsController.DeleteInspectionLog | GeoAsset.Api/Controllers/InspectionLogsController.cs:101-113 | a missing row is NotFound and changes nothing; otherwise exactly that log goes and no asset changes |
| InspectionLogsApi.RecordingNeverStales | GeoAsset.Api/Controllers/InspectionLogsController.cs:57-59 | recording an inspection never makes a fresh asset stale |
| InspectionLogsApi.RecentInspectionRefreshes | GeoAsset.Api/Controllers/InspectionLogsController.cs:57-59 | an inspection dated within thirty days makes an asset with a watermark fresh |
| InspectionLogsApi.NullWatermarkStaysStale | GeoAsset.Api/Controllers/InspectionLogsController.cs:57 | an asset whose watermark is null stays null, and so stays stale, whatever is recorded |

Some points of the modelled behaviour:

- C# compares a `DateTime?` with `default` by testing for null, so
  `PostAsset` and `PutAsset` both stamp only a null watermark.
- The client form's date is taken as entered.
- The client never advances `lastUpdated` locally; only the server does.
- The asset used as a request body for `PostAsset` and `PutAsset` is a row
  without a log collection (`Store.AssetRow`).

## Left out

- Rendering, the Leaflet map, axios and the initial fetch effect with its
  logging are left out. `SelectAsset` returns the fly-to as a command value
  instead of animating a map. `LoadAssets` takes the fetched data as a
  parameter.
- Dates are left out: `Date.now`, `toISOString` and the parsing of date
  strings. In particular, an unparsable `lastUpdated` gives NaN, which the
  client treats as fresh; the model only distinguishes absent (or empty) from
  a present timestamp.
- Latitude and longitude are reals that are carried, never computed with.
  Floating point is not modelled.
- `trim` and `toLowerCase` are modelled for ASCII whitespace and letters
  only. Unicode whitespace and case mappings are left out.
- `Ordering.SortByName` uses an ordinal lexicographic order on code points.
  The database collation (typically case-insensitive) is not modelled.
- `View.Timeline` is a newest-first permutation. Whether logs with equal
  dates keep their relative order is not stated.
- `InspectionLogsApi.InspectionLogsController.GetInspectionLogs`: lists in
  ascending id. The source gives no order, so the model picks one.
- `AssetsApi.AssetsController.AsResource`: the contract fixes which logs are
  included, each once, but not their order. The model lists them in ascending
  id; the source gives no order.
- `App.FailureMessage` takes the server's `message` as a string. The
  conversion of a non-string body value with `String(...)` is not modelled.
- Entity Framework is reduced to atomic steps on two maps. Left out:
  - the change tracker;
  - the async save;
  - concurrent requests;
  - the rethrow of a concurrency exception when the row still exists.

  The "concurrency conflict" path is reduced to "row missing → NotFound".
- Posting an asset body that carries nested inspection logs is left out. So
  is posting a log or an asset body with an explicit non-zero id. Both
  inserts always take the next identity id.
- Ids are unbounded integers. The 32-bit identity column's overflow is not
  modelled.
- Interleavings of several in-flight submits are left out. The submit is
  modelled as `BeginAddLog` followed by `CompleteAddLog` (or both at once in
  `HandleAddLogSubmit`).
- Framework model validation and the HTTP binding of route and query
  parameters are left out.
- Startup, CORS, Swagger, migrations and seed data in
  GeoAsset.Api/Program.cs are not part of this model.
