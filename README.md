# Delivery optimizer front end: order enrichment, completeness gate, fleet, catalog pages

This project models the client-side core of a delivery-planning web app (`my-app`). A planner
pastes orders as JSON, or loads them from a spreadsheet, and selects trucks. The page then
does three things before anything is sent to the route optimizer:

- it groups the raw rows by order id and turns each group into one canonical order;
- it gives every line item the dimensions of the motorcycle model it names, taken from the
  catalog;
- it refuses to submit while any named item still lacks a dimension.

It then describes the selected trucks and builds the request. The two administration pages
keep the catalogs: trucks in metres with a usable-volume percentage, motorcycles in
centimetres with notes and a search box.

The modules follow the program's structure:

- `JsValues`: the JavaScript value semantics the code relies on. This covers decoded JSON
  values, truthiness, property reads that throw on `null`/`undefined`, `String(v)`
  (Number::toString included, since it names the groups), `toLowerCase`, `trim`,
  `includes`, NaN-propagating products and `toFixed` read back as a number.
- `Sequences`: `filter`, and insertion into a `Set` (`Distinct`).
- `Catalog`: the `motorcycles` and `trucks` rows and `getMotorcycleByName`.
- `Grouping`: the grouping loop of `enrichOrders` and the key order of `Object.entries`.
- `Normalize`: one group becomes one order, through the JSON branch, the spreadsheet branch
  or neither.
- `Enrich`: `enrichOrders` as a whole.
- `Gate`: the unmatched-motorcycle set of `handleOptimize`.
- `Fleet`: truck selection (`toggleTruckSelection`) and the fleet descriptor.
- `Optimizer`: `handleOptimize` from its guards to the payload.
- `TruckManager`: the truck page, as the class `TruckPage` plus pure validation and volume
  functions.
- `MotorcycleManager`: the motorcycle page, as the class `MotorcyclePage`, which keeps
  `filtered == SearchResults(motorcycles, searchTerm)` as its invariant.

The loops of the source are methods with loop invariants, each proved equal to a
specification function:

- `GroupRows`: the grouping loop.
- `VisitGroups` and `EnrichOrders`: the loop over the entries.
- `AddMissingNames` and `CollectUnmatched`: the two `forEach` loops of the gate.

The handler `HandleOptimize` has no loop of its own. It runs its guards, calls those
methods, and is proved equal to the function `Optimize`. The lemmas then state what the
source promises about these functions.

Behaviour of the code that is easy to misread, and that the model keeps:

- Groups are visited in `Object.entries` order. Ids that are array indices, which is the
  usual case for numeric order ids, come first in ascending numeric order, and the other
  ids follow in the order they first appeared. See `Grouping.EntryOrderProperties`.
- A row with a missing or null id is grouped under the key "undefined" or "null". See
  `Grouping.KeysAreStringCoerced`.
- In the fleet descriptor, a null truck dimension gives NaN volumes, since
  `parseFloat(null)` is NaN. The truck list shows 0 m³ for the same truck. See
  `TruckManager.NullColumnVolumes`.
- Any truthy `orders` field of a decoded object is used as the order list, array or not.
  See `Optimizer.TopLevelShape`.
- A decoded `null` makes `parsed.orders` throw inside the inner `try`, which reports
  invalid JSON.
- A truthy string `orders` field is iterated character by character (`Optimizer.IterateRows`). A
  decoded top-level string becomes the one-row list `[parsed]` (`Optimizer.TopLevelShape`).
- The success message of an upsert depends on the form as submitted. The handler's closure
  still holds that form after `resetForm`.

## Model

| member | source | states |
|---|---|---|
| JsValues.Trim | my-app/src/TruckManager.jsx:42 | the trimmed text is the input with white space removed from both ends only: it occurs in the input with nothing but white space before and after it, it is empty exactly when the input is all white space, and otherwise it starts and ends with a non-space character |
| JsValues.FixedUnits | my-app/src/TruckManager.jsx:123 | the number of 10^-places units `toFixed` shows is within half a unit of x·10^places |
| JsValues.FixedDistance | my-app/src/TruckManager.jsx:123 | `x.toFixed(places)` read back differs from x by at most half a unit of the last place |
| JsValues.FixedOfGridValue | my-app/src/MotorcycleManager.jsx:137 | a value already on the 10^-places grid is shown unchanged |
| JsValues.ZeroFilledWithNaN | my-app/src/TruckManager.jsx:120-123 | a dimension that does not parse counts as 0, which makes l·w·h zero |
| JsValues.ZeroFilledOfReals | my-app/src/TruckManager.jsx:120-123 | when all three dimensions parse, the zero-filled product is the plain product |
| JsValues.JoinIncludesParts | my-app/src/DeliveryOptimizer.jsx:471 | every element of an array occurs in its `join` |
| JsValues.LowerIdempotent | my-app/src/DeliveryOptimizer.jsx:335 | lower-casing twice is lower-casing once |
| Sequences.DistinctProperties | my-app/src/DeliveryOptimizer.jsx:459-464 | a `Set` filled in order holds exactly the added values, each once |
| Sequences.DistinctSnoc | my-app/src/DeliveryOptimizer.jsx:464 | `Set.add` of a present value changes nothing; a new value goes to the end of the insertion order |
| Sequences.FilterMembership | my-app/src/DeliveryOptimizer.jsx:481-483 | `filter` keeps exactly the elements that satisfy the predicate |
| Catalog.FirstMatch | my-app/src/DeliveryOptimizer.jsx:334-336 | `find` yields the first entry whose lower-cased name equals the key, and none when no entry matches |
| Catalog.FindMotorcycle | my-app/src/DeliveryOptimizer.jsx:332-337 | a falsy name finds nothing; a hit is the first motorcycle whose lower-cased name equals lower-cased `String(name)`; a miss means no motorcycle matches; an object with its own `toString` field, which makes the program throw, is listed under "## Left out" |
| Catalog.FindIgnoresCase | my-app/src/DeliveryOptimizer.jsx:335 | two names equal up to case find the same motorcycle |
| Catalog.EffectivePercentageDefault | my-app/src/TruckManager.jsx:405 | the percentage used is 85 when the stored one is null or 0, and the stored one otherwise; it is never 0 |
| Catalog.EffectivePercentage | my-app/src/DeliveryOptimizer.jsx:495 | the stored percentage, or 85 when it is falsy (null or 0), as used by the fleet, the truck list and the truck form; stated by `Catalog.EffectivePercentageDefault` |
| Catalog.LowerCaseQueryFindsUpperCaseEntry | my-app/src/DeliveryOptimizer.jsx:335 | "trk 502x" finds the entry "TRK 502X" |
| Catalog.FirstOfCaseTwinsWins | my-app/src/DeliveryOptimizer.jsx:334-336 | of two entries equal up to case, the first listed is returned |
| Grouping.FirstSeenMembership | my-app/src/DeliveryOptimizer.jsx:346-350 | a key gets a list exactly when some row has that id |
| Grouping.GroupKey | my-app/src/DeliveryOptimizer.jsx:347-348 | the property key a row is filed under, `String(row.id)`: a missing id gives "undefined", a null id "null", and the number 1 the same key as the string "1"; stated by `Grouping.KeysAreStringCoerced` and `Grouping.RowKeys`; an object with its own `toString` field, which makes the program throw, is listed under "## Left out" |
| Grouping.RowsWithKeyEmpty | my-app/src/DeliveryOptimizer.jsx:348-351 | a key's rows are non-empty exactly when the key was created |
| Grouping.FirstSeenSnoc | my-app/src/DeliveryOptimizer.jsx:348-350 | a key enters the creation order only the first time a row has it |
| Grouping.GroupMapSnoc | my-app/src/DeliveryOptimizer.jsx:347-351 | filing one more row appends it to its key's list, which is created as `[row]` when the key is new |
| Grouping.FileRow | my-app/src/DeliveryOptimizer.jsx:347-351 | one iteration of the loop takes the table of the rows so far to the table of the rows up to and including the current one |
| Grouping.GroupRows | my-app/src/DeliveryOptimizer.jsx:344-352 | the corrected grouping of "## Findings": the loop throws exactly when a row is null or undefined; otherwise each key holds its rows in input order and the keys are in creation order |
| Grouping.GroupsPartitionRows | my-app/src/DeliveryOptimizer.jsx:344-352 | the groups laid end to end are a permutation of the input rows: every row lands in exactly one group |
| Grouping.KeysAreStringCoerced | my-app/src/DeliveryOptimizer.jsx:347-348 | ids 1 and "1" share a group; rows without an id share the group "undefined"; a null id gives "null" |
| Grouping.SortByIndex | my-app/src/DeliveryOptimizer.jsx:357 | the array-index keys are permuted into ascending numeric order |
| Grouping.EntryOrderProperties | my-app/src/DeliveryOptimizer.jsx:357 | `Object.entries` lists every key once: array indices first, ascending, then the other keys in creation order |
| Grouping.AsWrittenAgreesOffPrototype | my-app/src/DeliveryOptimizer.jsx:344-352 | when no id is an inherited `Object.prototype` name, the loop as written builds the intended groups |
| Grouping.InheritedIdBreaksGrouping | my-app/src/DeliveryOptimizer.jsx:348-351 | an order with id "constructor" makes the loop as written throw, where the intended grouping gives it one group |
| Grouping.GroupAsWritten | my-app/src/DeliveryOptimizer.jsx:344-352 | the grouping loop as written on a plain object: a nullish row throws, and so does a new id that names an inherited `Object.prototype` member; its meaning is stated by `Grouping.AsWrittenAgreesOffPrototype` and `Grouping.InheritedIdBreaksGrouping` |
| Normalize.EnrichItem | my-app/src/DeliveryOptimizer.jsx:362-375 | the callback throws exactly on a null item; on a catalog hit it sets the three dimensions and keeps every other field; otherwise it returns the item unchanged |
| Normalize.Overlay | my-app/src/DeliveryOptimizer.jsx:366-371 | the spread `{...li, width_cm, height_cm, length_cm}`; stated by `Normalize.OverlayMeaning` |
| Normalize.OverlayMeaning | my-app/src/DeliveryOptimizer.jsx:366-371 | the spread item keeps every other field of the item and carries exactly the motorcycle's three dimensions, whatever the item held before; spreading again changes nothing |
| Normalize.EnrichItems | my-app/src/DeliveryOptimizer.jsx:362-375 | `firstRow.line_items.map(...)`: the callback applied item by item, the first null item throwing; stated by `Normalize.EnrichItemsElementwise` |
| Normalize.EnrichItemsElementwise | my-app/src/DeliveryOptimizer.jsx:362-375 | the `map` throws exactly when some item is null; otherwise it has one result per item, in order, each the callback's value on that item |
| Normalize.HeaderOf | my-app/src/DeliveryOptimizer.jsx:399-407 | the spreadsheet order has exactly the eight header fields, each copied from the first row |
| Normalize.BillingOf | my-app/src/DeliveryOptimizer.jsx:408-415 | the billing object has exactly its six fields, each read from the first row's `billing_<field>` |
| Normalize.FlatItem | my-app/src/DeliveryOptimizer.jsx:384-397 | one spreadsheet row as a line item: name, sku, quantity and price from the row, dimensions from the catalog or null; stated by `Normalize.FlatItemDimensions` and `Normalize.FlatItemResolved` |
| Normalize.FlatOrder | my-app/src/DeliveryOptimizer.jsx:399-422 | the spreadsheet order: header, billing and shipping method from the first row, one line item per row; stated by `Normalize.FlatOrderHeader` and `Normalize.FlatOrderItems` |
| Normalize.FlatOrderHeader | my-app/src/DeliveryOptimizer.jsx:399-422 | the spreadsheet order's fields are the header, `billing`, `line_items` and `shipping_lines`; header and billing come from the first row; the one shipping line carries its method |
| Normalize.FlatOrderItems | my-app/src/DeliveryOptimizer.jsx:384-397 | N rows give N line items in row order, each named by its row's `line_item_name` |
| Normalize.FlatItemDimensions | my-app/src/DeliveryOptimizer.jsx:386-396 | a spreadsheet item gets the catalog's dimensions on a hit and null dimensions on a miss |
| Normalize.NormalizeGroup | my-app/src/DeliveryOptimizer.jsx:358-423 | a group of neither shape is dropped; a JSON group throws exactly on a null item, and otherwise keeps the first row's fields with `line_items` replaced by the enriched items; a spreadsheet group gives the flat order |
| Normalize.NestedIgnoresLaterRows | my-app/src/DeliveryOptimizer.jsx:358-381 | in the JSON shape only the group's first row matters |
| Normalize.EnrichItemIdempotent | my-app/src/DeliveryOptimizer.jsx:362-375 | enriching an enriched item changes nothing |
| Normalize.EnrichItemsIdempotent | my-app/src/DeliveryOptimizer.jsx:362-375 | enriching an enriched item list changes nothing |
| Normalize.FlatItemResolved | my-app/src/DeliveryOptimizer.jsx:386-396 | a spreadsheet item is already resolved: the JSON-branch callback returns it unchanged |
| Normalize.EnrichItemsAllResolved | my-app/src/DeliveryOptimizer.jsx:362-375 | a list of items that the callback leaves unchanged is mapped to itself |
| Normalize.NormalizeIdempotent | my-app/src/DeliveryOptimizer.jsx:357-423 | an order the pipeline produced, fed back in, comes out unchanged |
| Enrich.EntryKeysGrouped | my-app/src/DeliveryOptimizer.jsx:357-358 | every key listed by `Object.entries` is a table key whose list is the non-empty list of its rows, so `rows[0]` exists |
| Enrich.Enriched | my-app/src/DeliveryOptimizer.jsx:342-427 | what `enrichOrders` returns over the corrected grouping: a TypeError on a nullish row, otherwise the groups' orders pushed in entry order; implemented by `Enrich.EnrichOrders` |
| Enrich.ThrowPropagates | my-app/src/DeliveryOptimizer.jsx:357-424 | once one group throws, `enrichOrders` throws |
| Enrich.EnrichOrders | my-app/src/DeliveryOptimizer.jsx:342-427 | over the corrected grouping of "## Findings": `enrichOrders` returns the orders of the groups in entry order, or throws, as `Enriched` specifies |
| Enrich.VisitGroups | my-app/src/DeliveryOptimizer.jsx:355-426 | the loop over the entries pushes each group's order in turn, and stops at the first throw |
| Enrich.AtMostOneOrderPerKey | my-app/src/DeliveryOptimizer.jsx:357-424 | at most one order comes out per distinct id |
| Enrich.SingleKeyGroup | my-app/src/DeliveryOptimizer.jsx:344-357 | rows that all share one id form one group holding all of them |
| Enrich.FlatRowsCollapse | my-app/src/DeliveryOptimizer.jsx:383-423 | N spreadsheet rows with one id give exactly one order with N line items in row order |
| Enrich.SingleRow | my-app/src/DeliveryOptimizer.jsx:342-427 | a single row gives the order of its own group, if it has one |
| Gate.NullishItemThrows | my-app/src/DeliveryOptimizer.jsx:462-463 | a null line item in any order makes the gate throw |
| Gate.AddMissingNames | my-app/src/DeliveryOptimizer.jsx:462-466 | the inner loop throws exactly on a null item; otherwise the set holds the distinct names of the incomplete items seen so far |
| Gate.CollectUnmatched | my-app/src/DeliveryOptimizer.jsx:459-468 | the two loops compute `Unmatched`: the distinct names of all incomplete items, or the TypeError |
| Gate.Unmatched | my-app/src/DeliveryOptimizer.jsx:459-468 | the contents of `unmatchedMotos` in insertion order, or the TypeError of a null order or item; stated by `Gate.UnmatchedExactly` and computed by `Gate.CollectUnmatched` |
| Gate.Incomplete | my-app/src/DeliveryOptimizer.jsx:463 | an item is reported when it has a truthy name and at least one falsy dimension; stated by `Gate.MissingNamesMembership`, `Gate.GateOneItem` and `Gate.ZeroWidthIsMissing` |
| Gate.MissingNamesMembership | my-app/src/DeliveryOptimizer.jsx:463-464 | a name is collected exactly when some incomplete item has it |
| Gate.UnmatchedExactly | my-app/src/DeliveryOptimizer.jsx:459-468 | a name is in the set exactly when some visited item is incomplete and has that name; the set has no duplicates |
| Gate.EmptyGateMeansComplete | my-app/src/DeliveryOptimizer.jsx:470 | an empty set means every visited item with a name has all three dimensions |
| Gate.GateOneItem | my-app/src/DeliveryOptimizer.jsx:459-468 | for one order with one item: throw, that name, or nothing, as the item is null, incomplete or complete |
| Gate.ZeroWidthIsMissing | my-app/src/DeliveryOptimizer.jsx:463 | a width of 0 counts as missing |
| Gate.RepeatedNameReportedOnce | my-app/src/DeliveryOptimizer.jsx:464 | the same unknown product in two orders is reported once |
| Fleet.ToggleMembership | my-app/src/DeliveryOptimizer.jsx:299-305 | the toggled id flips membership; every other id keeps its own |
| Fleet.ToggleTwiceRestores | my-app/src/DeliveryOptimizer.jsx:299-305 | toggling an unselected id twice restores the selection |
| Fleet.ToggleKeepsNoDuplicates | my-app/src/DeliveryOptimizer.jsx:299-305 | a selection without duplicates keeps none |
| Fleet.ToggleTwiceMovesToEnd | my-app/src/DeliveryOptimizer.jsx:301-303 | a selected id toggled off and on moves to the end |
| Fleet.Toggle | my-app/src/DeliveryOptimizer.jsx:299-305 | `toggleTruckSelection`: a selected id is filtered out, every copy of it, and an unselected one is appended; stated by `Fleet.ToggleMembership` and `Fleet.ToggleTwiceRestores` |
| Fleet.FleetEntryOf | my-app/src/DeliveryOptimizer.jsx:485-498 | one fleet entry: id, name, parsed dimensions, total l·w·h, and usable and maximum volume at the stored percentage over 100 (85 when it is missing or 0); stated by `Fleet.DescribeVolumes` and `Fleet.FleetEntryVolumes` |
| Fleet.FleetPayload | my-app/src/DeliveryOptimizer.jsx:481-498 | the entries of the selected catalog trucks in catalog order; stated by `Fleet.FleetPayloadSelects` |
| Fleet.DescribeVolumes | my-app/src/DeliveryOptimizer.jsx:485-498 | an entry carries the truck's id, name and dimensions; total = l·w·h, NaN exactly when a dimension is NaN; usable = total × fraction; max = usable |
| Fleet.FleetEntryVolumes | my-app/src/DeliveryOptimizer.jsx:485-498 | a truck's total volume is a number exactly when its three dimension columns are non-null |
| Fleet.UsableFractionDefault | my-app/src/DeliveryOptimizer.jsx:495 | a null or zero percentage means 0.85; any other p means p/100 |
| Fleet.FleetPayloadSelects | my-app/src/DeliveryOptimizer.jsx:481-485 | the fleet holds exactly the catalog trucks whose id is selected, in catalog order, one entry each |
| Fleet.UnknownSelectionIgnored | my-app/src/DeliveryOptimizer.jsx:481-483 | a selected id that no truck has does not change the fleet |
| Fleet.SevenByFourByTwo | my-app/src/DeliveryOptimizer.jsx:493-497 | a 7 × 4 × 2 m truck without a stored percentage has 56 m³, of which 47.6 m³ are usable |
| Optimizer.TopLevelShape | my-app/src/DeliveryOptimizer.jsx:447-448 | an array is the order list; otherwise a truthy `orders` field, or else `[parsed]`; only null or undefined throws |
| Optimizer.SelectOrders | my-app/src/DeliveryOptimizer.jsx:447-448 | an array is the order list; otherwise a truthy `orders` field, or else `[parsed]`; reading `orders` of null or undefined throws; stated by `Optimizer.TopLevelShape` |
| Optimizer.IterateRows | my-app/src/DeliveryOptimizer.jsx:346 | `for…of` visits an array's elements and a string's characters, and throws on anything else |
| Optimizer.AfterParse | my-app/src/DeliveryOptimizer.jsx:456-504 | the handler after the order list is chosen: it can stop only with a throw or with a non-empty list of unmatched names, and otherwise sends the payload |
| Optimizer.Optimize | my-app/src/DeliveryOptimizer.jsx:430-504 | what `handleOptimize` ends in: the error of the first failing guard, or the payload of enriched orders, the selected fleet and the splitting flag; `Optimizer.HandleOptimize` is proved equal to it |
| Optimizer.HandleOptimize | my-app/src/DeliveryOptimizer.jsx:430-504 | over the corrected grouping of "## Findings": the handler stops with the first failing guard (no truck, blank text, bad JSON, a throw, unmatched names) or sends the payload, as `Optimize` specifies |
| Optimizer.SubmitOnlyComplete | my-app/src/DeliveryOptimizer.jsx:459-504 | a submission implies a truck is selected, the text is not blank, every named item has all three dimensions, and the fleet is the selected trucks' descriptor |
| Optimizer.GateBlocks | my-app/src/DeliveryOptimizer.jsx:447-477 | whichever order list the decoded JSON yields (an array, an `orders` field or the single order), a non-empty unmatched set stops the handler with exactly those names |
| Optimizer.UnmatchedMessage | my-app/src/DeliveryOptimizer.jsx:470-477 | the gate's error text: the fixed prefix, the unmatched names turned to strings and joined by ", ", and the request to add them on the motorcycle page; stated by `Optimizer.UnmatchedMessageNames`; an object with its own `toString` field, which makes the program throw, is listed under "## Left out" |
| Optimizer.UnmatchedMessageNames | my-app/src/DeliveryOptimizer.jsx:470-475 | every unmatched name, as `String(name)`, appears in the error text |
| Optimizer.ErrorMessage | my-app/src/DeliveryOptimizer.jsx:430-478 | the text shown for each way the handler stops; there is no fixed text exactly for a thrown error, where the page shows the error's own message |
| Optimizer.UnmatchedMessageDiffers | my-app/src/DeliveryOptimizer.jsx:431-475 | the gate's text never equals one of the three fixed guard texts |
| Optimizer.ShownError | my-app/src/DeliveryOptimizer.jsx:430-478 | when the handler stops, the text for no truck is shown exactly when no truck is selected, the text for no orders exactly when trucks are selected and the orders text is blank, and "Format JSON invalide" exactly when the text is not JSON or is JSON `null` |
| Optimizer.ScenarioMatchedEnrichment | my-app/src/DeliveryOptimizer.jsx:361-381 | an order for "TRK 251" against a catalog that has it gets 220 × 125 × 80 cm and is the only order |
| Optimizer.ScenarioMatchedGate | my-app/src/DeliveryOptimizer.jsx:459-470 | that resolved order passes the gate |
| Optimizer.ScenarioUnmatchedEnrichment | my-app/src/DeliveryOptimizer.jsx:361-381 | against a catalog without it, the order comes out unchanged |
| Optimizer.ScenarioUnmatchedGate | my-app/src/DeliveryOptimizer.jsx:459-478 | the gate then reports exactly "TRK 251" |
| TruckManager.ValidateTruck | my-app/src/TruckManager.jsx:41-58 | a blank name is rejected first, then any empty dimension; an accepted form gives the trimmed, non-blank name and the parsed dimensions and percentage |
| TruckManager.EditForm | my-app/src/TruckManager.jsx:108-117 | the form shows the truck's id, name and dimension texts and its effective percentage; a null dimension throws |
| TruckManager.FormVolume | my-app/src/TruckManager.jsx:119-124 | `calculateVolume`: each dimension parsed, NaN read as 0, multiplied and shown to the cent; stated by `TruckManager.FormVolumeMeaning` |
| TruckManager.FormUsableVolume | my-app/src/TruckManager.jsx:127-131 | `calculateUsableVolume`: the shown total read back times the parsed percentage over 100, to the cent; stated by `TruckManager.UsableShareClose` |
| TruckManager.ListedTotal | my-app/src/TruckManager.jsx:399 | the list's total: the stored dimensions multiplied, null as 0, to the cent; stated by `TruckManager.ListedTotalMeaning` |
| TruckManager.ListedUsable | my-app/src/TruckManager.jsx:403-406 | the list's usable volume at the effective percentage, to the cent; stated by `TruckManager.ListedUsableDefault` |
| TruckManager.EditThenSaveRoundTrip | my-app/src/TruckManager.jsx:52-58 | editing a complete truck and saving at once writes back its dimensions, its trimmed name and its effective percentage |
| TruckManager.FormVolumeMeaning | my-app/src/TruckManager.jsx:119-124 | a dimension that does not parse gives 0; otherwise the shown volume is within half a cent of l·w·h |
| TruckManager.UsableShareClose | my-app/src/TruckManager.jsx:127-131 | the usable volume is NaN exactly when the percentage is; otherwise it is within half a cent of total × percentage / 100 |
| TruckManager.ListedTotalMeaning | my-app/src/TruckManager.jsx:399 | the listed total is within half a cent of l·w·h |
| TruckManager.EditedVolumeMatchesList | my-app/src/TruckManager.jsx:119-124 | opening a complete truck in the form shows the total the list shows |
| TruckManager.NullColumnVolumes | my-app/src/TruckManager.jsx:399 | a null dimension lists as 0 m³, while the optimizer's fleet entry has NaN |
| TruckManager.StoredVolumeAgreesWithFleet | my-app/src/TruckManager.jsx:399 | a complete truck has the same volume in the list and in the fleet entry |
| TruckManager.ListedUsableDefault | my-app/src/TruckManager.jsx:403-406 | without a percentage, or with 0, 85 % is used, and the usable volume is within half a cent of 0.85 × l·w·h |
| TruckManager.TruckPage.constructor | my-app/src/TruckManager.jsx:12-23 | the page starts with no trucks, the initial form, no error and no message |
| TruckManager.TruckPage.Fetched | my-app/src/TruckManager.jsx:29-39 | a store error is shown; otherwise the rows (none for a null answer) replace the list |
| TruckManager.TruckPage.ResetForm | my-app/src/TruckManager.jsx:96-106 | the form is the initial form and the error is cleared |
| TruckManager.TruckPage.EditTruck | my-app/src/TruckManager.jsx:108-117 | the form becomes `EditForm(t)`, and stays as it was when that throws |
| TruckManager.TruckPage.UpsertTruck | my-app/src/TruckManager.jsx:41-81 | a rejected form sets only the error; an accepted one is an update when the form has an id and an insert otherwise; on success the form is reset and the message is "mis à jour" or "créé" |
| MotorcycleManager.SearchMembership | my-app/src/MotorcycleManager.jsx:31-40 | a motorcycle is shown exactly when it is listed and the term is blank or its name contains the term, ignoring case; the shown ones keep list order |
| MotorcycleManager.SearchResults | my-app/src/MotorcycleManager.jsx:31-40 | the search effect: the whole list for a blank term, otherwise the motorcycles whose lower-cased name contains the lower-cased, untrimmed term; stated by `MotorcycleManager.SearchMembership` |
| MotorcycleManager.SearchIgnoresCase | my-app/src/MotorcycleManager.jsx:36 | an upper-case term shows the same motorcycles as its lower-case form |
| MotorcycleManager.UntrimmedTermMisses | my-app/src/MotorcycleManager.jsx:32-36 | the term is trimmed only for the blank test: "trk" finds "TRK 251", " trk" does not |
| MotorcycleManager.ValidateMotorcycle | my-app/src/MotorcycleManager.jsx:55-72 | a blank name is rejected first, then any empty dimension; an accepted form gives the trimmed name, the parsed dimensions and the trimmed notes, none when blank |
| MotorcycleManager.NotesColumn | my-app/src/MotorcycleManager.jsx:71 | the notes column: the trimmed notes, or null when they are blank; stated by `MotorcycleManager.ValidateMotorcycle` |
| MotorcycleManager.EditForm | my-app/src/MotorcycleManager.jsx:122-131 | the form shows the motorcycle's id, name, dimension texts and notes ("" when null); a null dimension throws |
| MotorcycleManager.EditThenSaveRoundTrip | my-app/src/MotorcycleManager.jsx:66-72 | editing a complete motorcycle and saving at once writes back its dimensions, its trimmed name and its trimmed notes |
| MotorcycleManager.FormVolume | my-app/src/MotorcycleManager.jsx:133-138 | `calculateVolume`: each dimension parsed, NaN read as 0, multiplied, over 10^6, to four places; stated by `MotorcycleManager.FormVolumeMeaning` |
| MotorcycleManager.ListedVolume | my-app/src/MotorcycleManager.jsx:352-357 | the list's volume: the stored dimensions multiplied, null as 0, over 10^6, to four places; stated by `MotorcycleManager.EditedVolumeMatchesList` |
| MotorcycleManager.FormVolumeMeaning | my-app/src/MotorcycleManager.jsx:133-138 | a dimension that does not parse gives 0; otherwise the shown volume is within 0.00005 m³ of l·w·h / 10^6 |
| MotorcycleManager.EditedVolumeMatchesList | my-app/src/MotorcycleManager.jsx:352-357 | opening a complete motorcycle in the form shows the volume the list shows |
| MotorcycleManager.MotorcyclePage.constructor | my-app/src/MotorcycleManager.jsx:12-25 | the page starts empty, with the initial form, consistent with its search |
| MotorcycleManager.MotorcyclePage.ApplySearch | my-app/src/MotorcycleManager.jsx:31-40 | the search effect makes the shown list the search results of the list and term |
| MotorcycleManager.MotorcyclePage.SetSearchTerm | my-app/src/MotorcycleManager.jsx:31-40 | typing a term shows the search results for it |
| MotorcycleManager.MotorcyclePage.Fetched | my-app/src/MotorcycleManager.jsx:42-53 | a store error is shown; otherwise the rows replace the list and the search runs again over them |
| MotorcycleManager.MotorcyclePage.ResetForm | my-app/src/MotorcycleManager.jsx:110-120 | the form is the initial form and the error is cleared |
| MotorcycleManager.MotorcyclePage.EditMotorcycle | my-app/src/MotorcycleManager.jsx:122-131 | the form becomes `EditForm(m)`, and stays as it was when that throws |
| MotorcycleManager.MotorcyclePage.UpsertMotorcycle | my-app/src/MotorcycleManager.jsx:55-95 | a rejected form sets only the error; an accepted one is an update or an insert as the form has an id; on success the form is reset and the message is "mise à jour" or "créée"; the search stays consistent |

## Left out

- Binary floating point: numbers are exact decimals, products are exact reals, and NaN is the only special value. Rounding error, Infinity and -0 are not modelled.
- `JSON.parse` is the parameter `decode` of `Optimizer.Optimize`, where `None` is a syntax error. `parseFloat` on text is the parameter `parse`. Neither parser is modelled.
- The spreadsheet reader (`handleFileUpload`, XLSX) is not modelled. The rows it yields are ordinary input rows.
- The request to the optimizer webhook (`fetch`), its response, and the results, PDF and feedback tabs are I/O and rendering, and are not modelled. `HandleOptimize` ends with the payload it would send.
- Store reads, writes and deletes (Supabase) are left out. Their answers are the parameters `data` and `storeError`. `deleteTruck` and `deleteMotorcycle` are left out because they are a `confirm` dialog followed by a store delete, with no logic of their own.
- The refresh that a successful upsert starts is a separate store read. It is modelled as `Fetched`, not inside the upsert.
- `setTimeout`, which clears the success message after 3 s, and the `loading` flags are not modelled.
- Object identity is not modelled: values compare structurally in `includes` and in the `Set`. The order of properties inside an object is not modelled either, since objects are maps.
- `toLowerCase` is modelled on Basic Latin and Latin-1 letters only.
- `Optimizer.ErrorMessage`: a thrown error's own message (`err.message`) is not modelled.
- `TruckManager.TruckPage.UpsertTruck` and `MotorcycleManager.MotorcyclePage.UpsertMotorcycle`: the error-clearing that happens before the store answers is not modelled as a separate state. Only the final state is stated.
- `Enrich.EnrichOrders`: models the corrected grouping of "## Findings". An order whose id names an inherited `Object.prototype` member makes the program throw, while the model groups it. For example, `[{"id":"constructor","line_items":[]}]` throws in the program but gives one order in the model. `Grouping.InheritedIdBreaksGrouping` states the program's behaviour.
- `Optimizer.HandleOptimize`: models the corrected grouping, as `Enrich.EnrichOrders` does. For the input above the program reports the thrown error, while the model sends a payload with one order.
- `Catalog.FindMotorcycle`: catalog names are non-null strings in the model. In the program, a motorcycle row with a null `name` that `find` reaches before the match makes `m.name.toLowerCase()` throw (my-app/src/DeliveryOptimizer.jsx:335). The model cannot express that.
- `MotorcycleManager.SearchResults`: for the same reason, the model does not capture that a row with a null `name` makes the search filter throw (my-app/src/MotorcycleManager.jsx:36).
- `JsValues.ToJsString`: `String(o)` of a decoded object is always "[object Object]" in the model. In JavaScript, an object with its own `toString` field throws a TypeError, and so does an array holding one at any depth. Such a field is never callable, so the conversion falls back to `valueOf`, which returns the object itself. The members listed below inherit this gap, so their "throws exactly when … is nullish" statements do not cover such input.
- `Grouping.GroupKey`: an order id such as `{"toString":0}` makes `groupedByOrderId[orderId]` throw in the program (my-app/src/DeliveryOptimizer.jsx:348). The model files the row under "[object Object]" instead. `Grouping.GroupRows`, `Enrich.Enriched`, `Enrich.EnrichOrders` and `Optimizer.Optimize` therefore produce an order where the program shows the thrown error.
- `Optimizer.UnmatchedMessage`: an unmatched name that is such an object makes the `join(', ')` at my-app/src/DeliveryOptimizer.jsx:471 throw in the program. The model shows the gate's text.
- `Catalog.FindMotorcycle` also turns such an object name into "[object Object]", where `String(name)` throws in the program (my-app/src/DeliveryOptimizer.jsx:335). `Normalize.EnrichItem` and `Normalize.NormalizeGroup` inherit this.
- `Catalog.Truck`: truck names are non-null strings in the model. A stored truck with a null `name` is copied into the fleet entry's `truckName` (my-app/src/DeliveryOptimizer.jsx:487) and shown in the truck list. The model cannot express it.
- `TruckManager.TruckPage.EditTruck`: form names are non-null strings in the model. In the program, editing a stored truck whose `name` is null puts null in the form, and saving then makes `truckForm.name.trim()` throw (my-app/src/TruckManager.jsx:42). The model cannot express that.
- `MotorcycleManager.MotorcyclePage.EditMotorcycle`: for the same reason, the model does not capture that saving after editing a motorcycle with a null `name` makes `motoForm.name.trim()` throw (my-app/src/MotorcycleManager.jsx:56).

## Findings

| source | as written | input that shows it | evidently intended | confidence | as-written member | corrected member |
|---|---|---|---|---|---|---|
| my-app/src/DeliveryOptimizer.jsx:344-351 | `groupedByOrderId` is a plain `{}`, so `!groupedByOrderId[orderId]` also sees inherited members such as `constructor`; no list is created, and `.push` is called on a value that has no `push` and throws | one order whose `id` is "constructor" (or "toString", "valueOf", "__proto__", …) | every distinct id gets its own group of rows | not executed | Grouping.InheritedIdBreaksGrouping | Grouping.GroupRows |
