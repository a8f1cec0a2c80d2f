# Stok — a verified model of the stock, case and undo logic

Stok is a .NET MAUI app for a medical-device distributor. It keeps the stock
of leads, sheaths, pacemakers, ICDs and CRTs per owner (the depot "Depo" or a
field user). It records surgical cases that consume stock, and keeps a
patient checklist. It writes every operation to a history that can be undone.
Excel sheets can be imported and exported.

This project models the logic of the app's pages and services in Dafny and
proves what they promise:

- **The store.** `Database.Store` holds one map per table, keyed by
  identifier. It models `DatabaseService`:
  - upsert by key;
  - upsert by (type, value) for lookups;
  - delete by key;
  - the order of every listing.
- **Collection reconciliation.** `SynchronizeCollection` and the three
  `ReplaceItems`/`ReplaceModels` methods share two loops:
  - a backward loop removes what is no longer wanted;
  - a forward loop appends what is missing.

  `Contains` compares object references there. `Collections.ReconcileBy`
  compares elements by an identity key, and a kept element shows the desired
  list's record, as an object changed in place does. The stock page's
  materials are identified by their identifier. Rows of a listing just read are
  new objects, which `Collections.Loaded` tags with the read they come from.
  `Collections.Reconcile` compares values; it stands for `ReplaceModels`, whose
  models are objects of the model already.
- **Display groups.** `Groups` holds the classes `MaterialGroup`,
  `FilterOption`, `DeviceModelGroup` and `DeviceCategoryGroup`, with their
  expansion flags, visible lists and totals.
- **The stock list** (`StockList.StockPage`):
  - search, keyword filters, the three-state sort, grouping by first letter,
    and the in-place regrouping of `RefreshGroupedMaterials`;
  - delete and edit;
  - the Excel import loop with its duplicate rule.
- **Stock adjustment** (`StockManagement.StockManagementPage`): the in/out
  decision rule and the guarded submit. It also covers the user list and the
  material list sync.
- **Case entry** (`CaseEntry.CaseEntryPage`, `CaseEntry.CaseMaterialEntry`,
  `CaseEntry.LookupField`):
  - live serial or lot matching;
  - quantity input;
  - hospital and doctor suggestions;
  - the save: validate every line, then store the case, take the stock, learn
    new lookup values, and write a reversible history entry.
- **The checklist** (`Checklist.ChecklistPage`): the summary, import, select
  all, and the destructive save with its history entry.
- **History and undo** (`History.HistoryPage`):
  - filters and search;
  - resolving a detail line to a material, by identifier, then serial, then
    lot;
  - the four undo rules (restore, clamp, recreate, nothing) as a fold over the
    detail lines.
- **Save, then undo** (`CaseUndo`): undoing the entry a case save wrote
  deletes the case and the entry and gives every material its quantity back,
  also when two lines took from one item. `CaseUndo.LeadARoundTrip` follows a
  lead with 12 on hand through a line of 5 (leaving 7) and its undo (back to
  12).
- **Device counts** (`DeviceCounts.DeviceCountsPage`): keyword categories,
  grouping by model name, and keeping each category's and model's expansion
  across rebuilds.
- **The Excel import normaliser** (`Excel`): synonym column lookup, quantity,
  date and time parsing, labelled description segments, hospital and phone
  normalisation, the used-materials text, and both row-filtering import loops.
- **`Material.SerialOrLotDisplay`** (`Models`).

How the model is built:

- **Mutable objects are classes.** Pages, groups, case lines and the store have
  `modifies` frames, and their methods are proved against specification
  functions.
- **Loops are loops.** Each has the invariants that tie it to its function.
- **Pure helpers are functions**, with lemmas for their properties.
- **Time is a parameter.** The clock is an integer `now` (or `today`) passed in.
- **User answers are parameters.** The signed-in user and the answers to
  confirmation prompts are inputs.

Some of the source's behaviour is proved as written, not as one might expect:

- **Case lines can overdraw stock.** A case save checks each line against the
  stock as loaded. Two lines on one item therefore both pass and can drive it
  below zero. `CaseEntry.DoubleLineOverdraw` exhibits this, and
  `CaseEntry.DistinctPicksStayNonNegative` shows that stock stays non-negative
  when no item is picked twice.
- **New device models are always expanded.** In `BuildCategories`, the
  dictionary of model states is only consulted for a model the category does
  not already have. Its keys are exactly the category's existing models, so the
  lookup never hits. `DeviceCounts.FillCategory` proves the result.

## Model

| member | source | states |
|---|---|---|
| Database.ListingRows | Stok/Services/DatabaseService.cs:54-58 | a listing holds every row of its table exactly once and nothing else |
| Database.ListingSorted | Stok/Services/DatabaseService.cs:54-58 | along a listing the sort key never decreases (ties by identifier) |
| Database.MaterialsByNameSpec | Stok/Services/DatabaseService.cs:54-58 | GetMaterialsAsync lists every material once, in name order |
| Database.CasesNewestFirst | Stok/Services/DatabaseService.cs:86-90 | GetCaseRecordsAsync lists every case once, newest first |
| Database.HistoryNewestFirst | Stok/Services/DatabaseService.cs:116-120 | GetHistoryAsync lists every entry once, newest first |
| Database.UsersByName | Stok/Services/DatabaseService.cs:140-144 | GetUsersAsync lists every user once, by user name |
| Database.ChecklistByOrder | Stok/Services/DatabaseService.cs:176-180 | GetChecklistItemsAsync lists every item once, by order number |
| Database.LookupsOfTypeWithin | Stok/Services/DatabaseService.cs:200-207 | the lookups of one type are exactly the stored rows of that type |
| Database.LookupsByValueSpec | Stok/Services/DatabaseService.cs:200-207 | GetLookupValuesAsync lists exactly the rows of the type, ordered by value |
| Database.UpsertCount | Stok/Services/DatabaseService.cs:98-108 | insert-or-replace grows a table by one row only for a new key and keeps every other row |
| Database.DeleteCount | Stok/Services/DatabaseService.cs:80-84 | a delete removes exactly the row with that key |
| Database.Stamped | Stok/Services/DatabaseService.cs:66-78 | a saved material always gets the save time as UpdatedAt, gets CreatedAt only when new, and keeps every other field |
| Database.FindLookup | Stok/Services/DatabaseService.cs:209-215 | a found lookup row has exactly the requested type and value |
| Database.FindLookupNone | Stok/Services/DatabaseService.cs:209-215 | nothing is found exactly when no row holds the (type, value) pair |
| Database.SaveLookupTo | Stok/Services/DatabaseService.cs:217-228 | saving a lookup keeps every (type, value) pair on one row at most |
| Database.SaveLookupToSpec | Stok/Services/DatabaseService.cs:217-228 | a save leaves a row with the pair, adds at most one row and none for a stored pair, and fails (changing nothing) only for a new pair whose key is taken |
| Database.Store.constructor | Stok/Services/DatabaseService.cs:18-52 | a new store is empty and satisfies its invariant |
| Database.Store.NewId | Stok/Models/Material.cs:9 | a new identifier is used by no table |
| Database.Store.GetMaterial | Stok/Services/DatabaseService.cs:60-64 | finds the material exactly when its key is stored |
| Database.Store.GetCase | Stok/Services/DatabaseService.cs:92-96 | finds the case exactly when its key is stored |
| Database.Store.SaveMaterial | Stok/Services/DatabaseService.cs:66-78 | the stamped material is inserted or replaces the row under its key |
| Database.Store.DeleteMaterial | Stok/Services/DatabaseService.cs:80-84 | the row with the material's key is removed |
| Database.Store.SaveCase | Stok/Services/DatabaseService.cs:98-108 | the case is inserted or replaces the row under its key |
| Database.Store.DeleteCase | Stok/Services/DatabaseService.cs:110-114 | the row with the case's key is removed |
| Database.Store.SaveHistory | Stok/Services/DatabaseService.cs:122-132 | the entry is inserted or replaces the row under its key |
| Database.Store.DeleteHistory | Stok/Services/DatabaseService.cs:134-138 | the row with the entry's key is removed |
| Database.Store.SaveUser | Stok/Services/DatabaseService.cs:158-168 | the user is inserted or replaces the row under its key |
| Database.Store.DeleteUser | Stok/Services/DatabaseService.cs:170-174 | the row with the user's key is removed |
| Database.Store.SaveChecklistItem | Stok/Services/DatabaseService.cs:182-192 | the item is inserted or replaces the row under its key |
| Database.Store.DeleteChecklistItem | Stok/Services/DatabaseService.cs:194-198 | the row with the item's key is removed |
| Database.Store.SaveLookup | Stok/Services/DatabaseService.cs:217-228 | the table becomes SaveLookupTo's result; the counter moves only on a real insert |
| Database.Store.DeleteLookup | Stok/Services/DatabaseService.cs:230-234 | the row with the lookup's key is removed |
| Collections.KeptMembers | Stok/Models/DeviceCountGroup.cs:45-52 | the removal loop keeps exactly the models still wanted |
| Collections.RemoveUndesired | Stok/Models/DeviceCountGroup.cs:45-52 | the backward removal loop leaves the wanted models in their old relative order |
| Collections.AddMissing | Stok/Models/DeviceCountGroup.cs:54-60 | the forward loop appends each desired model not yet present |
| Collections.Reconcile | Stok/Models/DeviceCountGroup.cs:43-61 | the two loops together compute the reconciled list of models |
| Collections.ReconciledMembers | Stok/Models/DeviceCountGroup.cs:43-61 | afterwards the category holds exactly the desired models |
| Collections.ReconciledOrder | Stok/Models/DeviceCountGroup.cs:45-60 | retained models keep their relative order and come first; new ones follow in desired order |
| Collections.ReconciledDistinct | Stok/Models/DeviceCountGroup.cs:54-60 | a list of models without repeats has none after reconciling |
| Collections.ReconciledFromEmpty | Stok/Models/DeviceCountGroup.cs:54-60 | filling an empty list from a repeat-free one yields that list |
| Collections.KeyList | Stok/Models/MaterialGroup.cs:47 | the identities of a collection, one per element, in order |
| Collections.Lookup | Stok/Models/MaterialGroup.cs:47 | the desired element with a given identity is one of the desired elements and has that identity |
| Collections.RemoveUndesiredBy | Stok/Pages/StockManagementPage.xaml.cs:248-254 | the backward loop removes the elements whose identity is not desired and leaves each kept one as its current record |
| Collections.AddMissingBy | Stok/Pages/StockManagementPage.xaml.cs:256-262 | the forward loop appends each desired element whose identity is not yet present |
| Collections.ReconcileBy | Stok/Pages/StockManagementPage.xaml.cs:245-263 | the two loops, comparing elements by identity, compute ReconciledBy |
| Collections.KeptByKey | Stok/Pages/StockManagementPage.xaml.cs:248-254 | an identity survives the removal loop exactly when it was there and is desired |
| Collections.AppendMissingByKey | Stok/Pages/StockManagementPage.xaml.cs:256-262 | after the forward loop an identity is present exactly when it was before or is desired |
| Collections.ReconciledByMembers | Stok/Pages/StockManagementPage.xaml.cs:245-263 | every element afterwards is a desired element |
| Collections.ReconciledByKey | Stok/Pages/StockManagementPage.xaml.cs:245-263 | afterwards an identity is present exactly when it is desired |
| Collections.ReconciledByExact | Stok/Models/MaterialGroup.cs:42-59 | with desired identities distinct, the collection afterwards holds exactly the desired elements |
| Collections.ReconciledByDistinct | Stok/Models/MaterialGroup.cs:53-59 | a collection with distinct identities keeps them distinct |
| Collections.ReconciledByFresh | Stok/Pages/StockManagementPage.xaml.cs:245-263 | when no desired element is already present (a fresh listing), the collection becomes the desired list |
| Collections.ReconciledByRefresh | Stok/Models/MaterialGroup.cs:45-51 | when every desired element is already present, nothing is appended and the kept elements stay in their order |
| Collections.KeptByAll | Stok/Models/MaterialGroup.cs:45-51 | when every element is still desired, each stays in its place, showing its current record |
| Collections.ReloadReplaces | Stok/Pages/StockManagementPage.xaml.cs:126-127 | reconciling a collection with the rows of a listing just read gives exactly that listing |
| Collections.AppendMissingAll | Stok/Models/MaterialGroup.cs:53-59 | appending only absent, distinct elements appends them all in order |
| Collections.RemoveFirst | Stok/Pages/HistoryPage.xaml.cs:333-334 | List.Remove drops one occurrence of a present element and leaves an absent one's list unchanged |
| Collections.RemoveFirstDistinct | Stok/Pages/HistoryPage.xaml.cs:333-334 | removing keeps a list free of repeats |
| Groups.MaterialGroup.constructor | Stok/Models/MaterialGroup.cs:10-15 | a new group has its key, no items and is expanded |
| Groups.MaterialGroup.VisibleItems | Stok/Models/MaterialGroup.cs:36 | the visible items are empty exactly when collapsed or without items, and are the items when expanded |
| Groups.MaterialGroup.SetExpanded | Stok/Models/MaterialGroup.cs:21-34 | the flag takes the value given |
| Groups.MaterialGroup.ReplaceItems | Stok/Models/MaterialGroup.cs:42-59 | the items are reconciled with the desired list by object: a kept material stays in its place showing its current record, a missing one is appended |
| Groups.ReplacedTotal | Stok/Models/MaterialGroup.cs:40 | when neither list holds an object twice, the group total after a replacement is the desired list's total |
| Groups.DistinctObjects | Stok/Models/MaterialGroup.cs:47 | a list holding no object twice holds no material twice |
| Groups.SumPermutation | Stok/Models/MaterialGroup.cs:40 | a total does not depend on the order of the materials |
| Groups.SameMembersPermutation | Stok/Models/MaterialGroup.cs:42-63 | two repeat-free lists with the same members are permutations of each other |
| Groups.FilterOption.constructor | Stok/Models/MaterialGroup.cs:75-81 | a new filter has its title and keywords and is inactive |
| Groups.FilterOption.SetActive | Stok/Models/MaterialGroup.cs:87-98 | the flag takes the value given, and setting the current value changes nothing |
| Groups.DeviceModelGroup.constructor | Stok/Models/DeviceCountGroup.cs:76-82 | a new model group has its name, no items and is collapsed |
| Groups.DeviceModelGroup.VisibleItems | Stok/Models/DeviceCountGroup.cs:104 | the visible items are empty exactly when collapsed or without items |
| Groups.DeviceModelGroup.SetExpanded | Stok/Models/DeviceCountGroup.cs:92-94 | the flag takes the value given |
| Groups.DeviceModelGroup.ReplaceItems | Stok/Models/DeviceCountGroup.cs:108-125 | given the rows of a listing just read, as the device-count page always is, the items become exactly those rows |
| Groups.DeviceCategoryGroup.constructor | Stok/Models/DeviceCountGroup.cs:11-17 | a new category has its title, no models and is collapsed |
| Groups.DeviceCategoryGroup.VisibleModels | Stok/Models/DeviceCountGroup.cs:39 | the visible models are empty exactly when collapsed or without models |
| Groups.DeviceCategoryGroup.SetExpanded | Stok/Models/DeviceCountGroup.cs:27-29 | the flag takes the value given |
| Groups.DeviceCategoryGroup.ReplaceModels | Stok/Models/DeviceCountGroup.cs:43-60 | the models become the reconciliation of the old models with the desired list |
| Models.DisplayParts | Stok/Models/Material.cs:38-52 | one part for a non-blank serial, one for a non-blank lot, one for an expiry date, so at most three |
| Models.DisplayPartsOrder | Stok/Models/Material.cs:39-52 | the parts come in the order serial, lot, expiry date, each with its label |
| Models.SerialOrLotDisplayNoDetail | Stok/Models/Material.cs:54 | the display is the "no detail" text exactly when serial and lot are blank and there is no expiry date |
| Models.Padded | Stok/Models/Material.cs:51 | a zero-padded number has at least the width and reads back as the number |
| Ordering.Ordered | Stok/Services/DatabaseService.cs:57 | the listing order lists each row exactly once, sorted by its key |
| Ordering.OrderedUnique | Stok/Services/DatabaseService.cs:57 | any sorted listing of all rows is that listing |
| Ordering.BeforeText | Stok/Services/DatabaseService.cs:57 | a row listed earlier never has a greater sort text |
| Text.TrimSpec | Stok/Services/ExcelService.cs:281 | a trimmed text has no white space at either end and is empty exactly for a blank text |
| Text.TrimStartSpec | Stok/Services/ExcelService.cs:281 | the kept part is a suffix not starting with white space, and what was dropped is blank |
| Text.TrimEndSpec | Stok/Services/ExcelService.cs:281 | the kept part is a prefix not ending in white space, and what was dropped is blank |
| Text.Split | Stok/Services/ExcelService.cs:253 | there is at least one piece, no piece holds a separator, and a single piece is the whole text |
| Text.RemoveEmpty | Stok/Services/ExcelService.cs:253 | RemoveEmptyEntries keeps exactly the non-empty pieces |
| Text.SplitJoin | Stok/Services/ExcelService.cs:293-318 | splitting a join on a character no part holds gives the parts back |
| Text.NatToString | Stok/Pages/ChecklistPage.xaml.cs:41 | a count is written as digits that read back as the count |
| Text.ParseInt | Stok/Pages/StockManagementPage.xaml.cs:186 | int.TryParse yields only 32-bit values |
| Text.ParseIntToString | Stok/Pages/StockManagementPage.xaml.cs:186 | a 32-bit integer written out parses back to itself |
| Text.ReplaceICUnchanged | Stok/Services/ExcelService.cs:428-429 | Replace leaves a text without the pattern as it is |
| Text.ReplaceICSkip | Stok/Services/ExcelService.cs:428-429 | Replace copies a prefix in which no match starts as it is |
| Text.ReplaceICAfterMatch | Stok/Services/ExcelService.cs:428-429 | the first match, after a prefix with none, becomes the replacement, and the scan goes on after it |
| Text.DedupIC | Stok/Pages/StockManagementPage.xaml.cs:139-151 | the seed stays at the front of the deduplicated list |
| Text.DedupICDistinct | Stok/Pages/CaseEntryPage.xaml.cs:158 | Distinct with an ignore-case comparer lists no name twice |
| Text.DedupICCovers | Stok/Pages/CaseEntryPage.xaml.cs:158 | every input name is listed in some spelling |
| Text.DedupICFrom | Stok/Pages/CaseEntryPage.xaml.cs:158 | after the seed only input names are listed |
| Text.StrLessTotal | Stok/Services/DatabaseService.cs:57 | the text order ranks any two different texts |
| Text.StrLessTransitive | Stok/Services/DatabaseService.cs:57 | the text order is transitive |
| StockList.IsDuplicateMeaning | Stok/Pages/StockPage.xaml.cs:363-369 | a material is a duplicate exactly when a listed one has the same name, serial and lot ignoring case, a missing serial or lot counting as empty |
| StockList.SameMaterialFields | Stok/Pages/StockPage.xaml.cs:363-369 | the rule looks at name, serial and lot only |
| StockList.ImportBatchCounts | Stok/Pages/StockPage.xaml.cs:305-320 | each imported material is either listed or reported, and what was there before stays in front |
| StockList.ImportBatchDistinct | Stok/Pages/StockPage.xaml.cs:305-320 | an import never lists the same material twice |
| StockList.ImportRepeatedRow | Stok/Pages/StockPage.xaml.cs:312-319 | a row repeated within one batch is stored once and reported once |
| StockList.ImportedOwners | Stok/Pages/StockPage.xaml.cs:306-319 | every material the import lists is one of the imported rows stamped now, with the signed-in user (or "Depo") as owner exactly when the row's owner was blank |
| StockList.ContainsKeywordMeaning | Stok/Pages/StockPage.xaml.cs:486-497 | a name matches a filter exactly when it contains one of its keywords ignoring case |
| StockList.FilteredMeaning | Stok/Pages/StockPage.xaml.cs:375-386 | the filtered list holds each material passing search and filter as often as the full list, and nothing else |
| StockList.CycleSortStateRestores | Stok/Pages/StockPage.xaml.cs:499-507 | every click changes the sort state and three clicks restore it |
| StockList.MaterialCmpConsistent | Stok/Pages/StockPage.xaml.cs:440-473 | the sort comparison is a consistent, antisymmetric total preorder |
| StockList.SortMaterialsFacts | Stok/Pages/StockPage.xaml.cs:390 | the sorted list is ordered by the comparison and is a permutation of its input |
| StockList.SortMaterialsSorted | Stok/Pages/StockPage.xaml.cs:440-473 | the sorted list is ordered by the comparison |
| StockList.SortMaterialsPermutes | Stok/Pages/StockPage.xaml.cs:440-473 | the sorted list holds exactly the materials it was given |
| StockList.MissingExpiryLast | Stok/Pages/StockPage.xaml.cs:446-460 | with an expiry sort on, a material without expiry date is not placed before one with a date, except for the minimum date in descending order |
| StockList.DefaultSortByName | Stok/Pages/StockPage.xaml.cs:468-471 | without a sort the list is in name order |
| StockList.SortedTotal | Stok/Pages/StockPage.xaml.cs:392-394 | sorting does not change the total |
| StockList.DisplayedTotal | Stok/Pages/StockPage.xaml.cs:394 | the total shown is the sum of the quantities of the filtered materials |
| StockList.GroupKeyMeaning | Stok/Pages/StockPage.xaml.cs:475-484 | the key is the upper-cased first character when it is a letter or digit, else "?", and spellings equal ignoring case share a key |
| StockList.GroupKeysMeaning | Stok/Pages/StockPage.xaml.cs:397 | each key of a listed material occurs once, and no other key does |
| StockList.GroupOfMembers | Stok/Pages/StockPage.xaml.cs:397 | a group holds each material of its key as often as the list does, and nothing else |
| StockList.FindGroup | Stok/Pages/StockPage.xaml.cs:409 | FirstOrDefault by key finds a group of that key, or reports none exists |
| StockList.KeepGroupsFacts | Stok/Pages/StockPage.xaml.cs:399-405 | pruning keeps exactly the groups whose key still occurs |
| StockList.SortGroups | Stok/Pages/StockPage.xaml.cs:424 | the group order is a permutation of the groups |
| StockList.SortGroupsOrdered | Stok/Pages/StockPage.xaml.cs:424 | the group order is sorted by key |
| StockList.MoveBack | Stok/Pages/StockPage.xaml.cs:428-431 | a Move to an earlier position permutes the groups, keeps the prefix and puts the moved group in place |
| StockList.ArrangeGroups | Stok/Pages/StockPage.xaml.cs:424-433 | the Move loop leaves the groups in sorted key order |
| StockList.EditOfMeaning | Stok/Pages/StockPage.xaml.cs:236-262 | an edit happens exactly for a non-blank name, a non-negative integer quantity and a confirmation; it leaves a trimmed name and touches only name, quantity, owner and update time |
| StockList.ActiveKeywordsMeaning | Stok/Pages/StockPage.xaml.cs:382-386 | no keywords exactly when no filter is active, else those of an active filter |
| StockList.ResortKeepsGroupOrder | Stok/Pages/StockPage.xaml.cs:407-422 | a re-sort that swaps two materials of a group leaves the group's order as it was |
| StockList.RefreshKeepsGroupOrder | Stok/Pages/StockPage.xaml.cs:407-422 | a refresh listing exactly the objects a group holds keeps the group's order, each item showing its current record |
| StockList.EditKeepsPlace | Stok/Pages/StockPage.xaml.cs:228-264 | an edited material stays where it was in its group and shows its new record |
| StockList.GroupsShowExactly | Stok/Pages/StockPage.xaml.cs:396-422 | when the list holds no object twice, each group holds exactly the listed materials of its key |
| StockList.StockPage.constructor | Stok/Pages/StockPage.xaml.cs:129-137 | the page starts empty with the five keyword filters, none active |
| StockList.StockPage.PruneGroups | Stok/Pages/StockPage.xaml.cs:399-405 | the backward loop removes every group whose key no longer occurs |
| StockList.FindOrAddGroup | Stok/Pages/StockPage.xaml.cs:409-419 | the key's group is found, or a new one is appended, and the loop state is kept |
| StockList.ReplaceGroupItems | Stok/Pages/StockPage.xaml.cs:421 | the key's group gets its items reconciled with the key's materials, and one more key is done |
| StockList.StockPage.PruneAndFill | Stok/Pages/StockPage.xaml.cs:399-422 | old groups stay exactly when their key occurs, every key has its group, and every group is reconciled with its key's materials |
| StockList.StockPage.FillGroups | Stok/Pages/StockPage.xaml.cs:407-422 | every key gets exactly one group, kept or new and expanded, whose items are reconciled by object with the key's materials |
| StockList.StockPage.OrderGroups | Stok/Pages/StockPage.xaml.cs:424-433 | the groups end in key order |
| StockList.StockPage.Regroup | Stok/Pages/StockPage.xaml.cs:396-433 | the groups show the list: one per key, in order, each holding only its key's materials and every one of them, kept groups keeping their expansion and items reconciled by object |
| StockList.StockPage.Refresh | Stok/Pages/StockPage.xaml.cs:371-438 | the list shown is the searched, filtered and sorted list, its total is the sum, and the groups show it, reconciled by object |
| StockList.StockPage.ShowFiltered | Stok/Pages/StockPage.xaml.cs:373-394 | the shown list and its total are recomputed |
| StockList.StockPage.ToggleGroup | Stok/Pages/StockPage.xaml.cs:189-197 | the group's expansion flips |
| StockList.StockPage.SetSearchText | Stok/Pages/StockPage.xaml.cs:154-158 | a missing text counts as empty and the list is refreshed |
| StockList.StockPage.ClickFilter | Stok/Pages/StockPage.xaml.cs:160-175 | the clicked filter flips, every other one is off, so at most one is active |
| StockList.StockPage.ClickExpirySort | Stok/Pages/StockPage.xaml.cs:177-181 | the expiry sort cycles and the list is refreshed |
| StockList.StockPage.ClickQuantitySort | Stok/Pages/StockPage.xaml.cs:183-187 | the quantity sort cycles and the list is refreshed |
| StockList.StockPage.DeleteMaterial | Stok/Pages/StockPage.xaml.cs:199-215 | the row is deleted from the store and from the list, with no history entry |
| StockList.StockPage.EditMaterial | Stok/Pages/StockPage.xaml.cs:228-264 | an accepted edit saves the edited material, replaces it in the list and regroups by object, so it stays in its group's place; a refused one changes nothing |
| StockList.StockPage.SaveEdit | Stok/Pages/StockPage.xaml.cs:257-263 | the edited material is saved and stamped, replaces the listed one, and the groups are regrouped by object |
| StockList.StockPage.ImportMaterials | Stok/Pages/StockPage.xaml.cs:305-320 | the import loop's effect is ImportBatch's, and the list is refreshed |
| StockList.StockPage.ImportAll | Stok/Pages/StockPage.xaml.cs:306-320 | the loop over the imported materials computes ImportBatch |
| StockList.StockPage.ImportOne | Stok/Pages/StockPage.xaml.cs:308-319 | one pass fills a blank owner, then reports a duplicate or saves and lists the material |
| StockManagement.RequestedOperationCases | Stok/Pages/StockManagementPage.xaml.cs:98-110 | a blank text asks for nothing, "out" in any case asks for Out, and any other text asks for In |
| StockManagement.RequestedOperationRoundTrip | Stok/Pages/StockManagementPage.xaml.cs:95-110 | setting the Operation text read back from a requested operation gives that operation back |
| StockManagement.DetermineOperationPriority | Stok/Pages/StockManagementPage.xaml.cs:215-243 | the rules apply in priority order: from the user is Out, to the user is In, from the depot is Out, to the depot is In |
| StockManagement.DetermineOperationDefault | Stok/Pages/StockManagementPage.xaml.cs:242 | with nothing chosen the requested operation applies, and In without one |
| StockManagement.DepotToMeIsIn | Stok/Pages/StockManagementPage.xaml.cs:219-235 | a transfer from the depot to the signed-in user is In, because the user rules come first |
| StockManagement.SubmitMoves | Stok/Pages/StockManagementPage.xaml.cs:186-206 | an accepted move has a positive amount, In adds it exactly and Out subtracts it exactly without going below zero |
| StockManagement.SubmitAmounts | Stok/Pages/StockManagementPage.xaml.cs:186-197 | for every amount typed as a number: not positive is refused, an Out beyond the stock is refused, anything else is moved as typed |
| StockManagement.InThenOut | Stok/Pages/StockManagementPage.xaml.cs:186-206 | from a stock that is not negative, whatever was moved in is accepted as an Out with the same text, which restores the stock |
| StockManagement.DedupNamesDistinct | Stok/Pages/StockManagementPage.xaml.cs:138-151 | the user list names nobody twice, ignoring case |
| StockManagement.DedupNamesCovers | Stok/Pages/StockManagementPage.xaml.cs:144-151 | every stored user is listed in some spelling |
| StockManagement.DedupNamesFrom | Stok/Pages/StockManagementPage.xaml.cs:144-151 | after "Depo" only stored user names are listed |
| StockManagement.UserListSound | Stok/Pages/StockManagementPage.xaml.cs:138-156 | the list starts with "Depo", repeats nobody, lists every stored user and the signed-in one, and nothing else |
| StockManagement.FindById | Stok/Pages/StockManagementPage.xaml.cs:131 | finds a material with the identifier, or none exists |
| StockManagement.StockManagementPage.constructor | Stok/Pages/StockManagementPage.xaml.cs:20-60 | nothing is selected and the quantity text is "1" |
| StockManagement.StockManagementPage.SetOperation | Stok/Pages/StockManagementPage.xaml.cs:98-112 | the requested operation is the one the text asks for |
| StockManagement.StockManagementPage.Submit | Stok/Pages/StockManagementPage.xaml.cs:178-213 | when every check passes the material moves by the amount and is saved and stamped; otherwise nothing changes |
| StockManagement.StockManagementPage.LoadMaterials | Stok/Pages/StockManagementPage.xaml.cs:126-136 | the list becomes exactly the listing read, and the selection its refreshed copy when the listing has it |
| StockManagement.StockManagementPage.LoadUsers | Stok/Pages/StockManagementPage.xaml.cs:138-158 | the user list is built from the stored users and the signed-in user |
| StockManagement.StockManagementPage.ApplyPendingSelection | Stok/Pages/StockManagementPage.xaml.cs:161-176 | a pending identifier present in the list selects that material; otherwise the selection stays |
| CaseEntry.FirstMatchSpec | Stok/Pages/CaseEntryPage.xaml.cs:332-334 | the first inventory item whose serial or lot equals the text ignoring case, or none exists |
| CaseEntry.MatchesSpec | Stok/Pages/CaseEntryPage.xaml.cs:281-284 | the match list holds exactly the matching items and starts with the first match |
| CaseEntry.MatchesOne | Stok/Pages/CaseEntryPage.xaml.cs:286-289 | a single-element match list means exactly one matching position |
| CaseEntry.MatchesTwo | Stok/Pages/CaseEntryPage.xaml.cs:286-293 | a longer match list means two matching positions |
| CaseEntry.CaseMaterialEntry.constructor | Stok/Pages/CaseEntryPage.xaml.cs:484-492 | a new line asks for one unit and has nothing resolved |
| CaseEntry.CaseMaterialEntry.ApplyFrom | Stok/Pages/CaseEntryPage.xaml.cs:576-589 | the line takes the material's identity, expiry, UBB, serial, lot and stock, and its serial (else lot) only for a blank text |
| CaseEntry.CaseMaterialEntry.ClearResolved | Stok/Pages/CaseEntryPage.xaml.cs:591-600 | everything resolved is forgotten; the text and the quantity stay |
| CaseEntry.FilledTextMatches | Stok/Pages/CaseEntryPage.xaml.cs:585-588 | text filled in by ApplyFrom is the serial when present, else the lot, and then matches the material |
| CaseEntry.LiveMatchMeaning | Stok/Pages/CaseEntryPage.xaml.cs:273-293 | one match applies it, a blank text or no match clears the line, several matches leave it |
| CaseEntry.TrimmedTextSpec | Stok/Pages/CaseEntryPage.xaml.cs:273 | the entered text is kept trimmed, and is empty exactly when blank |
| CaseEntry.QuantityAfterSpec | Stok/Pages/CaseEntryPage.xaml.cs:303-310 | typing never makes a non-negative quantity negative |
| CaseEntry.QuantityRoundTrip | Stok/Pages/CaseEntryPage.xaml.cs:303-306 | typing the digits of a count sets exactly that count |
| CaseEntry.CheckLineFits | Stok/Pages/CaseEntryPage.xaml.cs:324-352 | a line passes exactly when its text is not blank, something matches, and its quantity is positive and at most the first match's stock |
| CaseEntry.CheckLinesPassed | Stok/Pages/CaseEntryPage.xaml.cs:324-356 | the validation passes exactly when every line passes, and then picks each line's first match |
| CaseEntry.CheckLinesFailed | Stok/Pages/CaseEntryPage.xaml.cs:324-352 | a failure gives the reason of the first refused line, every line before it having passed |
| CaseEntry.CheckLinesFailurePersists | Stok/Pages/CaseEntryPage.xaml.cs:324-352 | once a prefix fails, the whole list fails the same way |
| CaseEntry.SaveCheckMeaning | Stok/Pages/CaseEntryPage.xaml.cs:315-362 | a save goes ahead exactly when hospital, doctor and patient are filled, there is a line, and every line passes |
| CaseEntry.UsedRecords | Stok/Pages/CaseEntryPage.xaml.cs:375-384 | one used-material record per line, built from its matched item and the line |
| CaseEntry.ConsumedInventory | Stok/Pages/CaseEntryPage.xaml.cs:388-392 | each item loses exactly what the lines matched to it take and keeps its other fields; unmatched items are untouched |
| CaseEntry.ConsumedTable | Stok/Pages/CaseEntryPage.xaml.cs:388-392 | each item's new state is written back under its own key; no row is added and the counter is kept |
| CaseEntry.ConsumedUntouched | Stok/Pages/CaseEntryPage.xaml.cs:388-392 | rows not in the inventory are left as they were |
| CaseEntry.DistinctPicksStayNonNegative | Stok/Pages/CaseEntryPage.xaml.cs:348 | when no item is matched by two lines, the accepted lines leave every item at zero or more |
| CaseEntry.TakenOnce | Stok/Pages/CaseEntryPage.xaml.cs:390 | an item matched by one line loses exactly that line's quantity |
| CaseEntry.DoubleLineOverdraw | Stok/Pages/CaseEntryPage.xaml.cs:348 | two one-unit lines on an item with one unit both pass, and the item ends at minus one |
| CaseEntry.SuggestionsSound | Stok/Pages/CaseEntryPage.xaml.cs:149-164 | suggestions repeat nothing ignoring case, are cached values the filter keeps, and offer every such value in some spelling |
| CaseEntry.BuildSuggestions | Stok/Pages/CaseEntryPage.xaml.cs:158-161 | the Distinct loop computes the suggestion list |
| CaseEntry.FirstICSpec | Stok/Pages/CaseEntryPage.xaml.cs:212 | finds the first cached entry equal ignoring case, and nothing exactly when none is |
| CaseEntry.MissingOnce | Stok/Pages/CaseEntryPage.xaml.cs:440-451 | after a value is remembered, remembering it again adds nothing |
| CaseEntry.RememberedSpec | Stok/Pages/CaseEntryPage.xaml.cs:433-452 | remembering keeps the store invariant, touches only lookups and the counter, and caches exactly the missing trimmed value |
| CaseEntry.CommittedSpec | Stok/Pages/CaseEntryPage.xaml.cs:364-408 | a checked save stores the case under a fresh identifier, takes the stock, caches new lookups, and writes a reversible Case entry for the case with its lines |
| CaseEntry.CommittedStages | Stok/Pages/CaseEntryPage.xaml.cs:386-408 | each step of the save keeps the invariant, and only its own tables change |
| CaseEntry.ResolveEntry | Stok/Pages/CaseEntryPage.xaml.cs:332-355 | one validation turn shows a passing line resolved to its match and leaves a refused one |
| CaseEntry.CheckEntries | Stok/Pages/CaseEntryPage.xaml.cs:324-356 | the validation loop checks lines in order, resolves those that pass, and stops at the first refused one |
| CaseEntry.ResolveEntries | Stok/Pages/CaseEntryPage.xaml.cs:324-356 | the loop's verdict is the list check's, and lines after a refusal are left alone |
| CaseEntry.StoreCase | Stok/Pages/CaseEntryPage.xaml.cs:386 | the case is stored under a fresh identifier |
| CaseEntry.ConsumeLines | Stok/Pages/CaseEntryPage.xaml.cs:388-392 | the consumption loop computes Consumed on the store and the inventory |
| CaseEntry.WriteHistory | Stok/Pages/CaseEntryPage.xaml.cs:397-408 | the history entry is stored under a fresh identifier |
| CaseEntry.Remembered | Stok/Pages/CaseEntryPage.xaml.cs:433-452 | remembering a value keeps every (type, value) pair on one stored row at most |
| CaseEntry.SaveNewLookup | Stok/Pages/CaseEntryPage.xaml.cs:445-452 | the trimmed value is saved under a new identifier, and the cache gets the row as stored |
| CaseEntry.LookupField.constructor | Stok/Pages/CaseEntryPage.xaml.cs:27-28 | a field starts with empty text, cache and suggestions |
| CaseEntry.LookupField.Refresh | Stok/Pages/CaseEntryPage.xaml.cs:149-164 | the list is rebuilt and shown only for a non-blank filter that leaves something to offer |
| CaseEntry.LookupField.Load | Stok/Pages/CaseEntryPage.xaml.cs:137-138 | the cache holds the stored values of its kind, in value order |
| CaseEntry.LookupField.TextChanged | Stok/Pages/CaseEntryPage.xaml.cs:183-187 | the trimmed text is kept and filters the list |
| CaseEntry.LookupField.SuggestionTapped | Stok/Pages/CaseEntryPage.xaml.cs:195-203 | a tapped value is taken and the list hidden |
| CaseEntry.LookupField.RemoveSuggestion | Stok/Pages/CaseEntryPage.xaml.cs:205-221 | the first cached entry equal ignoring case is dropped and deleted from the store; without one nothing changes |
| CaseEntry.LookupField.SaveIfMissing | Stok/Pages/CaseEntryPage.xaml.cs:433-462 | a blank or already cached value changes nothing; otherwise the trimmed value is cached and saved and the list refreshed |
| CaseEntry.CaseEntryPage.constructor | Stok/Pages/CaseEntryPage.xaml.cs:26-42 | an empty form dated today, not yet loaded |
| CaseEntry.CaseEntryPage.Appearing | Stok/Pages/CaseEntryPage.xaml.cs:114-124 | the first appearance loads the page; later ones change nothing |
| CaseEntry.CaseEntryPage.Load | Stok/Pages/CaseEntryPage.xaml.cs:126-147 | the author is the signed-in user or "Misafir", the inventory and caches are loaded, and an empty form gets one line |
| CaseEntry.CaseEntryPage.AddMaterial | Stok/Pages/CaseEntryPage.xaml.cs:251-254 | a new empty line is appended |
| CaseEntry.CaseEntryPage.RemoveMaterial | Stok/Pages/CaseEntryPage.xaml.cs:256-264 | the line is removed; an absent one changes nothing |
| CaseEntry.CaseEntryPage.SerialChanged | Stok/Pages/CaseEntryPage.xaml.cs:266-294 | the trimmed text is kept; then the live-match decision is applied to the line |
| CaseEntry.CaseEntryPage.QuantityChanged | Stok/Pages/CaseEntryPage.xaml.cs:296-311 | the quantity becomes what the typed text gives |
| CaseEntry.CaseEntryPage.Validate | Stok/Pages/CaseEntryPage.xaml.cs:315-362 | the checks give SaveCheck's verdict, and on a pass every line shows its match |
| CaseEntry.CaseEntryPage.Persist | Stok/Pages/CaseEntryPage.xaml.cs:386-408 | the store side of a checked save ends in Committed's tables |
| CaseEntry.CaseEntryPage.ResetForm | Stok/Pages/CaseEntryPage.xaml.cs:423-431 | today's date, blank patient and note, one empty line, no message |
| CaseEntry.CaseEntryPage.ReloadInventory | Stok/Pages/CaseEntryPage.xaml.cs:416-421 | the inventory becomes the store's listing |
| CaseEntry.CaseEntryPage.Commit | Stok/Pages/CaseEntryPage.xaml.cs:364-412 | everything after the checks is committed and the form reset |
| CaseEntry.CaseEntryPage.Finish | Stok/Pages/CaseEntryPage.xaml.cs:412-413 | after a save the form is reset and the inventory reloaded; nothing stored changes |
| CaseEntry.CaseEntryPage.Check | Stok/Pages/CaseEntryPage.xaml.cs:315-362 | the message is cleared, the checks run, and a refusal's message is shown |
| CaseEntry.CaseEntryPage.Save | Stok/Pages/CaseEntryPage.xaml.cs:313-414 | a refused save shows its reason and changes nothing stored and nothing on the form but the message; an accepted one commits under the signed-in user or "Depo" |
| Checklist.ToModelFromModel | Stok/Pages/ChecklistPage.xaml.cs:279-305 | storing a shown item gives it back unchanged, and the box is ticked exactly for a Done status |
| Checklist.FromModelToModel | Stok/Pages/ChecklistPage.xaml.cs:279-305 | showing a stored display item gives it back unchanged |
| Checklist.DoneCountBounds | Stok/Pages/ChecklistPage.xaml.cs:41 | the done count is at most the total, equal to it exactly when all are done, and zero exactly when none is |
| Checklist.RatioParts | Stok/Pages/ChecklistPage.xaml.cs:41 | both numbers can be read back from the "done/total" text |
| Checklist.SummaryTextMeaning | Stok/Pages/ChecklistPage.xaml.cs:39-41 | the summary is the "no list" text exactly for an empty list, else the prefix and a ratio that reads back as done count and total |
| Checklist.SortByOrderFacts | Stok/Pages/ChecklistPage.xaml.cs:64 | OrderBy by order number sorts, keeps every item, and is stable |
| Checklist.StoredItemsDistinct | Stok/Pages/ChecklistPage.xaml.cs:183-186 | with distinct identifiers the stored table is exactly the displayed list, one row per item |
| Checklist.StoredItemsKeys | Stok/Pages/ChecklistPage.xaml.cs:183-186 | the table has a row under each displayed identifier and no other |
| Checklist.StoredItemsRows | Stok/Pages/ChecklistPage.xaml.cs:183-186 | every stored row is a displayed item |
| Checklist.StoredItemsLast | Stok/Pages/ChecklistPage.xaml.cs:183-186 | an item sharing its identifier with no later item is the row stored under it |
| Checklist.ChecklistDetailsMeaning | Stok/Pages/ChecklistPage.xaml.cs:196-201 | one detail per patient in order, quantity 1 when done and 0 otherwise, adding up to the done count |
| Checklist.ChecklistEntryMeaning | Stok/Pages/ChecklistPage.xaml.cs:189-202 | a reversible Checklist entry whose summary reads back as done/total and whose details record who is done |
| Checklist.SaveProceedsCases | Stok/Pages/ChecklistPage.xaml.cs:161-175 | the list is saved exactly when it is non-empty and complete or confirmed |
| Checklist.EmptiedByListing | Stok/Pages/ChecklistPage.xaml.cs:177-181 | deleting every listed row empties the table |
| Checklist.ChecklistPage.constructor | Stok/Pages/ChecklistPage.xaml.cs:24-35 | the list starts empty |
| Checklist.ChecklistPage.Load | Stok/Pages/ChecklistPage.xaml.cs:57-70 | the list is the stored items in order-number order |
| Checklist.ChecklistPage.Import | Stok/Pages/ChecklistPage.xaml.cs:110-119 | the imported items replace the list, in order-number order, none done |
| Checklist.ChecklistPage.SelectAll | Stok/Pages/ChecklistPage.xaml.cs:127-133 | every item is ticked and nothing else changes |
| Checklist.ChecklistPage.MarkCompleted | Stok/Pages/ChecklistPage.xaml.cs:135-141 | every item not done is ticked, giving the same list as select all |
| Checklist.ChecklistPage.DeleteStoredItems | Stok/Pages/ChecklistPage.xaml.cs:177-181 | deleting each stored row in turn empties the checklist table |
| Checklist.ChecklistPage.SaveItems | Stok/Pages/ChecklistPage.xaml.cs:183-186 | saving each displayed item fills the table with them |
| Checklist.ChecklistPage.SaveEntry | Stok/Pages/ChecklistPage.xaml.cs:188-204 | the history entry is stored under a fresh identifier |
| Checklist.ChecklistPage.Save | Stok/Pages/ChecklistPage.xaml.cs:159-207 | an empty or unconfirmed incomplete list writes nothing; otherwise the table becomes the displayed list and one Checklist entry is added |
| History.FilterNameRoundTrip | Stok/Pages/HistoryPage.xaml.cs:185-191 | each button's parameter selects its own filter |
| History.FilterPartition | Stok/Pages/HistoryPage.xaml.cs:136-145 | "all" admits every kind; the Stock filter admits exactly StockIn, StockOut and Delete, and each kind is admitted by exactly one kind filter |
| History.BuildDisplayItem | Stok/Pages/HistoryPage.xaml.cs:67-118 | the display item wraps its entry with one line per detail |
| History.DetailLineStartsWithName | Stok/Pages/HistoryPage.xaml.cs:70-107 | each detail line opens with the material's or patient's name |
| History.AuthorText | Stok/Pages/HistoryPage.xaml.cs:112-114 | the author line is "Sistem" exactly when the entry names nobody |
| History.SearchFindsName | Stok/Pages/HistoryPage.xaml.cs:159 | searching any piece of a material's name finds every entry with a line for it |
| History.SearchFindsSummary | Stok/Pages/HistoryPage.xaml.cs:154 | searching any piece of the summary finds the entry |
| History.VisibleMembers | Stok/Pages/HistoryPage.xaml.cs:120-128 | an entry is shown exactly when it is listed and admitted by filter and search |
| History.VisibleAll | Stok/Pages/HistoryPage.xaml.cs:149-152 | with no filter and a blank search everything is shown |
| History.FirstWhereSpec | Stok/Pages/HistoryPage.xaml.cs:424-434 | FirstOrDefault finds the first accepted element, and nothing exactly when none is accepted |
| History.FirstWhereListing | Stok/Pages/HistoryPage.xaml.cs:424-434 | searching the listing finds a stored material the test accepts, and nothing exactly when no stored one is accepted |
| History.ResolveMeaning | Stok/Pages/HistoryPage.xaml.cs:299-313 | what is found is stored, and nothing is found exactly when the identifier is not stored and no material has the line's serial or lot |
| History.ResolvePriority | Stok/Pages/HistoryPage.xaml.cs:299-313 | the identifier wins, then the first serial match, then the first lot match |
| History.LineEffect | Stok/Pages/HistoryPage.xaml.cs:315-383 | one line changes only its target, a new target carrying the line's snapshot and the entry's author |
| History.LineTotal | Stok/Pages/HistoryPage.xaml.cs:328-381 | one line moves the total by the target's change: exact for Case and Delete, at least the quantity for StockOut, at most for StockIn |
| History.LineNonNegative | Stok/Pages/HistoryPage.xaml.cs:377-381 | the floor keeps StockIn and StockOut results non-negative |
| History.UnresolvedLine | Stok/Pages/HistoryPage.xaml.cs:359-375 | an unresolved StockIn line is skipped, while a Case or StockOut line creates a material holding its quantity |
| History.LinesKeyed | Stok/Pages/HistoryPage.xaml.cs:297-330 | undo keeps the table keyed, never removes a material, and the stock kinds never leave a negative quantity |
| History.RestoredTotal | Stok/Pages/HistoryPage.xaml.cs:297-330 | undoing a Case or Delete entry adds exactly its quantities to the total |
| History.ClampedTotal | Stok/Pages/HistoryPage.xaml.cs:341-384 | undoing a StockOut entry adds at least its quantities |
| History.ClampedTotalExact | Stok/Pages/HistoryPage.xaml.cs:341-384 | without negative quantities StockOut undo adds exactly its quantities and StockIn undo removes at most its own |
| History.RecreatedCount | Stok/Pages/HistoryPage.xaml.cs:394-407 | Delete undo creates one material per line and leaves every stored one as it was |
| History.BuildDisplayItems | Stok/Pages/HistoryPage.xaml.cs:58-62 | the loop wraps each entry for display in listing order |
| History.HistoryPage.constructor | Stok/Pages/HistoryPage.xaml.cs:21-33 | empty lists, the "all" filter and an empty search |
| History.HistoryPage.ApplyFilters | Stok/Pages/HistoryPage.xaml.cs:120-134 | the screen shows the admitted entries |
| History.HistoryPage.LoadHistory | Stok/Pages/HistoryPage.xaml.cs:53-65 | every stored entry, newest first, then the filters |
| History.HistoryPage.SearchTextChanged | Stok/Pages/HistoryPage.xaml.cs:167-171 | a missing text counts as empty and the filters run |
| History.HistoryPage.FilterClicked | Stok/Pages/HistoryPage.xaml.cs:178-194 | a click without a text parameter does nothing, otherwise the named filter is applied |
| History.HistoryPage.ResolveLine | Stok/Pages/HistoryPage.xaml.cs:299-313 | the lookup chain computes Resolve |
| History.HistoryPage.UndoLineIn | Stok/Pages/HistoryPage.xaml.cs:297-330 | one pass of an undo loop computes UndoLine on the store |
| History.HistoryPage.UndoLinesIn | Stok/Pages/HistoryPage.xaml.cs:341-384 | the loop over the details computes UndoLines on the store |
| History.HistoryPage.RemoveEntry | Stok/Pages/HistoryPage.xaml.cs:332-335 | the entry is deleted from the store and both lists, and the filters run again |
| History.HistoryPage.DeleteReferencedCase | Stok/Pages/HistoryPage.xaml.cs:288-295 | the referenced case is deleted when it still exists; a missing one is passed over |
| History.HistoryPage.Undo | Stok/Pages/HistoryPage.xaml.cs:242-284 | a non-reversible or unconfirmed undo changes nothing; otherwise the kind's rule is applied to every line and the entry removed |
| CaseUndo.ConsumedKeepsCreated | Stok/Pages/CaseEntryPage.xaml.cs:388-392 | every item the save decrements is already stored, so each keeps its creation time |
| CaseUndo.RestoreById | Stok/Pages/HistoryPage.xaml.cs:299-330 | a Case line whose material identifier is stored adds its quantity to that row and stamps it, changing nothing else |
| CaseUndo.RestoreStep | Stok/Pages/HistoryPage.xaml.cs:328-329 | adding one line's quantity back to its item extends the restored state by that line |
| CaseUndo.RestoreNext | Stok/Pages/HistoryPage.xaml.cs:297-330 | undoing one more detail of the save's entry gives its item back that line's quantity |
| CaseUndo.RestorePrefix | Stok/Pages/HistoryPage.xaml.cs:297-330 | after the first lines are undone each item has gained back exactly what those lines took, and nothing else changed but update times |
| CaseUndo.RestoreAll | Stok/Pages/HistoryPage.xaml.cs:297-330 | after all the details are undone each item has gained back everything the lines took |
| CaseUndo.RestoredToStart | Stok/Pages/CaseEntryPage.xaml.cs:388-392 | an item lowered by what the lines took and given it back is its row before the save, but for the update time |
| CaseUndo.ConsumeThenRestore | Stok/Pages/CaseEntryPage.xaml.cs:388-392 | the save's stock loop followed by the Case undo of its details gives every row back its quantity and all fields but the update time, also for an item two lines took from, and creates no material |
| CaseUndo.RestoreWritten | Stok/Pages/HistoryPage.xaml.cs:297-330 | the same for the table and details the save wrote |
| CaseUndo.CaseUndoRoundTrip | Stok/Pages/HistoryPage.xaml.cs:286-336 | undoing the entry of a checked save: it is reversible and restores, deleting its case and itself leaves the case and history tables as before the save, and its details restore every material |
| CaseUndo.CommittedRestock | Stok/Pages/HistoryPage.xaml.cs:297-330 | the details of a checked save's entry, undone on the tables it wrote, restore every material and create none |
| CaseUndo.CommittedStock | Stok/Pages/CaseEntryPage.xaml.cs:386-408 | a checked save writes the consumed materials, stores the case's lines in its entry and moves the counter past the case's identifier |
| CaseUndo.RemoveAdded | Stok/Pages/HistoryPage.xaml.cs:288-295 | deleting the key the save just added gives the table back |
| CaseUndo.LeadAChecks | Stok/Pages/CaseEntryPage.xaml.cs:326-355 | a line of 5 on serial S1 against a lead with 12 on hand passes validation |
| CaseUndo.LeadARoundTrip | Stok/Pages/HistoryPage.xaml.cs:297-330 | that line leaves the lead at 7 and undoing the entry brings it back to 12 |
| DeviceCounts.MatchingSpec | Stok/Pages/DeviceCountsPage.xaml.cs:77-79 | a category holds each material whose name contains one of its keywords, as often as the listing does, and nothing else |
| DeviceCounts.ModelKeysSpec | Stok/Pages/DeviceCountsPage.xaml.cs:81-83 | each material falls under exactly one model name, and each name is a material's |
| DeviceCounts.ModelItemsSpec | Stok/Pages/DeviceCountsPage.xaml.cs:81-83 | a model holds each material named like it, as often as the list does, and nothing else |
| DeviceCounts.ModelItemsIC | Stok/Pages/DeviceCountsPage.xaml.cs:82 | two spellings of a name select the same materials |
| DeviceCounts.FindModel | Stok/Pages/DeviceCountsPage.xaml.cs:88 | finds a model with the name ignoring case, or none exists |
| DeviceCounts.ModelFor | Stok/Pages/DeviceCountsPage.xaml.cs:88-102 | the category's model of that name is reused, keeping its expansion, or a new one is made; its items become exactly the group |
| DeviceCounts.FillCategory | Stok/Pages/DeviceCountsPage.xaml.cs:85-106 | the category is rebuilt: one model per name group holding exactly it, old models kept exactly when their group remains and keeping expansion, new ones expanded |
| DeviceCounts.FillStep | Stok/Pages/DeviceCountsPage.xaml.cs:86-104 | one pass extends the filled list with the key's model, holding the key's group; the other models keep their items and expansion |
| DeviceCounts.CategoryStatesSpec | Stok/Pages/DeviceCountsPage.xaml.cs:49 | the category dictionary holds each category's expansion under its title and nothing else |
| DeviceCounts.ModelStatesKeys | Stok/Pages/DeviceCountsPage.xaml.cs:50-52 | every key of the model dictionary pairs a category's title with one of its models' names |
| DeviceCounts.NewTitleNotStored | Stok/Pages/DeviceCountsPage.xaml.cs:54-70 | a category added by the first loop has no stored state, so it stays expanded |
| DeviceCounts.AppendKeeps | Stok/Pages/DeviceCountsPage.xaml.cs:56-60 | adding an expanded, empty category under a new title keeps the page invariant |
| DeviceCounts.RebuildAt | Stok/Pages/DeviceCountsPage.xaml.cs:63-107 | one pass takes the stored expansion and rebuilds category i, each model holding exactly its group, leaving the others alone |
| DeviceCounts.StartFill | Stok/Pages/DeviceCountsPage.xaml.cs:49-63 | the dictionaries read first start the second loop, and every model key names an old model |
| DeviceCounts.EndFill | Stok/Pages/DeviceCountsPage.xaml.cs:63-107 | once the loop is through, every category is rebuilt and the page invariant holds |
| DeviceCounts.FillOne | Stok/Pages/DeviceCountsPage.xaml.cs:63-107 | one pass carries the loop's state, each rebuilt model holding exactly its group, to the next category |
| DeviceCounts.DeviceCountsPage.constructor | Stok/Pages/DeviceCountsPage.xaml.cs:23-30 | the page starts without categories |
| DeviceCounts.DeviceCountsPage.ReadStates | Stok/Pages/DeviceCountsPage.xaml.cs:49-52 | the two dictionaries read before rebuilding |
| DeviceCounts.DeviceCountsPage.AddIfMissing | Stok/Pages/DeviceCountsPage.xaml.cs:56-60 | a category with the title is added, expanded, unless one is there ignoring case |
| DeviceCounts.DeviceCountsPage.AddMissingCategories | Stok/Pages/DeviceCountsPage.xaml.cs:54-61 | every keyword category is present afterwards; added ones are new, expanded and empty; old ones are unchanged |
| DeviceCounts.DeviceCountsPage.FillAll | Stok/Pages/DeviceCountsPage.xaml.cs:63-107 | each category keeps its expansion (the stored value is its own) and is rebuilt from the materials, each model holding exactly its group |
| DeviceCounts.DeviceCountsPage.BuildCategories | Stok/Pages/DeviceCountsPage.xaml.cs:47-108 | every keyword category is present, each keeps its expansion (new ones expanded), and each is rebuilt from the materials, each model holding exactly its group |
| DeviceCounts.DeviceCountsPage.Load | Stok/Pages/DeviceCountsPage.xaml.cs:40-45 | the categories are rebuilt from the stored materials in listing order, each model holding exactly its group |
| DeviceCounts.DeviceCountsPage.ToggleCategory | Stok/Pages/DeviceCountsPage.xaml.cs:110-118 | the category's expansion flips |
| DeviceCounts.DeviceCountsPage.ToggleModel | Stok/Pages/DeviceCountsPage.xaml.cs:120-128 | the model's expansion flips |
| Excel.BuildHeaderMap | Stok/Services/ExcelService.cs:206-219 | the loop over the first row's cells computes HeaderMapOf |
| Excel.SetHeaderLookup | Stok/Services/ExcelService.cs:214 | after headerMap[header] = col a key equal to the header finds col, and any other finds what it found before |
| Excel.SetHeaderKeys | Stok/Services/ExcelService.cs:214 | the indexer adds the header as a key exactly when no key equals it ignoring case |
| Excel.HeaderMapLookup | Stok/Services/ExcelService.cs:206-228 | a key finds the column of the last trimmed, non-blank header equal to it, and the map holds each header once ignoring case |
| Excel.HeaderMapLaterWins | Stok/Services/ExcelService.cs:211-214 | "Ad" in column 1 and "AD" in column 3 give column 3 for "ad" |
| Excel.HeaderMapTrims | Stok/Services/ExcelService.cs:211-214 | a header " Ad " is found as "Ad" |
| Excel.HeaderColumnSpec | Stok/Services/ExcelService.cs:225 | no column is found exactly when no key of the header map matches ignoring case; a found one is the first match's |
| Excel.CellForNone | Stok/Services/ExcelService.cs:221-234 | nothing is read exactly when no synonym names a column |
| Excel.CellForFirst | Stok/Services/ExcelService.cs:221-234 | the first synonym that names a column gives the cell |
| Excel.ReadCell | Stok/Services/ExcelService.cs:221-234 | the loop over the synonyms computes CellFor |
| Excel.ParseQuantity | Stok/Services/ExcelService.cs:236-244 | the quantity is a 32-bit integer, and 0 when the text holds none |
| Excel.ParseQuantityRoundTrip | Stok/Services/ExcelService.cs:236-244 | a quantity written out reads back as itself, and a missing cell reads as 0 |
| Excel.IndexOf | Stok/Services/ExcelService.cs:278 | IndexOf finds the first position of the character, or none exists |
| Excel.ExtractValueAfterColon | Stok/Services/ExcelService.cs:278-282 | "LABEL:value" yields the value trimmed |
| Excel.ExtractValueAfterEquals | Stok/Services/ExcelService.cs:284-288 | "LABEL=value" without a colon yields the value trimmed |
| Excel.ExtractValueWhole | Stok/Services/ExcelService.cs:290 | a text with no separator, or one only at its end, yields itself trimmed |
| Excel.ParseDate | Stok/Services/ExcelService.cs:268 | a parsed date is a real calendar date |
| Excel.ParseFormattedDate | Stok/Services/ExcelService.cs:268 | a valid date written as dd.MM.yyyy parses back to itself |
| Excel.PopulateMaterialFromDescription | Stok/Services/ExcelService.cs:246-274 | the segment loop computes Populated on the material |
| Excel.PopulatedOtherFields | Stok/Services/ExcelService.cs:246-274 | only serial, lot and expiry date can change |
| Excel.ApplySegmentsAppend | Stok/Services/ExcelService.cs:254-273 | segments apply one after the other |
| Excel.LastSerialWins | Stok/Services/ExcelService.cs:257-260 | a later serial segment overwrites earlier ones |
| Excel.LastLotWins | Stok/Services/ExcelService.cs:261-264 | a later lot segment overwrites earlier ones |
| Excel.ExpirySegmentSets | Stok/Services/ExcelService.cs:265-271 | an expiry segment sets the date only when its value parses |
| Excel.PopulateLabelled | Stok/Services/ExcelService.cs:253-272 | "SERİ:a/LOT:b/SKT:c" sets serial a, lot b and, when c is a date, the expiry date, and nothing else |
| Excel.PopulateExample | Stok/Services/ExcelService.cs:253-272 | "SERİ:AB-12/LOT:LT-7/SKT:31.07.2026" gives serial AB-12, lot LT-7 and expiry 31 July 2026 |
| Excel.NormalizeHospitalSpec | Stok/Services/ExcelService.cs:413-435 | a blank name gives "", and a name that does not mention both the training and the research words is only trimmed |
| Excel.NormalizeHospitalWithoutPhrase | Stok/Services/ExcelService.cs:420-434 | a name without the long phrase is only trimmed |
| Excel.NormalizeHospitalShortens | Stok/Services/ExcelService.cs:420-434 | "Ankara Eğitim ve Araştırma Hastanesi" becomes "Ankara EAH" |
| Excel.DigitsOf | Stok/Services/ExcelService.cs:444 | keeps only digits, never lengthens the text, and leaves an all-digit text as it is |
| Excel.NormalizePhoneSpec | Stok/Services/ExcelService.cs:437-451 | blank gives ""; any other gives one to eleven digits starting with '0' |
| Excel.NormalizePhoneIdempotent | Stok/Services/ExcelService.cs:437-451 | normalising twice is normalising once |
| Excel.NormalizePhoneAddsPrefix | Stok/Services/ExcelService.cs:445-448 | a ten-digit number without the trunk prefix gets '0' in front |
| Excel.ParseTime | Stok/Services/ExcelService.cs:453-461 | whatever the text, the result is a minute within the day |
| Excel.ParseTimeText | Stok/Services/ExcelService.cs:455 | every time written as hh:mm reads back as itself |
| Excel.UsedMaterialLine | Stok/Services/ExcelService.cs:303-314 | a line starts with the material's name and adds more |
| Excel.FormatUsedMaterials | Stok/Services/ExcelService.cs:293-318 | the StringBuilder loop joins the materials' lines with line breaks |
| Excel.FormattedLines | Stok/Services/ExcelService.cs:293-318 | when no name or serial holds a line break, splitting the text gives back one line per material |
| Excel.HarvestedRowsIncreasing | Stok/Services/ExcelService.cs:23-39 | kept records come from strictly later rows along the list |
| Excel.HarvestComplete | Stok/Services/ExcelService.cs:23-39 | a row that yields a record has it kept |
| Excel.MaterialFromRow | Stok/Services/ExcelService.cs:25-31 | the material of a row takes name, owner and quantity from their synonym columns |
| Excel.MaterialCandidateSome | Stok/Services/ExcelService.cs:33-38 | a kept material is its row's, with a non-blank name |
| Excel.ImportedMaterialSound | Stok/Services/ExcelService.cs:23-39 | each imported material is what its row yields |
| Excel.ImportedMaterialsOrdered | Stok/Services/ExcelService.cs:23-39 | imported materials come in row order, with distinct identifiers |
| Excel.ImportedMaterialsNamed | Stok/Services/ExcelService.cs:33-36 | every imported material has a name |
| Excel.ImportedMaterialsComplete | Stok/Services/ExcelService.cs:33-38 | every row whose material has a name is imported |
| Excel.ImportMaterials | Stok/Services/ExcelService.cs:14-43 | the loop over the data rows computes ImportedMaterials |
| Excel.ReadMaterialCandidate | Stok/Services/ExcelService.cs:25-38 | one pass reads the cells, applies the description and keeps a named material |
| Excel.ChecklistItemFacts | Stok/Services/ExcelService.cs:164-172 | an item is not done, has a time within the day, a trimmed patient and normalised hospital and phone |
| Excel.ImportedItemSound | Stok/Services/ExcelService.cs:151-175 | each imported item comes from a row naming a patient |
| Excel.ImportedItemsShape | Stok/Services/ExcelService.cs:159-172 | every imported item is not done, has a time within the day and a trimmed non-empty patient |
| Excel.ImportedChecklistOrdered | Stok/Services/ExcelService.cs:151-175 | imported items come in row order |
| Excel.ImportedChecklistComplete | Stok/Services/ExcelService.cs:159-174 | every row naming a patient yields its item |
| Excel.ImportChecklist | Stok/Services/ExcelService.cs:142-179 | the loop over the data rows computes ImportedChecklist |
| Excel.ReadChecklistCandidate | Stok/Services/ExcelService.cs:153-174 | a row with a blank patient is skipped; any other yields its item |

## Left out

- MAUI plumbing is not modelled: property-change notifications, alerts,
  prompts, navigation, file picking, sharing, clipboard, toasts, colours and
  glyphs. Alert answers appear as parameters, such as `confirm` and
  `confirmIncomplete`.
- ClosedXML workbook reading and writing is not modelled: the export methods
  and the sheet writers in `Stok/Services/ExcelService.cs`. The first row is a
  sequence of (text, column) cells, data rows are maps from column to cell
  text, and the header map is a sequence of (header, column) entries in the
  order the headers were first added. Of the export code, only
  `FormatUsedMaterials` is modelled.
- SQLite connection setup and its lazy initialisation are left out. The store
  is a set of maps in memory. A failed operation or an exception part-way
  through a loop is not modelled, so the missing atomicity of the case save and
  of undo is not captured. The unique index on `User.Username` is not modelled
  either: there `InsertAsync` of a name already taken throws.
- Storing details as JSON is left out: details are a real sequence of records.
- AuthService, LoginPage, SettingsPage, HomePage, App, AppShell, MauiProgram and
  ServiceHelper are not part of this model. The signed-in user's name is an
  input. `FindUserByUsernameAsync` and `GetUserAsync` are used only by
  AuthService and are not modelled.
- Async/await is modelled as sequential code.
- Clocks are left out: the current time is a parameter (`now`, `today`), and
  the time of day added to a case date is part of that parameter.
- `Database.Store.NewId`: `Guid.NewGuid` is modelled as a counter that no table
  uses yet. Imported rows get the counter value plus their row index.
- Case-insensitive comparison folds the ASCII letters and ç, ğ, ö, ş, ü only.
  It stands for .NET `OrdinalIgnoreCase`, whose full Unicode case tables are
  not modelled; İ and ı in particular are compared as they are.
  `CurrentCultureIgnoreCase` ordering is taken to be the order of the folded
  text.
- The SQLite order of equal names, dates or order numbers is unspecified.
  `Ordering` breaks such ties by identifier.
- `int.TryParse`, `DateTime.TryParseExact` and `TimeSpan.TryParseExact` are
  small concrete parsers:
  - optional white space and sign, then digits fitting in 32 bits;
  - `d.M.yyyy` with one- or two-digit day and month and a real date;
  - `h:mm` with an hour up to 23.
  Culture-specific digits and formats are not covered.
- `ToDictionary` throws on a duplicate key in `BuildCategories`. The page
  invariant (titles distinct ignoring case, model names distinct within a
  category) rules that case out, so the exception is not modelled.
- Display items are values in sequences, so aliasing is not modelled: the
  checklist's and the history page's display items cannot be changed through
  two references.
- Materials are values identified by key rather than objects. On the stock page
  a material's identifier stands for its object: the list and the groups hold
  records, and after an edit the groups show the new record in the old place
  (`StockList.EditKeepsPlace`). Two distinct objects with one identifier are not
  distinguished.
- `StockManagement.StockManagementPage.Submit` changes the selected object in
  place, and that object is also an element of the page's material list. The
  model changes the selection and the store only. The list is not changed,
  because the page navigates back and reloads it before it shows again.
- The stock page's `OnAppearing`/`LoadMaterialsAsync` reload, with the seeding
  of four materials into an empty store, is not modelled. A reload gives new
  objects, so afterwards every group holds exactly its key's listed
  materials. Keyed by identifier, the model would keep the old positions
  instead, so that step is left out.
- `StockList.GroupKeyMeaning` (and `StockList.GroupKey`): `char.ToUpper` and
  `char.IsLetterOrDigit` follow the current culture and all of Unicode. The
  model upper-cases and recognises only the ASCII letters and digits and the
  Turkish letters. A name starting with another letter, such as "Émile", gets
  the key "?" here but "É" in the app. Culture-specific upper-casing (a
  Turkish "i" to "İ") is not modelled either.
- `Excel.LineBreak`: `Environment.NewLine` is taken as "\n". On Windows it is
  "\r\n", and `Excel.FormattedLines` does not cover that.
- `StockList.MoveBack`: `ObservableCollection.Move` is modelled only for a
  move to an earlier position, which is the only direction the Move loop uses.
- `History.HistoryPage.LoadHistory`: the page's second `OrderByDescending` is
  stable over a listing that is already newest first, so it is modelled as
  keeping that order.
- `StockList.MissingExpiryLast` is weaker than the source's intent. In
  descending order a missing date compares as `DateTime.MinValue`, so a material
  dated 01.01.0001 may come after one with no date. The lemma states exactly
  that exception.
- `CaseEntry.CaseEntryPage.Persist` states the tables after a save through
  `Committed`. The returned `after` list, the inventory after consumption, is
  characterised only through `Consumed`, and `Finish` replaces it with the
  store's listing.
- `DeviceCounts.DeviceCountsPage.ReadStates` states the keys of the model
  dictionary but not its values. Those values are never read, because no lookup
  hits (see above).
- `Groups.DeviceCategoryGroup` and `Groups.DeviceModelGroup`: `TotalQuantity` is
  defined as the sum over the models or items. Only `Groups.ReplacedTotal`
  states a property of totals.
- Quantities are unbounded integers. In the source `Material.Quantity` and
  `UsedMaterialRecord.Quantity` are 32-bit `int`s: `+=` and `-=` wrap around
  without a check, and LINQ `Sum` throws `OverflowException` past the 32-bit
  range. Neither is modelled. The members whose contracts rest on exact sums
  and differences are listed below, each on its own line.
- `StockManagement.SubmitMoves`: an In near the 32-bit maximum wraps to a
  negative stock in the source; the model adds exactly.
- `StockManagement.InThenOut`: it assumes the In did not wrap around, which
  the model's unbounded addition cannot express.
- `StockManagement.StockManagementPage.Submit`: the In branch's `+=` is exact
  here and wraps in the source.
- `History.LineTotal`: the undo's `+=` and `-=` on a quantity are exact here;
  in the source they can wrap before the clamp to zero applies.
- `History.RestoredTotal`: the exact sum assumes no quantity wraps around.
- `History.ClampedTotal`: the bound assumes no quantity wraps around.
- `History.ClampedTotalExact`: the exact sum assumes no quantity wraps around.
- `StockList.DisplayedTotal`: `Sum` throws `OverflowException` past the 32-bit
  range in the source; here the total is the exact sum.
- `StockList.StockPage.Refresh`: the total it shows is the exact sum, where the
  source's `Sum` would throw.
- `StockList.StockPage.ShowFiltered`: the same exact total as `Refresh`.
- `CaseUndo.CaseUndoRoundTrip` and `CaseUndo.ConsumeThenRestore`: the quantity
  the save subtracts and the undo adds back are exact, so the round trip does
  not cover a decrement that wraps. Both also take the page's inventory to be
  the store's current listing, as it is when the page has just loaded it.
