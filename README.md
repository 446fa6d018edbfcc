# Runeterra mutator companion — local data layer

This project models the data layer of the Legends of Runeterra "mutator companion" web app.
The app keeps three records in the browser's local storage:

- `lorMutators`: the list of mutator records (name, rarity, description, good and bad champions, strategy, tag);
- `lorTags`: a dictionary from tag name to the champion lists recommended for that tag;
- `lorCompanionData`: a snapshot object holding one entry per imported spreadsheet sheet (for instance `Roster`).

The model covers how each screen reads, changes and writes these records:

- the mutator hook: add with tag-based champion inference, edit, delete, bulk import, tag edit, persistence;
- the tag hook;
- the unified database hook;
- the spreadsheet import on the mutators page and the whole-workbook import and export in the header;
- the champion page (look-up, field edit, save);
- the roster's star rank, star toggle and filter;
- the search on the mutators page and the card's champion-list parser;
- the add, edit and tag-edit dialogs.

Local storage is a `Storage.Store` object holding a map from key to entry. An entry is either parsed JSON (`Json`) or text that does not parse (`Malformed`). Hooks whose state lives across calls are classes with `modifies` clauses. Each of their methods is specified against a pure function, and the properties are lemmas about those functions:

- storing then loading gives back what was stored;
- ids stay distinct;
- searching and filtering yield exactly the matching records, in order;
- export then import gives back each record's fields.

The clock (`Date.now()`) is a parameter `now`. A spreadsheet workbook is a value: its sheet names in order, plus a map from sheet name to rows. The spreadsheet library's parsing and writing are not modelled.

Some behaviours of the app that a user might not expect are kept as they are:

- Editing a mutator's tag does not rewrite the `Tags` section of the snapshot.
- When the tag already has mutators, the add operation discards the champion lists the user typed. It replaces them with the lists inferred from the other mutators with that tag.
- Ids made in the same millisecond collide. `AddKeepsIdsDistinct` needs a fresh timestamp for that reason.
- The import on the mutators page reads only the `Tag` column, while the export writes `Mutator_tags`. So a round trip through that importer loses the tag (`GlobalHeader.PageImportOfExportRow`). The header importer reads `Mutator_tags` first (`GlobalHeader.HeaderImportOfExportRow`).

## Model

| member | source | states |
|---|---|---|
| Text.Trim | src/hooks/useMutators.tsx:73 | `String.prototype.trim`: the result has no leading or trailing whitespace, is the slice of the input that starts after its leading whitespace, and everything after that slice is whitespace |
| Text.LeadingSpace | src/hooks/useMutators.tsx:73 | the length of the input's leading whitespace: every character before it is whitespace and the character at it is not |
| Text.TrimBlank | src/components/mutators/AddMutatorDialog.tsx:42 | a trimmed string is empty exactly when every character of the input is whitespace (the dialogs' `!x.trim()` guard) |
| Text.TrimIdempotent | src/components/mutators/AddMutatorDialog.tsx:47-53 | trimming twice is the same as trimming once |
| Text.Lower | src/pages/MutatorsDatabase.tsx:34 | `toLowerCase` keeps the length and lower-cases character by character |
| Text.Contains | src/pages/MutatorsDatabase.tsx:34-36 | `includes` holds exactly when the needle occurs at some index of the text |
| Text.ContainsEmpty | src/pages/MutatorsDatabase.tsx:34 | every text includes the empty string |
| Text.Split | src/hooks/useMutators.tsx:73 | `split(/[,;]/)` yields at least one piece, no piece holds a separator, and a text without separators splits into itself |
| Text.SplitAtSeparator | src/hooks/useMutators.tsx:73 | a text made of a separator-free piece, a comma or semicolon, and a rest splits into that piece followed by the pieces of the rest |
| Text.SplitKeepsEmptyPieces | src/hooks/useMutators.tsx:73 | splitting keeps empty pieces between adjacent commas |
| Text.TrimAllAt | src/hooks/useMutators.tsx:73 | mapping `trim` over the pieces trims each piece in place |
| Text.TrimSeparatorFree | src/components/mutators/MutatorCard.tsx:40 | trimming a piece without separators gives a piece without separators |
| Text.SplitJoin | src/hooks/useMutators.tsx:80-81 | splitting a comma-joined list of separator-free names gives back the names |
| Text.JoinSplit | src/hooks/useMutators.tsx:80-81 | re-joining the pieces of a text with no semicolons gives back the text |
| Text.DigitsValueOfNatToString | src/hooks/useMutators.tsx:61 | the decimal text of a timestamp reads back as that timestamp |
| Text.NatToStringInjective | src/hooks/useMutators.tsx:61 | different timestamps give different id texts |
| Text.DigitSuffixDetermined | src/hooks/useExcelImport.tsx:59 | the digits after the last dash of an `imported-…-index` id are determined by the id |
| Text.ParseIntWithoutDigits | src/pages/Champion.tsx:167 | `parseInt(text) \|\| 0` is 0 when no digit follows the leading whitespace and optional sign |
| Text.ParseIntOfIntToString | src/pages/Champion.tsx:167 | `parseInt(text) \|\| 0` reads back any integer typed in decimal |
| Text.ParseIntOfEveryIntToString | src/pages/Champion.tsx:167 | every integer typed in decimal reads back as itself |
| Seqs.Filter | src/hooks/useMutators.tsx:95 | `Array.filter` keeps exactly the elements that pass, in their original order |
| Seqs.FilterNoDuplicates | src/pages/Roster.tsx:78 | filtering a list without duplicates gives a list without duplicates |
| Seqs.FlatMapMembers | src/hooks/useMutators.tsx:68-78 | a name is collected exactly when some tagged mutator's list contains it |
| Seqs.DedupSpec | src/hooks/useMutators.tsx:68-78 | a `Set` built by `add` holds each collected value once, and exactly the collected values |
| Seqs.DedupAppend | src/hooks/useMutators.tsx:68-78 | adding the values of a further list to a `Set` is the same as deduplicating the concatenation |
| Seqs.DedupFirstAppearanceOrder | src/hooks/useMutators.tsx:80-81 | a `Set` iterates its values in the order they were first added |
| Seqs.DedupOfDistinct | src/hooks/useMutators.tsx:68-78 | a list without duplicates is unchanged by going through a `Set` |
| Js.Get | src/hooks/useTags.tsx:41 | `obj[key]` is defined exactly for the keys present, and then is the stored value |
| Js.Or | src/hooks/useExcelImport.tsx:37-43 | `a \|\| b` is `a` when `a` is present and truthy, otherwise `b` |
| Js.Member | src/components/GlobalHeader.tsx:101-107 | reading a property fails on `null` and is a key look-up on an object |
| Js.StrField | src/components/GlobalHeader.tsx:117-118 | a string field is present exactly when the key holds a string |
| Storage.Store.Save | src/hooks/useTags.tsx:29 | `setItem` stores the value under its key and leaves every other key alone |
| Storage.Store.Remove | src/hooks/useUnifiedDatabase.tsx:53-55 | `removeItem` removes exactly that key |
| Mutators.ParseRarity | src/components/GlobalHeader.tsx:48 | a rarity text outside the four names becomes `Common`; the four names parse to themselves |
| Mutators.ParseRarityName | src/components/GlobalHeader.tsx:48 | naming a rarity and parsing the name gives back the rarity |
| Mutators.Tagged | src/hooks/useMutators.tsx:66 | the mutators with the new mutator's tag, in list order, and no others |
| Mutators.NewMutator | src/hooks/useMutators.tsx:58-87 | the new record has the timestamp as id and the draft's fields; with an existing tag, its champion lists are the inferred ones joined by `", "`, otherwise the typed ones |
| Mutators.InferredPiecesSpec | src/hooks/useMutators.tsx:68-81 | the inferred champion names have no duplicates, are exactly the pieces of the tagged mutators' lists, and keep first-appearance order |
| Mutators.EmptyPiecesKept | src/hooks/useMutators.tsx:73-76 | inference keeps empty pieces (`"A,,B"` contributes an empty name), since it does not filter them out |
| Mutators.PiecesOfTrimmedParts | src/hooks/useMutators.tsx:73 | a list whose split pieces are already trimmed splits into those pieces |
| Mutators.AddKeepsIdsDistinct | src/hooks/useMutators.tsx:61 | adding with a timestamp not yet used as an id keeps all ids distinct |
| Mutators.ReplaceById | src/hooks/useMutators.tsx:90 | editing replaces every record with the edited id and keeps the others in place |
| Mutators.RemoveById | src/hooks/useMutators.tsx:95 | deleting keeps exactly the records with another id, in order, and as many as there are such records |
| Mutators.RemoveAbsentId | src/hooks/useMutators.tsx:95 | deleting an id that no record has changes nothing |
| Mutators.ReplaceAbsentId | src/hooks/useMutators.tsx:90 | editing a record whose id is not in the list changes nothing |
| Mutators.SetTagById | src/hooks/useMutators.tsx:103-108 | a tag edit sets the tag of the records with that id and leaves every other record and field unchanged |
| Mutators.DecodeEncodeMutator | src/hooks/useMutators.tsx:20-30 | a stored record loads back as the same record |
| Mutators.DecodeEncodeMutators | src/hooks/useMutators.tsx:20-30 | a stored list loads back as the same list |
| Mutators.MutatorRow | src/hooks/useMutators.tsx:41-49 | the spreadsheet projection puts the name under `Mutator_name` and the tag under `Mutator_tags` |
| Mutators.ExportRow | src/hooks/useMutators.tsx:41-49 | a record's export row carries its name, and its tag or `""` |
| Mutators.ExportRowColumns | src/components/GlobalHeader.tsx:100-108 | an export row has exactly the seven spreadsheet columns, each holding the matching field |
| Mutators.ExportRows | src/hooks/useMutators.tsx:41-50 | one export row per record, in order |
| Mutators.Persisted | src/hooks/useMutators.tsx:33-56 | saving writes the encoded list under `lorMutators`, may touch the snapshot, and leaves every other key alone |
| Mutators.PersistedProjection | src/hooks/useMutators.tsx:36-53 | the snapshot's `Mutators` sheet is rewritten only when the stored snapshot is an object; a missing or unreadable snapshot is left as it was |
| Mutators.LoadAfterPersist | src/hooks/useMutators.tsx:20-56 | loading after saving gives back the saved list |
| Mutators.MutatorRegistry.constructor | src/hooks/useMutators.tsx:17-56 | the hook starts with the stored list, or empty when none can be read, and then saves it |
| Mutators.MutatorRegistry.Persist | src/hooks/useMutators.tsx:33-56 | the save effect leaves the store equal to `Persisted` of the current list |
| Mutators.MutatorRegistry.CollectChampions | src/hooks/useMutators.tsx:68-78 | the two `forEach` loops collect exactly the inferred good and bad names |
| Mutators.MutatorRegistry.AddPieces | src/hooks/useMutators.tsx:73-74 | adding one list's trimmed pieces to the collected names |
| Mutators.MutatorRegistry.AddTrimmed | src/hooks/useMutators.tsx:73-74 | the inner loop adds each trimmed piece to the `Set` |
| Mutators.MutatorRegistry.AddMutator | src/hooks/useMutators.tsx:58-87 | appends `NewMutator` of the current list, then saves |
| Mutators.MutatorRegistry.EditMutator | src/hooks/useMutators.tsx:89-92 | replaces by id, then saves |
| Mutators.MutatorRegistry.DeleteMutator | src/hooks/useMutators.tsx:94-97 | removes by id, then saves |
| Mutators.MutatorRegistry.AddImportedMutators | src/hooks/useMutators.tsx:99-101 | appends the imported batch, then saves |
| Mutators.MutatorRegistry.TagEdit | src/hooks/useMutators.tsx:103-108 | sets the tag by id, then saves |
| Tags.UpdateTags | src/hooks/useTags.tsx:32-36 | the updated dictionary maps the tag to the new data and keeps every other tag |
| Tags.GetAfterUpdate | src/hooks/useTags.tsx:32-42 | after an update the tag reads back as the new data, and every other tag is unchanged |
| Tags.UpdateIdempotent | src/hooks/useTags.tsx:32-36 | repeating the same update changes nothing |
| Tags.UpdatesOnlyGrow | src/hooks/useTags.tsx:32-36 | updates never remove a tag, and every updated tag is present afterwards |
| Tags.DecodeEncodeTags | src/hooks/useTags.tsx:17-30 | a stored tag dictionary loads back unchanged |
| Tags.DecodeEncodeTagData | src/hooks/useTags.tsx:17-30 | a stored tag entry loads back unchanged |
| Tags.PersistedTags | src/hooks/useTags.tsx:28-30 | saving writes only `lorTags` |
| Tags.LoadAfterPersistTags | src/hooks/useTags.tsx:17-30 | loading after saving gives back the saved dictionary |
| Tags.TagRegistry.constructor | src/hooks/useTags.tsx:15-30 | the hook starts with the stored dictionary, or empty, and saves it |
| Tags.TagRegistry.UpdateTag | src/hooks/useTags.tsx:32-36 | applies `UpdateTags`, then saves |
| Tags.TagRegistry.GetTagData | src/hooks/useTags.tsx:40-42 | returns the tag's data exactly when the tag is stored |
| ExcelImport.MutatorSheetNameNotEmpty | src/hooks/useExcelImport.tsx:21-23 | a sheet whose name mentions "mutator" has a non-empty name |
| ExcelImport.FindMutatorSheet | src/hooks/useExcelImport.tsx:21-22 | finds the first sheet whose lower-cased name contains "mutator", or reports that none does |
| ExcelImport.ChooseSheet | src/hooks/useExcelImport.tsx:21-28 | that sheet, else the first sheet when its name is not empty, else no sheet |
| ExcelImport.CellText | src/hooks/useExcelImport.tsx:39-43 | a missing or falsy cell reads as `""`, and a text cell reads as its text |
| ExcelImport.ValidRarity | src/hooks/useExcelImport.tsx:46 | one of the four rarity names is kept, anything else becomes `Common` |
| ExcelImport.PageImportRow | src/hooks/useExcelImport.tsx:35-67 | the record's id is `imported-now-index`; its name defaults to `Imported Mutator n`; every other field is its cell, with the tag read from `Tag`; a rarity cell holding one of the four names gives that rarity, anything else gives `Common` |
| ExcelImport.PageImportIgnoresMutatorTags | src/hooks/useExcelImport.tsx:43 | this importer ignores the `Mutator_tags` column |
| ExcelImport.ImportedIdInjective | src/hooks/useExcelImport.tsx:59 | two imported ids are equal only for the same row index |
| ExcelImport.ImportedIdNotTimestamp | src/hooks/useExcelImport.tsx:59 | an imported id never equals an id made by the add operation |
| ExcelImport.SheetRows | src/hooks/useExcelImport.tsx:30-31 | the rows of the named sheet, or no rows when the workbook has no sheet under that name |
| ExcelImport.ImportRows | src/hooks/useExcelImport.tsx:35-68 | one record per row, in row order |
| ExcelImport.ImportMutators | src/hooks/useExcelImport.tsx:21-75 | no chosen sheet and a chosen sheet without rows are the two errors (a name without a sheet reads as no rows); otherwise the records of the chosen sheet's rows |
| ExcelImport.ImportedIdsDistinct | src/hooks/useExcelImport.tsx:59 | one import's ids are pairwise distinct and never clash with the add operation's ids |
| GlobalHeader.SheetJson | src/components/GlobalHeader.tsx:27-31 | a sheet is stored as the array of its row objects |
| GlobalHeader.HeaderImportRow | src/components/GlobalHeader.tsx:39-59 | as the page importer, except that the tag is read from `Mutator_tags` first and then `Tag`, and the rarity is the text of the cell: one of the four names gives that rarity, any other text gives `Common` |
| GlobalHeader.HeaderImportRows | src/components/GlobalHeader.tsx:39-60 | one record per row, in row order |
| GlobalHeader.HeaderImportIdsDistinct | src/components/GlobalHeader.tsx:51 | the header import's ids are pairwise distinct |
| GlobalHeader.ImportStoresEverySheet | src/components/GlobalHeader.tsx:24-31 | the snapshot has exactly one entry per sheet name, holding that sheet's rows |
| GlobalHeader.ImportWithoutMutatorSheet | src/components/GlobalHeader.tsx:34-38 | without a mutator sheet, the stored mutator list is left as it was |
| GlobalHeader.ImportReplacesMutators | src/components/GlobalHeader.tsx:38-62 | with a mutator sheet, the stored list is replaced by the first such sheet's records |
| GlobalHeader.ImportWorkbook | src/components/GlobalHeader.tsx:19-74 | the store becomes `Imported`: every sheet name is stored in the snapshot (a name without a sheet as an empty sheet), and the first mutator sheet replaces the mutator list |
| GlobalHeader.HeaderImportOfExportRow | src/components/GlobalHeader.tsx:40-59 | importing an exported row gives back the record, with a fresh id and the tag text |
| GlobalHeader.PageImportOfExportRow | src/hooks/useExcelImport.tsx:37-66 | importing an exported row through the page importer gives back the record with a fresh id and an empty tag |
| GlobalHeader.Renamed | src/components/GlobalHeader.tsx:101-107 | a single column copied under its export name, present exactly when the field is |
| GlobalHeader.ExportRowJson | src/components/GlobalHeader.tsx:100-108 | mapping a stored record fails exactly on `null`, and a mapped row always has `Mutator_tags` |
| GlobalHeader.ExportRowsJson | src/components/GlobalHeader.tsx:99-108 | the mapping fails exactly when some stored item is `null`; otherwise one row per item, in order |
| GlobalHeader.ExportRowJsonOfEncoded | src/components/GlobalHeader.tsx:100-108 | exporting a stored record gives its export row |
| GlobalHeader.ExportRowsOfEncoded | src/components/GlobalHeader.tsx:98-110 | exporting a stored list gives its export rows |
| GlobalHeader.TagRow | src/components/GlobalHeader.tsx:115-119 | a tag row has its name and both champion lists, with `""` for a missing or falsy list |
| GlobalHeader.TagRows | src/components/GlobalHeader.tsx:115-119 | one row per tag, in enumeration order |
| GlobalHeader.TagsPart | src/components/GlobalHeader.tsx:113-121 | every stored tag entry that can be enumerated is not `null` |
| GlobalHeader.EnumerateKeys | src/components/GlobalHeader.tsx:115 | lists each tag name once |
| GlobalHeader.ExportData | src/components/GlobalHeader.tsx:84-128 | nothing stored is the "no data" error; otherwise the sheets are the snapshot's entries with `Mutators` and `Tags` replaced, in some key order, and any parse or shape failure is an error |
| GlobalHeader.ExportOfStoredData | src/components/GlobalHeader.tsx:94-121 | for data saved by the hooks, export succeeds, the `Mutators` sheet is the export rows, and the `Tags` sheet lists each tag's name and lists |
| GlobalHeader.StoredParts | src/components/GlobalHeader.tsx:95-121 | each stored part of saved data reads back for export |
| GlobalHeader.TagRowOfEncoded | src/components/GlobalHeader.tsx:115-119 | a stored tag entry exports as its name and its two lists |
| UnifiedDatabase.Assign | src/hooks/useUnifiedDatabase.tsx:26 | `Object.assign` copies every field of an object and keeps the other fields; numbers, booleans and `null` copy nothing (strings and arrays: see Left out) |
| UnifiedDatabase.LoadMergeFields | src/hooks/useUnifiedDatabase.tsx:15-49 | the mutator and tag records override the snapshot's `mutators` and `tags`; every other field comes from the snapshot |
| UnifiedDatabase.LoadToleratesMalformed | src/hooks/useUnifiedDatabase.tsx:23-46 | an entry that does not parse is skipped, as if absent |
| UnifiedDatabase.LoadAfterUpdate | src/hooks/useUnifiedDatabase.tsx:64-70 | a field written by `updateData` reads back on the next load |
| UnifiedDatabase.UnifiedDatabase.constructor | src/hooks/useUnifiedDatabase.tsx:15-49 | the hook's data is the merge of the three stored records |
| UnifiedDatabase.UnifiedDatabase.ClearAllData | src/hooks/useUnifiedDatabase.tsx:51-58 | removes exactly the three keys and empties the data |
| UnifiedDatabase.UnifiedDatabase.UpdateData | src/hooks/useUnifiedDatabase.tsx:64-70 | sets one field and stores the whole data as the snapshot |
| Roster.HighestFlag | src/pages/Roster.tsx:65-73 | the highest set star flag up to a bound, or 0 |
| Roster.StarRank | src/pages/Roster.tsx:65-73 | a star rank is between 0 and 6 |
| Roster.GetChampionStars | src/pages/Roster.tsx:65-73 | the loop returns the highest star flag that is set, or 0 |
| Roster.RankIsHighestFlag | src/pages/Roster.tsx:65-73 | any rank whose flag is set and has no set flag above it is the star rank |
| Roster.RankWithGaps | src/pages/Roster.tsx:65-73 | flags 2 and 5 give rank 5: gaps below the top flag do not matter |
| Roster.Toggle | src/pages/Roster.tsx:75-83 | a selected star is removed, an unselected one is appended |
| Roster.ToggleMembership | src/pages/Roster.tsx:75-83 | after a toggle, the star is selected exactly when it was not, and other stars keep their state |
| Roster.ToggleNoDuplicates | src/pages/Roster.tsx:75-83 | toggling never duplicates a star |
| Roster.ToggleTwice | src/pages/Roster.tsx:75-83 | toggling twice restores the selection as a set, and exactly when the star was unselected |
| Roster.FilterChampions | src/pages/Roster.tsx:85-98 | the listed champions are exactly those passing all four criteria, in order and as many as pass; a champion without a readable name is an error |
| Roster.UnfilteredListsAll | src/pages/Roster.tsx:85-98 | with the default criteria every champion is listed |
| ChampionPage.FindByName | src/pages/Champion.tsx:41 | `find` returns the first champion with that name, or none, failing on a `null` entry it reaches |
| ChampionPage.ReplaceByName | src/pages/Champion.tsx:61-63 | the champion replaces every entry with the same name; the other entries keep their places |
| ChampionPage.SavedRoster | src/pages/Champion.tsx:53-74 | saving changes only the snapshot, and changes nothing when there is no champion or no roster |
| ChampionPage.SaveReplacesByName | src/pages/Champion.tsx:56-65 | a saved roster has the champion in place of its namesakes, and the rest of the snapshot is kept |
| ChampionPage.SetField | src/pages/Champion.tsx:76-79 | an input change sets one field and keeps the others; without a champion, nothing happens |
| ChampionPage.IntegerInput | src/pages/Champion.tsx:167 | an integer field is set to a number and every other field kept; a text without leading digits stores 0, and a typed integer is stored as that integer |
| ChampionPage.AdditionalKeys | src/pages/Champion.tsx:231-239 | the extra checkboxes are the champion's keys outside the three fixed field lists |
| ChampionPage.ChampionView.constructor | src/pages/Champion.tsx:34-51 | the page starts with the champion it was passed and not editing |
| ChampionPage.ChampionView.Load | src/pages/Champion.tsx:34-51 | with no champion yet and a name given, the champion is looked up in the stored roster; otherwise nothing changes |
| ChampionPage.ChampionView.EditButton | src/pages/Champion.tsx:131 | the main button enters editing mode when not editing, and otherwise saves as `Save` does |
| ChampionPage.ChampionView.Cancel | src/pages/Champion.tsx:258-262 | cancelling leaves editing mode and keeps the champion being shown |
| ChampionPage.ChampionView.InputChange | src/pages/Champion.tsx:76-79 | applies `SetField` |
| ChampionPage.ChampionView.Save | src/pages/Champion.tsx:53-74 | stores `SavedRoster`, and leaves editing mode only when it wrote |
| MutatorCard.ParseChampions | src/components/mutators/MutatorCard.tsx:38-41 | the card's names are non-empty, trimmed and separator-free, drawn in order from the list's pieces; every non-empty piece is kept, and there are as many names as non-empty pieces |
| MutatorCard.ParseJoin | src/components/mutators/MutatorCard.tsx:38-41 | parsing a comma-joined list of such names gives back the names |
| MutatorCard.PiecesOfJoin | src/hooks/useMutators.tsx:73 | the pieces of a comma-joined list of trimmed names are the names |
| MutatorsDatabase.FilterMutators | src/pages/MutatorsDatabase.tsx:33-38 | the shown records are exactly those matching the search, in list order, and as many as match |
| MutatorsDatabase.LowerKeepsOccurrence | src/pages/MutatorsDatabase.tsx:34 | lower-casing both sides keeps an occurrence |
| MutatorsDatabase.NameMatch | src/pages/MutatorsDatabase.tsx:34 | a name containing the term matches |
| MutatorsDatabase.EmptyTermMatches | src/pages/MutatorsDatabase.tsx:34-36 | the empty term matches every record |
| MutatorsDatabase.EmptyTermShowsAll | src/pages/MutatorsDatabase.tsx:33-38 | with an empty search every record is shown |
| MutatorsDatabase.UntaggedMatch | src/pages/MutatorsDatabase.tsx:36 | an untagged record matches only through its name or description |
| MutatorsDatabase.MutatorsPage.constructor | src/pages/MutatorsDatabase.tsx:14-25 | the page starts with no record being edited |
| MutatorsDatabase.MutatorsPage.EditClick | src/pages/MutatorsDatabase.tsx:40-42 | the clicked record becomes the one being edited |
| MutatorsDatabase.MutatorsPage.EditComplete | src/pages/MutatorsDatabase.tsx:44-47 | the edit is applied by id and saved, and the editor closes |
| MutatorsDatabase.MutatorsPage.ImportWorkbook | src/hooks/useExcelImport.tsx:70-75 | a successful import appends its records and saves; a failed one changes nothing |
| MutatorDialogs.AddDraft | src/components/mutators/AddMutatorDialog.tsx:39-54 | a draft is produced exactly when name and description are not blank; each text field is the trim of what was typed, and the rarity passes through |
| MutatorDialogs.AddDraftStable | src/components/mutators/AddMutatorDialog.tsx:42-54 | submitting an accepted draft's fields again gives the same draft |
| MutatorDialogs.Edited | src/components/mutators/EditMutatorDialog.tsx:51-66 | an edit is produced exactly when name and description are not blank; it keeps the record's id and tag, and each text field is the trim of what was typed |
| MutatorDialogs.EditUntouched | src/components/mutators/EditMutatorDialog.tsx:40-66 | submitting a loaded record unchanged gives back the record |
| MutatorDialogs.AddMutatorForm.constructor | src/components/mutators/AddMutatorDialog.tsx:31-37 | the form starts blank |
| MutatorDialogs.AddMutatorForm.Submit | src/components/mutators/AddMutatorDialog.tsx:39-65 | a rejected submit changes nothing; an accepted one returns the draft, blanks the form and closes it |
| MutatorDialogs.AddMutatorForm.Reset | src/components/mutators/AddMutatorDialog.tsx:56-64 | the form is blank and closed |
| MutatorDialogs.EditMutatorForm.constructor | src/components/mutators/EditMutatorDialog.tsx:32-37 | the form starts blank with rarity `Common` |
| MutatorDialogs.EditMutatorForm.Load | src/components/mutators/EditMutatorDialog.tsx:40-49 | the form holds the record's editable fields |
| MutatorDialogs.EditMutatorForm.Submit | src/components/mutators/EditMutatorDialog.tsx:51-66 | returns `Edited` of the form's fields |
| TagEditDialog.Submitted | src/components/mutators/TagEditDialog.tsx:44-47 | the saved lists are the trim of the typed ones |
| TagEditDialog.BlankListSaved | src/components/mutators/TagEditDialog.tsx:45 | a list of only whitespace is saved as `""` |
| TagEditDialog.SubmitTrimmed | src/components/mutators/TagEditDialog.tsx:34-47 | loading stored data and saving it untouched gives back the same data |
| TagEditDialog.TagEditForm.constructor | src/components/mutators/TagEditDialog.tsx:31-32 | the form starts with empty lists |
| TagEditDialog.TagEditForm.Load | src/components/mutators/TagEditDialog.tsx:34-39 | stored data fills the form; no data leaves it as it was |
| TagEditDialog.TagEditForm.Submit | src/components/mutators/TagEditDialog.tsx:41-50 | returns the tag name with the trimmed lists, and closes |

## Left out

- The spreadsheet library (reading a file into sheets of rows, writing a workbook), `FileReader`, toasts, console logging, page reloads and navigation are not modelled. A workbook is a value and export returns the sheets it would write.
- React rendering and effect scheduling are not modelled: each hook's load and save effects run as one step of its constructor or operation.
- Numbers are mathematical integers: floating-point cells, `NaN` and number-to-text conversion of non-integers are not modelled.
- Lower-casing maps only the ASCII letters `A`–`Z`. Unicode case mapping beyond them is not modelled.
- Text.ParseIntOrZero: reads leading whitespace, an optional sign and decimal digits. The `0x` prefix that `parseInt` without a radix reads as hexadecimal is not modelled; such text parses as 0.
- Mutators.LoadMutators: a stored `lorMutators` value that parses but is not a list of well-formed records loads as the empty list. The source would put that value into state as it is.
- Tags.LoadTags: a stored `lorTags` value that parses but is not a dictionary of tag entries loads as the empty dictionary, for the same reason.
- A stored empty string is treated as present, not falsy. An entry is either parsed JSON or malformed text.
- Mutators.Persisted: a stored snapshot that is not a JSON object is left as it was. For `null` and other primitives, the source throws and skips the write. For an array, the written text is the same value.
- GlobalHeader.ExportData: key order of JavaScript objects is not modelled. The method enumerates the keys in some order, and the contract says which sheets are written, not their order. A snapshot that is not an object is treated as an export failure. A stored tag record that is a string or an array is also treated as a failure, where the source would export one row per character or element.
- ExcelImport.PageImportRow and GlobalHeader.HeaderImportRow: `Date.now()` is one `now` per import, while the source reads the clock once per row. A cell of another type is converted by a simplified `String()` (`ToText`).
- UnifiedDatabase.Assign: a stored snapshot that parses to a string or an array copies nothing here. `Object.assign` would copy its index keys (`"0"`, `"1"`, …) onto the data.
- Js.Get: inherited properties are not modelled. In JavaScript, `obj["constructor"]` and other prototype keys are defined on every object; here a key is defined only when the object holds it.
- GlobalHeader.ExportRowJson: a field that the stored record does not hold is left out of the row. JavaScript would list that column with the value `undefined`, which the spreadsheet writer then skips.
- Roster.FilterChampions: the level criterion coerces numbers, `null` and booleans as JavaScript does. A text level never passes, where JavaScript would convert numeric text.
- TagEditDialog.TagEditForm.Load: the `|| ""` fallback for missing lists is not modelled, since a stored tag entry always holds two texts.
- Ids made by the add operation in the same millisecond collide. This is kept as in the source, and `Mutators.AddKeepsIdsDistinct` requires a fresh timestamp.
- The monthly challenge page, the alternative roster layouts and forms, the index page, the champion pill and the controls bar are display-only and not part of this model. The roster page's own load of `lorCompanionData` (src/pages/Roster.tsx:51-63) is not modelled. It keeps any truthy `Roster` value, so a snapshot whose `Roster` is not an array would throw later at the filter. The champion page's reading of the roster (`ChampionPage.StoredRoster`) is modelled and accepts only an array.
