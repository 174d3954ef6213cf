# Chemistry reference app — a Dafny model of its screens' logic

The app is a React Native chemistry reference with four pieces of logic
worth stating precisely:

- **Elements** (`elements.dfy`). A fixed table of 26 elements. A search box
  filters it case-insensitively: a row matches when its name contains the
  query, its symbol equals the query, or its atomic number written in
  decimal equals the query. Each category has a colour, with a grey default.
  When the search leaves exactly one element, that element's detail card
  opens.
- **Periodic table** (`periodic_table.dfy`). A list of 38 tiles, each placed
  on an 18 × 7 grid. The colour scheme extends the element screen's with the
  lanthanide and actinide series. The two series tiles ("La-Lu", "Ac-Lr")
  are drawn as wide placeholders. A tap opens the element screen with the
  tile's symbol as the search.
- **Notes** (`notes.dfy`). A newest-first list of notes. The whole list is
  kept as one JSON file, `notes/chemistry_notes.json`, under the app's
  document directory. It is loaded when the screen mounts and rewritten
  after every add and delete. A read-aloud toggle drives the platform's
  speech service.
- **Security** (`security.dfy`). The startup check decides the license
  status from two flags, and both flags are mocked to `false`. There is also
  a path plausibility check.

How the model is built:

- The file system is a class holding a map from paths to entries.
- Every file-system call may fail, so each operation takes a `Faults` value
  that says which calls fail.
- The speech service is the log of `stop`/`speak` commands the screen
  issues. Its start/done/error callbacks are methods the platform may call
  at any time.
- React state is a set of class fields. The effect the notes screen
  installs on `speaking` is modelled by `Commit` (a render commits) and
  `Unmount`.
- Shared text helpers are in `text.dfy`: ASCII lower-casing, substring
  search, JavaScript `trim` and decimal formatting. Generic filtering is in
  `sequences.dfy`.

## Model

| member | source | states |
|---|---|---|
| Elements.AtomicNumbersIncrease | Screens/utils/Screens/Screens/Screens/Elements.js:10-35 | atomic numbers in the element table strictly increase, so no number repeats |
| Elements.SymbolsDistinct | Screens/utils/Screens/Screens/Screens/Elements.js:10-35 | no two rows of the element table share a symbol |
| Elements.Search | Screens/utils/Screens/Screens/Screens/Elements.js:105-115 | an empty query shows the whole table; otherwise an element is listed iff it is in the table and matches the lower-cased query by name, symbol or number |
| Elements.SearchIsSubsequence | Screens/utils/Screens/Screens/Screens/Elements.js:110-114 | the results keep the table's order and never invent or repeat rows |
| Elements.SearchIgnoresCase | Screens/utils/Screens/Screens/Screens/Elements.js:109 | two queries that lower-case alike give the same results |
| Elements.EmptyQueryKeepsAll | Screens/utils/Screens/Screens/Screens/Elements.js:106-113 | filtering with an empty query would also keep every row, because every name contains the empty string |
| Elements.SearchFe | Screens/utils/Screens/Screens/Screens/Elements.js:110-114 | the query "fe" lists Iron alone: no name contains "fe", and Iron matches by its symbol |
| Elements.Search26 | Screens/utils/Screens/Screens/Screens/Elements.js:113 | the query "26" lists Iron alone, by atomic number |
| Elements.KelvinSignSearchesLikeK | Screens/utils/Screens/Screens/Screens/Elements.js:109-112 | a query of the Kelvin sign gives the same results as "K", Potassium among them |
| Elements.SearchZzz | Screens/utils/Screens/Screens/Screens/Elements.js:110-114 | a query that matches nothing gives the empty list |
| Elements.NoOtherRowMatchesFe | Screens/utils/Screens/Screens/Screens/Elements.js:110-114 | no row other than Iron matches "fe" |
| Elements.CategoryColor | Screens/utils/Screens/Screens/Screens/Elements.js:41-53 | each of the eight categories gets its palette colour, anything else "#cccccc", and the default is returned exactly for unknown categories |
| Elements.TableUsesKnownCategories | Screens/utils/Screens/Screens/Screens/Elements.js:10-35 | every row's category has its own colour; none falls back to the default |
| Elements.AutoSelect | Screens/utils/Screens/Screens/Screens/Elements.js:118-122 | with exactly one result whose name differs from the selection's, that result becomes selected; otherwise the selection is kept |
| Elements.AutoSelectIdempotent | Screens/utils/Screens/Screens/Screens/Elements.js:118-122 | running the rule again on the same results changes nothing |
| Elements.ElementsScreen.SetSearchText | Screens/utils/Screens/Screens/Screens/Elements.js:115-122 | the text is stored; the auto-select rule runs on the new results only when the text (and so the memoised list) changed |
| Elements.ElementsScreen.SelectElement | Screens/utils/Screens/Screens/Screens/Elements.js:124-126 | a tap selects that element and leaves the search as it is |
| Elements.FeOpensIron | Screens/utils/Screens/Screens/Screens/Elements.js:118-122 | with nothing selected, the query "fe" makes the auto-select rule open Iron's card |
| Elements.TypeFeSelectsIron | Screens/utils/Screens/Screens/Screens/Elements.js:118-122 | typing "fe" into a fresh screen opens Iron's card |
| PeriodicTable.TilesInGrid | Screens/utils/Screens/Screens/Screens/Screens/PeriodicTable.js:8-49 | every tile lies within the 18 columns and 7 rows |
| PeriodicTable.TilesDoNotOverlap | Screens/utils/Screens/Screens/Screens/Screens/PeriodicTable.js:8-49 | no two tiles share a cell |
| PeriodicTable.CellsIncrease | Screens/utils/Screens/Screens/Screens/Screens/PeriodicTable.js:8-49 | the tiles are listed in row-major cell order |
| PeriodicTable.NumbersIncrease | Screens/utils/Screens/Screens/Screens/Screens/PeriodicTable.js:8-49 | atomic numbers strictly increase along the tile list |
| PeriodicTable.CategoryColor | Screens/utils/Screens/Screens/Screens/Screens/PeriodicTable.js:52-66 | the ten categories get their colours, anything else "#cccccc", and the default is returned exactly for unknown categories |
| PeriodicTable.SharedCategoriesAgree | Screens/utils/Screens/Screens/Screens/Screens/PeriodicTable.js:52-66 | apart from the two series, both screens colour every category alike |
| PeriodicTable.StyleOf | Screens/utils/Screens/Screens/Screens/Screens/PeriodicTable.js:69-87 | a tile sits at its column and row; a tile whose symbol contains '-' spans to column x+10 on white with a grey border, any other tile is filled with its category colour |
| PeriodicTable.LabelOf | Screens/utils/Screens/Screens/Screens/Screens/PeriodicTable.js:91-97 | a placeholder shows its symbol text alone, any other tile its number and symbol |
| PeriodicTable.PlaceholdersAreTheSeries | Screens/utils/Screens/Screens/Screens/Screens/PeriodicTable.js:46-48 | the placeholder rule picks out exactly the two series tiles |
| PeriodicTable.PlaceholderSpansAreFree | Screens/utils/Screens/Screens/Screens/Screens/PeriodicTable.js:79-80 | a placeholder's span ends inside the grid and no other tile stands in its row |
| PeriodicTable.HandleElementPress | Screens/utils/Screens/Screens/Screens/Screens/PeriodicTable.js:108-111 | a tap navigates to the Elements screen with the symbol as the `search` parameter |
| PeriodicTable.TapSearchFindsElement | Screens/utils/Screens/Screens/Screens/Screens/PeriodicTable.js:124 | searching for a tapped tile's symbol lists the element of the table that has that symbol |
| Security.Decide | Screens/utils/Security.js:16-41 | access is granted iff neither flag is set; tampering wins over expiry; each failure comes with its alert and the grant with none |
| Security.TamperingDominates | Screens/utils/Security.js:20-26 | once tampering is detected the expiry flag makes no difference |
| Security.MockAlwaysGrants | Screens/utils/Security.js:18-41 | with the mocked flags the check always grants access without an alert |
| Security.StartupChecks.constructor | Screens/utils/Security.js:11-12 | the hook starts loading, with status "Checking..." |
| Security.StartupChecks.RunChecks | Screens/utils/Security.js:16-41 | the timer body ends loading, sets the decided status and raises the decided alert |
| Security.StartupChecks.OnCheckTimer | Screens/utils/Security.js:16-43 | as shipped, the timer always grants access |
| Security.ShortPathsFail | Screens/utils/Security.js:53-56 | paths of five characters or fewer are rejected |
| Security.PathsWithoutSlashFail | Screens/utils/Security.js:53-56 | paths without a '/' are rejected |
| Security.LongPathsWithSlashPass | Screens/utils/Security.js:53-56 | any path of six characters or more containing a '/' is accepted |
| Notes.NotesPathsDiffer | Screens/utils/Screens/Screens/Notes.js:9-10 | the notes directory and the notes file are different paths |
| Notes.NotesFilePassesValidator | Screens/utils/Screens/Screens/Notes.js:6-10 | the notes file path passes the path check whatever the document directory |
| Notes.WithDir | Screens/utils/Screens/Screens/Notes.js:15-20 | after `ensureDirExists` the directory exists iff it did or could be made; no other path changes |
| Notes.LoadResult | Screens/utils/Screens/Screens/Notes.js:23-37 | with the directory ready, the read working and a parsable file, the load gives the stored list; a directory failure, a read failure, a missing file or a parse failure gives [] |
| Notes.SaveThenLoad | Screens/utils/Screens/Screens/Notes.js:23-49 | after a successful save, a load whose read succeeds returns the saved list |
| Notes.FileSystem.MakeDirectory | Screens/utils/Screens/Screens/Notes.js:18 | creating the directory works unless the call fails or a file is in the way |
| Notes.FileSystem.ReadAsString | Screens/utils/Screens/Screens/Notes.js:28 | a read returns the file's contents unless it fails or the path is not a file |
| Notes.FileSystem.WriteAsString | Screens/utils/Screens/Screens/Notes.js:44 | a write replaces the file unless it fails or the path is a directory |
| Notes.NotesScreen.EnsureDirExists | Screens/utils/Screens/Screens/Notes.js:15-20 | the directory is made only when it is not already a directory |
| Notes.NotesScreen.LoadNotes | Screens/utils/Screens/Screens/Notes.js:23-37 | returns the stored list, or [] when anything fails or there is no file; the notes file is not touched |
| Notes.NotesScreen.SaveNotes | Screens/utils/Screens/Screens/Notes.js:40-49 | on success the file stores exactly the list; on failure the file keeps its contents and a "Save Error" alert is shown |
| Notes.NotesScreen.Mount | Screens/utils/Screens/Screens/Notes.js:60-62 | the screen shows what the load returned |
| Notes.NotesScreen.SetNewNoteText | Screens/utils/Screens/Screens/Notes.js:55 | the text input's value is stored |
| Notes.NotesScreen.AddNote | Screens/utils/Screens/Screens/Notes.js:65-82 | whitespace-only input is refused with "Empty Note" and nothing changes; otherwise the trimmed note goes first, the list is saved (and stored if the save worked), the input clears and "Note Saved!" is shown even after a failed save |
| Notes.NotesScreen.DeleteNote | Screens/utils/Screens/Screens/Notes.js:85-95 | exactly the notes with that id go and the rest keep their order; the list is saved, with the whole new file map stated (directory step, then the file on success); reading stops only if it was that note |
| Notes.NotesScreen.SpeakNote | Screens/utils/Screens/Screens/Notes.js:98-130 | toggling the note being read stops it and goes idle; any other note stops the current reading first, if any, then is spoken, and the state waits for the start callback |
| Notes.NotesScreen.OnStart | Screens/utils/Screens/Screens/Notes.js:114-117 | the started utterance's note becomes the one being read |
| Notes.NotesScreen.OnDone | Screens/utils/Screens/Screens/Notes.js:118-121 | any utterance finishing returns the screen to idle |
| Notes.NotesScreen.OnError | Screens/utils/Screens/Screens/Notes.js:122-127 | any utterance failing returns to idle with a "TTS Error" alert |
| Notes.NotesScreen.Commit | Screens/utils/Screens/Screens/Notes.js:133-139 | when `speaking` changes, the old effect's cleanup stops speech iff it captured `true` |
| Notes.NotesScreen.Unmount | Screens/utils/Screens/Screens/Notes.js:132-139 | unmounting stops speech iff the installed effect captured `speaking` as true |
| Notes.WithoutId | Screens/utils/Screens/Screens/Notes.js:86 | a note survives iff its id differs from the deleted one, and every copy of a surviving note is kept |
| Notes.WithoutIdKeepsOrder | Screens/utils/Screens/Screens/Notes.js:86 | deletion keeps the remaining notes in order |
| Notes.WithoutAbsentId | Screens/utils/Screens/Screens/Notes.js:86 | deleting an id no note has leaves the list unchanged |
| Notes.ReadThenStop | Screens/utils/Screens/Screens/Notes.js:98-139 | with React committing after each handler, reading a note and toggling it again issues one speak then two stops (the toggle's and the effect cleanup's) and ends idle |
| Notes.SwitchWithLateDone | Screens/utils/Screens/Screens/Notes.js:103-139 | switching notes stops the first before speaking the second; a late done from the first sets the screen idle, and the commit after it stops the second reading too |
| Notes.AddThenRemount | Screens/utils/Screens/Screens/Notes.js:23-82 | with no failures, a note added and a screen mounted afterwards shows the same list, which the file stores |
| Text.LowerChar | Screens/utils/Screens/Screens/Screens/Elements.js:109-112 | A-Z map to a-z, the Kelvin sign maps to "k", every other character is kept, and the result is never a capital |
| Text.Lower | Screens/utils/Screens/Screens/Screens/Elements.js:109-112 | lower-casing keeps the length and maps each character to its lower case |
| Text.LowerIdempotent | Screens/utils/Screens/Screens/Screens/Elements.js:109-112 | lower-casing twice is lower-casing once |
| Text.ContainsIff | Screens/utils/Screens/Screens/Screens/Elements.js:111 | `includes` holds iff the needle occurs at some position |
| Text.TrimIsInnerSlice | Screens/utils/Screens/Screens/Notes.js:73 | `trim` returns a contiguous slice of its input with only whitespace removed around it |
| Text.TrimEndsAreNotWhiteSpace | Screens/utils/Screens/Screens/Notes.js:73 | a non-empty `trim` result neither starts nor ends with whitespace |
| Text.TrimEmptyIff | Screens/utils/Screens/Screens/Notes.js:66 | the input trims to "" iff it is all whitespace |
| Text.TrimIdempotent | Screens/utils/Screens/Screens/Notes.js:73 | trimming a trimmed text changes nothing |
| Text.NatToStringRoundTrip | Screens/utils/Screens/Screens/Screens/Elements.js:113 | the decimal form of an atomic number reads back as that number |
| Text.NatToStringInjective | Screens/utils/Screens/Screens/Screens/Elements.js:113 | different atomic numbers have different decimal forms, so a number query picks one element |
| Sequences.Filter | Screens/utils/Screens/Screens/Screens/Elements.js:110-114 | keeps exactly the elements that satisfy the predicate, and never lengthens the list |
| Sequences.FilterCounts | Screens/utils/Screens/Screens/Screens/Elements.js:110-114 | each element that satisfies the predicate is kept as often as the input holds it; every other element is dropped entirely |
| Elements.Matches | Screens/utils/Screens/Screens/Screens/Elements.js:111-113 | a row matches a lower-cased query when its lower-cased name contains it, its lower-cased symbol equals it, or its atomic number in decimal equals it |
| Text.Contains | Screens/utils/Screens/Screens/Screens/Elements.js:111 | `includes`: the needle is a prefix of some suffix (characterised by `Text.ContainsIff`) |
| Text.NatToString | Screens/utils/Screens/Screens/Screens/Elements.js:113 | `toString` of a natural number: a non-empty string of decimal digits, starting with "0" only for zero |
| Text.Trim | Screens/utils/Screens/Screens/Notes.js:66-73 | `trim`: white space stripped from both ends (characterised by the `Text.Trim*` lemmas) |
| Security.ValidateFilePath | Screens/utils/Security.js:53-56 | a path passes iff it is longer than five characters and contains a '/' (both directions proved by the three path lemmas) |
| PeriodicTable.IsPlaceholder | Screens/utils/Screens/Screens/Screens/Screens/PeriodicTable.js:79 | a tile is a placeholder iff its symbol contains '-' |
| Elements.ElementsScreen.constructor | Screens/utils/Screens/Screens/Screens/Elements.js:101-102 | the screen starts with an empty search and nothing selected |
| Notes.NotesScreen.constructor | Screens/utils/Screens/Screens/Notes.js:54-57 | the screen starts with no notes, an empty input, idle, and the `[speaking]` effect installed with `false` |
| Sequences.FilterIsSubsequence | Screens/utils/Screens/Screens/Screens/Elements.js:110 | `filter` keeps a subsequence of its input |

## Left out

- File formats: JSON text is not modelled. A file holds either an encoded notes list or text that does not parse, and `JSON.parse` of valid JSON that is not a notes array is not distinguished.
- Errors from `getInfoAsync`: they are folded into the directory and read faults. The `intermediates` option of `makeDirectoryAsync` is not modelled (the document directory is taken to exist).
- Ordering between async steps is not modelled. Each handler runs to completion. In particular, a load that finishes after a note was added would overwrite the list.
- React re-renders are not modelled beyond the `[speaking]` effect. That effect is modelled through `Commit`, which the event scenarios call after every handler, and `Unmount`.
- Clock values are parameters of `Notes.NotesScreen.AddNote`. These are the note id (`Date.now()`) and the locale date string.
- Speech options are not modelled: language, pitch and rate.
- Console logging, styles, layout metrics and rendering are not modelled, apart from the tile style and label on the periodic table.
- The element table's physical quantities are floating point and are kept as data only. No property depends on them.
- Text.Lower: folds only the characters whose lower case is an ASCII letter (A-Z and the Kelvin sign). Other characters are kept, whereas `toLowerCase` folds them (U+0130 even becomes two characters). Their lower case is never ASCII and every name, symbol and number is ASCII, so a query holding one matches no row either way.
- Text.Trim: covers the ECMAScript whitespace and line-terminator characters listed in the model. Lone surrogates and other UTF-16 details are not modelled.
- Security.ValidateFilePath: counts characters, where JavaScript counts UTF-16 code units.
- The 3-second startup timer and its `clearTimeout` cleanup are not modelled. `OnCheckTimer` is the timer firing once.
- `Home.js` (the home screen and its navigation) is not part of this model.
- The element screen is handed a `search` parameter by the periodic table, but it never reads that parameter. A tap therefore opens the screen with an empty search. `PeriodicTable.TapSearchFindsElement` states what the parameter would select if it were read.
- Notes.NotesScreen.OnDone: clears the reading state whichever utterance finished. There is no guard against callbacks from an utterance that was already stopped, so a late `onDone` clears the state while another note is being read, and the next commit then stops that reading too (see `Notes.SwitchWithLateDone`).
- When speech is toggled off, the source itself calls `stop`, and so does the cleanup of the `[speaking]` effect. The model keeps both calls: `SpeakNote` logs the first and `Commit` the second, so a read-then-stop issues two stops (see `Notes.ReadThenStop`).
- `validateFilePath` is imported by the notes screen but never called there. `Notes.NotesFilePassesValidator` shows the check would accept the notes file.
