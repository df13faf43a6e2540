# Port Killer: port records, filter and sorted port table

This is a Dafny model of the data core of Port Killer, a macOS menu-bar tool that lists
the TCP ports in use so they can be killed, favorited or watched. The model covers:

- the port record (`PortInfo`), with its inactive-placeholder and active constructors;
- the keyword classifier that puts a process name into one of five categories (`ProcessType`);
- the watched-port record and its default notification flags;
- the filter (`PortFilter`): whether it is active, which rows it lets through, and reset;
- the sidebar entries and their ids, titles and icons;
- the sort state of the port table's column headers;
- the comparator the port table sorts rows with.

Modules, one per file:

| file | module | models |
|---|---|---|
| `strings.dfy` | `Strings` | `lowercased()`, `contains`, `String(Int)`, and string order |
| `models.dfy` | `Models` | `Sources/Models/Models.swift` |
| `filtering.dfy` | `Filtering` | `Sources/Models/PortFilter.swift` |
| `sorting.dfy` | `Sorting` | the sort state and `sortedPorts` of `Sources/Views/PortTableView.swift` |

`PortFilter.reset()` mutates the filter in place, so it is a method on the class
`Filtering.FilterState`. The class holds the six filter fields, and its `Value()`
function is the `PortFilter` value they spell. Likewise, the header buttons toggle two
`@State` fields in place, so they are a method `Click` on the class `Sorting.SortHeader`.
Everything else in these files is computed from values, so it is modelled as datatypes
and functions.

Favorites and watched ports belong to the application state, which is not part of this
model. They are passed in as a `set<int>` of port numbers and a `seq<WatchedPort>`. A
port is a favorite when its number is in the set. It is watched when some entry of the
sequence has its port number, as in `watched.contains(where:)` at
`Sources/Models/PortFilter.swift:44`.

Swift's `sorted(by:)` is modelled as an insertion sort over the comparator
(`Sorting.SortBy`). In ascending order the comparator is a strict weak order for every
column (`Sorting.AscendingIsStrictWeakOrder`). So the ascending results
(`Sorting.AscendingSortHasNoInversion`, `Sorting.PortAscendingIsNonDecreasing`,
`Sorting.ActionsAscendingGroups`) hold for any correct sorting algorithm. The descending
results depend on the insertion sort modelled here. The permutation property
(`Sorting.SortedPorts`) holds in both directions.

## Model

| member | source | states |
|---|---|---|
| `Models.AllCasesComplete` | Sources/Models/Models.swift:50-56 | `allCases` lists every category exactly once |
| `Models.RawValueInjective` | Sources/Models/Models.swift:51-55 | no two categories share a raw value ("Web Server", "Database", "Development", "System", "Other") |
| `Models.IconInjective` | Sources/Models/Models.swift:59-67 | no two categories share an icon name |
| `Models.DetectIsFirstMatch` | Sources/Models/Models.swift:69-97 | `detect` returns category t exactly when a keyword of t occurs in the lowercased name and no keyword of an earlier table does; tables are tried as web servers, databases, dev tools, system; Other has no keywords |
| `Models.DetectOtherIff` | Sources/Models/Models.swift:69-97 | a name is Other exactly when no keyword of any of the four tables occurs in its lowercased form |
| `Models.WebServerWins` | Sources/Models/Models.swift:72-76 | a web-server keyword in the name makes it a web server, whatever else the name contains |
| `Models.DetectCaseInsensitive` | Sources/Models/Models.swift:70 | detection ignores case: lowercasing the name first changes nothing |
| `Models.DetectMysqlNodeWrapper` | Sources/Models/Models.swift:78-88 | "mysql-node-wrapper" holds the dev keyword "node" but is a Database, because databases are tested before dev tools |
| `Models.DetectMongo` | Sources/Models/Models.swift:79-85 | "mongo" holds the dev keyword "go" but is a Database |
| `Models.Inactive` | Sources/Models/Models.swift:22-33 | the placeholder has the given port, pid 0, name "Not running", address and user "-", empty command and fd, and is not active |
| `Models.Active` | Sources/Models/Models.swift:36-47 | every field is the given argument and the row is active |
| `Models.InactiveIsOther` | Sources/Models/Models.swift:17-33 | a placeholder's category is Other: "not running" holds no keyword |
| `Models.ActiveIsNotInactive` | Sources/Models/Models.swift:22-47 | an active row never equals a placeholder; in the model, which has no `UUID` field, two placeholders are equal exactly when their ports are (Swift's `==` also compares the ids, so two placeholders are never equal there) |
| `Models.NewWatchedPort` | Sources/Models/Models.swift:106-111 | the record has the given port and notification flags |
| `Models.NewWatchedPortDefaults` | Sources/Models/Models.swift:106 | by default both notification flags are on |
| `Filtering.AllTypesSize` | Sources/Models/PortFilter.swift:7 | the default category set holds every category, five in all |
| `Filtering.DefaultFilterMatchesAll` | Sources/Models/PortFilter.swift:4-47 | the default filter is not active and lets every row through, whatever the favorites and watched ports |
| `Filtering.ProperSubsetOfAllTypes` | Sources/Models/PortFilter.swift:15 | a proper subset of the categories has fewer than `allCases.count` members |
| `Filtering.IsActiveIffNotDefault` | Sources/Models/PortFilter.swift:11-18 | when the category set holds only real categories, `isActive` holds exactly when some field differs from its default |
| `Filtering.MatchesIffClauses` | Sources/Models/PortFilter.swift:20-47 | `matches` holds exactly when every clause holds: the lowercased query occurs in one of the six searched fields, the port is within the inclusive bounds, its category is selected, it is a favorite if required, and it is watched if required |
| `Filtering.BoundsAreInclusive` | Sources/Models/PortFilter.swift:34-35 | a port below the minimum or above the maximum is rejected; a bound equal to the port rejects nothing |
| `Filtering.EmptyRangeMatchesNothing` | Sources/Models/PortFilter.swift:34-35 | a minimum above the maximum rejects every row |
| `Filtering.MatchGuarantees` | Sources/Models/PortFilter.swift:20-47 | a row that matches has a selected category, is a favorite or watched when those flags are on, and holds the query in some field |
| `Filtering.NarrowingNeverAddsMatches` | Sources/Models/PortFilter.swift:20-47 | a filter that is narrower in every clause (longer query, tighter bounds, fewer categories, more flags) matches only rows the wider one matches |
| `Filtering.NarrowingEdits` | Sources/Models/PortFilter.swift:4-9 | turning on either flag, adding a bound where there was none, shrinking the categories or extending the query each narrow the filter |
| `Filtering.RangeAndFavoritesExample` | Sources/Models/PortFilter.swift:34-41 | with bounds 8000..9000 and favorites only, 7999 and 9500 are rejected and both records on the favorited port 8080 pass |
| `Filtering.JavaRowStrings` | Sources/Models/PortFilter.swift:23-29 | the searched fields of the sample row on port 8080 with PID 4242 |
| `Filtering.JavaRowFindsPort` | Sources/Models/PortFilter.swift:25 | the query "80" occurs in the decimal port 8080 |
| `Filtering.JavaRowMissesOtherPort` | Sources/Models/PortFilter.swift:24-29 | the query "8081" occurs in none of the six fields of that row |
| `Filtering.SearchPortDigitsExample` | Sources/Models/PortFilter.swift:22-31 | a search for "80" keeps the row on port 8080 and a search for "8081" drops it |
| `Filtering.SearchFindsLongerPort` | Sources/Models/PortFilter.swift:22-31 | the search is a substring search: the query "8080" keeps a row on port 18080 |
| `Filtering.FilterState.constructor` | Sources/Models/PortFilter.swift:4-9 | a new filter has every field at its default |
| `Filtering.FilterState.Reset` | Sources/Models/PortFilter.swift:49-56 | after reset every field is at its default, the filter is not active and it lets every row through |
| `Filtering.IdInjective` | Sources/Models/PortFilter.swift:67-76 | no two sidebar entries share an id, so `id` identifies an entry |
| `Filtering.TitleInjective` | Sources/Models/PortFilter.swift:78-87 | no two sidebar entries share a title; a category entry's title is its raw value |
| `Filtering.SidebarIconInjective` | Sources/Models/PortFilter.swift:89-98 | no two sidebar entries share an icon name; a category entry's icon is the category's icon |
| `Strings.DecimalRoundTrip` | Sources/Models/PortFilter.swift:25-26 | the decimal text `String(n)` that the search looks in reads back to `n` |
| `Strings.IntToStringInjective` | Sources/Models/PortFilter.swift:25-26 | distinct port or PID numbers have distinct decimal texts |
| `Sorting.ClickSelectsColumn` | Sources/Views/PortTableView.swift:111-118 | after a click the clicked column is the sort key; the order is descending exactly when that column was already the key and ascending |
| `Sorting.ClickCurrentTwiceRestores` | Sources/Views/PortTableView.swift:113-114 | clicking the current column twice restores the sort state |
| `Sorting.ClickOtherTwiceDescends` | Sources/Views/PortTableView.swift:113-117 | clicking another column twice sorts by it descending |
| `Sorting.SortHeader.constructor` | Sources/Views/PortTableView.swift:5-6 | the table starts sorted by port, ascending |
| `Sorting.SortHeader.Click` | Sources/Views/PortTableView.swift:48-54 | a click on a header (the star header, the process header and every other header at 74-80 and 111-118 share this logic) sets the key to the clicked column and toggles the direction only when it was already the key |
| `Sorting.RankValues` | Sources/Views/PortTableView.swift:167-169 | rank 2 is exactly a favorite, 1 a watched port that is no favorite, 0 the rest |
| `Sorting.ActionsAscendingOrder` | Sources/Views/PortTableView.swift:160-178 | ascending "actions" order puts the higher rank first, and within a rank the lower port |
| `Sorting.ActionsDescendingOrder` | Sources/Views/PortTableView.swift:160-178 | descending "actions" order negates the comparator: the lower rank first, and within a rank the higher or equal port |
| `Sorting.EqualKeysCompare` | Sources/Views/PortTableView.swift:145-178 | two rows with the same key are unordered when ascending, and each is "before" the other when descending |
| `Sorting.NotLexLessFlips` | Sources/Views/PortTableView.swift:151-159 | for the string keys, "not less" means greater or equal |
| `Sorting.NotLexLessTransitive` | Sources/Views/PortTableView.swift:151-159 | "not less" on string keys is transitive |
| `Sorting.StringKeyOrder` | Sources/Views/PortTableView.swift:151-159 | string order is irreflexive, transitive and asymmetric, and incomparability is transitive |
| `Sorting.AscendingIsStrictWeakOrder` | Sources/Views/PortTableView.swift:145-177 | for every key the ascending comparator is a strict weak order, as `sorted(by:)` requires |
| `Sorting.Insert` | Sources/Views/PortTableView.swift:145 | insertion adds exactly one copy of the row |
| `Sorting.SortBy` | Sources/Views/PortTableView.swift:145 | sorting returns a permutation of its input |
| `Sorting.SortedPorts` | Sources/Views/PortTableView.swift:143-180 | `sortedPorts` holds exactly the filtered rows, each as often as before |
| `Sorting.InsertNoInversion` | Sources/Views/PortTableView.swift:145 | inserting into a sequence without inversions of a strict order leaves none |
| `Sorting.InsertChained` | Sources/Views/PortTableView.swift:145 | inserting into a chained sequence of a total preorder keeps it chained |
| `Sorting.SortNoInversion` | Sources/Views/PortTableView.swift:145 | sorting by a strict order leaves no row before an earlier one it should follow |
| `Sorting.SortChained` | Sources/Views/PortTableView.swift:145 | sorting by a total preorder puts every row "before" each later one |
| `Sorting.AscendingSortHasNoInversion` | Sources/Views/PortTableView.swift:143-180 | an ascending sort leaves no pair of rows in the wrong order, for every key |
| `Sorting.DescendingSortIsChained` | Sources/Views/PortTableView.swift:143-180 | a descending sort lists the rows so that no row's key is below a later row's key |
| `Sorting.PortAscendingIsNonDecreasing` | Sources/Views/PortTableView.swift:148-149 | sorted by port ascending, the ports never decrease |
| `Sorting.PortDescendingIsNonIncreasing` | Sources/Views/PortTableView.swift:148-178 | sorted by port descending, the ports never increase |
| `Sorting.ActionsAscendingGroups` | Sources/Views/PortTableView.swift:160-176 | sorted by "actions" ascending: favorites, then watched ports, then the rest, each group by increasing port |
| `Sorting.InsertPast` | Sources/Views/PortTableView.swift:145 | a row passes over a row it is not before |
| `Sorting.ExampleRanks` | Sources/Views/PortTableView.swift:167-169 | the sample favorite, watched row and plain row have ranks 2, 1 and 0 |
| `Sorting.ActionsAscendingExample` | Sources/Views/PortTableView.swift:160-178 | ascending "actions" order lists a favorite placeholder on 9000, a watched 8080 and a plain 3000 in that order |
| `Sorting.ActionsDescendingExample` | Sources/Views/PortTableView.swift:160-178 | descending "actions" order lists the same rows as plain 3000, watched 8080, favorite 9000 |

The classifier, `isActive`, `matches`, the sidebar's `id`, `title` and `icon`, and the
comparator are functions without an `ensures` (`Models.Detect`, `Filtering.PortFilter.IsActive`,
`Filtering.PortFilter.Matches`, `Filtering.Id`, `Filtering.Title`,
`Filtering.SidebarIcon`, `Sorting.Before`). The lemmas above state their properties.

### Consequences of the code worth knowing

- Descending "actions" order negates the whole comparator
  (`Sources/Views/PortTableView.swift:178`). So in descending order plain ports come
  first and favorites last (`Sorting.ActionsDescendingOrder`,
  `Sorting.ActionsDescendingExample`). Favorites first is the ascending order
  (`Sorting.ActionsAscendingExample`).
- Favorites are port numbers (`Sources/Models/PortFilter.swift:41`). So every record on
  a favorited port passes a favorites-only filter (`Filtering.RangeAndFavoritesExample`).
- The search looks for a substring. So the query "8080" also keeps a row on port 18080
  (`Filtering.SearchFindsLongerPort`).

## Left out

- `PortInfo.id`, `WatchedPort.id`: the `UUID`s are random, so the model has no identity field. Two rows with equal fields are equal.
- `PortInfo.displayPort` is a display string only.
- `Strings.Lower` lowercases ASCII letters only. `String.lowercased()` folds all of Unicode.
- `Strings.CaseInsensitiveLess` is a different, concrete order in place of `localizedCaseInsensitiveCompare`: it compares the ASCII-lowercased strings by character code. Locale collation is not modelled.
- Strings are sequences of code points. Swift's `contains` and `==` compare `Character`s up to canonical equivalence, so a precomposed "é" in a query matches a decomposed "e" plus combining accent in a name in Swift, but not in the model.
- `Sorting.AscendingBefore` compares raw values of categories with the same code order, as Swift's `<` on ASCII strings does.
- `Sorting.SortBy`: the stability and the exact algorithm of Swift's `sorted(by:)` are not modelled. Descending, the negated comparator is not a strict weak order, so Swift promises only a permutation. `Sorting.DescendingSortIsChained` and `Sorting.PortDescendingIsNonIncreasing` are facts about the insertion sort modelled here.
- `WatchedPort` is `Codable` and `Defaults.Serializable`: persistence is I/O and is not modelled.
- The raw strings of `SortOrder` ("Port", "PID", ...) are not used in `PortTableView.swift` and are not modelled.
- The application state (`appState.filteredPorts`, `isFavorite`, `isWatching`): its source is not part of this model. Its results are parameters: the filtered rows, a set of favorite ports and the watched list.
- The SwiftUI layout is not modelled: row views, chevrons, hover state, the empty state, pasteboard and workspace calls, and the "Remove from list" button.
- The sponsor manager and sponsor service perform network and file I/O and are not part of this model.
