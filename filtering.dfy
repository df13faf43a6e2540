/** The filter the port list applies to its rows, and the sidebar entries. */
module Filtering {
  import opened Strings
  import opened Models

  datatype Option<T> = None | Some(value: T)

  /** `Set(ProcessType.allCases)`. */
  const AllTypes: set<ProcessType> := {WebServer, Database, Development, System, Other}

  /** `watched.contains(where: { $0.port == port })`. */
  predicate IsWatched(watched: seq<WatchedPort>, port: int) {
    exists i | 0 <= i < |watched| :: watched[i].port == port
  }

  /** The free-text clause for a non-empty query that is already lowercased:
      it occurs in the lowercased process name, the port number, the PID,
      the lowercased address, user or command. */
  predicate SearchHit(p: PortInfo, query: string) {
    Contains(Lower(p.processName), query) ||
    Contains(IntToString(p.port), query) ||
    Contains(IntToString(p.pid), query) ||
    Contains(Lower(p.address), query) ||
    Contains(Lower(p.user), query) ||
    Contains(Lower(p.command), query)
  }

  /** `PortFilter`: what the user narrowed the port list to. An absent bound
      is `None`; every field's default leaves its clause vacuous. */
  datatype PortFilter = PortFilter(
    searchText: string,
    minPort: Option<int>,
    maxPort: Option<int>,
    processTypes: set<ProcessType>,
    showOnlyFavorites: bool,
    showOnlyWatched: bool)
  {
    /** Whether the filter narrows anything. */
    predicate IsActive() {
      searchText != [] ||
      minPort.Some? ||
      maxPort.Some? ||
      |processTypes| < |AllCases| ||
      showOnlyFavorites ||
      showOnlyWatched
    }

    /** Whether row `port` passes the filter, given the favorite port numbers
        and the watched ports. The clauses are tried in the source's order and
        the first one that fails rejects the row. */
    predicate Matches(port: PortInfo, favorites: set<int>, watched: seq<WatchedPort>) {
      if searchText != [] && !SearchHit(port, Lower(searchText)) then false
      else if minPort.Some? && port.port < minPort.value then false
      else if maxPort.Some? && port.port > maxPort.value then false
      else if ProcessTypeOf(port) !in processTypes then false
      else if showOnlyFavorites && port.port !in favorites then false
      else if showOnlyWatched && !IsWatched(watched, port.port) then false
      else true
    }
  }

  /** `PortFilter()`: every field at its default. */
  function DefaultFilter(): PortFilter {
    PortFilter("", None, None, AllTypes, false, false)
  }

  lemma AllTypesSize()
    ensures |AllTypes| == |AllCases| == 5
    ensures forall t: ProcessType :: t in AllTypes
  {
    forall t: ProcessType
      ensures t in AllTypes
    {
      match t
      case WebServer =>
      case Database =>
      case Development =>
      case System =>
      case Other =>
    }
    assert AllTypes == {WebServer, Database, Development, System} + {Other};
    assert |{WebServer, Database, Development, System}| == 4 by {
      assert {WebServer, Database, Development, System} == {WebServer, Database, Development} + {System};
      assert |{WebServer, Database, Development}| == 3 by {
        assert {WebServer, Database, Development} == {WebServer, Database} + {Development};
      }
    }
  }

  /** A default filter is inactive and lets every row through, whatever the
      favorites and watched ports are. */
  lemma DefaultFilterMatchesAll(p: PortInfo, favorites: set<int>, watched: seq<WatchedPort>)
    ensures !DefaultFilter().IsActive()
    ensures DefaultFilter().Matches(p, favorites, watched)
  {
    AllTypesSize();
  }

  /** A cardinality fact: a proper subset of the five categories has fewer of them. */
  lemma ProperSubsetOfAllTypes(types: set<ProcessType>)
    requires types < AllTypes
    ensures |types| < |AllCases|
  {
    AllTypesSize();
    var x :| x in AllTypes && x !in types;
    var rest := AllTypes - {x};
    assert |rest| == 4;
    assert types <= rest;
    assert rest == types + (rest - types);
    assert |rest| == |types| + |rest - types|;
  }

  /** For a filter whose categories are real categories, `isActive` holds
      exactly when some field differs from its default. */
  lemma IsActiveIffNotDefault(f: PortFilter)
    requires f.processTypes <= AllTypes
    ensures f.IsActive() <==> f != DefaultFilter()
  {
    AllTypesSize();
    if f.processTypes != AllTypes {
      ProperSubsetOfAllTypes(f.processTypes);
    }
  }

  /** The six fields a query is looked for in, each as the filter compares it. */
  function SearchFields(p: PortInfo): seq<string> {
    [Lower(p.processName), IntToString(p.port), IntToString(p.pid),
     Lower(p.address), Lower(p.user), Lower(p.command)]
  }

  /** `matches` is the conjunction of six independent clauses: the query is
      empty or found in one of the six fields; both bounds are inclusive;
      the category is selected; a favorites-only filter needs a favorite;
      a watched-only filter needs a watched port with the row's number. */
  lemma MatchesIffClauses(f: PortFilter, p: PortInfo, favorites: set<int>, watched: seq<WatchedPort>)
    ensures f.Matches(p, favorites, watched) <==>
      (f.searchText == [] || exists field :: field in SearchFields(p) && Contains(field, Lower(f.searchText))) &&
      (f.minPort.Some? ==> f.minPort.value <= p.port) &&
      (f.maxPort.Some? ==> p.port <= f.maxPort.value) &&
      ProcessTypeOf(p) in f.processTypes &&
      (f.showOnlyFavorites ==> p.port in favorites) &&
      (f.showOnlyWatched ==> exists w :: w in watched && w.port == p.port)
  {
    var q := Lower(f.searchText);
    var fields := SearchFields(p);
    if f.searchText != [] && SearchHit(p, q) {
      if Contains(fields[0], q) { assert fields[0] in fields; }
      else if Contains(fields[1], q) { assert fields[1] in fields; }
      else if Contains(fields[2], q) { assert fields[2] in fields; }
      else if Contains(fields[3], q) { assert fields[3] in fields; }
      else if Contains(fields[4], q) { assert fields[4] in fields; }
      else { assert fields[5] in fields; }
    }
    if f.showOnlyWatched && IsWatched(watched, p.port) {
      var i :| 0 <= i < |watched| && watched[i].port == p.port;
      assert watched[i] in watched;
    }
  }

  /** Both port bounds are inclusive: a row outside a bound fails, and a
      bound equal to the row's port rejects no more than no bound at all. */
  lemma BoundsAreInclusive(f: PortFilter, p: PortInfo, favorites: set<int>, watched: seq<WatchedPort>)
    ensures f.minPort.Some? && p.port < f.minPort.value ==> !f.Matches(p, favorites, watched)
    ensures f.maxPort.Some? && p.port > f.maxPort.value ==> !f.Matches(p, favorites, watched)
    ensures f.(minPort := Some(p.port)).Matches(p, favorites, watched) == f.(minPort := None).Matches(p, favorites, watched)
    ensures f.(maxPort := Some(p.port)).Matches(p, favorites, watched) == f.(maxPort := None).Matches(p, favorites, watched)
  {
  }

  /** A lower bound above the upper bound lets nothing through. */
  lemma EmptyRangeMatchesNothing(f: PortFilter, p: PortInfo, favorites: set<int>, watched: seq<WatchedPort>)
    requires f.minPort.Some? && f.maxPort.Some? && f.minPort.value > f.maxPort.value
    ensures !f.Matches(p, favorites, watched)
  {
  }

  /** What a match guarantees about the row's category, favorite and watched status. */
  lemma MatchGuarantees(f: PortFilter, p: PortInfo, favorites: set<int>, watched: seq<WatchedPort>)
    requires f.Matches(p, favorites, watched)
    ensures ProcessTypeOf(p) in f.processTypes
    ensures f.showOnlyFavorites ==> p.port in favorites
    ensures f.showOnlyWatched ==> exists i :: 0 <= i < |watched| && watched[i].port == p.port
    ensures f.searchText != [] ==> exists field :: field in SearchFields(p) && Contains(field, Lower(f.searchText))
  {
    MatchesIffClauses(f, p, favorites, watched);
  }

  /** `g` is at least as strict as `f` in every clause: its query extends
      `f`'s (or `f` has none), its bounds are tighter, its categories fewer
      and its flags at least as many. */
  ghost predicate Narrows(g: PortFilter, f: PortFilter) {
    (f.searchText == [] || Contains(Lower(g.searchText), Lower(f.searchText))) &&
    (f.minPort.Some? ==> g.minPort.Some? && g.minPort.value >= f.minPort.value) &&
    (f.maxPort.Some? ==> g.maxPort.Some? && g.maxPort.value <= f.maxPort.value) &&
    g.processTypes <= f.processTypes &&
    (f.showOnlyFavorites ==> g.showOnlyFavorites) &&
    (f.showOnlyWatched ==> g.showOnlyWatched)
  }

  /** Monotonicity: a narrower filter never lets through a row the wider one
      rejects. */
  lemma NarrowingNeverAddsMatches(f: PortFilter, g: PortFilter, p: PortInfo,
                                  favorites: set<int>, watched: seq<WatchedPort>)
    requires Narrows(g, f) && g.Matches(p, favorites, watched)
    ensures f.Matches(p, favorites, watched)
  {
    if f.searchText != [] {
      var q, r := Lower(f.searchText), Lower(g.searchText);
      assert |r| >= |q| > 0;
      if Contains(Lower(p.processName), r) { ContainsTransitive(Lower(p.processName), r, q); }
      else if Contains(IntToString(p.port), r) { ContainsTransitive(IntToString(p.port), r, q); }
      else if Contains(IntToString(p.pid), r) { ContainsTransitive(IntToString(p.pid), r, q); }
      else if Contains(Lower(p.address), r) { ContainsTransitive(Lower(p.address), r, q); }
      else if Contains(Lower(p.user), r) { ContainsTransitive(Lower(p.user), r, q); }
      else { ContainsTransitive(Lower(p.command), r, q); }
    }
  }

  /** The single edits that narrow a filter: turning on a flag, setting a
      bound where there was none, dropping categories, typing more of the query. */
  lemma NarrowingEdits(f: PortFilter, m: int, types: set<ProcessType>, more: string)
    ensures Narrows(f.(showOnlyFavorites := true), f)
    ensures Narrows(f.(showOnlyWatched := true), f)
    ensures f.minPort.None? ==> Narrows(f.(minPort := Some(m)), f)
    ensures f.maxPort.None? ==> Narrows(f.(maxPort := Some(m)), f)
    ensures types <= f.processTypes ==> Narrows(f.(processTypes := types), f)
    ensures Narrows(f.(searchText := f.searchText + more), f)
  {
    ContainsSelf(Lower(f.searchText));
    var longer := Lower(f.searchText + more);
    assert longer[..|f.searchText|] == Lower(f.searchText);
    ContainsAt(longer, Lower(f.searchText), 0);
  }

  /** A filter for ports 8000 to 9000 showing only favorites, over rows at
      7999, 8080 (two records) and 9500 with the three port numbers
      favorited: favorites are port numbers, so both 8080 records pass and
      the rows outside the range do not. */
  lemma RangeAndFavoritesExample()
    ensures var f := DefaultFilter().(minPort := Some(8000), maxPort := Some(9000), showOnlyFavorites := true);
            var favorites := {7999, 8080, 9500};
            !f.Matches(Active(7999, 11, "node", "*", "dev", "node a.js", "22u"), favorites, []) &&
            f.Matches(Active(8080, 12, "nginx", "*", "www", "nginx", "6u"), favorites, []) &&
            f.Matches(Active(8080, 13, "python3", "127.0.0.1", "dev", "python3 -m http.server", "3u"), favorites, []) &&
            !f.Matches(Active(9500, 14, "redis-server", "*", "dev", "redis-server", "7u"), favorites, [])
  {
    AllTypesSize();
  }

  /** The row the search example below looks at. */
  function JavaRow(): PortInfo {
    Active(8080, 4242, "java", "*", "dev", "java -jar app.jar", "40u")
  }

  lemma PortString()
    ensures IntToString(8080) == "8080"
  {
    assert NatToString(8) == "8" && NatToString(80) == "80" && NatToString(808) == "808";
  }

  lemma PidString()
    ensures IntToString(4242) == "4242"
  {
    assert NatToString(4) == "4" && NatToString(42) == "42" && NatToString(424) == "424";
  }

  lemma JavaRowStrings()
    ensures IntToString(JavaRow().port) == "8080"
    ensures IntToString(JavaRow().pid) == "4242"
    ensures Lower(JavaRow().processName) == "java"
    ensures Lower(JavaRow().address) == "*"
    ensures Lower(JavaRow().user) == "dev"
    ensures Lower(JavaRow().command) == "java -jar app.jar"
  {
    PortString();
    PidString();
  }

  lemma JavaRowFindsPort()
    ensures SearchHit(JavaRow(), "80")
  {
    JavaRowStrings();
    ContainsAt("8080", "80", 0);
  }

  lemma JavaRowMissesOtherPort()
    ensures !SearchHit(JavaRow(), "8081")
  {
    JavaRowStrings();
    MissingChar("java", "8081", 0);
    MissingChar("*", "8081", 0);
    MissingChar("dev", "8081", 0);
    MissingChar("java -jar app.jar", "8081", 0);
    MissingChar("4242", "8081", 0);
    MissingChar("8080", "8081", 3);
  }

  /** A query is looked for in the decimal port number too: "80" finds the
      row on port 8080, and "8081" does not. */
  lemma SearchPortDigitsExample()
    ensures DefaultFilter().(searchText := "80").Matches(JavaRow(), {}, [])
    ensures !DefaultFilter().(searchText := "8081").Matches(JavaRow(), {}, [])
  {
    AllTypesSize();
    JavaRowFindsPort();
    JavaRowMissesOtherPort();
    assert Lower("80") == "80" && Lower("8081") == "8081";
  }

  lemma LongPortString()
    ensures IntToString(18080) == "18080"
  {
    assert NatToString(1) == "1" && NatToString(18) == "18" && NatToString(180) == "180";
    assert NatToString(1808) == "1808";
  }

  /** The search looks for a substring, so the query "8080" also keeps a
      row on port 18080. */
  lemma SearchFindsLongerPort()
    ensures SearchHit(JavaRow().(port := 18080), "8080")
    ensures DefaultFilter().(searchText := "8080").Matches(JavaRow().(port := 18080), {}, [])
  {
    AllTypesSize();
    LongPortString();
    ContainsAt("18080", "8080", 1);
    assert Lower("8080") == "8080";
  }

  /** The mutable storage of a `PortFilter`: its six stored properties. */
  class FilterState {
    var searchText: string
    var minPort: Option<int>
    var maxPort: Option<int>
    var processTypes: set<ProcessType>
    var showOnlyFavorites: bool
    var showOnlyWatched: bool

    /** The filter value the fields hold. */
    function Value(): PortFilter
      reads this
    {
      PortFilter(searchText, minPort, maxPort, processTypes, showOnlyFavorites, showOnlyWatched)
    }

    /** `PortFilter()`. */
    constructor ()
      ensures Value() == DefaultFilter()
    {
      searchText, minPort, maxPort := "", None, None;
      processTypes := AllTypes;
      showOnlyFavorites, showOnlyWatched := false, false;
    }

    /** `reset()`: every field back to its default, after which the filter is
        inactive and matches every row. */
    method Reset()
      modifies this
      ensures Value() == DefaultFilter()
      ensures !Value().IsActive()
      ensures forall p, favorites, watched :: Value().Matches(p, favorites, watched)
    {
      searchText := "";
      minPort := None;
      maxPort := None;
      processTypes := AllTypes;
      showOnlyFavorites := false;
      showOnlyWatched := false;
      forall p, favorites, watched
        ensures Value().Matches(p, favorites, watched)
      {
        DefaultFilterMatchesAll(p, favorites, watched);
      }
      AllTypesSize();
    }
  }

  /** The entries of the sidebar. */
  datatype SidebarItem = AllPorts | Favorites | Watched | ProcessTypeItem(kind: ProcessType) | Sponsors | Settings

  /** `SidebarItem.id`. */
  function Id(item: SidebarItem): string {
    match item
    case AllPorts => "all"
    case Favorites => "favorites"
    case Watched => "watched"
    case ProcessTypeItem(t) => "type-" + RawValue(t)
    case Sponsors => "sponsors"
    case Settings => "settings"
  }

  /** `SidebarItem.title`. */
  function Title(item: SidebarItem): string {
    match item
    case AllPorts => "All Ports"
    case Favorites => "Favorites"
    case Watched => "Watched"
    case ProcessTypeItem(t) => RawValue(t)
    case Sponsors => "Sponsors"
    case Settings => "Settings"
  }

  /** `SidebarItem.icon`. */
  function SidebarIcon(item: SidebarItem): string {
    match item
    case AllPorts => "list.bullet"
    case Favorites => "star.fill"
    case Watched => "eye.fill"
    case ProcessTypeItem(t) => Icon(t)
    case Sponsors => "heart.fill"
    case Settings => "gear"
  }

  /** No two sidebar entries share an id, the category entries included. */
  lemma IdInjective(a: SidebarItem, b: SidebarItem)
    requires Id(a) == Id(b)
    ensures a == b
  {
    if a.ProcessTypeItem? && b.ProcessTypeItem? {
      assert RawValue(a.kind) == Id(a)[5..] && RawValue(b.kind) == Id(b)[5..];
      RawValueInjective(a.kind, b.kind);
    } else if !a.ProcessTypeItem? && !b.ProcessTypeItem? {
      assert Id(a)[0] == Id(b)[0];
      assert Id(a)[1] == Id(b)[1];
    }
  }

  /** No two sidebar entries share a title. */
  lemma TitleInjective(a: SidebarItem, b: SidebarItem)
    requires Title(a) == Title(b)
    ensures a == b
  {
    if a.ProcessTypeItem? && b.ProcessTypeItem? {
      RawValueInjective(a.kind, b.kind);
    } else {
      assert Title(a)[0] == Title(b)[0];
      assert Title(a)[1] == Title(b)[1];
      assert |Title(a)| == |Title(b)|;
    }
  }

  /** No two sidebar entries share an icon name. */
  lemma SidebarIconInjective(a: SidebarItem, b: SidebarItem)
    requires SidebarIcon(a) == SidebarIcon(b)
    ensures a == b
  {
    if a.ProcessTypeItem? && b.ProcessTypeItem? {
      IconInjective(a.kind, b.kind);
    } else {
      assert SidebarIcon(a)[0] == SidebarIcon(b)[0];
      assert SidebarIcon(a)[1] == SidebarIcon(b)[1];
      assert |SidebarIcon(a)| == |SidebarIcon(b)|;
    }
  }
}
