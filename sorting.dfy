/** The order of the port table: a comparator keyed by the selected column,
    a direction flag that negates it, and the column-header clicks that
    choose both. */
module Sorting {
  import opened Strings
  import opened Models
  import opened Filtering

  /** The sortable columns. */
  datatype SortOrder = Port | Process | Pid | Type | Address | User | Actions

  // ----- Column-header clicks -----

  /** The view's `sortOrder` and `sortAscending`. */
  datatype SortState = SortState(order: SortOrder, ascending: bool)

  /** The state a new table view starts in: by port, ascending. */
  const InitialSortState: SortState := SortState(Port, true)

  /** A click on the header of column `clicked`: the current column flips its
      direction, any other column becomes current in ascending order. */
  function AfterClick(s: SortState, clicked: SortOrder): SortState {
    if s.order == clicked then SortState(s.order, !s.ascending) else SortState(clicked, true)
  }

  /** After a click the clicked column is the sort column; it is descending
      only if it was already current and ascending. */
  lemma ClickSelectsColumn(s: SortState, clicked: SortOrder)
    ensures AfterClick(s, clicked).order == clicked
    ensures !AfterClick(s, clicked).ascending <==> s.order == clicked && s.ascending
  {
  }

  /** Two clicks on the current column restore the state. */
  lemma ClickCurrentTwiceRestores(s: SortState)
    ensures AfterClick(AfterClick(s, s.order), s.order) == s
  {
  }

  /** Two clicks on another column leave it current and descending. */
  lemma ClickOtherTwiceDescends(s: SortState, clicked: SortOrder)
    requires s.order != clicked
    ensures AfterClick(AfterClick(s, clicked), clicked) == SortState(clicked, false)
  {
  }

  /** The two `@State` fields of the table view that the headers drive. */
  class SortHeader {
    var sortOrder: SortOrder
    var sortAscending: bool

    function State(): SortState
      reads this
    {
      SortState(sortOrder, sortAscending)
    }

    constructor ()
      ensures State() == InitialSortState
    {
      sortOrder := Port;
      sortAscending := true;
    }

    /** The action of a column's header button. */
    method Click(order: SortOrder)
      modifies this
      ensures sortOrder == order
      ensures sortAscending == (old(sortOrder) != order || !old(sortAscending))
      ensures State() == AfterClick(old(State()), order)
    {
      if sortOrder == order {
        sortAscending := !sortAscending;
      } else {
        sortOrder := order;
        sortAscending := true;
      }
    }
  }

  // ----- The comparator -----

  /** What the comparator closure captures: the column, the direction and
      the favorite and watched ports the "actions" column ranks by. */
  datatype Ordering = Ordering(order: SortOrder, ascending: bool, favorites: set<int>, watched: seq<WatchedPort>)

  /** The "actions" rank: favorites first, then watched ports, then the rest. */
  function Rank(p: PortInfo, favorites: set<int>, watched: seq<WatchedPort>): nat {
    if p.port in favorites then 2 else if IsWatched(watched, p.port) then 1 else 0
  }

  /** The rank is 2 for any favorite, watched or not; 1 for a watched port
      that is no favorite; 0 otherwise. */
  lemma RankValues(p: PortInfo, favorites: set<int>, watched: seq<WatchedPort>)
    ensures Rank(p, favorites, watched) == 2 <==> p.port in favorites
    ensures Rank(p, favorites, watched) == 1 <==>
            p.port !in favorites && exists w :: w in watched && w.port == p.port
    ensures Rank(p, favorites, watched) == 0 <==>
            p.port !in favorites && forall w :: w in watched ==> w.port != p.port
  {
    if IsWatched(watched, p.port) {
      var i :| 0 <= i < |watched| && watched[i].port == p.port;
      assert watched[i] in watched;
    }
  }

  /** The comparator's result before the direction is applied: integer `<`
      for port and PID, `<` on raw values for the category, the
      case-insensitive order for text columns, and for "actions" the higher
      rank first, then the lower port. */
  predicate AscendingBefore(o: Ordering, a: PortInfo, b: PortInfo) {
    match o.order
    case Port => a.port < b.port
    case Process => CaseInsensitiveLess(a.processName, b.processName)
    case Pid => a.pid < b.pid
    case Type => LexLess(RawValue(ProcessTypeOf(a)), RawValue(ProcessTypeOf(b)))
    case Address => CaseInsensitiveLess(a.address, b.address)
    case User => CaseInsensitiveLess(a.user, b.user)
    case Actions =>
      var ra := Rank(a, o.favorites, o.watched);
      var rb := Rank(b, o.favorites, o.watched);
      if ra != rb then ra > rb else a.port < b.port
  }

  /** The comparator handed to `sorted(by:)`: descending negates the result. */
  predicate Before(o: Ordering, a: PortInfo, b: PortInfo) {
    var result := AscendingBefore(o, a, b);
    if o.ascending then result else !result
  }

  /** Ascending "actions" order: a higher rank comes first, and within a rank
      the smaller port. */
  lemma ActionsAscendingOrder(o: Ordering, a: PortInfo, b: PortInfo)
    requires o.order == Actions && o.ascending
    ensures Rank(a, o.favorites, o.watched) > Rank(b, o.favorites, o.watched) ==>
            Before(o, a, b) && !Before(o, b, a)
    ensures Rank(a, o.favorites, o.watched) == Rank(b, o.favorites, o.watched) ==>
            (Before(o, a, b) <==> a.port < b.port)
  {
  }

  /** Descending "actions" order puts the lower rank first: a watched port
      before a favorite, a plain port before a watched one. */
  lemma ActionsDescendingOrder(o: Ordering, a: PortInfo, b: PortInfo)
    requires o.order == Actions && !o.ascending
    ensures Rank(a, o.favorites, o.watched) < Rank(b, o.favorites, o.watched) ==>
            Before(o, a, b) && !Before(o, b, a)
    ensures Rank(a, o.favorites, o.watched) == Rank(b, o.favorites, o.watched) ==>
            (Before(o, a, b) <==> a.port >= b.port)
  {
  }

  /** Two rows whose sort keys are equal for column `order`. */
  predicate SameKey(o: Ordering, a: PortInfo, b: PortInfo) {
    match o.order
    case Port => a.port == b.port
    case Process => Lower(a.processName) == Lower(b.processName)
    case Pid => a.pid == b.pid
    case Type => ProcessTypeOf(a) == ProcessTypeOf(b)
    case Address => Lower(a.address) == Lower(b.address)
    case User => Lower(a.user) == Lower(b.user)
    case Actions => Rank(a, o.favorites, o.watched) == Rank(b, o.favorites, o.watched) && a.port == b.port
  }

  /** Descending is the plain negation of ascending, so two rows with equal
      keys are each "before" the other in descending order (and neither is
      in ascending order). */
  lemma EqualKeysCompare(o: Ordering, a: PortInfo, b: PortInfo)
    requires SameKey(o, a, b)
    ensures o.ascending ==> !Before(o, a, b) && !Before(o, b, a)
    ensures !o.ascending ==> Before(o, a, b) && Before(o, b, a)
  {
    match o.order
    case Process => LexLessIrreflexive(Lower(a.processName));
    case Type => LexLessIrreflexive(RawValue(ProcessTypeOf(a)));
    case Address => LexLessIrreflexive(Lower(a.address));
    case User => LexLessIrreflexive(Lower(a.user));
    case _ =>
  }

  /** When two distinct strings are not ordered one way, they are ordered the other. */
  lemma NotLexLessFlips(x: string, y: string)
    requires !LexLess(x, y)
    ensures LexLess(y, x) || x == y
  {
    if x != y {
      LexLessTotal(x, y);
    }
  }

  /** `!LexLess` is transitive, which makes the negated order a preorder. */
  lemma NotLexLessTransitive(x: string, y: string, z: string)
    requires !LexLess(x, y) && !LexLess(y, z)
    ensures !LexLess(x, z)
  {
    NotLexLessFlips(x, y);
    NotLexLessFlips(y, z);
    if LexLess(x, z) {
      if x == y {
      } else if y == z {
      } else {
        LexLessTransitive(z, y, x);
        LexLessIrreflexive(x);
        LexLessTransitive(x, z, x);
      }
    }
  }

  /** A string key ordered by `LexLess` is irreflexive, transitive and, negated,
      a total preorder. */
  lemma StringKeyOrder(x: string, y: string, z: string)
    ensures !LexLess(x, x)
    ensures LexLess(x, y) && LexLess(y, z) ==> LexLess(x, z)
    ensures !LexLess(x, y) || !LexLess(y, x)
    ensures !LexLess(x, y) && !LexLess(y, z) ==> !LexLess(x, z)
  {
    LexLessIrreflexive(x);
    if LexLess(x, y) && LexLess(y, z) { LexLessTransitive(x, y, z); }
    if LexLess(x, y) && LexLess(y, x) { LexLessTransitive(x, y, x); }
    if !LexLess(x, y) && !LexLess(y, z) { NotLexLessTransitive(x, y, z); }
  }

  /** For every column the ascending comparator is a strict order: no row is
      before itself, "before" is transitive, and it never holds both ways;
      and its negation is transitive. */
  lemma AscendingIsStrictWeakOrder(o: Ordering, a: PortInfo, b: PortInfo, c: PortInfo)
    ensures !AscendingBefore(o, a, a)
    ensures AscendingBefore(o, a, b) && AscendingBefore(o, b, c) ==> AscendingBefore(o, a, c)
    ensures !AscendingBefore(o, a, b) || !AscendingBefore(o, b, a)
    ensures !AscendingBefore(o, a, b) && !AscendingBefore(o, b, c) ==> !AscendingBefore(o, a, c)
  {
    match o.order
    case Process => StringKeyOrder(Lower(a.processName), Lower(b.processName), Lower(c.processName));
    case Type => StringKeyOrder(RawValue(ProcessTypeOf(a)), RawValue(ProcessTypeOf(b)), RawValue(ProcessTypeOf(c)));
    case Address => StringKeyOrder(Lower(a.address), Lower(b.address), Lower(c.address));
    case User => StringKeyOrder(Lower(a.user), Lower(b.user), Lower(c.user));
    case _ =>
  }

  // ----- Sorting -----

  /** A comparator on rows, as `sorted(by:)` takes it. */
  type Comparator = (PortInfo, PortInfo) -> bool

  /** The closure `sortedPorts` passes to `sorted(by:)`. */
  function ComparatorOf(o: Ordering): Comparator {
    (a: PortInfo, b: PortInfo) => Before(o, a, b)
  }

  /** `less` is irreflexive and transitive on the rows of `all`. */
  ghost predicate StrictOn(all: seq<PortInfo>, less: Comparator) {
    (forall a :: a in all ==> !less(a, a)) &&
    (forall a, b, c :: a in all && b in all && c in all && less(a, b) && less(b, c) ==> less(a, c))
  }

  /** `less` is total and transitive on the rows of `all`. */
  ghost predicate PreorderOn(all: seq<PortInfo>, less: Comparator) {
    (forall a, b :: a in all && b in all ==> less(a, b) || less(b, a)) &&
    (forall a, b, c :: a in all && b in all && c in all && less(a, b) && less(b, c) ==> less(a, c))
  }

  /** No row comes before an earlier one: what `sorted(by:)` promises for a
      strict weak order. */
  ghost predicate NoInversion(r: seq<PortInfo>, less: Comparator) {
    forall i, j :: 0 <= i < j < |r| ==> !less(r[j], r[i])
  }

  /** Every row is "before" each later one. */
  ghost predicate Chained(r: seq<PortInfo>, less: Comparator) {
    forall i, j :: 0 <= i < j < |r| ==> less(r[i], r[j])
  }

  /** Inserts `x` in front of the first row it is before. */
  function Insert(x: PortInfo, s: seq<PortInfo>, less: Comparator): (r: seq<PortInfo>)
    ensures multiset(r) == multiset(s) + multiset{x}
  {
    if s == [] then [x]
    else if less(x, s[0]) then [x] + s
    else
      assert s == [s[0]] + s[1..];
      [s[0]] + Insert(x, s[1..], less)
  }

  /** Insertion sort by `less`; always a permutation of its input. */
  function SortBy(ports: seq<PortInfo>, less: Comparator): (r: seq<PortInfo>)
    ensures multiset(r) == multiset(ports)
    ensures |r| == |ports|
  {
    if ports == [] then []
    else
      assert ports == [ports[0]] + ports[1..];
      Insert(ports[0], SortBy(ports[1..], less), less)
  }

  /** `sortedPorts`: the filtered rows ordered by the comparator the sort
      state selects; always a permutation of the input. */
  function SortedPorts(ports: seq<PortInfo>, o: Ordering): (r: seq<PortInfo>)
    ensures multiset(r) == multiset(ports)
    ensures |r| == |ports|
  {
    SortBy(ports, ComparatorOf(o))
  }

  lemma InMultiset(e: PortInfo, r: seq<PortInfo>, s: seq<PortInfo>)
    requires multiset(r) == multiset(s) && e in r
    ensures e in s
  {
    assert e in multiset(r);
  }

  /** Prepending a row that no later row is before keeps a sequence free
      of inversions. */
  lemma ConsNoInversion(y: PortInfo, rest: seq<PortInfo>, less: Comparator)
    requires NoInversion(rest, less)
    requires forall k :: 0 <= k < |rest| ==> !less(rest[k], y)
    ensures NoInversion([y] + rest, less)
  {
    var r := [y] + rest;
    forall i, j | 0 <= i < j < |r|
      ensures !less(r[j], r[i])
    {
      assert r[j] == rest[j - 1];
      if i > 0 {
        assert r[i] == rest[i - 1];
      }
    }
  }

  /** Prepending a row that is before every later row keeps a sequence
      chained. */
  lemma ConsChained(y: PortInfo, rest: seq<PortInfo>, less: Comparator)
    requires Chained(rest, less)
    requires forall k :: 0 <= k < |rest| ==> less(y, rest[k])
    ensures Chained([y] + rest, less)
  {
    var r := [y] + rest;
    forall i, j | 0 <= i < j < |r|
      ensures less(r[i], r[j])
    {
      assert r[j] == rest[j - 1];
      if i > 0 {
        assert r[i] == rest[i - 1];
      }
    }
  }

  /** Every row of `Insert(x, s, less)` is `x` or a row of `s`. */
  lemma InsertedRow(x: PortInfo, s: seq<PortInfo>, less: Comparator, k: int)
    requires 0 <= k < |Insert(x, s, less)|
    ensures Insert(x, s, less)[k] == x ||
            exists m :: 0 <= m < |s| && s[m] == Insert(x, s, less)[k]
  {
    var r := Insert(x, s, less);
    assert r[k] in multiset(r);
    if r[k] != x {
      assert r[k] in multiset(s);
    }
  }

  lemma {:induction false} InsertNoInversion(x: PortInfo, s: seq<PortInfo>, less: Comparator, all: seq<PortInfo>)
    requires x in all && forall e :: e in s ==> e in all
    requires StrictOn(all, less) && NoInversion(s, less)
    ensures NoInversion(Insert(x, s, less), less)
  {
    if s == [] {
    } else if less(x, s[0]) {
      forall k | 0 <= k < |s|
        ensures !less(s[k], x)
      {
        assert s[k] in all && s[0] in all;
        if k > 0 {
          assert !less(s[k], s[0]);
        }
      }
      ConsNoInversion(x, s, less);
    } else {
      var tail := s[1..];
      var rest := Insert(x, tail, less);
      InsertNoInversion(x, tail, less, all);
      forall k | 0 <= k < |rest|
        ensures !less(rest[k], s[0])
      {
        InsertedRow(x, tail, less, k);
        if rest[k] != x {
          var m :| 0 <= m < |tail| && tail[m] == rest[k];
          assert s[m + 1] == rest[k];
        }
      }
      ConsNoInversion(s[0], rest, less);
    }
  }

  lemma {:induction false} InsertChained(x: PortInfo, s: seq<PortInfo>, less: Comparator, all: seq<PortInfo>)
    requires x in all && forall e :: e in s ==> e in all
    requires PreorderOn(all, less) && Chained(s, less)
    ensures Chained(Insert(x, s, less), less)
  {
    if s == [] {
    } else if less(x, s[0]) {
      forall k | 0 <= k < |s|
        ensures less(x, s[k])
      {
        assert s[k] in all && s[0] in all;
        if k > 0 {
          assert less(s[0], s[k]);
        }
      }
      ConsChained(x, s, less);
    } else {
      var tail := s[1..];
      var rest := Insert(x, tail, less);
      InsertChained(x, tail, less, all);
      assert s[0] in all;
      forall k | 0 <= k < |rest|
        ensures less(s[0], rest[k])
      {
        InsertedRow(x, tail, less, k);
        if rest[k] != x {
          var m :| 0 <= m < |tail| && tail[m] == rest[k];
          assert s[m + 1] == rest[k];
        }
      }
      ConsChained(s[0], rest, less);
    }
  }

  lemma {:induction false} SortNoInversion(ports: seq<PortInfo>, less: Comparator, all: seq<PortInfo>)
    requires forall e :: e in ports ==> e in all
    requires StrictOn(all, less)
    ensures NoInversion(SortBy(ports, less), less)
  {
    if ports != [] {
      var rest := SortBy(ports[1..], less);
      SortNoInversion(ports[1..], less, all);
      forall e | e in rest
        ensures e in all
      {
        InMultiset(e, rest, ports[1..]);
      }
      InsertNoInversion(ports[0], rest, less, all);
    }
  }

  lemma {:induction false} SortChained(ports: seq<PortInfo>, less: Comparator, all: seq<PortInfo>)
    requires forall e :: e in ports ==> e in all
    requires PreorderOn(all, less)
    ensures Chained(SortBy(ports, less), less)
  {
    if ports != [] {
      var rest := SortBy(ports[1..], less);
      SortChained(ports[1..], less, all);
      forall e | e in rest
        ensures e in all
      {
        InMultiset(e, rest, ports[1..]);
      }
      InsertChained(ports[0], rest, less, all);
    }
  }

  /** In ascending order, for every column, no row of `sortedPorts` comes
      before an earlier one. */
  lemma AscendingSortHasNoInversion(ports: seq<PortInfo>, o: Ordering)
    requires o.ascending
    ensures NoInversion(SortedPorts(ports, o), ComparatorOf(o))
  {
    forall a, b, c | a in ports && b in ports && c in ports
      ensures !ComparatorOf(o)(a, a)
      ensures ComparatorOf(o)(a, b) && ComparatorOf(o)(b, c) ==> ComparatorOf(o)(a, c)
    {
      AscendingIsStrictWeakOrder(o, a, b, c);
    }
    SortNoInversion(ports, ComparatorOf(o), ports);
  }

  /** In descending order, for every column, every row of the model's sort
      is at least as large, in ascending terms, as each later one. */
  lemma DescendingSortIsChained(ports: seq<PortInfo>, o: Ordering)
    requires !o.ascending
    ensures Chained(SortedPorts(ports, o), ComparatorOf(o))
    ensures forall i, j :: 0 <= i < j < |SortedPorts(ports, o)| ==>
            !AscendingBefore(o, SortedPorts(ports, o)[i], SortedPorts(ports, o)[j])
  {
    forall a, b, c | a in ports && b in ports && c in ports
      ensures ComparatorOf(o)(a, b) || ComparatorOf(o)(b, a)
      ensures ComparatorOf(o)(a, b) && ComparatorOf(o)(b, c) ==> ComparatorOf(o)(a, c)
    {
      AscendingIsStrictWeakOrder(o, a, b, c);
    }
    SortChained(ports, ComparatorOf(o), ports);
  }

  /** Sorted by port, ascending: port numbers never decrease. */
  lemma PortAscendingIsNonDecreasing(ports: seq<PortInfo>, favorites: set<int>, watched: seq<WatchedPort>)
    ensures var r := SortedPorts(ports, Ordering(Port, true, favorites, watched));
            forall i, j :: 0 <= i < j < |r| ==> r[i].port <= r[j].port
  {
    var o := Ordering(Port, true, favorites, watched);
    AscendingSortHasNoInversion(ports, o);
    var r := SortedPorts(ports, o);
    forall i, j | 0 <= i < j < |r|
      ensures r[i].port <= r[j].port
    {
      assert !ComparatorOf(o)(r[j], r[i]);
    }
  }

  /** Sorted by "actions", ascending: favorites, then watched ports, then the
      rest, each group by increasing port. */
  lemma ActionsAscendingGroups(ports: seq<PortInfo>, favorites: set<int>, watched: seq<WatchedPort>)
    ensures var r := SortedPorts(ports, Ordering(Actions, true, favorites, watched));
            forall i, j :: 0 <= i < j < |r| ==>
              Rank(r[i], favorites, watched) >= Rank(r[j], favorites, watched) &&
              (Rank(r[i], favorites, watched) == Rank(r[j], favorites, watched) ==> r[i].port <= r[j].port)
  {
    var o := Ordering(Actions, true, favorites, watched);
    AscendingSortHasNoInversion(ports, o);
    var r := SortedPorts(ports, o);
    forall i, j | 0 <= i < j < |r|
      ensures Rank(r[i], favorites, watched) >= Rank(r[j], favorites, watched)
      ensures Rank(r[i], favorites, watched) == Rank(r[j], favorites, watched) ==> r[i].port <= r[j].port
    {
      assert !ComparatorOf(o)(r[j], r[i]);
    }
  }

  /** Sorted by port, descending: port numbers never increase. */
  lemma PortDescendingIsNonIncreasing(ports: seq<PortInfo>, favorites: set<int>, watched: seq<WatchedPort>)
    ensures var r := SortedPorts(ports, Ordering(Port, false, favorites, watched));
            forall i, j :: 0 <= i < j < |r| ==> r[i].port >= r[j].port
  {
    var o := Ordering(Port, false, favorites, watched);
    DescendingSortIsChained(ports, o);
    var r := SortedPorts(ports, o);
    forall i, j | 0 <= i < j < |r|
      ensures r[i].port >= r[j].port
    {
      assert ComparatorOf(o)(r[i], r[j]);
    }
  }

  /** One insertion step past a row `x` is not before. */
  lemma InsertPast(x: PortInfo, y: PortInfo, s: seq<PortInfo>, less: Comparator)
    requires !less(x, y)
    ensures Insert(x, [y] + s, less) == [y] + Insert(x, s, less)
  {
    assert ([y] + s)[1..] == s;
  }

  // The rows of the example below.
  const FavoriteRow := Inactive(9000)
  const WatchedRow := Active(8080, 501, "node", "*", "dev", "node server.js", "23u")
  const PlainRow := Active(3000, 502, "ruby", "*", "dev", "rails s", "12u")
  const ExampleWatched := [NewWatchedPort(8080)]

  lemma ExampleRanks()
    ensures Rank(FavoriteRow, {9000}, ExampleWatched) == 2
    ensures Rank(WatchedRow, {9000}, ExampleWatched) == 1
    ensures Rank(PlainRow, {9000}, ExampleWatched) == 0
  {
    assert ExampleWatched[0].port == 8080;
    assert !IsWatched(ExampleWatched, 3000);
  }

  /** A favorite placeholder on 9000, a watched port 8080 and a plain port
      3000: ascending "actions" order lists them in that order although the
      ports grow the other way. */
  lemma ActionsAscendingExample()
    ensures SortedPorts([PlainRow, WatchedRow, FavoriteRow], Ordering(Actions, true, {9000}, ExampleWatched))
            == [FavoriteRow, WatchedRow, PlainRow]
  {
    var up := ComparatorOf(Ordering(Actions, true, {9000}, ExampleWatched));
    ExampleRanks();
    assert !up(WatchedRow, FavoriteRow) && !up(PlainRow, FavoriteRow) && !up(PlainRow, WatchedRow);
    var s := [PlainRow, WatchedRow, FavoriteRow];
    assert s[1..] == [WatchedRow, FavoriteRow] && s[1..][1..] == [FavoriteRow];
    assert SortBy([FavoriteRow], up) == [FavoriteRow];
    InsertPast(WatchedRow, FavoriteRow, [], up);
    assert SortBy(s[1..], up) == [FavoriteRow, WatchedRow];
    InsertPast(PlainRow, FavoriteRow, [WatchedRow], up);
    InsertPast(PlainRow, WatchedRow, [], up);
  }

  /** The same rows in descending "actions" order come out reversed: the
      favorite last. */
  lemma ActionsDescendingExample()
    ensures SortedPorts([FavoriteRow, WatchedRow, PlainRow], Ordering(Actions, false, {9000}, ExampleWatched))
            == [PlainRow, WatchedRow, FavoriteRow]
  {
    var down := ComparatorOf(Ordering(Actions, false, {9000}, ExampleWatched));
    ExampleRanks();
    assert !down(WatchedRow, PlainRow) && !down(FavoriteRow, PlainRow) && !down(FavoriteRow, WatchedRow);
    var s := [FavoriteRow, WatchedRow, PlainRow];
    assert s[1..] == [WatchedRow, PlainRow] && s[1..][1..] == [PlainRow];
    assert SortBy([PlainRow], down) == [PlainRow];
    InsertPast(WatchedRow, PlainRow, [], down);
    assert SortBy(s[1..], down) == [PlainRow, WatchedRow];
    InsertPast(FavoriteRow, PlainRow, [WatchedRow], down);
    InsertPast(FavoriteRow, WatchedRow, [], down);
  }
}
