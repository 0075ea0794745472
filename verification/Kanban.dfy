/** The kanban view of `get_kanban_view` in `packages/boards/src/lintel/boards/routes.py`. */
module Kanban {
  import opened Common

  datatype Column = Column(id: string, name: string, position: int, wipLimit: int)
  datatype Item = Item(id: string, columnId: string, position: int, tags: set<string>)
  datatype Filled = Filled(column: Column, items: seq<Item>)

  // ---------------------------------------------------------------- stable sorting

  /** Something sorted by an integer key. */
  datatype Keyed<T> = Keyed(key: int, value: T)

  /** Behind every element whose key is not greater. */
  function Insert<T>(s: seq<Keyed<T>>, x: Keyed<T>): seq<Keyed<T>> {
    if s == [] || Last(s).key <= x.key then s + [x] else Insert(Front(s), x) + [Last(s)]
  }

  /** Python's `sorted(s, key=...)`. */
  function Sorted<T>(s: seq<Keyed<T>>): seq<Keyed<T>> {
    if s == [] then [] else Insert(Sorted(Front(s)), Last(s))
  }

  predicate InOrder<T>(s: seq<Keyed<T>>) {
    forall i, j | 0 <= i < j < |s| :: s[i].key <= s[j].key
  }

  /** The elements with one key, in order. */
  function WithKey<T>(s: seq<Keyed<T>>, key: int): seq<Keyed<T>> {
    if s == [] then [] else if Last(s).key == key then WithKey(Front(s), key) + [Last(s)] else WithKey(Front(s), key)
  }

  lemma WithKeyPush<T>(s: seq<Keyed<T>>, x: Keyed<T>, key: int)
    ensures WithKey(s + [x], key) == if x.key == key then WithKey(s, key) + [x] else WithKey(s, key)
  {
    assert Front(s + [x]) == s;
  }

  lemma {:induction false} InsertCounts<T>(s: seq<Keyed<T>>, x: Keyed<T>)
    ensures multiset(Insert(s, x)) == multiset(s) + multiset{x}
  {
    if s != [] && Last(s).key > x.key {
      InsertCounts(Front(s), x);
      assert s == Front(s) + [Last(s)];
    }
  }

  lemma InsertMembers<T>(s: seq<Keyed<T>>, x: Keyed<T>, y: Keyed<T>)
    requires y in Insert(s, x)
    ensures y in s || y == x
  {
    InsertCounts(s, x);
    assert y in multiset(Insert(s, x));
  }

  lemma {:induction false} InsertExact<T>(s: seq<Keyed<T>>, x: Keyed<T>)
    requires InOrder(s)
    ensures InOrder(Insert(s, x))
    ensures multiset(Insert(s, x)) == multiset(s) + multiset{x}
  {
    InsertCounts(s, x);
    if s != [] && Last(s).key > x.key {
      var rest := Insert(Front(s), x);
      InsertExact(Front(s), x);
      forall i | 0 <= i < |rest| ensures rest[i].key <= Last(s).key { InsertMembers(Front(s), x, rest[i]); }
    }
  }

  lemma {:induction false} InsertStable<T>(s: seq<Keyed<T>>, x: Keyed<T>, key: int)
    requires InOrder(s)
    ensures WithKey(Insert(s, x), key) == WithKey(s + [x], key)
  {
    WithKeyPush(s, x, key);
    if s != [] && Last(s).key > x.key {
      var front, last := Front(s), Last(s);
      InsertStable(front, x, key);
      WithKeyPush(front, x, key);
      WithKeyPush(Insert(front, x), last, key);
    }
  }

  /** A stable sort: in order, the same elements, and elements with equal keys in the order they had. */
  lemma {:induction false} SortedExact<T>(s: seq<Keyed<T>>)
    ensures InOrder(Sorted(s)) && multiset(Sorted(s)) == multiset(s)
    ensures forall key :: WithKey(Sorted(s), key) == WithKey(s, key)
  {
    if s != [] {
      var front := Sorted(Front(s));
      SortedExact(Front(s));
      InsertExact(front, Last(s));
      assert s == Front(s) + [Last(s)];
      forall key ensures WithKey(Sorted(s), key) == WithKey(s, key) {
        InsertStable(front, Last(s), key);
        WithKeyPush(front, Last(s), key);
      }
    }
  }

  // ---------------------------------------------------------------- the view

  function ByPosition(columns: seq<Column>): seq<Keyed<Column>> {
    seq(|columns|, k requires 0 <= k < |columns| => Keyed(columns[k].position, columns[k]))
  }

  function ByItemPosition(items: seq<Item>): seq<Keyed<Item>> {
    seq(|items|, k requires 0 <= k < |items| => Keyed(items[k].position, items[k]))
  }

  function Values<T>(s: seq<Keyed<T>>): seq<T> { seq(|s|, k requires 0 <= k < |s| => s[k].value) }

  /** The items kept by the tag filter; `None` if none was asked for. */
  function Tagged(items: seq<Item>, tags: Option<set<string>>): seq<Item> {
    if tags == None || items == [] then items
    else if tags.value * Last(items).tags != {} then Tagged(Front(items), tags) + [Last(items)]
    else Tagged(Front(items), tags)
  }

  /** The items of one column, in order. */
  function Placed(items: seq<Item>, id: string): seq<Item> {
    if items == [] then []
    else if Last(items).columnId == id then Placed(Front(items), id) + [Last(items)]
    else Placed(Front(items), id)
  }

  /** Where a column id leads: the last column that has it. */
  predicate IsHome(columns: seq<Column>, id: string, c: nat) {
    c < |columns| && columns[c].id == id && forall d | c < d < |columns| :: columns[d].id != id
  }

  predicate OnBoard(columns: seq<Column>, id: string) { exists c | 0 <= c < |columns| :: columns[c].id == id }

  /** Every column, in position order, with the items its id leads to. */
  ghost predicate IsView(view: seq<Filled>, columns: seq<Column>, items: seq<Item>) {
    var ordered := Values(Sorted(ByPosition(columns)));
    && |view| == |ordered|
    && forall c | 0 <= c < |view| ::
         && view[c].column == ordered[c]
         && view[c].items == if IsHome(ordered, view[c].column.id, c)
                             then Placed(Values(Sorted(ByItemPosition(items))), view[c].column.id) else []
  }

  method GetKanbanView(columns: seq<Column>, items: seq<Item>, tags: Option<set<string>>) returns (view: seq<Filled>)
    ensures |view| == |columns| && IsView(view, columns, Tagged(items, tags))
    // the columns are those of the board, by position, and in the order the board has them where it is the same
    ensures forall c, d | 0 <= c < d < |view| :: view[c].column.position <= view[d].column.position
    ensures forall position :: AtPosition(Shown(view), position) == AtPosition(columns, position)
    ensures forall c: nat | c < |view| :: ShowsItems(view, items, tags, c)
  {
    SortedLength(ByPosition(columns));
    var ordered := Values(Sorted(ByPosition(columns)));
    var columnsById := IndexColumns(ordered);
    var lists := PlaceItems(ordered, columnsById, Values(Sorted(ByItemPosition(Tagged(items, tags)))));
    view := seq(|ordered|, c requires 0 <= c < |ordered| && |lists| == |ordered| => Filled(ordered[c], lists[c]));
    ViewMeetsContract(view, columns, items, tags);
  }

  lemma ViewMeetsContract(view: seq<Filled>, columns: seq<Column>, items: seq<Item>, tags: Option<set<string>>)
    requires IsView(view, columns, Tagged(items, tags))
    ensures forall c, d | 0 <= c < d < |view| :: view[c].column.position <= view[d].column.position
    ensures forall position :: AtPosition(Shown(view), position) == AtPosition(columns, position)
    ensures forall c: nat | c < |view| :: ShowsItems(view, items, tags, c)
  {
    ColumnsInStableOrder(view, columns, Tagged(items, tags));
    forall position ensures AtPosition(Shown(view), position) == AtPosition(columns, position) {
      AtPositionByKey(Shown(view), position);
      AtPositionByKey(columns, position);
    }
    forall c: nat | c < |view| ensures ShowsItems(view, items, tags, c) { ViewShowsItems(view, columns, items, tags, c); }
  }

  /** The columns at one position, in order. */
  function AtPosition(columns: seq<Column>, position: int): seq<Column> {
    if columns == [] then []
    else AtPosition(Front(columns), position) + if Last(columns).position == position then [Last(columns)] else []
  }

  lemma {:induction false} AtPositionByKey(columns: seq<Column>, position: int)
    ensures AtPosition(columns, position) == Values(WithKey(ByPosition(columns), position))
  {
    if columns != [] {
      var front := ByPosition(Front(columns));
      AtPositionByKey(Front(columns), position);
      assert ByPosition(columns) == front + [Keyed(Last(columns).position, Last(columns))];
      WithKeyPush(front, Keyed(Last(columns).position, Last(columns)), position);
      ValuesOfPush(WithKey(front, position), Keyed(Last(columns).position, Last(columns)));
    }
  }

  lemma ValuesOfPush<T>(s: seq<Keyed<T>>, x: Keyed<T>)
    ensures Values(s + [x]) == Values(s) + [x.value]
  {
  }

  /** The lookup by id: a later column takes the place of an earlier one with its id. */
  predicate Leads(columns: seq<Column>, byId: map<string, nat>) {
    && (forall id | id in byId :: IsHome(columns, id, byId[id]))
    && forall c | 0 <= c < |columns| :: columns[c].id in byId
  }

  method IndexColumns(ordered: seq<Column>) returns (columnsById: map<string, nat>)
    ensures Leads(ordered, columnsById)
  {
    columnsById := map[];
    for c := 0 to |ordered|
      invariant Leads(ordered[..c], columnsById)
    {
      columnsById := columnsById[ordered[c].id := c];
    }
    assert ordered[..|ordered|] == ordered;
  }

  /** The list of each column starts empty, and each item is appended to the one its id leads to. */
  method PlaceItems(ordered: seq<Column>, columnsById: map<string, nat>, sorted: seq<Item>) returns (lists: seq<seq<Item>>)
    requires Leads(ordered, columnsById)
    ensures |lists| == |ordered|
    ensures forall c | 0 <= c < |ordered| ::
              lists[c] == if IsHome(ordered, ordered[c].id, c) then Placed(sorted, ordered[c].id) else []
  {
    lists := seq(|ordered|, _ => []);
    for k := 0 to |sorted|
      invariant |lists| == |ordered|
      invariant forall c | 0 <= c < |ordered| ::
                  lists[c] == if IsHome(ordered, ordered[c].id, c) then Placed(sorted[..k], ordered[c].id) else []
    {
      var item := sorted[k];
      assert Front(sorted[..k + 1]) == sorted[..k] && Last(sorted[..k + 1]) == item;
      if item.columnId in columnsById {
        var home := columnsById[item.columnId];
        lists := lists[home := lists[home] + [item]];
      }
    }
    assert sorted[..|sorted|] == sorted;
  }

  lemma SortedLength<T>(s: seq<Keyed<T>>)
    ensures |Sorted(s)| == |s|
  {
    SortedExact(s);
    assert |multiset(Sorted(s))| == |multiset(s)|;
  }

  // ---------------------------------------------------------------- what the view shows

  /** The items of one column at one position, in order. */
  function PlacedAt(items: seq<Item>, id: string, position: int): seq<Item> {
    if items == [] then []
    else if Last(items).columnId == id && Last(items).position == position then
      PlacedAt(Front(items), id, position) + [Last(items)]
    else PlacedAt(Front(items), id, position)
  }

  predicate KeyedByPosition(s: seq<Keyed<Item>>) { forall k | 0 <= k < |s| :: s[k].key == s[k].value.position }

  lemma ValuesPush<T>(s: seq<Keyed<T>>)
    requires s != []
    ensures Values(s) != [] && Front(Values(s)) == Values(Front(s)) && Last(Values(s)) == Last(s).value
  {
  }

  lemma PlacedPush(items: seq<Item>, x: Item, id: string)
    ensures Placed(items + [x], id) == if x.columnId == id then Placed(items, id) + [x] else Placed(items, id)
  {
    assert Front(items + [x]) == items;
  }

  lemma {:induction false} PlacedAtByKey(s: seq<Keyed<Item>>, id: string, position: int)
    requires KeyedByPosition(s)
    ensures PlacedAt(Values(s), id, position) == Placed(Values(WithKey(s, position)), id)
  {
    if s != [] {
      PlacedAtByKey(Front(s), id, position);
      ValuesPush(s);
      var kept := WithKey(Front(s), position);
      if Last(s).key == position {
        assert Values(kept + [Last(s)]) == Values(kept) + [Last(s).value];
        PlacedPush(Values(kept), Last(s).value, id);
      }
    }
  }

  lemma {:induction false} PlacedAtOfPlaced(items: seq<Item>, id: string, position: int)
    ensures PlacedAt(Placed(items, id), id, position) == PlacedAt(items, id, position)
  {
    if items != [] {
      PlacedAtOfPlaced(Front(items), id, position);
      var front := Placed(Front(items), id);
      assert Front(front + [Last(items)]) == front;
    }
  }

  lemma {:induction false} PlacedOrdered(items: seq<Item>, id: string)
    requires forall i, j | 0 <= i < j < |items| :: items[i].position <= items[j].position
    ensures forall i, j | 0 <= i < j < |Placed(items, id)| ::
        Placed(items, id)[i].position <= Placed(items, id)[j].position
    ensures forall i | 0 <= i < |Placed(items, id)| :: Placed(items, id)[i] in items
  {
    if items != [] {
      PlacedOrdered(Front(items), id);
      assert items == Front(items) + [Last(items)];
    }
  }

  /** The tag filter keeps an item, as often as it was given, exactly if it has one of the tags. */
  lemma {:induction false} TaggedCounts(items: seq<Item>, tags: Option<set<string>>, x: Item)
    ensures multiset(Tagged(items, tags))[x] ==
            if tags.None? || tags.value * x.tags != {} then multiset(items)[x] else 0
  {
    if tags != None && items != [] {
      TaggedCounts(Front(items), tags, x);
      assert items == Front(items) + [Last(items)];
    }
  }

  lemma {:induction false} PlacedCounts(items: seq<Item>, id: string, x: Item)
    ensures multiset(Placed(items, id))[x] == if x.columnId == id then multiset(items)[x] else 0
  {
    if items != [] {
      PlacedCounts(Front(items), id, x);
      assert items == Front(items) + [Last(items)];
    }
  }

  lemma SortedItems(items: seq<Item>)
    ensures var sorted := Values(Sorted(ByItemPosition(items)));
            && multiset(sorted) == multiset(items)
            && (forall i, j | 0 <= i < j < |sorted| :: sorted[i].position <= sorted[j].position)
            && (forall id, position :: PlacedAt(sorted, id, position) == PlacedAt(items, id, position))
  {
    var keyed := ByItemPosition(items);
    SortedExact(keyed);
    assert Values(keyed) == items;
    forall k | 0 <= k < |Sorted(keyed)| ensures Sorted(keyed)[k].key == Sorted(keyed)[k].value.position {
      assert Sorted(keyed)[k] in multiset(Sorted(keyed));
      assert Sorted(keyed)[k] in keyed;
    }
    SameValues(Sorted(keyed), keyed);
    forall id, position ensures PlacedAt(Values(Sorted(keyed)), id, position) == PlacedAt(items, id, position) {
      PlacedAtByKey(Sorted(keyed), id, position);
      PlacedAtByKey(keyed, id, position);
    }
  }

  lemma {:induction false} ValuesCount<T>(s: seq<Keyed<T>>, f: T -> int, x: T)
    requires forall k | 0 <= k < |s| :: s[k].key == f(s[k].value)
    ensures multiset(Values(s))[x] == multiset(s)[Keyed(f(x), x)]
  {
    if s != [] {
      ValuesCount(Front(s), f, x);
      ValuesPush(s);
      assert s == Front(s) + [Last(s)] && Values(s) == Values(Front(s)) + [Last(s).value];
    }
  }

  lemma SameValues(s: seq<Keyed<Item>>, t: seq<Keyed<Item>>)
    requires KeyedByPosition(s) && KeyedByPosition(t) && multiset(s) == multiset(t)
    ensures multiset(Values(s)) == multiset(Values(t))
  {
    forall x ensures multiset(Values(s))[x] == multiset(Values(t))[x] {
      ValuesCount(s, (i: Item) => i.position, x);
      ValuesCount(t, (i: Item) => i.position, x);
    }
  }

  /** Each item whose column is on the board is in exactly one column, as often as it was given, and no
      other item is in any, even when two columns share an id. */
  lemma EachItemOnce(view: seq<Filled>, columns: seq<Column>, items: seq<Item>, x: Item)
    requires IsView(view, columns, items)
    ensures OnBoard(columns, x.columnId) ==>
              exists home | 0 <= home < |view| ::
                multiset(view[home].items)[x] == multiset(items)[x] &&
                forall c | 0 <= c < |view| && c != home :: x !in view[c].items
    ensures !OnBoard(columns, x.columnId) ==> forall c | 0 <= c < |view| :: x !in view[c].items
  {
    var ordered := Values(Sorted(ByPosition(columns)));
    var sorted := Values(Sorted(ByItemPosition(items)));
    SortedItems(items);
    SameBoard(columns, x.columnId);
    forall c | 0 <= c < |view|
      ensures multiset(view[c].items)[x] == if IsHome(ordered, x.columnId, c) then multiset(items)[x] else 0
      ensures x in view[c].items <==> multiset(view[c].items)[x] > 0
    {
      PlacedCounts(sorted, view[c].column.id, x);
    }
    if OnBoard(ordered, x.columnId) {
      var home := HomeOf(ordered, x.columnId);
      assert forall c | 0 <= c < |view| && c != home :: !IsHome(ordered, x.columnId, c);
    }
  }

  lemma {:induction false} HomeOf(columns: seq<Column>, id: string) returns (c: nat)
    requires OnBoard(columns, id)
    ensures IsHome(columns, id, c)
  {
    c := |columns| - 1;
    while columns[c].id != id
      invariant 0 <= c < |columns| && forall d | c < d < |columns| :: columns[d].id != id
      decreases c
    {
      assert c > 0 by {
        var w :| 0 <= w < |columns| && columns[w].id == id;
        assert w <= c;
      }
      c := c - 1;
    }
  }

  lemma SameBoard(columns: seq<Column>, id: string)
    ensures OnBoard(Values(Sorted(ByPosition(columns))), id) <==> OnBoard(columns, id)
  {
    var keyed := ByPosition(columns);
    SortedExact(keyed);
    var sorted := Sorted(keyed);
    if OnBoard(columns, id) {
      var c :| 0 <= c < |columns| && columns[c].id == id;
      assert keyed[c] in multiset(sorted);
      assert keyed[c] in sorted;
      var d :| 0 <= d < |sorted| && sorted[d] == keyed[c];
      assert Values(sorted)[d].id == id;
    }
    if OnBoard(Values(sorted), id) {
      var d :| 0 <= d < |sorted| && Values(sorted)[d].id == id;
      assert sorted[d] in multiset(sorted);
      assert sorted[d] in keyed;
      var c :| 0 <= c < |keyed| && keyed[c] == sorted[d];
      assert columns[c].id == id;
    }
  }

  /** Each column lists its items by position, and those at one position in the order they were given. */
  lemma ColumnsListInStableOrder(view: seq<Filled>, columns: seq<Column>, items: seq<Item>, c: nat)
    requires IsView(view, columns, items) && c < |view|
    ensures var shown := view[c].items;
            && (forall i, j | 0 <= i < j < |shown| :: shown[i].position <= shown[j].position)
            && (IsHome(Values(Sorted(ByPosition(columns))), view[c].column.id, c) ==>
                  forall position ::
                      PlacedAt(shown, view[c].column.id, position) == PlacedAt(items, view[c].column.id, position))
  {
    var sorted := Values(Sorted(ByItemPosition(items)));
    SortedItems(items);
    PlacedOrdered(sorted, view[c].column.id);
    forall position
      ensures PlacedAt(Placed(sorted, view[c].column.id), view[c].column.id, position) == PlacedAt(items, view[c].column.id, position)
    {
      PlacedAtOfPlaced(sorted, view[c].column.id, position);
    }
  }

  function Shown(view: seq<Filled>): seq<Column> { seq(|view|, k requires 0 <= k < |view| => view[k].column) }

  /** The columns come in position order, and those at one position in the order the board has them. */
  lemma ColumnsInStableOrder(view: seq<Filled>, columns: seq<Column>, items: seq<Item>)
    requires IsView(view, columns, items)
    ensures forall c, d | 0 <= c < d < |view| :: view[c].column.position <= view[d].column.position
    ensures forall position :: WithKey(ByPosition(Shown(view)), position) == WithKey(ByPosition(columns), position)
  {
    var keyed := ByPosition(columns);
    var sorted := Sorted(keyed);
    SortedExact(keyed);
    forall k | 0 <= k < |sorted| ensures sorted[k].key == sorted[k].value.position {
      assert sorted[k] in multiset(sorted);
      assert sorted[k] in keyed;
    }
    assert ByPosition(Shown(view)) == sorted;
  }

  // ---------------------------------------------------------------- the view and the unfiltered items

  /** Of the items given, those asked for by the tags, in the column and at the position, in order. */
  function Picked(items: seq<Item>, tags: Option<set<string>>, id: string, position: int): seq<Item> {
    if items == [] then []
    else
      var x := Last(items);
      var wanted := tags.None? || exists tag | tag in tags.value :: tag in x.tags;
      Picked(Front(items), tags, id, position) +
      if wanted && x.columnId == id && x.position == position then [x] else []
  }

  lemma {:induction false} PickedIsPlaced(items: seq<Item>, tags: Option<set<string>>, id: string, position: int)
    ensures PlacedAt(Tagged(items, tags), id, position) == Picked(items, tags, id, position)
  {
    if items != [] {
      var x := Last(items);
      PickedIsPlaced(Front(items), tags, id, position);
      if tags.Some? {
        assert tags.value * x.tags != {} <==> exists tag | tag in tags.value :: tag in x.tags by {
          if tag :| tag in tags.value && tag in x.tags { assert tag in tags.value * x.tags; }
          if tags.value * x.tags != {} { var tag :| tag in tags.value * x.tags; }
        }
        var front := Tagged(Front(items), tags);
        assert Front(front + [x]) == front;
      } else {
        assert Tagged(Front(items), tags) == Front(items);
      }
    }
  }

  /** Column `c` of the view: empty if a later one has its id; otherwise its items are by position, all of them
      its own, and at each position those picked from the items given, in the order they were given. */
  ghost predicate ShowsItems(view: seq<Filled>, items: seq<Item>, tags: Option<set<string>>, c: nat)
    requires c < |view|
  {
    var id, shown := view[c].column.id, view[c].items;
    if exists d | c < d < |view| :: view[d].column.id == id then shown == []
    else
      && (forall i, j | 0 <= i < j < |shown| :: shown[i].position <= shown[j].position)
      && (forall i | 0 <= i < |shown| :: shown[i].columnId == id)
      && forall position :: PlacedAt(shown, id, position) == Picked(items, tags, id, position)
  }

  lemma {:induction false} PlacedInColumn(items: seq<Item>, id: string)
    ensures forall i | 0 <= i < |Placed(items, id)| :: Placed(items, id)[i].columnId == id
  {
    if items != [] { PlacedInColumn(Front(items), id); }
  }

  lemma ViewShowsItems(view: seq<Filled>, columns: seq<Column>, items: seq<Item>, tags: Option<set<string>>, c: nat)
    requires IsView(view, columns, Tagged(items, tags)) && c < |view|
    ensures ShowsItems(view, items, tags, c)
  {
    var ordered, id := Values(Sorted(ByPosition(columns))), view[c].column.id;
    assert forall d | 0 <= d < |view| :: view[d].column == ordered[d];
    assert IsHome(ordered, id, c) <==> forall d | c < d < |view| :: view[d].column.id != id;
    ColumnsListInStableOrder(view, columns, Tagged(items, tags), c);
    PlacedInColumn(Values(Sorted(ByItemPosition(Tagged(items, tags)))), id);
    forall position ensures PlacedAt(Tagged(items, tags), id, position) == Picked(items, tags, id, position) {
      PickedIsPlaced(items, tags, id, position);
    }
  }
}
