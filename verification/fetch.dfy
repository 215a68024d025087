/**
 * getAssoc and getCol: how the engine shapes the rows of a result set into
 * an array, keyed by a column when that column is found.
 */
module Fetch {
  import opened Common
  import opened Link
  import opened Errors
  import opened CodbCore
  import opened PhpArrays
  import opened EngineSpec
  import opened Plans
  import Engine

  // ---------------------------------------------------------------------------
  // Rows
  // ---------------------------------------------------------------------------

  /** $row[key]: the column's value, NULL when the column is absent or NULL. */
  function ValueAt(row: Row, key: string): Option<string>
    decreases |row|
  {
    if |row| == 0 then None
    else if row[0].key == key then row[0].value
    else ValueAt(row[1..], key)
  }

  /** isset($row[key]) */
  predicate IsSet(row: Row, key: string) {
    ValueAt(row, key).Some?
  }

  /**
   * How many rows the fetch loop takes: it stops at the end or at the first
   * row without columns, which reads as false.
   */
  function FetchCount(rows: seq<Row>): (n: nat)
    ensures n <= |rows|
    ensures forall i :: 0 <= i < n ==> |rows[i]| > 0
    ensures n < |rows| ==> |rows[n]| == 0
    decreases |rows|
  {
    if |rows| == 0 || |rows[0]| == 0 then 0
    else
      var n := 1 + FetchCount(rows[1..]);
      assert forall i :: 1 <= i < n ==> rows[i] == rows[1..][i - 1];
      n
  }

  /** A non-empty row before the end of the fetch loop is fetched. */
  lemma FetchGoesOn(rows: seq<Row>, i: int)
    requires 0 <= i <= FetchCount(rows) && i < |rows| && |rows[i]| > 0
    ensures i < FetchCount(rows)
  {
  }

  function Fetched(rows: seq<Row>): seq<Row> {
    rows[..FetchCount(rows)]
  }

  // ---------------------------------------------------------------------------
  // getAssoc
  // ---------------------------------------------------------------------------

  /** An array value: one column's value, or the whole row. */
  datatype Item = Scalar(value: Option<string>) | Record(row: Row)

  /** The array getAssoc returns: a flat array, or groups of rows under the primary key. */
  datatype Assoc = Flat(items: seq<Entry<Item>>) | Grouped(groups: seq<Entry<seq<Entry<Item>>>>)

  /** The primary-key column, whether to group by it, the child-key column and the one-field column. */
  datatype AssocOptions = AssocOptions(primaryKey: Option<string>, groupByPrimaryKey: bool, childKey: Option<string>, oneField: Option<string>)

  /** The value a row contributes: the one-field column when it is set in the row, else the row. */
  function ItemOf(o: AssocOptions, row: Row): Item {
    if Given(o.oneField) && IsSet(row, o.oneField.value) then Scalar(ValueAt(row, o.oneField.value)) else Record(row)
  }

  /** The primary key is looked for in the first row only. */
  predicate KeyFound(o: AssocOptions, rows: seq<Row>) {
    Given(o.primaryKey) && |rows| > 0 && IsSet(rows[0], o.primaryKey.value)
  }

  /** The child key likewise, and only when grouping. */
  predicate ChildFound(o: AssocOptions, rows: seq<Row>) {
    Given(o.childKey) && o.groupByPrimaryKey && |rows| > 0 && IsSet(rows[0], o.childKey.value)
  }

  function PrimaryOf(o: AssocOptions, row: Row): Key {
    KeyOf(ValueAt(row, o.primaryKey.GetOr("")))
  }

  function ChildOf(o: AssocOptions, row: Row): Key {
    KeyOf(ValueAt(row, o.childKey.GetOr("")))
  }

  /** One row of the flat array: its value appended, or stored under its primary key. */
  function FlatStep(o: AssocOptions, a: seq<Entry<Item>>, row: Row, keyed: bool): seq<Entry<Item>> {
    if keyed then Set(a, PrimaryOf(o, row), ItemOf(o, row)) else Push(a, ItemOf(o, row))
  }

  /** One row of the groups: its value stored in its primary key's group, under its child key or appended. */
  function GroupStep(o: AssocOptions, g: seq<Entry<seq<Entry<Item>>>>, row: Row, child: bool): seq<Entry<seq<Entry<Item>>>> {
    var inner := Get(g, PrimaryOf(o, row)).GetOr([]);
    Set(g, PrimaryOf(o, row), if child then Set(inner, ChildOf(o, row), ItemOf(o, row)) else Push(inner, ItemOf(o, row)))
  }

  /** The flat array built from the rows in order. */
  function FlatAssoc(o: AssocOptions, rows: seq<Row>, keyed: bool): seq<Entry<Item>>
    decreases |rows|
  {
    if rows == [] then []
    else FlatStep(o, FlatAssoc(o, rows[..|rows| - 1], keyed), rows[|rows| - 1], keyed)
  }

  /** The groups built from the rows in order. */
  function GroupAssoc(o: AssocOptions, rows: seq<Row>, child: bool): seq<Entry<seq<Entry<Item>>>>
    decreases |rows|
  {
    if rows == [] then []
    else GroupStep(o, GroupAssoc(o, rows[..|rows| - 1], child), rows[|rows| - 1], child)
  }

  lemma AssocSnoc(o: AssocOptions, rows: seq<Row>, i: int, keyed: bool, child: bool)
    requires 0 <= i < |rows|
    ensures FlatAssoc(o, rows[..i + 1], keyed) == FlatStep(o, FlatAssoc(o, rows[..i], keyed), rows[i], keyed)
    ensures GroupAssoc(o, rows[..i + 1], child) == GroupStep(o, GroupAssoc(o, rows[..i], child), rows[i], child)
  {
    assert rows[..i + 1][..i] == rows[..i];
  }

  /** What getAssoc builds from the fetched rows. */
  function AssocOf(o: AssocOptions, rows: seq<Row>): Assoc {
    if KeyFound(o, rows) && o.groupByPrimaryKey then Grouped(GroupAssoc(o, rows, ChildFound(o, rows)))
    else Flat(FlatAssoc(o, rows, KeyFound(o, rows)))
  }

  /** The fetch loop of getAssoc, with its search flags. */
  method ShapeAssoc(rows: seq<Row>, o: AssocOptions) returns (r: Assoc)
    ensures r == AssocOf(o, Fetched(rows))
  {
    var keyFound, childFound := false, false;
    var stopKey, stopChild := false, false;
    var flat: seq<Entry<Item>> := [];
    var groups: seq<Entry<seq<Entry<Item>>>> := [];
    ghost var n := FetchCount(rows);
    ghost var keyed := Given(o.primaryKey) && n > 0 && IsSet(rows[0], o.primaryKey.value);
    ghost var child := Given(o.childKey) && o.groupByPrimaryKey && n > 0 && IsSet(rows[0], o.childKey.value);
    ghost var grouped := keyed && o.groupByPrimaryKey;
    var i := 0;
    while i < |rows| && |rows[i]| > 0
      invariant 0 <= i <= n
      invariant stopKey == (i > 0 && Given(o.primaryKey))
      invariant stopChild == (i > 0 && Given(o.childKey) && o.groupByPrimaryKey)
      invariant i > 0 ==> keyFound == keyed && childFound == child
      invariant i == 0 ==> !keyFound && !childFound
      invariant !grouped ==> flat == FlatAssoc(o, rows[..i], keyed)
      invariant grouped ==> groups == GroupAssoc(o, rows[..i], child)
    {
      FetchGoesOn(rows, i);
      keyFound, stopKey, childFound, stopChild := SearchKeys(o, rows[i], keyFound, stopKey, childFound, stopChild);
      flat, groups := StoreRow(o, rows, i, keyFound, childFound, flat, groups);
      i := i + 1;
    }
    AssocOfFetched(o, rows, keyed, child);
    if keyFound && o.groupByPrimaryKey {
      r := Grouped(groups);
    } else {
      r := Flat(flat);
    }
  }

  /**
   * The key searches of getAssoc on one row: each key is looked for once,
   * on the first row, and the search is then stopped.
   */
  method SearchKeys(o: AssocOptions, row: Row, keyFound: bool, stopKey: bool, childFound: bool, stopChild: bool)
    returns (keyFound': bool, stopKey': bool, childFound': bool, stopChild': bool)
    ensures stopKey' == (stopKey || (Given(o.primaryKey) && !keyFound))
    ensures keyFound' == if Given(o.primaryKey) && !stopKey && !keyFound then IsSet(row, o.primaryKey.value) else keyFound
    ensures stopChild' == (stopChild || (Given(o.childKey) && o.groupByPrimaryKey && !childFound))
    ensures childFound' == if Given(o.childKey) && o.groupByPrimaryKey && !stopChild && !childFound then IsSet(row, o.childKey.value) else childFound
  {
    keyFound', stopKey', childFound', stopChild' := keyFound, stopKey, childFound, stopChild;
    if Given(o.primaryKey) && !stopKey && !keyFound {
      stopKey' := true;
      keyFound' := IsSet(row, o.primaryKey.value);
    }
    if Given(o.childKey) && o.groupByPrimaryKey && !stopChild && !childFound {
      stopChild' := true;
      childFound' := IsSet(row, o.childKey.value);
    }
  }

  /** What getAssoc builds, in terms of the fetch count and the first row. */
  lemma AssocOfFetched(o: AssocOptions, rows: seq<Row>, keyed: bool, child: bool)
    requires keyed == (Given(o.primaryKey) && FetchCount(rows) > 0 && IsSet(rows[0], o.primaryKey.value))
    requires child == (Given(o.childKey) && o.groupByPrimaryKey && FetchCount(rows) > 0 && IsSet(rows[0], o.childKey.value))
    ensures AssocOf(o, Fetched(rows)) ==
      if keyed && o.groupByPrimaryKey then Grouped(GroupAssoc(o, rows[..FetchCount(rows)], child))
      else Flat(FlatAssoc(o, rows[..FetchCount(rows)], keyed))
  {
    if FetchCount(rows) > 0 {
      assert Fetched(rows)[0] == rows[0];
    }
  }

  /** One fetched row of getAssoc: its value stored in the flat array or in its group. */
  method StoreRow(o: AssocOptions, rows: seq<Row>, i: int, keyFound: bool, childFound: bool, flat: seq<Entry<Item>>, groups: seq<Entry<seq<Entry<Item>>>>)
    returns (flat': seq<Entry<Item>>, groups': seq<Entry<seq<Entry<Item>>>>)
    requires 0 <= i < |rows|
    requires !(keyFound && o.groupByPrimaryKey) ==> flat == FlatAssoc(o, rows[..i], keyFound)
    requires keyFound && o.groupByPrimaryKey ==> groups == GroupAssoc(o, rows[..i], childFound)
    ensures !(keyFound && o.groupByPrimaryKey) ==> flat' == FlatAssoc(o, rows[..i + 1], keyFound)
    ensures keyFound && o.groupByPrimaryKey ==> groups' == GroupAssoc(o, rows[..i + 1], childFound)
  {
    AssocSnoc(o, rows, i, keyFound, childFound);
    var row := rows[i];
    flat', groups' := flat, groups;
    var value: Item;
    if Given(o.oneField) && IsSet(row, o.oneField.value) {
      value := Scalar(ValueAt(row, o.oneField.value));
    } else {
      value := Record(row);
    }
    assert value == ItemOf(o, row);
    if keyFound {
      var key := KeyOf(ValueAt(row, o.primaryKey.GetOr("")));
      assert key == PrimaryOf(o, row);
      if o.groupByPrimaryKey {
        var inner := Get(groups, key).GetOr([]);
        if childFound {
          groups' := Set(groups, key, Set(inner, KeyOf(ValueAt(row, o.childKey.GetOr(""))), value));
        } else {
          groups' := Set(groups, key, Push(inner, value));
        }
      } else {
        flat' := Set(flat, key, value);
      }
    } else {
      flat' := Push(flat, value);
    }
  }


  /**
   * getAssoc: the shaped rows, or nothing when makeQuery fails. frame is
   * where getAssoc was called: a failure's QUERY_FAILED entry names it.
   */
  method GetAssoc(db: Codb, text: string, o: AssocOptions, frame: Origin) returns (r: Option<Assoc>)
    modifies db
    ensures db.Params() == old(db.Params())
    ensures var q := MakeQuerySpec(old(db.Cfg()), old(db.State()), text, frame);
      && db.State() == q.state
      && r == (if q.result.Some? then Some(AssocOf(o, Fetched(q.result.value.rows))) else None)
  {
    var result := Engine.MakeQuery(db, text, frame);
    if result.Some? {
      var shaped := ShapeAssoc(result.value.rows, o);
      r := Some(shaped);
    } else {
      r := None;
    }
  }

  /** The values of the rows, in order. */
  function Items(o: AssocOptions, rows: seq<Row>): (r: seq<Item>)
    ensures |r| == |rows|
  {
    seq(|rows|, i requires 0 <= i < |rows| => ItemOf(o, rows[i]))
  }

  /** Each row's value under its primary key, in order. */
  function PrimaryPairs(o: AssocOptions, rows: seq<Row>): (r: seq<Entry<Item>>)
    ensures |r| == |rows|
  {
    seq(|rows|, i requires 0 <= i < |rows| => Entry(PrimaryOf(o, rows[i]), ItemOf(o, rows[i])))
  }

  /** The values of the rows whose primary key is k, in order. */
  function GroupItems(o: AssocOptions, rows: seq<Row>, k: Key): seq<Item>
    decreases |rows|
  {
    if rows == [] then []
    else
      var rest := GroupItems(o, rows[..|rows| - 1], k);
      if PrimaryOf(o, rows[|rows| - 1]) == k then rest + [ItemOf(o, rows[|rows| - 1])] else rest
  }

  /** The values of the rows whose primary key is k, each under its child key, in order. */
  function ChildPairs(o: AssocOptions, rows: seq<Row>, k: Key): seq<Entry<Item>>
    decreases |rows|
  {
    if rows == [] then []
    else
      var rest := ChildPairs(o, rows[..|rows| - 1], k);
      var row := rows[|rows| - 1];
      if PrimaryOf(o, row) == k then rest + [Entry(ChildOf(o, row), ItemOf(o, row))] else rest
  }

  lemma {:induction false} FlatUnkeyed(o: AssocOptions, rows: seq<Row>)
    ensures FlatAssoc(o, rows, false) == ListOf(Items(o, rows))
    decreases |rows|
  {
    if rows != [] {
      var init := rows[..|rows| - 1];
      FlatUnkeyed(o, init);
      PushListOf(Items(o, init), ItemOf(o, rows[|rows| - 1]));
      assert Items(o, init) + [ItemOf(o, rows[|rows| - 1])] == Items(o, rows);
    }
  }

  lemma {:induction false} FlatKeyed(o: AssocOptions, rows: seq<Row>)
    ensures FlatAssoc(o, rows, true) == Assign(PrimaryPairs(o, rows))
    decreases |rows|
  {
    if rows != [] {
      var init := rows[..|rows| - 1];
      FlatKeyed(o, init);
      assert PrimaryPairs(o, rows)[..|rows| - 1] == PrimaryPairs(o, init);
    }
  }

  /**
   * Without the primary key in the first row, getAssoc lists the rows'
   * values in order under 0, 1, 2, ..., whatever later rows hold.
   */
  lemma AssocUnkeyed(o: AssocOptions, rows: seq<Row>)
    requires !KeyFound(o, rows)
    ensures AssocOf(o, rows) == Flat(ListOf(Items(o, rows)))
  {
    FlatUnkeyed(o, rows);
  }

  /**
   * With the primary key in the first row and no grouping, each key holds
   * the value of the last row with that key; a key is present exactly when
   * some row has it, and a row without the column counts under "".
   */
  lemma AssocKeyedLastWins(o: AssocOptions, rows: seq<Row>, k: Key)
    requires KeyFound(o, rows) && !o.groupByPrimaryKey
    ensures AssocOf(o, rows).Flat?
    ensures var a := AssocOf(o, rows).items;
      && DistinctKeys(a)
      && (Get(a, k).None? <==> forall i :: 0 <= i < |rows| ==> PrimaryOf(o, rows[i]) != k)
      && (Get(a, k).Some? ==> exists i :: LastWith(PrimaryPairs(o, rows), k, i) && Get(a, k).value == ItemOf(o, rows[i]))
  {
    FlatKeyed(o, rows);
    AssignDistinctKeys(PrimaryPairs(o, rows));
    AssignHas(PrimaryPairs(o, rows), k);
    AssignLastWins(PrimaryPairs(o, rows), k);
    assert forall i :: 0 <= i < |rows| ==> PrimaryPairs(o, rows)[i].key == PrimaryOf(o, rows[i]);
  }

  lemma {:induction false} GroupsCollect(o: AssocOptions, rows: seq<Row>, k: Key)
    ensures DistinctKeys(GroupAssoc(o, rows, false))
    ensures Get(GroupAssoc(o, rows, false), k) == if GroupItems(o, rows, k) == [] then None else Some(ListOf(GroupItems(o, rows, k)))
    decreases |rows|
  {
    if rows != [] {
      var init := rows[..|rows| - 1];
      var row := rows[|rows| - 1];
      var key := PrimaryOf(o, row);
      var g := GroupAssoc(o, init, false);
      GroupsCollect(o, init, k);
      GroupsCollect(o, init, key);
      var inner := Get(g, key).GetOr([]);
      assert inner == ListOf(GroupItems(o, init, key));
      PushListOf(GroupItems(o, init, key), ItemOf(o, row));
      SetSpec(g, key, Push(inner, ItemOf(o, row)));
    }
  }

  lemma {:induction false} GroupsByChild(o: AssocOptions, rows: seq<Row>, k: Key)
    ensures DistinctKeys(GroupAssoc(o, rows, true))
    ensures Get(GroupAssoc(o, rows, true), k) == if ChildPairs(o, rows, k) == [] then None else Some(Assign(ChildPairs(o, rows, k)))
    decreases |rows|
  {
    if rows != [] {
      var init := rows[..|rows| - 1];
      var row := rows[|rows| - 1];
      var key := PrimaryOf(o, row);
      var g := GroupAssoc(o, init, true);
      GroupsByChild(o, init, k);
      GroupsByChild(o, init, key);
      var before := ChildPairs(o, init, key);
      var inner := Get(g, key).GetOr([]);
      assert inner == Assign(before);
      var e := Entry(ChildOf(o, row), ItemOf(o, row));
      assert (before + [e])[..|before|] == before;
      assert Set(inner, e.key, e.value) == Assign(before + [e]);
      SetSpec(g, key, Set(inner, e.key, e.value));
    }
  }

  /**
   * Grouping without a child key: the group of each primary key lists, in
   * order, the values of the rows with that key.
   */
  lemma AssocGroupsList(o: AssocOptions, rows: seq<Row>, k: Key)
    requires KeyFound(o, rows) && o.groupByPrimaryKey && !ChildFound(o, rows)
    ensures AssocOf(o, rows).Grouped?
    ensures var g := AssocOf(o, rows).groups;
      && DistinctKeys(g)
      && Get(g, k) == if GroupItems(o, rows, k) == [] then None else Some(ListOf(GroupItems(o, rows, k)))
  {
    GroupsCollect(o, rows, k);
  }

  /**
   * Grouping with the child key in the first row: the group of each primary
   * key holds, under each child key, the value of the last row with both keys.
   */
  lemma AssocGroupsByChild(o: AssocOptions, rows: seq<Row>, k: Key, c: Key)
    requires KeyFound(o, rows) && ChildFound(o, rows)
    ensures AssocOf(o, rows).Grouped?
    ensures var g := AssocOf(o, rows).groups;
      && DistinctKeys(g)
      && (Get(g, k).None? <==> ChildPairs(o, rows, k) == [])
      && (Get(g, k).Some? ==>
            && DistinctKeys(Get(g, k).value)
            && (Get(Get(g, k).value, c).None? <==> forall i :: 0 <= i < |ChildPairs(o, rows, k)| ==> ChildPairs(o, rows, k)[i].key != c)
            && (Get(Get(g, k).value, c).Some? ==> exists i :: LastWith(ChildPairs(o, rows, k), c, i) && Get(Get(g, k).value, c).value == ChildPairs(o, rows, k)[i].value))
  {
    GroupsByChild(o, rows, k);
    AssignDistinctKeys(ChildPairs(o, rows, k));
    AssignHas(ChildPairs(o, rows, k), c);
    AssignLastWins(ChildPairs(o, rows, k), c);
  }

  // ---------------------------------------------------------------------------
  // getCol
  // ---------------------------------------------------------------------------

  /** The column to return and the primary-key column. */
  datatype ColOptions = ColOptions(returnField: Option<string>, primaryKey: Option<string>)

  /** The loop's state: the array so far and the two search flags. */
  datatype ColState = ColState(values: seq<Entry<Option<string>>>, fieldFound: bool, keyFound: bool)

  /** array_shift($row): the first column's value. */
  function First(row: Row): Option<string> {
    if |row| > 0 then row[0].value else None
  }

  /** The row array_shift leaves. */
  function Shift(row: Row): Row {
    if |row| > 0 then row[1..] else []
  }

  /** Both flags are searched on every row until found. */
  function FieldFoundAfter(o: ColOptions, st: ColState, row: Row): bool {
    st.fieldFound || (Given(o.returnField) && IsSet(row, o.returnField.value))
  }

  function KeyFoundAfter(o: ColOptions, st: ColState, row: Row): bool {
    st.keyFound || (Given(o.primaryKey) && IsSet(row, o.primaryKey.value))
  }

  /** The value a row contributes: the return field once it has been found, else the first column. */
  function ColValue(o: ColOptions, fieldFound: bool, row: Row): Option<string> {
    if !Given(o.returnField) || !fieldFound then First(row) else ValueAt(row, o.returnField.value)
  }

  /** One row of getCol, the primary key read from the fetched row. */
  function ColStep(o: ColOptions, st: ColState, row: Row): ColState {
    var ff := FieldFoundAfter(o, st, row);
    var kf := KeyFoundAfter(o, st, row);
    var value := ColValue(o, ff, row);
    var values := if !kf then Push(st.values, value) else Set(st.values, KeyOf(ValueAt(row, o.primaryKey.GetOr(""))), value);
    ColState(values, ff, kf)
  }

  function ColRun(o: ColOptions, rows: seq<Row>): ColState
    decreases |rows|
  {
    if rows == [] then ColState([], false, false)
    else ColStep(o, ColRun(o, rows[..|rows| - 1]), rows[|rows| - 1])
  }

  /** The fetch loop of getCol, with its search flags. */
  method ShapeCol(rows: seq<Row>, o: ColOptions) returns (r: seq<Entry<Option<string>>>)
    ensures r == ColRun(o, Fetched(rows)).values
  {
    var keyFound, fieldFound := false, false;
    var stopKey, stopField := false, false;
    r := [];
    var i := 0;
    while i < |rows| && |rows[i]| > 0
      invariant 0 <= i <= FetchCount(rows)
      invariant ColState(r, fieldFound, keyFound) == ColRun(o, rows[..i])
      invariant !stopKey && !stopField
    {
      var row := rows[i];
      if Given(o.returnField) && !stopField && !fieldFound {
        fieldFound := IsSet(row, o.returnField.value);
      }
      if Given(o.primaryKey) && !stopKey && !keyFound {
        keyFound := IsSet(row, o.primaryKey.value);
      }
      var value: Option<string>;
      if !Given(o.returnField) || !fieldFound {
        value := First(row);
      } else {
        value := ValueAt(row, o.returnField.value);
      }
      if !keyFound {
        r := Push(r, value);
      } else {
        r := Set(r, KeyOf(ValueAt(row, o.primaryKey.GetOr(""))), value);
      }
      assert rows[..i + 1][..i] == rows[..i];
      i := i + 1;
    }
  }

  /**
   * getCol: the shaped column, or nothing when makeQuery fails. frame is
   * where getCol was called: a failure's QUERY_FAILED entry names it.
   */
  method GetCol(db: Codb, text: string, o: ColOptions, frame: Origin) returns (r: Option<seq<Entry<Option<string>>>>)
    modifies db
    ensures db.Params() == old(db.Params())
    ensures var q := MakeQuerySpec(old(db.Cfg()), old(db.State()), text, frame);
      && db.State() == q.state
      && r == (if q.result.Some? then Some(ColRun(o, Fetched(q.result.value.rows)).values) else None)
  {
    var result := Engine.MakeQuery(db, text, frame);
    if result.Some? {
      var shaped := ShapeCol(result.value.rows, o);
      r := Some(shaped);
    } else {
      r := None;
    }
  }

  /** The return field is set in one of the first n rows. */
  predicate FieldSeen(o: ColOptions, rows: seq<Row>, n: int) {
    Given(o.returnField) && exists j :: 0 <= j < n && j < |rows| && IsSet(rows[j], o.returnField.value)
  }

  /** The primary key is set in one of the first n rows. */
  predicate KeySeen(o: ColOptions, rows: seq<Row>, n: int) {
    Given(o.primaryKey) && exists j :: 0 <= j < n && j < |rows| && IsSet(rows[j], o.primaryKey.value)
  }

  lemma SeenPrefix(o: ColOptions, rows: seq<Row>, m: int, n: int)
    requires 0 <= n <= m <= |rows|
    ensures FieldSeen(o, rows[..m], n) == FieldSeen(o, rows, n)
    ensures KeySeen(o, rows[..m], n) == KeySeen(o, rows, n)
  {
    assert forall j :: 0 <= j < m ==> rows[..m][j] == rows[j];
  }

  /** Both search flags are looked for again on every row until found. */
  lemma {:induction false} ColRunFlags(o: ColOptions, rows: seq<Row>)
    ensures ColRun(o, rows).fieldFound == FieldSeen(o, rows, |rows|)
    ensures ColRun(o, rows).keyFound == KeySeen(o, rows, |rows|)
    decreases |rows|
  {
    if rows != [] {
      var n := |rows| - 1;
      ColRunFlags(o, rows[..n]);
      SeenPrefix(o, rows, n, n);
      if Given(o.returnField) && IsSet(rows[n], o.returnField.value) {
        assert FieldSeen(o, rows, |rows|);
      }
      if Given(o.primaryKey) && IsSet(rows[n], o.primaryKey.value) {
        assert KeySeen(o, rows, |rows|);
      }
    }
  }

  /** The value each row contributes: the return field once it has been seen, else the first column. */
  function ColValues(o: ColOptions, rows: seq<Row>): (r: seq<Option<string>>)
    ensures |r| == |rows|
  {
    seq(|rows|, i requires 0 <= i < |rows| => ColValue(o, FieldSeen(o, rows, i + 1), rows[i]))
  }

  lemma ColValuesPrefix(o: ColOptions, rows: seq<Row>)
    requires |rows| > 0
    ensures ColValues(o, rows) == ColValues(o, rows[..|rows| - 1]) + [ColValue(o, FieldSeen(o, rows, |rows|), rows[|rows| - 1])]
  {
    var n := |rows| - 1;
    forall m | 1 <= m <= n
      ensures FieldSeen(o, rows[..n], m) == FieldSeen(o, rows, m)
    {
      SeenPrefix(o, rows, n, m);
    }
  }

  /** While the primary key has not been seen, getCol lists the values in order under 0, 1, 2, ... */
  lemma {:induction false} ColUnkeyed(o: ColOptions, rows: seq<Row>)
    requires !KeySeen(o, rows, |rows|)
    ensures ColRun(o, rows).values == ListOf(ColValues(o, rows))
    decreases |rows|
  {
    if rows != [] {
      var n := |rows| - 1;
      SeenPrefix(o, rows, n, n);
      assert !KeySeen(o, rows[..n], n);
      ColUnkeyed(o, rows[..n]);
      ColRunFlags(o, rows);
      ColValuesPrefix(o, rows);
      PushListOf(ColValues(o, rows[..n]), ColValue(o, FieldSeen(o, rows, |rows|), rows[n]));
    }
  }

  /** Each row's value under the row's own primary key, in order. */
  function ColPairs(o: ColOptions, rows: seq<Row>): (r: seq<Entry<Option<string>>>)
    ensures |r| == |rows|
  {
    var values := ColValues(o, rows);
    seq(|rows|, i requires 0 <= i < |rows| => Entry(KeyOf(ValueAt(rows[i], o.primaryKey.GetOr(""))), values[i]))
  }

  /**
   * With the primary key in the first row, getCol assigns every row's value
   * under that row's primary key, in order, so the last row with a key wins.
   */
  lemma ColPairsPrefix(o: ColOptions, rows: seq<Row>)
    requires |rows| > 0
    ensures var n := |rows| - 1;
      ColPairs(o, rows) == ColPairs(o, rows[..n]) + [Entry(KeyOf(ValueAt(rows[n], o.primaryKey.GetOr(""))), ColValue(o, FieldSeen(o, rows, |rows|), rows[n]))]
  {
    var n := |rows| - 1;
    var a := ColPairs(o, rows);
    var b := ColPairs(o, rows[..n]);
    var e := Entry(KeyOf(ValueAt(rows[n], o.primaryKey.GetOr(""))), ColValue(o, FieldSeen(o, rows, |rows|), rows[n]));
    var vs := ColValues(o, rows);
    ColValuesPrefix(o, rows);
    assert vs[n] == e.value;
    forall i | 0 <= i < n
      ensures a[i] == b[i]
    {
      assert rows[..n][i] == rows[i];
      assert vs[i] == ColValues(o, rows[..n])[i];
    }
    assert a == b + [e];
  }

  lemma {:induction false} ColKeyedFromFirst(o: ColOptions, rows: seq<Row>)
    requires Given(o.primaryKey) && |rows| > 0 && IsSet(rows[0], o.primaryKey.value)
    ensures ColRun(o, rows).values == Assign(ColPairs(o, rows))
    decreases |rows|
  {
    var n := |rows| - 1;
    var init := rows[..n];
    var pairs := ColPairs(o, rows);
    ColRunFlags(o, rows);
    ColPairsPrefix(o, rows);
    assert pairs[..n] == ColPairs(o, init);
    if n > 0 {
      assert init[0] == rows[0];
      ColKeyedFromFirst(o, init);
    }
    assert Assign(pairs) == Set(Assign(ColPairs(o, init)), pairs[n].key, pairs[n].value);
  }

  /**
   * For a one-column result keyed by that column (SELECT id ... with id as
   * the primary key), getCol maps each id to itself, the last row winning.
   */
  lemma ColSingleColumnKeyed(o: ColOptions, rows: seq<Row>)
    requires !Given(o.returnField) && Given(o.primaryKey) && |rows| > 0
    requires forall i :: 0 <= i < |rows| ==> |rows[i]| == 1 && rows[i][0].key == o.primaryKey.value
    requires rows[0][0].value.Some?
    ensures ColRun(o, rows).values == Assign(seq(|rows|, i requires 0 <= i < |rows| => Entry(KeyOf(rows[i][0].value), rows[i][0].value)))
  {
    ColKeyedFromFirst(o, rows);
    assert ColPairs(o, rows) == seq(|rows|, i requires 0 <= i < |rows| => Entry(KeyOf(rows[i][0].value), rows[i][0].value));
  }

  /**
   * One row of getCol as written: when the value is taken with array_shift,
   * the primary key is then read from the shifted row, which has lost its
   * first column.
   */
  function ColStepAsWritten(o: ColOptions, st: ColState, row: Row): ColState {
    var ff := FieldFoundAfter(o, st, row);
    var kf := KeyFoundAfter(o, st, row);
    var shifted := !Given(o.returnField) || !ff;
    var value := ColValue(o, ff, row);
    var left := if shifted then Shift(row) else row;
    var values := if !kf then Push(st.values, value) else Set(st.values, KeyOf(ValueAt(left, o.primaryKey.GetOr(""))), value);
    ColState(values, ff, kf)
  }

  function ColRunAsWritten(o: ColOptions, rows: seq<Row>): ColState
    decreases |rows|
  {
    if rows == [] then ColState([], false, false)
    else ColStepAsWritten(o, ColRunAsWritten(o, rows[..|rows| - 1]), rows[|rows| - 1])
  }

  /**
   * As written, the same one-column result collapses to a single entry
   * under "" holding the last row's value.
   */
  lemma {:induction false} ColAsWrittenCollapses(o: ColOptions, rows: seq<Row>)
    requires !Given(o.returnField) && Given(o.primaryKey) && |rows| > 0
    requires forall i :: 0 <= i < |rows| ==> |rows[i]| == 1 && rows[i][0].key == o.primaryKey.value
    requires rows[0][0].value.Some?
    ensures ColRunAsWritten(o, rows).keyFound
    ensures ColRunAsWritten(o, rows).values == [Entry(StrKey(""), rows[|rows| - 1][0].value)]
    decreases |rows|
  {
    var n := |rows| - 1;
    var row := rows[n];
    assert Shift(row) == [];
    if n > 0 {
      assert forall i :: 0 <= i < n ==> rows[..n][i] == rows[i];
      ColAsWrittenCollapses(o, rows[..n]);
    } else {
      assert IsSet(row, o.primaryKey.value);
    }
  }

  /** Field() is $row[key] with NULL read as "". */
  lemma {:induction false} FieldIsValueAt(row: Row, key: string)
    ensures Field(row, key) == ValueAt(row, key).GetOr("")
    decreases |row|
  {
    if |row| > 0 && row[0].key != key {
      FieldIsValueAt(row[1..], key);
    }
  }

  /** Once the return field has been seen, a row contributes that column. */
  lemma ColValueSeen(o: ColOptions, rows: seq<Row>, i: int)
    requires 0 <= i < |rows| && FieldSeen(o, rows, i + 1)
    ensures ColValues(o, rows)[i] == ValueAt(rows[i], o.returnField.value)
  {
    ColValuesAt(o, rows, i);
  }

  lemma ColValuesAt(o: ColOptions, rows: seq<Row>, i: int)
    requires 0 <= i < |rows|
    ensures ColValues(o, rows)[i] == ColValue(o, FieldSeen(o, rows, i + 1), rows[i])
  {
  }

  lemma FieldWhenSet(row: Row, key: string)
    requires IsSet(row, key)
    ensures ValueAt(row, key) == Some(Field(row, key))
  {
    FieldIsValueAt(row, key);
  }

  lemma DescribePair(rows: seq<Row>, i: int)
    requires 0 <= i < |rows| && IsSet(rows[i], "Field")
    ensures var p := ColPairs(ColOptions(Some("Field"), Some("Field")), rows)[i];
      p.value == ValueAt(rows[i], "Field") == Some(FieldValues(rows)[i]) && p.key == KeyOf(p.value)
  {
    var o := ColOptions(Some("Field"), Some("Field"));
    FieldWhenSet(rows[i], "Field");
    assert FieldSeen(o, rows, i + 1);
    ColValueSeen(o, rows, i);
  }

  /**
   * alterTable's getCol(DESCRIBE, 'Field', 'Field'): when every row names
   * its column and the names differ, the result lists the names in order,
   * each under itself, so its values are the column snapshot.
   */
  lemma DescribeSnapshot(rows: seq<Row>)
    requires forall i :: 0 <= i < |rows| ==> IsSet(rows[i], "Field")
    requires forall i, j :: 0 <= i < j < |rows| ==> Field(rows[i], "Field") != Field(rows[j], "Field")
    ensures var v := ColRun(ColOptions(Some("Field"), Some("Field")), Fetched(rows)).values;
      && |v| == |rows| == |Snapshot(Some(Answer(true, 0, 0, "", rows)))|
      && forall i :: 0 <= i < |v| ==> v[i] == Entry(KeyOf(Some(FieldValues(rows)[i])), Some(FieldValues(rows)[i]))
  {
    var o := ColOptions(Some("Field"), Some("Field"));
    assert Fetched(rows) == rows;
    if rows != [] {
      ColKeyedFromFirst(o, rows);
      var pairs := ColPairs(o, rows);
      forall i | 0 <= i < |rows|
        ensures pairs[i] == Entry(KeyOf(Some(FieldValues(rows)[i])), Some(FieldValues(rows)[i]))
      {
        DescribePair(rows, i);
      }
      forall i, j | 0 <= i < j < |rows|
        ensures pairs[i].key != pairs[j].key
      {
        KeyOfInjective(FieldValues(rows)[i], FieldValues(rows)[j]);
      }
      AssignDistinct(pairs);
    }
  }
}
