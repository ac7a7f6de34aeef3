/** What each clause of a query does to its rows. */
module Clauses {
  import opened Query
  import opened Text
  import Sorting

  // ----- the order that is asked for -----

  /** The comparison of values is a strict weak order. */
  ghost predicate StrictWeak(less: (Value, Value) -> bool) {
    && (forall x :: !less(x, x))
    && (forall x, y, z :: less(x, y) && less(y, z) ==> less(x, z))
    && (forall x, y, z :: !less(x, y) && !less(y, z) ==> !less(x, z))
  }

  /** One value goes before the other. */
  predicate Differ(sem: Semantics, a: Value, b: Value, field: Path) {
    sem.less(Lookup(sem, a, field), Lookup(sem, b, field)) || sem.less(Lookup(sem, b, field), Lookup(sem, a, field))
  }

  predicate Tied(sem: Semantics, a: Value, b: Value, order: seq<Order>) {
    forall k :: 0 <= k < |order| ==> !Differ(sem, a, b, order[k].field)
  }

  /** Field number k is the first in which the rows differ. */
  predicate FirstDifference(sem: Semantics, a: Value, b: Value, order: seq<Order>, k: nat) {
    k < |order| && Tied(sem, a, b, order[..k]) && Differ(sem, a, b, order[k].field)
  }

  /** The value of a field in row a is smaller than in row b when the field is ascending, greater when it is
      descending. */
  predicate ComesFirst(sem: Semantics, a: Value, b: Value, o: Order) {
    var x, y := Lookup(sem, a, o.field), Lookup(sem, b, o.field);
    if o.ascending then sem.less(x, y) else sem.less(y, x)
  }

  /** Row a may stand before row b: its value comes first in the first field in which they differ. */
  ghost predicate MayPrecede(sem: Semantics, a: Value, b: Value, order: seq<Order>) {
    forall k: nat :: FirstDifference(sem, a, b, order, k) ==> ComesFirst(sem, a, b, order[k])
  }

  ghost predicate InOrder(sem: Semantics, rows: seq<Value>, order: seq<Order>) {
    forall i, j :: 0 <= i < j < |rows| ==> MayPrecede(sem, rows[i], rows[j], order)
  }

  /** The rows that are tied with a given one, as they follow each other. */
  function TiedWith(sem: Semantics, rows: seq<Value>, row: Value, order: seq<Order>): seq<Value> {
    if rows == [] then []
    else (if Tied(sem, rows[0], row, order) then [rows[0]] else []) + TiedWith(sem, rows[1..], row, order)
  }

  /** `sorted` has the rows, in order, and those that are tied as they were. */
  ghost predicate SortedRows(sem: Semantics, rows: seq<Value>, sorted: seq<Value>, order: seq<Order>) {
    && multiset(sorted) == multiset(rows)
    && InOrder(sem, sorted, order)
    && forall row :: TiedWith(sem, sorted, row, order) == TiedWith(sem, rows, row, order)
  }

  // ----- the comparison of rows -----

  ghost predicate Decides(sem: Semantics, a: Value, b: Value, order: seq<Order>) {
    && (Before(sem, a, b, order) ==> MayPrecede(sem, a, b, order) && !Tied(sem, a, b, order))
    && (!Before(sem, a, b, order) ==> MayPrecede(sem, b, a, order))
    && (!Before(sem, a, b, order) && !Before(sem, b, a, order) ==> Tied(sem, a, b, order))
  }

  lemma {:induction false} ComparisonDecides(sem: Semantics, a: Value, b: Value, order: seq<Order>)
    requires StrictWeak(sem.less)
    ensures Decides(sem, a, b, order)
    decreases |order|
  {
    if order != [] {
      hide Decides, StrictWeak;
      if Differ(sem, a, b, order[0].field) {
        DecidesAtOnce(sem, a, b, order);
      } else {
        ComparisonDecides(sem, a, b, order[1..]);
        DecidesLater(sem, a, b, order);
      }
    }
  }

  lemma DecidesAtOnce(sem: Semantics, a: Value, b: Value, order: seq<Order>)
    requires StrictWeak(sem.less) && order != [] && Differ(sem, a, b, order[0].field)
    ensures Decides(sem, a, b, order)
  {
    hide MayPrecede, Lookup;
    AtOnce(sem, a, b, order);
    AtOnce(sem, b, a, order);
    var x, y := Lookup(sem, a, order[0].field), Lookup(sem, b, order[0].field);
    assert Before(sem, a, b, order) == if sem.less(x, y) then order[0].ascending else !order[0].ascending;
    assert !Tied(sem, a, b, order);
    hide Tied, Differ, Before;
    assert !(sem.less(x, y) && sem.less(y, x));
  }

  lemma DecidesLater(sem: Semantics, a: Value, b: Value, order: seq<Order>)
    requires order != [] && !Differ(sem, a, b, order[0].field) && Decides(sem, a, b, order[1..])
    ensures Decides(sem, a, b, order)
  {
    hide MayPrecede, Lookup, Tied;
    assert Before(sem, a, b, order) == Before(sem, a, b, order[1..]);
    assert Before(sem, b, a, order) == Before(sem, b, a, order[1..]);
    hide Before;
    Later(sem, a, b, order);
    Later(sem, b, a, order);
  }

  lemma TiedAtFirst(sem: Semantics, a: Value, b: Value, order: seq<Order>, k: nat)
    requires 0 < k <= |order| && Tied(sem, a, b, order[..k])
    ensures !Differ(sem, a, b, order[0].field)
  {
    hide Differ;
    assert order[..k][0] == order[0];
  }

  lemma AtOnce(sem: Semantics, a: Value, b: Value, order: seq<Order>)
    requires StrictWeak(sem.less) && order != [] && Differ(sem, a, b, order[0].field)
    ensures MayPrecede(sem, a, b, order) <==> ComesFirst(sem, a, b, order[0])
  {
    hide Lookup;
    assert FirstDifference(sem, a, b, order, 0);
    forall k: nat | FirstDifference(sem, a, b, order, k) ensures k == 0 {
      if k > 0 {
        TiedAtFirst(sem, a, b, order, k);
      }
    }
  }

  lemma FirstLater(sem: Semantics, a: Value, b: Value, order: seq<Order>, k: nat)
    requires order != [] && !Differ(sem, a, b, order[0].field) && k < |order[1..]|
    ensures FirstDifference(sem, a, b, order, k + 1) <==> FirstDifference(sem, a, b, order[1..], k)
  {
    assert order[1..][k] == order[k + 1];
    TiedTail(sem, a, b, order, k);
    hide Differ, Tied;
  }

  lemma NotLonger(sem: Semantics, a: Value, b: Value, order: seq<Order>)
    ensures forall k: nat :: FirstDifference(sem, a, b, order, k) ==> k < |order|
  {
    hide Differ, Tied;
  }

  lemma NotFirst(sem: Semantics, a: Value, b: Value, order: seq<Order>)
    requires order != [] && !Differ(sem, a, b, order[0].field)
    ensures !FirstDifference(sem, a, b, order, 0)
  {
    hide Differ, Tied;
  }

  lemma Later(sem: Semantics, a: Value, b: Value, order: seq<Order>)
    requires order != [] && !Differ(sem, a, b, order[0].field)
    ensures MayPrecede(sem, a, b, order) <==> MayPrecede(sem, a, b, order[1..])
    ensures Tied(sem, a, b, order) <==> Tied(sem, a, b, order[1..])
  {
    hide Lookup, Differ, ComesFirst, FirstDifference, Tied;
    var rest := order[1..];
    forall k: nat | k < |rest|
      ensures FirstDifference(sem, a, b, order, k + 1) <==> FirstDifference(sem, a, b, rest, k)
    {
      FirstLater(sem, a, b, order, k);
    }
    NotFirst(sem, a, b, order);
    NotLonger(sem, a, b, order);
    NotLonger(sem, a, b, rest);
    TiedTail(sem, a, b, order, |rest|);
    assert rest[..|rest|] == rest && order[..|rest| + 1] == order;
    if MayPrecede(sem, a, b, order) {
      forall k: nat | FirstDifference(sem, a, b, rest, k) ensures ComesFirst(sem, a, b, rest[k]) {
        assert FirstDifference(sem, a, b, order, k + 1) && rest[k] == order[k + 1];
      }
    }
    if MayPrecede(sem, a, b, rest) {
      forall k: nat | FirstDifference(sem, a, b, order, k) ensures ComesFirst(sem, a, b, order[k]) {
        assert FirstDifference(sem, a, b, rest, k - 1) && order[k] == rest[k - 1];
      }
    }
  }

  lemma TiedTail(sem: Semantics, a: Value, b: Value, order: seq<Order>, k: nat)
    requires order != [] && !Differ(sem, a, b, order[0].field) && k <= |order[1..]|
    ensures Tied(sem, a, b, order[..k + 1]) <==> Tied(sem, a, b, order[1..][..k])
  {
    hide Differ;
    var long, short := order[..k + 1], order[1..][..k];
    assert forall i :: 0 <= i < k ==> short[i] == long[i + 1];
    if Tied(sem, a, b, short) {
      forall i | 0 <= i < |long| ensures !Differ(sem, a, b, long[i].field) {
        assert i > 0 ==> long[i] == short[i - 1];
      }
    }
  }

  // ----- ties and order are transitive -----

  lemma TiedTransitive(sem: Semantics, a: Value, b: Value, c: Value, order: seq<Order>)
    requires StrictWeak(sem.less) && Tied(sem, a, b, order) && Tied(sem, b, c, order)
    ensures Tied(sem, a, c, order)
  {
    hide Lookup;
    forall k | 0 <= k < |order| ensures !Differ(sem, a, c, order[k].field) {
      assert !Differ(sem, a, b, order[k].field) && !Differ(sem, b, c, order[k].field);
    }
  }

  lemma TiedSymmetric(sem: Semantics, a: Value, b: Value, order: seq<Order>)
    ensures Tied(sem, a, b, order) <==> Tied(sem, b, a, order)
  {
    hide Lookup;
    assert forall k :: 0 <= k < |order| ==> (Differ(sem, a, b, order[k].field) <==> Differ(sem, b, a, order[k].field));
  }

  lemma {:induction false} BeforeTransitive(sem: Semantics, a: Value, b: Value, c: Value, order: seq<Order>)
    requires StrictWeak(sem.less) && !Before(sem, b, a, order) && !Before(sem, c, b, order)
    ensures !Before(sem, c, a, order)
    decreases |order|
  {
    if order != [] {
      hide Lookup;
      var x, y, z := Lookup(sem, a, order[0].field), Lookup(sem, b, order[0].field), Lookup(sem, c, order[0].field);
      if !Differ(sem, a, b, order[0].field) && !Differ(sem, b, c, order[0].field) {
        BeforeTransitive(sem, a, b, c, order[1..]);
      }
    }
  }

  // ----- insertion -----

  /** No row stands behind one that goes after it. */
  predicate NoneBefore(sem: Semantics, rows: seq<Value>, order: seq<Order>) {
    forall i, j :: 0 <= i < j < |rows| ==> !Before(sem, rows[j], rows[i], order)
  }

  lemma {:induction false} InsertInOrder(sem: Semantics, row: Value, sorted: seq<Value>, order: seq<Order>)
    requires StrictWeak(sem.less) && NoneBefore(sem, sorted, order)
    ensures NoneBefore(sem, Sorting.Insert(RowOrder(sem, order), row, sorted), order)
  {
    if sorted != [] {
      var r := Sorting.Insert(RowOrder(sem, order), row, sorted);
      var rest := sorted[1..];
      if Before(sem, sorted[0], row, order) {
        InsertInOrder(sem, row, rest, order);
        var r' := Sorting.Insert(RowOrder(sem, order), row, rest);
        Sorting.InsertKeeps(RowOrder(sem, order), row, rest);
        forall j | 0 <= j < |r'| ensures !Before(sem, r'[j], sorted[0], order) {
          assert r'[j] in multiset(r');
          if r'[j] == row {
            Asymmetric(sem, sorted[0], row, order);
          } else {
            assert r'[j] in rest;
          }
        }
        hide Before;
      } else {
        forall j | 0 <= j < |sorted| ensures !Before(sem, sorted[j], row, order) {
          if j > 0 {
            BeforeTransitive(sem, row, sorted[0], sorted[j], order);
          }
        }
        hide Before;
      }
    }
  }

  lemma {:induction false} Asymmetric(sem: Semantics, a: Value, b: Value, order: seq<Order>)
    requires StrictWeak(sem.less) && Before(sem, a, b, order)
    ensures !Before(sem, b, a, order)
    decreases |order|
  {
    hide Lookup;
    if !Differ(sem, a, b, order[0].field) {
      Asymmetric(sem, a, b, order[1..]);
    }
  }

  /** A row is put in front of the rows it is tied with. */
  lemma {:induction false} InsertKeepsTies(sem: Semantics, row: Value, sorted: seq<Value>, order: seq<Order>,
                                           other: Value)
    requires StrictWeak(sem.less)
    ensures TiedWith(sem, Sorting.Insert(RowOrder(sem, order), row, sorted), other, order)
         == TiedWith(sem, [row] + sorted, other, order)
  {
    hide Tied;
    assert ([row] + sorted)[1..] == sorted;
    if sorted != [] && Before(sem, sorted[0], row, order) {
      var rest := sorted[1..];
      InsertKeepsTies(sem, row, rest, order, other);
      var r' := Sorting.Insert(RowOrder(sem, order), row, rest);
      assert ([sorted[0]] + r')[1..] == r' && ([row] + rest)[1..] == rest;
      NotBothTied(sem, sorted[0], row, other, order);
      hide Before;
      var ties := TiedWith(sem, rest, other, order);
      assert [] + ties == ties;
    } else {
      assert [row] + sorted == Sorting.Insert(RowOrder(sem, order), row, sorted);
    }
  }

  lemma NotBothTied(sem: Semantics, a: Value, b: Value, c: Value, order: seq<Order>)
    requires StrictWeak(sem.less) && Before(sem, a, b, order)
    ensures !(Tied(sem, a, c, order) && Tied(sem, b, c, order))
  {
    ComparisonDecides(sem, a, b, order);
    if Tied(sem, a, c, order) && Tied(sem, b, c, order) {
      TiedSymmetric(sem, b, c, order);
      TiedTransitive(sem, a, c, b, order);
    }
  }

  lemma {:induction false} SortIsSorted(sem: Semantics, rows: seq<Value>, order: seq<Order>)
    requires StrictWeak(sem.less)
    ensures NoneBefore(sem, Sort(sem, rows, order), order)
    ensures forall row :: TiedWith(sem, Sort(sem, rows, order), row, order) == TiedWith(sem, rows, row, order)
  {
    if rows != [] {
      var rest := Sort(sem, rows[1..], order);
      SortIsSorted(sem, rows[1..], order);
      InsertInOrder(sem, rows[0], rest, order);
      forall row ensures TiedWith(sem, Sort(sem, rows, order), row, order) == TiedWith(sem, rows, row, order) {
        InsertKeepsTies(sem, rows[0], rest, order, row);
        assert ([rows[0]] + rest)[1..] == rest;
        hide Tied, Before;
      }
      hide Before, Tied, TiedWith;
    }
  }

  lemma SortSorts(sem: Semantics, rows: seq<Value>, order: seq<Order>)
    requires StrictWeak(sem.less)
    ensures SortedRows(sem, rows, Sort(sem, rows, order), order)
  {
    var sorted := Sort(sem, rows, order);
    SortIsSorted(sem, rows, order);
    Sorting.SortKeeps(RowOrder(sem, order), rows);
    forall i, j | 0 <= i < j < |sorted| ensures MayPrecede(sem, sorted[i], sorted[j], order) {
      ComparisonDecides(sem, sorted[j], sorted[i], order);
    }
    hide Before, Tied, TiedWith, MayPrecede;
  }

  // ----- a query with and without its last clauses -----

  lemma ExecuteIs(sem: Semantics, q: Query, events: seq<Value>)
    requires Execute(sem, q, events).Some?
    ensures HasWhere(Rewrite(q))
    ensures Execute(sem, q, events).value
         == Finish(sem, q, KeptOf(sem, Rewrite(q), Filter(sem, BaseOf(sem, q, events), Rewrite(q).where.value)))
  {
    ValidHasWhere(Rewrite(q));
  }

  /** The rows that FROM leaves, or the events. */
  function BaseOf(sem: Semantics, q: Query, events: seq<Value>): seq<Value>
    requires HasWhere(Rewrite(q))
  {
    if q.from.Some? then Result(sem, Rewrite(q).from.value, events) else events
  }

  lemma LastClausesAside(sem: Semantics, q: Query, q': Query, events: seq<Value>)
    requires Execute(sem, q, events).Some? && (q'.select == q.select || q'.select == None)
    requires q' == q.(orderBy := q'.orderBy, select := q'.select, offset := q'.offset, limit := q'.limit)
    ensures Execute(sem, q', events).Some?
    ensures exists kept :: Execute(sem, q, events).value == Finish(sem, q, kept)
                           && Execute(sem, q', events).value == Finish(sem, q', kept)
  {
    var r, r' := Rewrite(q), Rewrite(q');
    assert r' == r.(orderBy := q'.orderBy, select := q'.select, offset := q'.offset, limit := q'.limit);
    assert Valid(r');
    ExecuteIs(sem, q, events);
    ExecuteIs(sem, q', events);
    hide Execute, Finish, Valid, Rewrite;
    assert KeptOf(sem, r, Filter(sem, BaseOf(sem, q, events), r.where.value))
        == KeptOf(sem, r', Filter(sem, BaseOf(sem, q', events), r'.where.value));
  }

  // ----- FROM, WHERE, GROUP_BY and AGGREGATE -----

  /** A nested query is executed first, and the rest of the query on its rows. */
  lemma FromFeeds(sem: Semantics, q: Query, events: seq<Value>)
    requires Execute(sem, q, events).Some? && q.from.Some?
    ensures Execute(sem, q.from.value, events).Some?
    ensures Execute(sem, q, events) == Execute(sem, q.(from := None), Execute(sem, q.from.value, events).value)
  {
    var r, r' := Rewrite(q), Rewrite(q.(from := None));
    assert r' == r.(from := None) && r.from == Some(Rewrite(q.from.value));
    assert Valid(r.from.value) && Valid(r');
    ValidHasWhere(r);
    ValidHasWhere(r');
    hide Filter, Groups, RowsOf, Finish, Rewrite;
  }

  /** A query with nothing but WHERE. */
  predicate OnlyWhere(q: Query) {
    && q.where.Some?
    && q == Query(None, q.where, None, None, None, None, None, None, None)
  }

  lemma {:induction false} FilterSnoc(sem: Semantics, rows: seq<Value>, row: Value, e: Expr)
    ensures Filter(sem, rows + [row], e) == Filter(sem, rows, e) + Filter(sem, [row], e)
  {
    hide Evaluate;
    if rows == [] {
      assert [] + [row] == [row];
    } else {
      assert (rows + [row])[1..] == rows[1..] + [row];
      FilterSnoc(sem, rows[1..], row, e);
    }
  }

  lemma OnlyWhereIs(sem: Semantics, q: Query, events: seq<Value>)
    requires OnlyWhere(q) && Execute(sem, q, events).Some?
    ensures Execute(sem, q, events).value == Filter(sem, events, Lift(q.where.value, false))
  {
    assert Met(Const(Undefined)) == [];
    hide Filter, Lift;
  }

  /** WHERE keeps the events on which it is true, in their order: none of none, and with one event more, that event at
      the end if it is true there, arrays in the condition standing for operations. */
  lemma WhereFilters(sem: Semantics, q: Query, events: seq<Value>, e: Value)
    requires OnlyWhere(q) && Execute(sem, q, events).Some?
    ensures Execute(sem, q, []) == Some([])
    ensures Execute(sem, q, events + [e])
         == Some(Execute(sem, q, events).value
                 + if sem.truthy(Meaning(sem, e, None, q.where.value)) then [e] else [])
  {
    assert Execute(sem, q, []).Some? && Execute(sem, q, events + [e]).Some?;
    OnlyWhereIs(sem, q, []);
    OnlyWhereIs(sem, q, events);
    OnlyWhereIs(sem, q, events + [e]);
    var w := Lift(q.where.value, false);
    FilterSnoc(sem, events, e, w);
    OutsideNothing(q.where.value, false);
    LiftMeaning(sem, {}, e, None, q.where.value, false);
    HideNothing(e);
    hide Execute, Meaning, Evaluate, Lift;
    assert [e][1..] == [];
    assert Filter(sem, [], w) == [];
    assert Filter(sem, [e], w) == if sem.truthy(Evaluate(sem, e, w)) then [e] else [];
  }

  lemma {:induction false} AggregateColumn(sem: Semantics, rows: seq<Value>, aggs: seq<Aggregate>, i: nat)
    requires i < |aggs| && IsAggregate(aggs[i].op)
    requires forall j :: i < j < |aggs| && IsAggregate(aggs[j].op) ==> AliasOf(aggs[j]) != AliasOf(aggs[i])
    ensures AliasOf(aggs[i]) in AggregateColumns(sem, rows, aggs)
    ensures AggregateColumns(sem, rows, aggs)[AliasOf(aggs[i])] == ValueOf(sem, rows, aggs[i])
  {
    if i < |aggs| - 1 {
      hide IsAggregate, AliasOf;
      AggregateColumn(sem, rows, aggs[..|aggs| - 1], i);
    }
  }

  lemma {:induction false} KeyColumn(paths: seq<Path>, key: seq<Value>, i: nat)
    requires |paths| == |key| && i < |paths|
    requires forall j :: i < j < |paths| ==> Join(paths[j], '.') != Join(paths[i], '.')
    ensures Join(paths[i], '.') in KeyColumns(paths, key) && KeyColumns(paths, key)[Join(paths[i], '.')] == key[i]
  {
    if i < |paths| - 1 {
      hide Join;
      KeyColumn(paths[..|paths| - 1], key[..|key| - 1], i);
    }
  }

  lemma {:induction false} KeyColumnSource(paths: seq<Path>, key: seq<Value>, name: string)
    requires |paths| == |key| && name in KeyColumns(paths, key)
    ensures exists i :: 0 <= i < |paths| && Join(paths[i], '.') == name
  {
    if paths != [] {
      hide Join;
      var init := paths[..|paths| - 1];
      if name == Join(paths[|paths| - 1], '.') {
      } else {
        KeyColumnSource(init, key[..|key| - 1], name);
        var i :| 0 <= i < |init| && Join(init[i], '.') == name;
        assert paths[i] == init[i];
      }
    }
  }

  lemma {:induction false} KeyHolds(sem: Semantics, row: Value, paths: seq<Path>)
    ensures |Key(sem, row, paths)| == |paths|
    ensures forall i :: 0 <= i < |paths| ==> Key(sem, row, paths)[i] == Lookup(sem, row, paths[i])
  {
    if paths != [] {
      hide Lookup;
      KeyHolds(sem, row, paths[1..]);
    }
  }

  lemma {:induction false} ColumnHolds(sem: Semantics, rows: seq<Value>, path: Path)
    ensures Column(sem, rows, path) == seq(|rows|, i requires 0 <= i < |rows| => Lookup(sem, rows[i], path))
  {
    if rows != [] {
      hide Lookup;
      ColumnHolds(sem, rows[1..], path);
    }
  }

  lemma {:induction false} RowsWithKey(sem: Semantics, rows: seq<Value>, paths: seq<Path>, key: seq<Value>, row: Value)
    requires row in WithKey(sem, rows, paths, key)
    ensures Key(sem, row, paths) == key
  {
    hide Key;
    var init := rows[..|rows| - 1];
    if row in WithKey(sem, init, paths, key) {
      RowsWithKey(sem, init, paths, key, row);
    }
  }

  /** The rows of a group have in the fields grouped by what its key holds. */
  lemma GroupHasKey(sem: Semantics, rows: seq<Value>, groupBy: Option<seq<Path>>, k: nat, row: Value)
    requires k < |Groups(sem, rows, groupBy)| && row in Groups(sem, rows, groupBy)[k].rows
    ensures Key(sem, row, OrNone(groupBy)) == Groups(sem, rows, groupBy)[k].key
  {
    hide Key, WithKey, DistinctKeys, HasKey;
    var g := Groups(sem, rows, groupBy)[k];
    if OrNone(groupBy) == [] {
      KeyHolds(sem, row, []);
      assert g.key == [];
    } else {
      GroupsPartition(sem, rows, groupBy.value);
      assert GroupIs(sem, g, rows, groupBy.value);
      RowsWithKey(sem, rows, groupBy.value, g.key, row);
    }
  }

  /** The columns of a group: an aggregate has its value over the rows, the last of its name; a field grouped by has
      the value that all rows have there, unless an aggregate or a later field has its name; there are no others. */
  ghost predicate Summary(sem: Semantics, paths: seq<Path>, aggs: seq<Aggregate>, rows: seq<Value>, shown: Value) {
    && shown.Object?
    && (forall i :: 0 <= i < |aggs| && IsAggregate(aggs[i].op)
                    && (forall j :: i < j < |aggs| && IsAggregate(aggs[j].op) ==> AliasOf(aggs[j]) != AliasOf(aggs[i]))
          ==> Shows(shown, AliasOf(aggs[i]), sem.aggregate(aggs[i].op, Values(sem, rows, FieldOf(aggs[i].args)))))
    && (forall i, row :: 0 <= i < |paths| && row in rows && Join(paths[i], '.') !in Names(aggs)
                         && (forall j :: i < j < |paths| ==> Join(paths[j], '.') != Join(paths[i], '.'))
          ==> Shows(shown, Join(paths[i], '.'), Lookup(sem, row, paths[i])))
    && (forall name :: name in shown.fields
          ==> name in Names(aggs) || exists i :: 0 <= i < |paths| && Join(paths[i], '.') == name)
  }

  predicate Shows(shown: Value, name: string, v: Value)
    requires shown.Object?
  {
    name in shown.fields && shown.fields[name] == v
  }

  function Values(sem: Semantics, rows: seq<Value>, path: Path): (vs: seq<Value>)
    ensures |vs| == |rows|
  {
    seq(|rows|, i requires 0 <= i < |rows| => Lookup(sem, rows[i], path))
  }

  lemma {:induction false} AddRowKeys(gs: seq<Group>, key: seq<Value>, row: Value, n: nat)
    requires |key| == n && forall g :: g in gs ==> |g.key| == n
    ensures forall g :: g in AddRow(gs, key, row) ==> |g.key| == n
  {
    if gs != [] && gs[0].key != key {
      AddRowKeys(gs[1..], key, row, n);
    }
  }

  lemma {:induction false} GroupKeys(sem: Semantics, rows: seq<Value>, paths: seq<Path>)
    ensures forall g :: g in GroupRows(sem, rows, paths) ==> |g.key| == |paths|
  {
    if rows != [] {
      hide Key, AddRow;
      var last := rows[|rows| - 1];
      GroupKeys(sem, rows[..|rows| - 1], paths);
      KeyHolds(sem, last, paths);
      AddRowKeys(GroupRows(sem, rows[..|rows| - 1], paths), Key(sem, last, paths), last, |paths|);
    }
  }

  lemma RowIs(sem: Semantics, rows: seq<Value>, groupBy: Option<seq<Path>>, aggs: seq<Aggregate>, k: nat)
    requires k < |Groups(sem, rows, groupBy)|
    ensures var paths, g := OrNone(groupBy), Groups(sem, rows, groupBy)[k];
      && |g.key| == |paths|
      && RowOf(sem, g, groupBy, aggs) == Object(KeyColumns(paths, g.key) + AggregateColumns(sem, g.rows, aggs))
  {
    var paths := OrNone(groupBy);
    GroupKeys(sem, rows, paths);
    assert groupBy.Some? ==> forall g :: g in GroupRows(sem, rows, groupBy.value) ==> |g.key| == |paths|;
    hide KeyColumns, AggregateColumns;
  }

  lemma RowAggregates(sem: Semantics, keys: map<string, Value>, rows: seq<Value>, aggs: seq<Aggregate>)
    ensures var shown := Object(keys + AggregateColumns(sem, rows, aggs));
      forall i :: 0 <= i < |aggs| && IsAggregate(aggs[i].op)
                  && (forall j :: i < j < |aggs| && IsAggregate(aggs[j].op) ==> AliasOf(aggs[j]) != AliasOf(aggs[i]))
        ==> Shows(shown, AliasOf(aggs[i]), sem.aggregate(aggs[i].op, Values(sem, rows, FieldOf(aggs[i].args))))
  {
    hide IsAggregate, AliasOf, FieldOf, Lookup, Column, AggregateColumns;
    var shown := Object(keys + AggregateColumns(sem, rows, aggs));
    forall i | 0 <= i < |aggs| && IsAggregate(aggs[i].op)
               && (forall j :: i < j < |aggs| && IsAggregate(aggs[j].op) ==> AliasOf(aggs[j]) != AliasOf(aggs[i]))
      ensures Shows(shown, AliasOf(aggs[i]), sem.aggregate(aggs[i].op, Values(sem, rows, FieldOf(aggs[i].args))))
    {
      AggregateColumn(sem, rows, aggs, i);
      ColumnHolds(sem, rows, FieldOf(aggs[i].args));
    }
  }

  lemma RowKeys(sem: Semantics, rows: seq<Value>, groupBy: Option<seq<Path>>, aggs: seq<Aggregate>,
                k: nat, shown: Value)
    requires k < |Groups(sem, rows, groupBy)|
    requires var paths, g := OrNone(groupBy), Groups(sem, rows, groupBy)[k];
      && |g.key| == |paths| && shown == Object(KeyColumns(paths, g.key) + AggregateColumns(sem, g.rows, aggs))
    ensures var paths, g := OrNone(groupBy), Groups(sem, rows, groupBy)[k];
      forall i, row :: 0 <= i < |paths| && row in g.rows && Join(paths[i], '.') !in Names(aggs)
                       && (forall j :: i < j < |paths| ==> Join(paths[j], '.') != Join(paths[i], '.'))
        ==> Shows(shown, Join(paths[i], '.'), Lookup(sem, row, paths[i]))
  {
    var paths, g := OrNone(groupBy), Groups(sem, rows, groupBy)[k];
    ColumnNames(sem, g.rows, aggs);
    hide Groups, Key, Join, Lookup, Names, KeyColumns, AggregateColumns, OrNone;
    forall i, row | 0 <= i < |paths| && row in g.rows && Join(paths[i], '.') !in Names(aggs)
                    && (forall j :: i < j < |paths| ==> Join(paths[j], '.') != Join(paths[i], '.'))
      ensures Shows(shown, Join(paths[i], '.'), Lookup(sem, row, paths[i]))
    {
      KeyColumn(paths, g.key, i);
      GroupHasKey(sem, rows, groupBy, k, row);
      KeyHolds(sem, row, paths);
    }
  }

  lemma RowNames(sem: Semantics, paths: seq<Path>, key: seq<Value>, rows: seq<Value>, aggs: seq<Aggregate>)
    requires |key| == |paths|
    ensures forall name :: name in KeyColumns(paths, key) + AggregateColumns(sem, rows, aggs)
              ==> name in Names(aggs) || exists i :: 0 <= i < |paths| && Join(paths[i], '.') == name
  {
    ColumnNames(sem, rows, aggs);
    hide Join, Names, KeyColumns, AggregateColumns;
    forall name | name in KeyColumns(paths, key) + AggregateColumns(sem, rows, aggs)
      ensures name in Names(aggs) || exists i :: 0 <= i < |paths| && Join(paths[i], '.') == name
    {
      if name !in Names(aggs) {
        KeyColumnSource(paths, key, name);
      }
    }
  }

  lemma RowSums(sem: Semantics, rows: seq<Value>, groupBy: Option<seq<Path>>, aggs: seq<Aggregate>, k: nat)
    requires k < |Groups(sem, rows, groupBy)|
    ensures var g := Groups(sem, rows, groupBy)[k];
      Summary(sem, OrNone(groupBy), aggs, g.rows, RowOf(sem, g, groupBy, aggs))
  {
    var paths := OrNone(groupBy);
    var g := Groups(sem, rows, groupBy)[k];
    RowIs(sem, rows, groupBy, aggs, k);
    RowAggregates(sem, KeyColumns(paths, g.key), g.rows, aggs);
    RowKeys(sem, rows, groupBy, aggs, k, RowOf(sem, g, groupBy, aggs));
    RowNames(sem, paths, g.key, g.rows, aggs);
    hide Groups, Join, Lookup, Names, KeyColumns, AggregateColumns, OrNone, RowOf, IsAggregate, AliasOf, FieldOf, Shows,
         Values;
  }

  lemma {:induction false} RowsOfAt(sem: Semantics, gs: seq<Group>, groupBy: Option<seq<Path>>, aggs: seq<Aggregate>)
    ensures |RowsOf(sem, gs, groupBy, aggs)| == |gs|
    ensures forall k :: 0 <= k < |gs| ==> RowsOf(sem, gs, groupBy, aggs)[k] == RowOf(sem, gs[k], groupBy, aggs)
  {
    if gs != [] {
      hide RowOf;
      RowsOfAt(sem, gs[1..], groupBy, aggs);
    }
  }

  /** A query with WHERE, GROUP_BY and AGGREGATE. */
  predicate OnlyGroups(q: Query) {
    && q.where.Some? && q.aggregate.Some?
    && q == Query(None, q.where, q.groupBy, q.aggregate, None, None, None, None, None)
  }

  lemma OnlyGroupsIs(sem: Semantics, q: Query, events: seq<Value>)
    requires OnlyGroups(q) && Execute(sem, q, events).Some?
    ensures Execute(sem, q.(groupBy := None, aggregate := None), events).Some?
    ensures Execute(sem, q, events).value
         == RowsOf(sem, Groups(sem, Execute(sem, q.(groupBy := None, aggregate := None), events).value, q.groupBy),
                   q.groupBy, q.aggregate.value)
  {
    var plain := q.(groupBy := None, aggregate := None);
    assert q.aggregate.value + [] == q.aggregate.value;
    assert Rewrite(q).aggregate == q.aggregate && Valid(Rewrite(plain));
    assert Execute(sem, plain, events).Some?;
    OnlyWhereIs(sem, plain, events);
    hide Filter, Lift, RowsOf, Groups;
    var r := Rewrite(q);
    ValidHasWhere(r);
    assert r == Query(None, Some(Lift(q.where.value, false)), q.groupBy, q.aggregate, None, None, None, None, None);
    var filtered := Filter(sem, events, r.where.value);
    var grouped := RowsOf(sem, Groups(sem, filtered, q.groupBy), q.groupBy, q.aggregate.value);
    assert Result(sem, r, events) == Finish(sem, r, grouped);
    assert Finish(sem, r, grouped) == grouped;
  }

  /** AGGREGATE makes one row of each group of the rows that WHERE keeps, with its aggregates and the fields grouped
      by. */
  lemma AggregateSums(sem: Semantics, q: Query, events: seq<Value>)
    requires OnlyGroups(q) && Execute(sem, q, events).Some?
    ensures Execute(sem, q.(groupBy := None, aggregate := None), events).Some?
    ensures var gs := Groups(sem, Execute(sem, q.(groupBy := None, aggregate := None), events).value, q.groupBy);
            var shown := Execute(sem, q, events).value;
      && |shown| == |gs|
      && forall k :: 0 <= k < |gs| ==> Summary(sem, OrNone(q.groupBy), q.aggregate.value, gs[k].rows, shown[k])
  {
    OnlyGroupsIs(sem, q, events);
    hide Execute, RowsOf, Groups, Summary;
    var rows := Execute(sem, q.(groupBy := None, aggregate := None), events).value;
    RowsOfAt(sem, Groups(sem, rows, q.groupBy), q.groupBy, q.aggregate.value);
    forall k | 0 <= k < |Groups(sem, rows, q.groupBy)|
      ensures Summary(sem, OrNone(q.groupBy), q.aggregate.value, Groups(sem, rows, q.groupBy)[k].rows,
                      Execute(sem, q, events).value[k])
    {
      RowSums(sem, rows, q.groupBy, q.aggregate.value, k);
    }
  }

  // ----- ORDER_BY, OFFSET, LIMIT and SELECT -----

  /** ORDER_BY returns the rows of the query without it, sorted: no row is lost or doubled, at the first field in which
      two rows differ the smaller value comes first, or the greater one when the field is descending, and rows that
      differ in no field stay as they were. */
  lemma OrderBySorts(sem: Semantics, q: Query, events: seq<Value>)
    requires StrictWeak(sem.less) && Execute(sem, q, events).Some? && q.orderBy.Some?
    requires q.offset == None && q.limit == None && q.select == None
    ensures Execute(sem, q.(orderBy := None), events).Some?
    ensures SortedRows(sem, Execute(sem, q.(orderBy := None), events).value, Execute(sem, q, events).value,
                       q.orderBy.value)
  {
    var q' := q.(orderBy := None);
    LastClausesAside(sem, q, q', events);
    var kept :| Execute(sem, q, events).value == Finish(sem, q, kept)
                && Execute(sem, q', events).value == Finish(sem, q', kept);
    assert Finish(sem, q', kept) == kept;
    var sorted := Sort(sem, kept, q.orderBy.value);
    assert Finish(sem, q, kept) == sorted;
    hide Execute, Finish, Sort, SortedRows;
    SortSorts(sem, kept, q.orderBy.value);
  }

  function Start(offset: Option<nat>): nat { if offset.Some? then offset.value else 0 }

  /** OFFSET and LIMIT cut a stretch out of the rows of the query without them: it begins behind the first `offset`
      rows and ends after `limit` rows, or with the last one. */
  lemma LimitCuts(sem: Semantics, q: Query, events: seq<Value>)
    requires Execute(sem, q, events).Some? && q.select == None
    ensures Execute(sem, q.(offset := None, limit := None), events).Some?
    ensures var all, part := Execute(sem, q.(offset := None, limit := None), events).value,
                             Execute(sem, q, events).value;
            var left := if Start(q.offset) <= |all| then |all| - Start(q.offset) else 0;
      && |part| == (if q.limit.Some? && q.limit.value < left then q.limit.value else left)
      && forall k :: 0 <= k < |part| ==> part[k] == all[Start(q.offset) + k]
  {
    var q' := q.(offset := None, limit := None);
    LastClausesAside(sem, q, q', events);
    var kept :| Execute(sem, q, events).value == Finish(sem, q, kept)
                && Execute(sem, q', events).value == Finish(sem, q', kept);
    hide Execute, Sort;
  }

  lemma {:induction false} SelectAt(sem: Semantics, rows: seq<Value>, es: seq<Expr>)
    ensures |Select(sem, rows, es)| == |rows|
    ensures forall k :: 0 <= k < |rows| ==> Select(sem, rows, es)[k] == Items(EvaluateAll(sem, rows[k], es))
  {
    if rows != [] {
      SelectAt(sem, rows[1..], es);
    }
  }

  lemma {:induction false} EvaluatedAt(sem: Semantics, row: Value, es: seq<Expr>)
    ensures |EvaluateAll(sem, row, es)| == |es|
    ensures forall i :: 0 <= i < |es| ==> EvaluateAll(sem, row, es)[i] == Evaluate(sem, row, es[i])
  {
    if es != [] {
      EvaluatedAt(sem, row, es[1..]);
    }
  }

  /** SELECT evaluates its expressions, in their order, on each row of the query without it. */
  lemma SelectEvaluates(sem: Semantics, q: Query, events: seq<Value>)
    requires Execute(sem, q, events).Some? && q.select.Some?
    ensures Execute(sem, q.(select := None), events).Some?
    ensures var rows, shown := Execute(sem, q.(select := None), events).value, Execute(sem, q, events).value;
      && |shown| == |rows|
      && forall k :: 0 <= k < |rows| ==>
           && shown[k].Items? && |shown[k].items| == |q.select.value|
           && forall i :: 0 <= i < |q.select.value| ==> shown[k].items[i] == Evaluate(sem, rows[k], q.select.value[i])
  {
    var q' := q.(select := None);
    LastClausesAside(sem, q, q', events);
    var kept :| Execute(sem, q, events).value == Finish(sem, q, kept)
                && Execute(sem, q', events).value == Finish(sem, q', kept);
    var rows := Finish(sem, q', kept);
    assert Finish(sem, q, kept) == Select(sem, rows, q.select.value);
    SelectAt(sem, rows, q.select.value);
    forall k | 0 <= k < |rows|
      ensures |EvaluateAll(sem, rows[k], q.select.value)| == |q.select.value|
      ensures forall i :: 0 <= i < |q.select.value|
                ==> EvaluateAll(sem, rows[k], q.select.value)[i] == Evaluate(sem, rows[k], q.select.value[i])
    {
      EvaluatedAt(sem, rows[k], q.select.value);
    }
    hide Execute, Finish, Select, Evaluate, EvaluateAll;
  }

  /** The query for the most recent row: of the rows of the query without ORDER_BY and LIMIT, it returns one whose
      field no other row exceeds. */
  lemma MostRecent(sem: Semantics, q: Query, events: seq<Value>, field: Path)
    requires StrictWeak(sem.less) && Execute(sem, q, events).Some? && q.offset == None && q.select == None
    requires q.orderBy == Some([Order(field, false)]) && q.limit == Some(1)
    ensures Execute(sem, q.(orderBy := None, limit := None), events).Some?
    ensures var rows, one := Execute(sem, q.(orderBy := None, limit := None), events).value,
                             Execute(sem, q, events).value;
      if rows == [] then one == []
      else |one| == 1 && one[0] in rows
           && forall r :: r in rows ==> !sem.less(Lookup(sem, one[0], field), Lookup(sem, r, field))
  {
    var order := [Order(field, false)];
    var all := q.(offset := None, limit := None);
    assert all.(orderBy := None) == q.(orderBy := None, limit := None);
    hide Execute, SortedRows;
    LimitCuts(sem, q, events);
    OrderBySorts(sem, all, events);
    var rows, sorted := Execute(sem, all.(orderBy := None), events).value, Execute(sem, all, events).value;
    FirstIsGreatest(sem, rows, sorted, field);
  }

  lemma FirstIsGreatest(sem: Semantics, rows: seq<Value>, sorted: seq<Value>, field: Path)
    requires StrictWeak(sem.less) && SortedRows(sem, rows, sorted, [Order(field, false)])
    ensures |sorted| == |rows|
    ensures rows != [] ==>
      sorted[0] in rows && forall r :: r in rows ==> !sem.less(Lookup(sem, sorted[0], field), Lookup(sem, r, field))
  {
    hide Lookup, TiedWith;
    var order := [Order(field, false)];
    assert |multiset(sorted)| == |multiset(rows)|;
    if rows != [] {
      assert sorted[0] in multiset(sorted);
      forall r | r in rows ensures !sem.less(Lookup(sem, sorted[0], field), Lookup(sem, r, field)) {
        assert r in multiset(sorted);
        var j :| 0 <= j < |sorted| && sorted[j] == r;
        if j > 0 && Differ(sem, sorted[0], r, field) {
          assert MayPrecede(sem, sorted[0], sorted[j], order);
          assert order[..0] == [];
          assert FirstDifference(sem, sorted[0], r, order, 0);
        }
      }
    }
  }
}
