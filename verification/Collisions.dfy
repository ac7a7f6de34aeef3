/** When the rewriting of a query goes wrong: two aggregates of HAVING that share a name. */
module Collisions {
  import opened Query
  import opened Text
  import Sorting

  // ----- expressions of known operators -----

  /** Apart from its aggregates, the expression consists of known operators. */
  predicate Known(e: Expr)
    decreases e, 1
  {
    match e
    case Field(_) => true
    case Const(_) => true
    case Eval(_) => true
    case _ => IsAggregate(e.op) || (IsOperator(e.op) && KnownAll(e.args))
  }

  predicate KnownAll(es: seq<Expr>)
    decreases es, 0
  {
    es == [] || (Known(es[0]) && KnownAll(es[1..]))
  }

  // ----- the column of a name -----

  /** The aggregate whose value the column `name` holds in the end. */
  function Winner(aggs: seq<Aggregate>, name: string): Option<Aggregate> {
    if aggs == [] then None
    else
      var a := aggs[|aggs| - 1];
      if IsAggregate(a.op) && AliasOf(a) == name then Some(a) else Winner(aggs[..|aggs| - 1], name)
  }

  lemma {:induction false} WinnerWins(sem: Semantics, rows: seq<Value>, aggs: seq<Aggregate>, name: string)
    ensures name in AggregateColumns(sem, rows, aggs) <==> Winner(aggs, name).Some?
    ensures Winner(aggs, name).Some?
        ==> AggregateColumns(sem, rows, aggs)[name] == ValueOf(sem, rows, Winner(aggs, name).value)
  {
    if aggs != [] {
      WinnerWins(sem, rows, aggs[..|aggs| - 1], name);
    }
  }

  lemma {:induction false} WinnerExists(aggs: seq<Aggregate>, a: Aggregate)
    requires a in aggs && IsAggregate(a.op)
    ensures Winner(aggs, AliasOf(a)).Some?
  {
    var last := aggs[|aggs| - 1];
    if !(IsAggregate(last.op) && AliasOf(last) == AliasOf(a)) {
      assert aggs == aggs[..|aggs| - 1] + [last];
      WinnerExists(aggs[..|aggs| - 1], a);
    }
  }

  // ----- what a stored event holds -----

  const EVENT := Event(0)

  const OPTIONS := "o"
  const FIELDS: set<string> := {"n", "t", "y", "c", "r", "s", "o", "si"}

  /** The properties of an event and its base: primitive ones, and the options. */
  predicate IsRecord(fields: map<string, Value>) {
    forall k :: k in fields ==> k in FIELDS && if k == OPTIONS then fields[k].Object? else fields[k].Atom?
  }

  /** Primitive values have no properties that are read. */
  ghost predicate Bare(sem: Semantics) {
    forall v: Value, name: string :: v.Atom? || v.Undefined? ==> sem.member(v, name) == None
  }

  ghost predicate Stores(sem: Semantics) {
    Bare(sem) && forall id :: IsRecord(sem.event(id))
  }

  predicate OnEvents(rows: seq<Value>) { forall i :: 0 <= i < |rows| ==> rows[i].Event? }

  /** A stored event can have a value there. */
  predicate Readable(path: Path) {
    path == [] || (path[0] in FIELDS && (path[0] == OPTIONS || |path| == 1))
  }

  lemma UnreadableIsUndefined(sem: Semantics, row: Value, path: Path)
    requires Stores(sem) && row.Event? && !Readable(path)
    ensures Lookup(sem, row, path) == Undefined
  {
    var fields := sem.event(row.id);
    assert IsRecord(fields);
    if path[0] in fields {
      assert Dig(sem, Object(fields), path) == Dig(sem, fields[path[0]], path[1..]);
    }
  }

  lemma {:induction false} UnreadableColumn(sem: Semantics, rows: seq<Value>, path: Path, path': Path)
    requires Stores(sem) && OnEvents(rows) && !Readable(path) && !Readable(path')
    ensures Column(sem, rows, path) == Column(sem, rows, path')
  {
    if rows != [] {
      UnreadableIsUndefined(sem, rows[0], path);
      UnreadableIsUndefined(sem, rows[0], path');
      UnreadableColumn(sem, rows[1..], path, path');
    }
  }

  predicate Collide(a: Aggregate, b: Aggregate) {
    IsAggregate(a.op) && a.op != COUNT && b.op == a.op && AliasOf(a) == AliasOf(b)
  }

  predicate SameOnEvents(a: Aggregate, b: Aggregate) {
    FieldOf(a.args) == FieldOf(b.args) || (!Readable(FieldOf(a.args)) && !Readable(FieldOf(b.args)))
  }

  /** Aggregates of one name, other than counts, are of one field, or of fields no event has. */
  predicate ConsistentOnEvents(aggs: seq<Aggregate>) {
    forall a, b :: a in aggs && b in aggs && Collide(a, b) ==> SameOnEvents(a, b)
  }

  lemma AlikeOnEvents(sem: Semantics, rows: seq<Value>, aggs: seq<Aggregate>)
    requires CountsRows(sem) && Stores(sem) && OnEvents(rows) && ConsistentOnEvents(aggs)
    ensures Alike(sem, rows, aggs)
  {
    forall a, b | a in aggs && b in aggs && IsAggregate(a.op) && IsAggregate(b.op) && AliasOf(a) == AliasOf(b)
      ensures ValueOf(sem, rows, a) == ValueOf(sem, rows, b)
    {
      AliasTellsOperator(a.op, FieldOf(a.args), b.op, FieldOf(b.args));
      if a.op == COUNT {
        ColumnCount(sem, rows, FieldOf(a.args));
        ColumnCount(sem, rows, FieldOf(b.args));
      } else if FieldOf(a.args) != FieldOf(b.args) {
        assert Collide(a, b);
        UnreadableColumn(sem, rows, FieldOf(a.args), FieldOf(b.args));
      }
    }
  }

  // ----- an event that tells two fields apart -----

  function Leaf(path: Path): Value { if path == [OPTIONS] then Object(map[]) else Atom(1) }

  /** The value that holds `leaf` at the path, and nothing else. */
  function Only(path: Path, leaf: Value): Value {
    if path == [] then leaf else Object(map[path[0] := Only(path[1..], leaf)])
  }

  function RecordOf(path: Path): map<string, Value>
    requires Readable(path)
  {
    if path == [] then map[] else Only(path, Leaf(path)).fields
  }

  lemma RecordOfIsRecord(path: Path)
    requires Readable(path)
    ensures IsRecord(RecordOf(path))
  {
    if path != [] {
      var leaf := Leaf(path);
      assert RecordOf(path) == map[path[0] := Only(path[1..], leaf)];
      if |path| == 1 {
        assert path[1..] == [] && path == [path[0]] && Only(path[1..], leaf) == leaf;
      }
    }
  }

  lemma {:induction false} DigOnly(sem: Semantics, path: Path, leaf: Value, z: Path)
    requires Bare(sem) && (leaf.Atom? || leaf == Object(map[])) && !(z <= path)
    ensures Dig(sem, Only(path, leaf), z) == Undefined
    decreases |path|
  {
    if path != [] && z[0] == path[0] {
      assert !(z[1..] <= path[1..]) by {
        assert z == [z[0]] + z[1..] && path == [path[0]] + path[1..];
      }
      DigOnly(sem, path[1..], leaf, z[1..]);
    }
  }

  lemma {:induction false} DigAll(sem: Semantics, path: Path, leaf: Value)
    ensures Dig(sem, Only(path, leaf), path) == leaf
    decreases |path|
  {
    if path != [] {
      DigAll(sem, path[1..], leaf);
    }
  }

  lemma {:induction false} PrefixIsShorter(z: Path, path: Path)
    requires z < path && z != []
    ensures |Join(z, '.')| < |Join(path, '.')|
    decreases |z|
  {
    if |z| > 1 {
      PrefixIsShorter(z[1..], path[1..]);
    }
  }

  function Told(path: Path): Value { if path == [] then EVENT else Leaf(path) }

  /** The event has its one value at the path, and none at another path of the same name. */
  lemma EventTells(sem: Semantics, path: Path, z: Path)
    requires Bare(sem) && Readable(path) && sem.event(0) == RecordOf(path)
    requires z != path && Join(z, '.') == Join(path, '.')
    ensures Lookup(sem, EVENT, path) == Told(path) && Lookup(sem, EVENT, z) == Undefined
  {
    if path != [] {
      assert path[0] != "";
      DigAll(sem, path, Leaf(path));
      if z <= path {
        assert z != [];
        PrefixIsShorter(z, path);
        assert false;
      }
      DigOnly(sem, path, Leaf(path), z);
    }
  }

  /** Of a single row, the aggregates of a field tell a number, an object or the row itself from no value at all. */
  ghost predicate Notices(sem: Semantics) {
    forall op: string, v: Value :: IsAggregate(op) && op != COUNT && (v == Atom(1) || v.Object? || v.Event?)
      ==> sem.aggregate(op, [v]) != sem.aggregate(op, [Undefined])
  }

  // ----- semantics that lose nothing -----

  /** Operators keep all their arguments, aggregates all values but for the count, and an event has one value. */
  function Free(path: Path, truthy: Value -> bool): Semantics
    requires Readable(path)
  {
    Semantics(id => RecordOf(path), (v, name) => None, (op, args) => Items(args),
              (op, values) => if op == COUNT then Atom(|values|) else Items(values),
              name => Undefined, truthy, (a, b) => false)
  }

  lemma FreeIsLawful(path: Path, truthy: Value -> bool)
    requires Readable(path)
    ensures var sem := Free(path, truthy); CountsRows(sem) && Stores(sem) && Notices(sem)
  {
    RecordOfIsRecord(path);
    var sem := Free(path, truthy);
    forall op: string, v: Value | IsAggregate(op) && op != COUNT && (v == Atom(1) || v.Object? || v.Event?)
      ensures sem.aggregate(op, [v]) != sem.aggregate(op, [Undefined])
    {
      assert [v][0] != [Undefined][0];
    }
  }

  /** What counts as true does not matter to the value of an expression. */
  lemma {:induction false} SameValue(path: Path, t: Value -> bool, t': Value -> bool, row: Value, e: Expr)
    requires Readable(path)
    ensures Evaluate(Free(path, t), row, e) == Evaluate(Free(path, t'), row, e)
    decreases e, 1
  {
    match e
    case Field(p) => SameLookup(path, t, t', row, p);
    case Op(_, args) => SameValueAll(path, t, t', row, args);
    case _ =>
  }

  lemma {:induction false} SameValueAll(path: Path, t: Value -> bool, t': Value -> bool, row: Value, es: seq<Expr>)
    requires Readable(path)
    ensures EvaluateAll(Free(path, t), row, es) == EvaluateAll(Free(path, t'), row, es)
    decreases es, 0
  {
    if es != [] {
      SameValue(path, t, t', row, es[0]);
      SameValueAll(path, t, t', row, es[1..]);
    }
  }

  lemma {:induction false} SameDig(path: Path, t: Value -> bool, t': Value -> bool, v: Value, p: Path)
    requires Readable(path)
    ensures Dig(Free(path, t), v, p) == Dig(Free(path, t'), v, p)
    decreases |p|
  {
    if p != [] && v.Object? && p[0] in v.fields {
      SameDig(path, t, t', v.fields[p[0]], p[1..]);
    }
  }

  lemma SameLookup(path: Path, t: Value -> bool, t': Value -> bool, row: Value, p: Path)
    requires Readable(path)
    ensures Lookup(Free(path, t), row, p) == Lookup(Free(path, t'), row, p)
  {
    SameDig(path, t, t', row, p);
    SameDig(path, t, t', Object(RecordOf(path)), p);
    hide Dig, RecordOf;
  }

  lemma {:induction false} SameColumn(path: Path, t: Value -> bool, t': Value -> bool, rows: seq<Value>, p: Path)
    requires Readable(path)
    ensures Column(Free(path, t), rows, p) == Column(Free(path, t'), rows, p)
  {
    if rows != [] {
      SameLookup(path, t, t', rows[0], p);
      SameColumn(path, t, t', rows[1..], p);
    }
  }

  lemma {:induction false} SameMeaning(path: Path, t: Value -> bool, t': Value -> bool, row: Value,
                                       group: Option<seq<Value>>, e: Expr)
    requires Readable(path)
    ensures Meaning(Free(path, t), row, group, e) == Meaning(Free(path, t'), row, group, e)
    decreases e, 1
  {
    match e
    case Const(_) =>
    case Field(p) => SameLookup(path, t, t', row, p);
    case Eval(_) =>
    case _ =>
      if IsAggregate(e.op) && group.Some? {
        SameColumn(path, t, t', group.value, FieldOf(e.args));
      } else {
        SameMeaningAll(path, t, t', row, group, e.args);
      }
  }

  lemma {:induction false} SameMeaningAll(path: Path, t: Value -> bool, t': Value -> bool, row: Value,
                                          group: Option<seq<Value>>, es: seq<Expr>)
    requires Readable(path)
    ensures MeaningAll(Free(path, t), row, group, es) == MeaningAll(Free(path, t'), row, group, es)
    decreases es, 0
  {
    if es != [] {
      SameMeaning(path, t, t', row, group, es[0]);
      SameMeaningAll(path, t, t', row, group, es[1..]);
    }
  }

  lemma {:induction false} SameColumns(path: Path, t: Value -> bool, t': Value -> bool, rows: seq<Value>,
                                       aggs: seq<Aggregate>)
    requires Readable(path)
    ensures AggregateColumns(Free(path, t), rows, aggs) == AggregateColumns(Free(path, t'), rows, aggs)
  {
    if aggs != [] {
      SameColumns(path, t, t', rows, aggs[..|aggs| - 1]);
      SameColumn(path, t, t', rows, FieldOf(aggs[|aggs| - 1].args));
    }
  }

  lemma {:induction false} SameKey(path: Path, t: Value -> bool, t': Value -> bool, row: Value, paths: seq<Path>)
    requires Readable(path)
    ensures Key(Free(path, t), row, paths) == Key(Free(path, t'), row, paths)
  {
    if paths != [] {
      SameLookup(path, t, t', row, paths[0]);
      SameKey(path, t, t', row, paths[1..]);
    }
  }

  // ----- a wrong column shows -----

  /** Where nothing is lost, an aggregate that finds another value in its column changes the whole expression. */
  lemma {:induction false} WrongColumnShows(sem: Semantics, row': Value, row: Value, group: seq<Value>, e: Expr,
                                            a: Aggregate)
    requires Known(e) && a in Met(e) && row'.Object? && AliasOf(a) in row'.fields
    requires !CarriesOne(sem, row'.fields, group, a)
    requires forall op, args :: sem.apply(op, args) == Items(args)
    ensures Evaluate(sem, row', Lift(e, true)) != Meaning(sem, row, Some(group), e)
    decreases e, 1
  {
    DisjointOperators(e.op);
    if IsAggregate(e.op) {
      LookupSingle(sem, row', AliasOf(a));
    } else {
      WrongColumnShowsAll(sem, row', row, group, e.args, a);
    }
  }

  lemma {:induction false} WrongColumnShowsAll(sem: Semantics, row': Value, row: Value, group: seq<Value>,
                                               es: seq<Expr>, a: Aggregate)
    requires KnownAll(es) && a in MetAll(es) && row'.Object? && AliasOf(a) in row'.fields
    requires !CarriesOne(sem, row'.fields, group, a)
    requires forall op, args :: sem.apply(op, args) == Items(args)
    ensures EvaluateAll(sem, row', LiftAll(es, true)) != MeaningAll(sem, row, Some(group), es)
    decreases es, 0
  {
    var lifted := LiftAll(es, true);
    assert lifted[1..] == LiftAll(es[1..], true);
    var left, right := EvaluateAll(sem, row', lifted), MeaningAll(sem, row, Some(group), es);
    assert left[0] == Evaluate(sem, row', Lift(es[0], true)) && right[0] == Meaning(sem, row, Some(group), es[0]);
    assert left[1..] == EvaluateAll(sem, row', lifted[1..]) && right[1..] == MeaningAll(sem, row, Some(group), es[1..]);
    if a in Met(es[0]) {
      WrongColumnShows(sem, row', row, group, es[0], a);
    } else {
      WrongColumnShowsAll(sem, row', row, group, es[1..], a);
    }
  }

  // ----- a single event -----

  /** A valid query on events, with HAVING made of known operators, that shows its first row. */
  predicate Plain(q: Query) {
    && Valid(Rewrite(q)) && q.from.None? && q.having.Some? && Known(q.having.value)
    && q.offset in {None, Some(0)} && q.limit != Some(0)
  }

  function TheGroup(sem: Semantics, q: Query): Group { Group(Key(sem, EVENT, OrNone(q.groupBy)), [EVENT]) }

  lemma GroupsOfOne(sem: Semantics, q: Query)
    ensures Groups(sem, [EVENT], q.groupBy) == [TheGroup(sem, q)]
  {
    if OrNone(q.groupBy) != [] {
      assert [EVENT][..0] == [];
      assert GroupRows(sem, [], q.groupBy.value) == [];
    }
  }

  /** The row of the event's group in the rewritten query, and in the reference. */
  function WrittenRow(sem: Semantics, q: Query): Value {
    RowOf(sem, TheGroup(sem, q), q.groupBy, OrNone(q.aggregate) + LiftedOf(q.having))
  }

  function DeclaredRow(sem: Semantics, q: Query): Value {
    RowOf(sem, TheGroup(sem, q), q.groupBy, OrNone(q.aggregate))
  }

  lemma SortCount(sem: Semantics, rows: seq<Value>, order: seq<Order>)
    ensures |Sort(sem, rows, order)| == |rows|
  {
    Sorting.SortKeeps(RowOrder(sem, order), rows);
    assert |multiset(Sort(sem, rows, order))| == |multiset(rows)|;
  }

  lemma {:induction false} SelectCount(sem: Semantics, rows: seq<Value>, es: seq<Expr>)
    ensures |Select(sem, rows, es)| == |rows|
  {
    if rows != [] {
      SelectCount(sem, rows[1..], es);
    }
  }

  lemma FinishCount(sem: Semantics, q: Query, rows: seq<Value>)
    requires q.offset in {None, Some(0)} && q.limit != Some(0) && |rows| <= 1
    ensures |Finish(sem, q, rows)| == |rows|
  {
    var sorted := if q.orderBy.Some? then Sort(sem, rows, q.orderBy.value) else rows;
    if q.orderBy.Some? {
      SortCount(sem, rows, q.orderBy.value);
    }
    if q.select.Some? {
      SelectCount(sem, Slice(sorted, q.offset, q.limit), q.select.value);
    }
  }

  lemma FilterOne(sem: Semantics, row: Value, e: Expr)
    ensures Filter(sem, [row], e) == if sem.truthy(Evaluate(sem, row, e)) then [row] else []
    ensures KeepRows(sem, [row], e) == if sem.truthy(Meaning(sem, row, None, e)) then [row] else []
  {
    assert [row][1..] == [];
    hide Evaluate, Meaning;
  }

  lemma KeepOne(sem: Semantics, g: Group, q: Query)
    requires q.having.Some?
    ensures var row := RowOf(sem, g, q.groupBy, OrNone(q.aggregate));
      KeepGroups(sem, [g], q)
      == if sem.truthy(Meaning(sem, row, Some(g.rows), q.having.value)) then [row] else []
  {
    assert [g][1..] == [];
    hide RowOf, Meaning;
  }

  lemma RowsOfOne(sem: Semantics, g: Group, groupBy: Option<seq<Path>>, aggs: seq<Aggregate>)
    ensures RowsOf(sem, [g], groupBy, aggs) == [RowOf(sem, g, groupBy, aggs)]
  {
    assert [g][1..] == [];
    hide RowOf;
  }

  /** WHERE means the same before and after rewriting. */
  lemma WhereMeaning(sem: Semantics, e: Expr)
    ensures Evaluate(sem, EVENT, Lift(e, false)) == Meaning(sem, EVENT, None, e)
  {
    OutsideNothing(e, false);
    HideNothing(EVENT);
    LiftMeaning(sem, {}, EVENT, None, e, false);
  }

  /** On one event that WHERE lets through, a side has its row exactly when HAVING is true of it. */
  lemma OneReferenceRow(sem: Semantics, q: Query)
    requires Plain(q) && HasWhere(q) && Met(q.having.value) != []
    requires sem.truthy(Meaning(sem, EVENT, None, q.where.value))
    ensures var row := DeclaredRow(sem, q);
      Reference(sem, q, [EVENT])
      == Finish(sem, q, if sem.truthy(Meaning(sem, row, Some([EVENT]), q.having.value)) then [row] else [])
  {
    GroupsOfOne(sem, q);
    FilterOne(sem, EVENT, q.where.value);
    KeepOne(sem, TheGroup(sem, q), q);
    hide Evaluate, Meaning, Met, RowOf, Groups, Rewrite, Valid, KeepRows, KeepGroups, Finish, Key;
  }

  lemma OneRewrittenRow(sem: Semantics, q: Query)
    requires Plain(q) && HasWhere(q) && Met(q.having.value) != []
    requires sem.truthy(Meaning(sem, EVENT, None, q.where.value))
    ensures var row := WrittenRow(sem, q);
      Execute(sem, q, [EVENT])
      == Some(Finish(sem, q, if sem.truthy(Evaluate(sem, row, Lift(q.having.value, true))) then [row] else []))
  {
    var q' := Rewrite(q);
    ValidHasWhere(q');
    LiftedNames(q);
    WhereMeaning(sem, q.where.value);
    var aggs := OrNone(q.aggregate) + LiftedOf(q.having);
    assert q'.aggregate == Some(aggs) && q'.groupBy == q.groupBy && q'.from == None;
    assert q'.where.value == Lift(q.where.value, false) && q'.having == Some(Lift(q.having.value, true));
    var kept := Filter(sem, [WrittenRow(sem, q)], q'.having.value);
    assert Finish(sem, q', kept) == Finish(sem, q, kept);
    hide Evaluate, Meaning, Met, RowOf, Groups, Rewrite, Valid, Lift, Finish, Key, LiftedOf;
    GroupsOfOne(sem, q);
    FilterOne(sem, EVENT, q'.where.value);
    RowsOfOne(sem, TheGroup(sem, q), q.groupBy, aggs);
    FilterOne(sem, WrittenRow(sem, q), q'.having.value);
    hide Filter;
    assert Result(sem, q', [EVENT]) == Finish(sem, q', kept);
  }

  // ----- the converse -----

  /** Both columns of one name hold the value of w, and a is over another field: an event that has a value in the
      readable one of the two fields, `path`, tells them apart. */
  predicate Picked(q: Query, path: Path, a: Aggregate) {
    var w := Winner(OrNone(q.aggregate) + LiftedOf(q.having), AliasOf(a));
    && w.Some? && Readable(path) && Collide(a, w.value) && FieldOf(a.args) != FieldOf(w.value.args)
    && (path == FieldOf(a.args) || path == FieldOf(w.value.args))
  }

  lemma {:induction false} WinnerIsOne(aggs: seq<Aggregate>, name: string)
    requires Winner(aggs, name).Some?
    ensures var w := Winner(aggs, name).value; w in aggs && IsAggregate(w.op) && AliasOf(w) == name
  {
    var last := aggs[|aggs| - 1];
    if !(IsAggregate(last.op) && AliasOf(last) == name) {
      WinnerIsOne(aggs[..|aggs| - 1], name);
    }
  }

  lemma Pick(q: Query, x: Aggregate, y: Aggregate) returns (path: Path, a: Aggregate)
    requires q.having.Some? && x in Met(q.having.value) && y in Met(q.having.value) && Collide(x, y)
    requires FieldOf(x.args) != FieldOf(y.args) && (Readable(FieldOf(x.args)) || Readable(FieldOf(y.args)))
    ensures a in {x, y} && Picked(q, path, a)
  {
    WinnerIsMet(q, x);
    hide LiftedOf, Winner, Met, AliasOf, FieldOf;
    var w := Winner(OrNone(q.aggregate) + LiftedOf(q.having), AliasOf(x)).value;
    SameOperator(x, w);
    if Readable(FieldOf(w.args)) {
      path := FieldOf(w.args);
      a := if FieldOf(x.args) == path then y else x;
    } else {
      a := if Readable(FieldOf(x.args)) then x else y;
      path := FieldOf(a.args);
    }
  }

  lemma SameOperator(x: Aggregate, y: Aggregate)
    requires IsAggregate(x.op) && IsAggregate(y.op) && AliasOf(x) == AliasOf(y)
    ensures x.op == y.op && Join(FieldOf(x.args), '.') == Join(FieldOf(y.args), '.')
  {
    AliasTellsOperator(x.op, FieldOf(x.args), y.op, FieldOf(y.args));
  }

  /** The event's group then shows a wrong value for a. */
  lemma PickedIsWrong(sem: Semantics, q: Query, path: Path, a: Aggregate)
    requires Picked(q, path, a) && Bare(sem) && Notices(sem) && sem.event(0) == RecordOf(path)
    ensures var row := WrittenRow(sem, q);
      row.Object? && AliasOf(a) in row.fields && !CarriesOne(sem, row.fields, [EVENT], a)
  {
    var aggs := OrNone(q.aggregate) + LiftedOf(q.having);
    var w := Winner(aggs, AliasOf(a)).value;
    WinnerWins(sem, [EVENT], aggs, AliasOf(a));
    SameOperator(a, w);
    ColumnOfEvent(sem, FieldOf(a.args));
    ColumnOfEvent(sem, FieldOf(w.args));
    hide LiftedOf, Winner, AliasOf, FieldOf, Lookup, Column, Join;
    EventTells(sem, path, if path == FieldOf(a.args) then FieldOf(w.args) else FieldOf(a.args));
  }

  lemma ColumnOfEvent(sem: Semantics, p: Path)
    ensures Column(sem, [EVENT], p) == [Lookup(sem, EVENT, p)]
  {
    assert [EVENT][1..] == [];
  }

  lemma SameRows(path: Path, t: Value -> bool, t': Value -> bool, q: Query)
    requires Readable(path)
    ensures WrittenRow(Free(path, t), q) == WrittenRow(Free(path, t'), q)
    ensures DeclaredRow(Free(path, t), q) == DeclaredRow(Free(path, t'), q)
  {
    SameKey(path, t, t', EVENT, OrNone(q.groupBy));
    SameColumns(path, t, t', [EVENT], OrNone(q.aggregate) + LiftedOf(q.having));
    SameColumns(path, t, t', [EVENT], OrNone(q.aggregate));
    hide Key, AggregateColumns, LiftedOf, Free;
  }

  /** The laws of the operators that hold in the source, on stored events. */
  ghost predicate Lawful(sem: Semantics) { CountsRows(sem) && Stores(sem) && Notices(sem) }

  /** The query and its rewriting do not have as many rows. */
  ghost predicate Disagrees(sem: Semantics, q: Query, events: seq<Value>) {
    && Lawful(sem) && OnEvents(events) && HasWhere(q) && Execute(sem, q, events).Some?
    && |Execute(sem, q, events).value| != |Reference(sem, q, events)|
  }

  /** What counts as true: the value of WHERE, and one of the two values of HAVING. */
  function Telling(written: Value, meant: Value, whereValue: Value): Value -> bool {
    if written == whereValue then v => v == written else v => v == whereValue || v == meant
  }

  /** WHERE lets the event through, and HAVING is true of one side's row only. */
  lemma OneSidedDisagrees(sem: Semantics, q: Query)
    requires Lawful(sem) && Plain(q) && HasWhere(q) && Met(q.having.value) != []
    requires sem.truthy(Meaning(sem, EVENT, None, q.where.value))
    requires sem.truthy(Evaluate(sem, WrittenRow(sem, q), Lift(q.having.value, true)))
          != sem.truthy(Meaning(sem, DeclaredRow(sem, q), Some([EVENT]), q.having.value))
    ensures Disagrees(sem, q, [EVENT])
  {
    var kept, kept' := if sem.truthy(Meaning(sem, DeclaredRow(sem, q), Some([EVENT]), q.having.value))
                       then [DeclaredRow(sem, q)] else [],
                       if sem.truthy(Evaluate(sem, WrittenRow(sem, q), Lift(q.having.value, true)))
                       then [WrittenRow(sem, q)] else [];
    FinishCount(sem, q, kept);
    FinishCount(sem, q, kept');
    hide Evaluate, Meaning, WrittenRow, DeclaredRow, Execute, Reference, Lift, Met, Plain, Lawful, Finish;
    OneReferenceRow(sem, q);
    OneRewrittenRow(sem, q);
  }

  lemma TellingSeparates(q: Query, path: Path, a: Aggregate)
    requires Plain(q) && HasWhere(q) && a in Met(q.having.value) && Picked(q, path, a)
    ensures exists sem, events :: Disagrees(sem, q, events)
  {
    var having := q.having.value;
    var any: Value -> bool := v => true;
    var free := Free(path, any);
    FreeIsLawful(path, any);
    PickedIsWrong(free, q, path, a);
    var row', row := WrittenRow(free, q), DeclaredRow(free, q);
    WrongColumnShows(free, row', row, [EVENT], having, a);
    var written, meant := Evaluate(free, row', Lift(having, true)), Meaning(free, row, Some([EVENT]), having);
    var t := Telling(written, meant, Meaning(free, EVENT, None, q.where.value));
    var sem := Free(path, t);
    FreeIsLawful(path, t);
    assert sem.truthy == t;
    hide Evaluate, Meaning, WrittenRow, DeclaredRow, Free, Lift, Met, Plain, Lawful, CountsRows, Stores, Notices,
      Picked, Disagrees;
    SameRows(path, any, t, q);
    SameValue(path, any, t, row', Lift(having, true));
    SameMeaning(path, any, t, row, Some([EVENT]), having);
    SameMeaning(path, any, t, EVENT, None, q.where.value);
    assert Lawful(sem) by { FreeLawful(path, t); }
    OneSidedDisagrees(sem, q);
  }

  lemma FreeLawful(path: Path, t: Value -> bool)
    requires Readable(path)
    ensures Lawful(Free(path, t))
  {
    FreeIsLawful(path, t);
    hide Free;
  }

  /** Whenever two aggregates of HAVING other than counts share a name and are over different fields, one of which an
      event can have, lawful operators and a stored event exist on which the rewritten query has a row more, or less,
      than the query as it is written. */
  lemma CollisionSeparates(q: Query, x: Aggregate, y: Aggregate)
    requires Plain(q) && x in Met(q.having.value) && y in Met(q.having.value) && Collide(x, y)
    requires FieldOf(x.args) != FieldOf(y.args) && (Readable(FieldOf(x.args)) || Readable(FieldOf(y.args)))
    ensures exists sem, events :: Disagrees(sem, q, events)
  {
    RewriteHasWhere(q);
    ValidHasWhere(Rewrite(q));
    var path, a := Pick(q, x, y);
    hide Plain, Met, Picked, Disagrees, Rewrite, Valid;
    TellingSeparates(q, path, a);
  }

  // ----- preservation on stored events -----

  lemma {:induction false} AddRowOnEvents(gs: seq<Group>, key: seq<Value>, row: Value)
    requires row.Event? && forall g :: g in gs ==> OnEvents(g.rows)
    ensures forall g :: g in AddRow(gs, key, row) ==> OnEvents(g.rows)
  {
    if gs != [] && gs[0].key != key {
      assert forall g :: g in gs[1..] ==> g in gs;
      AddRowOnEvents(gs[1..], key, row);
    }
  }

  lemma {:induction false} GroupRowsOnEvents(sem: Semantics, rows: seq<Value>, paths: seq<Path>)
    requires OnEvents(rows)
    ensures forall g :: g in GroupRows(sem, rows, paths) ==> OnEvents(g.rows)
  {
    if rows != [] {
      var init, last := rows[..|rows| - 1], rows[|rows| - 1];
      GroupRowsOnEvents(sem, init, paths);
      AddRowOnEvents(GroupRows(sem, init, paths), Key(sem, last, paths), last);
    }
  }

  lemma {:induction false} FilterOnEvents(sem: Semantics, rows: seq<Value>, e: Expr)
    requires OnEvents(rows)
    ensures OnEvents(Filter(sem, rows, e))
  {
    if rows != [] {
      FilterOnEvents(sem, rows[1..], e);
    }
  }

  /** Query.RewritePreserves on stored events, where names may also be shared by fields that no event has. */
  lemma PreservedOnEvents(sem: Semantics, q: Query, events: seq<Value>)
    requires q.from.None? && HasWhere(q) && HasWhere(Rewrite(q)) && NamesClean(q)
    requires Grouped(q) ==> ConsistentOnEvents(Mentioned(q))
    requires CountsRows(sem) && Stores(sem) && OnEvents(events)
    ensures Reference(sem, q, events) == HideAll(Hidden(q), Result(sem, Rewrite(q), events))
  {
    HideAllNothing(events);
    var filtered := Filter(sem, events, Rewrite(q).where.value);
    FilterOnEvents(sem, events, Rewrite(q).where.value);
    if OrNone(q.groupBy) != [] {
      GroupRowsOnEvents(sem, filtered, q.groupBy.value);
    }
    if Grouped(q) {
      forall g | g in Groups(sem, filtered, q.groupBy) ensures Alike(sem, g.rows, Mentioned(q)) {
        AlikeOnEvents(sem, g.rows, Mentioned(q));
      }
    }
    hide Grouped, Alike, Groups, CountsRows, Stores, NamesClean, Hidden, ConsistentOnEvents, OnEvents;
    LevelPreserved(sem, q, events, events);
  }

  /** The declared aggregates share their names with no others. */
  predicate DeclaredClean(q: Query) {
    forall a, b :: a in OrNone(q.aggregate) && b in Mentioned(q) && Collide(a, b) ==> SameOnEvents(a, b)
  }

  lemma MentionedConsistent(q: Query)
    requires q.having.Some? && DeclaredClean(q) && ConsistentOnEvents(Met(q.having.value))
    ensures ConsistentOnEvents(Mentioned(q))
  {
    hide Met, FieldOf, AliasOf, IsAggregate, Readable;
    forall a, b | a in Mentioned(q) && b in Mentioned(q) && Collide(a, b) ensures SameOnEvents(a, b) {
      if b in OrNone(q.aggregate) {
        assert Collide(b, a);
      }
    }
  }

  /** For a query on events whose other names are clean: it has as many rows as its rewriting, for all lawful operators
      and all stored events, if and only if aggregates of HAVING that share a name are counts, or over one field, or
      over fields that no event has. */
  lemma AgreesExactlyWhen(q: Query)
    requires Plain(q) && NamesClean(q) && DeclaredClean(q)
    ensures (forall sem, events :: !Disagrees(sem, q, events)) <==> ConsistentOnEvents(Met(q.having.value))
  {
    hide NamesClean, DeclaredClean, Met, Disagrees, Collide, SameOnEvents, Valid, Known;
    if ConsistentOnEvents(Met(q.having.value)) {
      MentionedConsistent(q);
      forall sem, events ensures !Disagrees(sem, q, events) {
        NeverDisagrees(sem, q, events);
      }
    } else {
      var x, y :| x in Met(q.having.value) && y in Met(q.having.value) && Collide(x, y) && !SameOnEvents(x, y);
      TwoCollide(q, x, y);
    }
  }

  lemma TwoCollide(q: Query, x: Aggregate, y: Aggregate)
    requires Plain(q) && x in Met(q.having.value) && y in Met(q.having.value) && Collide(x, y) && !SameOnEvents(x, y)
    ensures exists sem, events :: Disagrees(sem, q, events)
  {
    hide Disagrees, Plain, Collide;
    CollisionSeparates(q, x, y);
  }

  lemma NeverDisagrees(sem: Semantics, q: Query, events: seq<Value>)
    requires Plain(q) && NamesClean(q) && ConsistentOnEvents(Mentioned(q))
    ensures !Disagrees(sem, q, events)
  {
    if Lawful(sem) && OnEvents(events) {
      CountOnEvents(sem, q, events);
    }
    hide Plain, NamesClean, ConsistentOnEvents, Lawful, OnEvents, Execute, Reference, HasWhere;
  }

  lemma CountOnEvents(sem: Semantics, q: Query, events: seq<Value>)
    requires Plain(q) && NamesClean(q) && ConsistentOnEvents(Mentioned(q)) && Lawful(sem) && OnEvents(events)
    ensures !Disagrees(sem, q, events)
    ensures HasWhere(q) && Execute(sem, q, events).Some?
    ensures Reference(sem, q, events) == HideAll(Hidden(q), Execute(sem, q, events).value)
  {
    ValidHasWhere(Rewrite(q));
    RewriteHasWhere(q);
    PreservedOnEvents(sem, q, events);
    HideAllCount(Hidden(q), Result(sem, Rewrite(q), events));
    hide Result, Reference, Hidden, NamesClean, ConsistentOnEvents, OnEvents, CountsRows, Stores, Notices, Known;
  }

  // ----- every column of HAVING, for the operators as they are -----

  lemma {:induction false} WinnerIsLast(a: seq<Aggregate>, b: seq<Aggregate>, name: string)
    requires Winner(b, name).Some?
    ensures Winner(a + b, name) == Winner(b, name)
    decreases |b|
  {
    var init, last := b[..|b| - 1], b[|b| - 1];
    assert (a + b)[..|a + b| - 1] == a + init && (a + b)[|a + b| - 1] == last;
    if !(IsAggregate(last.op) && AliasOf(last) == name) {
      WinnerIsLast(a, init, name);
    }
  }

  /** Whatever the operators are: on the events that `records` holds, every aggregate of HAVING finds its own value in
      the row of its group. */
  ghost predicate ReadsRight(sem: Semantics, q: Query, records: int -> map<string, Value>, g: Group) {
    var s := sem.(event := records);
    (forall id :: IsRecord(records(id))) && OnEvents(g.rows)
    ==> Carries(s, RowOf(s, g, q.groupBy, OrNone(q.aggregate) + LiftedOf(q.having)), g.rows,
                if q.having.Some? then Met(q.having.value) else [])
  }

  lemma RowShowsWinner(s: Semantics, g: Group, groupBy: Option<seq<Path>>, aggs: seq<Aggregate>, name: string)
    requires Winner(aggs, name).Some?
    ensures var row := RowOf(s, g, groupBy, aggs);
      row.Object? && name in row.fields && row.fields[name] == ValueOf(s, g.rows, Winner(aggs, name).value)
  {
    WinnerWins(s, g.rows, aggs, name);
    hide Winner, Column, KeyColumns, AggregateColumns;
  }

  /** The winner of a name met in HAVING is an aggregate of HAVING. */
  lemma WinnerIsMet(q: Query, a: Aggregate)
    requires q.having.Some? && a in Met(q.having.value)
    ensures var w := Winner(OrNone(q.aggregate) + LiftedOf(q.having), AliasOf(a));
      w.Some? && w.value in Met(q.having.value) && IsAggregate(w.value.op) && AliasOf(w.value) == AliasOf(a)
    ensures IsAggregate(a.op)
  {
    var lifted := LiftedOf(q.having);
    LiftedNames(q);
    MetAreAggregates(q.having.value);
    assert AliasOf(a) in Names(Met(q.having.value));
    var b :| b in lifted && IsAggregate(b.op) && AliasOf(b) == AliasOf(a);
    hide LiftedOf, Met, AliasOf, IsAggregate, Winner;
    WinnerExists(lifted, b);
    WinnerIsLast(OrNone(q.aggregate), lifted, AliasOf(a));
    WinnerIsOne(lifted, AliasOf(a));
  }

  /** Met aggregates of one name having one value, each finds its own. */
  lemma FindsOwn(s: Semantics, q: Query, g: Group, a: Aggregate)
    requires q.having.Some? && a in Met(q.having.value) && Alike(s, g.rows, Met(q.having.value))
    ensures var row := RowOf(s, g, q.groupBy, OrNone(q.aggregate) + LiftedOf(q.having));
      row.Object? && CarriesOne(s, row.fields, g.rows, a)
  {
    hide LiftedOf, Met, AliasOf, IsAggregate, Winner, Column, RowOf, FieldOf;
    WinnerIsMet(q, a);
    RowShowsWinner(s, g, q.groupBy, OrNone(q.aggregate) + LiftedOf(q.having), AliasOf(a));
  }

  lemma ConsistentReadsRight(sem: Semantics, q: Query, records: int -> map<string, Value>, g: Group)
    requires q.having.Some? && CountsRows(sem) && Bare(sem) && ConsistentOnEvents(Met(q.having.value))
    ensures ReadsRight(sem, q, records, g)
  {
    var s := sem.(event := records);
    if (forall id :: IsRecord(records(id))) && OnEvents(g.rows) {
      assert CountsRows(s) && Stores(s);
      AlikeOnEvents(s, g.rows, Met(q.having.value));
      hide Met, Alike, CountsRows, Stores, Bare, IsRecord, OnEvents, RowOf, LiftedOf, CarriesOne, ConsistentOnEvents;
      forall a | a in Met(q.having.value)
        ensures var row := RowOf(s, g, q.groupBy, OrNone(q.aggregate) + LiftedOf(q.having));
          row.Object? && CarriesOne(s, row.fields, g.rows, a)
      {
        FindsOwn(s, q, g, a);
      }
      RowIsObject(s, g, q.groupBy, OrNone(q.aggregate) + LiftedOf(q.having));
    }
  }

  lemma RowIsObject(s: Semantics, g: Group, groupBy: Option<seq<Path>>, aggs: seq<Aggregate>)
    ensures RowOf(s, g, groupBy, aggs).Object?
  {
  }

  lemma PickedReadsWrong(sem: Semantics, q: Query, path: Path, a: Aggregate)
    requires q.having.Some? && a in Met(q.having.value) && Picked(q, path, a) && Bare(sem) && Notices(sem)
    ensures exists records: int -> map<string, Value>, g: Group :: !ReadsRight(sem, q, records, g)
  {
    var records: int -> map<string, Value> := id => RecordOf(path);
    var s := sem.(event := records);
    RecordOfIsRecord(path);
    PickedIsWrong(s, q, path, a);
    var g := TheGroup(s, q);
    assert OnEvents(g.rows) && forall id :: IsRecord(records(id));
    hide Met, Picked, RecordOf, RowOf, Notices, LiftedOf, CarriesOne, IsRecord;
    assert !ReadsRight(sem, q, records, g);
  }

  /** For operators that count rows and notice a value where there was none: every aggregate of HAVING finds its own
      value, for all stored events, if and only if those that share a name are counts, or over one field, or over
      fields that no event has. */
  lemma ColumnsRightExactlyWhen(sem: Semantics, q: Query)
    requires q.having.Some? && CountsRows(sem) && Bare(sem) && Notices(sem)
    ensures (forall records: int -> map<string, Value>, g: Group :: ReadsRight(sem, q, records, g))
            <==> ConsistentOnEvents(Met(q.having.value))
  {
    hide Met, CountsRows, Bare, Notices, ReadsRight, Picked;
    if ConsistentOnEvents(Met(q.having.value)) {
      forall records: int -> map<string, Value>, g: Group ensures ReadsRight(sem, q, records, g) {
        ConsistentReadsRight(sem, q, records, g);
      }
    } else {
      var x, y :| x in Met(q.having.value) && y in Met(q.having.value) && Collide(x, y) && !SameOnEvents(x, y);
      var path, a := Pick(q, x, y);
      PickedReadsWrong(sem, q, path, a);
    }
  }

  // ----- clauses that read a column only the rewriting added -----

  /** Built of known operators, and reading no property of a column that has one of the names. */
  predicate Shown(e: Expr, names: set<string>)
    decreases e, 1
  {
    match e
    case Field(path) => path != [] && path[0] in names ==> |path| == 1
    case Const(_) => true
    case Eval(_) => true
    case Listed(_, _) => false
    case Op(op, args) => IsOperator(op) && ShownAll(args, names)
  }

  predicate ShownAll(es: seq<Expr>, names: set<string>)
    decreases es, 0
  {
    es == [] || (Shown(es[0], names) && ShownAll(es[1..], names))
  }

  /** row' has all these columns, and row has none. */
  predicate HasMore(row': Value, row: Value, names: set<string>) {
    && row'.Object? && row.Object? && row' != row
    && forall n :: n in names ==> n in row'.fields && row'.fields[n] != Undefined && n !in row.fields
  }

  /** Where nothing is lost, reading such a column shows. */
  lemma {:induction false} ReadingShows(sem: Semantics, row': Value, row: Value, names: set<string>, e: Expr)
    requires Shown(e, names) && !Outside(e, names, false) && HasMore(row', row, names)
    requires forall op, args :: sem.apply(op, args) == Items(args)
    ensures Evaluate(sem, row', e) != Evaluate(sem, row, e)
    decreases e, 1
  {
    match e
    case Field(path) =>
      if path != [] {
        assert path == [path[0]];
        LookupSingle(sem, row', path[0]);
        assert Lookup(sem, row, path) == Undefined;
      }
    case Op(op, args) => ReadingShowsAll(sem, row', row, names, args);
    case _ =>
  }

  lemma {:induction false} ReadingShowsAll(sem: Semantics, row': Value, row: Value, names: set<string>, es: seq<Expr>)
    requires ShownAll(es, names) && !OutsideAll(es, names, false) && HasMore(row', row, names)
    requires forall op, args :: sem.apply(op, args) == Items(args)
    ensures EvaluateAll(sem, row', es) != EvaluateAll(sem, row, es)
    decreases es, 0
  {
    var left, right := EvaluateAll(sem, row', es), EvaluateAll(sem, row, es);
    assert left[0] == Evaluate(sem, row', es[0]) && right[0] == Evaluate(sem, row, es[0]);
    assert left[1..] == EvaluateAll(sem, row', es[1..]) && right[1..] == EvaluateAll(sem, row, es[1..]);
    if !Outside(es[0], names, false) {
      ReadingShows(sem, row', row, names, es[0]);
    } else {
      ReadingShowsAll(sem, row', row, names, es[1..]);
    }
  }

  lemma {:induction false} OutsideMember(es: seq<Expr>, names: set<string>, e: Expr)
    requires e in es && OutsideAll(es, names, false)
    ensures Outside(e, names, false)
  {
    if e != es[0] {
      OutsideMember(es[1..], names, e);
    }
  }

  lemma {:induction false} ShownEach(es: seq<Expr>, names: set<string>)
    requires forall e :: e in es ==> Shown(e, names)
    ensures ShownAll(es, names)
  {
    if es != [] {
      assert es[0] in es;
      assert forall e :: e in es[1..] ==> e in es;
      ShownEach(es[1..], names);
    }
  }

  lemma {:induction false} KeyCount(sem: Semantics, row: Value, paths: seq<Path>)
    ensures |Key(sem, row, paths)| == |paths|
  {
    if paths != [] {
      KeyCount(sem, row, paths[1..]);
    }
  }

  /** The rewritten row has the added columns, the declared one has not. */
  lemma AddedIsMore(q: Query)
    requires Added(q) != {} && forall p :: p in OrNone(q.groupBy) ==> Join(p, '.') !in Added(q)
    ensures var sem := Free([], v => true); HasMore(WrittenRow(sem, q), DeclaredRow(sem, q), Added(q))
  {
    var sem := Free([], v => true);
    var declared, lifted := OrNone(q.aggregate), LiftedOf(q.having);
    var row', row := WrittenRow(sem, q), DeclaredRow(sem, q);
    var paths := OrNone(q.groupBy);
    KeyCount(sem, EVENT, paths);
    KeyColumnNames(paths, Key(sem, EVENT, paths), Added(q));
    ColumnNames(sem, [EVENT], declared);
    forall n | n in Added(q) ensures n in row'.fields && row'.fields[n] != Undefined && n !in row.fields {
      var a :| a in lifted && IsAggregate(a.op) && AliasOf(a) == n;
      WinnerExists(declared + lifted, a);
      RowShowsWinner(sem, TheGroup(sem, q), q.groupBy, declared + lifted, n);
    }
    var n :| n in Added(q);
    assert n in row'.fields && n !in row.fields;
  }

  lemma FinishOne(sem: Semantics, q: Query, row: Value)
    requires q.offset in {None, Some(0)} && q.limit != Some(0) && q.select.Some?
    ensures Finish(sem, q, [row]) == [Items(EvaluateAll(sem, row, q.select.value))]
  {
    assert [row][1..] == [];
    if q.orderBy.Some? {
      var before := RowOrder(sem, q.orderBy.value);
      assert Sorting.Sort(before, [row]) == Sorting.Insert(before, row, Sorting.Sort(before, [])) == [row];
    }
    assert Slice([row], q.offset, q.limit) == [row];
    hide EvaluateAll, Sort;
    assert Select(sem, [row], q.select.value)
        == [Items(EvaluateAll(sem, row, q.select.value))] + Select(sem, [], q.select.value);
  }

  /** The rewritten query results in what the query as written does, SELECT included. */
  ghost predicate SameResult(sem: Semantics, q: Query, events: seq<Value>) {
    HasWhere(q) && Execute(sem, q, events) == Some(Reference(sem, q, events))
  }

  lemma ReadingSeparates(q: Query, e: Expr)
    requires Plain(q) && q.select.Some? && e in q.select.value && !Outside(e, Added(q), false)
    requires forall x :: x in q.select.value ==> Shown(x, Added(q))
    requires forall p :: p in OrNone(q.groupBy) ==> Join(p, '.') !in Added(q)
    ensures exists sem, events :: Lawful(sem) && OnEvents(events) && !SameResult(sem, q, events)
  {
    RewriteHasWhere(q);
    ValidHasWhere(Rewrite(q));
    if Added(q) == {} {
      OutsideNothing(e, false);
    }
    LiftedNames(q);
    var any: Value -> bool := v => true;
    var sem := Free([], any);
    FreeLawful([], any);
    AddedIsMore(q);
    ShownEach(q.select.value, Added(q));
    if OutsideAll(q.select.value, Added(q), false) {
      OutsideMember(q.select.value, Added(q), e);
    }
    var row', row := WrittenRow(sem, q), DeclaredRow(sem, q);
    assert sem.truthy == any && forall op, args :: sem.apply(op, args) == Items(args);
    hide WrittenRow, DeclaredRow, Free, Execute, Reference, Lift, Met, Lawful, Finish, HasMore, Outside, Shown, Meaning,
      Evaluate, EvaluateAll, Added, LiftedOf, Valid, Rewrite;
    ReadingShowsAll(sem, row', row, Added(q), q.select.value);
    FinishOne(sem, q, row');
    FinishOne(sem, q, row);
    OneReferenceRow(sem, q);
    OneRewrittenRow(sem, q);
    assert OnEvents([EVENT]) && !SameResult(sem, q, [EVENT]);
  }

  lemma SelectIsClean(q: Query)
    requires Plain(q) && q.select.Some? && NamesClean(q.(select := None))
    requires forall e :: e in q.select.value ==> Outside(e, Added(q), false)
    ensures NamesClean(q)
  {
    if !Grouped(q) {
      forall e | e in q.select.value ensures Outside(e, {}, false) {
        OutsideNothing(e, false);
      }
    }
    var q' := q.(select := None);
    assert Added(q') == Added(q) && Mentioned(q') == Mentioned(q) && Grouped(q') == Grouped(q) && Rows(q') == Rows(q);
    hide Outside, Added, Mentioned, Grouped, Avoids, FieldOf, Join;
  }

  /** For a query on events whose other clauses and aggregates are clean: it selects what its rewriting does, for all
      lawful operators and all stored events, if and only if SELECT reads no column that only the rewriting added. */
  lemma SelectsExactlyWhen(q: Query)
    requires Plain(q) && q.select.Some? && NamesClean(q.(select := None)) && DeclaredClean(q)
    requires ConsistentOnEvents(Met(q.having.value)) && forall e :: e in q.select.value ==> Shown(e, Added(q))
    ensures (forall sem, events :: Lawful(sem) && OnEvents(events) ==> SameResult(sem, q, events))
            <==> forall e :: e in q.select.value ==> Outside(e, Added(q), false)
  {
    hide Met, Lawful, OnEvents, SameResult, Shown, Outside, Added, ConsistentOnEvents, DeclaredClean, Valid, Known;
    if forall e :: e in q.select.value ==> Outside(e, Added(q), false) {
      SelectIsClean(q);
      MentionedConsistent(q);
      hide NamesClean;
      forall sem, events | Lawful(sem) && OnEvents(events) ensures SameResult(sem, q, events) {
        SelectsTheSame(sem, q, events);
      }
    } else {
      var e :| e in q.select.value && !Outside(e, Added(q), false);
      GroupedByOthers(q);
      ReadingSeparates(q, e);
    }
  }

  lemma GroupedByOthers(q: Query)
    requires NamesClean(q.(select := None))
    ensures forall p :: p in OrNone(q.groupBy) ==> Join(p, '.') !in Added(q)
  {
    LiftedNames(q);
    if !Grouped(q) {
      assert Names([]) == {};
      assert Added(q) == {};
    }
    hide Outside, Join, Avoids, LiftedOf, Met;
  }

  lemma SelectsTheSame(sem: Semantics, q: Query, events: seq<Value>)
    requires Plain(q) && q.select.Some? && NamesClean(q) && ConsistentOnEvents(Mentioned(q))
    requires Lawful(sem) && OnEvents(events)
    ensures SameResult(sem, q, events)
  {
    CountOnEvents(sem, q, events);
    HideAllNothing(Execute(sem, q, events).value);
    hide Execute, Reference, NamesClean, Lawful, ConsistentOnEvents, Plain;
  }

  // ----- the smallest case, with the operators of the source -----

  function At(vs: seq<Value>, i: nat): Value { if i < |vs| then vs[i] else Undefined }

  function Truth(b: bool): Value { if b then Atom(1) else Atom(0) }

  function Above(v: Value, w: Value): bool { v.Atom? && w.Atom? && v.n > w.n }

  /** Truth in the language, false being 0. */
  function Truthy(v: Value): bool { v != Undefined && v != Atom(0) }

  function Sum(vs: seq<Value>): int {
    if vs == [] then 0 else (if vs[0].Atom? then vs[0].n else 0) + Sum(vs[1..])
  }

  /** The operators of the source on whole numbers: those that the query below uses. */
  function Source(records: int -> map<string, Value>): Semantics {
    Semantics(records, (v, name) => None,
              (op, vs) => if op == "gt" then Truth(Above(At(vs, 0), At(vs, 1)))
                          else if op == "eq" then Truth(At(vs, 0) == At(vs, 1)) else Undefined,
              (op, vs) => if op == "sum" then Atom(Sum(vs)) else if op == COUNT then Atom(|vs|) else Undefined,
              name => Undefined, v => Truthy(v), (v, w) => Above(w, v))
  }

  const RECORD: map<string, Value> :=
    map["n" := Atom(7), "t" := Atom(1000), OPTIONS := Object(map["a" := Object(map["b" := Atom(1)]), "a.b" := Atom(0)])]

  const RECORDS: int -> map<string, Value> := id => RECORD

  /** HAVING compares the sum of option b in a with the sum of option "a.b". */
  const FIRST := Op("sum", [Field([OPTIONS, "a", "b"])])
  const SECOND := Op("sum", [Field([OPTIONS, "a.b"])])
  const DOTTED_HAVING := Op("gt", [FIRST, SECOND])
  const DOTTED := Query(None, Some(Op("eq", [])), None, None, Some(DOTTED_HAVING), None, None, None, None)

  lemma DottedIsPlain()
    ensures Plain(DOTTED)
  {
    assert [FIRST, SECOND][1..] == [SECOND] && [SECOND][1..] == [];
    assert KnownAll([SECOND]) && KnownAll([FIRST, SECOND]);
    hide Met, MetAll, AliasOf, FieldOf;
  }

  lemma DottedMeets()
    ensures Met(DOTTED_HAVING) == [Aggregate("sum", FIRST.args), Aggregate("sum", SECOND.args)]
  {
    assert [FIRST, SECOND][1..] == [SECOND] && [SECOND][1..] == [];
    var x, y := Aggregate("sum", FIRST.args), Aggregate("sum", SECOND.args);
    assert Met(FIRST) == [x] && Met(SECOND) == [y];
    assert MetAll([SECOND]) == Met(SECOND) + MetAll([]) == [y];
    assert MetAll([FIRST, SECOND]) == Met(FIRST) + MetAll([SECOND]);
  }

  lemma SumsOfRecord(sem: Semantics)
    requires sem == Source(RECORDS)
    ensures sem.aggregate("sum", Column(sem, [EVENT], [OPTIONS, "a", "b"])) == Atom(1)
    ensures sem.aggregate("sum", Column(sem, [EVENT], [OPTIONS, "a.b"])) == Atom(0)
  {
    var options, a := RECORD[OPTIONS], Object(map["b" := Atom(1)]);
    ColumnOfEvent(sem, [OPTIONS, "a", "b"]);
    ColumnOfEvent(sem, [OPTIONS, "a.b"]);
    assert [OPTIONS, "a", "b"][1..] == ["a", "b"] && ["a", "b"][1..] == ["b"] && ["b"][1..] == [];
    assert [OPTIONS, "a.b"][1..] == ["a.b"] && ["a.b"][1..] == [];
    assert Dig(sem, a, ["b"]) == Dig(sem, Atom(1), []) == Atom(1);
    assert Dig(sem, options, ["a", "b"]) == Dig(sem, a, ["b"]);
    assert Dig(sem, options, ["a.b"]) == Dig(sem, Atom(0), []) == Atom(0);
    assert Lookup(sem, EVENT, [OPTIONS, "a", "b"]) == Dig(sem, options, ["a", "b"]);
    assert Lookup(sem, EVENT, [OPTIONS, "a.b"]) == Dig(sem, options, ["a.b"]);
    assert [Atom(1)][1..] == [] && [Atom(0)][1..] == [];
    assert Sum([Atom(1)]) == 1 + Sum([]) && Sum([Atom(0)]) == 0 + Sum([]);
  }

  lemma SourceCounts(records: int -> map<string, Value>)
    ensures CountsRows(Source(records)) && Bare(Source(records))
  {
  }

  lemma RecordIsStored()
    ensures IsRecord(RECORD)
  {
  }

  const DOTTED_NAME := AliasOf(Aggregate("sum", FIRST.args))

  lemma DottedIsLifted()
    ensures LiftedOf(DOTTED.having) == [Aggregate("sum", FIRST.args)]
    ensures Winner(OrNone(DOTTED.aggregate) + LiftedOf(DOTTED.having), DOTTED_NAME)
         == Some(Aggregate("sum", FIRST.args))
    ensures Lift(DOTTED_HAVING, true) == Op("gt", [Field([DOTTED_NAME]), Field([DOTTED_NAME])])
  {
    var x := Aggregate("sum", FIRST.args);
    DottedMeets();
    DottedNamesCollide();
    hide Met, AddAll;
    assert LiftedOf(DOTTED.having) == [x] && OrNone(DOTTED.aggregate) + [x] == [x];
    assert Winner([x], DOTTED_NAME) == Some(x);
    var f := Field([DOTTED_NAME]);
    GtIsAnOperator();
    assert [FIRST, SECOND][1..] == [SECOND] && [SECOND][1..] == [];
    assert Lift(FIRST, true) == f && Lift(SECOND, true) == f;
    hide AliasOf, Winner;
    assert LiftAll([SECOND], true) == [f] + LiftAll([], true) == [f];
    assert LiftAll([FIRST, SECOND], true) == [f] + LiftAll([SECOND], true) == [f, f];
  }

  lemma EvaluateTwice(sem: Semantics, row: Value, f: Expr)
    ensures Evaluate(sem, row, Op("gt", [f, f])) == sem.apply("gt", [Evaluate(sem, row, f), Evaluate(sem, row, f)])
  {
    var v := Evaluate(sem, row, f);
    GtIsAnOperator();
    assert [f, f][1..] == [f] && [f][1..] == [];
    assert EvaluateAll(sem, row, [f]) == [v] + EvaluateAll(sem, row, []) == [v];
    assert EvaluateAll(sem, row, [f, f]) == [v] + EvaluateAll(sem, row, [f]) == [v, v];
  }

  /** Both sides of HAVING read the one column, which holds the first sum. */
  lemma WrittenDotted(sem: Semantics)
    requires sem == Source(RECORDS)
    ensures Evaluate(sem, WrittenRow(sem, DOTTED), Lift(DOTTED_HAVING, true)) == Atom(0)
  {
    DottedIsLifted();
    SumsOfRecord(sem);
    hide Source, LiftedOf, Winner, AliasOf, Lift;
    RowShowsWinner(sem, TheGroup(sem, DOTTED), None, OrNone(DOTTED.aggregate) + LiftedOf(DOTTED.having), DOTTED_NAME);
    var row := WrittenRow(sem, DOTTED);
    assert row.fields[DOTTED_NAME] == Atom(1);
    LookupSingle(sem, row, DOTTED_NAME);
    EvaluateTwice(sem, row, Field([DOTTED_NAME]));
    GtOf(sem, 1, 1);
    hide WrittenRow, Lookup;
  }

  lemma GtIsAnOperator()
    ensures IsOperator("gt") && !IsAggregate("gt")
  {
  }

  lemma GtOf(sem: Semantics, a: int, b: int)
    requires sem == Source(RECORDS)
    ensures sem.apply("gt", [Atom(a), Atom(b)]) == Truth(a > b)
  {
    var vs := [Atom(a), Atom(b)];
    assert At(vs, 0) == Atom(a) && At(vs, 1) == Atom(b);
    assert sem.apply("gt", vs) == Truth(Above(At(vs, 0), At(vs, 1)));
  }

  lemma DeclaredDotted(sem: Semantics)
    requires sem == Source(RECORDS)
    ensures Meaning(sem, DeclaredRow(sem, DOTTED), Some([EVENT]), DOTTED_HAVING) == Atom(1)
  {
    var row, group := DeclaredRow(sem, DOTTED), Some([EVENT]);
    SumsOfRecord(sem);
    assert [FIRST, SECOND][1..] == [SECOND] && [SECOND][1..] == [];
    assert Meaning(sem, row, group, FIRST) == Atom(1) && Meaning(sem, row, group, SECOND) == Atom(0);
    assert MeaningAll(sem, row, group, [SECOND]) == [Atom(0)] + MeaningAll(sem, row, group, []) == [Atom(0)];
    assert MeaningAll(sem, row, group, [FIRST, SECOND]) == [Atom(1)] + MeaningAll(sem, row, group, [SECOND])
        == [Atom(1), Atom(0)];
    GtIsAnOperator();
    GtOf(sem, 1, 0);
    hide MeaningAll, DeclaredRow, Source;
  }

  lemma WhereOfDotted(sem: Semantics)
    requires sem == Source(RECORDS)
    ensures Meaning(sem, EVENT, None, DOTTED.where.value) == Atom(1)
  {
    assert MeaningAll(sem, EVENT, None, []) == [];
    assert IsOperator("eq") && !IsAggregate("eq");
    assert sem.apply("eq", []) == Truth(At([], 0) == At([], 1)) == Atom(1);
  }

  lemma SourceStores(sem: Semantics)
    requires sem == Source(RECORDS)
    ensures IsRecord(RECORD) && CountsRows(sem) && Stores(sem) && sem.truthy(Atom(1)) && !sem.truthy(Atom(0))
  {
    RecordIsStored();
    SourceCounts(RECORDS);
    hide IsRecord;
  }

  /** The smallest case, with the source's own operators: on one event with the options {a: {b: 1}, "a.b": 0} the query
      as written has its row, because 1 > 0, and the rewritten one has none, because both sums read 1. */
  lemma DottedNamesDisagree()
    ensures var sem := Source(RECORDS);
      && IsRecord(RECORD) && CountsRows(sem) && Stores(sem) && HasWhere(DOTTED)
      && |Reference(sem, DOTTED, [EVENT])| == 1 && Execute(sem, DOTTED, [EVENT]) == Some([])
  {
    var sem := Source(RECORDS);
    SourceStores(sem);
    DottedIsPlain();
    DottedMeets();
    WrittenDotted(sem);
    DeclaredDotted(sem);
    WhereOfDotted(sem);
    var row := DeclaredRow(sem, DOTTED);
    FinishCount(sem, DOTTED, [row]);
    FinishCount(sem, DOTTED, []);
    assert HasWhere(DOTTED) && DOTTED.having == Some(DOTTED_HAVING);
    hide Evaluate, Meaning, WrittenRow, DeclaredRow, Execute, Reference, Lift, Met, Plain, Finish, Source, Stores,
      CountsRows, IsRecord;
    OneReferenceRow(sem, DOTTED);
    OneRewrittenRow(sem, DOTTED);
  }
}
