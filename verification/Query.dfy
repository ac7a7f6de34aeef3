/** The query engine: rewriting and evaluation. */
module Query {
  import opened Text
  import Sorting

  // The rewriting pass turns aggregates in HAVING into columns.

  type Path = seq<string>

  /** A value of the host: undefined, a primitive or other value that is not looked into here, a behaviour
      event, an object with its own fields, or an array. */
  datatype Value = Undefined | Atom(n: int) | Event(id: int) | Object(fields: map<string, Value>)
                 | Items(items: seq<Value>)

  /** The operator tables and the host's notions they rest on: the fields of an event, the properties of a value
      that is no plain object, the boolean and arithmetic operators, the aggregates of the values of one
      field, the functions of an `eval`, what counts as true, and the comparison of the sort. */
  datatype Semantics = Semantics(
    event: int -> map<string, Value>,
    member: (Value, string) -> Option<Value>,
    apply: (string, seq<Value>) -> Value,
    aggregate: (string, seq<Value>) -> Value,
    call: string -> Value,
    truthy: Value -> bool,
    less: (Value, Value) -> bool)

  /** An operation is written as an object or, without its own name for it, as an array. */
  datatype Expr = Field(path: Path) | Const(value: Value) | Eval(name: string)
                | Op(op: string, args: seq<Expr>) | Listed(op: string, args: seq<Expr>)

  datatype Aggregate = Aggregate(op: string, args: seq<Expr>)

  datatype Order = Order(field: Path, ascending: bool)

  datatype Query = Query(from: Option<Query>, where: Option<Expr>, groupBy: Option<seq<Path>>,
                         aggregate: Option<seq<Aggregate>>, having: Option<Expr>, orderBy: Option<seq<Order>>,
                         select: Option<seq<Expr>>, offset: Option<nat>, limit: Option<nat>)

  const DEFAULT_FIELD: Path := ["*"]
  const BOOLEANS: set<string> := {"eq", "is", "gt", "lt", "gte", "lte", "in", "between", "contains", "regex", "exists",
                                  "and", "or", "not"}
  const ARITHMETIC: set<string> := {"+", "-", "/", "%"}
  const AGGREGATES: set<string> := {"sum", "avg", "max", "min", "count"}

  const COUNT := "count"

  predicate IsAggregate(op: string) { op in AGGREGATES }

  predicate IsOperator(op: string) { op in BOOLEANS || op in ARITHMETIC }

  // ----- expressions -----

  /** `getFieldValue` */
  function Dig(sem: Semantics, v: Value, path: Path): Value
    decreases |path|
  {
    if path == [] then v
    else if v.Object? then if path[0] in v.fields then Dig(sem, v.fields[path[0]], path[1..]) else Undefined
    else
      var m := sem.member(v, path[0]);
      if m.Some? then Dig(sem, m.value, path[1..]) else Undefined
  }

  /** `l` */
  function Lookup(sem: Semantics, row: Value, path: Path): Value {
    if path == [] then row else Dig(sem, if row.Event? then Object(sem.event(row.id)) else row, path)
  }

  /** `p` */
  function Evaluate(sem: Semantics, row: Value, e: Expr): Value
    decreases e, 1
  {
    match e
    case Const(v) => v
    case Field(path) => Lookup(sem, row, path)
    case Eval(name) => sem.call(name)
    case Listed(_, _) => Undefined
    case Op(op, args) => if IsOperator(op) then sem.apply(op, EvaluateAll(sem, row, args)) else Undefined
  }

  function EvaluateAll(sem: Semantics, row: Value, es: seq<Expr>): seq<Value>
    decreases es, 0
  {
    if es == [] then [] else [Evaluate(sem, row, es[0])] + EvaluateAll(sem, row, es[1..])
  }

  /** What an expression means on a row, arrays standing for operations, and on the group the row was made of:
      there an aggregate is computed from the group itself. */
  function Meaning(sem: Semantics, row: Value, group: Option<seq<Value>>, e: Expr): Value
    decreases e, 1
  {
    match e
    case Const(v) => v
    case Field(path) => Lookup(sem, row, path)
    case Eval(name) => sem.call(name)
    case _ =>
      if IsAggregate(e.op) && group.Some? then sem.aggregate(e.op, Column(sem, group.value, FieldOf(e.args)))
      else if IsOperator(e.op) then sem.apply(e.op, MeaningAll(sem, row, group, e.args))
      else Undefined
  }

  function MeaningAll(sem: Semantics, row: Value, group: Option<seq<Value>>, es: seq<Expr>): seq<Value>
    decreases es, 0
  {
    if es == [] then [] else [Meaning(sem, row, group, es[0])] + MeaningAll(sem, row, group, es[1..])
  }

  function Column(sem: Semantics, rows: seq<Value>, path: Path): seq<Value> {
    if rows == [] then [] else [Lookup(sem, rows[0], path)] + Column(sem, rows[1..], path)
  }

  // ----- rewriting -----

  /** The field an aggregate is computed over. */
  function FieldOf(args: seq<Expr>): Path {
    if args != [] && args[0].Field? then args[0].path else DEFAULT_FIELD
  }

  function Alias(op: string, path: Path): string { "_" + op + "_" + Join(path, '.') }

  function AliasOf(a: Aggregate): string { Alias(a.op, FieldOf(a.args)) }

  /** The expression `i` returns. */
  function Lift(e: Expr, lift: bool): Expr
    decreases e, 1
  {
    match e
    case Field(_) => e
    case Const(_) => e
    case Eval(_) => e
    case _ =>
      if lift && IsAggregate(e.op) then Field([Alias(e.op, FieldOf(e.args))])
      else Op(e.op, LiftAll(e.args, lift))
  }

  function LiftAll(es: seq<Expr>, lift: bool): seq<Expr>
    decreases es, 0
  {
    if es == [] then [] else [Lift(es[0], lift)] + LiftAll(es[1..], lift)
  }

  /** The aggregates `i` meets, in its order. */
  function Met(e: Expr): seq<Aggregate>
    decreases e, 1
  {
    match e
    case Field(_) => []
    case Const(_) => []
    case Eval(_) => []
    case _ => if IsAggregate(e.op) then [Aggregate(e.op, e.args)] else MetAll(e.args)
  }

  function MetAll(es: seq<Expr>): seq<Aggregate>
    decreases es, 0
  {
    if es == [] then [] else Met(es[0]) + MetAll(es[1..])
  }

  predicate Knows(r: seq<Aggregate>, name: string) {
    exists i :: 0 <= i < |r| && AliasOf(r[i]) == name
  }

  /** `r` holds one aggregate per alias, the first one met. */
  function AddNew(r: seq<Aggregate>, a: Aggregate): seq<Aggregate> {
    if Knows(r, AliasOf(a)) then r else r + [a]
  }

  function AddAll(r: seq<Aggregate>, met: seq<Aggregate>): seq<Aggregate>
    decreases |met|
  {
    if met == [] then r else AddAll(AddNew(r, met[0]), met[1..])
  }

  function LiftedOf(having: Option<Expr>): seq<Aggregate> {
    if having.Some? then AddAll([], Met(having.value)) else []
  }

  function LiftOption(e: Option<Expr>, lift: bool): Option<Expr> {
    if e.Some? then Some(Lift(e.value, lift)) else None
  }

  function OrNone<T>(s: Option<seq<T>>): seq<T> { if s.Some? then s.value else [] }

  /** `rewrite` */
  function Rewrite(q: Query): Query {
    var r := LiftedOf(q.having);
    Query(if q.from.Some? then Some(Rewrite(q.from.value)) else None,
          LiftOption(q.where, false), q.groupBy,
          if q.aggregate.Some? || r != [] then Some(OrNone(q.aggregate) + r) else None,
          LiftOption(q.having, true), q.orderBy, q.select, q.offset, q.limit)
  }

  // ----- the clauses -----

  function Filter(sem: Semantics, rows: seq<Value>, e: Expr): seq<Value> {
    if rows == [] then []
    else (if sem.truthy(Evaluate(sem, rows[0], e)) then [rows[0]] else []) + Filter(sem, rows[1..], e)
  }

  /** A group: the values of the fields grouped by, and its rows. */
  datatype Group = Group(key: seq<Value>, rows: seq<Value>)

  function Key(sem: Semantics, row: Value, paths: seq<Path>): seq<Value> {
    if paths == [] then [] else [Lookup(sem, row, paths[0])] + Key(sem, row, paths[1..])
  }

  /** The row joins its group, or founds the next one. */
  function AddRow(groups: seq<Group>, key: seq<Value>, row: Value): seq<Group> {
    if groups == [] then [Group(key, [row])]
    else if groups[0].key == key then [Group(key, groups[0].rows + [row])] + groups[1..]
    else [groups[0]] + AddRow(groups[1..], key, row)
  }

  function GroupRows(sem: Semantics, rows: seq<Value>, paths: seq<Path>): seq<Group> {
    if rows == [] then []
    else
      var last := rows[|rows| - 1];
      AddRow(GroupRows(sem, rows[..|rows| - 1], paths), Key(sem, last, paths), last)
  }

  /** `_`: without fields to group by, all rows form one group, even when there are none. */
  function Groups(sem: Semantics, rows: seq<Value>, groupBy: Option<seq<Path>>): seq<Group> {
    if OrNone(groupBy) == [] then [Group([], rows)] else GroupRows(sem, rows, groupBy.value)
  }

  function KeyColumns(paths: seq<Path>, key: seq<Value>): map<string, Value>
    requires |paths| == |key|
  {
    if paths == [] then map[]
    else KeyColumns(paths[..|paths| - 1], key[..|key| - 1])[Join(paths[|paths| - 1], '.') := key[|key| - 1]]
  }

  /** `h`: the columns of the aggregates, a later one of the same name winning; unknown operators are skipped. */
  function AggregateColumns(sem: Semantics, rows: seq<Value>, aggs: seq<Aggregate>): map<string, Value> {
    if aggs == [] then map[]
    else
      var init, a := AggregateColumns(sem, rows, aggs[..|aggs| - 1]), aggs[|aggs| - 1];
      if IsAggregate(a.op) then init[AliasOf(a) := sem.aggregate(a.op, Column(sem, rows, FieldOf(a.args)))] else init
  }

  /** `v` */
  function RowOf(sem: Semantics, g: Group, groupBy: Option<seq<Path>>, aggs: seq<Aggregate>): Value {
    var paths := OrNone(groupBy);
    Object((if |paths| == |g.key| then KeyColumns(paths, g.key) else map[]) + AggregateColumns(sem, g.rows, aggs))
  }

  function RowsOf(sem: Semantics, gs: seq<Group>, groupBy: Option<seq<Path>>, aggs: seq<Aggregate>): seq<Value> {
    if gs == [] then [] else [RowOf(sem, gs[0], groupBy, aggs)] + RowsOf(sem, gs[1..], groupBy, aggs)
  }

  /** `E`: the comparison of two rows, field by field. */
  predicate Before(sem: Semantics, a: Value, b: Value, order: seq<Order>) {
    if order == [] then false
    else
      var x, y := Lookup(sem, a, order[0].field), Lookup(sem, b, order[0].field);
      if sem.less(x, y) then order[0].ascending
      else if sem.less(y, x) then !order[0].ascending
      else Before(sem, a, b, order[1..])
  }

  function RowOrder(sem: Semantics, order: seq<Order>): (Value, Value) -> bool { (a, b) => Before(sem, a, b, order) }

  function Sort(sem: Semantics, rows: seq<Value>, order: seq<Order>): seq<Value> {
    Sorting.Sort(RowOrder(sem, order), rows)
  }

  function Slice(rows: seq<Value>, offset: Option<nat>, limit: Option<nat>): seq<Value> {
    var u := if offset.Some? then offset.value else 0;
    var c := if limit.Some? then u + limit.value else |rows|;
    if u >= |rows| || u >= c then [] else if c <= |rows| then rows[u..c] else rows[u..]
  }

  function Select(sem: Semantics, rows: seq<Value>, es: seq<Expr>): seq<Value> {
    if rows == [] then [] else [Items(EvaluateAll(sem, rows[0], es))] + Select(sem, rows[1..], es)
  }

  /** ORDER_BY, OFFSET, LIMIT and SELECT. */
  function Finish(sem: Semantics, q: Query, rows: seq<Value>): seq<Value> {
    var sorted := if q.orderBy.Some? then Sort(sem, rows, q.orderBy.value) else rows;
    var sliced := Slice(sorted, q.offset, q.limit);
    if q.select.Some? then Select(sem, sliced, q.select.value) else sliced
  }

  /** Every query, nested ones included, has its WHERE clause. */
  predicate HasWhere(q: Query) { q.where.Some? && (q.from.Some? ==> HasWhere(q.from.value)) }

  /** `y` */
  function Result(sem: Semantics, q: Query, events: seq<Value>): seq<Value>
    requires HasWhere(q)
  {
    var base := if q.from.Some? then Result(sem, q.from.value, events) else events;
    var filtered := Filter(sem, base, q.where.value);
    var grouped := if q.aggregate.Some?
                   then RowsOf(sem, Groups(sem, filtered, q.groupBy), q.groupBy, q.aggregate.value) else filtered;
    var kept := if q.having.Some? then Filter(sem, grouped, q.having.value) else grouped;
    Finish(sem, q, kept)
  }

  // ----- validation -----

  predicate TopOperator(e: Expr, among: set<string>) { e.Op? && e.op in among }

  /** `m` finds no violation. */
  predicate Valid(q: Query) {
    && q.where.Some? && TopOperator(q.where.value, BOOLEANS)
    && (q.having.Some? ==> TopOperator(q.having.value, BOOLEANS))
    && (q.groupBy.Some? ==> q.aggregate.Some?)
    && (q.select.Some? ==> forall e :: e in q.select.value ==> !TopOperator(e, AGGREGATES))
    && (q.from.Some? ==> Valid(q.from.value))
  }

  lemma {:induction false} ValidHasWhere(q: Query)
    requires Valid(q)
    ensures HasWhere(q)
  {
    if q.from.Some? {
      ValidHasWhere(q.from.value);
    }
  }

  /** `execute`; None is the error that lists the violations. */
  function Execute(sem: Semantics, q: Query, events: seq<Value>): Option<seq<Value>> {
    var q' := Rewrite(q);
    if Valid(q') then
      ValidHasWhere(q');
      Some(Result(sem, q', events))
    else None
  }

  // ----- the reference -----

  predicate Grouped(q: Query) { q.aggregate.Some? || (q.having.Some? && Met(q.having.value) != []) }

  /** The groups whose rows meet HAVING, aggregates computed on the group itself. */
  function KeepGroups(sem: Semantics, gs: seq<Group>, q: Query): seq<Value> {
    if gs == [] then []
    else
      var row := RowOf(sem, gs[0], q.groupBy, OrNone(q.aggregate));
      (if q.having.None? || sem.truthy(Meaning(sem, row, Some(gs[0].rows), q.having.value)) then [row] else [])
      + KeepGroups(sem, gs[1..], q)
  }

  function KeepRows(sem: Semantics, rows: seq<Value>, e: Expr): seq<Value> {
    if rows == [] then []
    else (if sem.truthy(Meaning(sem, rows[0], None, e)) then [rows[0]] else []) + KeepRows(sem, rows[1..], e)
  }

  /** The result of a query as it is written, its rows holding only the columns it declares. */
  function Reference(sem: Semantics, q: Query, events: seq<Value>): seq<Value>
    requires HasWhere(q)
  {
    var base := if q.from.Some? then Reference(sem, q.from.value, events) else events;
    var filtered := KeepRows(sem, base, q.where.value);
    var kept := if Grouped(q) then KeepGroups(sem, Groups(sem, filtered, q.groupBy), q)
                else if q.having.Some? then KeepRows(sem, filtered, q.having.value) else filtered;
    Finish(sem, q, kept)
  }

  // ----- hidden columns -----

  function Names(aggs: seq<Aggregate>): set<string> { set a | a in aggs && IsAggregate(a.op) :: AliasOf(a) }

  /** The columns the rewriting adds to the groups of q, beyond the declared ones. */
  function Added(q: Query): set<string> { Names(LiftedOf(q.having)) - Names(OrNone(q.aggregate)) }

  /** The added columns that are still there in the rows q results in. */
  function Hidden(q: Query): set<string> {
    if q.select.Some? then {}
    else if Grouped(q) then Added(q)
    else if q.from.Some? then Hidden(q.from.value) else {}
  }

  predicate Avoids(path: Path, names: set<string>) { names == {} || (path != [] && path[0] !in names) }

  /** Outside its aggregates, the expression reads none of the named columns. */
  predicate Outside(e: Expr, names: set<string>, lift: bool)
    decreases e, 1
  {
    match e
    case Field(path) => Avoids(path, names)
    case Const(_) => true
    case Eval(_) => true
    case _ => (lift && IsAggregate(e.op)) || OutsideAll(e.args, names, lift)
  }

  predicate OutsideAll(es: seq<Expr>, names: set<string>, lift: bool)
    decreases es, 0
  {
    es == [] || (Outside(es[0], names, lift) && OutsideAll(es[1..], names, lift))
  }

  /** `count` returns the number of the rows, whatever field it is given. */
  ghost predicate CountsRows(sem: Semantics) {
    forall vs: seq<Value>, ws: seq<Value> :: |vs| == |ws| ==> sem.aggregate(COUNT, vs) == sem.aggregate(COUNT, ws)
  }

  /** Aggregates of one name, other than counts, are aggregates of one field. */
  predicate Consistent(aggs: seq<Aggregate>) {
    forall a, b :: a in aggs && b in aggs && IsAggregate(a.op) && a.op != COUNT && b.op == a.op
                   && AliasOf(a) == AliasOf(b)
      ==> FieldOf(a.args) == FieldOf(b.args)
  }

  /** The aggregates of the query as it is written. */
  function Mentioned(q: Query): seq<Aggregate> {
    OrNone(q.aggregate) + if q.having.Some? then Met(q.having.value) else []
  }

  function Below(q: Query): set<string> { if q.from.Some? then Hidden(q.from.value) else {} }

  function Rows(q: Query): set<string> { if Grouped(q) then Added(q) else Below(q) }

  /** No name of a lifted aggregate is used for anything else: no field grouped by has such a name, and no clause
      reads a column that only the rewriting added. */
  predicate NamesClean(q: Query) {
    && (q.where.Some? ==> Outside(q.where.value, Below(q), false))
    && (forall p :: p in OrNone(q.groupBy) ==> Avoids(p, Below(q)))
    && (Grouped(q) ==>
          && (forall a :: a in Mentioned(q) && a.op != COUNT ==> Avoids(FieldOf(a.args), Below(q)))
          && (forall p :: p in OrNone(q.groupBy) ==> Join(p, '.') !in Added(q)))
    && (q.having.Some? ==> Outside(q.having.value, Rows(q), true))
    && (forall o :: o in OrNone(q.orderBy) ==> Avoids(o.field, Rows(q)))
    && (forall e :: e in OrNone(q.select) ==> Outside(e, Rows(q), false))
  }

  /** In addition, aggregates of one name are the same, in this query and in the nested ones. */
  predicate Clean(q: Query) {
    && (q.from.Some? ==> Clean(q.from.value))
    && NamesClean(q)
    && (Grouped(q) ==> Consistent(Mentioned(q)))
  }

  function Hide(names: set<string>, v: Value): Value {
    if v.Object? then Object(v.fields - names) else v
  }

  function HideAll(names: set<string>, rows: seq<Value>): seq<Value> {
    if rows == [] then [] else [Hide(names, rows[0])] + HideAll(names, rows[1..])
  }

  lemma HideNothing(v: Value)
    ensures Hide({}, v) == v
  {
    if v.Object? {
      assert v.fields - {} == v.fields;
    }
  }

  lemma {:induction false} HideAllNothing(rows: seq<Value>)
    ensures HideAll({}, rows) == rows
  {
    if rows != [] {
      HideNothing(rows[0]);
      HideAllNothing(rows[1..]);
    }
  }

  lemma LookupHidden(sem: Semantics, names: set<string>, row: Value, path: Path)
    requires Avoids(path, names)
    ensures Lookup(sem, Hide(names, row), path) == Lookup(sem, row, path)
  {
    if names == {} {
      HideNothing(row);
    }
  }

  lemma {:induction false} EvaluateHidden(sem: Semantics, names: set<string>, row: Value, e: Expr)
    requires Outside(e, names, false)
    ensures Evaluate(sem, Hide(names, row), e) == Evaluate(sem, row, e)
    decreases e, 1
  {
    match e
    case Field(path) => LookupHidden(sem, names, row, path);
    case Op(op, args) => EvaluateAllHidden(sem, names, row, args);
    case _ =>
  }

  lemma {:induction false} EvaluateAllHidden(sem: Semantics, names: set<string>, row: Value, es: seq<Expr>)
    requires OutsideAll(es, names, false)
    ensures EvaluateAll(sem, Hide(names, row), es) == EvaluateAll(sem, row, es)
    decreases es, 0
  {
    if es != [] {
      EvaluateHidden(sem, names, row, es[0]);
      EvaluateAllHidden(sem, names, row, es[1..]);
    }
  }

  // ----- rewritten expressions mean the same -----

  /** The row has the columns of the aggregates, computed from the group. */
  predicate Carries(sem: Semantics, row: Value, group: seq<Value>, aggs: seq<Aggregate>) {
    row.Object? && forall a :: a in aggs ==> CarriesOne(sem, row.fields, group, a)
  }

  predicate CarriesOne(sem: Semantics, fields: map<string, Value>, group: seq<Value>, a: Aggregate) {
    AliasOf(a) in fields && fields[AliasOf(a)] == sem.aggregate(a.op, Column(sem, group, FieldOf(a.args)))
  }

  lemma DisjointOperators(op: string)
    ensures !(IsAggregate(op) && IsOperator(op))
  {
  }

  lemma {:induction false} LiftMeaning(sem: Semantics, names: set<string>, row: Value, group: Option<seq<Value>>,
                                       e: Expr, lift: bool)
    requires Outside(e, names, lift)
    requires lift ==> if group.Some? then Carries(sem, row, group.value, Met(e)) else Met(e) == []
    requires !lift ==> group.None?
    ensures Evaluate(sem, row, Lift(e, lift)) == Meaning(sem, Hide(names, row), group, e)
    decreases e, 1
  {
    match e
    case Field(path) => LookupHidden(sem, names, row, path);
    case Const(_) =>
    case Eval(_) =>
    case _ =>
      DisjointOperators(e.op);
      if lift && IsAggregate(e.op) {
        var a := Aggregate(e.op, e.args);
        assert a in Met(e);
        assert CarriesOne(sem, row.fields, group.value, a);
        LookupSingle(sem, row, AliasOf(a));
      } else {
        LiftMeaningAll(sem, names, row, group, e.args, lift);
      }
  }

  lemma LookupSingle(sem: Semantics, row: Value, name: string)
    requires row.Object? && name in row.fields
    ensures Lookup(sem, row, [name]) == row.fields[name]
  {
    assert [name][1..] == [];
    assert Dig(sem, row, [name]) == Dig(sem, row.fields[name], []);
  }

  lemma {:induction false} LiftMeaningAll(sem: Semantics, names: set<string>, row: Value, group: Option<seq<Value>>,
                                          es: seq<Expr>, lift: bool)
    requires OutsideAll(es, names, lift)
    requires lift ==> if group.Some? then Carries(sem, row, group.value, MetAll(es)) else MetAll(es) == []
    requires !lift ==> group.None?
    ensures EvaluateAll(sem, row, LiftAll(es, lift)) == MeaningAll(sem, Hide(names, row), group, es)
    decreases es, 0
  {
    if es != [] {
      assert MetAll(es) == Met(es[0]) + MetAll(es[1..]);
      LiftMeaning(sem, names, row, group, es[0], lift);
      LiftMeaningAll(sem, names, row, group, es[1..], lift);
      assert LiftAll(es, lift)[1..] == LiftAll(es[1..], lift);
    }
  }

  lemma {:induction false} OutsideNothing(e: Expr, lift: bool)
    ensures Outside(e, {}, lift)
    decreases e, 1
  {
    match e
    case Field(_) =>
    case Const(_) =>
    case Eval(_) =>
    case _ => OutsideNothingAll(e.args, lift);
  }

  lemma {:induction false} OutsideNothingAll(es: seq<Expr>, lift: bool)
    ensures OutsideAll(es, {}, lift)
    decreases es, 0
  {
    if es != [] {
      OutsideNothing(es[0], lift);
      OutsideNothingAll(es[1..], lift);
    }
  }

  // ----- names of aggregates -----

  /** The name of an aggregate tells its operator. */
  lemma AliasTellsOperator(op: string, path: Path, op': string, path': Path)
    requires IsAggregate(op) && IsAggregate(op') && Alias(op, path) == Alias(op', path')
    ensures op == op' && Join(path, '.') == Join(path', '.')
  {
    var a, a' := Alias(op, path), Alias(op', path');
    assert a[1] == op[0] && a'[1] == op'[0] && a[2] == op[1] && a'[2] == op'[1];
    assert a[|op| + 2..] == Join(path, '.') && a'[|op'| + 2..] == Join(path', '.');
  }

  /** Field names without a dot never lead to a collision. */
  lemma DotFreeIsConsistent(aggs: seq<Aggregate>)
    requires forall a :: a in aggs ==> FieldOf(a.args) != [] && AllFree(FieldOf(a.args), '.')
    ensures Consistent(aggs)
  {
    forall a, b | a in aggs && b in aggs && IsAggregate(a.op) && a.op != COUNT && b.op == a.op
                  && AliasOf(a) == AliasOf(b)
      ensures FieldOf(a.args) == FieldOf(b.args)
    {
      AliasTellsOperator(a.op, FieldOf(a.args), b.op, FieldOf(b.args));
      SplitOfJoin(FieldOf(a.args), '.');
      SplitOfJoin(FieldOf(b.args), '.');
    }
  }

  lemma {:induction false} AddAllKnows(r: seq<Aggregate>, met: seq<Aggregate>)
    ensures forall a :: a in r ==> a in AddAll(r, met)
    ensures forall a :: a in AddAll(r, met) ==> a in r || a in met
    ensures forall a :: a in met ==> Knows(AddAll(r, met), AliasOf(a))
    decreases |met|
  {
    if met != [] {
      var r' := AddNew(r, met[0]);
      AddAllKnows(r', met[1..]);
      forall a | a in met ensures Knows(AddAll(r, met), AliasOf(a)) {
        if a == met[0] {
          if Knows(r, AliasOf(a)) {
            var i :| 0 <= i < |r| && AliasOf(r[i]) == AliasOf(a);
            InKnows(AddAll(r', met[1..]), r[i]);
          } else {
            assert r'[|r|] == a;
            InKnows(AddAll(r', met[1..]), a);
          }
        }
      }
      assert met == [met[0]] + met[1..];
    }
  }

  lemma InKnows(r: seq<Aggregate>, a: Aggregate)
    requires a in r
    ensures Knows(r, AliasOf(a))
  {
    var i :| 0 <= i < |r| && r[i] == a;
    assert AliasOf(r[i]) == AliasOf(a);
  }

  lemma {:induction false} MetAreAggregates(e: Expr)
    ensures forall a :: a in Met(e) ==> IsAggregate(a.op)
    decreases e, 1
  {
    match e
    case Field(_) =>
    case Const(_) =>
    case Eval(_) =>
    case _ => if !IsAggregate(e.op) { MetAllAreAggregates(e.args); }
  }

  lemma {:induction false} MetAllAreAggregates(es: seq<Expr>)
    ensures forall a :: a in MetAll(es) ==> IsAggregate(a.op)
    decreases es, 0
  {
    if es != [] {
      MetAreAggregates(es[0]);
      MetAllAreAggregates(es[1..]);
    }
  }

  // ----- the columns of a group -----

  function ValueOf(sem: Semantics, rows: seq<Value>, a: Aggregate): Value {
    sem.aggregate(a.op, Column(sem, rows, FieldOf(a.args)))
  }

  lemma {:induction false} ColumnNames(sem: Semantics, rows: seq<Value>, aggs: seq<Aggregate>)
    ensures AggregateColumns(sem, rows, aggs).Keys == Names(aggs)
  {
    if aggs != [] {
      var init, a := aggs[..|aggs| - 1], aggs[|aggs| - 1];
      ColumnNames(sem, rows, init);
      assert aggs == init + [a];
      assert forall b :: b in aggs <==> b in init || b == a;
      if IsAggregate(a.op) {
        assert Names(aggs) == Names(init) + {AliasOf(a)};
      } else {
        assert Names(aggs) == Names(init);
      }
    }
  }

  /** Aggregates of one name have one value on these rows. */
  predicate Alike(sem: Semantics, rows: seq<Value>, aggs: seq<Aggregate>) {
    forall a, b :: a in aggs && b in aggs && IsAggregate(a.op) && IsAggregate(b.op) && AliasOf(a) == AliasOf(b)
      ==> ValueOf(sem, rows, a) == ValueOf(sem, rows, b)
  }

  lemma {:induction false} ColumnCount(sem: Semantics, rows: seq<Value>, path: Path)
    ensures |Column(sem, rows, path)| == |rows|
  {
    if rows != [] {
      ColumnCount(sem, rows[1..], path);
    }
  }

  lemma ConsistentIsAlike(sem: Semantics, rows: seq<Value>, aggs: seq<Aggregate>)
    requires CountsRows(sem) && Consistent(aggs)
    ensures Alike(sem, rows, aggs)
  {
    forall a, b | a in aggs && b in aggs && IsAggregate(a.op) && IsAggregate(b.op) && AliasOf(a) == AliasOf(b)
      ensures ValueOf(sem, rows, a) == ValueOf(sem, rows, b)
    {
      AliasTellsOperator(a.op, FieldOf(a.args), b.op, FieldOf(b.args));
      ColumnCount(sem, rows, FieldOf(a.args));
      ColumnCount(sem, rows, FieldOf(b.args));
    }
  }

  /** With one value per name, every aggregate finds its own value in its column. */
  lemma {:induction false} ColumnValue(sem: Semantics, rows: seq<Value>, aggs: seq<Aggregate>, name: string,
                                       a: Aggregate)
    requires name in AggregateColumns(sem, rows, aggs)
    requires IsAggregate(a.op) && AliasOf(a) == name
    requires forall b :: b in aggs && IsAggregate(b.op) && AliasOf(b) == name
               ==> ValueOf(sem, rows, b) == ValueOf(sem, rows, a)
    ensures AggregateColumns(sem, rows, aggs)[name] == ValueOf(sem, rows, a)
  {
    if aggs != [] {
      var init, b := aggs[..|aggs| - 1], aggs[|aggs| - 1];
      assert b in aggs;
      assert forall c :: c in init ==> c in aggs;
      if !(IsAggregate(b.op) && AliasOf(b) == name) {
        ColumnValue(sem, rows, init, name, a);
      }
    }
  }

  lemma {:induction false} KeyColumnNames(paths: seq<Path>, key: seq<Value>, names: set<string>)
    requires |paths| == |key|
    requires forall p :: p in paths ==> Join(p, '.') !in names
    ensures KeyColumns(paths, key).Keys !! names
  {
    if paths != [] {
      var init := paths[..|paths| - 1];
      assert paths[|paths| - 1] in paths;
      assert forall p :: p in init ==> p in paths;
      KeyColumnNames(init, key[..|key| - 1], names);
    }
  }

  /** The columns of declared and lifted aggregates, without the added ones, are those of the declared ones. */
  lemma ColumnsHidden(sem: Semantics, rows: seq<Value>, declared: seq<Aggregate>, lifted: seq<Aggregate>)
    requires Alike(sem, rows, declared + lifted)
    ensures AggregateColumns(sem, rows, declared + lifted) - (Names(lifted) - Names(declared))
         == AggregateColumns(sem, rows, declared)
  {
    var all := declared + lifted;
    var names := Names(lifted) - Names(declared);
    ColumnNames(sem, rows, all);
    ColumnNames(sem, rows, declared);
    assert Names(all) == Names(declared) + Names(lifted) by {
      assert forall a :: a in all <==> a in declared || a in lifted;
    }
    forall n | n in Names(declared)
      ensures AggregateColumns(sem, rows, all)[n] == AggregateColumns(sem, rows, declared)[n]
    {
      var a :| a in declared && IsAggregate(a.op) && AliasOf(a) == n;
      assert a in all;
      assert forall b :: b in declared ==> b in all;
      ColumnValue(sem, rows, all, n, a);
      ColumnValue(sem, rows, declared, n, a);
    }
    var left := AggregateColumns(sem, rows, all) - names;
    assert left.Keys == Names(declared);
  }

  lemma {:induction false} ColumnHidden(sem: Semantics, names: set<string>, rows: seq<Value>, path: Path)
    requires Avoids(path, names)
    ensures Column(sem, HideAll(names, rows), path) == Column(sem, rows, path)
  {
    if rows != [] {
      LookupHidden(sem, names, rows[0], path);
      ColumnHidden(sem, names, rows[1..], path);
    }
  }

  lemma ValueHidden(sem: Semantics, names: set<string>, rows: seq<Value>, a: Aggregate)
    requires CountsRows(sem) && (a.op != COUNT ==> Avoids(FieldOf(a.args), names))
    ensures ValueOf(sem, HideAll(names, rows), a) == ValueOf(sem, rows, a)
  {
    if a.op == COUNT {
      HideAllAt(names, rows);
      ColumnCount(sem, rows, FieldOf(a.args));
      ColumnCount(sem, HideAll(names, rows), FieldOf(a.args));
    } else {
      ColumnHidden(sem, names, rows, FieldOf(a.args));
    }
  }

  lemma {:induction false} AggregateColumnsHidden(sem: Semantics, names: set<string>, rows: seq<Value>,
                                                  aggs: seq<Aggregate>)
    requires CountsRows(sem) && forall a :: a in aggs && a.op != COUNT ==> Avoids(FieldOf(a.args), names)
    ensures AggregateColumns(sem, HideAll(names, rows), aggs) == AggregateColumns(sem, rows, aggs)
  {
    if aggs != [] {
      var init, a := aggs[..|aggs| - 1], aggs[|aggs| - 1];
      assert a in aggs;
      assert forall b :: b in init ==> b in aggs;
      AggregateColumnsHidden(sem, names, rows, init);
      ValueHidden(sem, names, rows, a);
    }
  }

  // ----- groups and rows -----

  function HideGroups(names: set<string>, gs: seq<Group>): seq<Group> {
    if gs == [] then [] else [Group(gs[0].key, HideAll(names, gs[0].rows))] + HideGroups(names, gs[1..])
  }

  lemma {:induction false} HideAllAppend(names: set<string>, rows: seq<Value>, row: Value)
    ensures HideAll(names, rows + [row]) == HideAll(names, rows) + [Hide(names, row)]
  {
    if rows == [] {
      assert [row][1..] == [] && rows + [row] == [row];
    } else {
      assert (rows + [row])[1..] == rows[1..] + [row];
      HideAllAppend(names, rows[1..], row);
    }
  }

  /** One more row, kept or not. */
  lemma HideAllKeep(names: set<string>, keep: bool, row: Value, rest: seq<Value>)
    ensures HideAll(names, (if keep then [row] else []) + rest)
         == (if keep then [Hide(names, row)] else []) + HideAll(names, rest)
  {
    if keep {
      assert ([row] + rest)[1..] == rest;
    } else {
      assert [] + rest == rest;
      assert [] + HideAll(names, rest) == HideAll(names, rest);
    }
  }

  lemma {:induction false} KeyHidden(sem: Semantics, names: set<string>, row: Value, paths: seq<Path>)
    requires forall p :: p in paths ==> Avoids(p, names)
    ensures Key(sem, Hide(names, row), paths) == Key(sem, row, paths)
  {
    if paths != [] {
      assert paths[0] in paths;
      assert forall p :: p in paths[1..] ==> p in paths;
      LookupHidden(sem, names, row, paths[0]);
      KeyHidden(sem, names, row, paths[1..]);
    }
  }

  lemma {:induction false} AddRowHidden(names: set<string>, groups: seq<Group>, key: seq<Value>, row: Value)
    ensures AddRow(HideGroups(names, groups), key, Hide(names, row)) == HideGroups(names, AddRow(groups, key, row))
  {
    if groups == [] {
      HideAllAppend(names, [], row);
      assert [] + [row] == [row] && [] + [Hide(names, row)] == [Hide(names, row)];
      assert HideAll(names, [row]) == [Hide(names, row)];
      assert [Group(key, [row])][1..] == [] && HideGroups(names, []) == [];
    } else if groups[0].key == key {
      HideAllAppend(names, groups[0].rows, row);
    } else {
      AddRowHidden(names, groups[1..], key, row);
    }
  }

  lemma {:induction false} GroupRowsHidden(sem: Semantics, names: set<string>, rows: seq<Value>, paths: seq<Path>)
    requires forall p :: p in paths ==> Avoids(p, names)
    ensures GroupRows(sem, HideAll(names, rows), paths) == HideGroups(names, GroupRows(sem, rows, paths))
  {
    if rows != [] {
      var init, last := rows[..|rows| - 1], rows[|rows| - 1];
      assert rows == init + [last];
      HideAllAppend(names, init, last);
      GroupRowsHidden(sem, names, init, paths);
      KeyHidden(sem, names, last, paths);
      var hidden := HideAll(names, init);
      assert (hidden + [Hide(names, last)])[..|hidden|] == hidden;
      AddRowHidden(names, GroupRows(sem, init, paths), Key(sem, last, paths), last);
    }
  }

  lemma GroupsHidden(sem: Semantics, names: set<string>, rows: seq<Value>, groupBy: Option<seq<Path>>)
    requires forall p :: p in OrNone(groupBy) ==> Avoids(p, names)
    ensures Groups(sem, HideAll(names, rows), groupBy) == HideGroups(names, Groups(sem, rows, groupBy))
  {
    if OrNone(groupBy) != [] {
      GroupRowsHidden(sem, names, rows, groupBy.value);
    }
  }

  lemma LiftedNames(q: Query)
    ensures Names(LiftedOf(q.having)) == if q.having.Some? then Names(Met(q.having.value)) else {}
    ensures q.having.Some? ==> (LiftedOf(q.having) == [] <==> Met(q.having.value) == [])
    ensures forall a :: a in LiftedOf(q.having) ==> q.having.Some? && a in Met(q.having.value)
  {
    if q.having.Some? {
      var met, r := Met(q.having.value), LiftedOf(q.having);
      AddAllKnows([], met);
      MetAreAggregates(q.having.value);
      forall a | a in met ensures AliasOf(a) in Names(r) {
        var i :| 0 <= i < |r| && AliasOf(r[i]) == AliasOf(a);
        assert r[i] in r && r[i] in met;
      }
      if met != [] {
        assert met[0] in met && AliasOf(met[0]) in Names(r);
      }
    }
  }

  /** The group's row in the rewritten query carries every aggregate of HAVING. */
  lemma RowCarries(sem: Semantics, q: Query, g: Group)
    requires NamesClean(q) && Grouped(q) && q.having.Some?
    requires CountsRows(sem) && Alike(sem, g.rows, Mentioned(q))
    ensures Carries(sem, RowOf(sem, g, q.groupBy, OrNone(q.aggregate) + LiftedOf(q.having)), HideAll(Below(q), g.rows),
                    Met(q.having.value))
  {
    var lifted := LiftedOf(q.having);
    var aggs := OrNone(q.aggregate) + lifted;
    var row := RowOf(sem, g, q.groupBy, aggs);
    LiftedNames(q);
    MetAreAggregates(q.having.value);
    ColumnNames(sem, g.rows, aggs);
    assert forall a :: a in aggs ==> a in Mentioned(q);
    forall a | a in Met(q.having.value) ensures CarriesOne(sem, row.fields, HideAll(Below(q), g.rows), a) {
      assert AliasOf(a) in Names(lifted);
      var b :| b in lifted && IsAggregate(b.op) && AliasOf(b) == AliasOf(a);
      assert b in aggs && a in Mentioned(q);
      ColumnValue(sem, g.rows, aggs, AliasOf(a), a);
      ValueHidden(sem, Below(q), g.rows, a);
    }
  }

  lemma MinusRight(a: map<string, Value>, b: map<string, Value>, names: set<string>)
    requires a.Keys !! names
    ensures (a + b) - names == a + (b - names)
  {
  }

  /** Without the added columns, the group's row in the rewritten query is the reference's row. */
  lemma RowHidden(sem: Semantics, q: Query, g: Group)
    requires NamesClean(q) && Grouped(q)
    requires CountsRows(sem) && Alike(sem, g.rows, Mentioned(q))
    ensures Hide(Added(q), RowOf(sem, g, q.groupBy, OrNone(q.aggregate) + LiftedOf(q.having)))
         == RowOf(sem, Group(g.key, HideAll(Below(q), g.rows)), q.groupBy, OrNone(q.aggregate))
  {
    var declared, lifted := OrNone(q.aggregate), LiftedOf(q.having);
    var paths := OrNone(q.groupBy);
    var keys := if |paths| == |g.key| then KeyColumns(paths, g.key) else map[];
    LiftedNames(q);
    assert forall a :: a in declared + lifted ==> a in Mentioned(q);
    if |paths| == |g.key| {
      KeyColumnNames(paths, g.key, Added(q));
    }
    ColumnsHidden(sem, g.rows, declared, lifted);
    assert Added(q) == Names(lifted) - Names(declared);
    assert forall a :: a in declared && a.op != COUNT ==> Avoids(FieldOf(a.args), Below(q));
    AggregateColumnsHidden(sem, Below(q), g.rows, declared);
    MinusRight(keys, AggregateColumns(sem, g.rows, declared + lifted), Added(q));
    hide AggregateColumns, KeyColumns, NamesClean, Grouped, Alike, CountsRows, Added, Names, LiftedOf, Below, HideAll,
      Mentioned, Met, FieldOf, Avoids, Join;
  }

  lemma {:induction false} KeepGroupsHidden(sem: Semantics, q: Query, gs: seq<Group>)
    requires NamesClean(q) && Grouped(q)
    requires CountsRows(sem) && forall g :: g in gs ==> Alike(sem, g.rows, Mentioned(q))
    ensures var rows := RowsOf(sem, gs, q.groupBy, OrNone(q.aggregate) + LiftedOf(q.having));
            var kept := if q.having.Some? then Filter(sem, rows, Lift(q.having.value, true)) else rows;
      KeepGroups(sem, HideGroups(Below(q), gs), q) == HideAll(Added(q), kept)
  {
    if gs != [] {
      assert gs[0] in gs;
      assert forall g :: g in gs[1..] ==> g in gs;
      hide NamesClean, Carries, RowOf, Alike, CountsRows;
      KeepGroupsHidden(sem, q, gs[1..]);
      RowHidden(sem, q, gs[0]);
      var aggs := OrNone(q.aggregate) + LiftedOf(q.having);
      var row := RowOf(sem, gs[0], q.groupBy, aggs);
      var rows, rest := RowsOf(sem, gs, q.groupBy, aggs), RowsOf(sem, gs[1..], q.groupBy, aggs);
      assert rows == [row] + rest && rows[1..] == rest;
      assert HideGroups(Below(q), gs)[1..] == HideGroups(Below(q), gs[1..]);
      if q.having.Some? {
        OutsideHaving(q);
        RowCarries(sem, q, gs[0]);
        LiftMeaning(sem, Added(q), row, Some(HideAll(Below(q), gs[0].rows)), q.having.value, true);
        var h := Lift(q.having.value, true);
        HideAllKeep(Added(q), sem.truthy(Evaluate(sem, row, h)), row, Filter(sem, rest, h));
      } else {
        HideAllKeep(Added(q), true, row, rest);
      }
    }
  }

  lemma OutsideHaving(q: Query)
    requires NamesClean(q) && q.having.Some?
    ensures Outside(q.having.value, Rows(q), true)
  {
  }

  lemma {:induction false} KeepRowsHidden(sem: Semantics, names: set<string>, rows: seq<Value>, e: Expr, lift: bool)
    requires Outside(e, names, lift) && (lift ==> Met(e) == [])
    ensures KeepRows(sem, HideAll(names, rows), e) == HideAll(names, Filter(sem, rows, Lift(e, lift)))
  {
    if rows != [] {
      KeepRowsHidden(sem, names, rows[1..], e, lift);
      LiftMeaning(sem, names, rows[0], None, e, lift);
      var h := Lift(e, lift);
      HideAllKeep(names, sem.truthy(Evaluate(sem, rows[0], h)), rows[0], Filter(sem, rows[1..], h));
      assert HideAll(names, rows)[1..] == HideAll(names, rows[1..]);
    }
  }

  // ----- the remaining clauses -----

  lemma {:induction false} BeforeHidden(sem: Semantics, names: set<string>, a: Value, b: Value, order: seq<Order>)
    requires forall o :: o in order ==> Avoids(o.field, names)
    ensures Before(sem, Hide(names, a), Hide(names, b), order) == Before(sem, a, b, order)
  {
    if order != [] {
      assert order[0] in order;
      assert forall o :: o in order[1..] ==> o in order;
      LookupHidden(sem, names, a, order[0].field);
      LookupHidden(sem, names, b, order[0].field);
      BeforeHidden(sem, names, a, b, order[1..]);
    }
  }

  lemma {:induction false} InsertHidden(sem: Semantics, names: set<string>, row: Value, sorted: seq<Value>,
                                        order: seq<Order>)
    requires forall o :: o in order ==> Avoids(o.field, names)
    ensures Sorting.Insert(RowOrder(sem, order), Hide(names, row), HideAll(names, sorted))
         == HideAll(names, Sorting.Insert(RowOrder(sem, order), row, sorted))
  {
    hide Before, Hide;
    if sorted != [] {
      BeforeHidden(sem, names, sorted[0], row, order);
      InsertHidden(sem, names, row, sorted[1..], order);
      assert HideAll(names, sorted)[1..] == HideAll(names, sorted[1..]);
      assert ([row] + sorted)[1..] == sorted;
    } else {
      assert [row][1..] == [];
    }
  }

  lemma {:induction false} SortHidden(sem: Semantics, names: set<string>, rows: seq<Value>, order: seq<Order>)
    requires forall o :: o in order ==> Avoids(o.field, names)
    ensures Sort(sem, HideAll(names, rows), order) == HideAll(names, Sort(sem, rows, order))
  {
    if rows != [] {
      SortHidden(sem, names, rows[1..], order);
      InsertHidden(sem, names, rows[0], Sort(sem, rows[1..], order), order);
    }
  }

  lemma {:induction false} HideAllAt(names: set<string>, rows: seq<Value>)
    ensures |HideAll(names, rows)| == |rows|
    ensures forall i :: 0 <= i < |rows| ==> HideAll(names, rows)[i] == Hide(names, rows[i])
  {
    if rows != [] {
      HideAllAt(names, rows[1..]);
    }
  }

  lemma SliceHidden(names: set<string>, rows: seq<Value>, offset: Option<nat>, limit: Option<nat>)
    ensures Slice(HideAll(names, rows), offset, limit) == HideAll(names, Slice(rows, offset, limit))
  {
    HideAllAt(names, rows);
    HideAllAt(names, Slice(rows, offset, limit));
  }

  lemma {:induction false} SelectHidden(sem: Semantics, names: set<string>, rows: seq<Value>, es: seq<Expr>)
    requires OutsideAll(es, names, false)
    ensures Select(sem, HideAll(names, rows), es) == Select(sem, rows, es)
  {
    if rows != [] {
      EvaluateAllHidden(sem, names, rows[0], es);
      SelectHidden(sem, names, rows[1..], es);
    }
  }

  lemma {:induction false} OutsideEach(es: seq<Expr>, names: set<string>, lift: bool)
    requires forall e :: e in es ==> Outside(e, names, lift)
    ensures OutsideAll(es, names, lift)
  {
    if es != [] {
      assert es[0] in es;
      assert forall e :: e in es[1..] ==> e in es;
      OutsideEach(es[1..], names, lift);
    }
  }

  lemma FinishHidden(sem: Semantics, q: Query, q': Query, names: set<string>, rows: seq<Value>)
    requires forall o :: o in OrNone(q.orderBy) ==> Avoids(o.field, names)
    requires forall e :: e in OrNone(q.select) ==> Outside(e, names, false)
    requires q'.orderBy == q.orderBy && q'.offset == q.offset && q'.limit == q.limit && q'.select == q.select
    ensures Finish(sem, q, HideAll(names, rows))
         == HideAll(if q.select.Some? then {} else names, Finish(sem, q', rows))
  {
    var sorted := if q.orderBy.Some? then Sort(sem, rows, q.orderBy.value) else rows;
    if q.orderBy.Some? {
      SortHidden(sem, names, rows, q.orderBy.value);
    }
    SliceHidden(names, sorted, q.offset, q.limit);
    if q.select.Some? {
      OutsideEach(q.select.value, names, false);
      SelectHidden(sem, names, Slice(sorted, q.offset, q.limit), q.select.value);
      HideAllNothing(Finish(sem, q', rows));
    }
  }

  // ----- the theorem -----

  lemma {:induction false} RewriteHasWhere(q: Query)
    ensures HasWhere(Rewrite(q)) <==> HasWhere(q)
  {
    if q.from.Some? {
      RewriteHasWhere(q.from.value);
    }
  }

  /** One level: the clauses after FROM, on rows whose hidden columns are those below. */
  lemma LevelPreserved(sem: Semantics, q: Query, base: seq<Value>, events: seq<Value>)
    requires HasWhere(q) && HasWhere(Rewrite(q)) && NamesClean(q) && CountsRows(sem)
    requires base == if q.from.Some? then Result(sem, Rewrite(q).from.value, events) else events
    requires (if q.from.Some? then Reference(sem, q.from.value, events) else events) == HideAll(Below(q), base)
    requires var filtered := Filter(sem, base, Rewrite(q).where.value);
      Grouped(q) ==> forall g :: g in Groups(sem, filtered, q.groupBy) ==> Alike(sem, g.rows, Mentioned(q))
    ensures Reference(sem, q, events) == HideAll(Hidden(q), Result(sem, Rewrite(q), events))
  {
    var q' := Rewrite(q);
    KeepRowsHidden(sem, Below(q), base, q.where.value, false);
    var filtered := Filter(sem, base, q'.where.value);
    LiftedNames(q);
    GroupingPreserved(sem, q, filtered);
    FinishHidden(sem, q, q', Rows(q), KeptOf(sem, q', filtered));
  }

  /** Rewriting preserves the result: the rows of the rewritten query are the rows of the query as written, in
      the same order, apart from the columns of the lifted aggregates. */
  lemma {:induction false} RewritePreserves(sem: Semantics, q: Query, events: seq<Value>)
    requires HasWhere(q) && HasWhere(Rewrite(q)) && Clean(q) && CountsRows(sem)
    ensures Reference(sem, q, events) == HideAll(Hidden(q), Result(sem, Rewrite(q), events))
  {
    var q' := Rewrite(q);
    var base := if q.from.Some? then Result(sem, q'.from.value, events) else events;
    if q.from.Some? {
      RewritePreserves(sem, q.from.value, events);
    } else {
      HideAllNothing(events);
    }
    var filtered := Filter(sem, base, q'.where.value);
    if Grouped(q) {
      forall g | g in Groups(sem, filtered, q.groupBy) ensures Alike(sem, g.rows, Mentioned(q)) {
        ConsistentIsAlike(sem, g.rows, Mentioned(q));
      }
    }
    LevelPreserved(sem, q, base, events);
  }

  /** The rows after HAVING. */
  function KeptOf(sem: Semantics, q: Query, filtered: seq<Value>): seq<Value> {
    var grouped := if q.aggregate.Some?
                   then RowsOf(sem, Groups(sem, filtered, q.groupBy), q.groupBy, q.aggregate.value) else filtered;
    if q.having.Some? then Filter(sem, grouped, q.having.value) else grouped
  }

  lemma GroupingPreserved(sem: Semantics, q: Query, filtered: seq<Value>)
    requires NamesClean(q) && CountsRows(sem)
    requires Grouped(q) ==> forall g :: g in Groups(sem, filtered, q.groupBy) ==> Alike(sem, g.rows, Mentioned(q))
    ensures var hidden := HideAll(Below(q), filtered);
            var kept := if Grouped(q) then KeepGroups(sem, Groups(sem, hidden, q.groupBy), q)
                        else if q.having.Some? then KeepRows(sem, hidden, q.having.value) else hidden;
      kept == HideAll(Rows(q), KeptOf(sem, Rewrite(q), filtered))
  {
    LiftedNames(q);
    if Grouped(q) {
      GroupsHidden(sem, Below(q), filtered, q.groupBy);
      KeepGroupsHidden(sem, q, Groups(sem, filtered, q.groupBy));
    } else if q.having.Some? {
      KeepRowsHidden(sem, Below(q), filtered, q.having.value, true);
    }
  }

  lemma HideAllCount(names: set<string>, rows: seq<Value>)
    ensures |HideAll(names, rows)| == |rows|
  {
    HideAllAt(names, rows);
  }

  /** `isSatisfied`: a query holds when it is valid and has a row, which does not depend on the rewriting. */
  lemma SatisfiedMeansReference(sem: Semantics, q: Query, events: seq<Value>)
    requires Clean(q) && Valid(Rewrite(q)) && CountsRows(sem)
    ensures HasWhere(q) && Execute(sem, q, events).Some?
    ensures |Execute(sem, q, events).value| == |Reference(sem, q, events)|
    ensures q.select.Some? ==> Execute(sem, q, events).value == Reference(sem, q, events)
  {
    ValidHasWhere(Rewrite(q));
    RewriteHasWhere(q);
    RewritePreserves(sem, q, events);
    HideAllCount(Hidden(q), Result(sem, Rewrite(q), events));
    HideAllNothing(Result(sem, Rewrite(q), events));
  }

  // ----- rewriting twice -----

  lemma {:induction false} LiftTwice(e: Expr, lift: bool)
    ensures Lift(Lift(e, lift), lift) == Lift(e, lift)
    ensures lift ==> Met(Lift(e, lift)) == []
    decreases e, 1
  {
    match e
    case Field(_) =>
    case Const(_) =>
    case Eval(_) =>
    case _ => if !(lift && IsAggregate(e.op)) { LiftAllTwice(e.args, lift); }
  }

  lemma {:induction false} LiftAllTwice(es: seq<Expr>, lift: bool)
    ensures LiftAll(LiftAll(es, lift), lift) == LiftAll(es, lift)
    ensures lift ==> MetAll(LiftAll(es, lift)) == []
    decreases es, 0
  {
    if es != [] {
      LiftTwice(es[0], lift);
      LiftAllTwice(es[1..], lift);
      assert LiftAll(es, lift)[1..] == LiftAll(es[1..], lift);
    }
  }

  /** Rewriting is idempotent. */
  lemma {:induction false} RewriteIdempotent(q: Query)
    ensures Rewrite(Rewrite(q)) == Rewrite(q)
  {
    if q.from.Some? {
      RewriteIdempotent(q.from.value);
    }
    if q.where.Some? {
      LiftTwice(q.where.value, false);
    }
    if q.having.Some? {
      LiftTwice(q.having.value, true);
    }
    var r := Rewrite(q).aggregate;
    assert r.Some? ==> r.value + [] == r.value;
  }

  // ----- grouping partitions the rows -----

  function WithKey(sem: Semantics, rows: seq<Value>, paths: seq<Path>, key: seq<Value>): seq<Value> {
    if rows == [] then []
    else
      var init, last := rows[..|rows| - 1], rows[|rows| - 1];
      WithKey(sem, init, paths, key) + if Key(sem, last, paths) == key then [last] else []
  }

  predicate HasKey(gs: seq<Group>, key: seq<Value>) { exists i :: 0 <= i < |gs| && gs[i].key == key }

  predicate DistinctKeys(gs: seq<Group>) { forall i, j :: 0 <= i < j < |gs| ==> gs[i].key != gs[j].key }

  function Count(gs: seq<Group>): nat { if gs == [] then 0 else |gs[0].rows| + Count(gs[1..]) }

  /** How the groups change with one more row. */
  predicate Joined(gs: seq<Group>, key: seq<Value>, row: Value, gs': seq<Group>) {
    && |gs'| == |gs| + (if HasKey(gs, key) then 0 else 1)
    && (forall i :: 0 <= i < |gs| ==> gs'[i] == Group(gs[i].key, gs[i].rows + if gs[i].key == key then [row] else []))
    && (!HasKey(gs, key) ==> gs'[|gs|] == Group(key, [row]))
  }

  lemma HasKeyRest(gs: seq<Group>, key: seq<Value>)
    requires gs != []
    ensures HasKey(gs, key) <==> gs[0].key == key || HasKey(gs[1..], key)
  {
    if HasKey(gs, key) && gs[0].key != key {
      var i :| 0 <= i < |gs| && gs[i].key == key;
      assert gs[1..][i - 1].key == key;
    }
    if HasKey(gs[1..], key) {
      var i :| 0 <= i < |gs[1..]| && gs[1..][i].key == key;
      assert gs[i + 1].key == key;
    }
  }

  lemma JoinedFirst(gs: seq<Group>, key: seq<Value>, row: Value)
    requires DistinctKeys(gs) && gs != [] && gs[0].key == key
    ensures Joined(gs, key, row, [Group(key, gs[0].rows + [row])] + gs[1..])
  {
    assert HasKey(gs, key);
    forall i | 0 < i < |gs| ensures gs[i].key != key && gs[i].rows + [] == gs[i].rows {
      assert gs[0].key != gs[i].key;
    }
  }

  lemma JoinedRest(gs: seq<Group>, key: seq<Value>, row: Value, rest': seq<Group>)
    requires gs != [] && gs[0].key != key && Joined(gs[1..], key, row, rest')
    ensures Joined(gs, key, row, [gs[0]] + rest')
  {
    HasKeyRest(gs, key);
    hide HasKey;
    var gs' := [gs[0]] + rest';
    assert gs[0].rows + [] == gs[0].rows;
    forall i | 0 <= i < |gs| ensures gs'[i] == Group(gs[i].key, gs[i].rows + if gs[i].key == key then [row] else []) {
      if i > 0 {
        assert gs[i] == gs[1..][i - 1];
      }
    }
  }

  /** Adding a row changes the rows of its own group only. */
  lemma {:induction false} AddRowAt(gs: seq<Group>, key: seq<Value>, row: Value)
    requires DistinctKeys(gs)
    ensures Joined(gs, key, row, AddRow(gs, key, row)) && Count(AddRow(gs, key, row)) == Count(gs) + 1
  {
    if gs == [] {
      assert AddRow(gs, key, row)[1..] == [];
    } else if gs[0].key == key {
      JoinedFirst(gs, key, row);
      assert AddRow(gs, key, row)[1..] == gs[1..];
    } else {
      hide Joined;
      AddRowAt(gs[1..], key, row);
      JoinedRest(gs, key, row, AddRow(gs[1..], key, row));
      assert AddRow(gs, key, row)[1..] == AddRow(gs[1..], key, row);
    }
  }

  predicate GroupIs(sem: Semantics, g: Group, rows: seq<Value>, paths: seq<Path>) {
    g.rows == WithKey(sem, rows, paths, g.key) && g.rows != []
  }

  lemma {:induction false} NoRowWithKey(sem: Semantics, rows: seq<Value>, paths: seq<Path>, key: seq<Value>)
    requires forall row :: row in rows ==> Key(sem, row, paths) != key
    ensures WithKey(sem, rows, paths, key) == []
  {
    if rows != [] {
      var init := rows[..|rows| - 1];
      assert rows[|rows| - 1] in rows;
      assert forall row :: row in init ==> row in rows;
      NoRowWithKey(sem, init, paths, key);
    }
  }

  /** gs is the partition of the rows by key. */
  predicate Partitions(sem: Semantics, gs: seq<Group>, rows: seq<Value>, paths: seq<Path>) {
    && DistinctKeys(gs)
    && (forall i :: 0 <= i < |gs| ==> GroupIs(sem, gs[i], rows, paths))
    && (forall row :: row in rows ==> HasKey(gs, Key(sem, row, paths)))
    && Count(gs) == |rows|
  }

  lemma JoinedGroupIs(sem: Semantics, gs: seq<Group>, rows: seq<Value>, paths: seq<Path>, row: Value, gs': seq<Group>,
                      i: nat)
    requires Partitions(sem, gs, rows, paths)
    requires Joined(gs, Key(sem, row, paths), row, gs') && i < |gs'|
    ensures GroupIs(sem, gs'[i], rows + [row], paths)
  {
    hide Key, HasKey;
    var key := Key(sem, row, paths);
    assert (rows + [row])[..|rows|] == rows;
    if i < |gs| {
      assert GroupIs(sem, gs[i], rows, paths);
    } else {
      forall r | r in rows ensures Key(sem, r, paths) != key {
        assert HasKey(gs, Key(sem, r, paths));
      }
      NoRowWithKey(sem, rows, paths, key);
      assert [] + [row] == [row];
    }
  }

  lemma JoinedHasKey(gs: seq<Group>, key: seq<Value>, row: Value, gs': seq<Group>, k: seq<Value>)
    requires Joined(gs, key, row, gs')
    ensures HasKey(gs, k) || k == key ==> HasKey(gs', k)
  {
    if HasKey(gs, k) {
      var i :| 0 <= i < |gs| && gs[i].key == k;
      assert gs'[i].key == k;
    } else if k == key {
      assert gs'[|gs|].key == k;
    }
  }

  lemma JoinedDistinct(gs: seq<Group>, key: seq<Value>, row: Value, gs': seq<Group>)
    requires DistinctKeys(gs) && Joined(gs, key, row, gs')
    ensures DistinctKeys(gs')
  {
    if !HasKey(gs, key) {
      assert forall i :: 0 <= i < |gs| ==> gs[i].key != key;
    }
  }

  lemma PartitionJoin(sem: Semantics, gs: seq<Group>, rows: seq<Value>, paths: seq<Path>, row: Value, gs': seq<Group>)
    requires Partitions(sem, gs, rows, paths)
    requires Joined(gs, Key(sem, row, paths), row, gs') && Count(gs') == Count(gs) + 1
    ensures Partitions(sem, gs', rows + [row], paths)
  {
    hide Key, HasKey, GroupIs, WithKey, Joined, Count;
    var key := Key(sem, row, paths);
    JoinedDistinct(gs, key, row, gs');
    forall i | 0 <= i < |gs'| ensures GroupIs(sem, gs'[i], rows + [row], paths) {
      JoinedGroupIs(sem, gs, rows, paths, row, gs', i);
    }
    forall r | r in rows + [row] ensures HasKey(gs', Key(sem, r, paths)) {
      assert r in rows || r == row;
      JoinedHasKey(gs, key, row, gs', Key(sem, r, paths));
    }
  }

  /** Grouping partitions the rows: the groups have different keys, each holds exactly the rows with its key, in
      their order, every row has its group, and the group sizes add up to the number of rows. */
  lemma {:induction false} GroupsPartition(sem: Semantics, rows: seq<Value>, paths: seq<Path>)
    ensures Partitions(sem, GroupRows(sem, rows, paths), rows, paths)
    decreases |rows|
  {
    hide Key, HasKey, GroupIs, Joined, AddRow;
    if rows != [] {
      var init, last := rows[..|rows| - 1], rows[|rows| - 1];
      var before := GroupRows(sem, init, paths);
      GroupsPartition(sem, init, paths);
      AddRowAt(before, Key(sem, last, paths), last);
      hide Partitions;
      PartitionJoin(sem, before, init, paths, last, GroupRows(sem, rows, paths));
      assert rows == init + [last];
    }
  }

  /** Field names with a dot can collide: of these two sums, over different options of an event, the rewriting keeps
      one, and both read its column. */
  lemma DottedNamesCollide()
    ensures var x, y := Aggregate("sum", [Field(["o", "a", "b"])]), Aggregate("sum", [Field(["o", "a.b"])]);
      && FieldOf(x.args) != FieldOf(y.args) && AliasOf(x) == AliasOf(y)
      && AddAll([], [x, y]) == [x]
  {
    var x, y := Aggregate("sum", [Field(["o", "a", "b"])]), Aggregate("sum", [Field(["o", "a.b"])]);
    assert ["o", "a", "b"][1..] == ["a", "b"] && ["a", "b"][1..] == ["b"] && ["o", "a.b"][1..] == ["a.b"];
    assert Join(["a", "b"], '.') == "a" + ['.'] + "b" == "a.b" == Join(["a.b"], '.');
    assert |FieldOf(x.args)| != |FieldOf(y.args)|;
    InKnows([x], x);
    assert [x, y][1..] == [y] && [y][1..] == [] && [] + [x] == [x];
    assert !Knows([], AliasOf(x));
    assert AddAll([], [x, y]) == AddAll([x], [y]) == AddAll([x], []);
  }

  // ----- the passes themselves -----

  lemma {:induction false} AddAllAppend(r: seq<Aggregate>, a: seq<Aggregate>, b: seq<Aggregate>)
    ensures AddAll(r, a + b) == AddAll(AddAll(r, a), b)
    decreases |a|
  {
    if a == [] {
      assert a + b == b;
    } else {
      assert (a + b)[1..] == a[1..] + b;
      AddAllAppend(AddNew(r, a[0]), a[1..], b);
    }
  }

  /** The accumulators of `rewrite`: the aggregates to append, and the aliases seen. */
  class Rewriter {
    var r: seq<Aggregate>
    var o: set<string>

    ghost predicate Accurate()
      reads this
    {
      forall name :: name in o <==> Knows(r, name)
    }

    constructor ()
      ensures r == [] && Accurate()
    {
      r, o := [], {};
    }

    /** The branch of `i` for an aggregate. */
    method Enter(a: Aggregate)
      requires Accurate()
      modifies this
      ensures Accurate() && r == AddNew(old(r), a)
    {
      var c := AliasOf(a);
      if c !in o {
        forall name ensures Knows(r + [a], name) <==> Knows(r, name) || name == c {
          KnowsAppend(r, a, name);
        }
        r := r + [a];
        o := o + {c};
      }
    }

    /** `i` */
    method Walk(e: Expr, s: bool) returns (e': Expr)
      requires Accurate()
      modifies this
      ensures Accurate() && e' == Lift(e, s)
      ensures r == if s then AddAll(old(r), Met(e)) else old(r)
      decreases e
    {
      hide Accurate, AddAll, AddNew;
      if e.Field? || e.Const? || e.Eval? {
        AddNone(r);
        return e;
      }
      if s && e.op in AGGREGATES {
        AddOne(r, Aggregate(e.op, e.args));
        Enter(Aggregate(e.op, e.args));
        return Field([Alias(e.op, FieldOf(e.args))]);
      }
      var l: seq<Expr> := [];
      var d := e.args;
      assert d[0..] == d && d[|d|..] == [] && LiftAll([], s) == [] && MetAll([]) == [];
      assert Lift(e, s) == Op(e.op, LiftAll(d, s)) && (s ==> Met(e) == MetAll(d));
      hide Lift, LiftAll, Met, MetAll;
      for f := 0 to |d|
        invariant Accurate()
        invariant l + LiftAll(d[f..], s) == LiftAll(d, s)
        invariant if s then AddAll(r, MetAll(d[f..])) == AddAll(old(r), MetAll(d)) else r == old(r)
      {
        WalkOne(d, f, s, l);
        AddAllAppend(r, Met(d[f]), MetAll(d[f + 1..]));
        var x := Walk(d[f], s);
        l := l + [x];
      }
      AddNone(r);
      return Op(e.op, l);
    }
  }

  /** One turn of the loop over the arguments, of which `l` are done. */
  lemma WalkOne(es: seq<Expr>, f: nat, lift: bool, l: seq<Expr>)
    requires f < |es|
    ensures l + LiftAll(es[f..], lift) == (l + [Lift(es[f], lift)]) + LiftAll(es[f + 1..], lift)
    ensures MetAll(es[f..]) == Met(es[f]) + MetAll(es[f + 1..])
  {
    assert es[f..][1..] == es[f + 1..];
    hide Lift, Met;
    assert LiftAll(es[f..], lift) == [Lift(es[f], lift)] + LiftAll(es[f + 1..], lift);
  }

  lemma AddNone(r: seq<Aggregate>)
    ensures AddAll(r, []) == r
  {
  }

  lemma AddOne(r: seq<Aggregate>, a: Aggregate)
    ensures AddAll(r, [a]) == AddNew(r, a)
  {
    assert [a][1..] == [];
    AddNone(AddNew(r, a));
  }

  lemma KnowsAppend(r: seq<Aggregate>, a: Aggregate, name: string)
    ensures Knows(r + [a], name) <==> Knows(r, name) || AliasOf(a) == name
  {
    if Knows(r, name) {
      var i :| 0 <= i < |r| && AliasOf(r[i]) == name;
      assert (r + [a])[i] == r[i];
    }
    assert (r + [a])[|r|] == a;
  }

  /** `rewrite` */
  method RewriteQuery(q: Query) returns (q': Query)
    ensures q' == Rewrite(q)
  {
    var w := new Rewriter();
    var where, having, from := q.where, q.having, q.from;
    var aggregate := q.aggregate;
    if q.where.Some? {
      var e := w.Walk(q.where.value, false);
      where := Some(e);
    }
    if q.having.Some? {
      var e := w.Walk(q.having.value, true);
      having := Some(e);
    }
    if q.aggregate.Some? || |w.r| > 0 {
      aggregate := Some(OrNone(q.aggregate) + w.r);
    }
    if q.from.Some? {
      var inner := RewriteQuery(q.from.value);
      from := Some(inner);
    }
    q' := Query(from, where, q.groupBy, aggregate, having, q.orderBy, q.select, q.offset, q.limit);
  }

  lemma {:induction false} AddRowFound(gs: seq<Group>, key: seq<Value>, row: Value, k: nat)
    requires k <= |gs| && forall i :: 0 <= i < k ==> gs[i].key != key
    requires k < |gs| ==> gs[k].key == key
    ensures AddRow(gs, key, row)
         == if k < |gs| then gs[k := Group(key, gs[k].rows + [row])] else gs + [Group(key, [row])]
  {
    if gs != [] && k > 0 {
      AddRowFound(gs[1..], key, row, k - 1);
    }
  }

  lemma {:induction false} KeyAppend(sem: Semantics, row: Value, paths: seq<Path>, p: Path)
    ensures Key(sem, row, paths + [p]) == Key(sem, row, paths) + [Lookup(sem, row, p)]
  {
    if paths == [] {
      assert paths + [p] == [p] && [p][1..] == [];
    } else {
      assert (paths + [p])[1..] == paths[1..] + [p];
      KeyAppend(sem, row, paths[1..], p);
    }
  }

  /** The inner loop of `_`. */
  method ComputeKey(sem: Semantics, row: Value, paths: seq<Path>) returns (key: seq<Value>)
    ensures key == Key(sem, row, paths)
  {
    key := [];
    for d := 0 to |paths|
      invariant key == Key(sem, row, paths[..d])
    {
      KeyAppend(sem, row, paths[..d], paths[d]);
      assert paths[..d + 1] == paths[..d] + [paths[d]];
      var g := Lookup(sem, row, paths[d]);
      key := key + [g];
    }
    assert paths[..|paths|] == paths;
  }

  method JoinGroup(gs: seq<Group>, key: seq<Value>, row: Value) returns (gs': seq<Group>)
    ensures gs' == AddRow(gs, key, row)
  {
    var k := 0;
    while k < |gs| && gs[k].key != key
      invariant k <= |gs| && forall i :: 0 <= i < k ==> gs[i].key != key
    {
      k := k + 1;
    }
    AddRowFound(gs, key, row, k);
    hide AddRow;
    if k < |gs| {
      gs' := gs[k := Group(key, gs[k].rows + [row])];
    } else {
      gs' := gs + [Group(key, [row])];
    }
  }

  /** `_`: the loop over the rows, each looking its group up by key. */
  method GroupTheRows(sem: Semantics, rows: seq<Value>, groupBy: Option<seq<Path>>) returns (gs: seq<Group>)
    ensures gs == Groups(sem, rows, groupBy)
  {
    hide AddRow, Key;
    if groupBy.None? || |groupBy.value| == 0 {
      return [Group([], rows)];
    }
    gs := [];
    for a := 0 to |rows|
      invariant gs == GroupRows(sem, rows[..a], groupBy.value)
    {
      var key := ComputeKey(sem, rows[a], groupBy.value);
      gs := JoinGroup(gs, key, rows[a]);
      assert rows[..a + 1][..a] == rows[..a];
    }
    assert rows[..|rows|] == rows;
  }

  /** `h`, for one group: its aggregate columns. */
  method ComputeColumns(sem: Semantics, rows: seq<Value>, aggs: seq<Aggregate>) returns (columns: map<string, Value>)
    ensures columns == AggregateColumns(sem, rows, aggs)
  {
    columns := map[];
    for o := 0 to |aggs|
      invariant columns == AggregateColumns(sem, rows, aggs[..o])
    {
      var s := aggs[o];
      if s.op in AGGREGATES {
        var c := FieldOf(s.args);
        columns := columns[Alias(s.op, c) := sem.aggregate(s.op, Column(sem, rows, c))];
      }
      assert aggs[..o + 1][..o] == aggs[..o];
    }
    assert aggs[..|aggs|] == aggs;
  }
}