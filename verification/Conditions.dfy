/** Audience conditions: nested arrays with and/or/not heads over leaves that may be unknown.
    Answers are those of Kleene's strong logic. */
module Conditions {

  datatype Truth = False | Unknown | True

  /** A leaf is a string or a condition object; arrays nest. */
  datatype Condition = Text(s: string) | Object(id: int) | Node(items: seq<Condition>)

  datatype Operator = AND | OR | NOT

  type Leaves = Condition -> Truth

  // ----- dispatch -----

  /** The property name an array element is coerced to: a one-element array reads as its element. */
  function Key(c: Condition): string {
    match c
    case Text(s) => s
    case Object(_) => "[object Object]"
    case Node(items) => if |items| == 1 then Key(items[0]) else ","
  }

  /** The operator of a node; without one at the head, the whole array is an "or". */
  function Head(c: Condition): (Operator, nat)
    requires c.Node?
    ensures Head(c).1 <= |c.items|
  {
    if c.items == [] then (OR, 0)
    else
      var key := Key(c.items[0]);
      if key == "and" then (AND, 1)
      else if key == "or" then (OR, 1)
      else if key == "not" then (NOT, 1)
      else (OR, 0)
  }

  // ----- Kleene's strong three-valued tables -----

  function Both(a: Truth, b: Truth): Truth {
    if a == False || b == False then False else if a == Unknown || b == Unknown then Unknown else True
  }

  function Either(a: Truth, b: Truth): Truth {
    Negate(Both(Negate(a), Negate(b)))
  }

  function Negate(a: Truth): Truth {
    match a case False => True case Unknown => Unknown case True => False
  }

  function Eval(c: Condition, leaf: Leaves): Truth
    decreases c, if c.Node? then |c.items| + 1 else 0
  {
    if !c.Node? then leaf(c)
    else
      var (op, from) := Head(c);
      match op
      case AND => All(c, from, leaf)
      case OR => Any(c, from, leaf)
      case NOT => if |c.items| != 2 then False else Negate(Eval(c.items[1], leaf))
  }

  function All(c: Condition, from: nat, leaf: Leaves): Truth
    requires c.Node? && from <= |c.items|
    decreases c, |c.items| - from
  {
    if from == |c.items| then True else Both(Eval(c.items[from], leaf), All(c, from + 1, leaf))
  }

  function Any(c: Condition, from: nat, leaf: Leaves): Truth
    requires c.Node? && from <= |c.items|
    decreases c, |c.items| - from
  {
    if from == |c.items| then False else Either(Eval(c.items[from], leaf), Any(c, from + 1, leaf))
  }

  // ----- what a node means, by the element at its head -----

  /** The string itself, alone in any number of arrays. */
  predicate Reads(c: Condition, s: string) { c == Text(s) || (c.Node? && |c.items| == 1 && Reads(c.items[0], s)) }

  lemma {:induction false} KeyReads(c: Condition, s: string)
    requires s == "and" || s == "or" || s == "not"
    ensures Key(c) == s <==> Reads(c, s)
  {
    if c.Node? && |c.items| == 1 {
      KeyReads(c.items[0], s);
    }
  }

  predicate Everywhere(items: seq<Condition>, leaf: Leaves, truth: Truth) {
    forall i :: 0 <= i < |items| ==> Eval(items[i], leaf) == truth
  }

  predicate Somewhere(items: seq<Condition>, leaf: Leaves, truth: Truth) {
    exists i :: 0 <= i < |items| && Eval(items[i], leaf) == truth
  }

  predicate IsAll(answer: Truth, items: seq<Condition>, leaf: Leaves) {
    (answer == True <==> Everywhere(items, leaf, True)) && (answer == False <==> Somewhere(items, leaf, False))
  }

  predicate IsAny(answer: Truth, items: seq<Condition>, leaf: Leaves) {
    (answer == False <==> Everywhere(items, leaf, False)) && (answer == True <==> Somewhere(items, leaf, True))
  }

  lemma {:induction false} AllIsAll(c: Condition, from: nat, leaf: Leaves)
    requires c.Node? && from <= |c.items|
    ensures IsAll(All(c, from, leaf), c.items[from..], leaf)
    decreases |c.items| - from
  {
    if from < |c.items| {
      AllIsAll(c, from + 1, leaf);
      ItemsFrom(c.items, from);
      hide Eval;
      AllStep(c.items[from], c.items[from + 1..], leaf, All(c, from + 1, leaf));
    }
  }

  lemma {:induction false} AnyIsAny(c: Condition, from: nat, leaf: Leaves)
    requires c.Node? && from <= |c.items|
    ensures IsAny(Any(c, from, leaf), c.items[from..], leaf)
    decreases |c.items| - from
  {
    if from < |c.items| {
      AnyIsAny(c, from + 1, leaf);
      ItemsFrom(c.items, from);
      hide Eval;
      AnyStep(c.items[from], c.items[from + 1..], leaf, Any(c, from + 1, leaf));
    }
  }

  lemma ItemsFrom(items: seq<Condition>, from: nat)
    requires from < |items|
    ensures items[from..] == [items[from]] + items[from + 1..]
  {
  }

  lemma {:induction false} WithFirst(c: Condition, rest: seq<Condition>, leaf: Leaves, truth: Truth)
    ensures Everywhere([c] + rest, leaf, truth) <==> Eval(c, leaf) == truth && Everywhere(rest, leaf, truth)
    ensures Somewhere([c] + rest, leaf, truth) <==> Eval(c, leaf) == truth || Somewhere(rest, leaf, truth)
  {
    hide Eval;
    var items := [c] + rest;
    assert items[0] == c;
    if Everywhere(items, leaf, truth) {
      forall i | 0 <= i < |rest| ensures Eval(rest[i], leaf) == truth {
        assert items[i + 1] == rest[i];
      }
    }
    if i :| 0 <= i < |rest| && Eval(rest[i], leaf) == truth {
      assert items[i + 1] == rest[i];
    }
    assert forall i :: 0 < i < |items| ==> items[i] == rest[i - 1];
  }

  lemma {:induction false} AllStep(c: Condition, rest: seq<Condition>, leaf: Leaves, answer: Truth)
    requires IsAll(answer, rest, leaf)
    ensures IsAll(Both(Eval(c, leaf), answer), [c] + rest, leaf)
  {
    hide Eval, Everywhere, Somewhere;
    WithFirst(c, rest, leaf, True);
    WithFirst(c, rest, leaf, False);
  }

  lemma {:induction false} AnyStep(c: Condition, rest: seq<Condition>, leaf: Leaves, answer: Truth)
    requires IsAny(answer, rest, leaf)
    ensures IsAny(Either(Eval(c, leaf), answer), [c] + rest, leaf)
  {
    hide Eval, Everywhere, Somewhere;
    WithFirst(c, rest, leaf, True);
    WithFirst(c, rest, leaf, False);
  }

  /** An array whose first element reads "and", "or" or "not" is that operator on the other elements, where a "not"
      of anything but one is false; any other array is an "or" of all its elements. */
  lemma {:induction false} OperatorsAndDefault(items: seq<Condition>, leaf: Leaves)
    ensures var answer := Eval(Node(items), leaf);
      if items != [] && Reads(items[0], "and") then IsAll(answer, items[1..], leaf)
      else if items != [] && Reads(items[0], "or") then IsAny(answer, items[1..], leaf)
      else if items != [] && Reads(items[0], "not")
      then answer == if |items| == 2 then Negate(Eval(items[1], leaf)) else False
      else IsAny(answer, items, leaf)
  {
    var c := Node(items);
    assert items[0..] == items;
    AnyIsAny(c, 0, leaf);
    if items != [] {
      KeyReads(items[0], "and");
      KeyReads(items[0], "or");
      KeyReads(items[0], "not");
      AllIsAll(c, 1, leaf);
      AnyIsAny(c, 1, leaf);
    }
    hide IsAll, IsAny, Reads;
  }

  // ----- monotonicity in the information order -----

  predicate Refines(a: Truth, b: Truth) { a == Unknown || a == b }

  ghost predicate LeavesRefine(leaf: Leaves, leaf': Leaves) {
    forall c :: Refines(leaf(c), leaf'(c))
  }

  lemma {:induction false} EvalIsMonotone(c: Condition, leaf: Leaves, leaf': Leaves)
    requires LeavesRefine(leaf, leaf')
    ensures Refines(Eval(c, leaf), Eval(c, leaf'))
    decreases c, if c.Node? then |c.items| + 1 else 0
  {
    if c.Node? {
      var (op, from) := Head(c);
      match op
      case AND => AllIsMonotone(c, from, leaf, leaf');
      case OR => AnyIsMonotone(c, from, leaf, leaf');
      case NOT => if |c.items| == 2 { EvalIsMonotone(c.items[1], leaf, leaf'); }
    }
  }

  lemma {:induction false} AllIsMonotone(c: Condition, from: nat, leaf: Leaves, leaf': Leaves)
    requires LeavesRefine(leaf, leaf') && c.Node? && from <= |c.items|
    ensures Refines(All(c, from, leaf), All(c, from, leaf'))
    decreases c, |c.items| - from
  {
    if from < |c.items| {
      EvalIsMonotone(c.items[from], leaf, leaf');
      AllIsMonotone(c, from + 1, leaf, leaf');
    }
  }

  lemma {:induction false} AnyIsMonotone(c: Condition, from: nat, leaf: Leaves, leaf': Leaves)
    requires LeavesRefine(leaf, leaf') && c.Node? && from <= |c.items|
    ensures Refines(Any(c, from, leaf), Any(c, from, leaf'))
    decreases c, |c.items| - from
  {
    if from < |c.items| {
      EvalIsMonotone(c.items[from], leaf, leaf');
      AnyIsMonotone(c, from + 1, leaf, leaf');
    }
  }

  ghost predicate Total(leaf: Leaves) {
    forall c :: leaf(c) != Unknown
  }

  ghost predicate Completes(leaf: Leaves, total: Leaves) {
    LeavesRefine(leaf, total) && Total(total)
  }

  /** A definite answer is the answer of every completion of the unknown leaves. */
  lemma {:induction false} DefiniteAnswersAreFinal(c: Condition, leaf: Leaves, total: Leaves)
    requires Eval(c, leaf) != Unknown && Completes(leaf, total)
    ensures Eval(c, total) == Eval(c, leaf)
  {
    EvalIsMonotone(c, leaf, total);
  }

  /** With no unknown leaf the answer is definite. */
  lemma {:induction false} TotalIsDefinite(c: Condition, leaf: Leaves)
    requires Total(leaf)
    ensures Eval(c, leaf) != Unknown
    decreases c, if c.Node? then |c.items| + 1 else 0
  {
    if c.Node? {
      var (op, from) := Head(c);
      match op
      case AND => AllTotal(c, from, leaf);
      case OR => AnyTotal(c, from, leaf);
      case NOT => if |c.items| == 2 { TotalIsDefinite(c.items[1], leaf); }
    }
  }

  lemma {:induction false} AllTotal(c: Condition, from: nat, leaf: Leaves)
    requires Total(leaf) && c.Node? && from <= |c.items|
    ensures All(c, from, leaf) != Unknown
    decreases c, |c.items| - from
  {
    if from < |c.items| {
      TotalIsDefinite(c.items[from], leaf);
      AllTotal(c, from + 1, leaf);
    }
  }

  lemma {:induction false} AnyTotal(c: Condition, from: nat, leaf: Leaves)
    requires Total(leaf) && c.Node? && from <= |c.items|
    ensures Any(c, from, leaf) != Unknown
    decreases c, |c.items| - from
  {
    if from < |c.items| {
      TotalIsDefinite(c.items[from], leaf);
      AnyTotal(c, from + 1, leaf);
    }
  }

  // ----- when "unknown" is exact -----

  /** The leaves an evaluation may ask for under an even number of nots, or under an odd one. */
  function Signed(c: Condition, even: bool): set<Condition>
    decreases c, if c.Node? then |c.items| + 1 else 0
  {
    if !c.Node? then if even then {c} else {}
    else
      var (op, from) := Head(c);
      if op != NOT then SignedFrom(c, from, even)
      else if |c.items| != 2 then {}
      else Signed(c.items[1], !even)
  }

  function SignedFrom(c: Condition, from: nat, even: bool): set<Condition>
    requires c.Node? && from <= |c.items|
    decreases c, |c.items| - from
  {
    if from == |c.items| then {} else Signed(c.items[from], even) + SignedFrom(c, from + 1, even)
  }

  function Definite(b: bool): Truth { if b then True else False }

  /** An unknown value pushed towards b. */
  function Push(t: Truth, b: bool): Truth { if t == Unknown then Definite(b) else t }

  ghost predicate Pushes(leaf: Leaves, total: Leaves, xs: set<Condition>, b: bool) {
    forall x :: x in xs ==> total(x) == Push(leaf(x), b)
  }

  /** Pushing the unknown leaves towards b, and those under an odd number of nots the other way, pushes the answer
      towards b. */
  lemma {:induction false} EvalIsPushed(c: Condition, leaf: Leaves, total: Leaves, b: bool)
    requires Pushes(leaf, total, Signed(c, true), b) && Pushes(leaf, total, Signed(c, false), !b)
    ensures Eval(c, total) == Push(Eval(c, leaf), b)
    decreases c, if c.Node? then |c.items| + 1 else 0
  {
    if !c.Node? {
      assert c in Signed(c, true);
    } else {
      var (op, from) := Head(c);
      if op != NOT {
        FromIsPushed(c, from, leaf, total, b);
      } else if |c.items| == 2 {
        EvalIsPushed(c.items[1], leaf, total, !b);
      }
    }
  }

  lemma {:induction false} FromIsPushed(c: Condition, from: nat, leaf: Leaves, total: Leaves, b: bool)
    requires c.Node? && from <= |c.items|
    requires Pushes(leaf, total, SignedFrom(c, from, true), b) && Pushes(leaf, total, SignedFrom(c, from, false), !b)
    ensures All(c, from, total) == Push(All(c, from, leaf), b)
    ensures Any(c, from, total) == Push(Any(c, from, leaf), b)
    decreases c, |c.items| - from
  {
    if from < |c.items| {
      EvalIsPushed(c.items[from], leaf, total, b);
      FromIsPushed(c, from + 1, leaf, total, b);
    }
  }

  /** The unknown leaves that are asked for both ways. */
  ghost predicate TwoSided(c: Condition, leaf: Leaves, x: Condition) {
    x in Signed(c, true) && x in Signed(c, false) && leaf(x) == Unknown
  }

  ghost predicate OneSided(c: Condition, leaf: Leaves) {
    forall x :: x in Signed(c, true) && x in Signed(c, false) ==> leaf(x) != Unknown
  }

  function Pushed(c: Condition, leaf: Leaves, b: bool): Leaves {
    x => Push(leaf(x), if x in Signed(c, true) then b else !b)
  }

  lemma PushedCompletes(c: Condition, leaf: Leaves, b: bool)
    ensures Completes(leaf, Pushed(c, leaf, b))
    ensures OneSided(c, leaf) ==> Eval(c, Pushed(c, leaf, b)) == Push(Eval(c, leaf), b)
  {
    if OneSided(c, leaf) {
      EvalIsPushed(c, leaf, Pushed(c, leaf, b), b);
    }
  }

  ghost predicate Disagree(c: Condition, leaf: Leaves) {
    exists t1: Leaves, t2: Leaves :: Completes(leaf, t1) && Completes(leaf, t2) && Eval(c, t1) != Eval(c, t2)
  }

  /** If no unknown leaf is asked for both ways, "unknown" means exactly that completions disagree. */
  lemma ExactWhereOneSided(c: Condition, leaf: Leaves)
    requires OneSided(c, leaf)
    ensures Eval(c, leaf) == Unknown <==> Disagree(c, leaf)
  {
    if Eval(c, leaf) == Unknown {
      PushedCompletes(c, leaf, true);
      PushedCompletes(c, leaf, false);
    } else {
      forall t: Leaves | Completes(leaf, t) ensures Eval(c, t) == Eval(c, leaf) {
        DefiniteAnswersAreFinal(c, leaf, t);
      }
    }
  }

  /** The two-sided leaves are settled, in some way, and nothing else. */
  ghost predicate Settles(c: Condition, leaf: Leaves, settled: Leaves) {
    forall x :: if TwoSided(c, leaf, x) then settled(x) != Unknown else settled(x) == leaf(x)
  }

  /** However the two-sided leaves alone are settled, the answer is b. */
  ghost predicate DecidedByTwoSided(c: Condition, leaf: Leaves, b: bool) {
    forall settled: Leaves :: Settles(c, leaf, settled) ==> Eval(c, settled) == Definite(b)
  }

  /** What a completion gives the two-sided leaves. */
  ghost function SettledLike(c: Condition, leaf: Leaves, total: Leaves): Leaves {
    x => if TwoSided(c, leaf, x) then total(x) else leaf(x)
  }

  lemma DecidedIsAgreed(c: Condition, leaf: Leaves, b: bool, total: Leaves)
    requires DecidedByTwoSided(c, leaf, b) && Completes(leaf, total)
    ensures Eval(c, total) == Definite(b)
  {
    var settled := SettledLike(c, leaf, total);
    assert Settles(c, leaf, settled);
    EvalIsMonotone(c, settled, total);
  }

  lemma AgreedIsDecided(c: Condition, leaf: Leaves, b: bool, settled: Leaves)
    requires forall total: Leaves :: Completes(leaf, total) ==> Eval(c, total) == Definite(b)
    requires Settles(c, leaf, settled)
    ensures Eval(c, settled) == Definite(b)
  {
    assert OneSided(c, settled);
    forall way: bool ensures Eval(c, Pushed(c, settled, way)) == Definite(b) {
      PushedCompletes(c, settled, way);
      assert Completes(leaf, Pushed(c, settled, way));
    }
    PushedCompletes(c, settled, true);
    PushedCompletes(c, settled, false);
  }

  /** In general "unknown" is exact if and only if the two-sided leaves alone do not decide the condition: then two
      completions disagree, and otherwise none do. */
  lemma UnknownIsExactWhen(c: Condition, leaf: Leaves)
    ensures Disagree(c, leaf) <==> !DecidedByTwoSided(c, leaf, true) && !DecidedByTwoSided(c, leaf, false)
  {
    var t := Pushed(c, leaf, true);
    PushedCompletes(c, leaf, true);
    TotalIsDefinite(c, t);
    if !Disagree(c, leaf) {
      var b := Eval(c, t) == True;
      forall total: Leaves | Completes(leaf, total) ensures Eval(c, total) == Definite(b) {
        assert Eval(c, total) == Eval(c, t);
      }
      forall settled: Leaves | Settles(c, leaf, settled) ensures Eval(c, settled) == Definite(b) {
        AgreedIsDecided(c, leaf, b, settled);
      }
    } else {
      var t1: Leaves, t2: Leaves :| Completes(leaf, t1) && Completes(leaf, t2) && Eval(c, t1) != Eval(c, t2);
      forall b: bool | DecidedByTwoSided(c, leaf, b) ensures false {
        DecidedIsAgreed(c, leaf, b, t1);
        DecidedIsAgreed(c, leaf, b, t2);
      }
    }
  }

  /** The smallest case in which it is not: an unknown leaf and its negation. */
  lemma ExcludedMiddleIsUnknown(a: Condition, leaf: Leaves, total: Leaves)
    requires a.Object? && leaf(a) == Unknown && Completes(leaf, total)
    ensures var c := Node([Text("or"), a, Node([Text("not"), a])]);
            Eval(c, leaf) == Unknown && Eval(c, total) == True && TwoSided(c, leaf, a)
  {
    var n := Node([Text("not"), a]);
    var c := Node([Text("or"), a, n]);
    assert Head(n) == (NOT, 1) && Head(c) == (OR, 1);
    assert Eval(n, leaf) == Unknown && Eval(n, total) == Negate(total(a));
    assert Any(c, 3, leaf) == Any(c, 3, total) == False;
    assert Any(c, 2, leaf) == Unknown && Any(c, 2, total) == Negate(total(a));
    assert total(a) != Unknown;
    assert Signed(n, false) == {a} && Signed(c, true) == Signed(a, true) + SignedFrom(c, 2, true);
    assert SignedFrom(c, 2, false) == Signed(n, false) + SignedFrom(c, 3, false);
    assert Signed(c, false) == Signed(a, false) + SignedFrom(c, 2, false);
  }

  // ----- the code -----

  /** `evaluate`, with the early exits of its two loops. */
  method Evaluate(c: Condition, leaf: Leaves) returns (i: Truth)
    ensures i == Eval(c, leaf)
    decreases c, if c.Node? then |c.items| + 1 else 0
  {
    if c.Node? {
      var head := Head(c);
      match head.0
      case AND => i := EvaluateAnd(c, head.1, leaf);
      case OR => i := EvaluateOr(c, head.1, leaf);
      case NOT =>
        if 1 != |c.items| - 1 { return False; }
        i := Evaluate(c.items[1], leaf);
        i := Negate(i);
    } else {
      i := leaf(c);
    }
  }

  method EvaluateAnd(c: Condition, from: nat, leaf: Leaves) returns (result: Truth)
    requires c.Node? && from <= |c.items|
    ensures result == All(c, from, leaf)
    decreases c, |c.items| - from
  {
    var n := false;
    var r := from;
    while r < |c.items|
      invariant from <= r <= |c.items|
      invariant All(c, from, leaf) == Both(if n then Unknown else True, All(c, r, leaf))
    {
      var i := Evaluate(c.items[r], leaf);
      if i == False { return False; }
      if i == Unknown { n := true; }
      r := r + 1;
    }
    return if n then Unknown else True;
  }

  method EvaluateOr(c: Condition, from: nat, leaf: Leaves) returns (result: Truth)
    requires c.Node? && from <= |c.items|
    ensures result == Any(c, from, leaf)
    decreases c, |c.items| - from
  {
    var n := false;
    var r := from;
    while r < |c.items|
      invariant from <= r <= |c.items|
      invariant Any(c, from, leaf) == Either(if n then Unknown else False, Any(c, r, leaf))
    {
      var i := Evaluate(c.items[r], leaf);
      if i == True { return True; }
      if i == Unknown { n := true; }
      r := r + 1;
    }
    return if n then Unknown else False;
  }
}
