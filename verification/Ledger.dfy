/** The scheduler's count of cores in use (systemInfo in system.py), against the list of
    grants that are outstanding. */
module Ledger {

  /** A successful apply_resources that has not been freed. */
  datatype Grant = Grant(parallelism: nat, notControl: bool)

  /** One call: ask for cores, or free one of the outstanding grants. */
  datatype Call = Apply(parallelism: nat, notControl: bool) | Free(k: nat)

  datatype Account = Account(cores: nat, used: int, outstanding: seq<Grant>)

  function Sum(grants: seq<Grant>): nat
    decreases |grants|
  {
    if grants == [] then 0 else grants[0].parallelism + Sum(grants[1..])
  }

  /** The grants made without looking at what is free. */
  function Uncontrolled(grants: seq<Grant>): nat
    decreases |grants|
  {
    if grants == [] then 0
    else (if grants[0].notControl then grants[0].parallelism else 0) + Uncontrolled(grants[1..])
  }

  predicate Accepts(a: Account, c: Call) {
    c.Apply? && (c.notControl || c.parallelism <= a.cores - a.used)
  }

  function Next(a: Account, c: Call): Account {
    match c
    case Apply(p, free) =>
      if Accepts(a, c) then Account(a.cores, a.used + p, a.outstanding + [Grant(p, free)]) else a
    case Free(k) =>
      if k < |a.outstanding|
      then Account(a.cores, a.used - a.outstanding[k].parallelism, a.outstanding[..k] + a.outstanding[k + 1..])
      else a
  }

  function Run(a: Account, calls: seq<Call>): Account
    decreases |calls|
  {
    if calls == [] then a else Run(Next(a, calls[0]), calls[1..])
  }

  ghost predicate Balanced(a: Account) {
    && a.used == Sum(a.outstanding)
    && a.used <= a.cores + Uncontrolled(a.outstanding)
  }

  lemma {:induction false} SumsSplit(a: seq<Grant>, b: seq<Grant>)
    ensures Sum(a + b) == Sum(a) + Sum(b)
    ensures Uncontrolled(a + b) == Uncontrolled(a) + Uncontrolled(b)
    decreases |a|
  {
    if a == [] {
      assert a + b == b;
    } else {
      assert (a + b)[1..] == a[1..] + b;
      SumsSplit(a[1..], b);
    }
  }

  lemma {:induction false} StepKeepsBalance(a: Account, c: Call)
    requires Balanced(a)
    ensures Balanced(Next(a, c))
  {
    match c
    case Apply(p, free) =>
      SumsSplit(a.outstanding, [Grant(p, free)]);
    case Free(k) =>
      if k < |a.outstanding| {
        var front, g, back := a.outstanding[..k], a.outstanding[k], a.outstanding[k + 1..];
        assert a.outstanding == front + ([g] + back);
        SumsSplit(front, [g] + back);
        SumsSplit([g], back);
        SumsSplit(front, back);
      }
  }

  /** Over every run, the cores in use are the outstanding grants, and they exceed the machine by
      no more than what was granted without control. */
  lemma {:induction false} RunsBalance(a: Account, calls: seq<Call>)
    requires Balanced(a)
    ensures Balanced(Run(a, calls)) && Run(a, calls).cores == a.cores
    decreases |calls|
  {
    if calls != [] {
      StepKeepsBalance(a, calls[0]);
      RunsBalance(Next(a, calls[0]), calls[1..]);
    }
  }

  lemma {:induction false} ControlledGrantsAddNothing(grants: seq<Grant>)
    requires forall i :: 0 <= i < |grants| ==> !grants[i].notControl
    ensures Uncontrolled(grants) == 0
    decreases |grants|
  {
    if grants != [] {
      ControlledGrantsAddNothing(grants[1..]);
    }
  }

  /** No call switches the control off. */
  predicate Controlled(calls: seq<Call>) {
    forall i :: 0 <= i < |calls| && calls[i].Apply? ==> !calls[i].notControl
  }

  lemma {:induction false} ControlledStaysControlled(a: Account, calls: seq<Call>)
    requires forall i :: 0 <= i < |a.outstanding| ==> !a.outstanding[i].notControl
    requires Controlled(calls)
    ensures forall i :: 0 <= i < |Run(a, calls).outstanding| ==> !Run(a, calls).outstanding[i].notControl
    decreases |calls|
  {
    if calls != [] {
      ControlledStaysControlled(Next(a, calls[0]), calls[1..]);
    }
  }

  /** With control on, a fresh ledger never counts more cores than the machine has. */
  lemma {:induction false} NeverOverCommits(a: Account, calls: seq<Call>)
    requires a.used == 0 && a.outstanding == [] && Controlled(calls)
    ensures 0 <= Run(a, calls).used <= a.cores
  {
    RunsBalance(a, calls);
    ControlledStaysControlled(a, calls);
    ControlledGrantsAddNothing(Run(a, calls).outstanding);
  }

  /** The object the scheduler's threads share; its count is balanced by some list of outstanding grants.  The
      parallelism of a call may be negative. */
  class SystemInfo {
    const cores: nat
    var coresUsed: int

    constructor (count: nat)
      ensures cores == count && coresUsed == 0
    {
      cores, coresUsed := count, 0;
    }

    method CheckResources() returns (free: int)
      ensures free == cores - coresUsed
    {
      free := cores - coresUsed;
    }

    method ApplyResources(parallelism: int, notControl: bool) returns (ok: bool)
      modifies this
      ensures ok == (notControl || parallelism <= cores - old(coresUsed))
      ensures coresUsed == old(coresUsed) + if ok then parallelism else 0
      ensures 0 <= parallelism && !notControl && old(coresUsed) <= cores ==> old(coresUsed) <= coresUsed <= cores
      ensures 0 <= parallelism ==>
                forall grants: seq<Grant> :: Balanced(Account(cores, old(coresUsed), grants)) ==>
                  Balanced(Account(cores, coresUsed, if ok then grants + [Grant(parallelism, notControl)] else grants))
    {
      if 0 <= parallelism {
        forall grants: seq<Grant> | Balanced(Account(cores, coresUsed, grants))
          ensures Balanced(Next(Account(cores, coresUsed, grants), Apply(parallelism, notControl)))
        {
          StepKeepsBalance(Account(cores, coresUsed, grants), Apply(parallelism, notControl));
        }
        hide Balanced;
      }
      if !notControl && parallelism > cores - coresUsed {
        return false;
      }
      coresUsed := coresUsed + parallelism;
      return true;
    }

    method FreeResources(parallelism: int)
      modifies this
      ensures coresUsed == old(coresUsed) - parallelism
      ensures forall grants: seq<Grant>, k: nat ::
                Balanced(Account(cores, old(coresUsed), grants)) && k < |grants| && grants[k].parallelism == parallelism
                ==> 0 <= coresUsed && Balanced(Account(cores, coresUsed, grants[..k] + grants[k + 1..]))
    {
      forall grants: seq<Grant>, k: nat
        | Balanced(Account(cores, coresUsed, grants)) && k < |grants| && grants[k].parallelism == parallelism
        ensures var a := Next(Account(cores, coresUsed, grants), Free(k)); 0 <= a.used && Balanced(a)
      {
        StepKeepsBalance(Account(cores, coresUsed, grants), Free(k));
      }
      hide Balanced;
      coresUsed := coresUsed - parallelism;
    }
  }
}
