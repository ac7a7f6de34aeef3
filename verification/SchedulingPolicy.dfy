/** How many threads a container gets, and what the ledger is charged for it:
    the allocations of the policies and one start request of the scheduler. */
module SchedulingPolicy {
  import opened Ledger

  datatype Policy = Strict | MaxProp | AlwaysAttend

  /** The inter-op and intra-op threads of a container; the empty list of the source is Nothing. */
  datatype Allocation = Nothing | Threads(inter: int, intra: int)

  function Total(a: Allocation): int {
    match a case Nothing => 0 case Threads(x, y) => x + y
  }

  /** Python's `round`: to the nearest integer, ties to the even one. */
  function RoundHalfEven(x: real): int {
    var f := x.Floor;
    var d := x - f as real;
    if d < 0.5 || (d == 0.5 && f % 2 == 0) then f else f + 1
  }

  /** Python's `int` on a real: truncation toward zero. */
  function Truncate(x: real): int {
    if x >= 0.0 then x.Floor else -((-x).Floor)
  }

  /** More than one inter-op thread is cut to one; the next line then adds that one, not the surplus. */
  function CutInter(inter: int, intra: int): Allocation {
    if inter > 1 then Threads(1, intra + 1) else Threads(inter, intra)
  }

  function AllocateStrict(available: int, inter: int, intra: int): Allocation {
    if inter + intra > 0 then
      if available >= inter + intra then CutInter(inter, intra) else Nothing
    else Threads(inter, intra)
  }

  function AllocateMaxProp(available: int, intra: int, maxPerContainer: int, factor: real): Allocation
    requires factor != 0.0
  {
    if available > 2 then
      var share := Truncate(intra as real / factor);
      var p := if share >= maxPerContainer then maxPerContainer else share;
      var q := if p == 0 then 1 else p;
      Threads(1, if q > available - 1 then available - 1 else q)
    else if available == 2 then Threads(1, 1)
    else Nothing
  }

  /** One kind's fraction of what was asked for, applied to the cores there are. */
  function Share(part: int, inter: int, intra: int, available: int): real
    requires inter + intra != 0
  {
    part as real / (inter + intra) as real * available as real
  }

  /** The split of too few cores in the proportion that was asked for. */
  function Proportional(available: int, inter: int, intra: int): (int, int)
    requires available >= 2 && inter + intra > available
  {
    if inter > 0 && intra > 0 then
      (RoundHalfEven(Share(inter, inter, intra, available)), RoundHalfEven(Share(intra, inter, intra, available)))
    else if inter > 0 then (available, 0)
    else (0, available)
  }

  /** At least one thread of each kind, moved from the other; then at most one inter-op thread, and
      the surplus computed after the cut is nothing. */
  function Adjust(i: int, j: int): Allocation {
    var (i1, j1) := if i == 0 then (i + 1, j - 1) else (i, j);
    var (i2, j2) := if j1 == 0 then (i1 - 1, j1 + 1) else (i1, j1);
    if i2 > 1 then Threads(1, j2) else Threads(i2, j2)
  }

  function AllocateAlways(available: int, inter: int, intra: int): Allocation {
    if available < 2 then Nothing
    else if inter + intra <= available then CutInter(inter, intra)
    else
      var shares := Proportional(available, inter, intra);
      Adjust(shares.0, shares.1)
  }

  function Allocate(policy: Policy, available: int, inter: int, intra: int, maxPerContainer: int, factor: real)
    : Allocation
    requires factor != 0.0
  {
    match policy
    case Strict => AllocateStrict(available, inter, intra)
    case MaxProp => AllocateMaxProp(available, intra, maxPerContainer, factor)
    case AlwaysAttend => AllocateAlways(available, inter, intra)
  }

  // ----- no policy hands out more than is there -----

  lemma RoundIsClose(x: real)
    ensures x - 0.5 <= RoundHalfEven(x) as real <= x + 0.5
    ensures RoundHalfEven(x) as real == x + 0.5 ==> RoundHalfEven(x) % 2 == 0
    ensures RoundHalfEven(x) as real == x - 0.5 ==> RoundHalfEven(x) % 2 == 0
  {
  }

  /** The pairs that two rounded shares of n can be. */
  predicate AreShares(i: int, j: int, n: int) {
    && 0 <= i <= n && 0 <= j <= n
    && (i == 0 ==> (j == n || j == n - 1) && (n == 2 ==> j == 2))
    && (i == 1 ==> j == n - 1)
    && (i >= 2 ==> j <= n - 1)
  }

  lemma AdjustFits(i: int, j: int, n: int)
    requires AreShares(i, j, n) && n >= 2
    ensures var a := Adjust(i, j);
            a.Threads? && a.inter == 1 && 1 <= a.intra && Total(a) <= n
  {
  }

  /** Two shares of n that add up to n: what each rounds to. */
  lemma SharesRound(x: real, y: real, n: int)
    requires 0.0 < x && 0.0 < y && x + y == n as real && n >= 2
    ensures AreShares(RoundHalfEven(x), RoundHalfEven(y), n)
  {
    RoundIsClose(x);
    RoundIsClose(y);
  }

  lemma {:induction false} ProportionalShares(available: int, inter: int, intra: int)
    requires available >= 2 && inter + intra > available && inter > 0 && intra > 0
    ensures var x, y := Share(inter, inter, intra, available), Share(intra, inter, intra, available);
            0.0 < x && 0.0 < y && x + y == available as real
  {
    var t, n := (inter + intra) as real, available as real;
    var a, b := inter as real / t, intra as real / t;
    SharesAddUp(inter as real, intra as real, t);
    assert a > 0.0 && b > 0.0;
    PositiveProduct(a, n);
    PositiveProduct(b, n);
    assert a * n + b * n == (a + b) * n;
  }

  lemma SharesAddUp(x: real, y: real, t: real)
    requires t > 0.0 && x + y == t
    ensures x / t + y / t == 1.0
  {
    var a := x / t;
    assert a * t == x;
    assert (1.0 - a) * t == y;
  }

  lemma PositiveProduct(x: real, y: real)
    requires x > 0.0 && y > 0.0
    ensures x * y > 0.0
  {
  }

  /** Rounding half to even may round both shares up, yet the cut to one inter-op thread keeps the
      sum within the cores available. */
  lemma {:induction false} AlwaysAttendFits(available: int, inter: int, intra: int)
    requires available >= 2 && inter + intra > available
    ensures var a := AllocateAlways(available, inter, intra);
            a.Threads? && a.inter == 1 && 1 <= a.intra && Total(a) <= available
  {
    hide Adjust, RoundHalfEven, Share;
    if inter > 0 && intra > 0 {
      ProportionalShares(available, inter, intra);
      SharesRound(Share(inter, inter, intra, available), Share(intra, inter, intra, available), available);
    }
    var shares := Proportional(available, inter, intra);
    AdjustFits(shares.0, shares.1, available);
  }

  lemma {:induction false} NeverOversubscribes(policy: Policy, available: int, inter: int, intra: int,
                                               maxPerContainer: int, factor: real)
    requires available >= 0 && factor != 0.0
    ensures Total(Allocate(policy, available, inter, intra, maxPerContainer, factor)) <= available
  {
    if policy == AlwaysAttend && available >= 2 && inter + intra > available {
      AlwaysAttendFits(available, inter, intra);
    }
  }

  /** A new container asks for at least one thread of each kind.  Whether it is served depends only on
      the cores available: "strict" needs all it asked for, the other two need two cores. */
  lemma {:induction false} ServedExactlyWhen(policy: Policy, available: int, inter: int, intra: int,
                                             maxPerContainer: int, factor: real)
    requires available >= 0 && inter >= 1 && intra >= 1 && factor > 0.0 && maxPerContainer >= 1
    ensures var a := Allocate(policy, available, inter, intra, maxPerContainer, factor);
            && (a.Threads? <==> if policy == Strict then available >= inter + intra else available >= 2)
            && (a.Threads? ==> a.inter == 1 && a.intra >= 1)
  {
    if policy == AlwaysAttend && available >= 2 && inter + intra > available {
      AlwaysAttendFits(available, inter, intra);
    }
  }

  /** The cut to one inter-op thread keeps the total asked for exactly when at most two were asked for. */
  lemma Quotient(intra: int, factor: real)
    requires intra >= 0 && factor > 0.0
    ensures var share := Truncate(intra as real / factor);
      share >= 0 && share as real * factor <= intra as real < (share + 1) as real * factor
  {
    var x := intra as real / factor;
    Scaled(x, intra as real, Truncate(x), factor);
  }

  lemma Scaled(x: real, a: real, share: int, factor: real)
    requires factor > 0.0 && x * factor == a && share as real <= x < (share + 1) as real
    ensures share as real * factor <= a < (share + 1) as real * factor
  {
    RealOrder(share as real, x, factor);
    RealOrder(x, (share + 1) as real, factor);
  }

  lemma RealOrder(x: real, y: real, f: real)
    requires f > 0.0
    ensures x <= y ==> x * f <= y * f
    ensures x < y ==> x * f < y * f
  {
  }

  lemma Fewer(m: int, n: int, factor: real)
    requires factor > 0.0 && m <= n
    ensures m as real * factor <= n as real * factor
  {
    RealOrder(m as real, n as real, factor);
  }

  /** With more than two cores, the proportional policy gives the largest number of threads that leaves a core, is
      within the limit and is at most what was asked for divided by the factor, but never none. */
  lemma {:induction false} MaxPropGrants(available: int, inter: int, intra: int, maxPerContainer: int, factor: real)
    requires available > 2 && intra >= 0 && maxPerContainer >= 1 && factor > 0.0
    ensures var a := Allocate(MaxProp, available, inter, intra, maxPerContainer, factor);
      && a.Threads? && a.inter == 1 && 1 <= a.intra <= available - 1
      && (a.intra == 1 || (a.intra <= maxPerContainer && a.intra as real * factor <= intra as real))
      && (a.intra == available - 1 || a.intra == maxPerContainer || (a.intra + 1) as real * factor > intra as real)
  {
    Quotient(intra, factor);
    var share := Truncate(intra as real / factor);
    var a := Allocate(MaxProp, available, inter, intra, maxPerContainer, factor);
    hide Truncate;
    assert a == AllocateMaxProp(available, intra, maxPerContainer, factor);
    var least := if share >= maxPerContainer then maxPerContainer else share;
    assert a.intra == if least == 0 then 1 else if least > available - 1 then available - 1 else least;
    if least > 0 {
      Fewer(a.intra, share, factor);
    }
    Fewer(share + 1, a.intra + (if a.intra < share then share - a.intra else 0) + 1, factor);
  }

  /** With too few cores, the intra-op threads are within one and a half of their share of the cores. */
  lemma {:induction false} AlwaysAttendIsProportional(available: int, inter: int, intra: int, maxPerContainer: int,
                                                      factor: real)
    requires available >= 2 && inter >= 1 && intra >= 1 && inter + intra > available && factor != 0.0
    ensures var a := Allocate(AlwaysAttend, available, inter, intra, maxPerContainer, factor);
            var share := intra as real / (inter + intra) as real * available as real;
      a.Threads? && a.inter == 1 && share - 1.5 <= a.intra as real <= share + 1.5
  {
    ProportionalShares(available, inter, intra);
    var x, y := Share(inter, inter, intra, available), Share(intra, inter, intra, available);
    SharesRound(x, y, available);
    RoundIsClose(y);
    AdjustNear(RoundHalfEven(x), RoundHalfEven(y), available);
    hide Share, RoundHalfEven, Adjust;
    assert Allocate(AlwaysAttend, available, inter, intra, maxPerContainer, factor)
        == Adjust(RoundHalfEven(x), RoundHalfEven(y));
  }

  lemma AdjustNear(i: int, j: int, n: int)
    requires AreShares(i, j, n) && n >= 2
    ensures Adjust(i, j).Threads? && Adjust(i, j).inter == 1 && j - 1 <= Adjust(i, j).intra <= j + 1
  {
  }

  lemma {:induction false} StrictGrantsInFull(available: int, inter: int, intra: int)
    requires inter >= 1 && intra >= 1 && available >= inter + intra
    ensures Total(AllocateStrict(available, inter, intra)) == inter + intra <==> inter <= 2
    ensures inter > 2 ==> Total(AllocateStrict(available, inter, intra)) == intra + 2
  {
  }

  // ----- reserve, allocate, release -----

  /** The resources schedule_resources sets aside for a start request on a controlled system. */
  function Reserved(policy: Policy, available: int, requested: int): int {
    if requested <= available then (if policy == MaxProp then available else requested) else available
  }

  /** The docker side of an attempt: enough memory, and a connection within five tries. */
  datatype Host = Host(memoryOk: bool, connected: bool)

  /** What one start request asks for, and the configured limits. */
  datatype Order = Order(policy: Policy, inter: int, intra: int, maxPerContainer: int, factor: real)

  /** The allocation of an attempt that found `available` cores. */
  function Offer(o: Order, available: int, host: Host): Allocation
    requires o.factor != 0.0
  {
    if host.memoryOk
    then Allocate(o.policy, Reserved(o.policy, available, o.inter + o.intra), o.inter, o.intra, o.maxPerContainer,
                  o.factor)
    else Nothing
  }

  /** The cores counted as used after an attempt: schedule_request gives back what the allocation left
      of the reservation, and the caller gives back the whole reservation of a failed attempt. */
  function UsedAfter(o: Order, cores: int, used: int, host: Host): int
    requires o.factor != 0.0
  {
    var reserved := Reserved(o.policy, cores - used, o.inter + o.intra);
    var a := Offer(o, cores - used, host);
    used + reserved
    - (if Total(a) != 0 && Total(a) < reserved then reserved - Total(a) else 0)
    - (if a.Threads? && host.connected then 0 else reserved)
  }

  /** One start request through schedule_resources, schedule_request and the caller's clean-up. */
  method AttendStart(sys: SystemInfo, o: Order, host: Host) returns (running: bool, a: Allocation)
    requires o.factor != 0.0 && o.inter + o.intra > 0 && sys.coresUsed <= sys.cores
    modifies sys
    ensures a == Offer(o, sys.cores - old(sys.coresUsed), host)
    ensures running == (a.Threads? && host.connected)
    ensures sys.coresUsed == UsedAfter(o, sys.cores, old(sys.coresUsed), host)
    ensures sys.coresUsed <= sys.cores
  {
    hide Allocate, Ledger.Next;
    var available := sys.CheckResources();
    var requested := o.inter + o.intra;
    var reserved := requested;
    var ok: bool;
    if requested <= available {
      if o.policy == MaxProp {
        ok := sys.ApplyResources(available, false);
        reserved := available;
      } else {
        ok := sys.ApplyResources(requested, false);
      }
    } else {
      ok := sys.ApplyResources(available, false);
      reserved := available;
    }
    NeverOversubscribes(o.policy, reserved, o.inter, o.intra, o.maxPerContainer, o.factor);
    running := false;
    var applied := 0;
    a := Nothing;
    if host.memoryOk {
      a := Allocate(o.policy, reserved, o.inter, o.intra, o.maxPerContainer, o.factor);
    }
    if a.Threads? {
      applied := a.inter + a.intra;
      running := host.connected;
    }
    if applied != 0 && applied < reserved {
      sys.FreeResources(reserved - applied);
    }
    if !running {
      sys.FreeResources(reserved);
    }
  }

  /** A container that starts is charged exactly the threads it runs with; an attempt that does not
      start it leaves the count alone exactly when nothing was allocated or the allocation used up the
      reservation.  Otherwise the connection failed and the unused part is given back twice. */
  lemma {:induction false} ChargedExactlyWhen(o: Order, cores: int, used: int, host: Host)
    requires o.factor > 0.0 && o.inter >= 1 && o.intra >= 1 && o.maxPerContainer >= 1 && used <= cores
    ensures var a := Offer(o, cores - used, host);
            var used' := UsedAfter(o, cores, used, host);
            && (a.Threads? && host.connected ==> used' == used + Total(a))
            && (!(a.Threads? && host.connected) ==>
                  (used' == used <==> a.Nothing? || Total(a) == Reserved(o.policy, cores - used, o.inter + o.intra)))
            && used' <= cores
  {
    hide Allocate;
    var reserved := Reserved(o.policy, cores - used, o.inter + o.intra);
    NeverOversubscribes(o.policy, reserved, o.inter, o.intra, o.maxPerContainer, o.factor);
    ServedExactlyWhen(o.policy, reserved, o.inter, o.intra, o.maxPerContainer, o.factor);
  }

  /** Six threads asked for, five allocated, no connection: an idle machine then counts -1 cores used. */
  lemma ReleasedTwice()
    ensures UsedAfter(Order(Strict, 3, 3, 8, 1.0), 8, 0, Host(true, false)) == -1
  {
  }

  // ----- runs of the scheduler -----

  /** The count of the ledger, and what each running container was started with. */
  datatype Books = Books(used: int, running: seq<int>)

  /** A start request is attended, or the container at place k finishes and its threads are given back. */
  datatype Event = Attend(order: Order, host: Host) | Finished(k: nat)

  /** At least one thread of each kind is asked for, and the limits are positive. */
  predicate IsOrder(o: Order) { o.factor > 0.0 && o.inter >= 1 && o.intra >= 1 && o.maxPerContainer >= 1 }

  predicate IsEvent(e: Event) { e.Attend? ==> IsOrder(e.order) }

  function Sum(xs: seq<int>): int { if xs == [] then 0 else Sum(xs[..|xs| - 1]) + xs[|xs| - 1] }

  function NextBooks(cores: int, b: Books, e: Event): Books
    requires IsEvent(e)
  {
    match e
    case Finished(k) =>
      if k < |b.running| then Books(b.used - b.running[k], b.running[..k] + b.running[k + 1..]) else b
    case Attend(o, host) =>
      var a := Offer(o, cores - b.used, host);
      Books(UsedAfter(o, cores, b.used, host),
            if a.Threads? && host.connected then b.running + [Total(a)] else b.running)
  }

  function RunBooks(cores: int, b: Books, events: seq<Event>): Books
    requires forall e :: e in events ==> IsEvent(e)
    decreases |events|
  {
    if events == [] then b
    else
      assert events[0] in events;
      RunBooks(cores, NextBooks(cores, b, events[0]), events[1..])
  }

  /** What an attempt gives back twice: the part of the reservation that its allocation left over, when the
      connection then fails. */
  function Leak(cores: int, b: Books, e: Event): int
    requires IsEvent(e)
  {
    if e.Finished? then 0
    else
      var a := Offer(e.order, cores - b.used, e.host);
      if a.Nothing? || e.host.connected then 0
      else Reserved(e.order.policy, cores - b.used, e.order.inter + e.order.intra) - Total(a)
  }

  function Leaks(cores: int, b: Books, events: seq<Event>): int
    requires forall e :: e in events ==> IsEvent(e)
    decreases |events|
  {
    if events == [] then 0
    else
      assert events[0] in events;
      Leak(cores, b, events[0]) + Leaks(cores, NextBooks(cores, b, events[0]), events[1..])
  }

  /** Every attempt whose connection failed had used up its reservation. */
  predicate NothingLeaks(cores: int, b: Books, events: seq<Event>)
    requires forall e :: e in events ==> IsEvent(e)
    decreases |events|
  {
    events == [] ||
      (assert events[0] in events;
       Leak(cores, b, events[0]) == 0 && NothingLeaks(cores, NextBooks(cores, b, events[0]), events[1..]))
  }

  /** Containers run with at least one thread, and the ledger never counts more cores than there are. */
  predicate Sound(cores: int, b: Books) {
    b.used <= cores && forall k :: 0 <= k < |b.running| ==> b.running[k] > 0
  }

  lemma {:induction false} SumWithout(xs: seq<int>, k: nat)
    requires k < |xs|
    ensures Sum(xs[..k] + xs[k + 1..]) == Sum(xs) - xs[k]
    decreases |xs|
  {
    var n := |xs| - 1;
    if k == n {
      assert xs[..k] + xs[k + 1..] == xs[..n];
    } else {
      SumWithout(xs[..n], k);
      assert (xs[..k] + xs[k + 1..])[..n - 1] == xs[..n][..k] + xs[..n][k + 1..];
    }
  }

  lemma SumSnoc(xs: seq<int>, x: int)
    ensures Sum(xs + [x]) == Sum(xs) + x
  {
    assert (xs + [x])[..|xs|] == xs;
  }

  /** One attempt: the count moves with the containers, but for what it leaks. */
  lemma AttendAccounts(cores: int, b: Books, o: Order, host: Host)
    requires IsOrder(o) && Sound(cores, b)
    ensures var e := Attend(o, host);
            var r := NextBooks(cores, b, e);
      && Sound(cores, r) && Leak(cores, b, e) >= 0
      && r.used - Sum(r.running) == b.used - Sum(b.running) - Leak(cores, b, e)
  {
    hide Allocate;
    var reserved := Reserved(o.policy, cores - b.used, o.inter + o.intra);
    NeverOversubscribes(o.policy, reserved, o.inter, o.intra, o.maxPerContainer, o.factor);
    ServedExactlyWhen(o.policy, reserved, o.inter, o.intra, o.maxPerContainer, o.factor);
    SumSnoc(b.running, Total(Offer(o, cores - b.used, host)));
    hide Sum;
  }

  lemma FinishAccounts(cores: int, b: Books, k: nat)
    requires Sound(cores, b)
    ensures var r := NextBooks(cores, b, Finished(k));
      Sound(cores, r) && r.used - Sum(r.running) == b.used - Sum(b.running)
  {
    if k < |b.running| {
      SumWithout(b.running, k);
    }
    hide Sum;
  }

  /** Over every run the ledger counts the threads of the running containers less what was given back twice. */
  lemma {:induction false} RunAccounts(cores: int, b: Books, events: seq<Event>)
    requires Sound(cores, b) && forall e :: e in events ==> IsEvent(e)
    ensures var r := RunBooks(cores, b, events);
      && Sound(cores, r) && Leaks(cores, b, events) >= 0
      && r.used - Sum(r.running) == b.used - Sum(b.running) - Leaks(cores, b, events)
      && (Leaks(cores, b, events) == 0 <==> NothingLeaks(cores, b, events))
    decreases |events|
  {
    if events != [] {
      assert events[0] in events;
      match events[0] {
        case Attend(o, host) => AttendAccounts(cores, b, o, host);
        case Finished(k) => FinishAccounts(cores, b, k);
      }
      hide NextBooks, Leak, Sound, Sum;
      RunAccounts(cores, NextBooks(cores, b, events[0]), events[1..]);
    }
  }

  /** From an idle machine, over every run of attempts and finishing containers: the ledger counts exactly the threads
      of the running containers if and only if every attempt whose connection failed had used up its reservation; and
      then they fit the machine. */
  lemma BalancedExactlyWhen(cores: nat, events: seq<Event>)
    requires forall e :: e in events ==> IsEvent(e)
    ensures var r := RunBooks(cores, Books(0, []), events);
      && (r.used == Sum(r.running) <==> NothingLeaks(cores, Books(0, []), events))
      && (NothingLeaks(cores, Books(0, []), events) ==> Sum(r.running) <= cores)
      && Sum(r.running) <= cores + Leaks(cores, Books(0, []), events)
  {
    RunAccounts(cores, Books(0, []), events);
  }

  // ----- the factor of "max_prop" -----

  datatype Kind = Start | Update | Restart | Finish | Resume | Pause

  /** Requests without an explicit parallelism carry -1 for both kinds. */
  datatype Request = Request(kind: Kind, inter: int, intra: int)

  predicate AsksForCores(r: Request) { r.kind == Start || r.kind == Resume || r.kind == Restart }

  function Demand(requests: seq<Request>): int
    decreases |requests|
  {
    if requests == [] then 0
    else Demand(requests[..|requests| - 1]) +
         var r := requests[|requests| - 1];
         if AsksForCores(r) then r.inter + r.intra else 0
  }

  /** Where the walk over a queue meets a request of another kind. */
  function FirstOther(requests: seq<Request>): (k: nat)
    ensures k <= |requests|
    ensures k < |requests| ==> !AsksForCores(requests[k])
    ensures forall i :: 0 <= i < k ==> AsksForCores(requests[i])
  {
    if requests == [] || !AsksForCores(requests[0]) then 0 else 1 + FirstOther(requests[1..])
  }

  /** The first-come-first-served policy: one queue of new requests, one of pending ones. */
  class Fcfs {
    var queue: seq<Request>
    var pending: seq<Request>
    var factor: real

    constructor ()
      ensures queue == [] && pending == [] && factor == 1.0
    {
      queue, pending, factor := [], [], 1.0;
    }

    /** Both queues are emptied into an auxiliary one and refilled, so a normal return leaves them as
        they were.  With containers running, another kind of request raises an AttributeError (the
        execution record has no get_request_id), and what was taken out by then is gone. */
    method CalculateFactorProp(available: int, containers: nat) returns (raised: bool)
      requires available > 0
      modifies this
      ensures raised <==> containers > 0
                          && (FirstOther(old(pending)) < |old(pending)| || FirstOther(old(queue)) < |old(queue)|)
      ensures !raised ==> pending == old(pending) && queue == old(queue)
      ensures !raised ==> var demand := Demand(old(pending)) + Demand(old(queue));
                          factor == if demand != 0 then demand as real / available as real else 1.0
      ensures raised ==> factor == old(factor)
      ensures raised ==> var k := FirstOther(old(pending));
                         if k < |old(pending)| then pending == old(pending)[k + 1..] && queue == old(queue)
                         else pending == old(pending) && queue == old(queue)[FirstOther(old(queue)) + 1..]
    {
      var left, total;
      raised, left, total := Walk(pending, containers);
      pending := left;
      if raised { return; }
      var more;
      raised, left, more := Walk(queue, containers);
      queue := left;
      if raised { return; }
      total := total + more;
      var newFactor := total as real / available as real;
      if newFactor != 0.0 {
        factor := newFactor;
      } else {
        factor := 1.0;
      }
    }

    /** One queue: taken out one by one into an auxiliary queue, and put back at the end. */
    static method Walk(before: seq<Request>, containers: nat) returns (raised: bool, q: seq<Request>, total: int)
      ensures raised <==> containers > 0 && FirstOther(before) < |before|
      ensures raised ==> q == before[FirstOther(before) + 1..]
      ensures !raised ==> q == before && total == Demand(before)
    {
      q := before;
      total := 0;
      var aux: seq<Request> := [];
      while q != []
        invariant |aux| + |q| == |before| && aux == before[..|aux|] && q == before[|aux|..]
        invariant total == Demand(aux)
        invariant containers > 0 ==> |aux| <= FirstOther(before)
        decreases |q|
      {
        var r := q[0];
        q := q[1..];
        assert (aux + [r])[..|aux|] == aux;
        if AsksForCores(r) {
          total := total + r.inter + r.intra;
        } else if containers > 0 {
          return true, q, total;
        }
        aux := aux + [r];
      }
      return false, aux, total;
    }
  }
}
