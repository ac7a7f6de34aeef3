/** Rendering: the segments of a paragraph become a tree of nodes, which is built in place along its rightmost
    path. */
module MarkupTree {
  import opened Text
  import opened Markup
  import Sorting

  /** What a node shows. */
  datatype Data = Link(href: string) | Mention(userId: string) | CodeData | DropCapData | EmData | StrongData
                | QuoteData(ids: seq<int>, start: int)

  /** Children are strings, or references to nodes. */
  datatype Child = Leaf(text: string) | Ref(node: nat)

  /** Node 0 stands for the array that is returned. */
  datatype Node = Node(data: Option<Data>, children: seq<Child>)

  /** An entry of the path: an item and the node made for it. */
  datatype Entry = Entry(item: Item, node: nat)

  /** `fe`: the node for an item; some kinds have none. */
  function Render(i: Item): Option<Data> {
    match i
    case DropCap(_) => Some(DropCapData)
    case Merged(start, ids) => Some(QuoteData(ids, start))
    case Own(m) =>
      match m.kind
      case A(anchor, href, userId) =>
        if anchor == LinkAnchor || anchor == NoAnchor then if href != "" then Some(Link(href)) else None
        else if anchor == UserAnchor && userId != "" then Some(Mention(userId))
        else None
      case Code => Some(CodeData)
      case Em => Some(EmData)
      case Strong => Some(StrongData)
      case Highlight => Some(QuoteData([], m.start))
      case HighlightSegment(ids) => Some(QuoteData(ids, m.start))
      case _ => None
  }

  /** `String.slice` */
  function Clamp(i: int, n: nat): nat {
    if i < 0 then (if n + i < 0 then 0 else n + i) else if i < n then i else n
  }

  function Slice(text: string, from: int, to: int): string {
    var a, b := Clamp(from, |text|), Clamp(to, |text|);
    if a < b then text[a..b] else ""
  }

  // ----- what a tree shows -----

  /** A stretch of text, and the nodes it lies under, from the outside in. */
  datatype Run = Run(path: seq<nat>, text: string)

  function Under(node: nat, runs: seq<Run>): (r: seq<Run>)
    ensures |r| == |runs|
  {
    seq(|runs|, i requires 0 <= i < |runs| => Run([node] + runs[i].path, runs[i].text))
  }

  /** The leaves below node i, in order, with the nodes on the way. */
  function Runs(nodes: seq<Node>, i: nat): seq<Run>
    decreases |nodes| - i, 0
  {
    if i < |nodes| then ChildRuns(nodes, i, nodes[i].children) else []
  }

  function ChildRuns(nodes: seq<Node>, i: nat, children: seq<Child>): seq<Run>
    requires i < |nodes|
    decreases |nodes| - i - 1, |children| + 2
  {
    if children == [] then []
    else ChildRuns(nodes, i, children[..|children| - 1]) + OneChild(nodes, i, children[|children| - 1])
  }

  function OneChild(nodes: seq<Node>, i: nat, c: Child): seq<Run>
    requires i < |nodes|
    decreases |nodes| - i - 1, 1
  {
    match c
    case Leaf(t) => [Run([], t)]
    case Ref(j) => if i < j < |nodes| then Under(j, Runs(nodes, j)) else []
  }

  // ----- the arena is a tree -----

  /** Every reference is the only one to its node, held by the parent of the node. */
  ghost predicate Wf(nodes: seq<Node>, parents: seq<nat>) {
    && |nodes| == |parents| > 0
    && (forall j :: 0 < j < |nodes| ==> parents[j] < j)
    && (forall i, k :: 0 <= i < |nodes| && 0 <= k < |nodes[i].children| && nodes[i].children[k].Ref?
          ==> ChildOf(parents, i, nodes[i].children[k].node))
    && (forall i :: 0 <= i < |nodes| ==> SingleRefs(nodes[i].children))
  }

  ghost predicate IsTree(nodes: seq<Node>) { exists parents :: Wf(nodes, parents) }

  predicate ChildOf(parents: seq<nat>, i: nat, j: nat) { i < j < |parents| && parents[j] == i }

  predicate SingleRefs(children: seq<Child>) {
    forall a, b :: 0 <= a < b < |children| && children[a].Ref? ==> children[a] != children[b]
  }

  /** i is v, or above it. */
  predicate Above(parents: seq<nat>, i: nat, v: nat)
    requires v < |parents|
    decreases v
  {
    i == v || (v > 0 && parents[v] < v && Above(parents, i, parents[v]))
  }

  lemma {:induction false} AboveUp(parents: seq<nat>, i: nat, j: nat, v: nat)
    requires v < |parents| && ChildOf(parents, i, j) && Above(parents, j, v)
    ensures Above(parents, i, v)
    decreases v
  {
    if j != v {
      AboveUp(parents, i, j, parents[v]);
    }
  }

  lemma {:induction false} AboveIsSmaller(parents: seq<nat>, i: nat, v: nat)
    requires v < |parents| && Above(parents, i, v)
    ensures i <= v
    decreases v
  {
    if i != v {
      AboveIsSmaller(parents, i, parents[v]);
    }
  }

  /** nodes' extends nodes, and differs from it only in node v. */
  predicate OnlyAt(nodes: seq<Node>, nodes': seq<Node>, v: nat) {
    |nodes| <= |nodes'| && forall i :: 0 <= i < |nodes| && i != v ==> nodes'[i] == nodes[i]
  }

  /** What lies below a node that is not above v does not change. */
  lemma {:induction false} Untouched(nodes: seq<Node>, parents: seq<nat>, nodes': seq<Node>, i: nat, v: nat)
    requires Wf(nodes, parents) && OnlyAt(nodes, nodes', v) && i < |nodes| && v < |nodes| && !Above(parents, i, v)
    ensures Runs(nodes', i) == Runs(nodes, i)
    decreases |nodes| - i, 0
  {
    UntouchedChildren(nodes, parents, nodes', i, v, |nodes[i].children|);
    assert nodes[i].children[..|nodes[i].children|] == nodes[i].children;
  }

  lemma {:induction false} UntouchedChildren(nodes: seq<Node>, parents: seq<nat>, nodes': seq<Node>, i: nat, v: nat,
                                             n: nat)
    requires Wf(nodes, parents) && OnlyAt(nodes, nodes', v) && i < |nodes| && v < |nodes| && !Above(parents, i, v)
    requires n <= |nodes[i].children|
    ensures ChildRuns(nodes', i, nodes[i].children[..n]) == ChildRuns(nodes, i, nodes[i].children[..n])
    decreases |nodes| - i - 1, n + 1
  {
    if n > 0 {
      var children := nodes[i].children[..n];
      assert children[..n - 1] == nodes[i].children[..n - 1];
      UntouchedChildren(nodes, parents, nodes', i, v, n - 1);
      var c := children[n - 1];
      if c.Ref? {
        assert ChildOf(parents, i, nodes[i].children[n - 1].node);
        if Above(parents, c.node, v) {
          AboveUp(parents, i, c.node, v);
        }
        Untouched(nodes, parents, nodes', c.node, v);
      }
    }
  }

  /** The rightmost path: every node is the last child of the one before. */
  predicate Rightmost(nodes: seq<Node>, chain: seq<nat>) {
    && chain != []
    && (forall k :: 0 <= k < |chain| ==> chain[k] < |nodes|)
    && (forall k :: 0 <= k < |chain| - 1 ==> LastChild(nodes, chain[k], chain[k + 1]))
  }

  predicate LastChild(nodes: seq<Node>, i: nat, j: nat) {
    i < |nodes| && nodes[i].children != [] && nodes[i].children[|nodes[i].children| - 1] == Ref(j)
  }

  /** No other child of the first node of a rightmost path is above its end. */
  lemma {:induction false} SiblingNotAbove(nodes: seq<Node>, parents: seq<nat>, chain: seq<nat>, u: nat)
    requires Wf(nodes, parents) && Rightmost(nodes, chain) && |chain| > 1
    requires ChildOf(parents, chain[0], u) && u != chain[1]
    ensures !Above(parents, u, chain[|chain| - 1])
    decreases |chain|
  {
    var n := |chain|;
    var v, w := chain[n - 1], chain[n - 2];
    assert LastChild(nodes, w, v);
    assert ChildOf(parents, w, v);
    if n == 2 {
      if Above(parents, u, w) {
        AboveIsSmaller(parents, u, w);
      }
    } else {
      var init := chain[..n - 1];
      forall k | 0 <= k < |init| - 1 ensures LastChild(nodes, init[k], init[k + 1]) {
        assert LastChild(nodes, chain[k], chain[k + 1]);
      }
      SiblingNotAbove(nodes, parents, init, u);
      if u == v {
        ChainRises(nodes, parents, init);
      }
    }
  }

  lemma {:induction false} ChainRises(nodes: seq<Node>, parents: seq<nat>, chain: seq<nat>)
    requires Wf(nodes, parents) && Rightmost(nodes, chain)
    ensures forall k :: 0 < k < |chain| ==> chain[0] < chain[k]
    decreases |chain|
  {
    if |chain| > 1 {
      var n := |chain|;
      var init := chain[..n - 1];
      forall k | 0 <= k < |init| - 1 ensures LastChild(nodes, init[k], init[k + 1]) {
        assert LastChild(nodes, chain[k], chain[k + 1]);
      }
      ChainRises(nodes, parents, init);
      assert LastChild(nodes, chain[n - 2], chain[n - 1]);
      assert ChildOf(parents, chain[n - 2], chain[n - 1]);
    }
  }

  // ----- a push at the end of the rightmost path -----

  function Push(nodes: seq<Node>, v: nat, c: Child): seq<Node>
    requires v < |nodes|
  {
    nodes[v := nodes[v].(children := nodes[v].children + [c])]
  }

  function UnderAll(path: seq<nat>, runs: seq<Run>): seq<Run>
    decreases |path|
  {
    if path == [] then runs else Under(path[0], UnderAll(path[1..], runs))
  }

  lemma UnderConcat(node: nat, a: seq<Run>, b: seq<Run>)
    ensures Under(node, a + b) == Under(node, a) + Under(node, b)
  {
  }

  lemma PushShowsHere(nodes: seq<Node>, parents: seq<nat>, v: nat, c: Child, nodes': seq<Node>)
    requires Wf(nodes, parents) && v < |nodes| && OnlyAt(nodes, nodes', v)
    requires nodes'[v].children == nodes[v].children + [c]
    ensures Runs(nodes', v) == Runs(nodes, v) + OneChild(nodes', v, c)
  {
    var children := nodes[v].children;
    assert (children + [c])[..|children|] == children;
    ChildrenBefore(nodes, parents, nodes', v, v, |children|);
    assert children[..|children|] == children;
  }

  /** A child pushed to the end of a rightmost path shows after everything else, under the nodes of the path. */
  lemma {:induction false} PushShows(nodes: seq<Node>, parents: seq<nat>, chain: seq<nat>, c: Child, nodes': seq<Node>)
    requires Wf(nodes, parents) && Rightmost(nodes, chain)
    requires OnlyAt(nodes, nodes', chain[|chain| - 1])
    requires nodes'[chain[|chain| - 1]].children == nodes[chain[|chain| - 1]].children + [c]
    ensures Runs(nodes', chain[0])
         == Runs(nodes, chain[0]) + UnderAll(chain[1..], OneChild(nodes', chain[|chain| - 1], c))
    decreases |chain|
  {
    var i, v := chain[0], chain[|chain| - 1];
    if |chain| == 1 {
      PushShowsHere(nodes, parents, v, c, nodes');
      assert chain[1..] == [];
    } else {
      var children := nodes[i].children;
      var n := |children|;
      var rest := chain[1..];
      var j := rest[0];
      forall k | 0 <= k < |rest| - 1 ensures LastChild(nodes, rest[k], rest[k + 1]) {
        assert LastChild(nodes, chain[k + 1], chain[k + 2]);
      }
      PushShows(nodes, parents, rest, c, nodes');
      assert LastChild(nodes, i, j);
      assert ChildOf(parents, i, j);
      SiblingsBefore(nodes, parents, nodes', chain, n - 1);
      ChainRises(nodes, parents, chain);
      var added := UnderAll(rest[1..], OneChild(nodes', v, c));
      var before := ChildRuns(nodes, i, children[..n - 1]);
      ShowsLast(nodes, i, j);
      ShowsLast(nodes', i, j);
      UnderConcat(j, Runs(nodes, j), added);
      hide Runs, ChildRuns, OneChild, Wf, Rightmost, OnlyAt, LastChild;
      assert before + (Under(j, Runs(nodes, j)) + Under(j, added))
          == (before + Under(j, Runs(nodes, j))) + Under(j, added);
      assert chain[1..] == rest && UnderAll(rest, OneChild(nodes', v, c)) == Under(j, added);
    }
  }

  lemma ShowsLast(nodes: seq<Node>, i: nat, j: nat)
    requires LastChild(nodes, i, j) && i < j < |nodes|
    ensures Runs(nodes, i)
         == ChildRuns(nodes, i, nodes[i].children[..|nodes[i].children| - 1]) + Under(j, Runs(nodes, j))
  {
    assert OneChild(nodes, i, Ref(j)) == Under(j, Runs(nodes, j));
  }

  /** The children of v itself: none of them is above v. */
  lemma {:induction false} ChildrenBefore(nodes: seq<Node>, parents: seq<nat>, nodes': seq<Node>, i: nat, v: nat,
                                          n: nat)
    requires Wf(nodes, parents) && OnlyAt(nodes, nodes', v) && i == v < |nodes| && n <= |nodes[i].children|
    ensures ChildRuns(nodes', i, nodes[i].children[..n]) == ChildRuns(nodes, i, nodes[i].children[..n])
    decreases n
  {
    if n > 0 {
      var children := nodes[i].children[..n];
      assert children[..n - 1] == nodes[i].children[..n - 1];
      ChildrenBefore(nodes, parents, nodes', i, v, n - 1);
      var c := nodes[i].children[n - 1];
      if c.Ref? {
        assert ChildOf(parents, i, c.node);
        if Above(parents, c.node, v) {
          AboveIsSmaller(parents, c.node, v);
        }
        Untouched(nodes, parents, nodes', c.node, v);
      }
    }
  }

  /** The children before the last one, on a path that goes on. */
  lemma {:induction false} SiblingsBefore(nodes: seq<Node>, parents: seq<nat>, nodes': seq<Node>, chain: seq<nat>,
                                          n: nat)
    requires Wf(nodes, parents) && Rightmost(nodes, chain) && |chain| > 1
    requires OnlyAt(nodes, nodes', chain[|chain| - 1])
    requires n < |nodes[chain[0]].children|
    ensures ChildRuns(nodes', chain[0], nodes[chain[0]].children[..n])
         == ChildRuns(nodes, chain[0], nodes[chain[0]].children[..n])
    decreases n
  {
    if n > 0 {
      var i := chain[0];
      var children := nodes[i].children;
      assert children[..n][..n - 1] == children[..n - 1];
      SiblingsBefore(nodes, parents, nodes', chain, n - 1);
      var c := children[n - 1];
      if c.Ref? {
        assert ChildOf(parents, i, c.node);
        assert LastChild(nodes, chain[0], chain[1]);
        assert c != children[|children| - 1];
        SiblingNotAbove(nodes, parents, chain, c.node);
        Untouched(nodes, parents, nodes', c.node, chain[|chain| - 1]);
      }
    }
  }

  lemma {:induction false} UnderAllNone(path: seq<nat>)
    ensures UnderAll(path, []) == []
  {
    if path != [] {
      UnderAllNone(path[1..]);
    }
  }

  lemma {:induction false} UnderAllOne(path: seq<nat>, text: string)
    ensures UnderAll(path, [Run([], text)]) == [Run(path, text)]
  {
    if path != [] {
      UnderAllOne(path[1..], text);
      assert [path[0]] + path[1..] == path;
    }
  }

  lemma PushWf(nodes: seq<Node>, parents: seq<nat>, v: nat, c: Child)
    requires Wf(nodes, parents) && v < |nodes|
    requires c.Ref? ==> ChildOf(parents, v, c.node) && forall i :: 0 <= i < |nodes| ==> c !in nodes[i].children
    ensures Wf(Push(nodes, v, c), parents)
  {
    var nodes' := Push(nodes, v, c);
    var old' := nodes[v].children;
    forall i, k | 0 <= i < |nodes'| && 0 <= k < |nodes'[i].children| && nodes'[i].children[k].Ref?
      ensures ChildOf(parents, i, nodes'[i].children[k].node)
    {
      if i == v && k == |old'| {
        assert nodes'[i].children[k] == c;
      } else {
        assert nodes'[i].children[k] == nodes[i].children[k];
        assert ChildOf(parents, i, nodes[i].children[k].node);
      }
    }
    forall i | 0 <= i < |nodes'| ensures SingleRefs(nodes'[i].children) {
      assert SingleRefs(nodes[i].children);
    }
  }

  lemma PushRightmost(nodes: seq<Node>, parents: seq<nat>, chain: seq<nat>, c: Child)
    requires Wf(nodes, parents) && Rightmost(nodes, chain)
    ensures Rightmost(Push(nodes, chain[|chain| - 1], c), chain)
  {
    var nodes' := Push(nodes, chain[|chain| - 1], c);
    forall k | 0 <= k < |chain| - 1 ensures LastChild(nodes', chain[k], chain[k + 1]) {
      assert LastChild(nodes, chain[k], chain[k + 1]);
      ChainRisesAt(nodes, parents, chain, k);
    }
  }

  lemma ChainRisesAt(nodes: seq<Node>, parents: seq<nat>, chain: seq<nat>, k: nat)
    requires Wf(nodes, parents) && Rightmost(nodes, chain) && k < |chain| - 1
    ensures chain[k] < chain[|chain| - 1]
  {
    var rest := chain[k..];
    forall m | 0 <= m < |rest| - 1 ensures LastChild(nodes, rest[m], rest[m + 1]) {
      assert LastChild(nodes, chain[k + m], chain[k + m + 1]);
    }
    ChainRises(nodes, parents, rest);
  }

  /** A string pushed at the end of the rightmost path. */
  lemma PushLeaf(nodes: seq<Node>, parents: seq<nat>, chain: seq<nat>, text: string)
    requires Wf(nodes, parents) && Rightmost(nodes, chain)
    ensures var nodes' := Push(nodes, chain[|chain| - 1], Leaf(text));
      && Wf(nodes', parents) && Rightmost(nodes', chain)
      && Runs(nodes', chain[0]) == Runs(nodes, chain[0]) + [Run(chain[1..], text)]
  {
    var nodes' := Push(nodes, chain[|chain| - 1], Leaf(text));
    PushWf(nodes, parents, chain[|chain| - 1], Leaf(text));
    PushRightmost(nodes, parents, chain, Leaf(text));
    PushShows(nodes, parents, chain, Leaf(text), nodes');
    UnderAllOne(chain[1..], text);
  }

  lemma GrowWf(nodes: seq<Node>, parents: seq<nat>, data: Option<Data>, v: nat)
    requires Wf(nodes, parents) && v < |nodes|
    ensures Wf(nodes + [Node(data, [])], parents + [v])
  {
    var nodes', parents' := nodes + [Node(data, [])], parents + [v];
    forall i, k | 0 <= i < |nodes'| && 0 <= k < |nodes'[i].children| && nodes'[i].children[k].Ref?
      ensures ChildOf(parents', i, nodes'[i].children[k].node)
    {
      assert ChildOf(parents, i, nodes[i].children[k].node);
    }
    forall i | 0 <= i < |nodes'| ensures SingleRefs(nodes'[i].children) {
      assert i < |nodes| ==> SingleRefs(nodes[i].children);
    }
  }

  lemma NewRefIsNew(nodes: seq<Node>, parents: seq<nat>, i: nat)
    requires Wf(nodes, parents) && i < |nodes|
    ensures Ref(|nodes|) !in nodes[i].children
  {
    forall k | 0 <= k < |nodes[i].children| ensures nodes[i].children[k] != Ref(|nodes|) {
      if nodes[i].children[k].Ref? {
        assert ChildOf(parents, i, nodes[i].children[k].node);
      }
    }
  }

  lemma GrowRightmost(nodes: seq<Node>, chain: seq<nat>, n: Node)
    requires Rightmost(nodes, chain)
    ensures Rightmost(nodes + [n], chain)
  {
    forall k | 0 <= k < |chain| - 1 ensures LastChild(nodes + [n], chain[k], chain[k + 1]) {
      assert LastChild(nodes, chain[k], chain[k + 1]);
    }
  }

  lemma NothingBelow(nodes: seq<Node>, i: nat, j: nat)
    requires i < |nodes| && j < |nodes| && nodes[j].children == []
    ensures OneChild(nodes, i, Ref(j)) == []
  {
    assert Runs(nodes, j) == [];
    assert |OneChild(nodes, i, Ref(j))| == 0;
  }

  /** A new node pushed at the end of the rightmost path: it prolongs the path and shows nothing yet. */
  lemma PushNode(nodes: seq<Node>, parents: seq<nat>, chain: seq<nat>, data: Option<Data>)
    requires Wf(nodes, parents) && Rightmost(nodes, chain)
    ensures var v := chain[|chain| - 1];
            var nodes' := Push(nodes + [Node(data, [])], v, Ref(|nodes|));
      && Wf(nodes', parents + [v]) && Rightmost(nodes', chain + [|nodes|])
      && Runs(nodes', chain[0]) == Runs(nodes, chain[0])
  {
    var v, j := chain[|chain| - 1], |nodes|;
    var grown := nodes + [Node(data, [])];
    var nodes' := Push(grown, v, Ref(j));
    GrowWf(nodes, parents, data, v);
    GrowRightmost(nodes, chain, Node(data, []));
    forall i | 0 <= i < |grown| ensures Ref(j) !in grown[i].children {
      if i < |nodes| {
        NewRefIsNew(nodes, parents, i);
      }
    }
    PushWf(grown, parents + [v], v, Ref(j));
    PushRightmost(grown, parents + [v], chain, Ref(j));
    PushShows(nodes, parents, chain, Ref(j), nodes');
    assert nodes'[j] == Node(data, []);
    NothingBelow(nodes', v, j);
    UnderAllNone(chain[1..]);
    assert Runs(nodes, chain[0]) + [] == Runs(nodes, chain[0]);
    var longer := chain + [j];
    forall k | 0 <= k < |longer| - 1 ensures LastChild(nodes', longer[k], longer[k + 1]) {
      if k < |chain| - 1 {
        assert LastChild(nodes', chain[k], chain[k + 1]);
      }
    }
  }

  // ----- which nodes a segment lies under -----

  /** How many entries of the previous path are used again. */
  function Matched(s: seq<Entry>, u: seq<Item>): (k: nat)
    ensures k <= |s| && k <= |u|
  {
    if s == [] || u == [] || s[0].item != u[0] then 0 else 1 + Matched(s[1..], u[1..])
  }

  function Fresh(u: seq<Item>, next: nat): seq<Entry> {
    if u == [] then []
    else if Render(u[0]).Some? then [Entry(u[0], next)] + Fresh(u[1..], next + 1)
    else Fresh(u[1..], next)
  }

  /** The new path: as much of the old one as agrees from the start, and new nodes, numbered from `next`, for the
      other items. */
  function NextPath(s: seq<Entry>, u: seq<Item>, next: nat): seq<Entry> {
    s[..Matched(s, u)] + Fresh(u[Matched(s, u)..], next)
  }

  datatype Layout = Layout(paths: seq<seq<Entry>>, next: nat)

  function Last(paths: seq<seq<Entry>>): seq<Entry> { if paths == [] then [] else paths[|paths| - 1] }

  /** The paths of all segments. */
  function Lay(segments: seq<Segment>): (l: Layout)
    ensures |l.paths| == |segments|
  {
    if segments == [] then Layout([], 1)
    else
      var before, u := Lay(segments[..|segments| - 1]), segments[|segments| - 1].items;
      Layout(before.paths + [NextPath(Last(before.paths), u, before.next)],
             before.next + |Fresh(u[Matched(Last(before.paths), u)..], before.next)|)
  }

  function Nodes(path: seq<Entry>): (n: seq<nat>)
    ensures |n| == |path|
  {
    seq(|path|, i requires 0 <= i < |path| => path[i].node)
  }

  function TextAt(text: string, segments: seq<Segment>, n: nat): string
    requires n < |segments|
  {
    var next := if n + 1 < |segments| then segments[n + 1] else segments[|segments| - 1];
    Slice(text, segments[n].point, next.point)
  }

  /** What the first n segments show. */
  function Shown(text: string, segments: seq<Segment>, paths: seq<seq<Entry>>, n: nat): (runs: seq<Run>)
    requires n <= |paths| && n <= |segments|
    ensures |runs| == n
  {
    seq(n, k requires 0 <= k < n => Run(Nodes(paths[k]), TextAt(text, segments, k)))
  }

  predicate Made(nodes: seq<Node>, path: seq<Entry>) {
    forall k :: 0 <= k < |path| ==>
      path[k].node < |nodes| && Render(path[k].item).Some? && nodes[path[k].node].data == Render(path[k].item)
  }

  predicate AllMade(nodes: seq<Node>, paths: seq<seq<Entry>>) {
    forall k :: 0 <= k < |paths| ==> Made(nodes, paths[k])
  }

  predicate SameData(nodes: seq<Node>, nodes': seq<Node>) {
    |nodes| <= |nodes'| && forall i :: 0 <= i < |nodes| ==> nodes'[i].data == nodes[i].data
  }

  lemma MadeStays(nodes: seq<Node>, nodes': seq<Node>, paths: seq<seq<Entry>>)
    requires AllMade(nodes, paths) && SameData(nodes, nodes')
    ensures AllMade(nodes', paths)
  {
    forall k | 0 <= k < |paths| ensures Made(nodes', paths[k]) {
      assert Made(nodes, paths[k]);
    }
  }

  // ----- building -----

  function Chain(path: seq<Entry>): (c: seq<nat>)
    ensures |c| == |path| + 1
  {
    [0] + Nodes(path)
  }

  lemma ChainPrefix(nodes: seq<Node>, path: seq<Entry>, k: nat)
    requires Rightmost(nodes, Chain(path)) && k <= |path|
    ensures Rightmost(nodes, Chain(path[..k]))
  {
    var long, short := Chain(path), Chain(path[..k]);
    assert forall i :: 0 <= i < |short| ==> short[i] == long[i];
    forall i | 0 <= i < |short| - 1 ensures LastChild(nodes, short[i], short[i + 1]) {
      assert LastChild(nodes, long[i], long[i + 1]);
    }
  }

  lemma ChainSnoc(path: seq<Entry>, e: Entry)
    ensures Chain(path + [e]) == Chain(path) + [e.node]
  {
  }

  /** One more item that agrees, or the first that does not. */
  lemma {:induction false} MatchedStep(s: seq<Entry>, u: seq<Item>, k: nat)
    requires k <= Matched(s, u) && k < |u|
    ensures k < Matched(s, u) <==> k < |s| && s[k].item == u[k]
  {
    if k > 0 {
      MatchedStep(s[1..], u[1..], k - 1);
    }
  }

  /** The arena is a tree, and c is its rightmost path. */
  ghost predicate Tip(nodes: seq<Node>, parents: seq<nat>, c: seq<Entry>) {
    Wf(nodes, parents) && Rightmost(nodes, Chain(c)) && Made(nodes, c)
  }

  lemma TipPrefix(nodes: seq<Node>, parents: seq<nat>, c: seq<Entry>, k: nat)
    requires Tip(nodes, parents, c) && k <= |c|
    ensures Tip(nodes, parents, c[..k])
  {
    ChainPrefix(nodes, c, k);
  }

  /** What a new node for item t, at the end of the path, makes of the arena. */
  function Grown(nodes: seq<Node>, c: seq<Entry>, t: Item): seq<Node>
    requires Chain(c)[|c|] < |nodes|
  {
    Push(nodes + [Node(Render(t), [])], Chain(c)[|c|], Ref(|nodes|))
  }

  lemma TipInside(nodes: seq<Node>, parents: seq<nat>, c: seq<Entry>)
    requires Tip(nodes, parents, c)
    ensures Chain(c)[|c|] < |nodes|
  {
  }

  lemma TipGrows(nodes: seq<Node>, parents: seq<nat>, c: seq<Entry>, t: Item)
    requires Tip(nodes, parents, c) && Render(t).Some? && Chain(c)[|c|] < |nodes|
    ensures var nodes' := Grown(nodes, c, t);
      && Tip(nodes', parents + [Chain(c)[|c|]], c + [Entry(t, |nodes|)])
      && SameData(nodes, nodes') && |nodes'| == |nodes| + 1 && Runs(nodes', 0) == Runs(nodes, 0)
  {
    PushNode(nodes, parents, Chain(c), Render(t));
    ChainSnoc(c, Entry(t, |nodes|));
    hide Wf, Rightmost, Runs, Chain;
    var nodes' := Grown(nodes, c, t);
    var c' := c + [Entry(t, |nodes|)];
    forall k | 0 <= k < |c'|
      ensures c'[k].node < |nodes'| && Render(c'[k].item).Some? && nodes'[c'[k].node].data == Render(c'[k].item)
    {
      if k < |c| {
        assert c'[k] == c[k];
      }
    }
  }

  lemma SameDataTrans(a: seq<Node>, b: seq<Node>, c: seq<Node>)
    requires SameData(a, b) && SameData(b, c)
    ensures SameData(a, c)
  {
  }

  /** Having followed the first n items from the path s, the path is c; `left` tells whether it has left s. */
  ghost predicate Following(nodes: seq<Node>, s: seq<Entry>, u: seq<Item>, n: nat, left: bool,
                            nodes': seq<Node>, parents': seq<nat>, c: seq<Entry>)
    requires n <= |u|
  {
    && Tip(nodes', parents', c) && SameData(nodes, nodes') && Runs(nodes', 0) == Runs(nodes, 0)
    && (!left ==> n <= Matched(s, u) && c == s[..n] && nodes' == nodes && Tip(nodes, parents', s))
    && (left ==>
          && NextPath(s, u, |nodes|) == c + Fresh(u[n..], |nodes'|)
          && |nodes'| + |Fresh(u[n..], |nodes'|)| == |nodes| + |Fresh(u[Matched(s, u)..], |nodes|)|)
  }

  lemma FollowReuses(nodes: seq<Node>, s: seq<Entry>, u: seq<Item>, n: nat, parents: seq<nat>, c: seq<Entry>)
    requires n < |u| && Following(nodes, s, u, n, false, nodes, parents, c)
    requires n < |s| && s[n].item == u[n]
    ensures Following(nodes, s, u, n + 1, false, nodes, parents, c + [s[n]])
    ensures Chain(c + [s[n]])[|c| + 1] == s[n].node < |nodes|
  {
    MatchedStep(s, u, n);
    TipPrefix(nodes, parents, s, n + 1);
    assert s[..n + 1] == s[..n] + [s[n]];
    ChainSnoc(c, s[n]);
    TipInside(nodes, parents, s[..n + 1]);
    hide Tip, Runs, Matched;
  }

  /** The item does not agree, or the path has left s before: from here on all nodes are new. */
  lemma FollowLeaves(nodes: seq<Node>, s: seq<Entry>, u: seq<Item>, n: nat, left: bool,
                     nodes': seq<Node>, parents': seq<nat>, c: seq<Entry>)
    requires n < |u| && Following(nodes, s, u, n, left, nodes', parents', c)
    requires left || n >= |s| || s[n].item != u[n]
    ensures Following(nodes, s, u, n, true, nodes', parents', c)
  {
    if !left {
      MatchedStep(s, u, n);
    }
    hide Tip, Runs, Matched, Fresh, SameData;
  }

  lemma FollowSkips(nodes: seq<Node>, s: seq<Entry>, u: seq<Item>, n: nat,
                    nodes': seq<Node>, parents': seq<nat>, c: seq<Entry>)
    requires n < |u| && Following(nodes, s, u, n, true, nodes', parents', c) && Render(u[n]).None?
    ensures Following(nodes, s, u, n + 1, true, nodes', parents', c)
  {
    assert u[n..][1..] == u[n + 1..] && u[n..][0] == u[n];
    assert Fresh(u[n..], |nodes'|) == Fresh(u[n + 1..], |nodes'|);
    hide Tip, Runs, Matched, SameData, Fresh;
  }

  lemma FollowGrows(nodes: seq<Node>, s: seq<Entry>, u: seq<Item>, n: nat,
                    nodes': seq<Node>, parents': seq<nat>, c: seq<Entry>)
    requires n < |u| && Following(nodes, s, u, n, true, nodes', parents', c) && Render(u[n]).Some?
    requires Chain(c)[|c|] < |nodes'|
    ensures Following(nodes, s, u, n + 1, true, Grown(nodes', c, u[n]), parents' + [Chain(c)[|c|]],
                      c + [Entry(u[n], |nodes'|)])
    ensures Chain(c + [Entry(u[n], |nodes'|)])[|c| + 1] == |nodes'| && |Grown(nodes', c, u[n])| == |nodes'| + 1
  {
    assert u[n..][1..] == u[n + 1..] && u[n..][0] == u[n];
    TipGrows(nodes', parents', c, u[n]);
    SameDataTrans(nodes, nodes', Grown(nodes', c, u[n]));
    ChainSnoc(c, Entry(u[n], |nodes'|));
    FreshRendered(u[n..], |nodes'|, c);
    hide Tip, Runs, Matched, SameData, Fresh, Render, Grown;
  }

  lemma FollowStarts(nodes: seq<Node>, parents: seq<nat>, s: seq<Entry>, u: seq<Item>)
    requires Tip(nodes, parents, s)
    ensures Following(nodes, s, u, 0, false, nodes, parents, []) && Chain([])[0] == 0 < |nodes|
  {
    TipPrefix(nodes, parents, s, 0);
    assert s[..0] == [];
    TipInside(nodes, parents, []);
  }

  lemma FollowEnds(nodes: seq<Node>, s: seq<Entry>, u: seq<Item>, left: bool,
                   nodes': seq<Node>, parents': seq<nat>, c: seq<Entry>)
    requires Following(nodes, s, u, |u|, left, nodes', parents', c)
    ensures c == NextPath(s, u, |nodes|)
    ensures |nodes'| == |nodes| + |Fresh(u[Matched(s, u)..], |nodes|)|
    ensures Tip(nodes', parents', c) && SameData(nodes, nodes') && Runs(nodes', 0) == Runs(nodes, 0)
  {
    assert u[|u|..] == [];
    assert c + [] == c;
    hide Tip, Runs, SameData;
  }

  /** The inner loop of `de`: the path of one segment, and its nodes. */
  method FollowPath(nodes: seq<Node>, ghost parents: seq<nat>, s: seq<Entry>, u: seq<Item>)
    returns (nodes': seq<Node>, ghost parents': seq<nat>, c: seq<Entry>, f: nat)
    requires Tip(nodes, parents, s)
    ensures c == NextPath(s, u, |nodes|)
    ensures |nodes'| == |nodes| + |Fresh(u[Matched(s, u)..], |nodes|)|
    ensures f == Chain(c)[|c|] < |nodes'|
    ensures Tip(nodes', parents', c) && SameData(nodes, nodes')
    ensures Runs(nodes', 0) == Runs(nodes, 0)
  {
    nodes', parents', c, f := nodes, parents, [], 0;
    var d := false;
    FollowStarts(nodes, parents, s, u);
    hide Following, Tip, Runs, Matched, Render, Fresh, NextPath, SameData, Chain;
    for n := 0 to |u|
      invariant Following(nodes, s, u, n, d, nodes', parents', c)
      invariant !d ==> c == s[..n] && n <= |s| && nodes' == nodes
      invariant f == Chain(c)[|c|] < |nodes'|
    {
      var t := u[n];
      if !d && n < |s| && s[n].item == t {
        FollowReuses(nodes, s, u, n, parents', c);
        c := c + [s[n]];
        f := s[n].node;
      } else {
        FollowLeaves(nodes, s, u, n, d, nodes', parents', c);
        d := true;
        var o := Render(t);
        if o.Some? {
          FollowGrows(nodes, s, u, n, nodes', parents', c);
          parents' := parents' + [f];
          c := c + [Entry(t, |nodes'|)];
          nodes', f := Push(nodes' + [Node(o, [])], f, Ref(|nodes'|)), |nodes'|;
        } else {
          FollowSkips(nodes, s, u, n, nodes', parents', c);
        }
      }
    }
    FollowEnds(nodes, s, u, d, nodes', parents', c);
  }

  lemma FreshRendered(u: seq<Item>, next: nat, c: seq<Entry>)
    requires u != [] && Render(u[0]).Some?
    ensures c + Fresh(u, next) == (c + [Entry(u[0], next)]) + Fresh(u[1..], next + 1)
    ensures |Fresh(u, next)| == 1 + |Fresh(u[1..], next + 1)|
  {
  }

  lemma TipLeaf(nodes: seq<Node>, parents: seq<nat>, c: seq<Entry>, text: string)
    requires Tip(nodes, parents, c) && Chain(c)[|c|] < |nodes|
    ensures var nodes' := Push(nodes, Chain(c)[|c|], Leaf(text));
      && Tip(nodes', parents, c) && SameData(nodes, nodes') && |nodes'| == |nodes|
      && Runs(nodes', 0) == Runs(nodes, 0) + [Run(Nodes(c), text)]
  {
    PushLeaf(nodes, parents, Chain(c), text);
    assert Chain(c)[1..] == Nodes(c);
    hide Wf, Rightmost, Runs;
  }

  /** The first n segments are laid out, and c is the path of the last of them. */
  ghost predicate LaidOut(text: string, segments: seq<Segment>, n: nat, nodes: seq<Node>, parents: seq<nat>,
                          c: seq<Entry>)
    requires n <= |segments|
  {
    var l := Lay(segments[..n]);
    && Tip(nodes, parents, c) && |nodes| == l.next && c == Last(l.paths) && AllMade(nodes, l.paths)
    && Runs(nodes, 0) == Shown(text, segments, l.paths, n)
  }

  lemma LayNext(segments: seq<Segment>, n: nat)
    requires n < |segments|
    ensures var before, u := Lay(segments[..n]), segments[n].items;
      Lay(segments[..n + 1]) == Layout(before.paths + [NextPath(Last(before.paths), u, before.next)],
             before.next + |Fresh(u[Matched(Last(before.paths), u)..], before.next)|)
  {
    assert segments[..n + 1][..n] == segments[..n];
  }

  lemma AllMadeNext(nodes: seq<Node>, paths: seq<seq<Entry>>, c: seq<Entry>)
    requires AllMade(nodes, paths) && Made(nodes, c)
    ensures AllMade(nodes, paths + [c])
  {
    hide Made;
  }

  lemma LayAdvances(text: string, segments: seq<Segment>, n: nat, nodes: seq<Node>, parents: seq<nat>, c: seq<Entry>,
                    nodes': seq<Node>, parents': seq<nat>, c': seq<Entry>)
    requires n < |segments| && LaidOut(text, segments, n, nodes, parents, c)
    requires c' == NextPath(c, segments[n].items, |nodes|)
    requires |nodes'| == |nodes| + |Fresh(segments[n].items[Matched(c, segments[n].items)..], |nodes|)|
    requires Tip(nodes', parents', c') && SameData(nodes, nodes') && Runs(nodes', 0) == Runs(nodes, 0)
    requires Chain(c')[|c'|] < |nodes'|
    ensures LaidOut(text, segments, n + 1, Push(nodes', Chain(c')[|c'|], Leaf(TextAt(text, segments, n))), parents', c')
  {
    var p := TextAt(text, segments, n);
    var nodes'' := Push(nodes', Chain(c')[|c'|], Leaf(p));
    var before := Lay(segments[..n]);
    LayNext(segments, n);
    TipLeaf(nodes', parents', c', p);
    SameDataTrans(nodes, nodes', nodes'');
    MadeStays(nodes, nodes'', before.paths);
    TipMade(nodes'', parents', c');
    ShownNext(text, segments, before.paths, c', n);
    AllMadeNext(nodes'', before.paths, c');
    hide Tip, Runs, Matched, Fresh, SameData, Lay, Made, AllMade, NextPath, Shown, Chain, Push, TextAt, Nodes;
  }

  /** `de`: the nodes, of which node 0 has the result as its children. */
  method Build(text: string, segments: seq<Segment>) returns (nodes: seq<Node>)
    ensures IsTree(nodes) && |nodes| == Lay(segments).next
    ensures Runs(nodes, 0) == Shown(text, segments, Lay(segments).paths, |segments|)
    ensures AllMade(nodes, Lay(segments).paths)
  {
    nodes := [Node(None, [])];
    ghost var parents: seq<nat> := [0];
    var c: seq<Entry> := [];
    assert Chain(c) == [0];
    for n := 0 to |segments|
      invariant LaidOut(text, segments, n, nodes, parents, c)
    {
      hide LaidOut, Tip, Runs, Matched, Fresh, SameData, Lay, NextPath;
      var next := if n + 1 < |segments| then segments[n + 1] else segments[|segments| - 1];
      var p := Slice(text, segments[n].point, next.point);
      LaidOutTip(text, segments, n, nodes, parents, c);
      var nodes', parents', c', f := FollowPath(nodes, parents, c, segments[n].items);
      LayAdvances(text, segments, n, nodes, parents, c, nodes', parents', c');
      nodes := Push(nodes', f, Leaf(p));
      parents, c := parents', c';
    }
    assert segments[..|segments|] == segments;
    assert Wf(nodes, parents);
  }

  lemma LaidOutTip(text: string, segments: seq<Segment>, n: nat, nodes: seq<Node>, parents: seq<nat>, c: seq<Entry>)
    requires n <= |segments| && LaidOut(text, segments, n, nodes, parents, c)
    ensures Tip(nodes, parents, c)
  {
  }

  lemma TipMade(nodes: seq<Node>, parents: seq<nat>, c: seq<Entry>)
    requires Tip(nodes, parents, c)
    ensures Made(nodes, c)
  {
  }

  lemma ShownNext(text: string, segments: seq<Segment>, paths: seq<seq<Entry>>, c: seq<Entry>, n: nat)
    requires n == |paths| < |segments|
    ensures Shown(text, segments, paths + [c], n + 1)
         == Shown(text, segments, paths, n) + [Run(Nodes(c), TextAt(text, segments, n))]
  {
  }

  // ----- what the tree shows is the text -----

  function Shows(runs: seq<Run>): string {
    if runs == [] then "" else Shows(runs[..|runs| - 1]) + runs[|runs| - 1].text
  }

  lemma {:induction false} ShownText(text: string, segments: seq<Segment>, paths: seq<seq<Entry>>, n: nat)
    requires n < |segments| && |paths| == |segments| && segments[0].point == 0
    requires forall i, j :: 0 <= i < j < |segments| ==> 0 <= segments[i].point < segments[j].point
    ensures Shows(Shown(text, segments, paths, n)) == text[..Clamp(segments[n].point, |text|)]
  {
    if n > 0 {
      ShownText(text, segments, paths, n - 1);
      var runs := Shown(text, segments, paths, n);
      assert runs[..n - 1] == Shown(text, segments, paths, n - 1);
      var a, b := Clamp(segments[n - 1].point, |text|), Clamp(segments[n].point, |text|);
      assert a <= b && text[..b] == text[..a] + text[a..b];
      assert TextAt(text, segments, n - 1) == text[a..b];
    }
  }

  /** The leaves of the rendered tree, read in order, are the text: for every text, with or without drop cap, and
      every set of overlapping markups and highlights without negative offsets. */
  lemma LeavesAreTheText(order: (Range, Range) -> int, text: string, markups: seq<Stored>, readers: seq<Reader>,
                         drop: nat)
    requires NonNegative(markups, readers)
    ensures var segments := Segments(order, |text|, markups, readers, drop);
      Shows(Shown(text, segments, Lay(segments).paths, |segments|)) == text
  {
    var segments := Segments(order, |text|, markups, readers, drop);
    if text != "" {
      SegmentPoints(order, |text|, markups, readers, drop);
      RisingPoints(segments, Points(|text|, AllRanges(|text|, markups, readers), drop));
      WholeText(text, segments, Lay(segments).paths);
    }
  }

  predicate Spans(segments: seq<Segment>, n: nat) {
    && segments != [] && segments[0].point == 0 && segments[|segments| - 1].point >= n
    && (forall i, j :: 0 <= i < j < |segments| ==> 0 <= segments[i].point < segments[j].point)
  }

  lemma RisingPoints(segments: seq<Segment>, points: seq<int>)
    requires |segments| == |points| > 0 && Rising(points) && points[0] == 0
    requires forall k :: 0 <= k < |segments| ==> segments[k].point == points[k]
    ensures forall i, j :: 0 <= i < j < |segments| ==> 0 <= segments[i].point < segments[j].point
  {
  }

  lemma WholeText(text: string, segments: seq<Segment>, paths: seq<seq<Entry>>)
    requires Spans(segments, |text|) && |paths| == |segments|
    ensures Shows(Shown(text, segments, paths, |segments|)) == text
  {
    var n := |segments| - 1;
    ShownText(text, segments, paths, n);
    var runs := Shown(text, segments, paths, n + 1);
    assert runs[..n] == Shown(text, segments, paths, n);
    assert TextAt(text, segments, n) == "";
    assert text[..|text|] == text && text + "" == text;
  }

  // ----- what a character lies under -----

  function Items(path: seq<Entry>): (u: seq<Item>)
    ensures |u| == |path|
  {
    seq(|path|, i requires 0 <= i < |path| => path[i].item)
  }

  /** The items that have a node. */
  function Rendered(u: seq<Item>): seq<Item> {
    if u == [] then [] else (if Render(u[0]).Some? then [u[0]] else []) + Rendered(u[1..])
  }

  lemma {:induction false} FreshItems(u: seq<Item>, next: nat)
    ensures Items(Fresh(u, next)) == Rendered(u)
  {
    if u != [] {
      if Render(u[0]).Some? {
        FreshItems(u[1..], next + 1);
      } else {
        FreshItems(u[1..], next);
        assert [] + Rendered(u[1..]) == Rendered(u[1..]);
      }
    }
  }

  predicate AllRendered(path: seq<Entry>) { forall k :: 0 <= k < |path| ==> Render(path[k].item).Some? }

  lemma {:induction false} NextPathItems(s: seq<Entry>, u: seq<Item>, next: nat)
    requires AllRendered(s)
    ensures Items(NextPath(s, u, next)) == Rendered(u)
  {
    if s == [] || u == [] || s[0].item != u[0] {
      FreshItems(u, next);
      assert u[0..] == u && s[..0] + Fresh(u, next) == Fresh(u, next);
    } else {
      var k := Matched(s[1..], u[1..]);
      NextPathItems(s[1..], u[1..], next);
      assert s[..k + 1] == [s[0]] + s[1..][..k];
      assert u[k + 1..] == u[1..][k..];
      assert NextPath(s, u, next) == [s[0]] + NextPath(s[1..], u[1..], next);
    }
  }

  lemma {:induction false} RenderedRender(u: seq<Item>)
    ensures forall k :: 0 <= k < |Rendered(u)| ==> Render(Rendered(u)[k]).Some?
    ensures forall i :: multiset(Rendered(u))[i] == if Render(i).Some? then multiset(u)[i] else 0
  {
    if u != [] {
      assert u == [u[0]] + u[1..];
      RenderedRender(u[1..]);
    }
  }

  lemma LastRendered(s: seq<Entry>, u: seq<Item>)
    requires Items(s) == Rendered(u)
    ensures AllRendered(s)
  {
    RenderedRender(u);
    hide Rendered, Render;
    forall k | 0 <= k < |s| ensures Render(s[k].item).Some? {
      assert Items(s)[k] == s[k].item;
    }
  }

  /** A segment's text lies under a node for each of its items that has one, in their order. */
  lemma {:induction false} PathItems(segments: seq<Segment>, n: nat)
    requires n < |segments|
    ensures Items(Lay(segments).paths[n]) == Rendered(segments[n].items)
    decreases |segments|
  {
    hide NextPath, Rendered, Matched, Fresh, Items;
    var init := segments[..|segments| - 1];
    if n < |init| {
      PathItems(init, n);
    } else {
      var s := Last(Lay(init).paths);
      if init != [] {
        PathItems(init, |init| - 1);
        LastRendered(s, init[|init| - 1].items);
      }
      NextPathItems(s, segments[n].items, Lay(init).next);
    }
  }

  lemma {:induction false} RenderedHighlights(u: seq<Item>, v: seq<Item>)
    ensures Highlights(Rendered(u) + v) == Highlights(u + v)
    decreases |u|
  {
    if u == [] {
      assert u + v == v && Rendered(u) + v == v;
    } else {
      var u', last := u[..|u| - 1], u[|u| - 1];
      RenderedSnoc(u', last);
      assert u' + [last] == u;
      if Render(last).Some? {
        RenderedHighlights(u', [last] + v);
        assert u' + ([last] + v) == u + v && Rendered(u') + ([last] + v) == Rendered(u) + v;
      } else {
        RenderedHighlights(u', v);
        HighlightsWithout(u', last, v);
        assert u + v == u' + [last] + v;
        assert Rendered(u) == Rendered(u') + [] == Rendered(u');
      }
    }
  }

  lemma {:induction false} RenderedSnoc(u: seq<Item>, i: Item)
    ensures Rendered(u + [i]) == Rendered(u) + if Render(i).Some? then [i] else []
  {
    hide Render;
    if u == [] {
      assert u + [i] == [i] && [i][1..] == [];
      assert [] + Rendered([]) == [] && [i] + Rendered([]) == [i];
    } else {
      assert (u + [i])[1..] == u[1..] + [i];
      RenderedSnoc(u[1..], i);
      var first := if Render(u[0]).Some? then [u[0]] else [];
      var last := if Render(i).Some? then [i] else [];
      assert Rendered(u + [i]) == first + (Rendered(u[1..]) + last) == (first + Rendered(u[1..])) + last;
    }
  }

  lemma {:induction false} HighlightsWithout(u: seq<Item>, i: Item, v: seq<Item>)
    requires !i.Merged?
    ensures Highlights(u + [i] + v) == Highlights(u + v)
    decreases |v|
  {
    if v == [] {
      assert u + [i] + v == u + [i] && u + v == u;
      assert (u + [i])[..|u|] == u;
    } else {
      var v', last := v[..|v| - 1], v[|v| - 1];
      HighlightsWithout(u, i, v');
      assert (u + [i] + v)[..|u| + |v|] == u + [i] + v';
      assert (u + v)[..|u| + |v| - 1] == u + v';
    }
  }

  /** A markup that covers x has one item in the path of x, and no other markup has any. */
  lemma MarkupCount(stored: seq<Stored>, sorted: seq<Range>, x: int, point: int, m: Range)
    requires multiset(sorted) == multiset(Ranges(stored))
    requires m in Ranges(stored) && !m.kind.FullHighlight? && Render(Own(m)).Some?
    ensures multiset(Rendered(Merge(Covering(sorted, x), point)))[Own(m)] == if Covers(m, x) then 1 else 0
  {
    RenderedRender(Merge(Covering(sorted, x), point));
    MergeOwns(Covering(sorted, x), point, m);
    CoveringCount(sorted, x, m);
    RangesDiffer(stored, m);
    assert m in multiset(Ranges(stored));
    hide Merge, Covering, Rendered, Render, Ranges, Covers;
  }

  lemma HighlightItem(ms: seq<Range>, point: int)
    ensures Highlights(Rendered(Merge(ms, point))) == if Ids(ms) == [] then [] else [Merged(point, Ids(ms))]
  {
    var u := Merge(ms, point);
    MergeHighlights(ms, point);
    RenderedHighlights(u, []);
    assert u + [] == u && Rendered(u) + [] == Rendered(u);
  }

  lemma CharacterShown(text: string, segments: seq<Segment>, k: nat, x: nat)
    requires x < |text| && k + 1 < |segments| && 0 <= segments[k].point <= x < segments[k + 1].point
    ensures var shown := TextAt(text, segments, k);
      x - segments[k].point < |shown| && shown[x - segments[k].point] == text[x]
  {
  }

  /** What the path of items of a character is to hold. */
  ghost predicate LiesUnder(items: seq<Item>, ms: seq<Range>, sorted: seq<Range>, x: int, point: int) {
    && (forall m :: m in ms && !m.kind.FullHighlight? && Render(Own(m)).Some?
          ==> multiset(items)[Own(m)] == if Covers(m, x) then 1 else 0)
    && Highlights(items) == if Ids(Covering(sorted, x)) == [] then [] else [Merged(point, Ids(Covering(sorted, x)))]
  }

  /** Without a drop cap, every character lies under exactly one node for each markup that covers it and has a
      node, under none for any other markup, and its highlight node, which it has when a highlight covers it, holds
      exactly the ids of the highlights that do. */
  lemma CharactersAreCovered(order: (Range, Range) -> int, text: string, markups: seq<Stored>, readers: seq<Reader>,
                             x: nat)
    returns (k: nat)
    requires x < |text| && NonNegative(markups, readers)
    ensures k < |Segments(order, |text|, markups, readers, 0)|
    ensures var segments, ms := Segments(order, |text|, markups, readers, 0), AllRanges(|text|, markups, readers);
            var shown := TextAt(text, segments, k);
      && 0 <= x - segments[k].point < |shown| && shown[x - segments[k].point] == text[x]
      && LiesUnder(Items(Lay(segments).paths[k]), ms, Sort(order, ms), x, segments[k].point)
  {
    hide *;
    AllRangesAre(|text|, markups, readers);
    var segments, stored := Segments(order, |text|, markups, readers, 0), markups + OfReaders(readers, |text|);
    var sorted := Sort(order, Ranges(stored));
    k := SegmentOf(order, |text|, markups, readers, 0, x);
    NoCapItems(Merge(Covering(sorted, x), segments[k].point), x);
    PathItems(segments, k);
    SortKeeps(order, Ranges(stored));
    UnderWhatCovers(stored, sorted, x, segments[k].point);
    PointNonNegative(order, text, markups, readers, k);
    CharacterShown(text, segments, k, x);
  }

  lemma NoCapItems(u: seq<Item>, x: int)
    ensures Cap(0, x) + u == u
  {
  }

  lemma AllRangesAre(n: nat, markups: seq<Stored>, readers: seq<Reader>)
    ensures AllRanges(n, markups, readers) == Ranges(markups + OfReaders(readers, n))
  {
  }

  lemma UnderWhatCovers(stored: seq<Stored>, sorted: seq<Range>, x: int, point: int)
    requires multiset(sorted) == multiset(Ranges(stored))
    ensures LiesUnder(Rendered(Merge(Covering(sorted, x), point)), Ranges(stored), sorted, x, point)
  {
    hide Merge, Covering, Rendered, Ids, Highlights, Render, Ranges, Covers;
    HighlightItem(Covering(sorted, x), point);
    forall m | m in Ranges(stored) && !m.kind.FullHighlight? && Render(Own(m)).Some?
      ensures multiset(Rendered(Merge(Covering(sorted, x), point)))[Own(m)] == if Covers(m, x) then 1 else 0
    {
      MarkupCount(stored, sorted, x, point, m);
    }
  }

  lemma PointNonNegative(order: (Range, Range) -> int, text: string, markups: seq<Stored>, readers: seq<Reader>, k: nat)
    requires text != "" && NonNegative(markups, readers) && k < |Segments(order, |text|, markups, readers, 0)|
    ensures Segments(order, |text|, markups, readers, 0)[k].point >= 0
  {
    SegmentPoints(order, |text|, markups, readers, 0);
    hide Segments, Points;
  }

  // ----- which nodes neighbouring segments share -----

  lemma {:induction false} FreshNodes(u: seq<Item>, next: nat)
    ensures forall i :: 0 <= i < |Fresh(u, next)| ==> next <= Fresh(u, next)[i].node < next + |Fresh(u, next)|
  {
    if u != [] {
      FreshNodes(u[1..], if Render(u[0]).Some? then next + 1 else next);
    }
  }

  lemma {:induction false} MatchedIsLongest(s: seq<Entry>, u: seq<Item>)
    ensures var k := Matched(s, u);
      && (forall i :: 0 <= i < k ==> s[i].item == u[i])
      && (k < |s| && k < |u| ==> s[k].item != u[k])
  {
    if s != [] && u != [] && s[0].item == u[0] {
      MatchedIsLongest(s[1..], u[1..]);
    }
  }

  lemma {:induction false} LayBounds(segments: seq<Segment>)
    ensures var l := Lay(segments);
      l.next > 0 && forall e :: e in Last(l.paths) ==> e.node < l.next
  {
    if segments != [] {
      var init, u := segments[..|segments| - 1], segments[|segments| - 1].items;
      LayBounds(init);
      var before := Lay(init);
      FreshNodes(u[Matched(Last(before.paths), u)..], before.next);
    }
  }

  lemma SharedNodes(s: seq<Entry>, u: seq<Item>, next: nat, i: nat)
    requires forall e :: e in s ==> e.node < next
    requires i < |s| && i < |NextPath(s, u, next)|
    ensures s[i].node == NextPath(s, u, next)[i].node <==> forall j :: 0 <= j <= i ==> j < |u| && s[j].item == u[j]
  {
    var k := Matched(s, u);
    MatchedIsLongest(s, u);
    FreshNodes(u[k..], next);
    hide Matched, Fresh;
    if i >= k {
      assert s[i] in s;
      assert NextPath(s, u, next)[i] == Fresh(u[k..], next)[i - k];
    }
  }

  lemma NeighbourPath(segments: seq<Segment>, n: nat) returns (next: nat)
    requires n + 1 < |segments|
    ensures Lay(segments).paths[n + 1] == NextPath(Lay(segments).paths[n], segments[n + 1].items, next)
    ensures forall e :: e in Lay(segments).paths[n] ==> e.node < next
  {
    hide Lay, NextPath, Matched, Fresh;
    LayPrefix(segments, n + 1);
    LayPrefix(segments, n + 2);
    LayNext(segments, n + 1);
    LayBounds(segments[..n + 1]);
    next := Lay(segments[..n + 1]).next;
    assert Lay(segments).paths[..n + 2][n + 1] == Lay(segments).paths[n + 1];
    assert Last(Lay(segments[..n + 1]).paths) == Lay(segments).paths[n];
  }

  /** Neighbouring segments share a node just when, from the outside in, what covers them has been the same up to
      there. */
  lemma NodesAreShared(segments: seq<Segment>, n: nat, i: nat)
    requires n + 1 < |segments|
    requires i < |Lay(segments).paths[n]| && i < |Lay(segments).paths[n + 1]|
    ensures var s, t := Lay(segments).paths[n], Lay(segments).paths[n + 1];
      s[i].node == t[i].node
      <==> forall j :: 0 <= j <= i ==> j < |segments[n + 1].items| && s[j].item == segments[n + 1].items[j]
  {
    hide Lay, NextPath;
    var next := NeighbourPath(segments, n);
    SharedNodes(Lay(segments).paths[n], segments[n + 1].items, next, i);
  }

  lemma {:induction false} LayPrefix(segments: seq<Segment>, n: nat)
    requires n <= |segments|
    ensures Lay(segments[..n]).paths == Lay(segments).paths[..n]
    decreases |segments|
  {
    if n < |segments| {
      var init := segments[..|segments| - 1];
      assert segments[..n] == init[..n];
      LayPrefix(init, n);
    } else {
      assert segments[..n] == segments;
    }
  }

  // ----- the nodes over a character, from the markups as they are stored -----

  /** The node of a markup of a kind; the full highlights have one together, and the other kinds have none. */
  function NodeFor(kind: Kind, start: int): multiset<Data> {
    match kind
    case Strong => multiset{StrongData}
    case Em => multiset{EmData}
    case Code => multiset{CodeData}
    case A(NoAnchor, href, _) => if href == "" then multiset{} else multiset{Link(href)}
    case A(LinkAnchor, href, _) => if href == "" then multiset{} else multiset{Link(href)}
    case A(UserAnchor, _, userId) => if userId == "" then multiset{} else multiset{Mention(userId)}
    case Highlight => multiset{QuoteData([], start)}
    case HighlightSegment(ids) => multiset{QuoteData(ids, start)}
    case _ => multiset{}
  }

  predicate Lies(m: Stored, x: int) {
    m.kind.Some? && m.start.Some? && m.end.Some? && m.start.value <= x < m.end.value
  }

  /** One node for each stored markup over x whose kind has one. */
  function NodesOver(markups: seq<Stored>, x: int): multiset<Data> {
    if markups == [] then multiset{}
    else
      var m := markups[|markups| - 1];
      NodesOver(markups[..|markups| - 1], x)
      + if Lies(m, x) then NodeFor(m.kind.value, m.start.value) else multiset{}
  }

  /** The highlights over x among the stored markups. */
  function StoredHighlights(markups: seq<Stored>, x: int): multiset<int> {
    if markups == [] then multiset{}
    else
      var m := markups[|markups| - 1];
      StoredHighlights(markups[..|markups| - 1], x)
      + if Lies(m, x) && m.kind.value.FullHighlight? then multiset{m.kind.value.highlight} else multiset{}
  }

  /** The highlight of a reader, if it is over x; one that goes on in the next paragraph, or has no end, ends before
      the last of the n characters. */
  function ReaderHighlight(r: Reader, n: nat, x: int): multiset<int> {
    var end := if r.ends && r.endOffset.Some? && r.endOffset.value != 0 then r.endOffset.value else n - 1;
    if (if r.startOffset.Some? then r.startOffset.value else 0) <= x < end then multiset{r.id} else multiset{}
  }

  function ReaderHighlights(readers: seq<Reader>, n: nat, x: int): multiset<int> {
    if readers == [] then multiset{}
    else ReaderHighlights(readers[..|readers| - 1], n, x) + ReaderHighlight(readers[|readers| - 1], n, x)
  }

  predicate OnNodes(nodes: seq<Node>, path: seq<nat>) {
    forall i :: 0 <= i < |path| ==> path[i] < |nodes| && nodes[path[i]].data.Some?
  }

  /** What the nodes of a path are, from the outside in. */
  function DataAlong(nodes: seq<Node>, path: seq<nat>): (d: seq<Data>)
    requires OnNodes(nodes, path)
    ensures |d| == |path|
  {
    seq(|path|, i requires 0 <= i < |path| => nodes[path[i]].data.value)
  }

  function Depth(d: Data): nat {
    match d
    case DropCapData => 0
    case QuoteData(_, _) => 1
    case CodeData => 2
    case Link(_) => 3
    case Mention(_) => 3
    case StrongData => 4
    case EmData => 5
  }

  /** Quotes are outside code, code is outside links, links are outside strong and strong is outside emphasis. */
  predicate Outward(data: seq<Data>) { forall i, j :: 0 <= i < j < |data| ==> Depth(data[i]) <= Depth(data[j]) }

  /** The node of the highlights over a character, in the leaf that begins at `start`. */
  function QuoteOf(ids: seq<int>, start: int): multiset<Data> {
    if ids == [] then multiset{} else multiset{QuoteData(ids, start)}
  }

  /** Character x is in leaf k of the nodes, and what that leaf lies under is said by the stored markups, the readers
      and the drop cap alone. */
  ghost predicate LeafOver(nodes: seq<Node>, order: (Range, Range) -> int, n: nat, markups: seq<Stored>,
                           readers: seq<Reader>, drop: nat, x: nat, k: nat, ids: seq<int>)
  {
    var runs := Runs(nodes, 0);
    && k < |runs| && |Shows(runs[..k])| <= x < |Shows(runs[..k])| + |runs[k].text|
    && OnNodes(nodes, runs[k].path)
    && var data := DataAlong(nodes, runs[k].path);
    if drop > 0 && k == 0 then data == [DropCapData]
    else
      && multiset(ids) == StoredHighlights(markups, x) + ReaderHighlights(readers, n, x)
      && multiset(data) == (if x < drop then multiset{DropCapData} else multiset{})
                           + NodesOver(markups, x) + QuoteOf(ids, |Shows(runs[..k])|)
      && (Total(order) ==> Outward(data))
  }

  ghost predicate MarkedAt(nodes: seq<Node>, order: (Range, Range) -> int, n: nat, markups: seq<Stored>,
                           readers: seq<Reader>, drop: nat, x: nat)
  {
    exists k: nat, ids: seq<int> :: LeafOver(nodes, order, n, markups, readers, drop, x, k, ids)
  }

  /** Every character of the paragraph lies under the nodes of what is over it, and under no others. */
  ghost predicate Marked(nodes: seq<Node>, order: (Range, Range) -> int, n: nat, markups: seq<Stored>,
                         readers: seq<Reader>, drop: nat)
  {
    forall x: nat :: x < n ==> MarkedAt(nodes, order, n, markups, readers, drop, x)
  }

  // ----- sums over markups -----

  function Sum<T>(f: Range -> multiset<T>, ms: seq<Range>): multiset<T> {
    if ms == [] then multiset{} else f(ms[0]) + Sum(f, ms[1..])
  }

  lemma {:induction false} SumSnoc<T>(f: Range -> multiset<T>, ms: seq<Range>, m: Range)
    ensures Sum(f, ms + [m]) == Sum(f, ms) + f(m)
  {
    if ms != [] {
      assert (ms + [m])[1..] == ms[1..] + [m];
      SumSnoc(f, ms[1..], m);
    }
  }

  lemma {:induction false} SumInsert<T>(f: Range -> multiset<T>, before: (Range, Range) -> bool, m: Range,
                                        sorted: seq<Range>)
    ensures Sum(f, Sorting.Insert(before, m, sorted)) == f(m) + Sum(f, sorted)
  {
    if sorted != [] && before(sorted[0], m) {
      SumInsert(f, before, m, sorted[1..]);
      assert Sorting.Insert(before, m, sorted)[1..] == Sorting.Insert(before, m, sorted[1..]);
    } else {
      assert ([m] + sorted)[1..] == sorted;
    }
  }

  lemma {:induction false} SumSort<T>(f: Range -> multiset<T>, before: (Range, Range) -> bool, ms: seq<Range>)
    ensures Sum(f, Sorting.Sort(before, ms)) == Sum(f, ms)
  {
    if ms != [] {
      SumSort(f, before, ms[1..]);
      SumInsert(f, before, ms[0], Sorting.Sort(before, ms[1..]));
    }
  }

  function OwnAt(x: int): Range -> multiset<Data> {
    (m: Range) => if Covers(m, x) then NodeFor(m.kind, m.start) else multiset{}
  }

  function IdAt(x: int): Range -> multiset<int> {
    (m: Range) => if Covers(m, x) && m.kind.FullHighlight? then multiset{m.kind.highlight} else multiset{}
  }

  lemma {:induction false} OwnOfStored(ms: seq<Stored>, x: int)
    ensures Sum(OwnAt(x), Ranges(ms)) == NodesOver(ms, x)
  {
    if ms != [] {
      var init, m := ms[..|ms| - 1], ms[|ms| - 1];
      OwnOfStored(init, x);
      if Complete(m) {
        SumSnoc(OwnAt(x), Ranges(init), Range(m.kind.value, m.start.value, m.end.value, |ms| - 1));
      }
      hide NodeFor;
    }
  }

  lemma {:induction false} IdsOfStored(ms: seq<Stored>, x: int)
    ensures Sum(IdAt(x), Ranges(ms)) == StoredHighlights(ms, x)
  {
    if ms != [] {
      var init, m := ms[..|ms| - 1], ms[|ms| - 1];
      IdsOfStored(init, x);
      if Complete(m) {
        SumSnoc(IdAt(x), Ranges(init), Range(m.kind.value, m.start.value, m.end.value, |ms| - 1));
      }
    }
  }

  /** Readers add highlights, and nothing else. */
  lemma {:induction false} WithReaders(markups: seq<Stored>, readers: seq<Reader>, n: nat, x: int)
    ensures NodesOver(markups + OfReaders(readers, n), x) == NodesOver(markups, x)
    ensures StoredHighlights(markups + OfReaders(readers, n), x)
         == StoredHighlights(markups, x) + ReaderHighlights(readers, n, x)
  {
    if readers == [] {
      assert markups + [] == markups;
    } else {
      var init, r := readers[..|readers| - 1], readers[|readers| - 1];
      WithReaders(markups, init, n, x);
      WithReader(markups + OfReaders(init, n), r, n, x);
      assert markups + OfReaders(readers, n) == (markups + OfReaders(init, n)) + [OfReader(r, n)];
      Regroup(StoredHighlights(markups, x), ReaderHighlights(init, n, x), ReaderHighlight(r, n, x));
      assert ReaderHighlights(readers, n, x) == ReaderHighlights(init, n, x) + ReaderHighlight(r, n, x);
      hide *;
    }
  }

  lemma Regroup<T>(a: multiset<T>, b: multiset<T>, c: multiset<T>)
    ensures (a + b) + c == a + (b + c) == (a + c) + b
  {
  }

  lemma WithReader(ms: seq<Stored>, r: Reader, n: nat, x: int)
    ensures NodesOver(ms + [OfReader(r, n)], x) == NodesOver(ms, x)
    ensures StoredHighlights(ms + [OfReader(r, n)], x) == StoredHighlights(ms, x) + ReaderHighlight(r, n, x)
  {
    assert (ms + [OfReader(r, n)])[..|ms|] == ms;
  }

  // ----- the data of items -----

  function DataOf(u: seq<Item>): seq<Data> {
    if u == [] then []
    else
      var last := u[|u| - 1];
      DataOf(u[..|u| - 1]) + if Render(last).Some? then [Render(last).value] else []
  }

  lemma DataOfSnoc(u: seq<Item>, i: Item)
    ensures DataOf(u + [i]) == DataOf(u) + if Render(i).Some? then [Render(i).value] else []
  {
    assert (u + [i])[..|u|] == u;
  }

  lemma {:induction false} RenderedData(u: seq<Item>)
    ensures |Rendered(u)| == |DataOf(u)|
    ensures forall k :: 0 <= k < |DataOf(u)| ==> Render(Rendered(u)[k]) == Some(DataOf(u)[k])
  {
    if u != [] {
      hide Render;
      var init, last := u[..|u| - 1], u[|u| - 1];
      RenderedData(init);
      RenderedSnoc(init, last);
      assert init + [last] == u;
    }
  }

  lemma PathData(nodes: seq<Node>, path: seq<Entry>, u: seq<Item>)
    requires Made(nodes, path) && Items(path) == Rendered(u)
    ensures OnNodes(nodes, Nodes(path)) && DataAlong(nodes, Nodes(path)) == DataOf(u)
  {
    RenderedData(u);
    hide Render, Rendered, DataOf;
    forall i | 0 <= i < |path|
      ensures nodes[path[i].node].data == Render(path[i].item) == Some(DataOf(u)[i])
    {
      assert Items(path)[i] == path[i].item;
    }
  }

  function DataOfOne(i: Item): multiset<Data> {
    if Render(i).Some? then multiset{Render(i).value} else multiset{}
  }

  lemma DataSnoc(u: seq<Item>, i: Item)
    ensures multiset(DataOf(u + [i])) == multiset(DataOf(u)) + DataOfOne(i)
  {
    DataOfSnoc(u, i);
  }

  lemma {:induction false} ExtendData(u: seq<Item>, id: int, point: int, ids: seq<int>)
    requires Highlights(u) == [Merged(point, ids)]
    ensures multiset(DataOf(Extend(u, id))) + multiset{QuoteData(ids, point)}
         == multiset(DataOf(u)) + multiset{QuoteData(ids + [id], point)}
  {
    if u != [] {
      var init, last := u[..|u| - 1], u[|u| - 1];
      var before, after := Merged(point, ids), Merged(point, ids + [id]);
      var rest := multiset(DataOf(init));
      assert u == init + [last];
      DataSnoc(init, last);
      if last.Merged? {
        assert last == Highlights(u)[|Highlights(u)| - 1] == before;
        DataSnoc(init, after);
        Regroup(rest, DataOfOne(before), DataOfOne(after));
        assert DataOfOne(before) == multiset{QuoteData(ids, point)};
        assert DataOfOne(after) == multiset{QuoteData(ids + [id], point)};
      } else {
        ExtendData(init, id, point, ids);
        DataSnoc(Extend(init, id), last);
        Regroup(multiset(DataOf(Extend(init, id))), DataOfOne(last), multiset{QuoteData(ids, point)});
        Regroup(rest, DataOfOne(last), multiset{QuoteData(ids + [id], point)});
        assert Extend(u, id) == Extend(init, id) + [last];
      }
      hide *;
    }
  }

  lemma OwnRender(m: Range)
    requires !m.kind.FullHighlight?
    ensures NodeFor(m.kind, m.start) == if Render(Own(m)).Some? then multiset{Render(Own(m)).value} else multiset{}
  {
  }

  function OwnData(): Range -> multiset<Data> { (m: Range) => NodeFor(m.kind, m.start) }

  lemma Exchanged(a: multiset<Data>, b: multiset<Data>, c: multiset<Data>, d: Data, e: Data)
    requires a + multiset{d} == b + multiset{e} && b == c + multiset{d}
    ensures a == c + multiset{e}
  {
    assert a == (a + multiset{d}) - multiset{d};
  }

  /** The merged items have the node of each markup, and one for all highlights. */
  lemma {:induction false} MergeData(ms: seq<Range>, point: int)
    ensures multiset(DataOf(Merge(ms, point))) == Sum(OwnData(), ms) + QuoteOf(Ids(ms), point)
  {
    if ms != [] {
      var init, m := ms[..|ms| - 1], ms[|ms| - 1];
      var before := Merge(init, point);
      MergeData(init, point);
      SumOwn(ms);
      if !m.kind.FullHighlight? {
        MergeDataOwn(ms, point, before, m);
        Regroup(Sum(OwnData(), init), QuoteOf(Ids(init), point), NodeFor(m.kind, m.start));
      } else {
        MergeDataHighlight(ms, point, before, m);
      }
      hide *;
    }
  }

  lemma SumOwn(ms: seq<Range>)
    requires ms != []
    ensures var m := ms[|ms| - 1]; Sum(OwnData(), ms) == Sum(OwnData(), ms[..|ms| - 1]) + NodeFor(m.kind, m.start)
  {
    SumSnoc(OwnData(), ms[..|ms| - 1], ms[|ms| - 1]);
    assert ms[..|ms| - 1] + [ms[|ms| - 1]] == ms;
    hide NodeFor, Sum;
  }

  lemma MergeDataOwn(ms: seq<Range>, point: int, before: seq<Item>, m: Range)
    requires ms != [] && m == ms[|ms| - 1] && before == Merge(ms[..|ms| - 1], point) && !m.kind.FullHighlight?
    ensures multiset(DataOf(Merge(ms, point))) == multiset(DataOf(before)) + NodeFor(m.kind, m.start)
    ensures Ids(ms) == Ids(ms[..|ms| - 1])
  {
    assert Ids(ms[..|ms| - 1]) + [] == Ids(ms[..|ms| - 1]);
    DataSnoc(before, Own(m));
    OwnRender(m);
    hide Render, NodeFor, DataOf;
  }

  lemma MergeDataHighlight(ms: seq<Range>, point: int, before: seq<Item>, m: Range)
    requires ms != [] && m == ms[|ms| - 1] && before == Merge(ms[..|ms| - 1], point) && m.kind.FullHighlight?
    requires multiset(DataOf(before)) == Sum(OwnData(), ms[..|ms| - 1]) + QuoteOf(Ids(ms[..|ms| - 1]), point)
    ensures multiset(DataOf(Merge(ms, point)))
         == Sum(OwnData(), ms[..|ms| - 1]) + NodeFor(m.kind, m.start) + QuoteOf(Ids(ms), point)
  {
    var init, id := ms[..|ms| - 1], m.kind.highlight;
    assert NodeFor(m.kind, m.start) == multiset{};
    assert Ids(ms) == Ids(init) + [id];
    if Ids(init) == [] {
      FirstHighlight(before, Sum(OwnData(), init), point, id);
      assert [] + [id] == [id];
    } else {
      MergeHighlights(init, point);
      NextHighlight(before, Sum(OwnData(), init), point, id, Ids(init));
    }
    hide DataOf, Ids, Sum, Extend, Highlights, NodeFor, OwnData;
  }

  lemma FirstHighlight(before: seq<Item>, own: multiset<Data>, point: int, id: int)
    requires multiset(DataOf(before)) == own + multiset{}
    ensures multiset(DataOf(before + [Merged(point, [id])])) == own + multiset{} + QuoteOf([id], point)
  {
    DataSnoc(before, Merged(point, [id]));
    hide DataOf;
  }

  lemma NextHighlight(before: seq<Item>, own: multiset<Data>, point: int, id: int, ids: seq<int>)
    requires multiset(DataOf(before)) == own + multiset{QuoteData(ids, point)}
    requires Highlights(before) == [Merged(point, ids)]
    ensures multiset(DataOf(Extend(before, id))) == own + multiset{} + QuoteOf(ids + [id], point)
  {
    ExtendData(before, id, point, ids);
    hide DataOf, Highlights, Extend;
    Exchanged(multiset(DataOf(Extend(before, id))), multiset(DataOf(before)), own, QuoteData(ids, point),
              QuoteData(ids + [id], point));
  }

  lemma {:induction false} CoveringData(ms: seq<Range>, x: int)
    ensures Sum(OwnData(), Covering(ms, x)) == Sum(OwnAt(x), ms)
    ensures multiset(Ids(Covering(ms, x))) == Sum(IdAt(x), ms)
  {
    if ms != [] {
      hide NodeFor;
      var init, m := ms[..|ms| - 1], ms[|ms| - 1];
      assert init + [m] == ms;
      CoveringData(init, x);
      SumSnoc(OwnAt(x), init, m);
      SumSnoc(IdAt(x), init, m);
      if Covers(m, x) {
        SumSnoc(OwnData(), Covering(init, x), m);
        assert Covering(ms, x)[..|Covering(init, x)|] == Covering(init, x);
      } else {
        assert Covering(init, x) + [] == Covering(init, x);
      }
    }
  }

  /** The nodes of what covers x. */
  lemma DataOver(order: (Range, Range) -> int, n: nat, markups: seq<Stored>, readers: seq<Reader>, x: int, point: int)
    ensures var covering := Covering(Sort(order, AllRanges(n, markups, readers)), x);
      && multiset(Ids(covering)) == StoredHighlights(markups, x) + ReaderHighlights(readers, n, x)
      && multiset(DataOf(Merge(covering, point))) == NodesOver(markups, x) + QuoteOf(Ids(covering), point)
  {
    var stored := markups + OfReaders(readers, n);
    var ms := Ranges(stored);
    OwnOfStored(stored, x);
    IdsOfStored(stored, x);
    WithReaders(markups, readers, n, x);
    SumSort(OwnAt(x), RangeOrder(order), ms);
    SumSort(IdAt(x), RangeOrder(order), ms);
    CoveringData(Sort(order, ms), x);
    MergeData(Covering(Sort(order, ms), x), point);
    hide Sum, DataOf, Merge, Covering, Ids, OwnAt, IdAt, NodesOver, StoredHighlights, ReaderHighlights, QuoteOf, Ranges;
  }

  // ----- the order of nesting -----

  function ItemRank(i: Item): nat {
    match i
    case DropCap(_) => 0
    case Merged(_, _) => 3
    case Own(m) => Rank(m.kind)
  }

  function DepthOf(rank: nat): nat {
    if rank == 0 then 0 else if rank <= 4 then 1 else if rank <= 7 then 2 else if rank == 8 then 3
    else if rank == 9 then 4 else 5
  }

  predicate Ranked(u: seq<Item>) { forall i, j :: 0 <= i < j < |u| ==> ItemRank(u[i]) <= ItemRank(u[j]) }

  predicate Within(u: seq<Item>, rank: nat) { forall i :: 0 <= i < |u| ==> ItemRank(u[i]) <= rank }

  lemma DepthOfRender(i: Item)
    requires Render(i).Some?
    ensures Depth(Render(i).value) == DepthOf(ItemRank(i))
  {
  }

  lemma {:induction false} ExtendRanks(u: seq<Item>, id: int)
    ensures |Extend(u, id)| == |u| && forall i :: 0 <= i < |u| ==> ItemRank(Extend(u, id)[i]) == ItemRank(u[i])
  {
    if u != [] {
      ExtendRanks(u[..|u| - 1], id);
    }
  }

  lemma {:induction false} MergeRanked(ms: seq<Range>, point: int)
    requires forall i, j :: 0 <= i < j < |ms| ==> Rank(ms[i].kind) <= Rank(ms[j].kind)
    ensures Ranked(Merge(ms, point))
    ensures ms != [] ==> Within(Merge(ms, point), Rank(ms[|ms| - 1].kind))
  {
    if ms != [] {
      var init, m := ms[..|ms| - 1], ms[|ms| - 1];
      MergeRanked(init, point);
      assert init != [] ==> Rank(init[|init| - 1].kind) <= Rank(m.kind);
      if m.kind.FullHighlight? {
        ExtendRanks(Merge(init, point), m.kind.highlight);
      }
      hide Rank, Extend;
    }
  }

  lemma {:induction false} RankedData(u: seq<Item>)
    requires Ranked(u)
    ensures Outward(DataOf(u))
    ensures forall r: nat :: Within(u, r) ==> forall i :: 0 <= i < |DataOf(u)| ==> Depth(DataOf(u)[i]) <= DepthOf(r)
  {
    if u != [] {
      hide Render, Depth, ItemRank;
      var init, last := u[..|u| - 1], u[|u| - 1];
      RankedData(init);
      assert Within(init, ItemRank(last));
      if Render(last).Some? {
        DepthOfRender(last);
      }
      forall r: nat | Within(u, r) ensures forall i :: 0 <= i < |DataOf(u)| ==> Depth(DataOf(u)[i]) <= DepthOf(r) {
        assert Within(init, r) && ItemRank(last) <= r;
      }
    }
  }

  lemma {:induction false} CoveringRanked(order: (Range, Range) -> int, ms: seq<Range>, x: int)
    requires Sorted(order, ms)
    ensures forall i, j :: 0 <= i < j < |Covering(ms, x)| ==>
              Rank(Covering(ms, x)[i].kind) <= Rank(Covering(ms, x)[j].kind)
    ensures forall i :: 0 <= i < |Covering(ms, x)| ==> Covering(ms, x)[i] in ms
  {
    if ms != [] {
      var init, m := ms[..|ms| - 1], ms[|ms| - 1];
      assert ms == init + [m];
      CoveringRanked(order, init, x);
      forall a | a in init ensures Rank(a.kind) <= Rank(m.kind) {
        var i :| 0 <= i < |init| && init[i] == a;
        assert Compare(order, ms[i], ms[|ms| - 1]) <= 0;
      }
      hide Rank, Covers, Compare;
    }
  }

  lemma NestsOutward(order: (Range, Range) -> int, ms: seq<Range>, x: int, point: int, drop: nat)
    requires Total(order)
    ensures Outward(DataOf(Cap(drop, x) + Merge(Covering(Sort(order, ms), x), point)))
  {
    SortSorts(order, ms);
    CoveringRanked(order, Sort(order, ms), x);
    var covering := Covering(Sort(order, ms), x);
    MergeRanked(covering, point);
    hide Covering, Merge, Sort, DataOf;
    RankedData(Cap(drop, x) + Merge(covering, point));
  }

  lemma {:induction false} CapData(drop: nat, x: nat, u: seq<Item>)
    ensures multiset(DataOf(Cap(drop, x) + u))
         == (if x < drop then multiset{DropCapData} else multiset{}) + multiset(DataOf(u))
  {
    var cap := Cap(drop, x);
    if u == [] {
      assert cap + u == cap;
      assert x < drop ==> DataOf([DropCap(drop)]) == [] + [DropCapData];
    } else {
      var init, last := u[..|u| - 1], u[|u| - 1];
      CapData(drop, x, init);
      assert u == init + [last] && cap + u == (cap + init) + [last];
      DataSnoc(init, last);
      DataSnoc(cap + init, last);
      Regroup(if x < drop then multiset{DropCapData} else multiset{}, multiset(DataOf(init)), DataOfOne(last));
      hide *;
    }
  }

  // ----- the rendered paragraph -----

  /** Leaf k of the tree, in terms of the segments. */
  lemma LeafIs(text: string, segments: seq<Segment>, paths: seq<seq<Entry>>, k: nat)
    requires Spans(segments, |text|) && |paths| == |segments| && k + 1 < |segments| && segments[k].point < |text|
    ensures var runs := Shown(text, segments, paths, |segments|);
      && |Shows(runs[..k])| == segments[k].point
      && runs[k] == Run(Nodes(paths[k]), TextAt(text, segments, k))
  {
    ShownText(text, segments, paths, k);
    var runs := Shown(text, segments, paths, |segments|);
    assert runs[..k] == Shown(text, segments, paths, k);
    assert k > 0 ==> segments[0].point < segments[k].point;
  }

  lemma TextLength(text: string, segments: seq<Segment>, k: nat, x: nat)
    requires x < |text| && k + 1 < |segments| && 0 <= segments[k].point <= x < segments[k + 1].point
    ensures x < segments[k].point + |TextAt(text, segments, k)|
  {
  }

  lemma SpansText(order: (Range, Range) -> int, text: string, markups: seq<Stored>, readers: seq<Reader>, drop: nat)
    requires text != "" && NonNegative(markups, readers)
    ensures Spans(Segments(order, |text|, markups, readers, drop), |text|)
  {
    SegmentPoints(order, |text|, markups, readers, drop);
    RisingPoints(Segments(order, |text|, markups, readers, drop),
                 Points(|text|, AllRanges(|text|, markups, readers), drop));
  }

  lemma LeafMarked(order: (Range, Range) -> int, text: string, markups: seq<Stored>, readers: seq<Reader>, drop: nat,
                   nodes: seq<Node>, x: nat) returns (k: nat, ids: seq<int>)
    requires x < |text| && NonNegative(markups, readers)
    requires var segments := Segments(order, |text|, markups, readers, drop);
             && Runs(nodes, 0) == Shown(text, segments, Lay(segments).paths, |segments|)
             && AllMade(nodes, Lay(segments).paths)
    ensures LeafOver(nodes, order, |text|, markups, readers, drop, x, k, ids)
  {
    hide *;
    var n := |text|;
    var segments, ms := Segments(order, n, markups, readers, drop), AllRanges(n, markups, readers);
    var paths := Lay(segments).paths;
    var covering := Covering(Sort(order, ms), x);
    SpansText(order, text, markups, readers, drop);
    k := SegmentOf(order, n, markups, readers, drop, x);
    ids := Ids(covering);
    var point := segments[k].point;
    SpansAt(segments, n, k);
    LeafIs(text, segments, paths, k);
    TextLength(text, segments, k, x);
    MadeAt(nodes, paths, k);
    PathItems(segments, k);
    PathData(nodes, paths[k], segments[k].items);
    DataOver(order, n, markups, readers, x, point);
    CapData(drop, x, Merge(covering, point));
    if Total(order) {
      NestsOutward(order, ms, x, point, drop);
    }
    CapAlone(drop);
    LeafOverIs(nodes, order, n, markups, readers, drop, x, k, ids, segments[k].items, Merge(covering, point), point);
  }

  lemma SpansAt(segments: seq<Segment>, n: nat, k: nat)
    requires Spans(segments, n) && k < |segments|
    ensures segments[k].point >= 0
  {
    assert k > 0 ==> segments[0].point < segments[k].point;
  }

  lemma MadeAt(nodes: seq<Node>, paths: seq<seq<Entry>>, k: nat)
    requires AllMade(nodes, paths) && k < |paths|
    ensures Made(nodes, paths[k])
  {
  }

  lemma CapAlone(drop: nat)
    ensures DataOf([DropCap(drop)]) == [DropCapData]
  {
    assert [DropCap(drop)][..0] == [];
    assert DataOf([]) + [DropCapData] == [DropCapData];
  }

  lemma LeafOverIs(nodes: seq<Node>, order: (Range, Range) -> int, n: nat, markups: seq<Stored>, readers: seq<Reader>,
                   drop: nat, x: nat, k: nat, ids: seq<int>, items: seq<Item>, u: seq<Item>, point: int)
    requires var runs := Runs(nodes, 0);
      && k < |runs| && |Shows(runs[..k])| == point <= x < point + |runs[k].text|
      && OnNodes(nodes, runs[k].path) && DataAlong(nodes, runs[k].path) == DataOf(items)
    requires items == if drop > 0 && k == 0 then [DropCap(drop)] else Cap(drop, x) + u
    requires DataOf([DropCap(drop)]) == [DropCapData]
    requires multiset(DataOf(Cap(drop, x) + u))
          == (if x < drop then multiset{DropCapData} else multiset{}) + multiset(DataOf(u))
    requires multiset(ids) == StoredHighlights(markups, x) + ReaderHighlights(readers, n, x)
    requires multiset(DataOf(u)) == NodesOver(markups, x) + QuoteOf(ids, point)
    requires Total(order) ==> Outward(DataOf(Cap(drop, x) + u))
    ensures LeafOver(nodes, order, n, markups, readers, drop, x, k, ids)
  {
    hide Runs, Shows, DataOf, Cap, StoredHighlights, ReaderHighlights, NodesOver, QuoteOf, Outward, Total, OnNodes,
         DataAlong;
  }

  /** Every character of a rendered paragraph lies under one node for each stored markup over it whose kind has one,
      under one for all highlights over it, and under no others; which nodes these are, their data and their order of
      nesting follow from the markups as they are stored. */
  lemma CharactersAreMarked(order: (Range, Range) -> int, text: string, markups: seq<Stored>, readers: seq<Reader>,
                            drop: nat, nodes: seq<Node>)
    requires NonNegative(markups, readers)
    requires var segments := Segments(order, |text|, markups, readers, drop);
             && Runs(nodes, 0) == Shown(text, segments, Lay(segments).paths, |segments|)
             && AllMade(nodes, Lay(segments).paths)
    ensures Marked(nodes, order, |text|, markups, readers, drop)
  {
    hide *;
    forall x: nat | x < |text| ensures MarkedAt(nodes, order, |text|, markups, readers, drop, x) {
      var k, ids := LeafMarked(order, text, markups, readers, drop, nodes, x);
      LeafIsMarked(nodes, order, |text|, markups, readers, drop, x, k, ids);
    }
    AllMarked(nodes, order, |text|, markups, readers, drop);
  }

  lemma LeafIsMarked(nodes: seq<Node>, order: (Range, Range) -> int, n: nat, markups: seq<Stored>,
                     readers: seq<Reader>, drop: nat, x: nat, k: nat, ids: seq<int>)
    requires LeafOver(nodes, order, n, markups, readers, drop, x, k, ids)
    ensures MarkedAt(nodes, order, n, markups, readers, drop, x)
  {
    hide LeafOver;
  }

  lemma AllMarked(nodes: seq<Node>, order: (Range, Range) -> int, n: nat, markups: seq<Stored>,
                  readers: seq<Reader>, drop: nat)
    requires forall x: nat :: x < n ==> MarkedAt(nodes, order, n, markups, readers, drop, x)
    ensures Marked(nodes, order, n, markups, readers, drop)
  {
    hide MarkedAt;
  }

  /** `de` on the segments of `pe`: a paragraph, rendered, shows its text, and each of its characters is marked by the
      nodes of what is stored over it. */
  method RenderParagraph(order: (Range, Range) -> int, text: string, markups: seq<Stored>, readers: seq<Reader>,
                         drop: nat)
    returns (nodes: seq<Node>)
    ensures var segments := Segments(order, |text|, markups, readers, drop);
            Runs(nodes, 0) == Shown(text, segments, Lay(segments).paths, |segments|)
    ensures AllMade(nodes, Lay(Segments(order, |text|, markups, readers, drop)).paths)
    ensures NonNegative(markups, readers) ==> Shows(Runs(nodes, 0)) == text
    ensures NonNegative(markups, readers) ==> Marked(nodes, order, |text|, markups, readers, drop)
  {
    hide *;
    var segments := ComputeSegments(order, |text|, markups, readers, drop);
    nodes := Build(text, segments);
    if NonNegative(markups, readers) {
      LeavesAreTheText(order, text, markups, readers, drop);
      CharactersAreMarked(order, text, markups, readers, drop, nodes);
    }
  }
}
