/** The accessibility-tree flattener: `flatten_ax` of `cockpit/backend/app/browser_cdp.py`. */
module AxTree {
  import opened Lists

  /** `name` is already cleaned and cut; `backend` is 0 when the node carries none. */
  datatype Node =
    Node(id: int, role: string, name: string, ignored: bool, backend: int, hasParent: bool, children: seq<int>)

  type Index = map<int, Node>

  const SKIP_ROLES := {"none", "InlineTextBox", "ignored"}
  const MAX_PAD := 12

  predicate Skipped(n: Node) {
    n.ignored || n.role in SKIP_ROLES || (n.role == "generic" && n.name == "")
  }

  /** One output line; `ref` is the `eN` number, shown only for nodes with a backend. */
  datatype Line = Line(pad: nat, role: string, name: string, ref: Option<nat>)

  /** A visible node and the number of its visible ancestors. */
  datatype Item = Item(node: Node, depth: nat)

  function LineOf(it: Item, number: nat): Line {
    Line(if it.depth < MAX_PAD then it.depth else MAX_PAD,
         if it.node.role != "" then it.node.role else "node",
         it.node.name,
         if it.node.backend != 0 then Some(number) else None)
  }

  /** Child links go strictly down in `rank`. */
  ghost predicate Acyclic(ix: Index, rank: int -> nat) {
    forall p, c :: p in ix && c in ix[p].children && c in ix ==> rank(c) < rank(p)
  }

  ghost predicate Below(ix: Index, rank: int -> nat, ids: seq<int>, bound: nat) {
    forall c :: c in ids && c in ix ==> rank(c) < bound
  }

  // ----- The full preorder, as paths from the root

  /** Every path from a root of the walk down to a node, in preorder. */
  ghost function Paths(ix: Index, rank: int -> nat, id: int, above: seq<Node>): seq<seq<Node>>
    requires Acyclic(ix, rank)
    decreases rank(id), 1, 0
  {
    if id !in ix then [] else
      var path := above + [ix[id]];
      [path] + ForestPaths(ix, rank, ix[id].children, path, rank(id))
  }

  ghost function ForestPaths(ix: Index, rank: int -> nat, ids: seq<int>, above: seq<Node>, bound: nat): seq<seq<Node>>
    requires Acyclic(ix, rank) && Below(ix, rank, ids, bound)
    decreases bound, 0, |ids|
  {
    if ids == [] then [] else
      var last := ids[|ids| - 1];
      ForestPaths(ix, rank, ids[..|ids| - 1], above, bound)
      + (if last in ix then Paths(ix, rank, last, above) else [])
  }

  function VisibleCount(path: seq<Node>): nat {
    Count((n: Node) => !Skipped(n), path)
  }

  /** The visible ends of the paths, each with the number of visible nodes above it. */
  function Items(paths: seq<seq<Node>>): seq<Item> {
    if paths == [] then [] else Items(paths[..|paths| - 1]) + ItemOf(paths[|paths| - 1])
  }

  function ItemOf(path: seq<Node>): seq<Item> {
    if path == [] || Skipped(path[|path| - 1]) then []
    else [Item(path[|path| - 1], VisibleCount(path[..|path| - 1]))]
  }

  // ----- The walk without the limit

  ghost function Walked(ix: Index, rank: int -> nat, id: int, depth: nat): seq<Item>
    requires Acyclic(ix, rank)
    decreases rank(id), 1, 0
  {
    if id !in ix then [] else
      var n := ix[id];
      if Skipped(n) then WalkedAll(ix, rank, n.children, depth, rank(id))
      else [Item(n, depth)] + WalkedAll(ix, rank, n.children, depth + 1, rank(id))
  }

  ghost function WalkedAll(ix: Index, rank: int -> nat, ids: seq<int>, depth: nat, bound: nat): seq<Item>
    requires Acyclic(ix, rank) && Below(ix, rank, ids, bound)
    decreases bound, 0, |ids|
  {
    if ids == [] then [] else
      var last := ids[|ids| - 1];
      WalkedAll(ix, rank, ids[..|ids| - 1], depth, bound)
      + (if last in ix then Walked(ix, rank, last, depth) else [])
  }

  lemma {:induction false} ItemsConcat(a: seq<seq<Node>>, b: seq<seq<Node>>)
    ensures Items(a + b) == Items(a) + Items(b)
  {
    if b == [] {
      assert a + b == a;
    } else {
      var init := b[..|b| - 1];
      assert (a + b)[..|a + b| - 1] == a + init;
      ItemsConcat(a, init);
    }
  }

  lemma ItemsCons(path: seq<Node>, rest: seq<seq<Node>>)
    ensures Items([path] + rest) == ItemOf(path) + Items(rest)
  {
    ItemsConcat([path], rest);
    var one := [path];
    assert Items(one[..0]) == [] && one[0] == path;
  }

  lemma VisibleCountSnoc(path: seq<Node>, n: Node)
    ensures VisibleCount(path + [n]) == VisibleCount(path) + if Skipped(n) then 0 else 1
  {
  }

  /** Passing the depth down counts visible ancestors. */
  lemma {:induction false} WalkedIsItems(ix: Index, rank: int -> nat, id: int, above: seq<Node>)
    requires Acyclic(ix, rank)
    ensures Items(Paths(ix, rank, id, above)) == Walked(ix, rank, id, VisibleCount(above))
    decreases rank(id), 1, 0
  {
    if id in ix {
      var n := ix[id];
      var path := above + [n];
      WalkedAllIsItems(ix, rank, n.children, path, rank(id));
      VisibleCountSnoc(above, n);
      ItemsCons(path, ForestPaths(ix, rank, n.children, path, rank(id)));
      assert path[..|path| - 1] == above && path[|path| - 1] == n;
    }
  }

  lemma {:induction false} WalkedAllIsItems(ix: Index, rank: int -> nat, ids: seq<int>, above: seq<Node>, bound: nat)
    requires Acyclic(ix, rank) && Below(ix, rank, ids, bound)
    ensures Items(ForestPaths(ix, rank, ids, above, bound)) == WalkedAll(ix, rank, ids, VisibleCount(above), bound)
    decreases bound, 0, |ids|
  {
    if ids != [] {
      var init, last := ids[..|ids| - 1], ids[|ids| - 1];
      WalkedAllIsItems(ix, rank, init, above, bound);
      if last in ix {
        WalkedIsItems(ix, rank, last, above);
        ItemsConcat(ForestPaths(ix, rank, init, above, bound), Paths(ix, rank, last, above));
      } else {
        assert ForestPaths(ix, rank, ids, above, bound) == ForestPaths(ix, rank, init, above, bound);
      }
    }
  }

  // ----- The early-stopping walk

  /** `done` extended by `more`, but never past `limit`; a list already at the limit stays. */
  ghost function Upto(done: seq<Item>, more: seq<Item>, limit: int): seq<Item> {
    if |done| >= limit then done else Take(done + more, limit)
  }

  lemma UptoTwice(done: seq<Item>, a: seq<Item>, b: seq<Item>, limit: int)
    ensures Upto(Upto(done, a, limit), b, limit) == Upto(done, a + b, limit)
  {
  }

  class Flattener {
    const ix: Index
    const limit: int
    var nref: nat
    var refs: map<nat, int>
    var lines: seq<Line>
    ghost var items: seq<Item>

    ghost predicate Valid()
      reads this
    {
      && nref == |lines| == |items|
      && (forall k :: 0 <= k < |items| ==> lines[k] == LineOf(items[k], k + 1))
      && (forall r :: r in refs <==> 1 <= r <= |items| && items[r - 1].node.backend != 0)
      && (forall r :: r in refs ==> refs[r] == items[r - 1].node.backend)
    }

    constructor (ix: Index, limit: int)
      ensures Valid() && items == [] && this.ix == ix && this.limit == limit
    {
      this.ix, this.limit := ix, limit;
      nref, refs, lines, items := 0, map[], [], [];
    }

    method Walk(id: int, depth: nat, ghost rank: int -> nat)
      requires Valid() && Acyclic(ix, rank)
      modifies this
      ensures Valid()
      ensures items == Upto(old(items), Walked(ix, rank, id, depth), limit)
      decreases rank(id), 1, 0
    {
      if |lines| >= limit {
        return;
      }
      if id !in ix {
        assert items + [] == items;
        return;
      }
      var n := ix[id];
      if Skipped(n) {
        WalkAll(n.children, depth, rank, rank(id));
        return;
      }
      Emit(n, depth);
      assert items == Upto(old(items), [Item(n, depth)], limit);
      UptoTwice(old(items), [Item(n, depth)], WalkedAll(ix, rank, n.children, depth + 1, rank(id)), limit);
      WalkAll(n.children, depth + 1, rank, rank(id));
    }

    method Emit(n: Node, depth: nat)
      requires Valid()
      modifies this
      ensures Valid() && items == old(items) + [Item(n, depth)]
    {
      nref := nref + 1;
      if n.backend != 0 {
        refs := refs[nref := n.backend];
      }
      lines, items := lines + [LineOf(Item(n, depth), nref)], items + [Item(n, depth)];
    }

    /** The loop over children; a missing child is a walk that returns at once. */
    method WalkAll(ids: seq<int>, depth: nat, ghost rank: int -> nat, ghost bound: nat)
      requires Valid() && Acyclic(ix, rank) && Below(ix, rank, ids, bound)
      modifies this
      ensures Valid()
      ensures items == Upto(old(items), WalkedAll(ix, rank, ids, depth, bound), limit)
      decreases bound, 0, |ids|
    {
      assert items + [] == items;
      for k := 0 to |ids|
        invariant Valid()
        invariant items == Upto(old(items), WalkedAll(ix, rank, ids[..k], depth, bound), limit)
      {
        Snoc(ids, k);
        ghost var tail := if ids[k] in ix then Walked(ix, rank, ids[k], depth) else [];
        ghost var before := WalkedAll(ix, rank, ids[..k], depth, bound);
        UptoTwice(old(items), before, tail, limit);
        if ids[k] in ix {
          Walk(ids[k], depth, rank);
        } else {
          assert before + [] == before;
        }
      }
      Whole(ids);
    }
  }

  function Indexed(nodes: seq<Node>): Index {
    if nodes == [] then map[] else Indexed(nodes[..|nodes| - 1])[nodes[|nodes| - 1].id := nodes[|nodes| - 1]]
  }

  /** Nodes without a parent, or the first node when every node has one. */
  function Roots(nodes: seq<Node>): seq<int> {
    var roots := Map((n: Node) => n.id, Filter((n: Node) => !n.hasParent, nodes));
    if roots == [] && nodes != [] then [nodes[0].id] else roots
  }

  ghost function AllItems(nodes: seq<Node>, rank: int -> nat, bound: nat): seq<Item>
    requires Acyclic(Indexed(nodes), rank) && Below(Indexed(nodes), rank, Roots(nodes), bound)
  {
    Items(ForestPaths(Indexed(nodes), rank, Roots(nodes), [], bound))
  }

  /** The output is the first `limit` visible nodes of the full preorder: line k carries number k, and the
      reference table holds exactly the numbers of emitted nodes with a backend. */
  method FlattenAx(nodes: seq<Node>, limit: int, ghost rank: int -> nat, ghost bound: nat)
    returns (lines: seq<Line>, refs: map<nat, int>)
    requires Acyclic(Indexed(nodes), rank) && Below(Indexed(nodes), rank, Roots(nodes), bound)
    ensures var items := Take(AllItems(nodes, rank, bound), limit);
      && |lines| == |items|
      && (forall k :: 0 <= k < |items| ==> lines[k] == LineOf(items[k], k + 1))
      && (forall r :: r in refs <==> 1 <= r <= |items| && items[r - 1].node.backend != 0)
      && (forall r :: r in refs ==> refs[r] == items[r - 1].node.backend)
  {
    var f := new Flattener(Indexed(nodes), limit);
    WalkedAllIsItems(Indexed(nodes), rank, Roots(nodes), [], bound);
    f.WalkAll(Roots(nodes), 0, rank, bound);
    assert f.items == Upto([], AllItems(nodes, rank, bound), limit);
    assert [] + AllItems(nodes, rank, bound) == AllItems(nodes, rank, bound);
    lines, refs := f.lines, f.refs;
  }

  // ----- Lines, visibility and roots, spelled out

  /** A line of the output: two more blanks for each visible ancestor, up to twelve; a node without a role is called
      `node`, and the reference is the line's number, for nodes that have a backend. */
  lemma LineSays(it: Item, number: nat)
    ensures var line := LineOf(it, number);
      && line.pad <= 12 && (it.depth <= 12 ==> line.pad == it.depth) && (it.depth > 12 ==> line.pad == 12)
      && line.role == (if it.node.role == "" then "node" else it.node.role) && line.name == it.node.name
      && line.ref == (if it.node.backend == 0 then None else Some(number))
  {
  }

  /** Passed over: ignored nodes, three roles, and generic nodes without a name. */
  lemma SkippedIff(n: Node)
    ensures Skipped(n) <==>
      n.ignored || n.role == "none" || n.role == "InlineTextBox" || n.role == "ignored"
      || (n.role == "generic" && n.name == "")
  {
  }

  /** The last node with an id is the one that counts. */
  ghost predicate LastOfId(nodes: seq<Node>, k: nat, id: int) {
    k < |nodes| && nodes[k].id == id && forall j :: k < j < |nodes| ==> nodes[j].id != id
  }

  lemma {:induction false} IndexedAre(nodes: seq<Node>, id: int)
    ensures id in Indexed(nodes) <==> exists n :: n in nodes && n.id == id
    ensures forall k: nat :: LastOfId(nodes, k, id) ==> id in Indexed(nodes) && Indexed(nodes)[id] == nodes[k]
  {
    if nodes != [] {
      var n := |nodes| - 1;
      var init := nodes[..n];
      assert nodes == init + [nodes[n]];
      IndexedAre(init, id);
      forall k: nat | LastOfId(nodes, k, id) ensures id in Indexed(nodes) && Indexed(nodes)[id] == nodes[k] {
        if k < n {
          assert nodes[n].id != id;
          assert LastOfId(init, k, id);
        }
      }
    }
  }

  /** The walk starts at the nodes without a parent, in order; only when there is none, at the first node. */
  lemma RootsAre(nodes: seq<Node>)
    ensures (exists n :: n in nodes && !n.hasParent) ==>
      Roots(nodes) == Map((n: Node) => n.id, Filter((n: Node) => !n.hasParent, nodes)) != []
    ensures (forall n :: n in nodes ==> n.hasParent) ==> Roots(nodes) == if nodes == [] then [] else [nodes[0].id]
  {
    var top := Filter((n: Node) => !n.hasParent, nodes);
    FilterIn((n: Node) => !n.hasParent, nodes);
    if top != [] {
      FirstIsMember(top);
    }
  }
}
