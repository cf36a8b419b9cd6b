/**
 * The derivation tree of the front end: a root node with the tree of every
 * node it derives to, its pre-order traversal, and the lookup of the root a
 * derived word comes from.
 */
module Derivation {
  import opened Wrappers
  import Sorting

  /** A node of the linguistic graph (root, stem, suffix, word, …). */
  datatype Node = Node(
    id: string, kind: string, devanagari: string, iast: string, meaning: string,
    derivedFrom: seq<string>, derivesTo: seq<string>)

  /** One step of a derivation. */
  datatype Step = Step(form: string, suffix: Option<string>, rule: Option<string>, meaning: string)

  /** A node, the steps that lead to it and the trees of the nodes it derives to. */
  datatype Tree = Tree(root: Node, steps: seq<Step>, children: seq<Tree>)

  /** `allNodes.find((n) => n.id === id)`: the first node with the id. */
  function FindNode(nodes: seq<Node>, id: string): (r: Option<Node>)
    ensures r.Some? ==> r.value in nodes && r.value.id == id
    ensures r.None? <==> forall n :: n in nodes ==> n.id != id
  {
    if nodes == [] then None
    else if nodes[0].id == id then Some(nodes[0])
    else FindNode(nodes[1..], id)
  }

  /** The nodes found for `ids`, in order, unknown ids skipped. */
  function Found(ids: seq<string>, all: seq<Node>): (r: seq<Node>)
    ensures |r| <= |ids|
  {
    if ids == [] then []
    else
      var n := FindNode(all, ids[|ids| - 1]);
      Found(ids[..|ids| - 1], all) + (if n.Some? then [n.value] else [])
  }

  /** The roots of a sequence of trees. */
  function Roots(ts: seq<Tree>): (r: seq<Node>)
    ensures |r| == |ts|
    ensures forall i :: 0 <= i < |ts| ==> r[i] == ts[i].root
  {
    seq(|ts|, i requires 0 <= i < |ts| => ts[i].root)
  }

  // ---------------------------------------------------------------------------
  // buildDerivationTree as written
  // ---------------------------------------------------------------------------

  /**
   * `buildDerivationTree` with a bound on its recursion depth: None stands for
   * a recursion that has not returned within `fuel` levels.
   */
  function BuildFuel(root: Node, all: seq<Node>, fuel: nat): Option<Tree>
    decreases fuel, 0, 0
  {
    if fuel == 0 then None
    else
      match ChildrenFuel(root.derivesTo, all, fuel - 1)
      case None => None
      case Some(cs) => Some(Tree(root, [], cs))
  }

  /** The loop over `childIds`: each found node's tree is pushed in order. */
  function ChildrenFuel(ids: seq<string>, all: seq<Node>, fuel: nat): Option<seq<Tree>>
    decreases fuel, 1, |ids|
  {
    if ids == [] then Some([])
    else
      match ChildrenFuel(ids[..|ids| - 1], all, fuel)
      case None => None
      case Some(cs) =>
        match FindNode(all, ids[|ids| - 1])
        case None => Some(cs)
        case Some(n) =>
          match BuildFuel(n, all, fuel)
          case None => None
          case Some(t) => Some(cs + [t])
  }

  /** Once the children of a prefix of the ids cannot be built, those of the whole cannot. */
  lemma {:induction false} ChildrenNoneExtends(ids: seq<string>, k: nat, all: seq<Node>, fuel: nat)
    requires k <= |ids| && ChildrenFuel(ids[..k], all, fuel).None?
    ensures ChildrenFuel(ids, all, fuel).None?
    decreases |ids| - k
  {
    if k < |ids| {
      assert ids[..k + 1][..k] == ids[..k];
      ChildrenNoneExtends(ids, k + 1, all, fuel);
    } else {
      assert ids[..k] == ids;
    }
  }

  /** `buildDerivationTree`: recursion over the found children, with the depth bound. */
  method BuildDerivationTree(root: Node, all: seq<Node>, fuel: nat) returns (r: Option<Tree>)
    ensures r == BuildFuel(root, all, fuel)
    decreases fuel
  {
    if fuel == 0 {
      return None;
    }
    var children: seq<Tree> := [];
    var ids := root.derivesTo;
    for i := 0 to |ids|
      invariant ChildrenFuel(ids[..i], all, fuel - 1) == Some(children)
    {
      assert ids[..i + 1][..i] == ids[..i];
      var child := FindNode(all, ids[i]);
      if child.Some? {
        var sub := BuildDerivationTree(child.value, all, fuel - 1);
        if sub.None? {
          ChildrenNoneExtends(ids, i + 1, all, fuel - 1);
          return None;
        }
        children := children + [sub.value];
      }
    }
    assert ids[..|ids|] == ids;
    return Some(Tree(root, [], children));
  }

  /**
   * A tree built from `all`: no steps, the children's roots are the found
   * derivesTo nodes in order, and every child is built the same way.
   */
  predicate WellBuilt(t: Tree, all: seq<Node>)
    decreases t
  {
    t.steps == []
    && Roots(t.children) == Found(t.root.derivesTo, all)
    && forall i :: 0 <= i < |t.children| ==> WellBuilt(t.children[i], all)
  }

  /** Every tree the recursion returns has the built shape and the given root. */
  lemma {:induction false} BuildFuelShape(root: Node, all: seq<Node>, fuel: nat)
    requires BuildFuel(root, all, fuel).Some?
    ensures BuildFuel(root, all, fuel).value.root == root
    ensures WellBuilt(BuildFuel(root, all, fuel).value, all)
    decreases fuel, 0, 0
  {
    ChildrenFuelShape(root.derivesTo, all, fuel - 1);
  }

  lemma {:induction false} ChildrenFuelShape(ids: seq<string>, all: seq<Node>, fuel: nat)
    requires ChildrenFuel(ids, all, fuel).Some?
    ensures Roots(ChildrenFuel(ids, all, fuel).value) == Found(ids, all)
    ensures forall i :: 0 <= i < |ChildrenFuel(ids, all, fuel).value| ==>
      WellBuilt(ChildrenFuel(ids, all, fuel).value[i], all)
    decreases fuel, 1, |ids|
  {
    if ids != [] {
      var init := ids[..|ids| - 1];
      ChildrenFuelShape(init, all, fuel);
      var n := FindNode(all, ids[|ids| - 1]);
      if n.Some? {
        BuildFuelShape(n.value, all, fuel);
        var cs := ChildrenFuel(init, all, fuel).value;
        var t := BuildFuel(n.value, all, fuel).value;
        assert Roots(cs + [t]) == Roots(cs) + [t.root];
      }
    }
  }

  /** The position after `j` on a cycle of length `n`. */
  function Next(j: nat, n: nat): (r: nat)
    requires j < n
    ensures r < n
  {
    if j + 1 == n then 0 else j + 1
  }

  /**
   * A cycle of the derivesTo graph: node `c[j]` derives, at position `ks[j]`,
   * to the node found as `c[j + 1]`, and the last node back to the first.
   */
  predicate IsCycle(c: seq<Node>, ks: seq<nat>, all: seq<Node>)
  {
    |c| > 0 && |ks| == |c|
    && forall j {:trigger ks[j]} :: 0 <= j < |c| ==>
         ks[j] < |c[j].derivesTo| && FindNode(all, c[j].derivesTo[ks[j]]) == Some(c[Next(j, |c|)])
  }

  /** A child whose tree cannot be built blocks the whole loop. */
  lemma ChildBlocks(ids: seq<string>, k: nat, all: seq<Node>, fuel: nat)
    requires k < |ids| && FindNode(all, ids[k]).Some?
    requires BuildFuel(FindNode(all, ids[k]).value, all, fuel).None?
    ensures ChildrenFuel(ids, all, fuel).None?
  {
    var p := ids[..k + 1];
    assert p[..|p| - 1] == ids[..k] && p[|p| - 1] == ids[k];
    ChildrenNoneExtends(ids, k + 1, all, fuel);
  }

  /** From a node on a cycle no depth bound suffices: the recursion never returns. */
  lemma {:induction false} CycleNeverBuilds(c: seq<Node>, ks: seq<nat>, all: seq<Node>, i: nat, fuel: nat)
    requires IsCycle(c, ks, all) && i < |c|
    ensures BuildFuel(c[i], all, fuel).None?
    decreases fuel
  {
    if fuel > 0 {
      var k := ks[i];
      CycleNeverBuilds(c, ks, all, Next(i, |c|), fuel - 1);
      ChildBlocks(c[i].derivesTo, k, all, fuel - 1);
    }
  }

  /** The smallest cycle: a node that derives to itself never finishes building. */
  lemma SelfLoopNeverBuilds(n: Node, all: seq<Node>, fuel: nat)
    requires n.derivesTo == [n.id] && FindNode(all, n.id) == Some(n)
    ensures BuildFuel(n, all, fuel).None?
  {
    var ks: seq<nat> := [0];
    assert IsCycle([n], ks, all) by {
      assert ks[0] == 0;
    }
    CycleNeverBuilds([n], ks, all, 0, fuel);
  }

  // ---------------------------------------------------------------------------
  // buildDerivationTree with cycles cut
  // ---------------------------------------------------------------------------

  /** The ids of all nodes. */
  function Ids(all: seq<Node>): set<string>
  {
    set n | n in all :: n.id
  }

  /** Whether a found node is taken as a child: it is known and not on the current path. */
  predicate Fresh(n: Option<Node>, path: set<string>)
  {
    n.Some? && n.value.id !in path
  }

  /** Adding a known id to the path leaves fewer ids unvisited. */
  lemma VisitShrinks(all: seq<Node>, path: set<string>, n: Node)
    requires n in all && n.id !in path
    ensures |Ids(all) - (path + {n.id})| < |Ids(all) - path|
  {
    assert n.id in Ids(all);
    assert Ids(all) - (path + {n.id}) == (Ids(all) - path) - {n.id};
  }

  /**
   * The tree with every node already on the path from the top skipped, so a
   * cycle is cut where it closes; `path` holds the ids of `root` and its
   * ancestors.
   */
  function BuildGuarded(root: Node, all: seq<Node>, path: set<string>): Tree
    decreases |Ids(all) - path|, 1, 0
  {
    Tree(root, [], ChildrenGuarded(root.derivesTo, all, path))
  }

  function ChildrenGuarded(ids: seq<string>, all: seq<Node>, path: set<string>): seq<Tree>
    decreases |Ids(all) - path|, 0, |ids|
  {
    if ids == [] then []
    else
      var n := FindNode(all, ids[|ids| - 1]);
      ChildrenGuarded(ids[..|ids| - 1], all, path)
      + if Fresh(n, path) then
          VisitShrinks(all, path, n.value);
          [BuildGuarded(n.value, all, path + {n.value.id})]
        else []
  }

  /** The derivation tree of `root` with cycles cut. */
  function BuildDerivationTreeGuarded(root: Node, all: seq<Node>): (t: Tree)
  {
    BuildGuarded(root, all, {root.id})
  }

  /** The found nodes for `ids` that are not on the path, in order. */
  function FoundFresh(ids: seq<string>, all: seq<Node>, path: set<string>): seq<Node>
  {
    if ids == [] then []
    else
      var n := FindNode(all, ids[|ids| - 1]);
      FoundFresh(ids[..|ids| - 1], all, path) + (if Fresh(n, path) then [n.value] else [])
  }

  /** With no node on the path, the fresh found nodes are all the found nodes. */
  lemma {:induction false} FoundFreshAll(ids: seq<string>, all: seq<Node>, path: set<string>)
    requires forall n :: n in all ==> n.id !in path
    ensures FoundFresh(ids, all, path) == Found(ids, all)
  {
    if ids != [] {
      FoundFreshAll(ids[..|ids| - 1], all, path);
    }
  }

  /**
   * The guarded tree keeps the root, has no steps, and takes as children
   * exactly the found derivesTo nodes not on the path, in order; no child's
   * id is on the path.
   */
  lemma {:induction false} ChildrenGuardedSpec(ids: seq<string>, all: seq<Node>, path: set<string>)
    ensures Roots(ChildrenGuarded(ids, all, path)) == FoundFresh(ids, all, path)
    ensures forall i :: 0 <= i < |ChildrenGuarded(ids, all, path)| ==>
      ChildrenGuarded(ids, all, path)[i].root.id !in path
      && ChildrenGuarded(ids, all, path)[i].steps == []
  {
    if ids != [] {
      var init := ids[..|ids| - 1];
      ChildrenGuardedSpec(init, all, path);
      var cs := ChildrenGuarded(init, all, path);
      var n := FindNode(all, ids[|ids| - 1]);
      if Fresh(n, path) {
        var t := BuildGuarded(n.value, all, path + {n.value.id});
        assert Roots(cs + [t]) == Roots(cs) + [t.root];
      }
    }
  }

  /** A node that derives to itself gets a tree with no children once cycles are cut. */
  lemma SelfLoopIsLeaf(n: Node, all: seq<Node>)
    requires n.derivesTo == [n.id] && FindNode(all, n.id) == Some(n)
    ensures BuildDerivationTreeGuarded(n, all) == Tree(n, [], [])
  {
    assert n.derivesTo[..0] == [];
    assert ChildrenGuarded(n.derivesTo[..0], all, {n.id}) == [];
    assert !Fresh(FindNode(all, n.derivesTo[0]), {n.id});
    assert ChildrenGuarded(n.derivesTo, all, {n.id}) == [];
  }

  // ---------------------------------------------------------------------------
  // traverseTree
  // ---------------------------------------------------------------------------

  /** The number of nodes of a tree. */
  function Size(t: Tree): (r: nat)
    ensures r >= 1
    decreases t
  {
    1 + SizeAll(t.children)
  }

  function SizeAll(ts: seq<Tree>): nat
    decreases ts
  {
    if ts == [] then 0 else SizeAll(ts[..|ts| - 1]) + Size(ts[|ts| - 1])
  }

  /** The number of levels of a tree. */
  function Height(t: Tree): (r: nat)
    ensures r >= 1
    decreases t
  {
    1 + HeightAll(t.children)
  }

  function HeightAll(ts: seq<Tree>): nat
    decreases ts
  {
    if ts == [] then 0
    else
      var h := Height(ts[|ts| - 1]);
      var rest := HeightAll(ts[..|ts| - 1]);
      if h > rest then h else rest
  }

  /** The (node, depth) pairs of `traverseTree`: the root, then each child's traversal. */
  function Preorder(t: Tree, depth: nat): (r: seq<(Node, nat)>)
    decreases t
  {
    [(t.root, depth)] + PreorderAll(t.children, depth + 1)
  }

  function PreorderAll(ts: seq<Tree>, depth: nat): (r: seq<(Node, nat)>)
    decreases ts
  {
    if ts == [] then [] else PreorderAll(ts[..|ts| - 1], depth) + Preorder(ts[|ts| - 1], depth)
  }

  /** `traverseTree`: push the root, then the traversal of every child at depth + 1. */
  method TraverseTree(t: Tree, depth: nat) returns (result: seq<(Node, nat)>)
    ensures result == Preorder(t, depth)
    decreases t
  {
    result := [(t.root, depth)];
    var children := t.children;
    for i := 0 to |children|
      invariant result == [(t.root, depth)] + PreorderAll(children[..i], depth + 1)
    {
      assert children[i] in t.children;
      var sub := TraverseTree(children[i], depth + 1);
      assert children[..i + 1][..i] == children[..i];
      result := result + sub;
    }
    assert children[..|children|] == children;
  }

  /**
   * The traversal lists every node once: its length is the size of the tree,
   * it starts with the root at the given depth, and every depth lies between
   * the given depth and the deepest level.
   */
  lemma {:induction false} PreorderSpec(t: Tree, depth: nat)
    ensures |Preorder(t, depth)| == Size(t)
    ensures Preorder(t, depth)[0] == (t.root, depth)
    ensures forall e :: e in Preorder(t, depth) ==> depth <= e.1 < depth + Height(t)
    decreases t, 1
  {
    PreorderAllSpec(t.children, depth + 1);
  }

  lemma {:induction false} PreorderAllSpec(ts: seq<Tree>, depth: nat)
    ensures |PreorderAll(ts, depth)| == SizeAll(ts)
    ensures forall e :: e in PreorderAll(ts, depth) ==> depth <= e.1 < depth + HeightAll(ts)
    decreases ts, 0
  {
    if ts != [] {
      var last := ts[|ts| - 1];
      assert last in ts;
      PreorderAllSpec(ts[..|ts| - 1], depth);
      PreorderSpec(last, depth);
    }
  }

  /** The first child's traversal starts right after the root, one level deeper. */
  lemma FirstChildFollowsRoot(t: Tree, depth: nat)
    requires |t.children| > 0
    ensures |Preorder(t, depth)| > 1 && Preorder(t, depth)[1] == (t.children[0].root, depth + 1)
  {
    PreorderAllFirst(t.children, depth + 1);
  }

  lemma {:induction false} PreorderAllFirst(ts: seq<Tree>, depth: nat)
    requires |ts| > 0
    ensures |PreorderAll(ts, depth)| > 0 && PreorderAll(ts, depth)[0] == (ts[0].root, depth)
    decreases |ts|
  {
    if |ts| > 1 {
      PreorderAllFirst(ts[..|ts| - 1], depth);
      assert ts[..|ts| - 1][0] == ts[0];
    } else {
      assert ts[..0] == [];
    }
  }

  // ---------------------------------------------------------------------------
  // findRootForWord
  // ---------------------------------------------------------------------------

  predicate IsDhatu(n: Node)
  {
    n.kind == "dhatu"
  }

  /** The node found for an id has the word as its IAST or Devanagari form. */
  predicate NamesWord(n: Option<Node>, word: string)
  {
    n.Some? && (n.value.iast == word || n.value.devanagari == word)
  }

  /** Some id the node derives to is a node of `nodes` that has the word. */
  predicate DerivesWord(d: Node, word: string, nodes: seq<Node>)
  {
    exists k :: 0 <= k < |d.derivesTo| && NamesWord(FindNode(nodes, d.derivesTo[k]), word)
  }

  /** The first of `ds` deriving to a node that has the word. */
  function FirstDeriving(ds: seq<Node>, word: string, nodes: seq<Node>): (r: Option<Node>)
    ensures r.Some? ==> r.value in ds && DerivesWord(r.value, word, nodes)
    ensures r.None? <==> forall d :: d in ds ==> !DerivesWord(d, word, nodes)
  {
    if ds == [] then None
    else if DerivesWord(ds[0], word, nodes) then Some(ds[0])
    else FirstDeriving(ds[1..], word, nodes)
  }

  lemma {:induction false} FirstDerivingAt(ds: seq<Node>, i: nat, word: string, nodes: seq<Node>)
    requires i < |ds| && DerivesWord(ds[i], word, nodes)
    requires forall j :: 0 <= j < i ==> !DerivesWord(ds[j], word, nodes)
    ensures FirstDeriving(ds, word, nodes) == Some(ds[i])
  {
    if i > 0 {
      FirstDerivingAt(ds[1..], i - 1, word, nodes);
    }
  }

  /** The root nodes among `nodes`, in order. */
  function Dhatus(nodes: seq<Node>): seq<Node>
  {
    Sorting.Filter(nodes, IsDhatu)
  }

  /** `findRootForWord`: the nested scan over root nodes and their derivesTo ids. */
  method FindRootForWord(word: string, nodes: seq<Node>) returns (r: Option<Node>)
    ensures r == FirstDeriving(Dhatus(nodes), word, nodes)
  {
    var dhatus := Dhatus(nodes);
    for i := 0 to |dhatus|
      invariant forall j :: 0 <= j < i ==> !DerivesWord(dhatus[j], word, nodes)
    {
      var d := dhatus[i];
      var derivs := d.derivesTo;
      for k := 0 to |derivs|
        invariant forall m :: 0 <= m < k ==> !NamesWord(FindNode(nodes, derivs[m]), word)
      {
        var node := FindNode(nodes, derivs[k]);
        if node.Some? && (node.value.iast == word || node.value.devanagari == word) {
          FirstDerivingAt(dhatus, i, word, nodes);
          return Some(d);
        }
      }
    }
    return None;
  }

  /**
   * The root found is a node of kind "dhatu" that derives to a node with the
   * word; none is found exactly when no root node does; and no earlier root
   * node qualifies.
   */
  lemma FindRootSpec(word: string, nodes: seq<Node>)
    ensures var r := FirstDeriving(Dhatus(nodes), word, nodes);
      && (r.Some? ==> r.value in nodes && IsDhatu(r.value) && DerivesWord(r.value, word, nodes))
      && (r.None? <==> forall n :: n in nodes && IsDhatu(n) ==> !DerivesWord(n, word, nodes))
  {
    Sorting.FilterMembers(nodes, IsDhatu);
  }
}
