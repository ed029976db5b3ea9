/** The hierarchy's data model and the default state the app starts from:
    node ids from the `uid` counter, `makeNode`, `createDefaultTree` (an objective
    with three criteria) and `createDefaultState` (one "no judgment yet" matrix over
    the criteria and one over the alternatives per criterion). */
module DataModel {
  import opened Matrices

  /** `uid()` yields `n_<timestamp>_<serial>`; the timestamp is the clock reading
      passed in, the serial the counter's value before the call. */
  datatype NodeId = NodeId(stamp: nat, serial: nat)

  /** The module-level counter `__uid`. */
  class UidCounter {
    var next: nat

    constructor ()
      ensures next == 0
    {
      next := 0;
    }

    /** `uid()` at clock reading `now`: the id carries the current serial, and the
        counter moves past it, so ids drawn from one counter never repeat. */
    method Uid(now: nat) returns (id: NodeId)
      modifies this
      ensures id == NodeId(now, old(next))
      ensures next == old(next) + 1
    {
      id := NodeId(now, next);
      next := next + 1;
    }
  }

  /** A node `{id, name, children}`; its child list is replaced in place. */
  class Node {
    const id: NodeId
    const name: string
    var children: seq<Node>

    constructor (id: NodeId, name: string)
      ensures this.id == id && this.name == name && children == []
    {
      this.id := id;
      this.name := name;
      children := [];
    }
  }

  /** `makeNode(name)`: a fresh childless node under a fresh id. */
  method MakeNode(uids: UidCounter, now: nat, name: string) returns (n: Node)
    modifies uids
    ensures fresh(n)
    ensures n.id == NodeId(now, old(uids.next)) && n.name == name && n.children == []
    ensures uids.next == old(uids.next) + 1
  {
    var id := uids.Uid(now);
    n := new Node(id, name);
  }

  /** What `createDefaultTree` returns: the root and the registry of every node by id. */
  datatype Tree = Tree(root: Node, nodesById: map<NodeId, Node>)

  /** What `createDefaultState` returns. `rootSensitivity` starts, and stays, empty. */
  datatype HierarchyState = HierarchyState(
    alternatives: seq<string>,
    treeRootId: NodeId,
    nodesById: map<NodeId, Node>,
    mByNode: map<NodeId, Matrix>,
    maltByLeaf: map<NodeId, Matrix>,
    rootSensitivity: map<NodeId, real>)

  /** `defaultAlternatives`. */
  const DefaultAlternatives: seq<string> := ["A", "B", "C"]

  /** The names of the default criteria, in order. */
  const DefaultCriteria: seq<string> := ["Costo", "Calidad", "Tiempo"]

  /** The default tree's shape: a root named "Objetivo" whose children are three
      childless criteria with the default names, and a registry holding exactly
      these four nodes under their own ids. */
  ghost predicate IsDefaultTree(t: Tree)
    reads t.root, set c | c in t.root.children
  {
    var kids := t.root.children;
    t.root.name == "Objetivo" && |kids| == 3 &&
    (forall k :: 0 <= k < 3 ==> kids[k].name == DefaultCriteria[k] && kids[k].children == []) &&
    t.nodesById == map[t.root.id := t.root, kids[0].id := kids[0], kids[1].id := kids[1], kids[2].id := kids[2]]
  }

  /** Every matrix sits on a registered node and is sized to what it compares: a
      node's criteria matrix to its children, a leaf's matrix to the alternatives;
      and every matrix satisfies the reciprocal invariant. */
  ghost predicate MatricesFit(s: HierarchyState)
    reads set k | k in s.nodesById :: s.nodesById[k]
  {
    (forall k :: k in s.mByNode ==>
       k in s.nodesById && IsSquare(s.mByNode[k], |s.nodesById[k].children|) && IsReciprocal(s.mByNode[k])) &&
    (forall k :: k in s.maltByLeaf ==>
       k in s.nodesById && s.nodesById[k].children == [] &&
       IsSquare(s.maltByLeaf[k], |s.alternatives|) && IsReciprocal(s.maltByLeaf[k]))
  }

  /** `createDefaultTree()`: four fresh nodes with consecutive serials, the three
      criteria attached to the root after construction. */
  method CreateDefaultTree(uids: UidCounter, now: nat) returns (t: Tree)
    modifies uids
    ensures fresh(t.root) && forall c :: c in t.root.children ==> fresh(c)
    ensures IsDefaultTree(t)
    ensures t.root.id.serial == old(uids.next)
    ensures forall k :: 0 <= k < |t.root.children| ==> t.root.children[k].id.serial == old(uids.next) + 1 + k
    ensures |t.nodesById| == 4
    ensures uids.next == old(uids.next) + 4
  {
    var root := MakeNode(uids, now, "Objetivo");
    var c1 := MakeNode(uids, now, "Costo");
    var c2 := MakeNode(uids, now, "Calidad");
    var c3 := MakeNode(uids, now, "Tiempo");
    root.children := [c1, c2, c3];
    t := Tree(root, map[root.id := root, c1.id := c1, c2.id := c2, c3.id := c3]);
    assert t.nodesById.Keys == {root.id, c1.id, c2.id, c3.id};
  }

  /** `createDefaultState()`: the default tree, the default alternatives, one all-ones
      matrix over the root's criteria, one all-ones matrix over the alternatives per
      criterion, and no sensitivity overrides. */
  method CreateDefaultState(uids: UidCounter, now: nat) returns (s: HierarchyState)
    modifies uids
    ensures s.treeRootId in s.nodesById
    ensures IsDefaultTree(Tree(s.nodesById[s.treeRootId], s.nodesById))
    ensures fresh(s.nodesById[s.treeRootId])
    ensures forall c :: c in s.nodesById[s.treeRootId].children ==> fresh(c)
    ensures s.alternatives == DefaultAlternatives
    ensures s.mByNode == map[s.treeRootId := InitializePairwise(3)]
    ensures var kids := s.nodesById[s.treeRootId].children;
            s.maltByLeaf == map[kids[0].id := InitializePairwise(3), kids[1].id := InitializePairwise(3),
                                kids[2].id := InitializePairwise(3)]
    ensures s.rootSensitivity == map[]
    ensures MatricesFit(s)
    ensures uids.next == old(uids.next) + 4
  {
    var t := CreateDefaultTree(uids, now);
    var root := t.root;
    var topM := InitializePairwise(|root.children|);
    var kids := root.children;
    var alt := InitializePairwise(|DefaultAlternatives|);
    s := HierarchyState(DefaultAlternatives, root.id, t.nodesById, map[root.id := topM],
                        map[kids[0].id := alt, kids[1].id := alt, kids[2].id := alt], map[]);
    InitializePairwiseIsReciprocal(3);
  }
}
