/**
 * `CFastPtrList`: arrays of pointers with insertion and removal in constant time. Each element has a
 * node that knows its list and its place in it; removal moves the last element into the hole.
 */
module FastPtrLists {

  class Node {
    var owner: List?
    var indexInOwner: nat

    constructor ()
      ensures owner == null
    {
      owner, indexInOwner := null, 0;
    }
  }

  class List {
    var elements: seq<object>
    var nodes: seq<Node>

    constructor ()
      ensures elements == [] && nodes == []
    {
      elements, nodes := [], [];
    }

    /** The nodes of this list know their place, and there is one element per node. */
    ghost predicate Indexed()
      reads this, nodes
    {
      && |elements| == |nodes|
      && forall i | 0 <= i < |nodes| :: nodes[i].owner == this && nodes[i].indexInOwner == i
    }
  }

  ghost predicate NodeOk(lists: set<List>, n: Node)
    reads lists, n
  {
    n.owner != null ==> n.owner in lists && n.indexInOwner < |n.owner.nodes| && n.owner.nodes[n.indexInOwner] == n
  }

  ghost predicate ListOk(nodes: set<Node>, l: List)
    reads l, nodes
  {
    (forall n | n in l.nodes :: n in nodes) && l.Indexed()
  }

  /** Any number of lists and nodes: each list is indexed, and each node is where it says. */
  ghost predicate World(lists: set<List>, nodes: set<Node>)
    reads lists, nodes
  {
    && (forall l | l in lists :: ListOk(nodes, l))
    && (forall n | n in nodes :: NodeOk(lists, n))
  }

  /** What the lists hold, arrays and indices forgotten: the list and the element of each linked node. */
  ghost function Links(lists: set<List>, nodes: set<Node>): map<Node, (List, object)>
    requires World(lists, nodes)
    reads lists, nodes
  {
    map n | n in nodes && n.owner != null :: LinkOf(lists, nodes, n)
  }

  ghost function LinkOf(lists: set<List>, nodes: set<Node>, n: Node): (List, object)
    requires World(lists, nodes) && n in nodes && n.owner != null
    reads lists, nodes
  {
    assert NodeOk(lists, n) && ListOk(nodes, n.owner);
    (n.owner, n.owner.elements[n.indexInOwner])
  }

  type LinkMap = map<Node, (List, object)>

  ghost function Erased(m: LinkMap, l: List, n: Node): LinkMap {
    if n in m && m[n].0 == l then m - {n} else m
  }

  /** A node already linked to the list keeps its element; any other is unlinked first. */
  ghost function Inserted(m: LinkMap, l: List, e: object, n: Node): LinkMap {
    if n in m && m[n].0 == l then m else m[n := (l, e)]
  }

  ghost function Cleared(m: LinkMap, l: List): LinkMap {
    map n | n in m && m[n].0 != l :: m[n]
  }

  /** The sequence with its last element moved to place i. */
  function SwapErased<T>(s: seq<T>, i: nat): (r: seq<T>)
    requires i < |s|
    ensures |r| == |s| - 1
  {
    s[i := s[|s| - 1]][..|s| - 1]
  }

  lemma {:induction false} SwapErasedRemovesOne<T>(s: seq<T>, i: nat)
    requires i < |s|
    ensures multiset(SwapErased(s, i)) == multiset(s) - multiset{s[i]}
  {
    var n := |s| - 1;
    assert s == s[..n] + [s[n]];
    if i == n {
      assert SwapErased(s, i) == s[..n];
    } else {
      var u := s[..n];
      assert SwapErased(s, i) == u[i := s[n]];
      assert multiset(u[i := s[n]]) == multiset(u) - multiset{u[i]} + multiset{s[n]};
    }
  }

  /** A node is in at most one list, at most once. */
  lemma OneListPerNode(lists: set<List>, nodes: set<Node>, l: List, k: List, i: nat, j: nat)
    requires World(lists, nodes) && l in lists && k in lists && i < |l.nodes| && j < |k.nodes|
    requires l.nodes[i] == k.nodes[j]
    ensures l == k && i == j
  {
    assert l.nodes[i] in l.nodes && k.nodes[j] in k.nodes;
    assert k.Indexed() && l.Indexed();
  }

  /** The element and the node at a place are removed from the two arrays in step. */
  method Remove(l: List, node: Node)
    requires l.Indexed() && node in l.nodes
    modifies l, l.nodes
    ensures l.Indexed() && node.owner == null && node !in l.nodes
    ensures old(node.indexInOwner) < |old(l.nodes)|
    ensures l.nodes == SwapErased(old(l.nodes), old(node.indexInOwner))
    ensures l.elements == SwapErased(old(l.elements), old(node.indexInOwner))
    ensures forall n | n in old(l.nodes) && n != node :: n.owner == l && n in l.nodes
    ensures forall n | n in l.nodes :: n in old(l.nodes) && l.elements[n.indexInOwner] == old(l.elements[n.indexInOwner])
  {
    var nodeIndex, lastIndex := node.indexInOwner, |l.nodes| - 1;
    l.elements := l.elements[nodeIndex := l.elements[lastIndex]][lastIndex := l.elements[nodeIndex]];
    l.nodes := l.nodes[nodeIndex := l.nodes[lastIndex]][lastIndex := l.nodes[nodeIndex]];
    l.nodes[nodeIndex].indexInOwner := nodeIndex;
    l.elements, l.nodes := l.elements[..lastIndex], l.nodes[..lastIndex];
    node.owner := null;
    forall n | n in old(l.nodes) && n != node
      ensures n in l.nodes
    {
      var k := old(n.indexInOwner);
      assert old(l.nodes)[k] == n;
      assert l.nodes[if k == lastIndex then nodeIndex else k] == n;
    }
  }

  /** Removes a node from a list; nothing if it is not there. */
  method Erase(l: List, node: Node, ghost lists: set<List>, ghost nodes: set<Node>)
    requires World(lists, nodes) && l in lists && node in nodes
    modifies l, l.nodes
    ensures World(lists, nodes)
    ensures old(node.owner) != l ==>
              node.owner == old(node.owner) && l.nodes == old(l.nodes) && l.elements == old(l.elements)
    ensures old(node.owner) == l ==>
              && node.owner == null && old(node.indexInOwner) < |old(l.nodes)| == |old(l.elements)|
              && l.nodes == SwapErased(old(l.nodes), old(node.indexInOwner))
              && l.elements == SwapErased(old(l.elements), old(node.indexInOwner))
    ensures Links(lists, nodes) == Erased(old(Links(lists, nodes)), l, node)
  {
    assert ListOk(nodes, l) && NodeOk(lists, node);
    if node.owner != l {
      assert node !in l.nodes;
      return;
    }
    ghost var m := Links(lists, nodes);
    Remove(l, node);
    forall k | k in lists
      ensures ListOk(nodes, k)
    {
      assert old(ListOk(nodes, k));
    }
    forall n | n in nodes
      ensures NodeOk(lists, n)
      ensures n != node ==> n.owner == old(n.owner)
      ensures n != node && n.owner != null ==> (n.owner, n.owner.elements[n.indexInOwner]) == m[n]
    {
      assert old(NodeOk(lists, n));
    }
    hide ListOk, List.Indexed, NodeOk, SwapErased;
  }

  /** Removes a node from the list it is in, if any. */
  method Unlink(node: Node, ghost lists: set<List>, ghost nodes: set<Node>)
    requires World(lists, nodes) && node in nodes
    modifies if node.owner == null then {} else {node.owner}
    modifies if node.owner == null then [] else node.owner.nodes
    ensures World(lists, nodes) && node.owner == null
    ensures Links(lists, nodes) == old(Links(lists, nodes)) - {node}
  {
    assert NodeOk(lists, node);
    if node.owner != null {
      Erase(node.owner, node, lists, nodes);
    }
  }

  lemma LinkedTo(node: Node, lists: set<List>, nodes: set<Node>)
    requires World(lists, nodes) && node in nodes
    ensures node in Links(lists, nodes) <==> node.owner != null
    ensures node.owner != null ==> Links(lists, nodes)[node].0 == node.owner
  {
  }

  /** Inserts an element through its node, which leaves the list it was in. */
  method Insert(l: List, element: object, node: Node, ghost lists: set<List>, ghost nodes: set<Node>)
    requires World(lists, nodes) && l in lists && node in nodes
    modifies lists, nodes
    ensures World(lists, nodes)
    ensures Links(lists, nodes) == Inserted(old(Links(lists, nodes)), l, element, node)
    ensures node.owner == l
    ensures if old(node.owner) == l then l.elements == old(l.elements) && l.nodes == old(l.nodes)
            else l.elements == old(l.elements) + [element] && l.nodes == old(l.nodes) + [node]
  {
    assert NodeOk(lists, node);
    LinkedTo(node, lists, nodes);
    hide Links, NodeOk, ListOk;
    if node.owner == l {
      return;
    }
    Unlink(node, lists, nodes);
    assert l.elements == old(l.elements) && l.nodes == old(l.nodes);
    Append(l, element, node, lists, nodes);
  }

  method Append(l: List, element: object, node: Node, ghost lists: set<List>, ghost nodes: set<Node>)
    requires World(lists, nodes) && l in lists && node in nodes && node.owner == null
    modifies l, node
    ensures World(lists, nodes)
    ensures l.elements == old(l.elements) + [element] && l.nodes == old(l.nodes) + [node] && node.owner == l
    ensures Links(lists, nodes) == old(Links(lists, nodes))[node := (l, element)]
  {
    assert ListOk(nodes, l) && NodeOk(lists, node);
    ghost var m := Links(lists, nodes);
    l.elements := l.elements + [element];
    l.nodes := l.nodes + [node];
    node.owner := l;
    node.indexInOwner := |l.nodes| - 1;
    forall k | k in lists
      ensures ListOk(nodes, k)
    {
      assert old(ListOk(nodes, k));
    }
    forall n | n in nodes
      ensures NodeOk(lists, n)
      ensures n != node ==> n.owner == old(n.owner)
      ensures n != node && n.owner != null ==> (n.owner, n.owner.elements[n.indexInOwner]) == m[n]
    {
      assert old(NodeOk(lists, n));
    }
    hide ListOk, List.Indexed, NodeOk;
    assert LinkOf(lists, nodes, node) == (l, element);
  }

  /** Erases the first node until there is none. */
  method Clear(l: List, ghost lists: set<List>, ghost nodes: set<Node>)
    requires World(lists, nodes) && l in lists
    modifies l, nodes
    ensures World(lists, nodes) && l.nodes == [] && l.elements == []
    ensures Links(lists, nodes) == Cleared(old(Links(lists, nodes)), l)
  {
    hide Links, Cleared, Erased, List.Indexed, NodeOk;
    ghost var before := Links(lists, nodes);
    while |l.nodes| != 0
      invariant World(lists, nodes)
      invariant Cleared(Links(lists, nodes), l) == Cleared(before, l)
      decreases |l.nodes|
    {
      FirstNode(l, lists, nodes);
      assert ListOk(nodes, l);
      var node := l.nodes[0];
      ClearedErased(Links(lists, nodes), l, node);
      Erase(l, node, lists, nodes);
    }
    FirstNode(l, lists, nodes);
    NothingToClear(l, lists, nodes);
  }

  lemma FirstNode(l: List, lists: set<List>, nodes: set<Node>)
    requires World(lists, nodes) && l in lists
    ensures |l.elements| == |l.nodes|
    ensures |l.nodes| > 0 ==> l.nodes[0] in nodes && l.nodes[0].owner == l
  {
    assert ListOk(nodes, l);
    if |l.nodes| > 0 {
      assert l.nodes[0] in l.nodes;
    }
  }

  lemma ClearedErased(m: LinkMap, l: List, n: Node)
    ensures Cleared(Erased(m, l, n), l) == Cleared(m, l)
  {
  }

  lemma NothingToClear(l: List, lists: set<List>, nodes: set<Node>)
    requires World(lists, nodes) && l.nodes == []
    ensures Cleared(Links(lists, nodes), l) == Links(lists, nodes)
  {
    forall n | n in nodes && n.owner != null
      ensures n.owner != l
    {
      assert NodeOk(lists, n);
    }
  }

  // ---- Any sequence of operations ----

  datatype Op = OpInsert(l: List, e: object, n: Node) | OpErase(l: List, n: Node) | OpUnlink(n: Node) | OpClear(l: List)

  ghost predicate OpOk(lists: set<List>, nodes: set<Node>, op: Op) {
    match op
    case OpInsert(l, _, n) => l in lists && n in nodes
    case OpErase(l, n) => l in lists && n in nodes
    case OpUnlink(n) => n in nodes
    case OpClear(l) => l in lists
  }

  ghost function After(m: LinkMap, op: Op): LinkMap {
    match op
    case OpInsert(l, e, n) => Inserted(m, l, e, n)
    case OpErase(l, n) => Erased(m, l, n)
    case OpUnlink(n) => m - {n}
    case OpClear(l) => Cleared(m, l)
  }

  ghost function AfterAll(m: LinkMap, ops: seq<Op>): LinkMap {
    if |ops| == 0 then m else After(AfterAll(m, ops[..|ops| - 1]), ops[|ops| - 1])
  }

  /** Operations in any order keep the lists right, and do to the links what they say, one by one. */
  method Perform(ops: seq<Op>, ghost lists: set<List>, ghost nodes: set<Node>)
    requires World(lists, nodes) && forall op | op in ops :: OpOk(lists, nodes, op)
    modifies lists, nodes
    ensures World(lists, nodes)
    ensures Links(lists, nodes) == AfterAll(old(Links(lists, nodes)), ops)
  {
    ghost var m := Links(lists, nodes);
    for i := 0 to |ops|
      invariant World(lists, nodes) && Links(lists, nodes) == AfterAll(m, ops[..i])
    {
      assert ops[..i + 1][..i] == ops[..i];
      assert OpOk(lists, nodes, ops[i]);
      PerformOne(ops[i], lists, nodes);
    }
    assert ops[..|ops|] == ops;
  }

  method PerformOne(op: Op, ghost lists: set<List>, ghost nodes: set<Node>)
    requires World(lists, nodes) && OpOk(lists, nodes, op)
    modifies lists, nodes
    ensures World(lists, nodes)
    ensures Links(lists, nodes) == After(old(Links(lists, nodes)), op)
  {
    match op
    case OpInsert(l, e, n) =>
      Insert(l, e, n, lists, nodes);
    case OpErase(l, n) =>
      assert ListOk(nodes, l);
      Erase(l, n, lists, nodes);
    case OpUnlink(n) =>
      forall l | l in lists
        ensures forall k | k in l.nodes :: k in nodes
      {
        assert ListOk(nodes, l);
      }
      Unlink(n, lists, nodes);
    case OpClear(l) =>
      assert ListOk(nodes, l);
      Clear(l, lists, nodes);
  }
}
