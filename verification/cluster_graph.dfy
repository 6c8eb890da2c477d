/**
 * The graph of clusters and portals (`CCluster`, `CPortal`) as a value: what two traversals of
 * `cluster.cpp` see of it while they set and clear their on-stack flags.
 *
 * Geometry is uninterpreted: whether a ray crosses a portal, how a portal clips a pyramid and on which
 * side of a portal the camera stands are functions fixed for one traversal.
 */
module ClusterGraph {
  import opened Wrappers

  datatype Plane = Plane(a: real, b: real, c: real, d: real)

  type Pyramid = seq<Plane>

  class Portal {
    var cluster0: Cluster?
    var cluster1: Cluster?
    var isOpen: bool

    constructor ()
      ensures cluster0 == null && cluster1 == null && isOpen
    {
      cluster0, cluster1, isOpen := null, null, true;
    }
  }

  /** A portal of a cluster, with the cluster on the other side. */
  datatype Door = Door(portal: Portal, isOpen: bool, other: Cluster?)

  /** What a traversal reads of a cluster. */
  datatype Node = Node(doors: seq<Door>, father: Cluster?, children: seq<Cluster>,
                       fatherVisible: bool, visibleFromFather: bool, cameraIn: bool) {
    /** Links in the order they are followed: the portals, the father, the children. */
    function Links(): nat {
      |doors| + 1 + |children|
    }
  }

  type Graph = map<Cluster, Node>

  ghost predicate DoorsStay(g: Graph, n: Node) {
    forall i | 0 <= i < |n.doors| :: n.doors[i].other != null ==> n.doors[i].other in g
  }

  ghost predicate ChildrenStay(g: Graph, n: Node) {
    forall i | 0 <= i < |n.children| :: n.children[i] in g
  }

  /** No link leaves the graph. */
  ghost predicate Closed(g: Graph) {
    forall c | c in g ::
      DoorsStay(g, g[c]) && ChildrenStay(g, g[c]) && (g[c].father != null ==> g[c].father in g)
  }

  class Cluster {
    var portals: seq<Portal>
    var father: Cluster?
    var children: seq<Cluster>
    var fatherVisible: bool
    var visibleFromFather: bool
    var cameraIn: bool
    var visited: bool

    constructor ()
      ensures portals == [] && father == null && children == [] && !visited && !cameraIn
      ensures !fatherVisible && !visibleFromFather
    {
      portals, father, children := [], null, [];
      fatherVisible, visibleFromFather, cameraIn, visited := false, false, false, false;
    }

    function OtherSide(p: Portal): Cluster?
      reads p
    {
      if p.cluster0 == this then p.cluster1 else p.cluster0
    }

    ghost predicate HasDoors(doors: seq<Door>)
      reads this`portals, portals
    {
      && |doors| == |portals|
      && forall i | 0 <= i < |doors| ::
           doors[i] == Door(portals[i], portals[i].isOpen, OtherSide(portals[i]))
    }

    /** The node n is what this cluster looks like now. */
    ghost predicate LooksLike(n: Node)
      reads this`portals, portals, this`father, this`children
      reads this`fatherVisible, this`visibleFromFather, this`cameraIn
    {
      && HasDoors(n.doors)
      && n.father == father && n.children == children
      && n.fatherVisible == fatherVisible && n.visibleFromFather == visibleFromFather
      && n.cameraIn == cameraIn
    }
  }

  ghost function AllPortals(world: set<Cluster>): set<Portal>
    reads world
  {
    set c, p | c in world && p in c.portals :: p
  }

  /** The graph g is what the clusters of a world look like now. */
  ghost predicate Shows(world: set<Cluster>, g: Graph)
    reads world, AllPortals(world)
  {
    g.Keys == world && forall c | c in world :: (forall p | p in c.portals :: p in AllPortals(world)) && c.LooksLike(g[c])
  }

  ghost function OnStack(world: set<Cluster>): set<Cluster>
    reads world
  {
    set c | c in world && c.visited
  }

  /** Sets the flag of a cluster; nothing of the graph itself changes. */
  method Mark(c: Cluster, flag: bool, ghost world: set<Cluster>, ghost g: Graph)
    requires Shows(world, g) && c in world
    modifies c`visited
    ensures c.visited == flag && Shows(world, g)
    ensures OnStack(world) == if flag then old(OnStack(world)) + {c} else old(OnStack(world)) - {c}
  {
    c.visited := flag;
  }

  ghost predicate Distinct<T>(s: seq<T>) {
    forall i, j | 0 <= i < j < |s| :: s[i] != s[j]
  }
}
