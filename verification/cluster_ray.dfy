/**
 * `CCluster::cameraRayClip`: collect the clusters that a ray may lead to, on a cyclic graph, with an
 * on-stack flag per cluster and no memory of what was visited before.
 */
module ClusterRay {
  import opened ClusterGraph

  /** Where the e-th link of a cluster leads a ray, null if nowhere. */
  function Target(g: Graph, hits: Portal -> bool, c: Cluster, e: nat): (t: Cluster?)
    requires Closed(g) && c in g && e < g[c].Links()
    ensures t != null ==> t in g
  {
    var n := g[c];
    if e < |n.doors| then
      var d := n.doors[e];
      if d.other != null && hits(d.portal) then d.other else null
    else if e == |n.doors| then
      // The flag is the inverse one: the way in is the way out.
      if n.visibleFromFather then n.father else null
    else
      var k := n.children[e - |n.doors| - 1];
      if g[k].fatherVisible then k else null
  }

  ghost predicate Edge(g: Graph, hits: Portal -> bool, c: Cluster, d: Cluster)
    requires Closed(g) && c in g
  {
    exists e: nat :: e < g[c].Links() && Target(g, hits, c, e) == d
  }

  /** The clusters reached from s in at most n links, no blocked cluster being entered. */
  ghost function Within(g: Graph, hits: Portal -> bool, blocked: set<Cluster>, s: Cluster, n: nat)
    : (r: set<Cluster>)
    requires Closed(g) && s in g
    ensures r <= g.Keys && r !! blocked
  {
    if n == 0 then {s} - blocked
    else
      var w := Within(g, hits, blocked, s, n - 1);
      w + set d | d in g && d !in blocked && exists c :: c in w && Edge(g, hits, c, d)
  }

  ghost predicate Reaches(g: Graph, hits: Portal -> bool, blocked: set<Cluster>, s: Cluster, c: Cluster)
    requires Closed(g) && s in g
  {
    exists n: nat :: c in Within(g, hits, blocked, s, n)
  }

  /** Reached through one of the first e links of u, u itself being blocked. */
  ghost predicate ReachesVia(g: Graph, hits: Portal -> bool, blocked: set<Cluster>, u: Cluster, e: nat,
                             c: Cluster)
    requires Closed(g) && u in g && e <= g[u].Links()
  {
    exists k: nat :: k < e && ReachesBy(g, hits, blocked, u, k, c)
  }

  ghost predicate ReachesBy(g: Graph, hits: Portal -> bool, blocked: set<Cluster>, u: Cluster, k: nat,
                            c: Cluster)
    requires Closed(g) && u in g && k < g[u].Links()
  {
    var t := Target(g, hits, u, k);
    t != null && Reaches(g, hits, blocked + {u}, t, c)
  }

  lemma {:induction false} WithinFewerBlocks(g: Graph, hits: Portal -> bool, blocked: set<Cluster>,
                                             u: Cluster, k: nat, c: Cluster, n: nat)
    requires Closed(g) && u in g && u !in blocked && k < g[u].Links()
    requires Target(g, hits, u, k) != null
    requires c in Within(g, hits, blocked + {u}, Target(g, hits, u, k), n)
    ensures c in Within(g, hits, blocked, u, n + 1)
    decreases n
  {
    var t := Target(g, hits, u, k);
    if n == 0 {
      assert u in Within(g, hits, blocked, u, 0);
      assert Edge(g, hits, u, t);
    } else if c in Within(g, hits, blocked + {u}, t, n - 1) {
      WithinFewerBlocks(g, hits, blocked, u, k, c, n - 1);
    } else {
      var b :| b in Within(g, hits, blocked + {u}, t, n - 1) && Edge(g, hits, b, c);
      WithinFewerBlocks(g, hits, blocked, u, k, b, n - 1);
    }
  }

  /** A path that leaves u can be cut at its last visit of u. */
  lemma {:induction false} CutAtLastVisit(g: Graph, hits: Portal -> bool, blocked: set<Cluster>, u: Cluster,
                                          c: Cluster, n: nat)
    requires Closed(g) && u in g && u !in blocked
    requires c in Within(g, hits, blocked, u, n)
    ensures c == u || ReachesVia(g, hits, blocked, u, g[u].Links(), c)
    decreases n
  {
    if c == u || n == 0 {
    } else if c in Within(g, hits, blocked, u, n - 1) {
      CutAtLastVisit(g, hits, blocked, u, c, n - 1);
    } else {
      var b :| b in Within(g, hits, blocked, u, n - 1) && Edge(g, hits, b, c);
      assert c in g && c !in blocked;
      hide Closed, Target, Edge, ReachesVia, Within;
      CutAtLastVisit(g, hits, blocked, u, b, n - 1);
      OneEdgeMore(g, hits, blocked, u, b, c);
    }
  }

  lemma OneEdgeMore(g: Graph, hits: Portal -> bool, blocked: set<Cluster>, u: Cluster, b: Cluster, c: Cluster)
    requires Closed(g) && u in g && b in g && c in g && c != u && c !in blocked && Edge(g, hits, b, c)
    requires b == u || ReachesVia(g, hits, blocked, u, g[u].Links(), b)
    ensures ReachesVia(g, hits, blocked, u, g[u].Links(), c)
  {
    if b == u {
      var e: nat :| e < g[u].Links() && Target(g, hits, u, e) == c;
      assert c in Within(g, hits, blocked + {u}, c, 0);
      assert ReachesBy(g, hits, blocked, u, e, c);
    } else {
      var k: nat :| k < g[u].Links() && ReachesBy(g, hits, blocked, u, k, b);
      var t := Target(g, hits, u, k);
      var m: nat :| b in Within(g, hits, blocked + {u}, t, m);
      hide Closed, Target;
      assert c in Within(g, hits, blocked + {u}, t, m + 1);
      assert ReachesBy(g, hits, blocked, u, k, c);
    }
  }

  /** Reaching from u is u itself, or reaching from a link of u without coming back to u. */
  lemma ReachesOneLinkAtATime(g: Graph, hits: Portal -> bool, blocked: set<Cluster>, u: Cluster, c: Cluster)
    requires Closed(g) && u in g && u !in blocked
    ensures Reaches(g, hits, blocked, u, c) <==> c == u || ReachesVia(g, hits, blocked, u, g[u].Links(), c)
  {
    if Reaches(g, hits, blocked, u, c) {
      var n: nat :| c in Within(g, hits, blocked, u, n);
      CutAtLastVisit(g, hits, blocked, u, c, n);
    }
    if c == u {
      assert c in Within(g, hits, blocked, u, 0);
    } else if ReachesVia(g, hits, blocked, u, g[u].Links(), c) {
      var k: nat :| k < g[u].Links() && ReachesBy(g, hits, blocked, u, k, c);
      var n: nat :| c in Within(g, hits, blocked + {u}, Target(g, hits, u, k), n);
      WithinFewerBlocks(g, hits, blocked, u, k, c, n);
    }
  }

  lemma {:induction false} BlockedReachesNothing(g: Graph, hits: Portal -> bool, blocked: set<Cluster>,
                                                 s: Cluster, n: nat)
    requires Closed(g) && s in g && s in blocked
    ensures Within(g, hits, blocked, s, n) == {}
  {
    if n > 0 {
      BlockedReachesNothing(g, hits, blocked, s, n - 1);
    }
  }

  /** A set that holds s and is closed under the links holds everything reached from s. */
  lemma {:induction false} ReachedIsLeast(g: Graph, hits: Portal -> bool, s: Cluster, closed: set<Cluster>, n: nat)
    requires Closed(g) && s in g && s in closed
    requires forall c, d | c in closed && c in g && d in g && Edge(g, hits, c, d) :: d in closed
    ensures Within(g, hits, {}, s, n) <= closed
  {
    if n > 0 {
      ReachedIsLeast(g, hits, s, closed, n - 1);
    }
  }

  /** With no cluster blocked, the reached clusters are closed under the links. */
  lemma ReachedIsClosed(g: Graph, hits: Portal -> bool, s: Cluster, c: Cluster, d: Cluster)
    requires Closed(g) && s in g && c in g && d in g
    requires Reaches(g, hits, {}, s, c) && Edge(g, hits, c, d)
    ensures Reaches(g, hits, {}, s, d)
  {
    var n: nat :| c in Within(g, hits, {}, s, n);
    assert d in Within(g, hits, {}, s, n + 1);
  }

  /** The clusters found are those of `before` and those reached through the first e links of u. */
  ghost predicate FoundVia(g: Graph, hits: Portal -> bool, blocked: set<Cluster>, u: Cluster, e: nat,
                           before: seq<Cluster>, found: seq<Cluster>)
    requires Closed(g) && u in g && e <= g[u].Links()
  {
    forall c | c in g ::
      c in found <==> c in before || c == u || ReachesVia(g, hits, blocked, u, e, c)
  }

  /** The clusters found are those of `before` and those reached from s. */
  ghost predicate FoundFrom(g: Graph, hits: Portal -> bool, blocked: set<Cluster>, s: Cluster,
                            before: seq<Cluster>, found: seq<Cluster>)
    requires Closed(g) && s in g
  {
    forall c | c in g :: c in found <==> c in before || Reaches(g, hits, blocked, s, c)
  }

  lemma FoundThroughLink(g: Graph, hits: Portal -> bool, blocked: set<Cluster>, u: Cluster, e: nat,
                         before: seq<Cluster>, earlier: seq<Cluster>, found: seq<Cluster>)
    requires Closed(g) && u in g && e < g[u].Links()
    requires FoundVia(g, hits, blocked, u, e, before, earlier)
    requires var t := Target(g, hits, u, e);
             if t == null then found == earlier else FoundFrom(g, hits, blocked + {u}, t, earlier, found)
    ensures FoundVia(g, hits, blocked, u, e + 1, before, found)
  {
    forall c | c in g
      ensures c in found <==> c in before || c == u || ReachesVia(g, hits, blocked, u, e + 1, c)
    {
      assert ReachesVia(g, hits, blocked, u, e + 1, c)
        <==> ReachesVia(g, hits, blocked, u, e, c) || ReachesBy(g, hits, blocked, u, e, c);
    }
  }

  /** The list only grew, by clusters of the graph, none of them twice. */
  ghost predicate Grown(g: Graph, found: seq<Cluster>, r: seq<Cluster>) {
    found <= r && Distinct(r) && forall c | c in r && c !in g :: c in found
  }

  lemma GrownAgain(g: Graph, a: seq<Cluster>, b: seq<Cluster>, c: seq<Cluster>)
    requires Grown(g, a, b) && Grown(g, b, c)
    ensures Grown(g, a, c)
  {
    hide Distinct;
  }

  /** While the links of u are followed: u is on the stack, above what was there before. */
  ghost predicate Following(world: set<Cluster>, g: Graph, u: Cluster, blocked: set<Cluster>)
    reads world, AllPortals(world)
  {
    u in world && u !in blocked && Shows(world, g) && OnStack(world) == blocked + {u}
  }

  lemma LinkCount(world: set<Cluster>, g: Graph, u: Cluster, blocked: set<Cluster>)
    requires Following(world, g, u, blocked) && Closed(g)
    ensures u in g && g[u].Links() == |u.portals| + 1 + |u.children|
  {
  }

  lemma DoorTarget(world: set<Cluster>, g: Graph, u: Cluster, hits: Portal -> bool, i: nat, blocked: set<Cluster>)
    requires Following(world, g, u, blocked) && Closed(g) && i < |u.portals|
    ensures i < g[u].Links()
    ensures var other := u.OtherSide(u.portals[i]);
            Target(g, hits, u, i) == if other != null && hits(u.portals[i]) then other else null
  {
    assert g[u].doors[i] == Door(u.portals[i], u.portals[i].isOpen, u.OtherSide(u.portals[i]));
  }

  lemma FatherTarget(world: set<Cluster>, g: Graph, u: Cluster, hits: Portal -> bool, blocked: set<Cluster>)
    requires Following(world, g, u, blocked) && Closed(g)
    ensures |u.portals| < g[u].Links()
    ensures Target(g, hits, u, |u.portals|) == if u.visibleFromFather then u.father else null
  {
  }

  lemma ChildTarget(world: set<Cluster>, g: Graph, u: Cluster, hits: Portal -> bool, i: nat, blocked: set<Cluster>)
    requires Following(world, g, u, blocked) && Closed(g) && i < |u.children|
    ensures |u.portals| + 1 + i < g[u].Links()
    ensures Target(g, hits, u, |u.portals| + 1 + i) == if u.children[i].fatherVisible then u.children[i] else null
  {
    LinkCount(world, g, u, blocked);
    hide Target, Shows, Closed, Node.Links, OnStack;
    TargetIs(world, g, hits, u, |u.portals| + 1 + i);
  }

  // ---- The edges, on the clusters and portals themselves ----

  lemma TargetIs(world: set<Cluster>, g: Graph, hits: Portal -> bool, c: Cluster, e: nat)
    requires Shows(world, g) && Closed(g) && c in world && e < g[c].Links()
    ensures g[c].Links() == |c.portals| + 1 + |c.children|
    ensures Target(g, hits, c, e) ==
              if e < |c.portals| then
                var p := c.portals[e];
                if !hits(p) then null else if p.cluster0 == c then p.cluster1 else p.cluster0
              else if e == |c.portals| then if c.visibleFromFather then c.father else null
              else
                var k := c.children[e - |c.portals| - 1];
                if k.fatherVisible then k else null
  {
    assert c.LooksLike(g[c]);
    if e > |c.portals| {
      var k := c.children[e - |c.portals| - 1];
      assert k in g && k.LooksLike(g[k]);
    }
  }

  lemma EdgeByLink(world: set<Cluster>, g: Graph, hits: Portal -> bool, c: Cluster, d: Cluster, e: nat)
    requires Shows(world, g) && Closed(g) && c in world && e < |c.portals| + 1 + |c.children|
    requires d == if e < |c.portals| then
                    var p := c.portals[e];
                    if !hits(p) then null else if p.cluster0 == c then p.cluster1 else p.cluster0
                  else if e == |c.portals| then if c.visibleFromFather then c.father else null
                  else
                    var k := c.children[e - |c.portals| - 1];
                    if k.fatherVisible then k else null
    ensures Edge(g, hits, c, d)
  {
    assert c.LooksLike(g[c]);
    hide Target, Shows, Closed, Cluster.HasDoors;
    TargetIs(world, g, hits, c, e);
  }

  lemma LinkOfEdge(world: set<Cluster>, g: Graph, hits: Portal -> bool, c: Cluster, d: Cluster)
    requires Shows(world, g) && Closed(g) && c in world && Edge(g, hits, c, d)
    ensures || (exists p :: p in c.portals && hits(p) && d == if p.cluster0 == c then p.cluster1 else p.cluster0)
            || (c.visibleFromFather && d == c.father)
            || (d in c.children && d.fatherVisible)
  {
    var e: nat :| e < g[c].Links() && Target(g, hits, c, e) == d;
    TargetIs(world, g, hits, c, e);
    hide Target, Shows, Closed, Node.Links;
    if e < |c.portals| {
      assert c.portals[e] in c.portals;
    }
  }

  lemma NoLinkWithoutEdge(world: set<Cluster>, g: Graph, hits: Portal -> bool, c: Cluster, d: Cluster)
    requires Shows(world, g) && Closed(g) && c in world && !Edge(g, hits, c, d)
    ensures forall p | p in c.portals && hits(p) :: d != if p.cluster0 == c then p.cluster1 else p.cluster0
    ensures !(c.visibleFromFather && d == c.father) && !(d in c.children && d.fatherVisible)
  {
    assert c in g;
    hide Edge, Shows, Closed;
    forall p | p in c.portals && hits(p)
      ensures d != if p.cluster0 == c then p.cluster1 else p.cluster0
    {
      var e :| 0 <= e < |c.portals| && c.portals[e] == p;
      if d == if p.cluster0 == c then p.cluster1 else p.cluster0 {
        EdgeByLink(world, g, hits, c, d, e);
      }
    }
    if c.visibleFromFather && d == c.father {
      EdgeByLink(world, g, hits, c, d, |c.portals|);
    }
    if d in c.children && d.fatherVisible {
      var i :| 0 <= i < |c.children| && c.children[i] == d;
      EdgeByLink(world, g, hits, c, d, |c.portals| + 1 + i);
    }
  }

  /**
   * A ray goes from c to d through a portal it crosses, from either side of it; up to the father that sees c;
   * or down to a child that sees its father; and nowhere else.
   */
  lemma EdgesAre(world: set<Cluster>, g: Graph, hits: Portal -> bool, c: Cluster, d: Cluster)
    requires Shows(world, g) && Closed(g) && c in world
    ensures Edge(g, hits, c, d) <==>
              || (exists p :: p in c.portals && hits(p) && d == if p.cluster0 == c then p.cluster1 else p.cluster0)
              || (c.visibleFromFather && d == c.father)
              || (d in c.children && d.fatherVisible)
  {
    if Edge(g, hits, c, d) {
      LinkOfEdge(world, g, hits, c, d);
    } else {
      NoLinkWithoutEdge(world, g, hits, c, d);
    }
  }

  /** A portal of c that the ray crosses leads to the other of its two clusters, whichever c is: the ray finds it. */
  lemma PortalIsCrossed(world: set<Cluster>, g: Graph, hits: Portal -> bool, p: Portal, c: Cluster, d: Cluster)
    requires Shows(world, g) && Closed(g) && c in world && d in world && c != d && p in c.portals && hits(p)
    requires (p.cluster0 == c && p.cluster1 == d) || (p.cluster0 == d && p.cluster1 == c)
    ensures Edge(g, hits, c, d) && Reaches(g, hits, {}, c, d)
  {
    EdgesAre(world, g, hits, c, d);
    hide Edge, Shows, Closed;
    assert c in Within(g, hits, {}, c, 0);
    assert d in Within(g, hits, {}, c, 1);
  }

  lemma NothingFound(g: Graph, hits: Portal -> bool, blocked: set<Cluster>, s: Cluster, found: seq<Cluster>)
    requires Closed(g) && s in g && s in blocked
    ensures FoundFrom(g, hits, blocked, s, found, found)
  {
    forall c | c in g
      ensures !Reaches(g, hits, blocked, s, c)
    {
      forall n: nat
        ensures c !in Within(g, hits, blocked, s, n)
      {
        BlockedReachesNothing(g, hits, blocked, s, n);
      }
    }
  }

  lemma FoundFromAllLinks(g: Graph, hits: Portal -> bool, blocked: set<Cluster>, u: Cluster,
                          before: seq<Cluster>, found: seq<Cluster>)
    requires Closed(g) && u in g && u !in blocked
    requires FoundVia(g, hits, blocked, u, g[u].Links(), before, found)
    ensures FoundFrom(g, hits, blocked, u, before, found)
  {
    forall c | c in g
      ensures c in found <==> c in before || Reaches(g, hits, blocked, u, c)
    {
      ReachesOneLinkAtATime(g, hits, blocked, u, c);
    }
  }

  /**
   * Follows one link of u, to t if t is a cluster.
   */
  method Follow(u: Cluster, ghost e: nat, t: Cluster?, hits: Portal -> bool, found: seq<Cluster>,
                ghost world: set<Cluster>, ghost g: Graph, ghost before: seq<Cluster>, ghost blocked: set<Cluster>)
    returns (r: seq<Cluster>)
    requires Following(world, g, u, blocked) && Closed(g) && e < g[u].Links() && t == Target(g, hits, u, e)
    requires Grown(g, before, found) && FoundVia(g, hits, blocked, u, e, before, found)
    modifies world`visited
    ensures Following(world, g, u, blocked)
    ensures Grown(g, before, r) && FoundVia(g, hits, blocked, u, e + 1, before, r)
    decreases g.Keys - blocked - {u}, 2
  {
    hide Closed, FoundVia, FoundFrom, Reaches, ReachesVia, Within, Target, Node.Links;
    r := found;
    if t != null {
      r := CameraRayClip(t, hits, r, world, g);
      GrownAgain(g, before, found, r);
    }
    FoundThroughLink(g, hits, blocked, u, e, before, found, r);
  }

  /** Follows the portals, then the link up, then the links down. */
  method FollowLinks(u: Cluster, hits: Portal -> bool, found: seq<Cluster>, ghost world: set<Cluster>,
                     ghost g: Graph, ghost before: seq<Cluster>, ghost blocked: set<Cluster>)
    returns (r: seq<Cluster>)
    requires Following(world, g, u, blocked) && Closed(g)
    requires Grown(g, before, found) && FoundVia(g, hits, blocked, u, 0, before, found)
    modifies world`visited
    ensures Following(world, g, u, blocked)
    ensures Grown(g, before, r) && FoundVia(g, hits, blocked, u, g[u].Links(), before, r)
    decreases g.Keys - blocked - {u}, 3
  {
    hide *;
    r := found;
    LinkCount(world, g, u, blocked);
    for i := 0 to |u.portals|
      invariant Following(world, g, u, blocked) && Grown(g, before, r)
      invariant FoundVia(g, hits, blocked, u, i, before, r)
    {
      DoorTarget(world, g, u, hits, i, blocked);
      var p := u.portals[i];
      var other := u.OtherSide(p);
      r := Follow(u, i, if other != null && hits(p) then other else null, hits, r, world, g, before, blocked);
    }
    FatherTarget(world, g, u, hits, blocked);
    r := Follow(u, |u.portals|, if u.visibleFromFather then u.father else null, hits, r, world, g, before, blocked);
    for i := 0 to |u.children|
      invariant Following(world, g, u, blocked) && Grown(g, before, r)
      invariant FoundVia(g, hits, blocked, u, |u.portals| + 1 + i, before, r)
    {
      ChildTarget(world, g, u, hits, i, blocked);
      var k := u.children[i];
      r := Follow(u, |u.portals| + 1 + i, if k.fatherVisible then k else null, hits, r, world, g, before, blocked);
    }
  }

  /**
   * Adds to `found` the clusters the ray leads to from `self`, none twice. The flags end as they
   * were, and a cluster already on the stack is not entered.
   */
  method CameraRayClip(self: Cluster, hits: Portal -> bool, found: seq<Cluster>, ghost world: set<Cluster>,
                       ghost g: Graph)
    returns (r: seq<Cluster>)
    requires Shows(world, g) && Closed(g) && self in world && Distinct(found)
    modifies world`visited
    ensures Shows(world, g) && OnStack(world) == old(OnStack(world))
    ensures Grown(g, found, r)
    ensures FoundFrom(g, hits, old(OnStack(world)), self, found, r)
    decreases g.Keys - OnStack(world), 1
  {
    hide Closed, Reaches, ReachesBy, Within, Target, Node.Links, FoundFrom, Cluster.HasDoors, Cluster.LooksLike, AllPortals;
    r := found;
    ghost var blocked := OnStack(world);
    if self.visited {
      NothingFound(g, hits, blocked, self, found);
      return;
    }
    Mark(self, true, world, g);
    if self !in r {
      r := r + [self];
    }
    assert FoundVia(g, hits, blocked, self, 0, found, r);
    r := FollowLinks(self, hits, r, world, g, found, blocked);
    Mark(self, false, world, g);
    FoundFromAllLinks(g, hits, blocked, self, found, r);
  }

  /** Found from one of the first k starting clusters. */
  ghost predicate ReachedFrom(g: Graph, hits: Portal -> bool, starts: seq<Cluster>, k: nat, c: Cluster)
    requires Closed(g) && k <= |starts| && forall s | s in starts :: s in g
  {
    exists i: nat :: i < k && Reaches(g, hits, {}, starts[i], c)
  }

  /**
   * `CScene::findCameraClusterSystemFromRay`, lines 1438-1444: the clusters the ray leads to from any
   * cluster that holds its start.
   */
  method ClustersVisited(starts: seq<Cluster>, hits: Portal -> bool, ghost world: set<Cluster>, ghost g: Graph)
    returns (found: seq<Cluster>)
    requires Shows(world, g) && Closed(g) && OnStack(world) == {} && forall s | s in starts :: s in world
    modifies world`visited
    ensures Shows(world, g) && OnStack(world) == {}
    ensures Distinct(found) && forall c | c in found :: c in g
    ensures forall c | c in g :: c in found <==> ReachedFrom(g, hits, starts, |starts|, c)
  {
    hide Closed, Reaches, Cluster.LooksLike;
    found := [];
    for i := 0 to |starts|
      invariant Shows(world, g) && OnStack(world) == {}
      invariant Distinct(found) && forall c | c in found :: c in g
      invariant forall c | c in g :: c in found <==> ReachedFrom(g, hits, starts, i, c)
    {
      ghost var before := found;
      found := CameraRayClip(starts[i], hits, found, world, g);
      forall c | c in g
        ensures c in found <==> ReachedFrom(g, hits, starts, i + 1, c)
      {
        assert ReachedFrom(g, hits, starts, i + 1, c)
          <==> ReachedFrom(g, hits, starts, i, c) || Reaches(g, hits, {}, starts[i], c);
      }
    }
  }
}
