/**
 * `CCluster::recursTraverseClip`: look through the portals with a pyramid that each portal clips, and
 * put the pyramid back after each of them.
 *
 * A visit is described by its trail, the stops from the root of the traversal to the cluster visited.
 */
module ClusterClip {
  import opened ClusterGraph
  import opened Wrappers

  datatype Camera = Camera(clip: (Portal, Pyramid) -> Option<Pyramid>, inFront: Portal -> bool)

  /** A cluster entered from `caller`, by link `via` of the caller, with a pyramid. */
  datatype Stop = Stop(cluster: Cluster, caller: Cluster?, pyramid: Pyramid, via: nat)

  type Trail = seq<Stop>

  /** A portal seen from behind is not looked through by a cluster entered from its father. */
  predicate BackfaceClipped(g: Graph, cam: Camera, s: Stop, p: Portal)
    requires s.cluster in g
  {
    var n := g[s.cluster];
    n.father != null && s.caller == n.father && n.visibleFromFather && !cam.inFront(p)
  }

  /** A closed portal clips everything. */
  function ClipPyramid(cam: Camera, d: Door, p: Pyramid): Option<Pyramid> {
    if d.isOpen then cam.clip(d.portal, p) else None
  }

  /** The stop that link e leads to, if any. */
  function Next(g: Graph, cam: Camera, s: Stop, e: nat): (r: Option<Stop>)
    requires Closed(g) && s.cluster in g && e < g[s.cluster].Links()
    ensures r.Some? ==> r.value.cluster in g && r.value.caller == s.cluster && r.value.via == e
  {
    var n := g[s.cluster];
    if e < |n.doors| then
      var d := n.doors[e];
      if d.other == null || BackfaceClipped(g, cam, s, d.portal) then None
      // A cluster that holds the camera is fully visible.
      else if g[d.other].cameraIn then Some(Stop(d.other, s.cluster, s.pyramid, e))
      else
        match ClipPyramid(cam, d, s.pyramid)
        case Some(q) => Some(Stop(d.other, s.cluster, q, e))
        case None => None
    else if e == |n.doors| then
      if n.fatherVisible && n.father != null then Some(Stop(n.father, s.cluster, s.pyramid, e)) else None
    else
      var k := n.children[e - |n.doors| - 1];
      if g[k].visibleFromFather then Some(Stop(k, s.cluster, s.pyramid, e)) else None
  }

  ghost function On(t: Trail): set<Cluster> {
    set s | s in t :: s.cluster
  }

  ghost predicate LinkOk(g: Graph, cam: Camera, s: Stop, next: Stop)
    requires Closed(g)
  {
    s.cluster in g && next.via < g[s.cluster].Links() && Next(g, cam, s, next.via) == Some(next)
  }

  ghost predicate Simple(t: Trail) {
    forall i, j | 0 <= i < j < |t| :: t[i].cluster != t[j].cluster
  }

  /** A trail: every stop is where a link of the one before leads, and no cluster comes twice. */
  ghost predicate IsTrail(g: Graph, cam: Camera, t: Trail)
    requires Closed(g)
  {
    && |t| > 0 && t[0].cluster in g
    && (forall i | 0 < i < |t| :: LinkOk(g, cam, t[i - 1], t[i]))
    && Simple(t)
  }

  function Last(t: Trail): Stop
    requires |t| > 0
  {
    t[|t| - 1]
  }

  /** The visits made from the last stop of t on, in order. */
  ghost function Walk(g: Graph, cam: Camera, t: Trail): (w: seq<Trail>)
    requires Closed(g) && |t| > 0 && Last(t).cluster in g
    decreases |g.Keys - On(t)|, g[Last(t).cluster].Links() + 1, 0
  {
    [t] + WalkLinks(g, cam, t, g[Last(t).cluster].Links())
  }

  /** The visits made through the first k links of the last stop of t. */
  ghost function WalkLinks(g: Graph, cam: Camera, t: Trail, k: nat): seq<Trail>
    requires Closed(g) && |t| > 0 && Last(t).cluster in g && k <= g[Last(t).cluster].Links()
    decreases |g.Keys - On(t)|, k, 1
  {
    if k == 0 then [] else WalkLinks(g, cam, t, k - 1) + WalkLink(g, cam, t, k - 1)
  }

  ghost function WalkLink(g: Graph, cam: Camera, t: Trail, e: nat): seq<Trail>
    requires Closed(g) && |t| > 0 && Last(t).cluster in g && e < g[Last(t).cluster].Links()
    decreases |g.Keys - On(t)|, e, 2
  {
    match Next(g, cam, Last(t), e)
    case Some(s) =>
      if s.cluster in On(t) then []
      else
        FewerLeft(g, t, s);
        Walk(g, cam, t + [s])
    case None => []
  }

  lemma FewerLeft(g: Graph, t: Trail, s: Stop)
    requires s.cluster in g && s.cluster !in On(t)
    ensures On(t + [s]) == On(t) + {s.cluster}
    ensures |g.Keys - On(t + [s])| < |g.Keys - On(t)|
  {
    assert forall x :: x in t + [s] <==> x in t || x == s;
    assert g.Keys - On(t) == (g.Keys - On(t + [s])) + {s.cluster};
  }

  lemma TrailGrows(g: Graph, cam: Camera, t: Trail, s: Stop)
    requires Closed(g) && IsTrail(g, cam, t) && s.cluster !in On(t)
    requires LinkOk(g, cam, Last(t), s)
    ensures IsTrail(g, cam, t + [s])
  {
    forall i | 0 <= i < |t|
      ensures t[i].cluster != s.cluster
    {
      assert t[i] in t;
    }
  }

  /** Link e of the last stop of t leads to a cluster not on the trail. */
  ghost predicate Enters(g: Graph, cam: Camera, t: Trail, e: nat)
    requires Closed(g) && |t| > 0 && Last(t).cluster in g && e < g[Last(t).cluster].Links()
  {
    var next := Next(g, cam, Last(t), e);
    next.Some? && next.value.cluster !in On(t)
  }

  lemma Entered(g: Graph, cam: Camera, t: Trail, e: nat) returns (u: Trail)
    requires Closed(g) && IsTrail(g, cam, t) && Last(t).cluster in g && e < g[Last(t).cluster].Links()
    requires Enters(g, cam, t, e)
    ensures u == t + [Next(g, cam, Last(t), e).value] && u[|t|].via == e
    ensures IsTrail(g, cam, u) && Last(u).cluster in g
    ensures |g.Keys - On(u)| < |g.Keys - On(t)|
    ensures WalkLink(g, cam, t, e) == Walk(g, cam, u)
  {
    var s := Next(g, cam, Last(t), e).value;
    u := t + [s];
    FewerLeft(g, t, s);
    TrailGrows(g, cam, t, s);
  }

  /** Every visit is a trail that continues t. */
  lemma {:induction false} WalkOnlyTrails(g: Graph, cam: Camera, t: Trail, v: Trail)
    requires Closed(g) && IsTrail(g, cam, t) && Last(t).cluster in g
    requires v in Walk(g, cam, t)
    ensures t <= v && IsTrail(g, cam, v)
    decreases |g.Keys - On(t)|
  {
    if v != t {
      var e := LinkOfVisit(g, cam, t, v, g[Last(t).cluster].Links());
      var u := Entered(g, cam, t, e);
      WalkOnlyTrails(g, cam, u, v);
    }
  }

  lemma {:induction false} LinkOfVisit(g: Graph, cam: Camera, t: Trail, v: Trail, k: nat) returns (e: nat)
    requires Closed(g) && |t| > 0 && Last(t).cluster in g && k <= g[Last(t).cluster].Links()
    requires v in WalkLinks(g, cam, t, k)
    ensures e < k && v in WalkLink(g, cam, t, e)
    ensures Enters(g, cam, t, e)
  {
    if v in WalkLink(g, cam, t, k - 1) {
      e := k - 1;
    } else {
      e := LinkOfVisit(g, cam, t, v, k - 1);
    }
  }

  lemma {:induction false} WalkLinksHasAll(g: Graph, cam: Camera, t: Trail, v: Trail, e: nat, k: nat)
    requires Closed(g) && |t| > 0 && Last(t).cluster in g && e < k <= g[Last(t).cluster].Links()
    requires v in WalkLink(g, cam, t, e)
    ensures v in WalkLinks(g, cam, t, k)
  {
    if e < k - 1 {
      WalkLinksHasAll(g, cam, t, v, e, k - 1);
    }
  }

  /** The next stop of a trail that continues t is one that t enters. */
  lemma NextStop(g: Graph, cam: Camera, t: Trail, v: Trail)
    requires Closed(g) && IsTrail(g, cam, t) && Last(t).cluster in g
    requires t <= v && |t| < |v| && IsTrail(g, cam, v)
    ensures v[|t|].via < g[Last(t).cluster].Links()
    ensures Enters(g, cam, t, v[|t|].via) && Next(g, cam, Last(t), v[|t|].via).value == v[|t|]
  {
    hide Next;
    assert LinkOk(g, cam, v[|t| - 1], v[|t|]);
    assert Last(t) == v[|t| - 1];
    forall s | s in t
      ensures s.cluster != v[|t|].cluster
    {
      var i :| 0 <= i < |t| && t[i] == s;
      assert v[i] == s;
    }
  }

  /** Every trail that continues t is visited. */
  lemma {:induction false} WalkAllTrails(g: Graph, cam: Camera, t: Trail, v: Trail)
    requires Closed(g) && IsTrail(g, cam, t) && Last(t).cluster in g
    requires t <= v && IsTrail(g, cam, v)
    ensures v in Walk(g, cam, t)
    decreases |v| - |t|
  {
    hide Next, LinkOk, Simple, On, WalkLink, WalkLinks;
    if |v| == |t| {
      assert v == t;
    } else {
      var e := v[|t|].via;
      NextStop(g, cam, t, v);
      var u := Entered(g, cam, t, e);
      assert u <= v;
      WalkAllTrails(g, cam, u, v);
      WalkLinksHasAll(g, cam, t, v, e, g[Last(t).cluster].Links());
    }
  }

  /** The visits are exactly the trails: the traversal misses none and makes up none. */
  lemma VisitsAreTheTrails(g: Graph, cam: Camera, s: Stop, v: Trail)
    requires Closed(g) && s.cluster in g
    ensures v in Walk(g, cam, [s]) <==> IsTrail(g, cam, v) && v[0] == s
  {
    if v in Walk(g, cam, [s]) {
      WalkOnlyTrails(g, cam, [s], v);
      assert v[0] == [s][0];
    } else if IsTrail(g, cam, v) && v[0] == s {
      assert [s] <= v;
      WalkAllTrails(g, cam, [s], v);
    }
  }

  ghost predicate Distinctly(w: seq<Trail>) {
    forall i, j | 0 <= i < j < |w| :: w[i] != w[j]
  }

  /** No trail is visited twice. */
  lemma {:induction false} VisitsOnce(g: Graph, cam: Camera, t: Trail)
    requires Closed(g) && IsTrail(g, cam, t) && Last(t).cluster in g
    ensures Distinctly(Walk(g, cam, t))
    decreases |g.Keys - On(t)|, g[Last(t).cluster].Links() + 1
  {
    var k := g[Last(t).cluster].Links();
    VisitsOnceByLinks(g, cam, t, k);
    forall v | v in WalkLinks(g, cam, t, k)
      ensures |v| > |t|
    {
      LongerVisit(g, cam, t, v, k);
    }
  }

  lemma {:induction false} VisitsOnceByLinks(g: Graph, cam: Camera, t: Trail, k: nat)
    requires Closed(g) && IsTrail(g, cam, t) && Last(t).cluster in g && k <= g[Last(t).cluster].Links()
    ensures Distinctly(WalkLinks(g, cam, t, k))
    decreases |g.Keys - On(t)|, k
  {
    if k > 0 {
      var e := k - 1;
      VisitsOnceByLinks(g, cam, t, e);
      OtherLinkOtherVisits(g, cam, t, e);
      WalkLinksEnd(g, cam, t, e);
      if Enters(g, cam, t, e) {
        var u := Entered(g, cam, t, e);
        VisitsOnce(g, cam, u);
      }
      hide Enters, IsTrail, On, Walk, WalkLink, WalkLinks, Distinctly;
      DistinctConcat(WalkLinks(g, cam, t, e), WalkLink(g, cam, t, e));
    }
  }

  lemma WalkLinksEnd(g: Graph, cam: Camera, t: Trail, e: nat)
    requires Closed(g) && |t| > 0 && Last(t).cluster in g && e < g[Last(t).cluster].Links()
    ensures WalkLinks(g, cam, t, e + 1) == WalkLinks(g, cam, t, e) + WalkLink(g, cam, t, e)
    ensures !Enters(g, cam, t, e) ==> WalkLink(g, cam, t, e) == [] && Distinctly(WalkLink(g, cam, t, e))
  {
  }

  lemma DistinctConcat(a: seq<Trail>, b: seq<Trail>)
    requires Distinctly(a) && Distinctly(b) && forall v | v in a :: v !in b
    ensures Distinctly(a + b)
  {
    forall i, j | 0 <= i < j < |a + b|
      ensures (a + b)[i] != (a + b)[j]
    {
      if i < |a| <= j {
        assert a[i] in a && b[j - |a|] in b;
      }
    }
  }

  lemma OtherLinkOtherVisits(g: Graph, cam: Camera, t: Trail, k: nat)
    requires Closed(g) && IsTrail(g, cam, t) && Last(t).cluster in g && k < g[Last(t).cluster].Links()
    ensures forall v | v in WalkLinks(g, cam, t, k) :: v !in WalkLink(g, cam, t, k)
  {
    hide LinkOk, Simple, Next, On, Walk, WalkLinks;
    forall v | v in WalkLinks(g, cam, t, k)
      ensures v !in WalkLink(g, cam, t, k)
    {
      LongerVisit(g, cam, t, v, k);
      if v in WalkLink(g, cam, t, k) {
        var u := Entered(g, cam, t, k);
        WalkOnlyTrails(g, cam, u, v);
      }
    }
  }

  lemma LongerVisit(g: Graph, cam: Camera, t: Trail, v: Trail, k: nat)
    requires Closed(g) && IsTrail(g, cam, t) && Last(t).cluster in g && k <= g[Last(t).cluster].Links()
    requires v in WalkLinks(g, cam, t, k)
    ensures |v| > |t| && v[|t|].via < k
  {
    var e := LinkOfVisit(g, cam, t, v, k);
    var u := Entered(g, cam, t, e);
    WalkOnlyTrails(g, cam, u, v);
    assert v[|t|] == u[|t|];
  }

  /** The portals that clip the view along a trail: those not leading to a cluster with the camera in. */
  ghost function Crossed(g: Graph, cam: Camera, t: Trail): seq<Door>
    requires Closed(g) && IsTrail(g, cam, t)
  {
    if |t| == 1 then []
    else
      assert LinkOk(g, cam, t[|t| - 2], t[|t| - 1]);
      var n := g[t[|t| - 2].cluster];
      var via := Last(t).via;
      assert IsTrail(g, cam, t[..|t| - 1]);
      var before := Crossed(g, cam, t[..|t| - 1]);
      if via < |n.doors| && !g[Last(t).cluster].cameraIn then before + [n.doors[via]] else before
  }

  /** A pyramid clipped by portals in turn. */
  ghost function ClippedBy(cam: Camera, doors: seq<Door>, p: Pyramid): Option<Pyramid> {
    if |doors| == 0 then Some(p)
    else
      match ClippedBy(cam, doors[..|doors| - 1], p)
      case Some(q) => ClipPyramid(cam, doors[|doors| - 1], q)
      case None => None
  }

  lemma OneMoreDoor(cam: Camera, doors: seq<Door>, d: Door, p: Pyramid, q: Pyramid)
    requires ClippedBy(cam, doors, p) == Some(q)
    ensures ClippedBy(cam, doors + [d], p) == ClipPyramid(cam, d, q)
  {
    assert (doors + [d])[..|doors + [d]| - 1] == doors;
  }

  /** The last stop of a trail: the door it was entered through, if that clips. */
  ghost function LastDoor(g: Graph, a: Stop, b: Stop): seq<Door> {
    if a.cluster in g && b.cluster in g && b.via < |g[a.cluster].doors| && !g[b.cluster].cameraIn
    then [g[a.cluster].doors[b.via]] else []
  }

  lemma EnteredThrough(g: Graph, cam: Camera, a: Stop, b: Stop)
    requires Closed(g) && LinkOk(g, cam, a, b)
    ensures LastDoor(g, a, b) == [] ==> b.pyramid == a.pyramid
    ensures LastDoor(g, a, b) != [] ==> ClipPyramid(cam, LastDoor(g, a, b)[0], a.pyramid) == Some(b.pyramid)
  {
  }

  lemma CrossedGrows(g: Graph, cam: Camera, t: Trail)
    requires Closed(g) && IsTrail(g, cam, t) && |t| > 1
    ensures IsTrail(g, cam, t[..|t| - 1]) && LinkOk(g, cam, t[|t| - 2], Last(t))
    ensures Crossed(g, cam, t) == Crossed(g, cam, t[..|t| - 1]) + LastDoor(g, t[|t| - 2], Last(t))
  {
    hide LinkOk, Simple;
    assert LinkOk(g, cam, t[|t| - 2], t[|t| - 1]);
    assert Simple(t[..|t| - 1]) by {
      FrontIsSimple(t);
    }
    NextInGraph(g, cam, t[|t| - 2], Last(t));
    assert Crossed(g, cam, t[..|t| - 1]) + [] == Crossed(g, cam, t[..|t| - 1]);
  }

  lemma FrontIsSimple(t: Trail)
    requires |t| > 0 && Simple(t)
    ensures Simple(t[..|t| - 1])
  {
  }

  lemma NextInGraph(g: Graph, cam: Camera, a: Stop, b: Stop)
    requires Closed(g) && LinkOk(g, cam, a, b)
    ensures a.cluster in g && b.cluster in g
  {
  }

  /** A cluster is entered with the composition of the portal clips along the current path. */
  lemma {:induction false} PyramidIsComposition(g: Graph, cam: Camera, t: Trail)
    requires Closed(g) && IsTrail(g, cam, t)
    ensures ClippedBy(cam, Crossed(g, cam, t), t[0].pyramid) == Some(Last(t).pyramid)
    decreases |t|
  {
    if |t| > 1 {
      var u := t[..|t| - 1];
      CrossedGrows(g, cam, t);
      PyramidIsComposition(g, cam, u);
      var a, d := Crossed(g, cam, u), LastDoor(g, t[|t| - 2], Last(t));
      EnteredThrough(g, cam, t[|t| - 2], Last(t));
      hide IsTrail, LinkOk, Crossed, LastDoor, ClippedBy;
      if d == [] {
        assert a + d == a;
      } else {
        assert d == [d[0]];
        OneMoreDoor(cam, a, d[0], t[0].pyramid, t[|t| - 2].pyramid);
      }
    }
  }

  class ClipTrav {
    var worldPyramid: Pyramid
    var trackClusterVisibility: bool
    var visibleClusters: seq<Cluster>

    /** The trail of every visit so far. */
    ghost var visits: seq<Trail>

    constructor (pyramid: Pyramid, track: bool)
      ensures Valid() && worldPyramid == pyramid && trackClusterVisibility == track && visits == []
    {
      worldPyramid, trackClusterVisibility, visibleClusters, visits := pyramid, track, [], [];
    }

    /** The tracked clusters are where the visits ended. */
    ghost predicate Valid()
      reads this
    {
      && |visibleClusters| == (if trackClusterVisibility then |visits| else 0)
      && forall i | 0 <= i < |visibleClusters| ::
           |visits[i]| > 0 && visibleClusters[i] == Last(visits[i]).cluster
    }

    method AddVisit(c: Cluster, ghost t: Trail)
      requires Valid() && |t| > 0 && Last(t).cluster == c
      modifies this`visibleClusters, this`visits
      ensures Valid() && visits == old(visits) + [t]
    {
      if trackClusterVisibility {
        visibleClusters := visibleClusters + [c];
      }
      visits := visits + [t];
    }
  }

  /** The traversal stands in the last cluster of t, with the clusters of t on the stack. */
  ghost predicate Standing(world: set<Cluster>, g: Graph, cam: Camera, trav: ClipTrav, t: Trail)
    requires Closed(g)
    reads world, AllPortals(world), trav
  {
    && Shows(world, g) && trav.Valid()
    && IsTrail(g, cam, t) && Last(t).cluster in world && OnStack(world) == On(t)
    && trav.worldPyramid == Last(t).pyramid
  }

  lemma FlagTells(c: Cluster, world: set<Cluster>, g: Graph)
    requires Shows(world, g) && c in world
    ensures c in g && (c.visited <==> c in OnStack(world))
  {
  }

  /**
   * Visits `self`, entered from `caller`, unless it is on the stack; s and t are the stop and the
   * trail before it. The pyramid and the flags end as they were.
   */
  method RecursTraverseClip(self: Cluster, trav: ClipTrav, cam: Camera, caller: Cluster?,
                            ghost world: set<Cluster>, ghost g: Graph, ghost t: Trail, ghost s: Stop)
    requires Closed(g) && Shows(world, g) && trav.Valid() && self in world && OnStack(world) == On(t)
    requires s.cluster == self && s.caller == caller && s.pyramid == trav.worldPyramid
    requires self in On(t) || IsTrail(g, cam, t + [s])
    modifies world`visited, trav`worldPyramid, trav`visibleClusters, trav`visits
    ensures Shows(world, g) && trav.Valid() && OnStack(world) == On(t)
    ensures trav.worldPyramid == old(trav.worldPyramid)
    ensures trav.visits == if self in On(t) then old(trav.visits) else old(trav.visits) + Walk(g, cam, t + [s])
    decreases g.Keys - On(t), 1
  {
    hide Closed, IsTrail, LinkOk, Simple, Walk, WalkLinks, Next, Cluster.LooksLike, Cluster.HasDoors, AllPortals, ClipTrav.Valid;
    hide OnStack, Shows;
    FlagTells(self, world, g);
    if self.visited {
      return;
    }
    ghost var u := t + [s];
    assert Last(u) == s;
    FewerLeft(g, t, s);
    assert IsTrail(g, cam, u) && OnStack(world) + {self} == On(u);
    hide On;
    Mark(self, true, world, g);
    Visit(self, trav, cam, caller, world, g, u);
    assert OnStack(world) == On(u) == On(t) + {self};
    Mark(self, false, world, g);
  }

  /** A visit proper: the cluster, then what its links lead to. */
  method Visit(self: Cluster, trav: ClipTrav, cam: Camera, caller: Cluster?,
               ghost world: set<Cluster>, ghost g: Graph, ghost u: Trail)
    requires Closed(g) && Standing(world, g, cam, trav, u)
    requires Last(u).cluster == self && Last(u).caller == caller
    modifies world`visited, trav`worldPyramid, trav`visibleClusters, trav`visits
    ensures Standing(world, g, cam, trav, u)
    ensures trav.visits == old(trav.visits) + Walk(g, cam, u)
    decreases g.Keys - On(u), 5
  {
    trav.AddVisit(self, u);
    hide Closed, IsTrail, Walk, WalkLinks, Followed, Shows, On;
    FollowLinks(self, trav, cam, caller, world, g, u);
    WalkMade(g, cam, u, old(trav.visits), trav.visits);
  }

  lemma WalkMade(g: Graph, cam: Camera, u: Trail, before: seq<Trail>, visits: seq<Trail>)
    requires Closed(g) && |u| > 0 && Last(u).cluster in g
    requires Followed(g, cam, u, before + [u], visits, g[Last(u).cluster].Links())
    ensures visits == before + Walk(g, cam, u)
  {
  }

  lemma LinkCount(world: set<Cluster>, g: Graph, cam: Camera, trav: ClipTrav, u: Trail, c: Cluster)
    requires Closed(g) && Standing(world, g, cam, trav, u) && Last(u).cluster == c
    ensures |u| > 0 && c in g && g[c].Links() == |c.portals| + 1 + |c.children|
  {
  }

  lemma DoorLink(world: set<Cluster>, g: Graph, cam: Camera, trav: ClipTrav, u: Trail, c: Cluster, i: nat)
    requires Closed(g) && Standing(world, g, cam, trav, u) && Last(u).cluster == c && i < |c.portals|
    ensures |u| > 0 && i < g[c].Links()
    ensures var p := c.portals[i];
            var other, s, pyr := c.OtherSide(p), Last(u), trav.worldPyramid;
            && (other != null ==> other in g && g[other].cameraIn == other.cameraIn)
            && Next(g, cam, s, i) ==
               if other == null
                  || (c.father != null && s.caller == c.father && c.visibleFromFather && !cam.inFront(p)) then None
               else if other.cameraIn then Some(Stop(other, c, pyr, i))
               else if p.isOpen && cam.clip(p, pyr).Some? then Some(Stop(other, c, cam.clip(p, pyr).value, i))
               else None
  {
    assert g[c].doors[i] == Door(c.portals[i], c.portals[i].isOpen, c.OtherSide(c.portals[i]));
  }

  lemma FatherLink(world: set<Cluster>, g: Graph, cam: Camera, trav: ClipTrav, u: Trail, c: Cluster)
    requires Closed(g) && Standing(world, g, cam, trav, u) && Last(u).cluster == c
    ensures |c.portals| < g[c].Links()
    ensures LeadsTo(g, cam, u, |c.portals|, if c.fatherVisible then c.father else null, trav.worldPyramid)
  {
  }

  lemma ChildLink(world: set<Cluster>, g: Graph, cam: Camera, trav: ClipTrav, u: Trail, c: Cluster, i: nat)
    requires Closed(g) && Standing(world, g, cam, trav, u) && Last(u).cluster == c && i < |c.children|
    ensures |c.portals| + 1 + i < g[c].Links()
    ensures LeadsTo(g, cam, u, |c.portals| + 1 + i, if c.children[i].visibleFromFather then c.children[i] else null,
                    trav.worldPyramid)
  {
    LinkCount(world, g, cam, trav, u, c);
    hide IsTrail, On, ClipTrav.Valid, OnStack;
    assert g[c].children == c.children && |g[c].doors| == |c.portals|;
    var k := c.children[i];
    assert k in g && g[k].visibleFromFather == k.visibleFromFather;
  }

  // ---- The links, on the clusters and portals themselves ----

  /**
   * A portal is looked through from either side of it, unless it is seen from behind by a cluster entered
   * from its father: with the whole pyramid into a cluster with the camera in, else with what an open portal
   * leaves of the pyramid.
   */
  lemma PortalLinkIs(world: set<Cluster>, g: Graph, cam: Camera, s: Stop, next: Stop)
    requires Shows(world, g) && Closed(g) && s.cluster in world && next.via < |s.cluster.portals|
    ensures var c, p, d := s.cluster, s.cluster.portals[next.via], next.cluster;
            LinkOk(g, cam, s, next) <==>
              && d == (if p.cluster0 == c then p.cluster1 else p.cluster0) && next.caller == c
              && !(c.father != null && s.caller == c.father && c.visibleFromFather && !cam.inFront(p))
              && if d.cameraIn then next.pyramid == s.pyramid
                 else p.isOpen && cam.clip(p, s.pyramid) == Some(next.pyramid)
  {
    var c := s.cluster;
    assert c.LooksLike(g[c]);
    var d := g[c].doors[next.via].other;
    if d != null {
      assert d in g && d.LooksLike(g[d]);
    }
  }

  /** Up to the father that is visible, down to the children that their father sees, with the whole pyramid. */
  lemma FamilyLinkIs(world: set<Cluster>, g: Graph, cam: Camera, s: Stop, next: Stop)
    requires Shows(world, g) && Closed(g) && s.cluster in world && next.via >= |s.cluster.portals|
    ensures var c, d := s.cluster, next.cluster;
            LinkOk(g, cam, s, next) <==>
              && next.via < |c.portals| + 1 + |c.children| && next.caller == c && next.pyramid == s.pyramid
              && if next.via == |c.portals| then c.fatherVisible && d == c.father
                 else d == c.children[next.via - |c.portals| - 1] && d.visibleFromFather
  {
    var c := s.cluster;
    assert c.LooksLike(g[c]);
    if next.via > |c.portals| && next.via < |c.portals| + 1 + |c.children| {
      var k := c.children[next.via - |c.portals| - 1];
      assert k in g && k.LooksLike(g[k]);
    }
  }

  /** So the cluster behind an open portal that leaves something of the pyramid is visited, from either side. */
  lemma PortalShowsBothWays(world: set<Cluster>, g: Graph, cam: Camera, p: Portal, c: Cluster, d: Cluster, i: nat,
                            pyramid: Pyramid, q: Pyramid)
    requires Shows(world, g) && Closed(g) && c in world && d in world && c != d
    requires i < |c.portals| && c.portals[i] == p
    requires (p.cluster0 == c && p.cluster1 == d) || (p.cluster0 == d && p.cluster1 == c)
    requires if d.cameraIn then q == pyramid else p.isOpen && cam.clip(p, pyramid) == Some(q)
    ensures [Stop(c, null, pyramid, 0), Stop(d, c, q, i)] in Walk(g, cam, [Stop(c, null, pyramid, 0)])
  {
    var s, next := Stop(c, null, pyramid, 0), Stop(d, c, q, i);
    PortalLinkIs(world, g, cam, s, next);
    assert s.cluster in g;
    hide LinkOk, Shows, Closed, Walk;
    assert IsTrail(g, cam, [s, next]);
    VisitsAreTheTrails(g, cam, s, [s, next]);
  }

  /** Link e of the last stop of u leads to a cluster (or nowhere, null) with a pyramid. */
  ghost predicate LeadsTo(g: Graph, cam: Camera, u: Trail, e: nat, c: Cluster?, p: Pyramid)
    requires Closed(g)
  {
    && |u| > 0 && Last(u).cluster in g && e < g[Last(u).cluster].Links()
    && Next(g, cam, Last(u), e) == if c == null then None else Some(Stop(c, Last(u).cluster, p, e))
  }

  /** Follows a link that leads to a cluster with the current pyramid. */
  method Enter(self: Cluster, trav: ClipTrav, cam: Camera, c: Cluster, ghost world: set<Cluster>, ghost g: Graph,
               ghost u: Trail, ghost e: nat)
    requires Closed(g) && Shows(world, g) && trav.Valid() && OnStack(world) == On(u)
    requires IsTrail(g, cam, u) && Last(u).cluster == self && LeadsTo(g, cam, u, e, c, trav.worldPyramid)
    modifies world`visited, trav`worldPyramid, trav`visibleClusters, trav`visits
    ensures Shows(world, g) && trav.Valid() && OnStack(world) == On(u)
    ensures trav.worldPyramid == old(trav.worldPyramid)
    ensures trav.visits == old(trav.visits) + WalkLink(g, cam, u, e)
    decreases g.Keys - On(u), 2
  {
    ghost var s := Next(g, cam, Last(u), e).value;
    if c !in On(u) {
      TrailGrows(g, cam, u, s);
    }
    hide IsTrail, On, Next, Closed, Walk;
    RecursTraverseClip(c, trav, cam, self, world, g, u, s);
  }

  method Follow(self: Cluster, trav: ClipTrav, cam: Camera, c: Cluster?, ghost world: set<Cluster>, ghost g: Graph,
                ghost u: Trail, ghost e: nat)
    requires Closed(g) && Standing(world, g, cam, trav, u) && Last(u).cluster == self
    requires LeadsTo(g, cam, u, e, c, trav.worldPyramid)
    modifies world`visited, trav`worldPyramid, trav`visibleClusters, trav`visits
    ensures Standing(world, g, cam, trav, u)
    ensures trav.visits == old(trav.visits) + WalkLink(g, cam, u, e)
    decreases g.Keys - On(u), 3
  {
    if c != null {
      Enter(self, trav, cam, c, world, g, u, e);
    }
  }

  /** The visits through the first k links were made. */
  ghost predicate Followed(g: Graph, cam: Camera, u: Trail, before: seq<Trail>, visits: seq<Trail>, k: nat)
    requires Closed(g) && |u| > 0 && Last(u).cluster in g && k <= g[Last(u).cluster].Links()
  {
    visits == before + WalkLinks(g, cam, u, k)
  }

  lemma NoLinks(g: Graph, cam: Camera, u: Trail, before: seq<Trail>)
    requires Closed(g) && |u| > 0 && Last(u).cluster in g
    ensures Followed(g, cam, u, before, before, 0)
  {
  }

  lemma OneMoreLink(g: Graph, cam: Camera, u: Trail, before: seq<Trail>, visits: seq<Trail>, k: nat)
    requires Closed(g) && |u| > 0 && Last(u).cluster in g && k < g[Last(u).cluster].Links()
    requires Followed(g, cam, u, before, visits, k)
    ensures Followed(g, cam, u, before, visits + WalkLink(g, cam, u, k), k + 1)
  {
  }

  /** Looks through the portals, then goes up, then down. */
  method FollowLinks(self: Cluster, trav: ClipTrav, cam: Camera, caller: Cluster?,
                     ghost world: set<Cluster>, ghost g: Graph, ghost u: Trail)
    requires Closed(g) && Standing(world, g, cam, trav, u)
    requires Last(u).cluster == self && Last(u).caller == caller
    modifies world`visited, trav`worldPyramid, trav`visibleClusters, trav`visits
    ensures Standing(world, g, cam, trav, u)
    ensures Followed(g, cam, u, old(trav.visits), trav.visits, g[self].Links())
    decreases g.Keys - On(u), 4
  {
    hide *;
    ghost var before := trav.visits;
    LinkCount(world, g, cam, trav, u, self);
    NoLinks(g, cam, u, before);
    for i := 0 to |self.portals|
      invariant Standing(world, g, cam, trav, u)
      invariant Followed(g, cam, u, before, trav.visits, i)
    {
      ghost var visits := trav.visits;
      LookThrough(self, trav, cam, caller, i, world, g, u);
      OneMoreLink(g, cam, u, before, visits, i);
    }
    ghost var visits := trav.visits;
    FatherLink(world, g, cam, trav, u, self);
    Follow(self, trav, cam, if self.fatherVisible then self.father else null, world, g, u, |self.portals|);
    OneMoreLink(g, cam, u, before, visits, |self.portals|);
    for i := 0 to |self.children|
      invariant Standing(world, g, cam, trav, u)
      invariant Followed(g, cam, u, before, trav.visits, |self.portals| + 1 + i)
    {
      visits := trav.visits;
      ChildLink(world, g, cam, trav, u, self, i);
      var k := self.children[i];
      Follow(self, trav, cam, if k.visibleFromFather then k else null, world, g, u, |self.portals| + 1 + i);
      OneMoreLink(g, cam, u, before, visits, |self.portals| + 1 + i);
    }
  }

  /** Looks through portal i with the pyramid it clips, then puts the pyramid back. */
  method LookThrough(self: Cluster, trav: ClipTrav, cam: Camera, caller: Cluster?, i: nat,
                     ghost world: set<Cluster>, ghost g: Graph, ghost u: Trail)
    requires Closed(g) && Standing(world, g, cam, trav, u) && i < |self.portals|
    requires Last(u).cluster == self && Last(u).caller == caller && i < g[self].Links()
    modifies world`visited, trav`worldPyramid, trav`visibleClusters, trav`visits
    ensures Standing(world, g, cam, trav, u)
    ensures trav.visits == old(trav.visits) + WalkLink(g, cam, u, i)
    decreases g.Keys - On(u), 3
  {
    hide Closed, IsTrail, On, Next, Walk, Cluster.LooksLike, Cluster.HasDoors, AllPortals;
    var p := self.portals[i];
    var worldPyrTemp := trav.worldPyramid;
    var other := self.OtherSide(p);
    DoorLink(world, g, cam, trav, u, self, i);
    var backfaceClipped := false;
    if self.father != null && caller == self.father && self.visibleFromFather && !cam.inFront(p) {
      backfaceClipped := true;
    }
    if !backfaceClipped && other != null {
      var enter := other.cameraIn;
      if !enter && p.isOpen {
        var clipped := cam.clip(p, trav.worldPyramid);
        if clipped.Some? {
          trav.worldPyramid := clipped.value;
          enter := true;
        }
      }
      if enter {
        Enter(self, trav, cam, other, world, g, u, i);
      }
    }
    trav.worldPyramid := worldPyrTemp;
  }

  /** The call made for a cluster at the root of a traversal. */
  method TraverseClip(self: Cluster, trav: ClipTrav, cam: Camera, ghost world: set<Cluster>, ghost g: Graph)
    requires Closed(g) && Shows(world, g) && trav.Valid() && self in world && OnStack(world) == {}
    modifies world`visited, trav`worldPyramid, trav`visibleClusters, trav`visits
    ensures Shows(world, g) && trav.Valid() && OnStack(world) == {}
    ensures trav.worldPyramid == old(trav.worldPyramid)
    ensures trav.visits == old(trav.visits) + Walk(g, cam, [Stop(self, null, trav.worldPyramid, 0)])
  {
    ghost var s := Stop(self, null, trav.worldPyramid, 0);
    assert On([]) == {};
    assert [] + [s] == [s];
    hide Walk, Shows;
    RecursTraverseClip(self, trav, cam, null, world, g, [], s);
  }
}
