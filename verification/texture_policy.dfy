/**
 * The LOD policy at work on the state of the texture manager: which LOD it designates, and what its
 * decisions come to over whole runs, in which a decision to load is followed by an asynchronous load
 * and an upload, and the pivot is computed again for each decision.
 */
module TexturePolicyRuns {
  import opened TextureUpload
  import opened TextureLodPolicy
  import opened TextureState
  import opened TextureRuns
  import opened Wrappers

  // ---- The array of LODs ----

  predicate Lodable(entries: seq<Slot>, i: nat)
    requires i < |entries|
  {
    entries[i].Live? && entries[i].entry.canHaveLOD
  }

  /** The base sizes of the first n textures that can have a LOD. */
  ghost function BaseSizes(entries: seq<Slot>, n: nat): nat
    requires n <= |entries|
  {
    if n == 0 then 0
    else
      BaseSizes(entries, n - 1)
      + (if Lodable(entries, n - 1) then entries[n - 1].entry.baseSize else 0)
  }

  /** Each texture that can have a LOD counts once, with its base size, and nothing else does. */
  lemma {:induction false} BaseSizesCount(entries: seq<Slot>, n: nat, i: nat)
    requires i < n <= |entries|
    ensures BaseSizes(entries, n) ==
              BaseSizes(entries[i := Null], n) + if Lodable(entries, i) then entries[i].entry.baseSize else 0
    ensures (forall k | 0 <= k < n :: !Lodable(entries, k)) ==> BaseSizes(entries, n) == 0
  {
    if i < n - 1 {
      BaseSizesCount(entries, n - 1, i);
    } else {
      SameBaseSizes(entries, entries[i := Null], n - 1);
      if n > 1 {
        BaseSizesCount(entries, n - 1, 0);
      }
    }
  }

  lemma {:induction false} SameBaseSizes(a: seq<Slot>, b: seq<Slot>, n: nat)
    requires n <= |a| == |b| && forall i | 0 <= i < n :: a[i] == b[i]
    ensures BaseSizes(a, n) == BaseSizes(b, n)
  {
    if n > 0 {
      SameBaseSizes(a, b, n - 1);
    }
  }

  /** The first n textures that can have a LOD, in order of slot, each with its weight. */
  ghost function Collected(entries: seq<Slot>, weights: seq<real>, n: nat): seq<LodToSort>
    requires n <= |entries| == |weights|
  {
    if n == 0 then []
    else
      Collected(entries, weights, n - 1)
      + (if Lodable(entries, n - 1) then [LodToSort(n - 1, weights[n - 1])] else [])
  }

  /** The array holds exactly the textures below n that can have a LOD, once each. */
  ghost predicate CoversLods(entries: seq<Slot>, n: nat, order: seq<LodToSort>)
    requires n <= |entries|
  {
    && DistinctIds(order)
    && (forall e | e in order :: e.id < n && Lodable(entries, e.id))
    && (forall i | 0 <= i < n && Lodable(entries, i) :: exists e :: e in order && e.id == i)
  }

  /** The array as the policy sees it. */
  function LodView(entries: seq<Slot>, order: seq<LodToSort>): seq<Lod>
    requires forall e | e in order :: e.id < |entries| && entries[e.id].Live?
  {
    seq(|order|, k requires 0 <= k < |order| =>
      var e := order[k];
      assert e in order;
      Lod(entries[e.id].entry.lod.extraSize, entries[e.id].entry.lod.upLoaded))
  }

  /** The array sorted by weight. */
  ghost function LodOrder(entries: seq<Slot>, weights: seq<real>): seq<LodToSort>
    requires |entries| == |weights|
  {
    SortByWeight(Collected(entries, weights, |entries|))
  }

  ghost predicate LodDecision(entries: seq<Slot>, order: seq<LodToSort>, budget: nat,
                              pivot: nat, over: bool, choice: Option<nat>, sizeGot: nat)
  {
    && CoversLods(entries, |entries|, order)
    && var view := LodView(entries, order);
       var base := BaseSizes(entries, |entries|);
       && IsPivot(view, base, budget, pivot, over)
       && pivot <= |order| && (over ==> pivot < |order|)
       && IsDecision(view, base, pivot, over, choice)
       && (choice.Some? ==> choice.value < |order|)
       && sizeGot == CountedSize(view, base, pivot, over)
  }

  lemma {:induction false} CollectedCovers(entries: seq<Slot>, weights: seq<real>, n: nat)
    requires n <= |entries| == |weights|
    ensures CoversLods(entries, n, Collected(entries, weights, n))
  {
    if n > 0 {
      CollectedCovers(entries, weights, n - 1);
      if Lodable(entries, n - 1) {
        AppendLod(entries, n - 1, Collected(entries, weights, n - 1), LodToSort(n - 1, weights[n - 1]));
      } else {
        assert Collected(entries, weights, n) == Collected(entries, weights, n - 1);
      }
    }
  }

  lemma AppendLod(entries: seq<Slot>, n: nat, lods: seq<LodToSort>, e: LodToSort)
    requires n < |entries| && CoversLods(entries, n, lods) && e.id == n && Lodable(entries, n)
    ensures CoversLods(entries, n + 1, lods + [e])
  {
    forall j | 0 <= j < |lods|
      ensures lods[j].id != n
    {
      assert lods[j] in lods;
    }
    forall i | 0 <= i < n + 1 && Lodable(entries, i)
      ensures exists x :: x in lods + [e] && x.id == i
    {
      if i == n {
        assert (lods + [e])[|lods|] == e;
      } else {
        var x :| x in lods && x.id == i;
        assert x in lods + [e];
      }
    }
  }

  /** The array holds each LOD once, in increasing order of weight. */
  lemma OrderCovers(entries: seq<Slot>, weights: seq<real>)
    requires |entries| == |weights|
    ensures CoversLods(entries, |entries|, LodOrder(entries, weights))
    ensures SortedByWeight(LodOrder(entries, weights))
  {
    CollectedCovers(entries, weights, |entries|);
    SortKeepsIds(Collected(entries, weights, |entries|));
  }

  lemma CoveredLive(entries: seq<Slot>, order: seq<LodToSort>)
    requires CoversLods(entries, |entries|, order)
    ensures forall e | e in order :: e.id < |entries| && entries[e.id].Live?
  {
  }

  // ---- What is wanted ----

  /** The LOD of texture id is at place k of the array, from the pivot on. */
  ghost predicate WantedAt(entries: seq<Slot>, order: seq<LodToSort>, budget: nat, id: nat,
                           k: nat, pivot: nat, over: bool) {
    && CoversLods(entries, |entries|, order)
    && pivot <= k < |order| && order[k].id == id
    && IsPivot(LodView(entries, order), BaseSizes(entries, |entries|), budget, pivot, over)
  }

  ghost predicate Wanted(entries: seq<Slot>, weights: seq<real>, budget: nat, id: nat)
    requires |entries| == |weights|
  {
    exists k, pivot, over :: WantedAt(entries, LodOrder(entries, weights), budget, id, k, pivot, over)
  }

  /** The LOD of texture id is where it should be: uploaded, or on its way, if and only if it is wanted. */
  ghost predicate Settled(s: State, weights: seq<real>, budget: nat, id: nat)
    requires |s.entries| == |weights| && IsLive(s, id)
  {
    Coming(s, id) <==> Wanted(s.entries, weights, budget, id)
  }

  ghost function Misplaced(s: State, weights: seq<real>, budget: nat): set<nat>
    requires |s.entries| == |weights|
  {
    set id | 0 <= id < |s.entries| && IsLive(s, id) && !Settled(s, weights, budget, id)
  }

  /** The policy designates the LOD of texture id. */
  ghost predicate Designates(entries: seq<Slot>, order: seq<LodToSort>, budget: nat, id: nat,
                             pivot: nat, over: bool, choice: nat, sizeGot: nat) {
    && LodDecision(entries, order, budget, pivot, over, Some(choice), sizeGot)
    && order[choice].id == id
  }

  // ---- The greater weight goes first ----

  lemma {:induction false} CollectedWeights(entries: seq<Slot>, weights: seq<real>, n: nat)
    requires n <= |entries| == |weights|
    ensures forall e | e in Collected(entries, weights, n) :: e.id < n && e.weight == weights[e.id]
  {
    if n > 0 {
      CollectedWeights(entries, weights, n - 1);
    }
  }

  /** Where a LOD is in the sorted array. */
  lemma PlaceOf(entries: seq<Slot>, weights: seq<real>, id: nat) returns (k: nat)
    requires |entries| == |weights| && id < |entries| && Lodable(entries, id)
    ensures var order := LodOrder(entries, weights);
            k < |order| && order[k] == LodToSort(id, weights[id])
  {
    OrderCovers(entries, weights);
    CollectedWeights(entries, weights, |entries|);
    var order := LodOrder(entries, weights);
    var e :| e in order && e.id == id;
    k :| 0 <= k < |order| && order[k] == e;
  }

  lemma HeavierIsBehind(entries: seq<Slot>, weights: seq<real>, i: nat, j: nat) returns (p: nat, q: nat)
    requires |entries| == |weights| && i < |entries| && j < |entries| && Lodable(entries, i) && Lodable(entries, j)
    requires weights[i] > weights[j]
    ensures var order := LodOrder(entries, weights);
            && q < p < |order| && order[p].id == i && order[q].id == j && DistinctIds(order)
  {
    p := PlaceOf(entries, weights, i);
    q := PlaceOf(entries, weights, j);
    OrderCovers(entries, weights);
    hide LodOrder;
  }

  /** A LOD is wanted whenever one of less weight is. */
  lemma HeavierIsWanted(entries: seq<Slot>, weights: seq<real>, budget: nat, i: nat, j: nat)
    requires |entries| == |weights| && i < |entries| && j < |entries| && Lodable(entries, i) && Lodable(entries, j)
    requires weights[i] > weights[j] && Wanted(entries, weights, budget, j)
    ensures Wanted(entries, weights, budget, i)
  {
    var p, q := HeavierIsBehind(entries, weights, i, j);
    var order := LodOrder(entries, weights);
    hide LodOrder, IsPivot, BaseSizes;
    var k: nat, pivot: nat, over: bool :| WantedAt(entries, order, budget, j, k, pivot, over);
    assert k == q;
    assert WantedAt(entries, order, budget, i, p, pivot, over);
  }

  /** A LOD is loaded only once all those of greater weight are, and unloaded only once no lighter one is left. */
  lemma HeavierGoesFirst(entries: seq<Slot>, weights: seq<real>, budget: nat, i: nat, j: nat,
                         pivot: nat, over: bool, choice: nat, sizeGot: nat)
    requires |entries| == |weights| && i < |entries| && j < |entries| && Lodable(entries, i) && Lodable(entries, j)
    requires weights[i] > weights[j]
    ensures Designates(entries, LodOrder(entries, weights), budget, j, pivot, over, choice, sizeGot) ==>
              !entries[j].entry.lod.upLoaded ==> entries[i].entry.lod.upLoaded
    ensures Designates(entries, LodOrder(entries, weights), budget, i, pivot, over, choice, sizeGot) ==>
              entries[i].entry.lod.upLoaded ==> !entries[j].entry.lod.upLoaded
  {
    var p, q := HeavierIsBehind(entries, weights, i, j);
    var order := LodOrder(entries, weights);
    OrderCovers(entries, weights);
    CoveredLive(entries, order);
    var view := LodView(entries, order);
    assert view[p].up == entries[i].entry.lod.upLoaded && view[q].up == entries[j].entry.lod.upLoaded;
    hide LodOrder, IsPivot, BaseSizes, CountedSize, CoversLods;
  }

  // ---- Steps with the textures, their sizes and their weights fixed ----

  predicate Moves(e: Event) {
    e.LodLoad? || e.LodUnload?
  }

  /** A step that adds, uploads and deletes no texture, and moves a LOD only if the policy says so. */
  ghost predicate PolicyStep(s: State, e: Event, weights: seq<real>, budget: nat)
    requires |s.entries| == |weights|
  {
    && Enabled(s, e)
    && !e.Add? && !e.Release? && !e.Delete? && !e.BaseDone?
    && (Moves(e) ==> exists pivot, over, choice, got ::
          Designates(s.entries, LodOrder(s.entries, weights), budget, e.id, pivot, over, choice, got))
  }

  /** The same textures can have a LOD, with the same sizes. */
  ghost predicate SameSizes(a: seq<Slot>, b: seq<Slot>) {
    |a| == |b| && forall i | 0 <= i < |a| :: SameSlot(a[i], b[i])
  }

  ghost predicate SameSlot(a: Slot, b: Slot) {
    && a.Live? == b.Live?
    && (a.Live? ==>
          && a.entry.canHaveLOD == b.entry.canHaveLOD
          && a.entry.baseSize == b.entry.baseSize
          && a.entry.lod.extraSize == b.entry.lod.extraSize)
  }

  lemma OneSlot(a: seq<Slot>, b: seq<Slot>, i: nat)
    requires i < |a| == |b| && b == a[i := b[i]] && SameSlot(a[i], b[i])
    ensures SameSizes(a, b)
  {
  }

  lemma StepKeepsSizes(s: State, e: Event, weights: seq<real>, budget: nat)
    requires Inv(s) && |s.entries| == |weights| && PolicyStep(s, e, weights, budget)
    ensures SameSizes(s.entries, Apply(s, e).entries) && |Apply(s, e).entries| == |s.entries|
  {
    TargetsLive(s);
    hide Inv, Designates;
    match e
    case LoadEnd(target, g) => OneSlot(s.entries, Apply(s, e).entries, target.id);
    case Pick(k, g) =>
      var id := s.waiting[k];
      assert s.entries == s.entries[id := s.entries[id]];
      OneSlot(s.entries, Apply(s, e).entries, id);
    case LodPick =>
    case LodDone => OneSlot(s.entries, Apply(s, e).entries, s.current.value.id);
    case LodLoad(id) => OneSlot(s.entries, Apply(s, e).entries, id);
    case LodUnload(id) => OneSlot(s.entries, Apply(s, e).entries, id);
  }

  lemma {:induction false} SameCollected(a: seq<Slot>, b: seq<Slot>, weights: seq<real>, n: nat)
    requires SameSizes(a, b) && n <= |a| == |weights|
    ensures Collected(a, weights, n) == Collected(b, weights, n) && BaseSizes(a, n) == BaseSizes(b, n)
  {
    if n > 0 {
      SameCollected(a, b, weights, n - 1);
    }
  }

  lemma {:induction false} SameSizeFrom(l: seq<Lod>, m: seq<Lod>, i: nat)
    requires |l| == |m| && i <= |l| && forall k | 0 <= k < |l| :: l[k].size == m[k].size
    ensures SizeFrom(l, i) == SizeFrom(m, i)
    decreases |l| - i
  {
    if i < |l| {
      SameSizeFrom(l, m, i + 1);
    }
  }

  lemma SamePivot(l: seq<Lod>, m: seq<Lod>, base: nat, budget: nat, pivot: nat, over: bool)
    requires |l| == |m| && forall k | 0 <= k < |l| :: l[k].size == m[k].size
    requires IsPivot(l, base, budget, pivot, over)
    ensures IsPivot(m, base, budget, pivot, over)
  {
    SameSizeFrom(l, m, 0);
    if pivot <= |l| { SameSizeFrom(l, m, pivot); }
    if pivot + 1 <= |l| { SameSizeFrom(l, m, pivot + 1); }
  }

  lemma WantedStays(a: seq<Slot>, b: seq<Slot>, weights: seq<real>, budget: nat, id: nat)
    requires SameSizes(a, b) && |a| == |weights| && Wanted(a, weights, budget, id)
    ensures Wanted(b, weights, budget, id)
  {
    SameCollected(a, b, weights, |a|);
    OrderCovers(b, weights);
    var order := LodOrder(a, weights);
    hide LodOrder, CoversLods;
    var k: nat, pivot: nat, over: bool :| WantedAt(a, order, budget, id, k, pivot, over);
    SameViewSizes(a, b, order);
    SamePivot(LodView(a, order), LodView(b, order), BaseSizes(a, |a|), budget, pivot, over);
    hide IsPivot;
    assert WantedAt(b, order, budget, id, k, pivot, over);
  }

  lemma SameViewSizes(a: seq<Slot>, b: seq<Slot>, order: seq<LodToSort>)
    requires SameSizes(a, b) && CoversLods(a, |a|, order) && CoversLods(b, |b|, order)
    ensures |LodView(a, order)| == |LodView(b, order)| == |order|
    ensures forall k | 0 <= k < |order| :: LodView(a, order)[k].size == LodView(b, order)[k].size
  {
    forall k | 0 <= k < |order|
      ensures order[k].id < |a| && Lodable(a, order[k].id)
    {
      assert order[k] in order;
    }
  }

  /** What the policy loads is wanted, what it unloads is not. */
  lemma DesignatedIsMisplaced(s: State, e: Event, weights: seq<real>, budget: nat)
    requires Inv(s) && |s.entries| == |weights| && PolicyStep(s, e, weights, budget) && Moves(e)
    ensures e.LodLoad? <==> Wanted(s.entries, weights, budget, e.id)
  {
    var order := LodOrder(s.entries, weights);
    var pivot: nat, over: bool, choice: nat, got: nat :| Designates(s.entries, order, budget, e.id, pivot, over, choice, got);
    var view, base := LodView(s.entries, order), BaseSizes(s.entries, |s.entries|);
    assert view[choice].up == At(s, e.id).lod.upLoaded;
    hide LodOrder, Inv, BaseSizes;
    if pivot <= choice {
      assert WantedAt(s.entries, order, budget, e.id, choice, pivot, over);
    } else if Wanted(s.entries, weights, budget, e.id) {
      var k: nat, p: nat, o: bool :| WantedAt(s.entries, order, budget, e.id, k, p, o);
      PivotUnique(view, base, budget, pivot, over, p, o);
      assert false;
    }
  }

  /** The LOD is uploaded or on its way. */
  ghost predicate Coming(s: State, id: nat)
    requires IsLive(s, id)
  {
    At(s, id).lod.upLoaded || s.lodLoading == Some(id)
  }

  lemma ComingChanges(s: State, e: Event, weights: seq<real>, budget: nat, id: nat)
    requires Inv(s) && |s.entries| == |weights| && PolicyStep(s, e, weights, budget) && IsLive(s, id)
    ensures IsLive(Apply(s, e), id)
    ensures Coming(Apply(s, e), id) <==> if Moves(e) && e.id == id then e.LodLoad? else Coming(s, id)
    ensures Moves(e) && e.id == id ==> Coming(s, id) == e.LodUnload?
  {
    hide Inv, Designates;
    match e
    case LodLoad(i) =>
      LoadComing(s, i, id);
      hide LodLoadStarted;
    case LodUnload(i) =>
      UnloadGoing(s, i, id);
      hide LodUnloaded;
    case LoadEnd(_, _) => ComingStays(s, e, id);
    case Pick(_, _) => ComingStays(s, e, id);
    case LodPick => ComingStays(s, e, id);
    case LodDone => ComingStays(s, e, id);
  }

  lemma ComingStays(s: State, e: Event, id: nat)
    requires Inv(s) && Enabled(s, e) && IsLive(s, id)
    requires e.LoadEnd? || e.Pick? || e.LodPick? || e.LodDone?
    ensures IsLive(Apply(s, e), id) && (Coming(Apply(s, e), id) <==> Coming(s, id))
  {
    TargetsLive(s);
    hide Inv, LoaderOk;
    match e
    case LoadEnd(target, g) => ComingElsewhere(s, LoadEnded(s, target, g), target.id, id);
    case Pick(k, g) => ComingElsewhere(s, Picked(s, k, g), s.waiting[k], id);
    case LodPick =>
    case LodDone => ComingAtLast(s, id);
  }

  lemma ComingElsewhere(s: State, t: State, i: nat, id: nat)
    requires IsLive(s, i) && IsLive(t, i) && |t.entries| == |s.entries| && t.lodLoading == s.lodLoading
    requires forall k | 0 <= k < |s.entries| && k != i :: t.entries[k] == s.entries[k]
    requires At(t, i).lod.upLoaded == At(s, i).lod.upLoaded && IsLive(s, id)
    ensures IsLive(t, id) && (Coming(t, id) <==> Coming(s, id))
  {
  }

  lemma ComingAtLast(s: State, id: nat)
    requires s.current.Some? && s.current.value.HighDef? && IsLive(s, s.current.value.id)
    requires s.lodLoading == Some(s.current.value.id) && IsLive(s, id)
    ensures IsLive(LodUploaded(s), id) && (Coming(LodUploaded(s), id) <==> Coming(s, id))
  {
  }

  lemma LoadComing(s: State, i: nat, id: nat)
    requires IsLive(s, i) && IsLive(s, id) && s.lodLoading == None
    ensures IsLive(LodLoadStarted(s, i), id) && (Coming(LodLoadStarted(s, i), id) <==> i == id || Coming(s, id))
  {
  }

  lemma UnloadGoing(s: State, i: nat, id: nat)
    requires IsLive(s, i) && IsLive(s, id) && s.lodLoading == None
    ensures IsLive(LodUnloaded(s, i), id) && (Coming(LodUnloaded(s, i), id) <==> i != id && Coming(s, id))
  {
  }

  /** A step settles the LOD it moves, which was not settled, and leaves the others as settled as before. */
  lemma StepSettles(s: State, e: Event, weights: seq<real>, budget: nat, id: nat)
    requires Inv(s) && |s.entries| == |weights| && PolicyStep(s, e, weights, budget) && IsLive(s, id)
    ensures |Apply(s, e).entries| == |weights| && IsLive(Apply(s, e), id)
    ensures var t := Apply(s, e);
            if Moves(e) && e.id == id then !Settled(s, weights, budget, id) && Settled(t, weights, budget, id)
            else Settled(s, weights, budget, id) == Settled(t, weights, budget, id)
  {
    StepKeepsSizes(s, e, weights, budget);
    ComingChanges(s, e, weights, budget, id);
    if Moves(e) {
      DesignatedIsMisplaced(s, e, weights, budget);
    }
    var t := Apply(s, e);
    hide Inv, Wanted, PolicyStep, Apply, Coming;
    if Wanted(s.entries, weights, budget, id) {
      WantedStays(s.entries, t.entries, weights, budget, id);
    } else if Wanted(t.entries, weights, budget, id) {
      SameSizesBack(s.entries, t.entries);
      WantedStays(t.entries, s.entries, weights, budget, id);
    }
  }

  lemma SameSizesBack(a: seq<Slot>, b: seq<Slot>)
    requires SameSizes(a, b)
    ensures SameSizes(b, a)
  {
  }

  // ---- Runs ----

  /** Any interleaving of loads that end, uploads of LODs, and decisions of the policy. */
  ghost predicate PolicyRun(s: State, events: seq<Event>, weights: seq<real>, budget: nat)
    requires Inv(s) && |s.entries| == |weights|
    decreases events
  {
    events != [] ==>
      && PolicyStep(s, events[0], weights, budget)
      && (StepKeepsInv(s, events[0]);
          StepKeepsSizes(s, events[0], weights, budget);
          PolicyRun(Apply(s, events[0]), events[1..], weights, budget))
  }

  ghost function MoveCount(events: seq<Event>): nat {
    if events == [] then 0 else (if Moves(events[0]) then 1 else 0) + MoveCount(events[1..])
  }

  /** A settled LOD is left alone. */
  lemma {:induction false} SettledIsLeftAlone(s: State, events: seq<Event>, weights: seq<real>, budget: nat, k: nat)
    requires Inv(s) && |s.entries| == |weights| && PolicyRun(s, events, weights, budget)
    requires k < |events| && Moves(events[k])
    ensures IsLive(s, events[k].id) && !Settled(s, weights, budget, events[k].id)
    decreases events
  {
    StepKeepsInv(s, events[0]);
    StepKeepsSizes(s, events[0], weights, budget);
    hide Inv, Settled, Apply, SameSizes, Designates;
    if k > 0 {
      SettledIsLeftAlone(Apply(s, events[0]), events[1..], weights, budget, k - 1);
    }
    StepSettles(s, events[0], weights, budget, events[k].id);
  }

  /**
   * The policy never thrashes: while the textures, their sizes and their weights stay what they are, no
   * LOD is loaded or unloaded twice, whatever the loader and the uploads do in between, and only the
   * LODs misplaced at first are moved.
   */
  lemma {:induction false} NeverThrashes(s: State, events: seq<Event>, weights: seq<real>, budget: nat)
    requires Inv(s) && |s.entries| == |weights| && PolicyRun(s, events, weights, budget)
    ensures forall i, j | 0 <= i < j < |events| && Moves(events[i]) && Moves(events[j]) :: events[i].id != events[j].id
    ensures forall i | 0 <= i < |events| && Moves(events[i]) :: events[i].id in Misplaced(s, weights, budget)
    ensures MoveCount(events) <= |Misplaced(s, weights, budget)|
    decreases events
  {
    hide Inv, Settled, Apply, SameSizes, Designates;
    forall i | 0 <= i < |events| && Moves(events[i])
      ensures events[i].id in Misplaced(s, weights, budget)
    {
      SettledIsLeftAlone(s, events, weights, budget, i);
    }
    if events != [] {
      var e, rest := events[0], events[1..];
      StepKeepsInv(s, e);
      StepKeepsSizes(s, e, weights, budget);
      var t := Apply(s, e);
      NeverThrashes(t, rest, weights, budget);
      FewerMisplaced(s, e, weights, budget);
      forall i, j | 0 <= i < j < |events| && Moves(events[i]) && Moves(events[j])
        ensures events[i].id != events[j].id
      {
        assert events[j] == rest[j - 1];
        if i > 0 { assert events[i] == rest[i - 1]; }
      }
    }
  }

  lemma FewerMisplaced(s: State, e: Event, weights: seq<real>, budget: nat)
    requires Inv(s) && |s.entries| == |weights| && PolicyStep(s, e, weights, budget)
    requires |Apply(s, e).entries| == |weights|
    ensures var m, m' := Misplaced(s, weights, budget), Misplaced(Apply(s, e), weights, budget);
            if Moves(e) then e.id in m && e.id !in m' && |m'| <= |m| - 1 else |m'| <= |m|
  {
    var m, m' := Misplaced(s, weights, budget), Misplaced(Apply(s, e), weights, budget);
    hide Inv, Misplaced;
    forall id | id in m'
      ensures id in m && (Moves(e) ==> id != e.id)
    {
      OneLessMisplaced(s, e, weights, budget, id);
    }
    if Moves(e) {
      OneLessMisplaced(s, e, weights, budget, e.id);
      hide PolicyStep;
      SubsetIsSmaller(m', m - {e.id});
    } else {
      SubsetIsSmaller(m', m);
    }
  }

  lemma OneLessMisplaced(s: State, e: Event, weights: seq<real>, budget: nat, id: nat)
    requires Inv(s) && |s.entries| == |weights| && PolicyStep(s, e, weights, budget)
    requires |Apply(s, e).entries| == |weights|
    ensures id in Misplaced(Apply(s, e), weights, budget) ==>
              id in Misplaced(s, weights, budget) && (Moves(e) ==> id != e.id)
    ensures Moves(e) && e.id == id ==> id in Misplaced(s, weights, budget)
  {
    StepKeepsSizes(s, e, weights, budget);
    var t := Apply(s, e);
    MisplacedAre(s, weights, budget, id);
    MisplacedAre(t, weights, budget, id);
    hide Inv, Settled, Apply, Designates, Misplaced;
    if id < |s.entries| && IsLive(s, id) {
      StepSettles(s, e, weights, budget, id);
    }
  }

  lemma MisplacedAre(s: State, weights: seq<real>, budget: nat, id: nat)
    requires |s.entries| == |weights|
    ensures id in Misplaced(s, weights, budget) <==> IsLive(s, id) && !Settled(s, weights, budget, id)
  {
  }

  lemma {:induction false} SubsetIsSmaller(a: set<nat>, b: set<nat>)
    requires a <= b
    ensures |a| <= |b|
    decreases a
  {
    if x :| x in a {
      SubsetIsSmaller(a - {x}, b - {x});
    }
  }

  // ---- The pivot counted twice ----

  /** A texture uploaded with one level of detail more to load: its LOD takes three times its size. */
  function Uploaded(name: string, user: MeshInstance, mips: seq<Mip>, baseSize: nat, up: bool): Entry {
    Entry(name, true, true, true, false, baseSize, 4 * baseSize, [user], Geometry(mips, 4, true),
          HDLod(up, up, up, 1, 3 * baseSize, Geometry(mips, 4, true)))
  }

  /** Two textures, of 4x4 and 2x4 pixels at four bits a pixel; the LOD of the first is uploaded. */
  function PivotCounted(x: MeshInstance, y: MeshInstance): State {
    State([Live(Uploaded("a", x, [Mip(4, 4), Mip(2, 2)], WithMipMaps(8), true)),
           Live(Uploaded("b", y, [Mip(2, 4), Mip(1, 2)], WithMipMaps(4), false))],
          [], map["a" := 0, "b" := 1], [], None, None, {}, 60)
  }

  lemma PivotCountedKeepsInv(x: MeshInstance, y: MeshInstance)
    ensures Inv(PivotCounted(x, y))
  {
    var s := PivotCounted(x, y);
    SmallTextures();
    assert LodOk(s) && LoaderOk(s) by {
      hide Geometry.WellFormed, IsPowerOf2;
    }
    hide LodOk, LoaderOk;
    var e := s.entries;
    assert SumAsked(e) == 60 by {
      assert e[..1] == [e[0]] && e[..1][..0] == [] && e[..2 - 1] == e[..1];
      assert SumAsked(e[..1]) == 40;
    }
  }

  lemma SmallTextures()
    ensures Geometry([Mip(4, 4), Mip(2, 2)], 4, true).WellFormed()
    ensures Geometry([Mip(2, 4), Mip(1, 2)], 4, true).WellFormed()
  {
    assert IsPowerOf2(1) && IsPowerOf2(2) && IsPowerOf2(4);
  }

  lemma TwoSorted(a: LodToSort, b: LodToSort)
    requires a.weight < b.weight
    ensures SortByWeight([a, b]) == [a, b]
  {
    var lods := [a, b];
    assert SortedByWeight(lods) && DistinctWeights(SortByWeight(lods)) by {
      assert SortByWeight(lods[1..][1..]) == [] && lods[1..] == [b];
      assert SortByWeight(lods[1..]) == [b];
    }
    OrderUnique(SortByWeight(lods), lods);
  }

  lemma TwoCollected(e: seq<Slot>, weights: seq<real>)
    requires |e| == |weights| == 2 && Lodable(e, 0) && Lodable(e, 1)
    ensures Collected(e, weights, 2) == [LodToSort(0, weights[0]), LodToSort(1, weights[1])]
    ensures BaseSizes(e, 2) == e[0].entry.baseSize + e[1].entry.baseSize
  {
    assert Collected(e, weights, 0) == [] && BaseSizes(e, 0) == 0;
    assert Collected(e, weights, 1) == [LodToSort(0, weights[0])] && BaseSizes(e, 1) == e[0].entry.baseSize;
  }

  lemma TwoLods(e: seq<Slot>)
    requires |e| == 2 && Lodable(e, 0) && Lodable(e, 1)
    ensures LodOrder(e, [1.0, 2.0]) == [LodToSort(0, 1.0), LodToSort(1, 2.0)]
    ensures BaseSizes(e, 2) == e[0].entry.baseSize + e[1].entry.baseSize
  {
    hide SortByWeight, Collected, BaseSizes;
    TwoCollected(e, [1.0, 2.0]);
    TwoSorted(LodToSort(0, 1.0), LodToSort(1, 2.0));
  }

  lemma TwoLodsDecision(view: seq<Lod>)
    requires view == [Lod(30, true), Lod(15, false)]
    ensures IsPivot(view, 15, 40, 0, true) && IsDecision(view, 15, 0, true, None)
    ensures CountedSize(view, 15, 0, true) == 75
  {
    assert SizeFrom(view, 2) == 0 && LoadedFrom(view, 2) == 0;
    assert SizeFrom(view, 1) == 15 && LoadedFrom(view, 1) == 0;
    assert SizeFrom(view, 0) == 45 && LoadedFrom(view, 0) == 30;
  }

  lemma NothingDone(e: seq<Slot>)
    requires |e| == 2 && Lodable(e, 0) && Lodable(e, 1)
    requires e[0].entry.baseSize == 10 && e[1].entry.baseSize == 5
    requires e[0].entry.lod.extraSize == 30 && e[1].entry.lod.extraSize == 15
    requires e[0].entry.lod.upLoaded && !e[1].entry.lod.upLoaded
    ensures LodDecision(e, LodOrder(e, [1.0, 2.0]), 40, 0, true, None, 75)
    ensures Wanted(e, [1.0, 2.0], 40, 1)
  {
    TwoLods(e);
    var order := LodOrder(e, [1.0, 2.0]);
    OrderCovers(e, [1.0, 2.0]);
    assert LodView(e, order) == [Lod(30, true), Lod(15, false)];
    TwoLodsDecision(LodView(e, order));
    hide LodOrder, BaseSizes, CoversLods, IsPivot, IsDecision, CountedSize, LodView;
    assert WantedAt(e, order, 40, 1, 1, 0, true);
  }

  /**
   * Counting the pivot twice can leave the most important LOD out: here both LODs are wanted, the one
   * of greater weight is missing, and yet the policy does nothing.
   */
  lemma StopsTooEarly(x: MeshInstance, y: MeshInstance)
    ensures var s, weights := PivotCounted(x, y), [1.0, 2.0];
            && Inv(s)
            && LodDecision(s.entries, LodOrder(s.entries, weights), 40, 0, true, None, 75)
            && Wanted(s.entries, weights, 40, 1) && !At(s, 1).lod.upLoaded
  {
    PivotCountedKeepsInv(x, y);
    hide Inv, LodDecision, LodOrder, Wanted;
    NothingDone(PivotCounted(x, y).entries);
  }
}
