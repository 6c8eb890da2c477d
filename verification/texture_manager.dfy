/**
 * `CAsyncTextureManager` itself: the methods that change the fields in place. Each is proved to
 * compute the corresponding function of module TextureState, and to keep every instance's counter
 * equal to its number of occurrences in the entries that are not yet uploaded.
 *
 * Foreign code: the HLS manager's answer is a parameter, the driver's answer and the geometry of a
 * texture built by the HLS manager are arbitrary, and the asynchronous loader is the method LoadEnd.
 */
module AsyncTextures {
  import opened TextureUpload
  import opened TextureLodPolicy
  import opened TextureState
  import opened TextureRuns
  import opened TexturePolicyRuns
  import opened TextureRecords
  import opened Wrappers

  const MIN_DISTANCE := 1.0
  const FAR_AWAY := 340282346638528859811704183484516925440.0  // FLT_MAX

  /** What the driver was asked to do. */
  datatype DriverCall =
    | Created(target: Target)
    | Sent(target: Target, range: Range, bytes: nat)
    | Swapped(id: nat)

  ghost function SentBytes(frame: seq<DriverCall>): nat {
    if frame == [] then 0
    else
      SentBytes(frame[..|frame| - 1])
      + (if frame[|frame| - 1].Sent? then frame[|frame| - 1].bytes else 0)
  }

  /** ASCII lower case, as `toLower` for the names the manager uses. */
  function ToLower(s: string): (r: string)
    ensures |r| == |s|
    ensures forall i | 0 <= i < |s| :: r[i] as int == s[i] as int + if 65 <= s[i] as int <= 90 then 32 else 0
  {
    seq(|s|, i requires 0 <= i < |s| => if 'A' <= s[i] <= 'Z' then s[i] - 'A' + 'a' else s[i])
  }

  /** The geometry of the texture being uploaded. */
  function TargetGeometry(s: State, target: Target): Geometry
    requires IsLive(s, target.id)
  {
    if target.Base? then At(s, target.id).geometry else At(s, target.id).lod.geometry
  }

  /** The calls made for the current upload form a run that has not finished. */
  ghost predicate UploadOk(s: State, cursor: Cursor, calls: seq<Call>) {
    s.current.Some? && IsLive(s, s.current.value.id) ==>
      var g := TargetGeometry(s, s.current.value);
      && g.WellFormed() && CursorOk(g, cursor)
      && (cursor != START ==> g.ValidDXTCMipMap())
      && Unfinished(calls)
      && Run(g, START, calls, cursor)
  }

  /** Every instance that uses a live texture is known. */
  ghost predicate UsersOk(entries: seq<Slot>, users: set<MeshInstance>) {
    forall i, k | 0 <= i < |entries| && entries[i].Live? && 0 <= k < |entries[i].entry.instances| ::
      entries[i].entry.instances[k] in users
  }

  lemma {:induction false} UnknownUsesNothing(entries: seq<Slot>, users: set<MeshInstance>, x: MeshInstance)
    requires UsersOk(entries, users) && x !in users
    ensures ToLoad(entries, x) == 0
  {
    if entries != [] {
      UnknownUsesNothing(entries[..|entries| - 1], users, x);
      var last := entries[|entries| - 1];
      assert last.Live? ==> x !in last.entry.instances;
    }
  }

  function Pow2(n: nat): nat {
    if n == 0 then 1 else 2 * Pow2(n - 1)
  }

  /** Distance of the nearest of the first n instances. */
  ghost function Nearest(instances: seq<MeshInstance>, n: nat): real
    requires n <= |instances|
    reads instances
  {
    if n == 0 then FAR_AWAY
    else
      var d := Nearest(instances, n - 1);
      if instances[n - 1].textureDistance < d then instances[n - 1].textureDistance else d
  }

  /** Weight of a LOD: the screen ratio of its texture, seen from the nearest user. */
  ghost function Weight(e: Entry): real
    reads e.instances
  {
    var d := Nearest(e.instances, |e.instances|);
    Pow2(e.lod.level) as real / (if MIN_DISTANCE < d then d else MIN_DISTANCE)
  }

  /** The distance of a user, as the weight takes it. */
  ghost function Away(x: MeshInstance): real
    reads x
  {
    if x.textureDistance < MIN_DISTANCE then MIN_DISTANCE else x.textureDistance
  }

  lemma {:induction false} NearestIs(instances: seq<MeshInstance>, n: nat)
    requires n <= |instances|
    ensures Nearest(instances, n) <= FAR_AWAY
    ensures forall k | 0 <= k < n :: Nearest(instances, n) <= instances[k].textureDistance
    ensures Nearest(instances, n) == FAR_AWAY
         || exists k :: 0 <= k < n && Nearest(instances, n) == instances[k].textureDistance
  {
    if n > 0 {
      NearestIs(instances, n - 1);
    }
  }

  lemma Quotient(a: real, b: real, c: real)
    requires a > 0.0 && 0.0 < b <= c
    ensures a / b * c >= a && a / b * b == a && (b < c ==> a / b > a / c)
  {
    var q, r := a / b, a / c;
    assert q * b == a && q > 0.0 && r * c == a;
    assert q * c == a + q * (c - b);
    assert q * (c - b) >= 0.0;
    if b < c {
      assert q * (c - b) > 0.0;
      assert (q - r) * c > 0.0;
    }
  }

  /** The weight of a LOD at distance d of a user is at least 2^level / d, and so much for the nearest user. */
  lemma WeightIsRatio(e: Entry, x: MeshInstance)
    requires x in e.instances
    ensures Weight(e) * Away(x) >= Pow2(e.lod.level) as real
    ensures x.textureDistance <= FAR_AWAY && (forall y | y in e.instances :: x.textureDistance <= y.textureDistance) ==>
              Weight(e) * Away(x) == Pow2(e.lod.level) as real
    ensures e.lod.level == 0 ==> Pow2(e.lod.level) == 1
  {
    NearestIs(e.instances, |e.instances|);
    PowerIsPositive(e.lod.level);
    var d, p := Nearest(e.instances, |e.instances|), Pow2(e.lod.level) as real;
    var b := if MIN_DISTANCE < d then d else MIN_DISTANCE;
    assert Weight(e) == p / b;
    var k :| 0 <= k < |e.instances| && e.instances[k] == x;
    assert d <= x.textureDistance;
    hide Weight, Nearest;
    Quotient(p, b, Away(x));
  }

  /** Each level more doubles the weight, seen from the same distance. */
  lemma WeightDoubles(e: Entry)
    ensures Weight(e.(lod := e.lod.(level := e.lod.level + 1))) == 2.0 * Weight(e) > 0.0
  {
    var d := Nearest(e.instances, |e.instances|);
    var b := if MIN_DISTANCE < d then d else MIN_DISTANCE;
    var p := Pow2(e.lod.level);
    PowerIsPositive(e.lod.level);
    assert Pow2(e.lod.level + 1) == 2 * p;
    assert Weight(e) == p as real / b;
    assert Weight(e.(lod := e.lod.(level := e.lod.level + 1))) == (2 * p) as real / b;
    hide Weight, Nearest, Pow2;
    assert (2 * p) as real == 2.0 * (p as real);
    Quotient(p as real, b, b);
    assert 2.0 * (p as real) / b * b == 2.0 * (p as real);
  }

  lemma {:induction false} PowerIsPositive(n: nat)
    ensures Pow2(n) >= 1
  {
    if n > 0 {
      PowerIsPositive(n - 1);
    }
  }

  /** Some user of a is nearer than every user of b, which are all beyond the minimal distance. */
  ghost predicate Nearer(a: Entry, b: Entry)
    reads a.instances, b.instances
  {
    exists k :: && 0 <= k < |a.instances| && a.instances[k].textureDistance < FAR_AWAY
                && forall y | y in b.instances ::
                     a.instances[k].textureDistance < y.textureDistance && MIN_DISTANCE < y.textureDistance
  }

  /** Of two LODs of the same level, the nearer one weighs more. */
  lemma NearerWeighsMore(a: Entry, b: Entry)
    requires Nearer(a, b) && a.lod.level == b.lod.level
    ensures Weight(a) > Weight(b)
  {
    var k :| && 0 <= k < |a.instances| && a.instances[k].textureDistance < FAR_AWAY
             && forall y | y in b.instances ::
                  a.instances[k].textureDistance < y.textureDistance && MIN_DISTANCE < y.textureDistance;
    NearestIs(a.instances, |a.instances|);
    NearestIs(b.instances, |b.instances|);
    var d, f := Nearest(a.instances, |a.instances|), Nearest(b.instances, |b.instances|);
    assert MIN_DISTANCE < f && d < f;
    PowerIsPositive(a.lod.level);
    var p := Pow2(a.lod.level) as real;
    var near := if MIN_DISTANCE < d then d else MIN_DISTANCE;
    assert Weight(a) == p / near && Weight(b) == p / f;
    hide Weight, Nearest, Pow2;
    Quotient(p, near, f);
  }

  ghost function Users(entries: seq<Slot>): set<MeshInstance> {
    set i, x | 0 <= i < |entries| && entries[i].Live? && x in entries[i].entry.instances :: x
  }

  /** The weights of the LODs, slot by slot. */
  ghost function Weights(entries: seq<Slot>): (w: seq<real>)
    reads Users(entries)
    ensures |w| == |entries|
    ensures forall i | 0 <= i < |entries| && Lodable(entries, i) :: w[i] == Weight(entries[i].entry)
  {
    seq(|entries|, i requires 0 <= i < |entries| reads Users(entries) =>
      if Lodable(entries, i) then
        assert forall x | x in entries[i].entry.instances :: x in Users(entries);
        Weight(entries[i].entry)
      else 0.0)
  }

  /**
   * Of two LODs of the same level the nearer one goes first: it is wanted whenever the farther one is, it
   * is there before the farther one is loaded, and the farther one is gone before it is unloaded.
   */
  lemma NearerGoesFirst(entries: seq<Slot>, budget: nat, i: nat, j: nat,
                        pivot: nat, over: bool, choice: nat, sizeGot: nat)
    requires i < |entries| && j < |entries| && Lodable(entries, i) && Lodable(entries, j)
    requires entries[i].entry.lod.level == entries[j].entry.lod.level && Nearer(entries[i].entry, entries[j].entry)
    ensures Wanted(entries, Weights(entries), budget, j) ==> Wanted(entries, Weights(entries), budget, i)
    ensures Designates(entries, LodOrder(entries, Weights(entries)), budget, j, pivot, over, choice, sizeGot) ==>
              !entries[j].entry.lod.upLoaded ==> entries[i].entry.lod.upLoaded
    ensures Designates(entries, LodOrder(entries, Weights(entries)), budget, i, pivot, over, choice, sizeGot) ==>
              entries[i].entry.lod.upLoaded ==> !entries[j].entry.lod.upLoaded
  {
    NearerWeighsMore(entries[i].entry, entries[j].entry);
    var weights := Weights(entries);
    assert weights[i] > weights[j];
    hide Weight, Weights, Wanted, Designates, LodOrder, Nearer;
    HeavierGoesFirst(entries, weights, budget, i, j, pivot, over, choice, sizeGot);
    if Wanted(entries, weights, budget, j) {
      HeavierIsWanted(entries, weights, budget, i, j);
    }
  }

  /** What the decision does to the state. */
  ghost predicate LodOutcome(s: State, t: State, order: seq<LodToSort>, choice: Option<nat>) {
    if choice == None then t == s
    else
      && choice.value < |order|
      && var id := order[choice.value].id;
         && IsLive(s, id) && At(s, id).canHaveLOD
         && t == LodMoved(s, id)
  }

  function LodSwap(entries: seq<Slot>, order: seq<LodToSort>, choice: Option<nat>): seq<DriverCall> {
    if choice.Some? && choice.value < |order| then
      var id := order[choice.value].id;
      if id < |entries| && entries[id].Live? && entries[id].entry.lod.upLoaded then [Swapped(id)] else []
    else []
  }

  /** A handle is swapped back exactly when its LOD is unloaded, and it is the only one. */
  lemma SwapsBack(s: State, t: State, order: seq<LodToSort>, choice: Option<nat>, id: nat)
    requires LodOutcome(s, t, order, choice) && IsLive(s, id)
    ensures IsLive(t, id)
    ensures Swapped(id) in LodSwap(s.entries, order, choice) <==> At(s, id).lod.upLoaded && !At(t, id).lod.upLoaded
    ensures |LodSwap(s.entries, order, choice)| <= 1
  {
    if choice.Some? {
      assert t == LodMoved(s, order[choice.value].id);
    }
  }

  lemma ChosenIsLodable(entries: seq<Slot>, order: seq<LodToSort>, choice: Option<nat>, budget: nat,
                        pivot: nat, over: bool, sizeGot: nat)
    requires LodDecision(entries, order, budget, pivot, over, choice, sizeGot)
    ensures choice.Some? ==>
              && choice.value < |order|
              && order[choice.value].id < |entries| && Lodable(entries, order[choice.value].id)
  {
    if choice.Some? {
      assert order[choice.value] in order;
    }
  }

  function SentCalls(g: Geometry, target: Target, ranges: seq<Range>): seq<DriverCall>
    requires RangesOk(g, ranges)
  {
    if ranges == [] then []
    else
      var r := ranges[|ranges| - 1];
      SentCalls(g, target, ranges[..|ranges| - 1])
      + [Sent(target, r, LinesWeight(g, g.mips[r.mip].width, r.hi - r.lo))]
  }

  /**
   * A frame keeps its budget, but for a last rectangle of at most four lines, sent because fewer
   * than four lines still fitted.
   */
  ghost predicate FrameOk(frame: seq<DriverCall>, budget: nat, g: Geometry) {
    || SentBytes(frame) <= budget
    || (&& frame != [] && frame[|frame| - 1].Sent?
        && var last := frame[|frame| - 1].range;
           var before := SentBytes(frame[..|frame| - 1]);
           && RangeOk(g, last)
           && before <= budget
           && last.hi - last.lo <= 4 && budget - before < 4 * LineWeight(g, last.mip))
  }

  /** The step of getNextTextureToUpLoad, but for what the LOD policy chooses. */
  ghost predicate NextStep(s: State, t: State, colored: nat, maxColored: nat, built: Geometry, colored': nat)
    requires Inv(s)
  {
    WaitingLive(s);
    var k := FirstLoaded(s);
    if k < |s.waiting| then
      var hls := At(s, s.waiting[k]).fromHLS;
      if hls && colored >= maxColored then t == s && colored' == colored
      else t == Picked(s, k, built) && colored' == colored + (if hls then WithMipMaps(built.Size0()) else 0)
    else
      && colored' == colored
      && if s.waiting == [] && s.lodLoading.Some? && IsLive(s, s.lodLoading.value)
            && At(s, s.lodLoading.value).lod.loaded then
           t == LodPicked(s)
         else if s.waiting == [] && s.lodLoading == None then LodStep(s, t)
         else t == s
  }

  ghost predicate FirstLoadedAt(s: State, k: nat)
    requires Inv(s) && k < |s.waiting|
  {
    WaitingLive(s);
    At(s, s.waiting[k]).loaded && forall i | 0 <= i < k :: !At(s, s.waiting[i]).loaded
  }

  /**
   * What is uploaded next: the first waiting texture that is loaded, unless it is to be coloured and enough
   * has been coloured in this frame; with nothing waiting, the LOD if it is loaded. Textures that wait and are
   * not loaded hold up the LODs.
   */
  lemma NextUploadIs(s: State, t: State, colored: nat, maxColored: nat, built: Geometry, colored': nat, k: nat)
    requires Inv(s) && s.current == None && NextStep(s, t, colored, maxColored, built, colored')
    ensures k < |s.waiting| && FirstLoadedAt(s, k) ==>
              && IsLive(s, s.waiting[k])
              && var hls := At(s, s.waiting[k]).fromHLS;
                 if hls && colored >= maxColored then t == s
                 else t.current == Some(Base(s.waiting[k])) && (hls ==> IsLive(t, s.waiting[k]) && At(t, s.waiting[k]).geometry == built)
    ensures s.waiting != [] && (forall i | 0 <= i < |s.waiting| :: IsLive(s, s.waiting[i]) && !At(s, s.waiting[i]).loaded) ==> t == s
    ensures s.waiting == [] && s.lodLoading.Some? ==>
              && IsLive(s, s.lodLoading.value)
              && if At(s, s.lodLoading.value).lod.loaded then t.current == Some(HighDef(s.lodLoading.value)) else t == s
    ensures colored' > colored ==> colored < maxColored
  {
    WaitingLive(s);
    assert FirstLoaded(s) < |s.waiting| ==> FirstLoadedAt(s, FirstLoaded(s));
    hide Inv, FirstLoaded;
  }

  /** What the LOD policy may do: nothing, start one load, or unload one LOD. */
  ghost predicate LodStep(s: State, t: State) {
    || t == s
    || (exists id: nat :: IsLive(s, id) && At(s, id).canHaveLOD && t == LodMoved(s, id))
  }

  function LodMoved(s: State, id: nat): State
    requires IsLive(s, id)
  {
    if At(s, id).lod.upLoaded then LodUnloaded(s, id) else LodLoadStarted(s, id)
  }

  lemma WaitingLive(s: State)
    requires Inv(s)
    ensures forall i | 0 <= i < |s.waiting| :: IsLive(s, s.waiting[i])
    ensures s.lodLoading.Some? ==> IsLive(s, s.lodLoading.value)
    ensures s.current.Some? ==> IsLive(s, s.current.value.id)
  {
    forall i | 0 <= i < |s.waiting|
      ensures IsLive(s, s.waiting[i])
    {
      assert s.waiting[i] in s.waiting;
    }
  }

  class AsyncTextureManager {
    var baseLodLevel: nat
    var maxLodLevel: nat
    var maxUploadPerFrame: nat
    var maxHLSColoringPerFrame: nat
    var maxTotalTextureSize: nat
    var lastTextureSizeGot: nat

    var entries: seq<Slot>
    var freeIds: seq<nat>
    var entryMap: map<string, nat>
    var waiting: seq<nat>
    var current: Option<Target>
    var cursor: Cursor
    var lodLoading: Option<nat>
    var totalAsked: nat

    /** The loads held by the asynchronous file manager. */
    var pending: set<Target>
    /** The calls made to the driver. */
    var driver: seq<DriverCall>

    /** Every instance ever passed to AddTextureRef. */
    ghost var users: set<MeshInstance>
    /** The upload calls made so far for the current upload, and the uploads that have ended. */
    ghost var calls: seq<Call>
    ghost var finished: seq<Finished>

    ghost function Value(): State
      reads this
    {
      State(entries, freeIds, entryMap, waiting, current, lodLoading, pending, totalAsked)
    }

    /** Counters and uses agree. */
    ghost predicate CountersValid()
      reads this, users
    {
      && UsersOk(entries, users)
      && forall x | x in users :: x.toLoadRefCount == ToLoad(entries, x)
    }

    /** Every finished upload was complete, and whatever is uploaded has been by one of them. */
    ghost predicate RecordsValid()
      reads this
    {
      AllFinishedOk(finished) && Recorded([], entries, finished)
    }

    /** The current upload has just been recorded. */
    ghost predicate CurrentRecorded()
      requires current.Some? && IsLive(Value(), current.value.id)
      reads this
    {
      && finished != []
      && finished[|finished| - 1].target == current.value
      && finished[|finished| - 1].geometry == TargetGeometry(Value(), current.value)
    }

    ghost predicate Valid()
      reads this, users
    {
      Inv(Value()) && UploadOk(Value(), cursor, calls) && CountersValid() && RecordsValid()
    }

    constructor ()
      ensures Valid() && Value() == EMPTY && users == {} && finished == []
      ensures baseLodLevel == 3 && maxLodLevel == 1 && maxUploadPerFrame == 65536
      ensures maxHLSColoringPerFrame == 20 * 1024 && maxTotalTextureSize == 10 * 1024 * 1024
    {
      baseLodLevel, maxLodLevel := 3, 1;
      maxUploadPerFrame, maxHLSColoringPerFrame := 65536, 20 * 1024;
      maxTotalTextureSize, lastTextureSizeGot := 10 * 1024 * 1024, 0;
      entries, freeIds, entryMap, waiting := [], [], map[], [];
      current, cursor, lodLoading, totalAsked := None, START, None, 0;
      pending, driver, users, calls, finished := {}, [], {}, [], [];
    }

    /** Adds a use of a texture; the first use starts its loading (or marks it for colouring). */
    method AddTextureRef(textNameNotLwr: string, instance: MeshInstance, hls: bool) returns (ret: nat)
      requires Valid() && (instance in users || instance.toLoadRefCount == 0)
      modifies this`entries, this`freeIds, this`entryMap, this`pending, this`waiting, this`users, instance`toLoadRefCount
      ensures Valid() && users == old(users) + {instance}
      ensures Value() == Added(old(Value()), ToLower(textNameNotLwr), hls, instance)
      ensures ToLower(textNameNotLwr) in entryMap && ret == entryMap[ToLower(textNameNotLwr)]
    {
      hide Inv, UploadOk, UsersOk, ToLoad, WithEntry, Added, ToLower, AllFinishedOk, Recorded;
      var textName := ToLower(textNameNotLwr);
      ghost var s := Value();
      AddedRecorded(s, textName, hls, instance);
      RecordedStill([], entries, Added(s, textName, hls, instance).entries, finished);
      if textName !in entryMap {
        CreateTexture(textName, hls);
      }
      WithEntryAdded(s, textName, hls, instance);
      ret := entryMap[textName];
      var text := entries[ret].entry;
      entries := entries[ret := Live(text.(instances := text.instances + [instance]))];
      if !text.upLoaded {
        instance.toLoadRefCount := instance.toLoadRefCount + 1;
      }
      users := users + {instance};
      AddedKeepsInv(s, textName, hls, instance);
      AddedFrame(s, textName, hls, instance, old(users), cursor, calls);
    }

    /** Gives a new entry a slot, names it, starts its loading and makes it wait. */
    method CreateTexture(textName: string, hls: bool)
      requires Inv(Value()) && textName !in entryMap
      modifies this`entries, this`freeIds, this`entryMap, this`pending, this`waiting
      ensures Value() == WithEntry(old(Value()), textName, hls)
    {
      var i := |entries|;
      if freeIds != [] {
        i := freeIds[|freeIds| - 1];
        freeIds := freeIds[..|freeIds| - 1];
        assert i in old(freeIds);
      }
      if i >= |entries| {
        entries := entries + [Null];
      }
      entries := entries[i := Live(Entry(textName, hls, false, false, hls, 0, 0, [], NO_GEOMETRY, NEW_LOD))];
      entryMap := entryMap[textName := i];
      if !hls {
        pending := pending + {Base(i)};
      }
      waiting := waiting + [i];
      assert old(freeIds) == [] ==> entries == old(entries) + [entries[i]];
    }

    /** Drops one use of a texture; the last one deletes the texture. */
    method ReleaseTexture(id: nat, instance: MeshInstance)
      requires Valid() && IsLive(Value(), id)
      modifies this, users
      ensures Valid() && users == old(users)
      ensures At(old(Value()), id).totalAsked <= old(totalAsked)
      ensures Value() == Released(old(Value()), id, instance)
    {
      hide Inv, UploadOk, UsersOk, ToLoad, Deleted, InvButUnused, AllFinishedOk, Recorded, Dropped, SwapRemove;
      ghost var s := Value();
      DroppedRecorded(s, id, instance);
      RecordedStill([], entries, Dropped(s, id, instance).entries, finished);
      DroppedFrame(s, id, instance, users, cursor, calls);
      DroppedKeepsInv(s, id, instance);
      DroppedIs(s, id, instance);
      var text := entries[id].entry;
      var instSize := |text.instances|;
      var i := 0;
      while i < instSize && text.instances[i] != instance
        invariant 0 <= i <= instSize && instance !in text.instances[..i]
      {
        i := i + 1;
      }
      assert i == FirstIndex(text.instances, instance);
      hide FirstIndex;
      if i < instSize {
        if !text.upLoaded {
          instance.toLoadRefCount := instance.toLoadRefCount - 1;
        }
        // Remove it by swapping with the last one.
        text := text.(instances := text.instances[i := text.instances[instSize - 1]][..instSize - 1]);
        entries := entries[id := Live(text)];
      }
      if text.instances == [] {
        DeleteTexture(id);
      }
    }

    /** Deletes a texture, whether or not instances still use it. */
    method DeleteTexture(id: nat)
      requires IsLive(Value(), id) && InvButUnused(Value(), id)
      requires UploadOk(Value(), cursor, calls) && CountersValid() && RecordsValid()
      modifies this, users
      ensures Valid() && users == old(users)
      ensures At(old(Value()), id).totalAsked <= old(totalAsked)
      ensures Value() == Deleted(old(Value()), id)
    {
      hide Inv, UploadOk, UsersOk, ToLoad, InvButUnused, AllFinishedOk, Recorded, Deleted, MainStopped, LodStopped, Uses;
      ghost var s := Value();
      ghost var us := users;
      DeletedKeepsInv(s, id);
      DeletedRecorded(s, id);
      RecordedStill([], entries, Deleted(s, id).entries, finished);
      DeletedFrame(s, id, us, cursor, calls);
      DeletedIs(s, id);
      var text := entries[id].entry;

      StopMain(id);
      if !text.upLoaded {
        SignalInstances(text, us);
      }
      totalAsked := totalAsked - text.totalAsked;
      StopLod(id);
      entries, freeIds := entries[id := Null], freeIds + [id];
    }

    /** Stops the loading and the upload of a texture, unnames it and lets it wait no longer. */
    method StopMain(id: nat)
      requires IsLive(Value(), id)
      modifies this`pending, this`current, this`entryMap, this`waiting
      ensures Value() == MainStopped(old(Value()), id)
    {
      if !entries[id].entry.loaded {
        pending := pending - {Base(id)};
      }
      entryMap := entryMap - {entries[id].entry.name};
      waiting := RemoveFirst(waiting, id);
      if current == Some(Base(id)) {
        current := None;
      }
    }

    /** Stops the loading and the upload of a texture's LOD. */
    method StopLod(id: nat)
      requires IsLive(Value(), id)
      modifies this`pending, this`current, this`lodLoading
      ensures Value() == LodStopped(old(Value()), id)
    {
      if lodLoading == Some(id) {
        if !entries[id].entry.lod.loaded {
          pending := pending - {HighDef(id)};
        }
        if current == Some(HighDef(id)) {
          current := None;
        }
        lodLoading := None;
      }
    }

    /** Decrements the counter of each instance of an entry, once for each of its occurrences. */
    static method SignalInstances(e: Entry, ghost us: set<MeshInstance>)
      requires forall x | x in e.instances :: x in us
      modifies us
      ensures forall x | x in us :: x.toLoadRefCount == old(x.toLoadRefCount) - Uses(e, x)
    {
      var instances := e.instances;
      for i := 0 to |instances|
        invariant forall x | x in us :: x.toLoadRefCount == old(x.toLoadRefCount) - multiset(instances[..i])[x]
      {
        instances[i].toLoadRefCount := instances[i].toLoadRefCount - 1;
        assert instances[..i + 1] == instances[..i] + [instances[i]];
      }
      assert instances[..|instances|] == instances;
    }

    /** The destructor: deletes what remains, after which its final assertion holds. */
    method Destroy()
      requires Valid()
      modifies this, users
      ensures Valid() && users == old(users)
      ensures waiting == [] && entryMap == map[] && current == None && lodLoading == None && pending == {}
      ensures forall x | x in users :: x.toLoadRefCount == 0
    {
      hide Inv, UploadOk, AllFinishedOk, Recorded;
      ghost var us := users;
      for i := 0 to |entries|
        invariant Valid() && users == us && |entries| == old(|entries|)
        invariant forall id: nat | id < i :: !IsLive(Value(), id)
      {
        if entries[i].Live? {
          InvWeakens(Value(), i);
          DeletedKeepsInv(Value(), i);
          DeleteTexture(i);
        }
      }
      NothingLeft(Value());
      forall x | x in users
        ensures x.toLoadRefCount == 0
      {
        NothingToLoad(Value(), x);
      }
    }

    /** The loader thread ends one of the loads it holds. */
    method LoadEnd(target: Target, geometry: Geometry)
      requires Valid() && target in pending && geometry.WellFormed()
      modifies this`entries, this`pending
      ensures Valid() && IsLive(old(Value()), target.id)
      ensures Value() == LoadEnded(old(Value()), target, geometry)
    {
      hide UploadOk, UsersOk, ToLoad, AllFinishedOk, Recorded;
      ghost var s := Value();
      LoadEndedRecorded(s, target, geometry);
      RecordedStill([], entries, LoadEnded(s, target, geometry).entries, finished);
      LoadEndedKeepsInv(s, target, geometry);
      LoadEndedFrame(s, target, geometry, users, cursor, calls);
      var e := entries[target.id].entry;
      if target.Base? {
        e := e.(loaded := true, geometry := geometry);
      } else {
        e := e.(lod := e.lod.(loaded := true, geometry := geometry));
      }
      entries := entries[target.id := Live(e)];
      pending := pending - {target};
    }

    /** Distance of the nearest instance that uses a texture. */
    static method MinDistance(instances: seq<MeshInstance>) returns (d: real)
      ensures d == Nearest(instances, |instances|)
    {
      d := FAR_AWAY;
      for j := 0 to |instances|
        invariant d == Nearest(instances, j)
      {
        if instances[j].textureDistance < d {
          d := instances[j].textureDistance;
        }
      }
    }

    /** Collects the LODs with their weights, and the size of the textures without them. */
    method CollectLods() returns (lods: seq<LodToSort>, currentBaseSize: nat)
      ensures lods == Collected(entries, old(Weights(entries)), |entries|)
      ensures currentBaseSize == BaseSizes(entries, |entries|)
    {
      lods, currentBaseSize := [], 0;
      ghost var weights := Weights(entries);
      for i := 0 to |entries|
        invariant lods == Collected(entries, weights, i)
        invariant currentBaseSize == BaseSizes(entries, i)
      {
        if Lodable(entries, i) {
          var text := entries[i].entry;
          var d := MinDistance(text.instances);
          d := if MIN_DISTANCE < d then d else MIN_DISTANCE;
          currentBaseSize := currentBaseSize + text.baseSize;
          var toSort := LodToSort(i, Pow2(text.lod.level) as real / d);
          lods := lods + [toSort];
        } else {
          assert lods + [] == lods;
        }
      }
    }

    /** Loads or unloads at most one LOD, following the policy. */
    method UpdateTextureLodSystem()
      returns (ghost order: seq<LodToSort>, ghost pivot: nat, ghost over: bool, ghost choice: Option<nat>)
      requires Valid() && current == None && lodLoading == None
      modifies this`lastTextureSizeGot, this`entries, this`lodLoading, this`pending, this`driver
      ensures Valid()
      ensures order == LodOrder(old(entries), old(Weights(entries)))
      ensures LodDecision(old(entries), order, maxTotalTextureSize, pivot, over, choice, lastTextureSizeGot)
      ensures LodOutcome(old(Value()), Value(), order, choice)
      ensures driver == old(driver) + LodSwap(old(entries), order, choice)
    {
      hide Inv, UploadOk, UsersOk, ToLoad, AllFinishedOk, Recorded, LodOrder, LodDecision, Weights;
      var lodArray, act;
      lodArray, act, pivot, over := ChooseLodToMove();
      order, choice := lodArray, act;
      ChosenIsLodable(entries, lodArray, act, maxTotalTextureSize, pivot, over, lastTextureSizeGot);
      if act.Some? {
        var id := lodArray[act.value].id;
        if entries[id].entry.lod.upLoaded {
          UnloadLod(id);
        } else {
          LoadLod(id);
        }
      }
    }

    method ChooseLodToMove()
      returns (lodArray: seq<LodToSort>, choice: Option<nat>, ghost pivot: nat, ghost over: bool)
      modifies this`lastTextureSizeGot
      ensures lodArray == LodOrder(entries, old(Weights(entries)))
      ensures LodDecision(entries, lodArray, maxTotalTextureSize, pivot, over, choice, lastTextureSizeGot)
    {
      ghost var weights := Weights(entries);
      var lods, currentBaseSize := CollectLods();
      lodArray := SortByWeight(lods);
      assert lodArray == LodOrder(entries, weights);
      hide Weights, Collected, BaseSizes, LodOrder, SortByWeight, SortedByWeight, IsPivot, IsDecision, CountedSize;
      OrderCovers(entries, weights);
      CoveredLive(entries, lodArray);
      hide CoversLods;
      var unload;
      pivot, over, lastTextureSizeGot, choice, unload := ChooseLod(LodView(entries, lodArray), currentBaseSize, maxTotalTextureSize);
    }

    /** Starts to load a LOD. */
    method LoadLod(id: nat)
      requires Valid() && current == None && lodLoading == None
      requires IsLive(Value(), id) && At(Value(), id).canHaveLOD && !At(Value(), id).lod.upLoaded
      modifies this`entries, this`lodLoading, this`pending
      ensures Valid() && Value() == LodLoadStarted(old(Value()), id)
    {
      hide Inv, UploadOk, UsersOk, ToLoad, AllFinishedOk, Recorded;
      ghost var s := Value();
      LodMovedRecorded(s, id);
      RecordedStill([], entries, LodLoadStarted(s, id).entries, finished);
      LodLoadStartedKeepsInv(s, id);
      LodLoadFrame(s, id, users, cursor, calls);
      var text := entries[id].entry;
      assert !text.lod.hasTexture;
      entries := entries[id := Live(text.(lod := text.lod.(hasTexture := true)))];
      lodLoading := Some(id);
      pending := pending + {HighDef(id)};
    }

    /** Unloads a LOD: the base texture gets its driver handle back. */
    method UnloadLod(id: nat)
      requires Valid() && current == None && lodLoading == None
      requires IsLive(Value(), id) && At(Value(), id).lod.upLoaded
      modifies this`entries, this`driver
      ensures Valid() && Value() == LodUnloaded(old(Value()), id)
      ensures driver == old(driver) + [Swapped(id)]
    {
      hide Inv, UploadOk, UsersOk, ToLoad, AllFinishedOk, Recorded;
      ghost var s := Value();
      LodMovedRecorded(s, id);
      RecordedStill([], entries, LodUnloaded(s, id).entries, finished);
      LodUnloadedKeepsInv(s, id);
      LodUnloadFrame(s, id, users, cursor, calls);
      var text := entries[id].entry;
      assert text.lod.hasTexture;
      driver := driver + [Swapped(id)];
      entries := entries[id := Live(text.(lod := text.lod.(hasTexture := false, loaded := false, upLoaded := false)))];
    }

    /** The texture built by the HLS manager, which is foreign code: any geometry. */
    static method BuildFromHLS() returns (g: Geometry)
      ensures g.WellFormed()
    {
      g := *;
      if !g.WellFormed() {
        g := NO_GEOMETRY;
      }
    }

    /** Chooses the next upload: a loaded waiting texture first, else the loaded LOD. */
    method GetNextTextureToUpLoad(nTotalColored: nat)
      returns (nTotalColored': nat, ghost built: Geometry, ghost swapped: seq<DriverCall>)
      requires Valid() && current == None
      modifies this`entries, this`waiting, this`current, this`cursor, this`calls
      modifies this`lodLoading, this`pending, this`driver, this`lastTextureSizeGot
      ensures Valid()
      ensures NextStep(old(Value()), Value(), nTotalColored, maxHLSColoringPerFrame, built, nTotalColored')
      ensures driver == old(driver) + swapped && SentBytes(swapped) == 0
      ensures current.Some? ==> cursor == START && calls == []
      ensures Recorded(old(entries), entries, [])
    {
      hide Inv, UploadOk, UsersOk, ToLoad, AllFinishedOk, Recorded, FirstLoaded, Picked, LodStep;
      nTotalColored', built, swapped := nTotalColored, NO_GEOMETRY, [];
      ghost var s := Value();
      WaitingLive(s);
      NothingNew(entries);
      NothingCurrent(s, START, []);
      cursor, calls := START, [];
      var i := FindLoaded();
      if i < |waiting| {
        if entries[waiting[i]].entry.fromHLS && nTotalColored >= maxHLSColoringPerFrame {
          return;
        }
        nTotalColored', built := StartUpload(i, nTotalColored);
        PickedRecorded(s, i, built);
      } else if waiting == [] {
        if lodLoading.Some? && entries[lodLoading.value].entry.lod.loaded {
          LodPickedKeepsInv(s);
          LodPickedFrame(s);
          current := Some(HighDef(lodLoading.value));
        } else if lodLoading == None {
          ghost var order, pivot, over, choice := UpdateTextureLodSystem();
          swapped := LodSwap(s.entries, order, choice);
          OutcomeIsStep(s, Value(), order, choice);
          OutcomeRecorded(s, Value(), order, choice);
        }
      }
    }

    /** Makes a waiting texture the current upload, after building it if the HLS manager does. */
    method StartUpload(i: nat, nTotalColored: nat) returns (nTotalColored': nat, ghost built: Geometry)
      requires Valid() && current == None && cursor == START && calls == []
      requires i < |waiting| && IsLive(Value(), waiting[i]) && At(Value(), waiting[i]).loaded
      modifies this`entries, this`current, this`waiting
      ensures Valid() && Value() == Picked(old(Value()), i, built)
      ensures nTotalColored' == nTotalColored
              + (if At(old(Value()), old(waiting)[i]).fromHLS then WithMipMaps(built.Size0()) else 0)
    {
      hide Inv, UploadOk, UsersOk, ToLoad, AllFinishedOk, Recorded, Picked;
      ghost var s := Value();
      nTotalColored', built := nTotalColored, NO_GEOMETRY;
      if entries[waiting[i]].entry.fromHLS {
        built := Colour(waiting[i]);
        nTotalColored' := nTotalColored + WithMipMaps(entries[waiting[i]].entry.geometry.Size0());
      }
      PickedKeepsInv(s, i, built);
      PickedFrame(s, i, built, users);
      PickedRecorded(s, i, built);
      RecordedStill([], s.entries, Picked(s, i, built).entries, finished);
      PickedIs(s, i, built);
      current := Some(Base(waiting[i]));
      waiting := waiting[..i] + waiting[i + 1..];
    }

    /** Position of the first waiting texture that is loaded. */
    method FindLoaded() returns (i: nat)
      requires forall k | 0 <= k < |waiting| :: IsLive(Value(), waiting[k])
      ensures i == FirstLoaded(Value())
    {
      i := 0;
      while i < |waiting| && !entries[waiting[i]].entry.loaded
        invariant 0 <= i <= |waiting|
        invariant forall j | 0 <= j < i :: !At(Value(), waiting[j]).loaded
      {
        i := i + 1;
      }
    }

    /** Builds a texture with the HLS manager. */
    method Colour(id: nat) returns (ghost g: Geometry)
      requires IsLive(Value(), id)
      modifies this`entries
      ensures g.WellFormed()
      ensures Value() == SetEntry(old(Value()), id, At(old(Value()), id).(geometry := g))
    {
      var h := BuildFromHLS();
      g := h;
      entries := entries[id := Live(entries[id].entry.(geometry := h))];
    }

    /**
     * One frame: uploads what has been loaded, within the frame's budget, and signals the instances
     * of each texture that becomes ready.
     */
    method Update() returns (ghost frame: seq<DriverCall>)
      requires Valid()
      modifies this`entries, this`waiting, this`current, this`cursor, this`calls, this`finished
      modifies this`lodLoading, this`pending, this`driver, this`lastTextureSizeGot, this`totalAsked, users
      ensures Valid()
      ensures driver == old(driver) + frame
      ensures old(finished) <= finished
      ensures Recorded(old(entries), entries, finished[|old(finished)|..])
      ensures current.Some? ==> IsLive(Value(), current.value.id)
      ensures FrameOk(frame, maxUploadPerFrame,
                      if current.Some? then TargetGeometry(Value(), current.value) else NO_GEOMETRY)
    {
      hide Inv, UploadOk, UsersOk, ToLoad, AllFinishedOk, NextStep, BaseUploaded, LodUploaded, NotUploaded, SentBytes;
      hide FrameOk, PartEnds, Recorded;
      NothingNew(entries);
      var nTotalUploaded, nTotalColored := 0, 0;
      ghost var built, swapped := NO_GEOMETRY, [];
      frame := [];
      if current == None {
        nTotalColored, built, swapped := GetNextTextureToUpLoad(nTotalColored);
        frame := swapped;
      }
      assert finished[|old(finished)|..] == [];
      SentNothing();
      while current.Some?
        invariant Valid() && old(finished) <= finished
        invariant Recorded(old(entries), entries, finished[|old(finished)|..])
        invariant driver == old(driver) + frame && SentBytes(frame) == nTotalUploaded <= maxUploadPerFrame
        decreases NotUploaded(entries), if current.Some? && current.value.HighDef? then 1 else 0
      {
        var total, done := nTotalUploaded, false;
        ghost var part, recorded := [], finished;
        done, nTotalUploaded, part := UploadCurrent(total);
        if !done {
          FrameEnds(frame, part, total, maxUploadPerFrame, TargetGeometry(Value(), current.value));
          frame := Extend(frame, part);
          return;
        }
        frame := Extend(frame, part);
        ghost var e := entries;
        nTotalColored, part := NextUpload(nTotalColored);
        frame := Extend(frame, part);
        OneMoreRecorded(old(entries), e, entries, recorded, finished, |old(finished)|);
      }
      WithinBudget(frame, maxUploadPerFrame);
    }

    /** Ends the current upload and chooses the next one. */
    method NextUpload(nTotalColored: nat) returns (nTotalColored': nat, ghost more: seq<DriverCall>)
      requires Inv(Value()) && CountersValid() && RecordsValid()
      requires current.Some? && IsLive(Value(), current.value.id) && CurrentRecorded()
      modifies this`entries, this`waiting, this`current, this`cursor, this`calls
      modifies this`lodLoading, this`pending, this`driver, this`lastTextureSizeGot, this`totalAsked, users
      ensures Valid()
      ensures Recorded(old(entries), entries, [finished[|finished| - 1]])
      ensures driver == old(driver) + more && SentBytes(more) == 0
      ensures if old(current).value.Base? then NotUploaded(entries) < NotUploaded(old(entries))
              else NotUploaded(entries) == NotUploaded(old(entries)) && !(current.Some? && current.value.HighDef?)
    {
      hide Inv, UploadOk, UsersOk, ToLoad, AllFinishedOk, Recorded, NextStep, BaseUploaded, LodUploaded, NotUploaded, SentBytes;
      ghost var s, built := Value(), NO_GEOMETRY;
      SentNothing();
      FinishUpload();
      more := if s.current.value.HighDef? then [Swapped(s.current.value.id)] else [];
      ghost var t, swapped := Value(), [];
      nTotalColored', built, swapped := GetNextTextureToUpLoad(nTotalColored);
      more := Extend(more, swapped);
      RecordedStill(s.entries, t.entries, entries, [finished[|finished| - 1]]);
      FrameGoesOn(s, t, Value(), nTotalColored, maxHLSColoringPerFrame, built, nTotalColored', baseLodLevel, maxLodLevel);
    }

    /** Uploads a part of the current upload; if that was the last part, the upload is recorded. */
    method UploadCurrent(nTotalUploaded: nat) returns (done: bool, total': nat, ghost part: seq<DriverCall>)
      requires Valid() && current.Some? && nTotalUploaded <= maxUploadPerFrame
      modifies this`cursor, this`calls, this`driver, this`finished
      ensures IsLive(Value(), current.value.id)
      ensures Inv(Value()) && CountersValid() && RecordsValid() && old(finished) <= finished
      ensures if done then |finished| == |old(finished)| + 1 && CurrentRecorded() else finished == old(finished)
      ensures !done ==> UploadOk(Value(), cursor, calls)
      ensures driver == old(driver) + part
      ensures done ==> total' == nTotalUploaded + SentBytes(part) <= maxUploadPerFrame
      ensures !done ==> PartEnds(part, nTotalUploaded, maxUploadPerFrame, TargetGeometry(Value(), current.value))
    {
      hide Inv, UsersOk, ToLoad, AllFinishedOk, Recorded, PartOutcome, Run, FinishedOk, SentBytes, SentCalls, PartEnds, RangesOk, Unfinished;
      WaitingLive(Value());
      var target := current.value;
      var g := TargetGeometry(State(entries, freeIds, entryMap, waiting, current, lodLoading, pending, totalAsked), target);
      var resident: bool := *;
      var before := cursor;
      var created, ranges;
      done, cursor, total', created, ranges := UploadTexturePart(g, before, nTotalUploaded, maxUploadPerFrame, resident);
      PartFacts(g, before, nTotalUploaded, maxUploadPerFrame, resident, done, cursor, total', created, ranges, target);
      ghost var k := Call(nTotalUploaded, maxUploadPerFrame, resident, done, cursor, total', created, ranges);
      RunAppend(g, START, calls, before, k);
      var sent := (if created then [Created(target)] else []) + SentCalls(g, target, ranges);
      part := sent;
      driver := driver + sent;
      if done {
        FinishedNow(finished, target, g, calls, k);
        NothingNew(entries);
        RecordedMore([], entries, finished, [Finished(target, g, calls + [k])]);
        finished := finished + [Finished(target, g, calls + [k])];
      } else {
        MoreCalls(calls, k);
        calls := calls + [k];
      }
    }

    /** The end of an upload: the texture becomes ready, or the LOD takes over its driver handle. */
    method FinishUpload()
      requires Inv(Value()) && CountersValid() && RecordsValid()
      requires current.Some? && IsLive(Value(), current.value.id) && CurrentRecorded()
      modifies this`entries, this`current, this`totalAsked, this`lodLoading, this`driver, users
      ensures Valid() && users == old(users) && current == None
      ensures Recorded(old(entries), entries, [finished[|finished| - 1]])
      ensures Value() == if old(current).value.Base? then BaseUploaded(old(Value()), baseLodLevel, maxLodLevel)
                         else LodUploaded(old(Value()))
      ensures driver == old(driver) + (if old(current).value.HighDef? then [Swapped(old(current).value.id)] else [])
    {
      hide Inv, UploadOk, UsersOk, ToLoad, AllFinishedOk, Recorded, BaseUploaded, LodUploaded, CountersValid;
      ghost var s := Value();
      UploadRecorded(s, finished[|finished| - 1], baseLodLevel, maxLodLevel);
      if current.value.Base? {
        BecomeReady();
      } else {
        TakeOver();
      }
      LastRecorded([], s.entries, entries, finished);
      NothingCurrent(Value(), cursor, calls);
    }

    /** The texture is ready: the instances that use it are told, and it takes its size. */
    method BecomeReady()
      requires Inv(Value()) && CountersValid()
      requires current.Some? && current.value.Base? && IsLive(Value(), current.value.id)
      modifies this`entries, this`current, this`totalAsked, users
      ensures Inv(Value()) && CountersValid() && current == None
      ensures Value() == BaseUploaded(old(Value()), baseLodLevel, maxLodLevel)
    {
      hide Inv, UsersOk, ToLoad, Geometry.WellFormed, WithMipMaps, UploadedEntry, Uses;
      ghost var s := Value();
      var id := current.value.id;
      var text := entries[id].entry;
      BaseUploadedKeepsInv(s, baseLodLevel, maxLodLevel);
      BaseUploadedFrame(s, baseLodLevel, maxLodLevel, users);
      SignalInstances(text, users);
      entries := entries[id := Live(UploadedEntry(text, baseLodLevel, maxLodLevel))];
      totalAsked := totalAsked + entries[id].entry.totalAsked;
      current := None;
    }

    /** The LOD takes over the driver handle of its texture. */
    method TakeOver()
      requires Inv(Value()) && CountersValid()
      requires current.Some? && current.value.HighDef? && IsLive(Value(), current.value.id)
      modifies this`entries, this`current, this`lodLoading, this`driver
      ensures Inv(Value()) && CountersValid() && current == None
      ensures Value() == LodUploaded(old(Value()))
      ensures driver == old(driver) + [Swapped(old(current).value.id)]
    {
      hide Inv, UsersOk, ToLoad;
      ghost var s := Value();
      var id := current.value.id;
      var text := entries[id].entry;
      LodUploadedKeepsInv(s);
      SameUses(s, LodUploaded(s), id, users);
      driver := driver + [Swapped(id)];
      entries := entries[id := Live(text.(lod := text.lod.(upLoaded := true)))];
      current, lodLoading := None, None;
    }
  }

  // ---- What each operation does to the users and to the current upload ----

  ghost function MainStopped(s: State, id: nat): State
    requires IsLive(s, id)
  {
    var e := At(s, id);
    s.(entryMap := s.entryMap - {e.name},
       waiting := RemoveFirst(s.waiting, id),
       current := if s.current == Some(Base(id)) then None else s.current,
       pending := s.pending - (if e.loaded then {} else {Base(id)}))
  }

  ghost function LodStopped(s: State, id: nat): State
    requires IsLive(s, id)
  {
    if s.lodLoading == Some(id) then
      s.(current := if s.current == Some(HighDef(id)) then None else s.current,
         lodLoading := None,
         pending := s.pending - (if At(s, id).lod.loaded then {} else {HighDef(id)}))
    else s
  }

  lemma DeletedIs(s: State, id: nat)
    requires IsLive(s, id) && At(s, id).totalAsked <= s.totalAsked
    ensures var m := MainStopped(s, id);
            var l := LodStopped(m.(totalAsked := m.totalAsked - At(s, id).totalAsked), id);
            Deleted(s, id) == l.(entries := l.entries[id := Null], freeIds := l.freeIds + [id])
  {
    var m := MainStopped(s, id);
    assert m.pending - {} == m.pending;
  }

  lemma DroppedIs(s: State, id: nat, x: MeshInstance)
    requires IsLive(s, id)
    ensures var e := At(s, id);
            var i := FirstIndex(e.instances, x);
            Dropped(s, id, x) ==
            if i < |e.instances| then
              SetEntry(s, id, e.(instances := e.instances[i := e.instances[|e.instances| - 1]][..|e.instances| - 1]))
            else s
  {
  }

  lemma InvWeakens(s: State, id: nat)
    requires Inv(s)
    ensures InvButUnused(s, id)
  {
  }

  lemma NothingToLoad(s: State, x: MeshInstance)
    requires forall id: nat :: !IsLive(s, id)
    ensures ToLoad(s.entries, x) == 0
  {
    assert UsersOk(s.entries, {}) by {
      forall i | 0 <= i < |s.entries|
        ensures !s.entries[i].Live?
      {
        assert !IsLive(s, i);
      }
    }
    UnknownUsesNothing(s.entries, {}, x);
  }

  lemma DroppedFrame(s: State, id: nat, x: MeshInstance, users: set<MeshInstance>, cursor: Cursor, calls: seq<Call>)
    requires Inv(s) && IsLive(s, id) && UsersOk(s.entries, users) && UploadOk(s, cursor, calls)
    ensures UploadOk(Dropped(s, id, x), cursor, calls) && UsersOk(Dropped(s, id, x).entries, users)
    ensures x in At(s, id).instances ==> x in users
    ensures forall y :: ToLoad(Dropped(s, id, x).entries, y)
                        == ToLoad(s.entries, y) - (if y == x && x in At(s, id).instances && !At(s, id).upLoaded then 1 else 0)
  {
    var t := Dropped(s, id, x);
    assert s.current.Some? ==> IsLive(s, s.current.value.id);
    UploadGoesOn(s, t, cursor, calls);
    assert x in At(s, id).instances ==> x in users by {
      if x in At(s, id).instances {
        var k :| 0 <= k < |At(s, id).instances| && At(s, id).instances[k] == x;
      }
    }
    forall k | 0 <= k < |At(t, id).instances|
      ensures At(t, id).instances[k] in users
    {
      assert At(t, id).instances[k] in multiset(At(s, id).instances);
    }
    forall y
      ensures ToLoad(t.entries, y)
              == ToLoad(s.entries, y) - (if y == x && x in At(s, id).instances && !At(s, id).upLoaded then 1 else 0)
    {
      DroppedConserves(s, id, x, y);
    }
  }

  lemma DeletedFrame(s: State, id: nat, users: set<MeshInstance>, cursor: Cursor, calls: seq<Call>)
    requires InvButUnused(s, id) && IsLive(s, id) && UsersOk(s.entries, users) && UploadOk(s, cursor, calls)
    requires At(s, id).totalAsked <= s.totalAsked
    ensures UploadOk(Deleted(s, id), cursor, calls) && UsersOk(Deleted(s, id).entries, users)
    ensures forall x | x in At(s, id).instances :: x in users
    ensures forall y :: ToLoad(Deleted(s, id).entries, y) == ToLoad(s.entries, y) - (if At(s, id).upLoaded then 0 else Uses(At(s, id), y))
  {
    forall y
      ensures ToLoad(Deleted(s, id).entries, y) == ToLoad(s.entries, y) - (if At(s, id).upLoaded then 0 else Uses(At(s, id), y))
    {
      ToLoadUpdate(s.entries, id, Null, y);
    }
    assert s.entries[id].Live?;
  }

  lemma LoadEndedFrame(s: State, target: Target, g: Geometry, users: set<MeshInstance>, cursor: Cursor, calls: seq<Call>)
    requires Inv(s) && target in s.pending && UsersOk(s.entries, users) && UploadOk(s, cursor, calls)
    ensures IsLive(s, target.id)
    ensures UploadOk(LoadEnded(s, target, g), cursor, calls) && UsersOk(LoadEnded(s, target, g).entries, users)
    ensures forall y :: ToLoad(LoadEnded(s, target, g).entries, y) == ToLoad(s.entries, y)
  {
    var t := LoadEnded(s, target, g);
    UploadGoesOn(s, t, cursor, calls);
    forall y
      ensures ToLoad(t.entries, y) == ToLoad(s.entries, y)
    {
      ToLoadUpdate(s.entries, target.id, t.entries[target.id], y);
    }
  }

  /** The state between the creation of an entry, if one is needed, and its first use. */
  ghost function WithEntry(s: State, name: string, hls: bool): State
    requires Inv(s)
  {
    if name in s.entryMap then s
    else
      var id := NewId(s);
      var slot := Live(Entry(name, hls, false, false, hls, 0, 0, [], NO_GEOMETRY, NEW_LOD));
      State(if id < |s.entries| then s.entries[id := slot] else s.entries + [slot],
            if s.freeIds == [] then [] else s.freeIds[..|s.freeIds| - 1],
            s.entryMap[name := id], s.waiting + [id], s.current, s.lodLoading,
            if hls then s.pending else s.pending + {Base(id)}, s.totalAsked)
  }

  lemma WithEntryAdded(s: State, name: string, hls: bool, x: MeshInstance)
    requires Inv(s)
    ensures var t := WithEntry(s, name, hls);
            && (name in s.entryMap ==> t == s)
            && name in t.entryMap && IsLive(t, t.entryMap[name])
            && var id := t.entryMap[name];
               var e := At(t, id);
               && SetEntry(t, id, e.(instances := e.instances + [x])) == Added(s, name, hls, x)
               && (e.upLoaded <==> name in s.entryMap && At(s, s.entryMap[name]).upLoaded)
  {
    if name !in s.entryMap {
      var id := NewId(s);
      if s.freeIds != [] {
        assert id in s.freeIds;
      }
      assert [] + [x] == [x];
    }
  }

  lemma LodLoadFrame(s: State, id: nat, users: set<MeshInstance>, cursor: Cursor, calls: seq<Call>)
    requires IsLive(s, id) && UsersOk(s.entries, users) && s.current == None
    ensures UsersOk(LodLoadStarted(s, id).entries, users) && UploadOk(LodLoadStarted(s, id), cursor, calls)
    ensures forall y :: ToLoad(LodLoadStarted(s, id).entries, y) == ToLoad(s.entries, y)
  {
    SameUses(s, LodLoadStarted(s, id), id, users);
  }

  lemma LodUnloadFrame(s: State, id: nat, users: set<MeshInstance>, cursor: Cursor, calls: seq<Call>)
    requires IsLive(s, id) && UsersOk(s.entries, users) && s.current == None
    ensures UsersOk(LodUnloaded(s, id).entries, users) && UploadOk(LodUnloaded(s, id), cursor, calls)
    ensures forall y :: ToLoad(LodUnloaded(s, id).entries, y) == ToLoad(s.entries, y)
  {
    SameUses(s, LodUnloaded(s, id), id, users);
  }

  /** Changing an entry but not its uses. */
  lemma SameUses(s: State, t: State, id: nat, users: set<MeshInstance>)
    requires IsLive(s, id) && IsLive(t, id) && t.entries == s.entries[id := t.entries[id]]
    requires At(t, id).instances == At(s, id).instances && At(t, id).upLoaded == At(s, id).upLoaded
    requires UsersOk(s.entries, users)
    ensures UsersOk(t.entries, users)
    ensures forall y :: ToLoad(t.entries, y) == ToLoad(s.entries, y)
  {
    forall y
      ensures ToLoad(t.entries, y) == ToLoad(s.entries, y)
    {
      ToLoadUpdate(s.entries, id, t.entries[id], y);
    }
  }

  lemma NothingCurrent(s: State, cursor: Cursor, calls: seq<Call>)
    requires s.current == None
    ensures UploadOk(s, cursor, calls)
  {
  }

  /** How the last part of a frame ends it. */
  ghost predicate PartEnds(part: seq<DriverCall>, total: nat, budget: nat, g: Geometry) {
    && part != [] && part[|part| - 1].Sent?
    && var last := part[|part| - 1].range;
       var before := total + SentBytes(part[..|part| - 1]);
       && RangeOk(g, last)
       && before <= budget
       && (|| total + SentBytes(part) <= budget
           || (last.hi - last.lo <= 4 && budget - before < 4 * LineWeight(g, last.mip)))
  }

  lemma {:induction false} SentBytesConcat(a: seq<DriverCall>, b: seq<DriverCall>)
    ensures SentBytes(a + b) == SentBytes(a) + SentBytes(b)
  {
    if b == [] {
      assert a + b == a;
    } else {
      assert (a + b)[..|a + b| - 1] == a + b[..|b| - 1];
      SentBytesConcat(a, b[..|b| - 1]);
    }
  }

  lemma SentNothing()
    ensures SentBytes([]) == 0
    ensures forall id :: SentBytes([Swapped(id)]) == 0
  {
  }

  lemma WithinBudget(frame: seq<DriverCall>, budget: nat)
    requires SentBytes(frame) <= budget
    ensures FrameOk(frame, budget, NO_GEOMETRY)
  {
  }

  /** The frame so far, with more calls. */
  ghost function Extend(frame: seq<DriverCall>, more: seq<DriverCall>): (r: seq<DriverCall>)
    ensures r == frame + more && SentBytes(r) == SentBytes(frame) + SentBytes(more)
    ensures forall log: seq<DriverCall> :: log + frame + more == log + r
  {
    SentBytesConcat(frame, more);
    assert forall log: seq<DriverCall> :: log + frame + more == log + (frame + more);
    frame + more
  }

  lemma FrameEnds(frame: seq<DriverCall>, part: seq<DriverCall>, total: nat, budget: nat, g: Geometry)
    requires SentBytes(frame) == total && PartEnds(part, total, budget, g)
    ensures FrameOk(frame + part, budget, g)
  {
    SentBytesConcat(frame, part);
    SentBytesConcat(frame, part[..|part| - 1]);
    assert (frame + part)[..|frame + part| - 1] == frame + part[..|part| - 1];
  }

  lemma {:induction false} SentCallsBytes(g: Geometry, target: Target, ranges: seq<Range>)
    requires RangesOk(g, ranges)
    ensures SentBytes(SentCalls(g, target, ranges)) == Bytes(g, ranges)
    ensures |SentCalls(g, target, ranges)| == |ranges|
  {
    if ranges != [] {
      var front := ranges[..|ranges| - 1];
      SentCallsBytes(g, target, front);
      var calls := SentCalls(g, target, ranges);
      assert calls[..|calls| - 1] == SentCalls(g, target, front);
    }
  }

  /** What a call of UploadTexturePart means for the frame. */
  lemma PartFacts(g: Geometry, c: Cursor, total: nat, budget: nat, resident: bool,
                  done: bool, c': Cursor, total': nat, created: bool, ranges: seq<Range>, target: Target)
    requires g.WellFormed() && CursorOk(g, c) && total <= budget
    requires c != START ==> g.ValidDXTCMipMap()
    requires PartOutcome(g, c, total, budget, resident, done, c', total', created, ranges)
    ensures CursorOk(g, c') && RangesOk(g, ranges)
    ensures !done ==> g.ValidDXTCMipMap()
    ensures var part := (if created then [Created(target)] else []) + SentCalls(g, target, ranges);
            if done then total' == total + SentBytes(part) <= budget else PartEnds(part, total, budget, g)
  {
    assert RangesOk(g, ranges) && (ranges == [] ==> Bytes(g, ranges) == 0);
    hide RemainingWeight, LinesLeft, Chain, SentBytes, SentCalls, RangesOk, Bytes;
    var head := if created then [Created(target)] else [];
    HeadSendsNothing(created, target);
    SentCallsBytes(g, target, ranges);
    SentBytesConcat(head, SentCalls(g, target, ranges));
    if !done {
      UnfinishedPart(g, head, total, budget, ranges, target);
    }
  }

  lemma HeadSendsNothing(created: bool, target: Target)
    ensures SentBytes(if created then [Created(target)] else []) == 0
  {
  }

  lemma UnfinishedPart(g: Geometry, head: seq<DriverCall>, total: nat, budget: nat, ranges: seq<Range>, target: Target)
    requires g.WellFormed() && CutKeepsBudget(g, total, budget, ranges) && SentBytes(head) == 0
    ensures RangesOk(g, ranges) && PartEnds(head + SentCalls(g, target, ranges), total, budget, g)
  {
    var n := |ranges| - 1;
    var sent, front := SentCalls(g, target, ranges), SentCalls(g, target, ranges[..n]);
    assert sent == front + [sent[|sent| - 1]];
    SentCallsBytes(g, target, ranges);
    SentCallsBytes(g, target, ranges[..n]);
    SentBytesConcat(head, sent);
    SentBytesConcat(head, front);
    assert (head + sent)[..|head + sent| - 1] == head + front;
    hide SentBytes, SentCalls;
  }

  /** One upload more has been recorded since the start of the frame. */
  lemma OneMoreRecorded(a: seq<Slot>, b: seq<Slot>, c: seq<Slot>, before: seq<Finished>, finished: seq<Finished>,
                        start: nat)
    requires start <= |before| && before <= finished && |finished| == |before| + 1
    requires Recorded(a, b, before[start..]) && Recorded(b, c, [finished[|finished| - 1]])
    ensures Recorded(a, c, finished[start..])
  {
    RecordedTwice(a, b, c, before[start..], [finished[|finished| - 1]]);
    assert finished[start..] == before[start..] + [finished[|finished| - 1]];
  }

  lemma MoreCalls(calls: seq<Call>, k: Call)
    requires Unfinished(calls) && !k.done
    ensures Unfinished(calls + [k])
  {
  }

  lemma FinishedNow(finished: seq<Finished>, target: Target, g: Geometry, calls: seq<Call>, k: Call)
    requires AllFinishedOk(finished) && g.WellFormed() && k.done && Run(g, START, calls + [k], k.to)
    ensures AllFinishedOk(finished + [Finished(target, g, calls + [k])])
  {
  }

  lemma BaseUploadedFrame(s: State, baseLevel: nat, maxLevel: nat, users: set<MeshInstance>)
    requires Inv(s) && s.current.Some? && s.current.value.Base? && UsersOk(s.entries, users)
    requires IsLive(s, s.current.value.id)
    ensures UsersOk(BaseUploaded(s, baseLevel, maxLevel).entries, users)
    ensures forall x | x in At(s, s.current.value.id).instances :: x in users
    ensures forall y :: ToLoad(BaseUploaded(s, baseLevel, maxLevel).entries, y)
                        == ToLoad(s.entries, y) - Uses(At(s, s.current.value.id), y)
  {
    var id := s.current.value.id;
    assert !At(s, id).upLoaded;
    forall y
      ensures ToLoad(BaseUploaded(s, baseLevel, maxLevel).entries, y) == ToLoad(s.entries, y) - Uses(At(s, id), y)
    {
      ToLoadUpdate(s.entries, id, BaseUploaded(s, baseLevel, maxLevel).entries[id], y);
    }
    assert s.entries[id].Live?;
  }

  ghost function NotUploaded(entries: seq<Slot>): nat {
    if entries == [] then 0
    else
      var last := entries[|entries| - 1];
      NotUploaded(entries[..|entries| - 1]) + (if last.Live? && !last.entry.upLoaded then 1 else 0)
  }

  lemma {:induction false} NotUploadedUpdate(entries: seq<Slot>, i: nat, slot: Slot)
    requires i < |entries|
    ensures NotUploaded(entries[i := slot])
            == NotUploaded(entries) - (if entries[i].Live? && !entries[i].entry.upLoaded then 1 else 0)
                                    + (if slot.Live? && !slot.entry.upLoaded then 1 else 0)
  {
    var n := |entries| - 1;
    if i == n {
      assert entries[i := slot][..n] == entries[..n];
    } else {
      NotUploadedUpdate(entries[..n], i, slot);
      assert entries[i := slot][..n] == entries[..n][i := slot];
    }
  }

  /** Ending an upload and choosing the next one makes progress. */
  lemma FrameGoesOn(s: State, t: State, u: State, colored: nat, maxColored: nat, built: Geometry, colored': nat,
                    baseLevel: nat, maxLevel: nat)
    requires Inv(s) && s.current.Some? && IsLive(s, s.current.value.id)
    requires t == if s.current.value.Base? then BaseUploaded(s, baseLevel, maxLevel) else LodUploaded(s)
    requires Inv(t) && NextStep(t, u, colored, maxColored, built, colored')
    ensures if s.current.value.Base? then NotUploaded(u.entries) < NotUploaded(s.entries)
            else NotUploaded(u.entries) == NotUploaded(s.entries) && !(u.current.Some? && u.current.value.HighDef?)
  {
    var id := s.current.value.id;
    NotUploadedUpdate(s.entries, id, t.entries[id]);
    NextStepUploadsNothing(t, u, colored, maxColored, built, colored');
    assert t.current == None;
  }

  lemma NextStepUploadsNothing(t: State, u: State, colored: nat, maxColored: nat, built: Geometry, colored': nat)
    requires Inv(t) && NextStep(t, u, colored, maxColored, built, colored')
    ensures NotUploaded(u.entries) == NotUploaded(t.entries)
    ensures t.current == None && t.lodLoading == None ==> !(u.current.Some? && u.current.value.HighDef?)
  {
    WaitingLive(t);
    hide Inv, NotUploaded, LodStep;
    var k := FirstLoaded(t);
    if k < |t.waiting| {
      PickedUploadsNothing(t, k, built);
    } else if t.waiting == [] && t.lodLoading == None {
      LodStepUploadsNothing(t, u);
    }
  }

  lemma PickedUploadsNothing(t: State, k: nat, built: Geometry)
    requires k < |t.waiting| && IsLive(t, t.waiting[k])
    ensures NotUploaded(Picked(t, k, built).entries) == NotUploaded(t.entries)
  {
    var id := t.waiting[k];
    NotUploadedUpdate(t.entries, id, Picked(t, k, built).entries[id]);
    assert t.entries[id := t.entries[id]] == t.entries;
  }

  lemma LodStepUploadsNothing(t: State, u: State)
    requires LodStep(t, u)
    ensures NotUploaded(u.entries) == NotUploaded(t.entries) && u.current == t.current
  {
    if u != t {
      var id: nat :| IsLive(t, id) && At(t, id).canHaveLOD && u == LodMoved(t, id);
      NotUploadedUpdate(t.entries, id, u.entries[id]);
    }
  }

  lemma PickedIs(s: State, k: nat, g: Geometry)
    requires k < |s.waiting| && IsLive(s, s.waiting[k])
    ensures var id := s.waiting[k];
            Picked(s, k, g)
            == (if At(s, id).fromHLS then SetEntry(s, id, At(s, id).(geometry := g)) else s)
               .(waiting := s.waiting[..k] + s.waiting[k + 1..], current := Some(Base(id)))
  {
  }

  lemma OutcomeIsStep(s: State, t: State, order: seq<LodToSort>, choice: Option<nat>)
    requires LodOutcome(s, t, order, choice)
    ensures LodStep(s, t)
  {
  }

  /** What the decision does is a step of the runs in which the policy never thrashes. */
  lemma OutcomeIsPolicyStep(s: State, t: State, weights: seq<real>, budget: nat,
                            pivot: nat, over: bool, choice: Option<nat>, sizeGot: nat)
    requires Inv(s) && s.current == None && s.lodLoading == None && |weights| == |s.entries|
    requires LodDecision(s.entries, LodOrder(s.entries, weights), budget, pivot, over, choice, sizeGot)
    requires LodOutcome(s, t, LodOrder(s.entries, weights), choice) && choice.Some?
    ensures var id := LodOrder(s.entries, weights)[choice.value].id;
            var e := if At(s, id).lod.upLoaded then LodUnload(id) else LodLoad(id);
            PolicyStep(s, e, weights, budget) && t == Apply(s, e)
  {
    hide Inv, LodOrder, LodDecision;
    var id := LodOrder(s.entries, weights)[choice.value].id;
    assert Designates(s.entries, LodOrder(s.entries, weights), budget, id, pivot, over, choice.value, sizeGot);
  }

  lemma OutcomeRecorded(s: State, t: State, order: seq<LodToSort>, choice: Option<nat>)
    requires LodOutcome(s, t, order, choice)
    ensures Recorded(s.entries, t.entries, [])
  {
    if choice == None {
      NothingNew(s.entries);
    } else {
      LodMovedRecorded(s, order[choice.value].id);
    }
  }

  lemma PickedFrame(s: State, k: nat, g: Geometry, users: set<MeshInstance>)
    requires Inv(s) && s.current == None && k < |s.waiting| && g.WellFormed()
    requires IsLive(s, s.waiting[k]) && At(s, s.waiting[k]).loaded && UsersOk(s.entries, users)
    ensures UsersOk(Picked(s, k, g).entries, users) && UploadOk(Picked(s, k, g), START, [])
    ensures forall y :: ToLoad(Picked(s, k, g).entries, y) == ToLoad(s.entries, y)
  {
    assert s.entries[s.waiting[k] := s.entries[s.waiting[k]]] == s.entries;
    SameUses(s, Picked(s, k, g), s.waiting[k], users);
  }

  lemma LodPickedFrame(s: State)
    requires Inv(s) && s.lodLoading.Some? && IsLive(s, s.lodLoading.value) && At(s, s.lodLoading.value).lod.loaded
    ensures UploadOk(LodPicked(s), START, [])
  {
  }

  /** The current upload goes on as long as it designates the same geometry. */
  lemma UploadGoesOn(s: State, t: State, cursor: Cursor, calls: seq<Call>)
    requires UploadOk(s, cursor, calls) && t.current == s.current
    requires s.current.Some? && IsLive(t, s.current.value.id) ==>
               && IsLive(s, s.current.value.id)
               && TargetGeometry(t, s.current.value) == TargetGeometry(s, s.current.value)
    ensures UploadOk(t, cursor, calls)
  {
  }

  /** What adding a use does to the current upload, the users and the counters. */
  lemma AddedFrame(s: State, name: string, hls: bool, x: MeshInstance, users: set<MeshInstance>,
                   cursor: Cursor, calls: seq<Call>)
    requires Inv(s) && UsersOk(s.entries, users) && UploadOk(s, cursor, calls)
    ensures var t := Added(s, name, hls, x);
            && UploadOk(t, cursor, calls)
            && UsersOk(t.entries, users + {x})
            && forall y | y in users + {x} ::
                 ToLoad(t.entries, y)
                 == (if y in users then ToLoad(s.entries, y) else 0)
                    + (if y == x && !(name in s.entryMap && At(s, s.entryMap[name]).upLoaded) then 1 else 0)
  {
    var t := Added(s, name, hls, x);
    if name !in s.entryMap {
      NewEntryTable(s, name, hls, x);
    }
    assert s.current.Some? ==> IsLive(s, s.current.value.id);
    UploadGoesOn(s, t, cursor, calls);
    AddedUsers(s, name, hls, x, users);
    forall y | y in users + {x}
      ensures ToLoad(t.entries, y)
              == (if y in users then ToLoad(s.entries, y) else 0)
                 + (if y == x && !(name in s.entryMap && At(s, s.entryMap[name]).upLoaded) then 1 else 0)
    {
      AddedCounter(s, name, hls, x, users, y);
    }
  }

  lemma AddedUsers(s: State, name: string, hls: bool, x: MeshInstance, users: set<MeshInstance>)
    requires Inv(s) && UsersOk(s.entries, users)
    ensures UsersOk(Added(s, name, hls, x).entries, users + {x})
  {
  }

  lemma AddedCounter(s: State, name: string, hls: bool, x: MeshInstance, users: set<MeshInstance>, y: MeshInstance)
    requires Inv(s) && UsersOk(s.entries, users)
    ensures ToLoad(Added(s, name, hls, x).entries, y)
            == (if y in users then ToLoad(s.entries, y) else 0)
               + (if y == x && !(name in s.entryMap && At(s, s.entryMap[name]).upLoaded) then 1 else 0)
  {
    AddedConserves(s, name, hls, x, y);
    if y !in users { UnknownUsesNothing(s.entries, users, y); }
  }
}
