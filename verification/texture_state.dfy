/**
 * The state of `CAsyncTextureManager`, as a value: the slot table, its free list and name index, the
 * waiting list, the current upload, the LOD being loaded, and the loads the asynchronous loader still
 * holds. Each operation is a function on this state; the class `AsyncTextureManager` is proved to
 * compute these functions.
 *
 * Pointers to texture entries are slot ids: a slot holds at most one entry, and every pointer to an
 * entry is reset when its slot is freed.
 */
module TextureState {
  import opened TextureUpload
  import opened TextureLodPolicy
  import opened Wrappers

  /** An object that uses textures; the counter is `_AsyncTextureToLoadRefCount`. */
  class MeshInstance {
    var toLoadRefCount: int
    var textureDistance: real

    constructor ()
      ensures toLoadRefCount == 0
    {
      toLoadRefCount := 0;
      textureDistance := 0.0;
    }
  }

  /** `CTextureLod`. `hasTexture` says that `Texture` is not null. */
  datatype HDLod = HDLod(hasTexture: bool, loaded: bool, upLoaded: bool, level: nat, extraSize: nat,
                         geometry: Geometry)

  /** `CTextureEntry`. */
  datatype Entry = Entry(name: string, loaded: bool, upLoaded: bool, canHaveLOD: bool, fromHLS: bool,
                         baseSize: nat, totalAsked: nat, instances: seq<MeshInstance>,
                         geometry: Geometry, lod: HDLod)

  /** One element of `_TextureEntries`: null, or an entry. */
  datatype Slot = Null | Live(entry: Entry)

  /** What can be loaded or uploaded: a texture entry, or its high definition LOD. */
  datatype Target = Base(id: nat) | HighDef(id: nat)

  datatype State = State(
    entries: seq<Slot>,
    freeIds: seq<nat>,
    entryMap: map<string, nat>,
    waiting: seq<nat>,
    current: Option<Target>,
    lodLoading: Option<nat>,
    pending: set<Target>,
    totalAsked: nat)

  const NO_GEOMETRY := Geometry([], 0, false)
  const NEW_LOD := HDLod(false, false, false, 0, 0, NO_GEOMETRY)
  const EMPTY := State([], [], map[], [], None, None, {}, 0)

  predicate IsLive(s: State, id: nat) {
    id < |s.entries| && s.entries[id].Live?
  }

  function At(s: State, id: nat): Entry
    requires IsLive(s, id)
  {
    s.entries[id].entry
  }

  // ---- The invariant ----

  ghost predicate NoDuplicates(ids: seq<nat>) {
    forall i, j | 0 <= i < j < |ids| :: ids[i] != ids[j]
  }

  /** The free list holds exactly the null slots, once each. */
  ghost predicate FreeListOk(s: State) {
    && NoDuplicates(s.freeIds)
    && (forall id: nat :: id in s.freeIds <==> id < |s.entries| && s.entries[id].Null?)
  }

  /** The name index is a bijection onto the live slots. */
  ghost predicate NamesOk(s: State) {
    && (forall n | n in s.entryMap :: IsLive(s, s.entryMap[n]) && At(s, s.entryMap[n]).name == n)
    && (forall id: nat | IsLive(s, id) :: At(s, id).name in s.entryMap && s.entryMap[At(s, id).name] == id)
  }

  /** A live entry is in exactly one of: the waiting list (once), the current upload, uploaded. */
  ghost predicate PhaseOk(s: State) {
    && NoDuplicates(s.waiting)
    && (forall id: nat :: id in s.waiting <==>
          IsLive(s, id) && !At(s, id).upLoaded && s.current != Some(Base(id)))
    && (s.current.Some? && s.current.value.Base? ==>
          var id := s.current.value.id;
          IsLive(s, id) && At(s, id).loaded && !At(s, id).upLoaded && At(s, id).geometry.WellFormed())
    && (s.current.Some? && s.current.value.HighDef? ==>
          s.lodLoading == Some(s.current.value.id) && IsLive(s, s.current.value.id) && At(s, s.current.value.id).lod.loaded)
  }

  /** A LOD has a texture exactly while it is uploaded or being loaded. */
  ghost predicate EntryLodOk(e: Entry, loading: bool) {
    && (e.lod.hasTexture <==> e.lod.upLoaded || loading)
    && (e.lod.loaded ==> e.lod.hasTexture && e.lod.geometry.WellFormed())
    && (e.lod.upLoaded ==> e.lod.loaded && e.canHaveLOD)
    && (e.canHaveLOD ==> e.upLoaded)
    && (loading ==> e.canHaveLOD && !e.lod.upLoaded)
  }

  ghost predicate LodOk(s: State) {
    && (s.lodLoading.Some? ==> IsLive(s, s.lodLoading.value))
    && forall id: nat | IsLive(s, id) :: EntryLodOk(At(s, id), s.lodLoading == Some(id))
  }

  /** The loader holds exactly the loads whose `Loaded` flag is still to be set, all in live entries. */
  ghost predicate EntryLoaderOk(e: Entry, basePending: bool, lodPending: bool, loading: bool) {
    && (basePending <==> !e.loaded)
    && (lodPending <==> loading && !e.lod.loaded)
    && (e.upLoaded ==> e.loaded)
    && (e.loaded && !e.fromHLS ==> e.geometry.WellFormed())
  }

  ghost predicate LoaderOk(s: State) {
    && (forall target | target in s.pending :: IsLive(s, target.id))
    && forall id: nat | IsLive(s, id) ::
         EntryLoaderOk(At(s, id), Base(id) in s.pending, HighDef(id) in s.pending, s.lodLoading == Some(id))
  }

  /** Every entry is used, and what it asks is what it takes once uploaded. */
  ghost predicate EntrySizeOk(e: Entry) {
    e.instances != [] && AskedOk(e)
  }

  ghost predicate AskedOk(e: Entry) {
    e.totalAsked == if e.upLoaded then e.baseSize + e.lod.extraSize else 0
  }

  ghost predicate SizesOk(s: State) {
    && (forall id: nat | IsLive(s, id) :: EntrySizeOk(At(s, id)))
    && s.totalAsked == SumAsked(s.entries)
  }

  ghost predicate Inv(s: State) {
    FreeListOk(s) && NamesOk(s) && PhaseOk(s) && LodOk(s) && LoaderOk(s) && SizesOk(s)
  }

  ghost function SumAsked(entries: seq<Slot>): nat {
    if entries == [] then 0
    else SumAsked(entries[..|entries| - 1]) + SlotAsked(entries[|entries| - 1])
  }

  ghost function SlotAsked(slot: Slot): nat {
    if slot.Live? then slot.entry.totalAsked else 0
  }

  /** Occurrences of an instance in the entries that are not yet uploaded. */
  ghost function ToLoad(entries: seq<Slot>, x: MeshInstance): nat {
    if entries == [] then 0
    else ToLoad(entries[..|entries| - 1], x) + SlotToLoad(entries[|entries| - 1], x)
  }

  ghost function SlotToLoad(slot: Slot, x: MeshInstance): nat {
    if slot.Live? && !slot.entry.upLoaded then multiset(slot.entry.instances)[x] else 0
  }

  lemma {:induction false} SumAskedUpdate(entries: seq<Slot>, i: nat, slot: Slot)
    requires i < |entries|
    ensures SumAsked(entries[i := slot]) == SumAsked(entries) - SlotAsked(entries[i]) + SlotAsked(slot)
  {
    var n := |entries| - 1;
    if i == n {
      assert entries[i := slot][..n] == entries[..n];
    } else {
      SumAskedUpdate(entries[..n], i, slot);
      assert entries[i := slot][..n] == entries[..n][i := slot];
    }
  }

  lemma {:induction false} ToLoadUpdate(entries: seq<Slot>, i: nat, slot: Slot, x: MeshInstance)
    requires i < |entries|
    ensures ToLoad(entries[i := slot], x) == ToLoad(entries, x) - SlotToLoad(entries[i], x) + SlotToLoad(slot, x)
  {
    var n := |entries| - 1;
    if i == n {
      assert entries[i := slot][..n] == entries[..n];
    } else {
      ToLoadUpdate(entries[..n], i, slot, x);
      assert entries[i := slot][..n] == entries[..n][i := slot];
    }
  }

  lemma AppendSlot(entries: seq<Slot>, slot: Slot)
    ensures SumAsked(entries + [slot]) == SumAsked(entries) + SlotAsked(slot)
    ensures forall x :: ToLoad(entries + [slot], x) == ToLoad(entries, x) + SlotToLoad(slot, x)
  {
    assert (entries + [slot])[..|entries|] == entries;
  }

  // ---- The operations ----

  function SetEntry(s: State, id: nat, e: Entry): State
    requires id < |s.entries|
  {
    s.(entries := s.entries[id := Live(e)])
  }

  /** The slot a new entry gets: the last free one, or a new one at the end. */
  function NewId(s: State): nat {
    if s.freeIds == [] then |s.entries| else s.freeIds[|s.freeIds| - 1]
  }

  function NewEntry(name: string, hls: bool, instance: MeshInstance): Entry {
    Entry(name, hls, false, false, hls, 0, 0, [instance], NO_GEOMETRY, NEW_LOD)
  }

  /** `addTextureRef` for a lower case name; `hls` says that the HLS manager has the texture. */
  function Added(s: State, name: string, hls: bool, instance: MeshInstance): State
    requires Inv(s)
  {
    if name in s.entryMap then
      var id := s.entryMap[name];
      var e := At(s, id);
      SetEntry(s, id, e.(instances := e.instances + [instance]))
    else
      var id := NewId(s);
      var slot := Live(NewEntry(name, hls, instance));
      State(if id < |s.entries| then s.entries[id := slot] else s.entries + [slot],
            if s.freeIds == [] then [] else s.freeIds[..|s.freeIds| - 1],
            s.entryMap[name := id],
            s.waiting + [id],
            s.current, s.lodLoading,
            if hls then s.pending else s.pending + {Base(id)},
            s.totalAsked)
  }

  function RemoveFirst(ids: seq<nat>, id: nat): seq<nat> {
    if ids == [] then []
    else if ids[0] == id then ids[1..]
    else [ids[0]] + RemoveFirst(ids[1..], id)
  }

  /** `deleteTexture`. */
  function Deleted(s: State, id: nat): State
    requires IsLive(s, id) && At(s, id).totalAsked <= s.totalAsked
  {
    var e := At(s, id);
    var loadingLod := s.lodLoading == Some(id);
    State(s.entries[id := Null],
          s.freeIds + [id],
          s.entryMap - {e.name},
          RemoveFirst(s.waiting, id),
          if s.current == Some(Base(id)) || (loadingLod && s.current == Some(HighDef(id))) then None else s.current,
          if loadingLod then None else s.lodLoading,
          s.pending - (if e.loaded then {} else {Base(id)})
                    - (if loadingLod && !e.lod.loaded then {HighDef(id)} else {}),
          s.totalAsked - e.totalAsked)
  }

  /** Position of the first occurrence of an instance, or the length of the list. */
  function FirstIndex(instances: seq<MeshInstance>, x: MeshInstance): (i: nat)
    ensures i <= |instances|
    ensures x !in instances[..i]
    ensures i < |instances| ==> instances[i] == x
    ensures i == |instances| <==> x !in instances
  {
    if instances == [] then 0
    else if instances[0] == x then 0
    else
      var j := FirstIndex(instances[1..], x);
      assert instances == [instances[0]] + instances[1..];
      assert instances[..j + 1] == [instances[0]] + instances[1..][..j];
      j + 1
  }

  /** Removal by swapping with the last element. */
  function SwapRemove(instances: seq<MeshInstance>, i: nat): (r: seq<MeshInstance>)
    requires i < |instances|
    ensures multiset(r) == multiset(instances) - multiset{instances[i]}
  {
    var last := |instances| - 1;
    var swapped := instances[i := instances[last]];
    assert multiset(swapped) == multiset(instances) - multiset{instances[i]} + multiset{instances[last]};
    assert swapped == swapped[..last] + [instances[last]];
    assert multiset(swapped[..last]) == multiset(swapped) - multiset{instances[last]};
    swapped[..last]
  }

  /** An entry without the first use by an instance, if there is one. */
  function Dropped(s: State, id: nat, instance: MeshInstance): State
    requires IsLive(s, id)
  {
    var e := At(s, id);
    var i := FirstIndex(e.instances, instance);
    if i < |e.instances| then SetEntry(s, id, e.(instances := SwapRemove(e.instances, i))) else s
  }

  /** `releaseTexture`: an instance that does not use the texture releases nothing. */
  function Released(s: State, id: nat, instance: MeshInstance): State
    requires IsLive(s, id) && At(s, id).totalAsked <= s.totalAsked
  {
    var s' := Dropped(s, id, instance);
    if At(s', id).instances == [] then Deleted(s', id) else s'
  }

  /** The asynchronous loader ends a load it holds and sets the `Loaded` flag. */
  function LoadEnded(s: State, target: Target, geometry: Geometry): State
    requires LoaderOk(s) && target in s.pending
  {
    var e := At(s, target.id);
    SetEntry(s, target.id,
             if target.Base? then e.(loaded := true, geometry := geometry)
             else e.(lod := e.lod.(loaded := true, geometry := geometry)))
      .(pending := s.pending - {target})
  }

  /** The first waiting texture whose loading has ended, or the length of the list. */
  function FirstLoaded(s: State): (k: nat)
    requires forall i | 0 <= i < |s.waiting| :: IsLive(s, s.waiting[i])
    ensures k <= |s.waiting|
    ensures forall i | 0 <= i < k :: !At(s, s.waiting[i]).loaded
    ensures k < |s.waiting| ==> At(s, s.waiting[k]).loaded
  {
    FirstLoadedFrom(s, 0)
  }

  function FirstLoadedFrom(s: State, i: nat): (k: nat)
    requires i <= |s.waiting|
    requires forall i | 0 <= i < |s.waiting| :: IsLive(s, s.waiting[i])
    ensures i <= k <= |s.waiting|
    ensures forall j | i <= j < k :: !At(s, s.waiting[j]).loaded
    ensures k < |s.waiting| ==> At(s, s.waiting[k]).loaded
    decreases |s.waiting| - i
  {
    if i == |s.waiting| || At(s, s.waiting[i]).loaded then i else FirstLoadedFrom(s, i + 1)
  }

  /** A waiting texture becomes the current upload; an HLS texture is built at that moment. */
  function Picked(s: State, k: nat, built: Geometry): State
    requires k < |s.waiting| && IsLive(s, s.waiting[k])
  {
    var id := s.waiting[k];
    var e := At(s, id);
    (if e.fromHLS then SetEntry(s, id, e.(geometry := built)) else s)
      .(waiting := s.waiting[..k] + s.waiting[k + 1..], current := Some(Base(id)))
  }

  /** `(uint)(n * 1.33f)`, over the reals. */
  function WithMipMaps(n: nat): nat {
    n * 133 / 100
  }

  function Pow4(n: nat): (r: nat)
    ensures r >= 1
  {
    if n == 0 then 1 else 4 * Pow4(n - 1)
  }

  /** The entry once entirely uploaded, with the LOD levels in force. */
  function UploadedEntry(e: Entry, baseLevel: nat, maxLevel: nat): Entry {
    var canHaveLOD := e.geometry.ValidDXTCMipMap() && baseLevel > maxLevel;
    var baseSize := WithMipMaps(e.geometry.Size0() * e.geometry.bitsPerPixel / 8);
    var lod := if canHaveLOD
               then HDLod(e.lod.hasTexture, false, false, maxLevel,
                          baseSize * (Pow4(baseLevel - maxLevel) - 1), e.lod.geometry)
               else e.lod;
    e.(upLoaded := true, canHaveLOD := canHaveLOD, baseSize := baseSize, lod := lod,
       totalAsked := baseSize + lod.extraSize)
  }

  /**
   * What a texture takes once uploaded: its base size, and with its LOD four times as much for each level
   * the LOD has more. It can have a LOD only if there are levels between the two.
   */
  lemma UploadedSizes(e: Entry, baseLevel: nat, maxLevel: nat)
    requires e.lod.extraSize == 0
    ensures var u := UploadedEntry(e, baseLevel, maxLevel);
            && u.totalAsked == u.baseSize + u.lod.extraSize
            && 100 * u.baseSize <= 133 * (e.geometry.Size0() * e.geometry.bitsPerPixel / 8) < 100 * (u.baseSize + 1)
            && (u.canHaveLOD <==> e.geometry.dxtc && |e.geometry.mips| > 1 && baseLevel > maxLevel)
            && (u.canHaveLOD ==> u.lod.level == maxLevel && !u.lod.loaded && !u.lod.upLoaded)
            && (!u.canHaveLOD ==> u.lod == e.lod)
    ensures e.geometry.ValidDXTCMipMap() && baseLevel >= maxLevel ==>
              UploadedEntry(e, baseLevel + 1, maxLevel).totalAsked == 4 * UploadedEntry(e, baseLevel, maxLevel).totalAsked
  {
    if e.geometry.ValidDXTCMipMap() && baseLevel >= maxLevel {
      var b := WithMipMaps(e.geometry.Size0() * e.geometry.bitsPerPixel / 8);
      var n := baseLevel - maxLevel;
      hide WithMipMaps;
      assert Pow4(n + 1) == 4 * Pow4(n) && Pow4(0) == 1;
      FourTimes(b, Pow4(n));
      assert UploadedEntry(e, baseLevel, maxLevel).totalAsked == b + b * (Pow4(n) - 1);
      assert UploadedEntry(e, baseLevel + 1, maxLevel).totalAsked == b + b * (Pow4(n + 1) - 1);
    }
  }

  lemma FourTimes(b: nat, p: nat)
    ensures b + b * (4 * p - 1) == 4 * (b + b * (p - 1))
  {
  }

  /** The current upload has ended and was a texture entry. */
  function BaseUploaded(s: State, baseLevel: nat, maxLevel: nat): State
    requires s.current.Some? && s.current.value.Base? && IsLive(s, s.current.value.id)
  {
    var id := s.current.value.id;
    var e := UploadedEntry(At(s, id), baseLevel, maxLevel);
    SetEntry(s, id, e).(current := None, totalAsked := s.totalAsked + e.totalAsked)
  }

  /** The current upload has ended and was a LOD. */
  function LodUploaded(s: State): State
    requires s.current.Some? && s.current.value.HighDef? && IsLive(s, s.current.value.id)
  {
    var id := s.current.value.id;
    var e := At(s, id);
    SetEntry(s, id, e.(lod := e.lod.(upLoaded := true))).(current := None, lodLoading := None)
  }

  /** The LOD that has been loaded becomes the current upload. */
  function LodPicked(s: State): State
    requires s.lodLoading.Some?
  {
    s.(current := Some(HighDef(s.lodLoading.value)))
  }

  /** The LOD policy starts to load a LOD. */
  function LodLoadStarted(s: State, id: nat): State
    requires IsLive(s, id)
  {
    var e := At(s, id);
    SetEntry(s, id, e.(lod := e.lod.(hasTexture := true)))
      .(lodLoading := Some(id), pending := s.pending + {HighDef(id)})
  }

  /** The LOD policy unloads a LOD. */
  function LodUnloaded(s: State, id: nat): State
    requires IsLive(s, id)
  {
    var e := At(s, id);
    SetEntry(s, id, e.(lod := e.lod.(hasTexture := false, loaded := false, upLoaded := false)))
  }

  // ---- Every operation keeps the invariant ----

  /** Nothing but slot id differs between two tables. */
  ghost predicate OthersSame(s: State, t: State, id: nat) {
    forall k: nat | k != id :: IsLive(t, k) == IsLive(s, k) && (IsLive(s, k) ==> At(t, k) == At(s, k))
  }

  /** Changing an entry but not its name keeps the free list and the name index right. */
  lemma SameTable(s: State, t: State, id: nat)
    requires FreeListOk(s) && NamesOk(s) && IsLive(s, id) && IsLive(t, id)
    requires t.entries == s.entries[id := t.entries[id]] && At(t, id).name == At(s, id).name
    requires t.freeIds == s.freeIds && t.entryMap == s.entryMap
    ensures FreeListOk(t) && NamesOk(t) && OthersSame(s, t, id)
    ensures SumAsked(t.entries) == SumAsked(s.entries) - At(s, id).totalAsked + At(t, id).totalAsked
    ensures SumAsked(s.entries) >= At(s, id).totalAsked
  {
    SumAskedUpdate(s.entries, id, t.entries[id]);
    SumAskedUpdate(s.entries, id, Null);
    assert OthersSame(s, t, id);
    forall n | n in t.entryMap
      ensures IsLive(t, t.entryMap[n]) && At(t, t.entryMap[n]).name == n
    {
      assert IsLive(s, s.entryMap[n]);
    }
  }

  lemma AddedKeepsInv(s: State, name: string, hls: bool, x: MeshInstance)
    requires Inv(s)
    ensures Inv(Added(s, name, hls, x))
    ensures name in Added(s, name, hls, x).entryMap
  {
    if name in s.entryMap {
      SameTable(s, Added(s, name, hls, x), s.entryMap[name]);
    } else {
      NewEntryTable(s, name, hls, x);
      NewEntryFreeList(s, name, hls, x);
      var t := Added(s, name, hls, x);
      NewEntryNames(s, t, name, NewId(s));
      NewEntryPhase(s, t, NewId(s));
      NewEntryLoads(s, name, hls, x);
    }
  }

  lemma NewEntryTable(s: State, name: string, hls: bool, x: MeshInstance)
    requires Inv(s) && name !in s.entryMap
    ensures var t := Added(s, name, hls, x);
            var id := NewId(s);
            && !IsLive(s, id) && IsLive(t, id) && OthersSame(s, t, id)
            && At(t, id) == NewEntry(name, hls, x)
            && SumAsked(t.entries) == SumAsked(s.entries)
  {
    var t := Added(s, name, hls, x);
    var id := NewId(s);
    if s.freeIds != [] {
      assert id in s.freeIds;
      SumAskedUpdate(s.entries, id, t.entries[id]);
    } else {
      AppendSlot(s.entries, t.entries[id]);
    }
  }

  /** A new texture is loaded by the loader, unless the HLS manager has it: then it is ready to be coloured. */
  lemma NewTextureLoads(s: State, name: string, hls: bool, x: MeshInstance)
    requires Inv(s) && name !in s.entryMap
    ensures var t := Added(s, name, hls, x);
            && name in t.entryMap && IsLive(t, t.entryMap[name])
            && var e := At(t, t.entryMap[name]);
               && e.fromHLS == e.loaded == hls && !e.upLoaded && e.instances == [x]
               && t.pending == s.pending + if hls then {} else {Base(t.entryMap[name])}
  {
    NewEntryTable(s, name, hls, x);
    hide Inv;
  }

  lemma NewEntryFreeList(s: State, name: string, hls: bool, x: MeshInstance)
    requires Inv(s) && name !in s.entryMap
    ensures FreeListOk(Added(s, name, hls, x))
  {
    NewEntryTable(s, name, hls, x);
    assert s.freeIds != [] ==> s.freeIds[|s.freeIds| - 1] in s.freeIds;
    NewSlotFreeList(s, Added(s, name, hls, x), NewId(s));
  }

  lemma NewSlotFreeList(s: State, t: State, id: nat)
    requires FreeListOk(s) && OthersSame(s, t, id) && IsLive(t, id)
    requires if s.freeIds == [] then id == |s.entries| && |t.entries| == id + 1 && t.freeIds == []
             else id == s.freeIds[|s.freeIds| - 1] && |t.entries| == |s.entries|
                  && t.freeIds == s.freeIds[..|s.freeIds| - 1]
    ensures FreeListOk(t)
  {
    if s.freeIds != [] {
      PopFree(s.freeIds);
    }
    assert forall k :: k in t.freeIds <==> k in s.freeIds && k != id;
    forall k: nat
      ensures k in t.freeIds <==> k < |t.entries| && t.entries[k].Null?
    {
      assert k != id ==> IsLive(t, k) == IsLive(s, k);
      assert IsLive(t, id);
    }
  }

  lemma NewEntryNames(s: State, t: State, name: string, id: nat)
    requires NamesOk(s) && name !in s.entryMap
    requires !IsLive(s, id) && IsLive(t, id) && OthersSame(s, t, id)
    requires At(t, id).name == name && t.entryMap == s.entryMap[name := id]
    ensures NamesOk(t)
  {
    forall n | n in t.entryMap
      ensures IsLive(t, t.entryMap[n]) && At(t, t.entryMap[n]).name == n
    {
      assert n != name ==> IsLive(s, s.entryMap[n]);
    }
    forall k: nat | IsLive(t, k)
      ensures At(t, k).name in t.entryMap && t.entryMap[At(t, k).name] == k
    {
      assert k != id ==> IsLive(s, k);
    }
  }

  lemma NewEntryPhase(s: State, t: State, id: nat)
    requires PhaseOk(s) && !IsLive(s, id) && IsLive(t, id) && OthersSame(s, t, id)
    requires !At(t, id).upLoaded && t.waiting == s.waiting + [id]
    requires t.current == s.current && t.lodLoading == s.lodLoading
    ensures PhaseOk(t)
  {
    assert id !in s.waiting;
    assert s.current.Some? ==> IsLive(s, s.current.value.id);
  }

  lemma NewEntryLoads(s: State, name: string, hls: bool, x: MeshInstance)
    requires Inv(s) && name !in s.entryMap
    ensures LodOk(Added(s, name, hls, x)) && LoaderOk(Added(s, name, hls, x)) && SizesOk(Added(s, name, hls, x))
  {
    NewEntryTable(s, name, hls, x);
    var t, id := Added(s, name, hls, x), NewId(s);
    assert Base(id) !in s.pending && HighDef(id) !in s.pending && s.lodLoading != Some(id);
    NewEntryLods(s, t, id);
    NewEntryLoader(s, t, id, hls);
    hide LodOk, LoaderOk;
    assert SizesOk(s) && t.totalAsked == s.totalAsked;
    hide Inv, Added;
  }

  lemma NewEntryLods(s: State, t: State, id: nat)
    requires LodOk(s) && OthersSame(s, t, id) && s.lodLoading != Some(id) && t.lodLoading == s.lodLoading
    requires IsLive(t, id) && !At(t, id).canHaveLOD && At(t, id).lod == NEW_LOD
    ensures LodOk(t)
  {
  }

  lemma NewEntryLoader(s: State, t: State, id: nat, hls: bool)
    requires LoaderOk(s) && OthersSame(s, t, id) && Base(id) !in s.pending && HighDef(id) !in s.pending
    requires s.lodLoading != Some(id) && t.lodLoading == s.lodLoading
    requires t.pending == if hls then s.pending else s.pending + {Base(id)}
    requires IsLive(t, id) && At(t, id).loaded == hls == At(t, id).fromHLS && !At(t, id).upLoaded
    ensures LoaderOk(t)
  {
  }

  lemma PopFree(ids: seq<nat>)
    requires NoDuplicates(ids) && ids != []
    ensures NoDuplicates(ids[..|ids| - 1])
    ensures forall id :: id in ids[..|ids| - 1] <==> id in ids && id != ids[|ids| - 1]
  {
    assert ids == ids[..|ids| - 1] + [ids[|ids| - 1]];
  }

  lemma {:induction false} RemoveFirstOk(ids: seq<nat>, id: nat)
    requires NoDuplicates(ids)
    ensures NoDuplicates(RemoveFirst(ids, id))
    ensures forall k :: k in RemoveFirst(ids, id) <==> k in ids && k != id
  {
    if ids != [] {
      assert ids == [ids[0]] + ids[1..];
      if ids[0] != id {
        RemoveFirstOk(ids[1..], id);
        var r := RemoveFirst(ids[1..], id);
        assert forall i | 0 <= i < |r| :: r[i] in r;
      }
    }
  }

  lemma EraseOk(ids: seq<nat>, k: nat)
    requires NoDuplicates(ids) && k < |ids|
    ensures NoDuplicates(ids[..k] + ids[k + 1..])
    ensures forall id :: id in ids[..k] + ids[k + 1..] <==> id in ids && id != ids[k]
  {
    assert ids == ids[..k] + [ids[k]] + ids[k + 1..];
  }

  /** The invariant, but for the entry `id` perhaps having no instance left. */
  ghost predicate InvButUnused(s: State, id: nat) {
    && FreeListOk(s) && NamesOk(s) && PhaseOk(s) && LodOk(s) && LoaderOk(s)
    && s.totalAsked == SumAsked(s.entries)
    && (forall k: nat | IsLive(s, k) && k != id :: EntrySizeOk(At(s, k)))
    && (IsLive(s, id) ==> AskedOk(At(s, id)))
  }

  lemma DeletedKeepsInv(s: State, id: nat)
    requires IsLive(s, id) && InvButUnused(s, id)
    ensures At(s, id).totalAsked <= s.totalAsked
    ensures Inv(Deleted(s, id)) && !IsLive(Deleted(s, id), id) && OthersSame(s, Deleted(s, id), id)
  {
    DeletedTable(s, id);
    DeletedPhase(s, id);
    DeletedLoads(s, id);
    DeletedPending(s, id);
  }

  lemma DeletedTable(s: State, id: nat)
    requires IsLive(s, id) && InvButUnused(s, id)
    ensures At(s, id).totalAsked <= s.totalAsked
    ensures FreeListOk(Deleted(s, id)) && NamesOk(Deleted(s, id)) && OthersSame(s, Deleted(s, id), id)
    ensures SumAsked(Deleted(s, id).entries) == Deleted(s, id).totalAsked
  {
    SumAskedUpdate(s.entries, id, Null);
    var t := Deleted(s, id);
    assert OthersSame(s, t, id);
    forall k: nat | IsLive(t, k)
      ensures At(t, k).name in t.entryMap && t.entryMap[At(t, k).name] == k
    {
      assert IsLive(s, k) && k != id;
      assert At(s, k).name != At(s, id).name;
    }
    forall k: nat
      ensures k in t.freeIds <==> k < |t.entries| && t.entries[k].Null?
    {
      assert k != id ==> IsLive(t, k) == IsLive(s, k);
    }
  }

  lemma DeletedPhase(s: State, id: nat)
    requires IsLive(s, id) && InvButUnused(s, id) && At(s, id).totalAsked <= s.totalAsked
    ensures PhaseOk(Deleted(s, id))
  {
    DeletedTable(s, id);
    RemoveFirstOk(s.waiting, id);
  }

  lemma DeletedLoads(s: State, id: nat)
    requires IsLive(s, id) && InvButUnused(s, id) && At(s, id).totalAsked <= s.totalAsked
    ensures LodOk(Deleted(s, id)) && SizesOk(Deleted(s, id))
  {
    DeletedTable(s, id);
  }

  lemma DeletedPending(s: State, id: nat)
    requires IsLive(s, id) && InvButUnused(s, id) && At(s, id).totalAsked <= s.totalAsked
    ensures LoaderOk(Deleted(s, id))
  {
    DeletedTable(s, id);
    var t := Deleted(s, id);
    assert LoaderOk(s);
    hide InvButUnused, FreeListOk, NamesOk, EntryLoaderOk;
    forall target | target in t.pending
      ensures IsLive(t, target.id)
    {
      PendingElsewhere(s, id, target);
    }
    forall k: nat | IsLive(t, k)
      ensures EntryLoaderOk(At(t, k), Base(k) in t.pending, HighDef(k) in t.pending, t.lodLoading == Some(k))
    {
      assert k != id && IsLive(s, k) && At(t, k) == At(s, k);
      SameElsewhere(s, id, k);
    }
  }

  /** Nothing changes for the loads of another texture. */
  lemma SameElsewhere(s: State, id: nat, k: nat)
    requires IsLive(s, id) && At(s, id).totalAsked <= s.totalAsked && k != id
    ensures var t := Deleted(s, id);
            && (Base(k) in t.pending <==> Base(k) in s.pending) && (HighDef(k) in t.pending <==> HighDef(k) in s.pending)
            && (t.lodLoading == Some(k) <==> s.lodLoading == Some(k))
  {
  }

  lemma PendingElsewhere(s: State, id: nat, target: Target)
    requires IsLive(s, id) && LoaderOk(s) && At(s, id).totalAsked <= s.totalAsked
    requires target in Deleted(s, id).pending
    ensures target.id != id && IsLive(s, target.id) && IsLive(Deleted(s, id), target.id)
  {
    assert EntryLoaderOk(At(s, id), Base(id) in s.pending, HighDef(id) in s.pending, s.lodLoading == Some(id));
  }

  lemma ReleasedKeepsInv(s: State, id: nat, x: MeshInstance)
    requires Inv(s) && IsLive(s, id)
    ensures At(s, id).totalAsked <= s.totalAsked
    ensures Inv(Released(s, id, x))
  {
    DroppedKeepsInv(s, id, x);
    var s' := Dropped(s, id, x);
    if At(s', id).instances == [] {
      DeletedKeepsInv(s', id);
    }
  }

  lemma DroppedKeepsInv(s: State, id: nat, x: MeshInstance)
    requires Inv(s) && IsLive(s, id)
    ensures At(s, id).totalAsked <= s.totalAsked
    ensures InvButUnused(Dropped(s, id, x), id)
    ensures At(Dropped(s, id, x), id).instances != [] ==> Inv(Dropped(s, id, x))
  {
    assert s.entries[id := s.entries[id]] == s.entries;
    SameTable(s, Dropped(s, id, x), id);
    InstancesOnly(s, Dropped(s, id, x), id);
  }

  lemma InstancesOnly(s: State, t: State, id: nat)
    requires Inv(s) && IsLive(s, id) && IsLive(t, id)
    requires t == SetEntry(s, id, At(s, id).(instances := At(t, id).instances))
    ensures InvButUnused(t, id) && (At(t, id).instances != [] ==> Inv(t))
  {
    SameTable(s, t, id);
    InstancesKeepPhases(s, t, id);
    hide FreeListOk, NamesOk, PhaseOk, LodOk, LoaderOk;
    assert forall k: nat :: IsLive(t, k) == IsLive(s, k);
  }

  lemma InstancesKeepPhases(s: State, t: State, id: nat)
    requires PhaseOk(s) && LodOk(s) && LoaderOk(s) && IsLive(s, id) && IsLive(t, id) && OthersSame(s, t, id)
    requires At(t, id) == At(s, id).(instances := At(t, id).instances)
    requires t.waiting == s.waiting && t.current == s.current && t.lodLoading == s.lodLoading && t.pending == s.pending
    ensures PhaseOk(t) && LodOk(t) && LoaderOk(t)
  {
    hide NoDuplicates;
    assert forall k: nat :: IsLive(t, k) == IsLive(s, k);
  }

  lemma LoadEndedKeepsInv(s: State, target: Target, g: Geometry)
    requires Inv(s) && target in s.pending && g.WellFormed()
    ensures Inv(LoadEnded(s, target, g))
  {
    var t := LoadEnded(s, target, g);
    assert IsLive(s, target.id);
    SameTable(s, t, target.id);
    LoadEndedPhases(s, target, g);
  }

  /** What the loader has read is in the texture, or in its LOD, and the other is as it was. */
  lemma LoadEndedMeans(s: State, target: Target, g: Geometry)
    requires LoaderOk(s) && target in s.pending
    ensures var t := LoadEnded(s, target, g);
            && IsLive(s, target.id) && IsLive(t, target.id) && target !in t.pending
            && var e, f := At(s, target.id), At(t, target.id);
               if target.Base? then f.loaded && f.geometry == g && f.lod == e.lod
               else f.lod.loaded && f.lod.geometry == g && f.loaded == e.loaded && f.geometry == e.geometry
  {
    hide EntryLoaderOk;
  }

  lemma LoadEndedPhases(s: State, target: Target, g: Geometry)
    requires Inv(s) && target in s.pending && g.WellFormed()
    requires IsLive(s, target.id) && OthersSame(s, LoadEnded(s, target, g), target.id)
    ensures PhaseOk(LoadEnded(s, target, g)) && LodOk(LoadEnded(s, target, g)) && LoaderOk(LoadEnded(s, target, g))
  {
  }

  lemma PickedKeepsInv(s: State, k: nat, built: Geometry)
    requires Inv(s) && s.current == None && k < |s.waiting| && built.WellFormed()
    requires IsLive(s, s.waiting[k]) && At(s, s.waiting[k]).loaded
    ensures Inv(Picked(s, k, built))
  {
    var id := s.waiting[k];
    var t := Picked(s, k, built);
    assert id in s.waiting;
    EraseOk(s.waiting, k);
    assert s.entries[id := s.entries[id]] == s.entries;
    SameTable(s, t, id);
    assert PhaseOk(t);
  }

  lemma BaseUploadedKeepsInv(s: State, baseLevel: nat, maxLevel: nat)
    requires Inv(s) && s.current.Some? && s.current.value.Base?
    ensures Inv(BaseUploaded(s, baseLevel, maxLevel))
  {
    var id := s.current.value.id;
    var t := BaseUploaded(s, baseLevel, maxLevel);
    SameTable(s, t, id);
    assert PhaseOk(t);
    assert LodOk(t);
  }

  lemma LodUploadedKeepsInv(s: State)
    requires Inv(s) && s.current.Some? && s.current.value.HighDef?
    ensures Inv(LodUploaded(s))
  {
    var id := s.current.value.id;
    var t := LodUploaded(s);
    SameTable(s, t, id);
    assert PhaseOk(t);
  }

  lemma LodPickedKeepsInv(s: State)
    requires Inv(s) && s.current == None && s.lodLoading.Some? && At(s, s.lodLoading.value).lod.loaded
    ensures Inv(LodPicked(s))
  {
    assert forall j: nat :: IsLive(LodPicked(s), j) == IsLive(s, j);
  }

  /** The assertion before a LOD load, that the LOD has no texture, always holds. */
  lemma LodLoadStartedKeepsInv(s: State, id: nat)
    requires Inv(s) && s.lodLoading == None && s.current == None
    requires IsLive(s, id) && At(s, id).canHaveLOD && !At(s, id).lod.upLoaded
    ensures !At(s, id).lod.hasTexture
    ensures Inv(LodLoadStarted(s, id))
  {
    var t := LodLoadStarted(s, id);
    SameTable(s, t, id);
    assert PhaseOk(t);
  }

  /** The assertion before a LOD unload, that the LOD has a texture, always holds. */
  lemma LodUnloadedKeepsInv(s: State, id: nat)
    requires Inv(s) && s.lodLoading == None && s.current == None
    requires IsLive(s, id) && At(s, id).lod.upLoaded
    ensures At(s, id).lod.hasTexture
    ensures Inv(LodUnloaded(s, id))
  {
    var t := LodUnloaded(s, id);
    SameTable(s, t, id);
    assert PhaseOk(t);
  }
}
