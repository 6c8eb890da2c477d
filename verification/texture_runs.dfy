/**
 * Whole runs of the texture manager: any interleaving of calls, loader completions and upload steps.
 */
module TextureRuns {
  import opened TextureUpload
  import opened TextureLodPolicy
  import opened TextureState
  import opened Wrappers

  datatype Event =
    | Add(name: string, hls: bool, instance: MeshInstance)
    | Release(id: nat, user: MeshInstance)
    | Delete(id: nat)
    | LoadEnd(target: Target, loaded: Geometry)
    | Pick(k: nat, built: Geometry)
    | BaseDone(baseLevel: nat, maxLevel: nat)
    | LodPick
    | LodDone
    | LodLoad(id: nat)
    | LodUnload(id: nat)

  /** When the manager (or, for LoadEnd, the loader) can take a step. */
  ghost predicate Enabled(s: State, e: Event)
  {
    match e
    case Add(_, _, _) => true
    case Release(id, _) => IsLive(s, id)
    case Delete(id) => IsLive(s, id)
    case LoadEnd(target, g) => target in s.pending && g.WellFormed()
    case Pick(k, g) => s.current == None && g.WellFormed() && k < |s.waiting|
                       && IsLive(s, s.waiting[k]) && At(s, s.waiting[k]).loaded
    case BaseDone(_, _) => s.current.Some? && s.current.value.Base?
    case LodPick => s.current == None && s.lodLoading.Some? && IsLive(s, s.lodLoading.value)
                    && At(s, s.lodLoading.value).lod.loaded
    case LodDone => s.current.Some? && s.current.value.HighDef?
    case LodLoad(id) => s.current == None && s.lodLoading == None && IsLive(s, id)
                        && At(s, id).canHaveLOD && !At(s, id).lod.upLoaded
    case LodUnload(id) => s.current == None && s.lodLoading == None && IsLive(s, id) && At(s, id).lod.upLoaded
  }

  ghost function Apply(s: State, e: Event): State
    requires Inv(s) && Enabled(s, e)
  {
    assert e.Release? || e.Delete? ==> At(s, e.id).totalAsked <= s.totalAsked by {
      if e.Release? || e.Delete? { SumAskedUpdate(s.entries, e.id, Null); }
    }
    match e
    case Add(name, hls, x) => Added(s, name, hls, x)
    case Release(id, x) => Released(s, id, x)
    case Delete(id) => Deleted(s, id)
    case LoadEnd(target, g) => LoadEnded(s, target, g)
    case Pick(k, g) => Picked(s, k, g)
    case BaseDone(b, m) => BaseUploaded(s, b, m)
    case LodPick => LodPicked(s)
    case LodDone => LodUploaded(s)
    case LodLoad(id) => LodLoadStarted(s, id)
    case LodUnload(id) => LodUnloaded(s, id)
  }

  lemma StepKeepsInv(s: State, e: Event)
    requires Inv(s) && Enabled(s, e)
    ensures Inv(Apply(s, e))
  {
    match e
    case Add(name, hls, x) => AddedKeepsInv(s, name, hls, x);
    case Release(id, x) => ReleasedKeepsInv(s, id, x);
    case Delete(id) => DeletedKeepsInv(s, id);
    case LoadEnd(target, g) => LoadEndedKeepsInv(s, target, g);
    case Pick(k, g) => PickedKeepsInv(s, k, g);
    case BaseDone(b, m) => BaseUploadedKeepsInv(s, b, m);
    case LodPick => LodPickedKeepsInv(s);
    case LodDone => LodUploadedKeepsInv(s);
    case LodLoad(id) => LodLoadStartedKeepsInv(s, id);
    case LodUnload(id) => LodUnloadedKeepsInv(s, id);
  }

  ghost function Uses(e: Entry, x: MeshInstance): nat {
    multiset(e.instances)[x]
  }

  /**
   * What a step adds to the counter `_AsyncTextureToLoadRefCount` of an instance: +1 for each new use
   * of a texture that is not uploaded, -1 for each use that is dropped before the upload or that the
   * end of the upload signals.
   */
  ghost function CounterChange(s: State, e: Event, x: MeshInstance): int
    requires Inv(s) && Enabled(s, e)
  {
    match e
    case Add(name, _, y) =>
      if x == y && (name in s.entryMap ==> !At(s, s.entryMap[name]).upLoaded) then 1 else 0
    case Release(id, y) =>
      if x == y && x in At(s, id).instances && !At(s, id).upLoaded then -1 else 0
    case Delete(id) =>
      if At(s, id).upLoaded then 0 else 0 - Uses(At(s, id), x)
    case BaseDone(_, _) => 0 - Uses(At(s, s.current.value.id), x)
    case _ => 0
  }

  /** Whatever waits, is uploaded or is loaded is a live texture; what is uploaded is not ready yet. */
  lemma TargetsLive(s: State)
    requires Inv(s)
    ensures LoaderOk(s) && forall target | target in s.pending :: IsLive(s, target.id)
    ensures s.current.Some? ==> IsLive(s, s.current.value.id)
    ensures s.current.Some? && s.current.value.Base? ==> !At(s, s.current.value.id).upLoaded
    ensures s.current.Some? && s.current.value.HighDef? ==> s.lodLoading == Some(s.current.value.id)
  {
  }

  /** Each step changes the counter by as much as it changes the number of pending uses. */
  lemma StepConserves(s: State, e: Event, x: MeshInstance)
    requires Inv(s) && Enabled(s, e)
    ensures ToLoad(Apply(s, e).entries, x) == ToLoad(s.entries, x) + CounterChange(s, e, x)
  {
    match e
    case Add(name, hls, y) => AddedConserves(s, name, hls, y, x);
    case Release(id, y) =>
      SumAskedUpdate(s.entries, id, Null);
      ReleasedConserves(s, id, y, x);
    case Delete(id) => ToLoadUpdate(s.entries, id, Null, x);
    case BaseDone(b, m) => UploadedConserves(s, b, m, x);
    case LoadEnd(_, _) => UsesStay(s, e, x);
    case Pick(_, _) => UsesStay(s, e, x);
    case LodPick => UsesStay(s, e, x);
    case LodDone => UsesStay(s, e, x);
    case LodLoad(_) => UsesStay(s, e, x);
    case LodUnload(_) => UsesStay(s, e, x);
  }

  lemma UploadedConserves(s: State, baseLevel: nat, maxLevel: nat, x: MeshInstance)
    requires Inv(s) && s.current.Some? && s.current.value.Base? && IsLive(s, s.current.value.id)
    ensures ToLoad(BaseUploaded(s, baseLevel, maxLevel).entries, x)
            == ToLoad(s.entries, x) - Uses(At(s, s.current.value.id), x)
  {
    TargetsLive(s);
    hide Inv, ToLoad;
    var id := s.current.value.id;
    ToLoadUpdate(s.entries, id, BaseUploaded(s, baseLevel, maxLevel).entries[id], x);
  }

  lemma SameSlotUses(a: seq<Slot>, b: seq<Slot>, i: nat, x: MeshInstance)
    requires i < |a| == |b| && b == a[i := b[i]] && SlotToLoad(b[i], x) == SlotToLoad(a[i], x)
    ensures ToLoad(b, x) == ToLoad(a, x)
  {
    ToLoadUpdate(a, i, b[i], x);
  }

  /** The other steps change no use, and make no texture ready. */
  lemma UsesStay(s: State, e: Event, x: MeshInstance)
    requires Inv(s) && Enabled(s, e)
    requires e.LoadEnd? || e.Pick? || e.LodPick? || e.LodDone? || e.LodLoad? || e.LodUnload?
    ensures ToLoad(Apply(s, e).entries, x) == ToLoad(s.entries, x)
  {
    TargetsLive(s);
    hide Inv, ToLoad;
    match e
    case LoadEnd(target, g) => SameSlotUses(s.entries, LoadEnded(s, target, g).entries, target.id, x);
    case Pick(k, g) =>
      var id := s.waiting[k];
      assert s.entries[id := s.entries[id]] == s.entries;
      SameSlotUses(s.entries, Picked(s, k, g).entries, id, x);
    case LodPick =>
    case LodDone => SameSlotUses(s.entries, LodUploaded(s).entries, s.current.value.id, x);
    case LodLoad(id) => SameSlotUses(s.entries, LodLoadStarted(s, id).entries, id, x);
    case LodUnload(id) => SameSlotUses(s.entries, LodUnloaded(s, id).entries, id, x);
  }

  lemma AddedConserves(s: State, name: string, hls: bool, y: MeshInstance, x: MeshInstance)
    requires Inv(s)
    ensures ToLoad(Added(s, name, hls, y).entries, x)
            == ToLoad(s.entries, x) + CounterChange(s, Add(name, hls, y), x)
  {
    hide FreeListOk, PhaseOk, LodOk, LoaderOk, SizesOk, ToLoad;
    var t := Added(s, name, hls, y);
    if name in s.entryMap {
      var id := s.entryMap[name];
      ToLoadUpdate(s.entries, id, t.entries[id], x);
      assert multiset(At(t, id).instances) == multiset(At(s, id).instances) + multiset{y};
    } else {
      var id := NewId(s);
      NewEntryTable(s, name, hls, y);
      assert multiset([y]) == multiset{y};
      if id < |s.entries| {
        ToLoadUpdate(s.entries, id, t.entries[id], x);
      } else {
        AppendSlot(s.entries, t.entries[id]);
      }
    }
  }

  lemma ReleasedConserves(s: State, id: nat, y: MeshInstance, x: MeshInstance)
    requires Inv(s) && IsLive(s, id) && At(s, id).totalAsked <= s.totalAsked
    ensures ToLoad(Released(s, id, y).entries, x)
            == ToLoad(s.entries, x) + CounterChange(s, Release(id, y), x)
  {
    DroppedConserves(s, id, y, x);
    var s' := Dropped(s, id, y);
    if At(s', id).instances == [] {
      ToLoadUpdate(s'.entries, id, Null, x);
      assert Uses(At(s', id), x) == 0;
    }
  }

  lemma DroppedConserves(s: State, id: nat, y: MeshInstance, x: MeshInstance)
    requires Inv(s) && IsLive(s, id)
    ensures ToLoad(Dropped(s, id, y).entries, x)
            == ToLoad(s.entries, x) + CounterChange(s, Release(id, y), x)
  {
    ToLoadUpdate(s.entries, id, Dropped(s, id, y).entries[id], x);
  }

  // ---- Uses, order and progress ----

  /** The uses of the texture of that name, uploaded or not. */
  ghost function UsesOf(s: State, name: string): multiset<MeshInstance>
    requires NamesOk(s)
  {
    if name in s.entryMap then multiset(At(s, s.entryMap[name]).instances) else multiset{}
  }

  /**
   * A texture is there exactly as long as it is used: its uses are those added and not released, unless it
   * is deleted.
   */
  lemma StepUses(s: State, e: Event, name: string)
    requires Inv(s) && Enabled(s, e)
    ensures name in s.entryMap <==> UsesOf(s, name) != multiset{}
    ensures Inv(Apply(s, e))
    ensures UsesOf(Apply(s, e), name) ==
              match e
              case Add(n, _, x) => if n == name then UsesOf(s, name) + multiset{x} else UsesOf(s, name)
              case Release(id, x) => if At(s, id).name == name then UsesOf(s, name) - multiset{x} else UsesOf(s, name)
              case Delete(id) => if At(s, id).name == name then multiset{} else UsesOf(s, name)
              case _ => UsesOf(s, name)
  {
    StepKeepsInv(s, e);
    UsedIfNamed(s, name);
    if e.Release? || e.Delete? {
      SumAskedUpdate(s.entries, e.id, Null);
    }
    hide FreeListOk, LodOk, PhaseOk, LoaderOk, SizesOk, NamesOk, UsesOf;
    match e
    case Add(n, hls, x) => AddedUses(s, n, hls, x, name);
    case Release(id, x) => ReleasedUses(s, id, x, name);
    case Delete(id) => DeletedUses(s, id, name);
    case _ =>
      QuietStep(s, e);
      hide Apply, Enabled;
      QuietUses(s, Apply(s, e), Touched(s, e), name);
  }

  /** The texture that a step is about. */
  ghost function Touched(s: State, e: Event): Option<nat>
    requires Inv(s) && Enabled(s, e)
  {
    match e
    case Add(name, hls, x) => Some(if name in s.entryMap then s.entryMap[name] else NewId(s))
    case Release(id, _) => Some(id)
    case Delete(id) => Some(id)
    case LoadEnd(target, _) => Some(target.id)
    case Pick(k, _) => Some(s.waiting[k])
    case BaseDone(_, _) => Some(s.current.value.id)
    case LodDone => Some(s.current.value.id)
    case LodPick => None
    case LodLoad(id) => Some(id)
    case LodUnload(id) => Some(id)
  }

  /** A step that adds and drops no use changes at most the entry it is about, but not its name and uses. */
  lemma QuietStep(s: State, e: Event)
    requires Inv(s) && Enabled(s, e) && !e.Add? && !e.Release? && !e.Delete?
    ensures var t := Apply(s, e);
            && t.entryMap == s.entryMap && |t.entries| == |s.entries|
            && forall k | 0 <= k < |s.entries| :: QuietSlot(s.entries[k], t.entries[k], Touched(s, e) == Some(k))
  {
    TargetsLive(s);
    hide Inv, UploadedEntry;
    if e.BaseDone? {
      UploadKeepsUses(At(s, s.current.value.id), e.baseLevel, e.maxLevel);
    }
  }

  ghost predicate QuietSlot(a: Slot, b: Slot, touched: bool) {
    if touched then a.Live? && b.Live? && b.entry.name == a.entry.name && b.entry.instances == a.entry.instances
    else b == a
  }

  lemma QuietUses(s: State, t: State, id: Option<nat>, name: string)
    requires NamesOk(s) && NamesOk(t) && t.entryMap == s.entryMap && |t.entries| == |s.entries|
    requires forall k | 0 <= k < |s.entries| :: QuietSlot(s.entries[k], t.entries[k], id == Some(k))
    ensures UsesOf(t, name) == UsesOf(s, name)
  {
  }

  lemma UploadKeepsUses(e: Entry, baseLevel: nat, maxLevel: nat)
    ensures UploadedEntry(e, baseLevel, maxLevel).instances == e.instances
  {
  }

  lemma UsedIfNamed(s: State, name: string)
    requires Inv(s)
    ensures name in s.entryMap <==> UsesOf(s, name) != multiset{}
  {
    if name in s.entryMap {
      var e := At(s, s.entryMap[name]);
      assert EntrySizeOk(e);
      assert e.instances[0] in multiset(e.instances);
    }
  }

  lemma AddedUses(s: State, n: string, hls: bool, x: MeshInstance, name: string)
    requires Inv(s) && NamesOk(Added(s, n, hls, x))
    ensures UsesOf(Added(s, n, hls, x), name) ==
              if n == name then UsesOf(s, name) + multiset{x} else UsesOf(s, name)
  {
    var t := Added(s, n, hls, x);
    if n !in s.entryMap {
      NewEntryTable(s, n, hls, x);
    } else {
      assert At(t, s.entryMap[n]).instances == At(s, s.entryMap[n]).instances + [x];
    }
    hide FreeListOk, LodOk, PhaseOk, LoaderOk, SizesOk;
    assert multiset([x]) == multiset{x};
  }

  lemma ReleasedUses(s: State, id: nat, x: MeshInstance, name: string)
    requires Inv(s) && IsLive(s, id) && At(s, id).totalAsked <= s.totalAsked && NamesOk(Released(s, id, x))
    ensures UsesOf(Released(s, id, x), name) ==
              if At(s, id).name == name then UsesOf(s, name) - multiset{x} else UsesOf(s, name)
  {
    var u := Dropped(s, id, x);
    DroppedUses(s, id, x);
    DroppedKeepsInv(s, id, x);
    assert NamesOk(s) && NamesOk(u);
    assert Released(s, id, x) == if At(u, id).instances == [] then Deleted(u, id) else u;
    hide Dropped, Released, Inv, InvButUnused, Deleted;
    UsesLost(s, u, id, name);
    if At(u, id).instances == [] {
      hide NamesOk;
      assert multiset(At(u, id).instances) == multiset{};
      DeletedUses(u, id, name);
    }
  }

  lemma UsesLost(s: State, u: State, id: nat, name: string)
    requires NamesOk(s) && NamesOk(u) && IsLive(s, id) && IsLive(u, id) && u.entryMap == s.entryMap
    requires u.entries == s.entries[id := u.entries[id]] && At(u, id).name == At(s, id).name
    ensures UsesOf(u, name) == if At(s, id).name == name then multiset(At(u, id).instances) else UsesOf(s, name)
    ensures At(s, id).name == name ==> UsesOf(s, name) == multiset(At(s, id).instances)
  {
  }

  lemma DroppedUses(s: State, id: nat, x: MeshInstance)
    requires IsLive(s, id)
    ensures var u := Dropped(s, id, x);
            && u.entryMap == s.entryMap && IsLive(u, id) && u.entries == s.entries[id := u.entries[id]]
            && At(u, id).name == At(s, id).name && At(u, id).totalAsked == At(s, id).totalAsked
            && u.totalAsked == s.totalAsked
            && multiset(At(u, id).instances) == multiset(At(s, id).instances) - multiset{x}
  {
    assert s.entries[id := s.entries[id]] == s.entries;
  }

  lemma DeletedUses(s: State, id: nat, name: string)
    requires NamesOk(s) && IsLive(s, id) && At(s, id).totalAsked <= s.totalAsked && NamesOk(Deleted(s, id))
    ensures UsesOf(Deleted(s, id), name) == if At(s, id).name == name then multiset{} else UsesOf(s, name)
  {
  }

  lemma {:induction false} RemovedAt(ids: seq<nat>, id: nat) returns (p: nat)
    ensures var r := RemoveFirst(ids, id);
            && |r| == (if p < |ids| then |ids| - 1 else |ids|)
            && forall i | 0 <= i < |r| :: r[i] == ids[if i < p then i else i + 1]
  {
    p := 0;
    if ids != [] && ids[0] != id {
      var q := RemovedAt(ids[1..], id);
      p := q + 1;
    }
  }

  lemma WaitingAfter(s: State, e: Event)
    requires Inv(s) && Enabled(s, e)
    ensures var u := Apply(s, e).waiting;
            match e
            case Add(name, _, _) =>
              && name in Apply(s, e).entryMap
              && u == if name in s.entryMap then s.waiting else s.waiting + [Apply(s, e).entryMap[name]]
            case Release(id, _) => u == s.waiting || u == RemoveFirst(s.waiting, id)
            case Delete(id) => u == RemoveFirst(s.waiting, id)
            case Pick(k, _) => u == s.waiting[..k] + s.waiting[k + 1..]
            case _ => u == s.waiting
  {
    hide FreeListOk, LodOk, PhaseOk, LoaderOk, NamesOk, RemoveFirst, UploadedEntry;
  }

  /** The waiting textures keep their order, and a new one comes last. */
  lemma StepKeepsOrder(s: State, e: Event, i: nat, j: nat)
    requires Inv(s) && Enabled(s, e) && i < j < |Apply(s, e).waiting|
    ensures var t := Apply(s, e);
            || (e.Add? && e.name !in s.entryMap && e.name in t.entryMap
                && j == |s.waiting| && t.waiting[j] == t.entryMap[e.name])
            || exists k, l :: 0 <= k < l < |s.waiting| && s.waiting[k] == t.waiting[i] && s.waiting[l] == t.waiting[j]
  {
    hide Inv, Apply, RemoveFirst;
    WaitingAfter(s, e);
    hide Enabled;
    var w, u := s.waiting, Apply(s, e).waiting;
    var p := |w|;
    match e {
      case Release(id, x) => if u != w { p := RemovedAt(w, id); }
      case Delete(id) => p := RemovedAt(w, id);
      case Pick(k, _) => p := k;
      case _ =>
    }
    if j < |w| || p < |w| {
      var k, l := if i < p then i else i + 1, if j < p then j else j + 1;
      assert w[k] == u[i] && w[l] == u[j];
    }
  }

  /** The upload that is current goes on until it ends, unless its texture goes. */
  lemma UploadsGoOn(s: State, e: Event)
    requires Inv(s) && Enabled(s, e) && s.current.Some? && !e.BaseDone? && !e.LodDone?
    ensures IsLive(s, s.current.value.id)
    ensures if Apply(s, e).current == s.current then IsLive(Apply(s, e), s.current.value.id)
            else !IsLive(Apply(s, e), s.current.value.id) && Apply(s, e).current == None
  {
    TargetsLive(s);
    StaysLive(s, e, s.current.value.id);
    hide Inv, IsLive;
  }

  /** So does the LOD that is loading. */
  lemma LodLoadsGoOn(s: State, e: Event)
    requires Inv(s) && Enabled(s, e) && s.lodLoading.Some? && !e.LodDone?
    ensures IsLive(s, s.lodLoading.value)
    ensures if Apply(s, e).lodLoading == s.lodLoading then IsLive(Apply(s, e), s.lodLoading.value)
            else !IsLive(Apply(s, e), s.lodLoading.value) && Apply(s, e).lodLoading == None
  {
    TargetsLive(s);
    LoadingIsLive(s);
    StaysLive(s, e, s.lodLoading.value);
    hide Inv, IsLive;
  }

  lemma LoadingIsLive(s: State)
    requires Inv(s)
    ensures s.lodLoading.Some? ==> IsLive(s, s.lodLoading.value)
  {
  }

  /** Only a deletion, or the loss of the last use, takes a texture away. */
  lemma StaysLive(s: State, e: Event, id: nat)
    requires Inv(s) && Enabled(s, e) && IsLive(s, id)
    ensures !IsLive(Apply(s, e), id) ==> Touched(s, e) == Some(id)
    ensures match e
            case Delete(i) => i == id ==> !IsLive(Apply(s, e), id)
            case Release(i, x) => i == id ==>
              (IsLive(Apply(s, e), id) <==> At(Dropped(s, id, x), id).instances != [])
            case _ => IsLive(Apply(s, e), id)
  {
    if e.Add? {
      AddKeepsLive(s, e.name, e.hls, e.instance, id);
      hide Added;
    } else if e.Release? || e.Delete? {
      if e.id != id {
        OthersStay(s, e, id);
        hide Apply;
      }
      hide Inv;
    } else {
      QuietStep(s, e);
      hide Apply;
      assert QuietSlot(s.entries[id], Apply(s, e).entries[id], Touched(s, e) == Some(id));
    }
  }

  lemma AddKeepsLive(s: State, name: string, hls: bool, x: MeshInstance, id: nat)
    requires Inv(s) && IsLive(s, id)
    ensures IsLive(Added(s, name, hls, x), id)
  {
    if name !in s.entryMap {
      NewEntryTable(s, name, hls, x);
    }
    hide FreeListOk, PhaseOk, LodOk, LoaderOk, SizesOk;
  }

  /** It changes no other. */
  lemma OthersStay(s: State, e: Event, id: nat)
    requires Inv(s) && Enabled(s, e) && Touched(s, e) != Some(id)
    ensures IsLive(Apply(s, e), id) == IsLive(s, id)
    ensures IsLive(s, id) ==> At(Apply(s, e), id) == At(s, id)
  {
    if e.Add? {
      AddChangesOne(s, e.name, e.hls, e.instance, id);
      hide Added;
    } else if e.Release? || e.Delete? {
      SumAskedUpdate(s.entries, e.id, Null);
      LossChangesOne(s, e.id, if e.Release? then Released(s, e.id, e.user) else Deleted(s, e.id), id);
    } else {
      QuietStep(s, e);
      hide Apply;
    }
  }

  lemma LossChangesOne(s: State, i: nat, t: State, id: nat)
    requires id != i < |s.entries| == |t.entries| && t.entries == s.entries[i := t.entries[i]]
    ensures IsLive(t, id) == IsLive(s, id) && (IsLive(s, id) ==> At(t, id) == At(s, id))
  {
  }

  lemma AddChangesOne(s: State, name: string, hls: bool, x: MeshInstance, id: nat)
    requires Inv(s) && id != (if name in s.entryMap then s.entryMap[name] else NewId(s))
    ensures var t := Added(s, name, hls, x);
            IsLive(t, id) == IsLive(s, id) && (IsLive(s, id) ==> At(t, id) == At(s, id))
  {
    if name !in s.entryMap {
      NewEntryTable(s, name, hls, x);
    }
    hide FreeListOk, PhaseOk, LodOk, LoaderOk, SizesOk;
  }

  ghost predicate ValidRun(s: State, events: seq<Event>)
    requires Inv(s)
    decreases events
  {
    events != [] ==>
      && Enabled(s, events[0])
      && Inv(Apply(s, events[0]))
      && ValidRun(Apply(s, events[0]), events[1..])
  }

  ghost function Final(s: State, events: seq<Event>): State
    requires Inv(s) && ValidRun(s, events)
    decreases events
  {
    if events == [] then s else Final(Apply(s, events[0]), events[1..])
  }

  ghost function TotalChange(s: State, events: seq<Event>, x: MeshInstance): int
    requires Inv(s) && ValidRun(s, events)
    decreases events
  {
    if events == [] then 0
    else CounterChange(s, events[0], x) + TotalChange(Apply(s, events[0]), events[1..], x)
  }

  /** Steps that are merely enabled never leave the invariant. */
  ghost predicate EnabledRun(s: State, events: seq<Event>)
    requires Inv(s)
    decreases events
  {
    events != [] ==>
      && Enabled(s, events[0])
      && (Inv(Apply(s, events[0])) ==> EnabledRun(Apply(s, events[0]), events[1..]))
  }

  lemma {:induction false} EnabledRunsAreValid(s: State, events: seq<Event>)
    requires Inv(s) && EnabledRun(s, events)
    ensures ValidRun(s, events)
    decreases events
  {
    if events != [] {
      StepKeepsInv(s, events[0]);
      EnabledRunsAreValid(Apply(s, events[0]), events[1..]);
    }
  }

  lemma {:induction false} RunConserves(s: State, events: seq<Event>, x: MeshInstance)
    requires Inv(s) && ValidRun(s, events)
    ensures ToLoad(Final(s, events).entries, x) == ToLoad(s.entries, x) + TotalChange(s, events, x)
    decreases events
  {
    if events != [] {
      StepConserves(s, events[0], x);
      RunConserves(Apply(s, events[0]), events[1..], x);
    }
  }

  lemma {:induction false} RunKeepsInv(s: State, events: seq<Event>)
    requires Inv(s) && ValidRun(s, events)
    ensures Inv(Final(s, events))
    decreases events
  {
    if events != [] {
      RunKeepsInv(Apply(s, events[0]), events[1..]);
    }
  }

  /** A run of enabled steps from the empty manager (which does keep the invariant, see below). */
  ghost predicate RunFromEmpty(events: seq<Event>) {
    Inv(EMPTY) ==> EnabledRun(EMPTY, events)
  }

  /**
   * Main result. In every state reached from the empty manager the invariant holds, and the counter of
   * each instance (zero at first) is its number of occurrences in the entries not yet uploaded.
   */
  lemma ReachableStates(events: seq<Event>, x: MeshInstance)
    requires RunFromEmpty(events)
    ensures Inv(EMPTY) && ValidRun(EMPTY, events)
    ensures Inv(Final(EMPTY, events))
    ensures TotalChange(EMPTY, events, x) == ToLoad(Final(EMPTY, events).entries, x)
  {
    EnabledRunsAreValid(EMPTY, events);
    RunKeepsInv(EMPTY, events);
    RunConserves(EMPTY, events, x);
  }

  /** Once no texture is left, everything the destructor asserts empty is empty. */
  lemma NothingLeft(s: State)
    requires Inv(s) && forall id: nat :: !IsLive(s, id)
    ensures s.waiting == [] && s.entryMap == map[] && s.current == None && s.lodLoading == None
    ensures s.pending == {} && s.totalAsked == 0
  {
    FirstIsMember(s.waiting);
    assert forall n :: n !in s.entryMap;
    forall i | 0 <= i < |s.entries|
      ensures s.entries[i].Null?
    {
      assert !IsLive(s, i);
    }
    NothingAsked(s.entries);
  }

  lemma FirstIsMember(ids: seq<nat>)
    ensures ids == [] || ids[0] in ids
  {
  }

  lemma {:induction false} NothingAsked(entries: seq<Slot>)
    requires forall i | 0 <= i < |entries| :: entries[i].Null?
    ensures SumAsked(entries) == 0
  {
    if entries != [] {
      NothingAsked(entries[..|entries| - 1]);
    }
  }
}
