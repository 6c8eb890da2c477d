/**
 * The uploads that have ended, and what they say of the textures and LODs marked as uploaded: each was
 * sent entirely, with the geometry it still has.
 */
module TextureRecords {
  import opened TextureUpload
  import opened TextureState
  import opened TextureRuns
  import opened Wrappers

  /** An upload that has ended: of what, with what geometry, and the calls that did it. */
  datatype Finished = Finished(target: Target, geometry: Geometry, calls: seq<Call>)

  ghost predicate FinishedOk(f: Finished) {
    && f.geometry.WellFormed()
    && f.calls != [] && f.calls[|f.calls| - 1].done
    && Run(f.geometry, START, f.calls, f.calls[|f.calls| - 1].to)
  }

  ghost predicate AllFinishedOk(finished: seq<Finished>) {
    forall k | 0 <= k < |finished| :: FinishedOk(finished[k])
  }

  ghost predicate HasRecord(finished: seq<Finished>, target: Target, g: Geometry) {
    exists k :: 0 <= k < |finished| && finished[k].target == target && finished[k].geometry == g
  }

  /** What is uploaded in the slot was so before, with the same geometry, or has been recorded. */
  ghost predicate SlotRecorded(before: Slot, after: Slot, i: nat, finished: seq<Finished>) {
    after.Live? ==>
      var e := after.entry;
      && (e.upLoaded ==>
            || (before.Live? && before.entry.upLoaded && before.entry.geometry == e.geometry)
            || HasRecord(finished, Base(i), e.geometry))
      && (e.lod.upLoaded ==>
            || (before.Live? && before.entry.lod.upLoaded && before.entry.lod.geometry == e.lod.geometry)
            || HasRecord(finished, HighDef(i), e.lod.geometry))
  }

  function SlotAt(entries: seq<Slot>, i: nat): Slot {
    if i < |entries| then entries[i] else Null
  }

  /** Everything that has been uploaded between two tables has been recorded. */
  ghost predicate Recorded(before: seq<Slot>, after: seq<Slot>, finished: seq<Finished>) {
    forall i | 0 <= i < |after| :: SlotRecorded(SlotAt(before, i), after[i], i, finished)
  }

  lemma RecordedTwice(a: seq<Slot>, b: seq<Slot>, c: seq<Slot>, f: seq<Finished>, g: seq<Finished>)
    requires Recorded(a, b, f) && Recorded(b, c, g)
    ensures Recorded(a, c, f + g)
  {
    forall i | 0 <= i < |c|
      ensures SlotRecorded(SlotAt(a, i), c[i], i, f + g)
    {
      assert SlotRecorded(SlotAt(b, i), c[i], i, g);
      MoreRecords(f, g);
      if i < |b| {
        assert SlotRecorded(SlotAt(a, i), b[i], i, f);
      }
    }
  }

  lemma MoreRecords(f: seq<Finished>, g: seq<Finished>)
    ensures forall t, geometry | HasRecord(f, t, geometry) || HasRecord(g, t, geometry) :: HasRecord(f + g, t, geometry)
  {
    forall t, geometry | HasRecord(f, t, geometry) || HasRecord(g, t, geometry)
      ensures HasRecord(f + g, t, geometry)
    {
      if HasRecord(f, t, geometry) {
        var k :| 0 <= k < |f| && f[k].target == t && f[k].geometry == geometry;
        assert (f + g)[k] == f[k];
      } else {
        var k :| 0 <= k < |g| && g[k].target == t && g[k].geometry == geometry;
        assert (f + g)[|f| + k] == g[k];
      }
    }
  }

  lemma RecordedStill(a: seq<Slot>, b: seq<Slot>, c: seq<Slot>, f: seq<Finished>)
    requires Recorded(a, b, f) && Recorded(b, c, [])
    ensures Recorded(a, c, f)
  {
    RecordedTwice(a, b, c, f, []);
    assert f + [] == f;
  }

  lemma NothingNew(a: seq<Slot>)
    ensures Recorded(a, a, [])
  {
  }

  lemma RecordedMore(a: seq<Slot>, b: seq<Slot>, f: seq<Finished>, g: seq<Finished>)
    requires Recorded(a, b, f)
    ensures Recorded(a, b, f + g)
  {
    MoreRecords(f, g);
    forall i | 0 <= i < |b|
      ensures SlotRecorded(SlotAt(a, i), b[i], i, f + g)
    {
      assert SlotRecorded(SlotAt(a, i), b[i], i, f);
    }
  }

  /** What the last record says, when the others said the rest. */
  lemma LastRecorded(a: seq<Slot>, b: seq<Slot>, c: seq<Slot>, f: seq<Finished>)
    requires f != [] && Recorded(a, b, f) && Recorded(b, c, [f[|f| - 1]])
    ensures Recorded(a, c, f)
  {
    RecordedTwice(a, b, c, f, [f[|f| - 1]]);
    forall t, g | HasRecord(f + [f[|f| - 1]], t, g)
      ensures HasRecord(f, t, g)
    {
      var k :| 0 <= k < |f| + 1 && (f + [f[|f| - 1]])[k].target == t && (f + [f[|f| - 1]])[k].geometry == g;
      assert f[if k == |f| then k - 1 else k] == (f + [f[|f| - 1]])[k];
    }
    forall i | 0 <= i < |c|
      ensures SlotRecorded(SlotAt(a, i), c[i], i, f)
    {
      assert SlotRecorded(SlotAt(a, i), c[i], i, f + [f[|f| - 1]]);
    }
  }

  /** One slot has changed. */
  lemma SlotChanged(a: seq<Slot>, b: seq<Slot>, i: nat, f: seq<Finished>)
    requires i < |a| == |b| && b == a[i := b[i]] && SlotRecorded(a[i], b[i], i, f)
    ensures Recorded(a, b, f)
  {
  }

  lemma DroppedRecorded(s: State, id: nat, x: MeshInstance)
    requires IsLive(s, id)
    ensures Recorded(s.entries, Dropped(s, id, x).entries, [])
  {
    hide FirstIndex, SwapRemove, Recorded;
    if FirstIndex(At(s, id).instances, x) < |At(s, id).instances| {
      SlotChanged(s.entries, Dropped(s, id, x).entries, id, []);
    } else {
      NothingNew(s.entries);
    }
  }

  lemma DeletedRecorded(s: State, id: nat)
    requires IsLive(s, id) && At(s, id).totalAsked <= s.totalAsked
    ensures Recorded(s.entries, Deleted(s, id).entries, [])
  {
    SlotChanged(s.entries, Deleted(s, id).entries, id, []);
  }

  lemma AddedRecorded(s: State, name: string, hls: bool, x: MeshInstance)
    requires Inv(s)
    ensures Recorded(s.entries, Added(s, name, hls, x).entries, [])
  {
    var t := Added(s, name, hls, x).entries;
    if name in s.entryMap {
      SlotChanged(s.entries, t, s.entryMap[name], []);
    } else {
      var id := NewId(s);
      assert s.freeIds != [] ==> id in s.freeIds;
      hide Inv, FreeListOk;
      if id < |s.entries| {
        SlotChanged(s.entries, t, id, []);
      }
    }
  }

  lemma LoadEndedRecorded(s: State, target: Target, g: Geometry)
    requires Inv(s) && target in s.pending
    ensures Recorded(s.entries, LoadEnded(s, target, g).entries, [])
  {
    var e := At(s, target.id);
    assert if target.Base? then !e.upLoaded else !e.lod.upLoaded;
    var t := LoadEnded(s, target, g).entries;
    hide Inv;
    SlotChanged(s.entries, t, target.id, []);
  }

  lemma PickedRecorded(s: State, k: nat, g: Geometry)
    requires Inv(s) && k < |s.waiting| && IsLive(s, s.waiting[k])
    ensures Recorded(s.entries, Picked(s, k, g).entries, [])
  {
    var id := s.waiting[k];
    assert id in s.waiting && !At(s, id).upLoaded;
    hide Inv;
    if At(s, id).fromHLS {
      SlotChanged(s.entries, Picked(s, k, g).entries, id, []);
    } else {
      NothingNew(s.entries);
    }
  }

  lemma LodMovedRecorded(s: State, id: nat)
    requires IsLive(s, id)
    ensures Recorded(s.entries, LodLoadStarted(s, id).entries, [])
    ensures Recorded(s.entries, LodUnloaded(s, id).entries, [])
  {
    SlotChanged(s.entries, LodLoadStarted(s, id).entries, id, []);
    SlotChanged(s.entries, LodUnloaded(s, id).entries, id, []);
  }

  /** The end of an upload, when it has been recorded. */
  lemma UploadRecorded(s: State, f: Finished, baseLevel: nat, maxLevel: nat)
    requires Inv(s) && s.current == Some(f.target) && IsLive(s, f.target.id)
    requires f.geometry == if f.target.Base? then At(s, f.target.id).geometry else At(s, f.target.id).lod.geometry
    ensures f.target.Base? ==> Recorded(s.entries, BaseUploaded(s, baseLevel, maxLevel).entries, [f])
    ensures f.target.HighDef? ==> Recorded(s.entries, LodUploaded(s).entries, [f])
  {
    assert [f][0] == f && HasRecord([f], f.target, f.geometry);
    var id := f.target.id;
    assert f.target.Base? ==> !At(s, id).upLoaded && !At(s, id).lod.upLoaded;
    hide Inv, HasRecord;
    if f.target.Base? {
      SlotChanged(s.entries, BaseUploaded(s, baseLevel, maxLevel).entries, id, [f]);
    } else {
      SlotChanged(s.entries, LodUploaded(s).entries, id, [f]);
    }
  }
}
