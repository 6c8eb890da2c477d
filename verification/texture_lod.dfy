/**
 * The load/unload decision of `CAsyncTextureManager::updateTextureLodSystem`.
 *
 * The array holds the high definition LODs in increasing order of weight (the most important last).
 */
module TextureLodPolicy {
  import opened Wrappers

  /** A LOD as the policy sees it: its extra size in VRAM, and whether it is uploaded. */
  datatype Lod = Lod(size: nat, up: bool)

  ghost function SizeFrom(lods: seq<Lod>, i: nat): nat
    requires i <= |lods|
    decreases |lods| - i
  {
    if i == |lods| then 0 else lods[i].size + SizeFrom(lods, i + 1)
  }

  ghost function LoadedFrom(lods: seq<Lod>, i: nat): nat
    requires i <= |lods|
    decreases |lods| - i
  {
    if i == |lods| then 0 else (if lods[i].up then lods[i].size else 0) + LoadedFrom(lods, i + 1)
  }

  /**
   * The pivot is the most important LOD whose suffix no longer fits, and `over` says that there is
   * one; when everything fits the pivot is 0.
   */
  ghost predicate IsPivot(lods: seq<Lod>, base: nat, budget: nat, pivot: nat, over: bool) {
    if over then
      && pivot < |lods|
      && base + SizeFrom(lods, pivot) > budget
      && (pivot + 1 < |lods| ==> base + SizeFrom(lods, pivot + 1) <= budget)
    else
      pivot == 0 && (lods != [] ==> base + SizeFrom(lods, 0) <= budget)
  }

  /** `currentLoadedSize` as it is computed: an uploaded pivot that stopped the scan counts twice. */
  ghost function CountedSize(lods: seq<Lod>, base: nat, pivot: nat, over: bool): nat
    requires over ==> pivot < |lods|
  {
    base + LoadedFrom(lods, 0) + (if over && lods[pivot].up then lods[pivot].size else 0)
  }

  /** The decision taken for a given pivot. */
  ghost predicate IsDecision(lods: seq<Lod>, base: nat, pivot: nat, over: bool, choice: Option<nat>)
    requires pivot <= |lods| && (over ==> pivot < |lods|)
  {
    if CountedSize(lods, base, pivot, over) < base + SizeFrom(lods, pivot) then
      && choice.Some? && pivot <= choice.value < |lods| && !lods[choice.value].up
      && (forall j | choice.value < j < |lods| :: lods[j].up)
    else if choice.Some? then
      && choice.value < pivot && lods[choice.value].up
      && (forall j | 0 <= j < choice.value :: !lods[j].up)
    else
      forall j | 0 <= j < pivot :: !lods[j].up
  }

  /**
   * Computes the pivot and chooses the LOD to load (`unload` false) or to unload. The assertion that
   * a LOD to load is always found is part of the result.
   */
  method ChooseLod(lods: seq<Lod>, base: nat, budget: nat)
    returns (pivot: nat, ghost over: bool, lastSizeGot: nat, choice: Option<nat>, unload: bool)
    ensures IsPivot(lods, base, budget, pivot, over)
    ensures lastSizeGot == CountedSize(lods, base, pivot, over)
    ensures pivot <= |lods| && IsDecision(lods, base, pivot, over, choice)
    ensures unload <==> lastSizeGot >= base + SizeFrom(lods, pivot)
    ensures !unload ==> choice.Some?
    ensures choice.Some? ==> choice.value < |lods| && lods[choice.value].up == unload
  {
    pivot, over := 0, false;
    var wanted, loaded := base, base;
    var i := |lods| - 1;
    while i >= 0
      invariant -1 <= i < |lods|
      invariant !over && pivot == 0
      invariant wanted == base + SizeFrom(lods, i + 1)
      invariant loaded == base + LoadedFrom(lods, i + 1)
      invariant i + 1 < |lods| ==> wanted <= budget
    {
      wanted := wanted + lods[i].size;
      if lods[i].up {
        loaded := loaded + lods[i].size;
      }
      if wanted > budget {
        pivot, over := i, true;
        break;
      }
      i := i - 1;
    }
    // Continue to count from where the scan stopped, the pivot included.
    ghost var counted := if over && lods[pivot].up then lods[pivot].size else 0;
    while i >= 0
      invariant -1 <= i < |lods|
      invariant over ==> i <= pivot
      invariant loaded == base + LoadedFrom(lods, i + 1) + counted
      decreases i
    {
      if lods[i].up {
        loaded := loaded + lods[i].size;
      }
      i := i - 1;
    }
    lastSizeGot := loaded;

    choice := None;
    if loaded < wanted {
      unload := false;
      i := |lods| - 1;
      while i >= pivot
        invariant pivot - 1 <= i < |lods|
        invariant forall j | i < j < |lods| :: lods[j].up
        decreases i
      {
        if !lods[i].up {
          choice := Some(i);
          return;
        }
        i := i - 1;
      }
      // All of the wanted LODs would be loaded: their sizes would already be counted.
      AllLoaded(lods, pivot, 0);
      assert false;
    } else {
      unload := true;
      i := 0;
      while i < pivot
        invariant 0 <= i <= pivot
        invariant forall j | 0 <= j < i :: !lods[j].up
      {
        if lods[i].up {
          choice := Some(i);
          return;
        }
        i := i + 1;
      }
    }
  }

  lemma {:induction false} AllLoaded(lods: seq<Lod>, pivot: nat, i: nat)
    requires i <= |lods| && pivot <= |lods|
    requires forall j | pivot <= j < |lods| :: lods[j].up
    ensures LoadedFrom(lods, i) >= SizeFrom(lods, if i < pivot then pivot else i)
    decreases |lods| - i
  {
    if i < |lods| {
      AllLoaded(lods, pivot, i + 1);
    }
  }

  /** The pivot is determined by the sizes alone. */
  lemma PivotUnique(lods: seq<Lod>, base: nat, budget: nat, p: nat, po: bool, q: nat, qo: bool)
    requires IsPivot(lods, base, budget, p, po) && IsPivot(lods, base, budget, q, qo)
    ensures p == q && po == qo
  {
    SizeFromMonotone(lods, 0, p);
    SizeFromMonotone(lods, 0, q);
    if p + 1 <= q { SizeFromMonotone(lods, p + 1, q); }
    if q + 1 <= p { SizeFromMonotone(lods, q + 1, p); }
  }

  lemma {:induction false} SizeFromMonotone(lods: seq<Lod>, i: nat, j: nat)
    requires i <= j <= |lods|
    ensures SizeFrom(lods, i) >= SizeFrom(lods, j)
    decreases j - i
  {
    if i < j {
      SizeFromMonotone(lods, i + 1, j);
    }
  }

  // ---- Where the policy stops ----

  ghost function Missing(lods: seq<Lod>, i: nat): nat
    requires i <= |lods|
    decreases |lods| - i
  {
    if i == |lods| then 0 else (if lods[i].up then 0 else lods[i].size) + Missing(lods, i + 1)
  }

  lemma {:induction false} MissingIs(lods: seq<Lod>, i: nat)
    requires i <= |lods|
    ensures LoadedFrom(lods, i) + Missing(lods, i) == SizeFrom(lods, i)
    decreases |lods| - i
  {
    if i < |lods| {
      MissingIs(lods, i + 1);
    }
  }

  lemma {:induction false} LoadedBelow(lods: seq<Lod>, pivot: nat, i: nat)
    requires i <= pivot <= |lods|
    requires forall j | i <= j < pivot :: !lods[j].up
    ensures LoadedFrom(lods, i) == LoadedFrom(lods, pivot)
    decreases pivot - i
  {
    if i < pivot {
      LoadedBelow(lods, pivot, i + 1);
    }
  }

  /**
   * Exactly when the policy does nothing: no unwanted LOD is uploaded, and the wanted LODs still
   * missing weigh no more than the pivot, if the pivot is uploaded and stopped the scan.
   */
  lemma StopsExactly(lods: seq<Lod>, base: nat, budget: nat, pivot: nat, over: bool)
    requires IsPivot(lods, base, budget, pivot, over)
    ensures pivot <= |lods|
    ensures IsDecision(lods, base, pivot, over, None) <==>
              && (forall j | 0 <= j < pivot :: !lods[j].up)
              && Missing(lods, pivot) <= (if over && lods[pivot].up then lods[pivot].size else 0)
  {
    if forall j | 0 <= j < pivot :: !lods[j].up {
      LoadedBelow(lods, pivot, 0);
      MissingIs(lods, pivot);
    }
  }

  /** When the policy stops, the LODs loaded pass the budget by at most the pivot's size. */
  lemma BudgetKept(lods: seq<Lod>, base: nat, budget: nat, pivot: nat, over: bool)
    requires IsPivot(lods, base, budget, pivot, over) && pivot <= |lods|
    requires IsDecision(lods, base, pivot, over, None) && base <= budget
    ensures base + LoadedFrom(lods, 0) <= budget + (if over then lods[pivot].size else 0)
  {
    LoadedBelow(lods, pivot, 0);
    MissingIs(lods, pivot);
  }

  // ---- The sort by weight ----

  /** A LOD entry to sort: the slot of its texture, and its weight. */
  datatype LodToSort = LodToSort(id: nat, weight: real)

  ghost predicate SortedByWeight(s: seq<LodToSort>) {
    forall i, j | 0 <= i < j < |s| :: s[i].weight <= s[j].weight
  }

  ghost predicate DistinctWeights(s: seq<LodToSort>) {
    forall i, j | 0 <= i < j < |s| :: s[i].weight != s[j].weight
  }

  ghost predicate DistinctIds(s: seq<LodToSort>) {
    forall i, j | 0 <= i < j < |s| :: s[i].id != s[j].id
  }

  /** Stands for `std::sort`: all that callers may use is that the result is a sorted permutation. */
  function SortByWeight(s: seq<LodToSort>): (r: seq<LodToSort>)
    ensures SortedByWeight(r) && multiset(r) == multiset(s)
    ensures forall e :: e in r <==> e in s
  {
    if s == [] then []
    else
      assert s == [s[0]] + s[1..];
      Insert(SortByWeight(s[1..]), s[0])
  }

  function Insert(s: seq<LodToSort>, x: LodToSort): (r: seq<LodToSort>)
    requires SortedByWeight(s)
    ensures SortedByWeight(r) && multiset(r) == multiset(s) + multiset{x}
    ensures forall e :: e in r <==> e in s || e == x
  {
    if s == [] || x.weight <= s[0].weight then [x] + s
    else
      assert s == [s[0]] + s[1..];
      var t := Insert(s[1..], x);
      HeadStaysLightest(s, x, t);
      [s[0]] + t
  }

  lemma {:induction false} SortKeepsIds(s: seq<LodToSort>)
    requires DistinctIds(s)
    ensures DistinctIds(SortByWeight(s))
  {
    if s != [] {
      SortKeepsIds(s[1..]);
      forall e | e in SortByWeight(s[1..])
        ensures e.id != s[0].id
      {
        var k :| 0 <= k < |s[1..]| && s[1..][k] == e;
        assert s[k + 1] == e;
      }
      InsertKeepsIds(SortByWeight(s[1..]), s[0]);
    }
  }

  lemma {:induction false} InsertKeepsIds(s: seq<LodToSort>, x: LodToSort)
    requires SortedByWeight(s) && DistinctIds(s) && forall e | e in s :: e.id != x.id
    ensures DistinctIds(Insert(s, x))
  {
    if s != [] && !(x.weight <= s[0].weight) {
      var t := Insert(s[1..], x);
      InsertKeepsIds(s[1..], x);
      forall j | 0 <= j < |t|
        ensures t[j].id != s[0].id
      {
        assert t[j] in t;
        if t[j] != x {
          var k :| 0 <= k < |s[1..]| && s[1..][k] == t[j];
          assert s[k + 1] == t[j];
        }
      }
    }
  }

  lemma HeadStaysLightest(s: seq<LodToSort>, x: LodToSort, t: seq<LodToSort>)
    requires SortedByWeight(s) && s != [] && s[0].weight <= x.weight
    requires SortedByWeight(t) && multiset(t) == multiset(s[1..]) + multiset{x}
    ensures SortedByWeight([s[0]] + t)
  {
    forall j | 0 <= j < |t|
      ensures s[0].weight <= t[j].weight
    {
      assert t[j] in multiset(t);
      assert t[j] == x || t[j] in s[1..];
    }
  }

  /** With distinct weights the sorted order, and so the pivot, does not depend on the sort used. */
  lemma {:induction false} OrderUnique(a: seq<LodToSort>, b: seq<LodToSort>)
    requires SortedByWeight(a) && SortedByWeight(b) && multiset(a) == multiset(b)
    requires DistinctWeights(a)
    ensures a == b
  {
    hide SortedByWeight, DistinctWeights;
    assert |a| == |multiset(a)| == |multiset(b)| == |b|;
    if a != [] {
      SameLightest(a, b);
      TailMultiset(a);
      TailMultiset(b);
      OrderUnique(a[1..], b[1..]);
      assert a == [a[0]] + a[1..] && b == [b[0]] + b[1..];
    }
  }

  lemma TailMultiset(s: seq<LodToSort>)
    requires s != []
    ensures multiset(s[1..]) == multiset(s) - multiset{s[0]}
    ensures SortedByWeight(s) ==> SortedByWeight(s[1..])
    ensures DistinctWeights(s) ==> DistinctWeights(s[1..])
  {
    assert s == [s[0]] + s[1..];
  }

  lemma SameLightest(a: seq<LodToSort>, b: seq<LodToSort>)
    requires SortedByWeight(a) && SortedByWeight(b) && multiset(a) == multiset(b)
    requires a != [] && |a| == |b|
    requires DistinctWeights(a)
    ensures a[0] == b[0]
  {
    assert a[0] in multiset(b) && b[0] in multiset(a);
    var i :| 0 <= i < |a| && a[i] == b[0];
    var j :| 0 <= j < |b| && b[j] == a[0];
    assert a[0].weight <= a[i].weight == b[0].weight <= b[j].weight == a[0].weight;
  }
}
