/**
 * `CAnimation` and `CAnimationSet`: the tables built from the track names of all the animations, and
 * the headers compressed against them.
 */
module AnimationSets {
  import opened AnimationHeaders
  import opened Wrappers

  // ---- std::set<std::string>, as an increasing sequence ----

  predicate Less(a: string, b: string) {
    if b == [] then false
    else a == [] || a[0] < b[0] || (a[0] == b[0] && Less(a[1..], b[1..]))
  }

  /** After a common start of k characters, a ends or has the smaller character. */
  ghost predicate SmallerAt(a: string, b: string, k: nat) {
    && k <= |a| && k < |b| && a[..k] == b[..k]
    && (k == |a| || a[k] < b[k])
  }

  /** The order of the names is lexicographic. */
  lemma {:induction false} LessMeans(a: string, b: string)
    ensures Less(a, b) <==> exists k :: SmallerAt(a, b, k)
  {
    if a == [] {
      assert b != [] ==> SmallerAt(a, b, 0);
    } else if b != [] {
      if a[0] == b[0] {
        LessMeans(a[1..], b[1..]);
        if k: nat :| SmallerAt(a[1..], b[1..], k) {
          assert a[..k + 1] == [a[0]] + a[1..][..k] && b[..k + 1] == [b[0]] + b[1..][..k];
          assert SmallerAt(a, b, k + 1);
        }
        if k: nat :| SmallerAt(a, b, k) {
          assert k > 0;
          assert a[1..][..k - 1] == a[..k][1..] && b[1..][..k - 1] == b[..k][1..];
          assert SmallerAt(a[1..], b[1..], k - 1);
        }
      } else {
        assert a[0] < b[0] ==> SmallerAt(a, b, 0);
        assert forall k: nat | k > 0 && k <= |a| && k < |b| :: a[..k][0] == a[0] && b[..k][0] == b[0];
      }
    }
  }

  lemma {:induction false} LessTransitive(a: string, b: string, c: string)
    requires Less(a, b) && Less(b, c)
    ensures Less(a, c)
  {
    if a != [] && a[0] == b[0] == c[0] {
      LessTransitive(a[1..], b[1..], c[1..]);
    }
  }

  lemma {:induction false} LessTotal(a: string, b: string)
    ensures a == b || Less(a, b) || Less(b, a)
  {
    if a != [] && b != [] && a[0] == b[0] {
      LessTotal(a[1..], b[1..]);
      assert a == [a[0]] + a[1..] && b == [b[0]] + b[1..];
    }
  }

  lemma {:induction false} LessIrreflexive(a: string)
    ensures !Less(a, a)
  {
    if a != [] {
      LessIrreflexive(a[1..]);
    }
  }

  ghost predicate Increasing(names: seq<string>) {
    forall i, j | 0 <= i < j < |names| :: Less(names[i], names[j])
  }

  method InsertName(names: seq<string>, n: string) returns (r: seq<string>)
    requires Increasing(names)
    ensures Increasing(r) && forall m :: m in r <==> m in names || m == n
  {
    var k := 0;
    while k < |names| && Less(names[k], n)
      invariant k <= |names|
      invariant forall i | 0 <= i < k :: Less(names[i], n)
    {
      k := k + 1;
    }
    if k < |names| && names[k] == n {
      return names;
    }
    r := names[..k] + [n] + names[k..];
    assert names == names[..k] + names[k..];
    forall j | k <= j < |names|
      ensures Less(n, names[j])
    {
      LessTotal(n, names[k]);
      if j > k {
        LessTransitive(n, names[k], names[j]);
      }
    }
  }

  lemma IncreasingIsDistinct(names: seq<string>, i: nat, j: nat)
    requires Increasing(names) && i < |names| && j < |names| && names[i] == names[j]
    ensures i == j
  {
    LessIrreflexive(names[i]);
  }

  // ---- std::sort on the channel ids ----

  datatype TempTrackInfo = TempTrackInfo(channelId: nat, track: Track)

  ghost predicate Permutation(place: seq<nat>) {
    && (forall i | 0 <= i < |place| :: place[i] < |place|)
    && (forall i, j | 0 <= i < j < |place| :: place[i] != place[j])
    && (forall k | 0 <= k < |place| :: k in place)
  }

  ghost predicate SortedById(a: seq<TempTrackInfo>) {
    forall i, j | 0 <= i < j < |a| :: a[i].channelId <= a[j].channelId
  }

  ghost predicate Rearranged(a: seq<TempTrackInfo>, from: seq<TempTrackInfo>, place: seq<nat>) {
    |a| == |place| <= |from| && forall i | 0 <= i < |a| :: place[i] < |from| && a[i] == from[place[i]]
  }

  method SortByChannelId(from: seq<TempTrackInfo>) returns (a: seq<TempTrackInfo>, ghost place: seq<nat>)
    ensures SortedById(a) && Rearranged(a, from, place) && |a| == |from| && Permutation(place)
  {
    a, place := [], [];
    for k := 0 to |from|
      invariant SortedById(a) && Rearranged(a, from, place) && |a| == k && Permutation(place)
    {
      var p := 0;
      while p < |a| && a[p].channelId <= from[k].channelId
        invariant p <= |a|
        invariant forall i | 0 <= i < p :: a[i].channelId <= from[k].channelId
      {
        p := p + 1;
      }
      InsertedInOrder(a, from, place, p, k);
      PermutationGrows(place, p);
      hide SortedById, Rearranged, Permutation;
      a := a[..p] + [from[k]] + a[p..];
      place := place[..p] + [k] + place[p..];
    }
  }

  lemma InsertedInOrder(a: seq<TempTrackInfo>, from: seq<TempTrackInfo>, place: seq<nat>, p: nat, k: nat)
    requires SortedById(a) && Rearranged(a, from, place) && p <= |a| && k < |from| && |a| < |from|
    requires forall i | 0 <= i < p :: a[i].channelId <= from[k].channelId
    requires p < |a| ==> from[k].channelId <= a[p].channelId
    ensures SortedById(a[..p] + [from[k]] + a[p..])
    ensures Rearranged(a[..p] + [from[k]] + a[p..], from, place[..p] + [k] + place[p..])
  {
  }

  lemma PermutationGrows(place: seq<nat>, p: nat)
    requires Permutation(place) && p <= |place|
    ensures Permutation(place[..p] + [|place|] + place[p..])
  {
    var q := place[..p] + [|place|] + place[p..];
    forall k | 0 <= k < |q|
      ensures k in q
    {
      if k < |place| {
        assert k in place;
        var i :| 0 <= i < |place| && place[i] == k;
        assert q[if i < p then i else i + 1] == k;
      } else {
        assert q[p] == k;
      }
    }
  }

  /** One of the first n ids is that of the channel. */
  ghost predicate IsChannelName(ids: seq<nat>, channelName: seq<string>, n: nat, name: string)
    requires n <= |ids|
  {
    exists k :: 0 <= k < n && ids[k] < |channelName| && channelName[ids[k]] == name
  }

  // ---- A new track ----

  lemma NamesAdded(b: Header, a: Header, name: string)
    requires Plain(b) && |a.tracks| == |b.tracks| + 1
    requires a.idByName == if name in b.idByName then b.idByName else b.idByName[name := |b.tracks|]
    ensures AllNamed(a) <==> AllNamed(b) && name !in b.idByName
  {
    var last := |b.tracks|;
    if name !in b.idByName {
      assert a.idByName[name] == last;
    }
    forall k | 0 <= k < last
      ensures HasName(a, k) <==> HasName(b, k)
    {
      if HasName(b, k) {
        var n :| n in b.idByName && b.idByName[n] == k;
        assert n in a.idByName && a.idByName[n] == k;
      }
    }
    assert HasName(a, last) <==> name !in b.idByName;
  }

  // ---- The classes ----

  class Animation {
    var idByName: map<string, nat>
    var trackVector: seq<Track>
    var idByChannelId: seq<nat>
    var animationSetOwner: AnimationSet?

    constructor ()
      ensures Value() == Header(map[], [], []) && animationSetOwner == null
    {
      idByName, trackVector, idByChannelId, animationSetOwner := map[], [], [], null;
    }

    ghost function Value(): Header
      reads this
    {
      Header(idByName, trackVector, idByChannelId)
    }

    /** A second track under one name is kept, but cannot be found by it. */
    method AddTrack(name: string, track: Track)
      requires idByChannelId == []
      modifies this`idByName, this`trackVector
      ensures trackVector == old(trackVector) + [track]
      ensures idByName == if name in old(idByName) then old(idByName) else old(idByName)[name := |old(trackVector)|]
      ensures old(Plain(Value())) ==> Plain(Value())
      ensures old(Plain(Value())) ==> (AllNamed(Value()) <==> old(AllNamed(Value())) && name !in old(idByName))
    {
      ghost var before := Value();
      if name !in idByName {
        idByName := idByName[name := |trackVector|];
      }
      trackVector := trackVector + [track];
      if Plain(before) {
        NamesAdded(before, Value(), name);
      }
    }

    method GetIdTrackByChannelId(channelId: nat) returns (r: Option<nat>)
      requires Sorted(idByChannelId)
      ensures r == IdByChannelId(Value(), channelId)
    {
      if idByChannelId == [] {
        return None;
      }
      var trackId := SearchLowerBound(idByChannelId, channelId);
      return if idByChannelId[trackId] == channelId then Some(trackId) else None;
    }

    method GetIdTrackByName(name: string) returns (r: Option<nat>)
      requires Sorted(idByChannelId)
      requires idByChannelId != [] ==> animationSetOwner != null
      ensures r == IdByName(Value(), if animationSetOwner == null then map[] else animationSetOwner.channelIdByName, name)
    {
      if idByChannelId == [] {
        return if name in idByName then Some(idByName[name]) else None;
      }
      var channels := animationSetOwner.channelIdByName;
      if name !in channels {
        return None;
      }
      r := GetIdTrackByChannelId(Truncated(channels[name]));
    }

    /** The names of the channels of the set that compressed the header, none before. */
    ghost function ChannelNames(): seq<string>
      reads this, animationSetOwner
    {
      if animationSetOwner == null then [] else animationSetOwner.channelName
    }

    /** Adds the track names: those of the animation, or those of its channels once it is compressed. */
    method GetTrackNames(names: seq<string>) returns (r: seq<string>)
      requires Increasing(names)
      requires forall id | id in idByChannelId :: id < |ChannelNames()|
      ensures Increasing(r) && forall n :: n in r <==> n in names || n in TrackNames(Value(), ChannelNames())
    {
      r := names;
      if idByChannelId != [] {
        for i := 0 to |idByChannelId|
          invariant Increasing(r)
          invariant forall n :: n in r <==> n in names || IsChannelName(idByChannelId, ChannelNames(), i, n)
        {
          assert idByChannelId[i] in idByChannelId;
          r := InsertName(r, animationSetOwner.channelName[idByChannelId[i]]);
        }
        assert forall n :: n in TrackNames(Value(), ChannelNames())
                      <==> IsChannelName(idByChannelId, ChannelNames(), |idByChannelId|, n);
        return;
      }
      var left := idByName.Keys;
      while left != {}
        invariant left <= idByName.Keys
        invariant Increasing(r) && forall n :: n in r <==> n in names || (n in idByName && n !in left)
        decreases left
      {
        var n :| n in left;
        r := InsertName(r, n);
        left := left - {n};
      }
    }

    /** Replaces the names by the sorted array of channel ids. */
    method ApplyAnimHeaderCompression(owner: AnimationSet, channelMap: ChannelMap) returns (ghost place: seq<nat>)
      requires Plain(Value()) && Covers(channelMap, Value())
      modifies this
      ensures animationSetOwner == owner
      ensures Compressed(old(Value()), channelMap, Value(), place)
    {
      ghost var before := Value();
      var info := seq(|trackVector|, i requires 0 <= i < |trackVector| reads this => TempTrackInfo(0, trackVector[i]));
      var left := idByName.Keys;
      while left != {}
        invariant Value() == before && Filed(before, channelMap, info, left)
        decreases left
      {
        var n :| n in left;
        FiledNext(before, channelMap, info, left, n);
        hide Filed;
        info := info[idByName[n] := TempTrackInfo(Truncated(channelMap[n]), info[idByName[n]].track)];
        left := left - {n};
      }
      var sorted;
      sorted, place := SortByChannelId(info);
      trackVector := seq(|sorted|, i requires 0 <= i < |sorted| => sorted[i].track);
      idByChannelId := seq(|sorted|, i requires 0 <= i < |sorted| => sorted[i].channelId);
      idByName := map[];
      animationSetOwner := owner;
      SortedIsCompressed(before, channelMap, info, sorted, place, Value());
    }
  }

  // ---- Filing the tracks under their channel ids ----

  /** Each track has the truncated id of its name, except those with a name left, and zero without a name. */
  ghost predicate Filed(b: Header, channels: ChannelMap, info: seq<TempTrackInfo>, left: set<string>) {
    && Plain(b) && Covers(channels, b) && left <= b.idByName.Keys && |info| == |b.tracks|
    && (forall i | 0 <= i < |info| :: info[i].track == b.tracks[i])
    && (forall n | n in b.idByName && n !in left :: info[b.idByName[n]].channelId == Truncated(channels[n]))
    && (forall k | 0 <= k < |info| && !HasName(b, k) :: info[k].channelId == 0)
  }

  lemma FiledNext(b: Header, channels: ChannelMap, info: seq<TempTrackInfo>, left: set<string>, n: string)
    requires Filed(b, channels, info, left) && n in left
    ensures n in b.idByName && n in channels && b.idByName[n] < |info|
    ensures Filed(b, channels, info[b.idByName[n] := TempTrackInfo(Truncated(channels[n]), info[b.idByName[n]].track)],
                  left - {n})
  {
    assert HasName(b, b.idByName[n]);
  }

  lemma SortedIsCompressed(b: Header, channels: ChannelMap, info: seq<TempTrackInfo>, sorted: seq<TempTrackInfo>,
                           place: seq<nat>, a: Header)
    requires Filed(b, channels, info, {})
    requires SortedById(sorted) && Rearranged(sorted, info, place) && |sorted| == |info| && Permutation(place)
    requires a.idByName == map[] && |a.tracks| == |a.idByChannelId| == |sorted|
    requires forall i | 0 <= i < |sorted| :: a.tracks[i] == sorted[i].track && a.idByChannelId[i] == sorted[i].channelId
    ensures Compressed(b, channels, a, place)
  {
  }

  /** The first k names are numbered in order. */
  ghost predicate Numbered(channels: ChannelMap, names: seq<string>, k: nat) {
    && |channels| == k <= |names|
    && (forall i | 0 <= i < k :: names[i] in channels && channels[names[i]] == i)
    && (forall n | n in channels :: channels[n] < k && names[channels[n]] == n)
  }

  class AnimationSet {
    var animations: seq<Animation>
    var animationName: seq<string>
    var animationIdByName: map<string, nat>
    var channelName: seq<string>
    var channelIdByName: ChannelMap
    var built: bool
    const animHeaderOptimisation: bool

    constructor (headerOptim: bool)
      ensures animHeaderOptimisation == headerOptim && animations == [] && !built
      ensures Inverse(channelIdByName, channelName)
    {
      animHeaderOptimisation := headerOptim;
      animations, animationName, animationIdByName := [], [], map[];
      channelName, channelIdByName, built := [], map[], false;
    }

    /** A set with compressed headers is closed once built. */
    method AddAnimation(name: string, animation: Animation) returns (id: nat)
      requires !(built && animHeaderOptimisation) && |animations| == |animationName|
      modifies this`animations, this`animationName, this`animationIdByName
      ensures id == |old(animations)| && animations == old(animations) + [animation]
      ensures animationName == old(animationName) + [name]
      ensures animationIdByName ==
        if name in old(animationIdByName) then old(animationIdByName) else old(animationIdByName)[name := id]
    {
      animations := animations + [animation];
      animationName := animationName + [name];
      if name !in animationIdByName {
        animationIdByName := animationIdByName[name := |animations| - 1];
      }
      return |animations| - 1;
    }

    /** The channel table is read backwards: the id found is where the table has the name. */
    method GetChannelIdByName(name: string) returns (r: Option<nat>)
      ensures Inverse(channelIdByName, channelName) ==>
                match r
                case Some(id) => id < |channelName| && channelName[id] == name
                case None => name !in channelName
      ensures r == if name in channelIdByName then Some(channelIdByName[name]) else None
    {
      return if name in channelIdByName then Some(channelIdByName[name]) else None;
    }

    /** Inverts the map. */
    method BuildChannelNameFromMap(ghost names: seq<string>)
      requires Numbered(channelIdByName, names, |names|)
      modifies this`channelName
      ensures channelName == names
    {
      channelName := seq(|channelIdByName|, _ => "");
      var left := channelIdByName.Keys;
      while left != {}
        invariant left <= channelIdByName.Keys && |channelName| == |names|
        invariant forall i | 0 <= i < |names| && names[i] !in left :: channelName[i] == names[i]
        decreases left
      {
        var n :| n in left;
        assert names[channelIdByName[n]] == n;
        channelName := channelName[channelIdByName[n] := n];
        left := left - {n};
      }
      assert forall i | 0 <= i < |names| :: names[i] !in left;
    }

    /**
     * The animations are not compressed yet, and none will be twice: with header optimisation an
     * animation with tracks is in the set once.
     */
    ghost predicate Ready()
      reads this`animations, animations
    {
      && (forall i | 0 <= i < |animations| :: animations[i].idByChannelId == [])
      && (animHeaderOptimisation ==>
            && (forall i | 0 <= i < |animations| :: Plain(animations[i].Value()))
            && (forall i, j | 0 <= i < j < |animations| ::
                  animations[i] != animations[j] || animations[i].trackVector == []))
    }

    /** A track of some animation has this name. */
    ghost predicate Used(n: string)
      reads this`animations, animations
    {
      exists i :: 0 <= i < |animations| && n in animations[i].idByName
    }

    ghost predicate TablesOk()
      reads this
    {
      && Inverse(channelIdByName, channelName) && Increasing(channelName)
    }

    method CollectNames() returns (names: seq<string>)
      requires Ready()
      ensures Increasing(names) && forall n :: n in names <==> Used(n)
    {
      names := [];
      for a := 0 to |animations|
        invariant Increasing(names)
        invariant forall n :: n in names <==> exists i :: 0 <= i < a && n in animations[i].idByName
      {
        names := animations[a].GetTrackNames(names);
      }
    }

    /** Numbers the names in order. */
    method NumberNames(names: seq<string>)
      requires Increasing(names)
      modifies this`channelName, this`channelIdByName
      ensures channelName == names && Inverse(channelIdByName, names)
    {
      channelIdByName := map[];
      for id := 0 to |names|
        invariant Numbered(channelIdByName, names, id)
      {
        forall i | 0 <= i < id
          ensures names[i] != names[id]
        {
          if names[i] == names[id] {
            IncreasingIsDistinct(names, i, id);
          }
        }
        channelIdByName := channelIdByName[names[id] := id];
      }
      BuildChannelNameFromMap(names);
    }

    /** Channel ids in the order of the track names of all the animations. */
    method BuildTables()
      requires Ready()
      modifies this`channelName, this`channelIdByName
      ensures TablesOk()
      ensures forall n :: n in channelIdByName <==> Used(n)
    {
      var names := CollectNames();
      NumberNames(names);
      hide Less;
    }

    method CompressAll()
      requires Ready() && animHeaderOptimisation && forall n :: Used(n) ==> n in channelIdByName
      modifies animations
      ensures forall i | 0 <= i < |animations| ::
                animations[i].animationSetOwner == this
                && CompressedFrom(old(animations[i].Value()), channelIdByName, animations[i].Value())
    {
      forall a, n | 0 <= a < |animations| && n in animations[a].idByName
        ensures n in channelIdByName
      {
        assert Used(n);
      }
      hide Compressed;
      for a := 0 to |animations|
        invariant forall i | a <= i < |animations| :: animations[i].Value() == old(animations[i].Value())
        invariant forall i | 0 <= i < a ::
                    animations[i].animationSetOwner == this
                    && CompressedFrom(old(animations[i].Value()), channelIdByName, animations[i].Value())
      {
        ghost var before := animations[a].Value();
        ghost var place := animations[a].ApplyAnimHeaderCompression(this, channelIdByName);
        if before.tracks == [] {
          EmptyStaysEmpty(before, channelIdByName, animations[a].Value(), place);
        }
        assert CompressedFrom(old(animations[a].Value()), channelIdByName, animations[a].Value());
      }
    }

    /**
     * Builds the channel tables; with header optimisation, compresses every animation, once for all.
     * With at most 65536 channels, every name then finds the track it found.
     */
    method Build()
      requires (built && animHeaderOptimisation) || Ready()
      modifies this`built, this`channelName, this`channelIdByName, animations
      ensures built
      ensures old(built) && animHeaderOptimisation ==>
                channelName == old(channelName) && channelIdByName == old(channelIdByName)
                && forall i | 0 <= i < |animations| :: animations[i].Value() == old(animations[i].Value())
      ensures !(old(built) && animHeaderOptimisation) ==>
                TablesOk() && forall n :: n in channelIdByName <==> old(Used(n))
      ensures !animHeaderOptimisation ==>
                forall i | 0 <= i < |animations| :: animations[i].Value() == old(animations[i].Value())
      ensures !old(built) && animHeaderOptimisation ==>
                forall i | 0 <= i < |animations| ::
                  animations[i].animationSetOwner == this
                  && CompressedFrom(old(animations[i].Value()), channelIdByName, animations[i].Value())
    {
      if built && animHeaderOptimisation {
        return;
      }
      built := true;
      BuildTables();
      if animHeaderOptimisation {
        hide CompressedFrom, Plain, Inverse, Increasing;
        CompressAll();
      }
    }
  }

  lemma EmptyStaysEmpty(b: Header, channels: ChannelMap, a: Header, place: seq<nat>)
    requires Plain(b) && b.tracks == [] && Covers(channels, b) && Compressed(b, channels, a, place)
    ensures a == b
  {
    assert forall n :: n !in b.idByName;
  }

  ghost predicate CompressedFrom(b: Header, channels: ChannelMap, a: Header) {
    Covers(channels, b) && exists place :: Compressed(b, channels, a, place)
  }

  /** A compressed animation of a set of at most 65536 channels is as good as it was. */
  lemma BuildKeepsLookups(b: Header, channels: ChannelMap, channelName: seq<string>, a: Header, name: string)
    requires Plain(b) && AllNamed(b) && CompressedFrom(b, channels, a)
    requires Inverse(channels, channelName) && |channelName| <= 0x1_0000
    ensures TrackNamed(a, channels, name) == TrackNamed(b, channels, name)
    ensures TrackNames(a, channelName) == TrackNames(b, channelName)
  {
    var place :| Compressed(b, channels, a, place);
    SmallTablesAreSafe(b, channels, channelName, a, place);
    CompressionKeepsLookups(b, channels, a, place, name);
  }
}
