/**
 * Header compression of animations: the map from track names of each animation is replaced by a sorted
 * array of channel ids (`CAnimation::applyAnimHeaderCompression`, `CAnimationSet::build`), and a track
 * is then looked up by binary search. Here as values; `AnimationSets` has the classes.
 */
module AnimationHeaders {
  import opened Wrappers

  /** A track is a handle: who evaluates it does not matter here. */
  type Track = nat

  type ChannelMap = map<string, nat>

  /** `idByChannelId` is empty until the header is compressed; `idByName` is empty afterwards. */
  datatype Header = Header(idByName: map<string, nat>, tracks: seq<Track>, idByChannelId: seq<nat>)

  /** Channel ids are kept on sixteen bits. */
  function Truncated(id: nat): nat {
    id % 0x1_0000
  }

  /** Two ids are the same on sixteen bits if and only if they differ by a multiple of 65536. */
  lemma TruncatedSame(a: nat, b: nat)
    ensures Truncated(a) < 65536
    ensures Truncated(a) == Truncated(b) <==> exists k: int :: a - b == k * 65536
  {
    var p, q := a / 0x1_0000, b / 0x1_0000;
    assert a == p * 0x1_0000 + Truncated(a) && b == q * 0x1_0000 + Truncated(b);
    if Truncated(a) == Truncated(b) {
      assert a - b == (p - q) * 65536;
    }
  }

  ghost predicate Sorted(a: seq<nat>) {
    forall i, j | 0 <= i < j < |a| :: a[i] <= a[j]
  }

  /** Last index whose value is not above the key, 0 if there is none. */
  ghost function LastNotAbove(a: seq<nat>, key: nat): (r: nat)
    requires |a| > 0
    ensures r < |a|
  {
    if |a| == 1 || a[|a| - 1] <= key then |a| - 1 else LastNotAbove(a[..|a| - 1], key)
  }

  lemma {:induction false} LastNotAboveIs(a: seq<nat>, key: nat, r: nat)
    requires Sorted(a) && r < |a| && (r == 0 || a[r] <= key) && (r + 1 == |a| || a[r + 1] > key)
    ensures LastNotAbove(a, key) == r
  {
    if |a| > 1 && a[|a| - 1] > key {
      LastNotAboveIs(a[..|a| - 1], key, r);
    }
  }

  /** In a sorted array the search ends on the key if and only if the key is there. */
  lemma {:induction false} SearchFinds(a: seq<nat>, key: nat)
    requires |a| > 0 && Sorted(a)
    ensures a[LastNotAbove(a, key)] == key <==> key in a
  {
    if key in a && a[|a| - 1] > key {
      var b := a[..|a| - 1];
      assert a == b + [a[|a| - 1]];
      SearchFinds(b, key);
    }
  }

  /** `searchLowerBound`, by dichotomy. */
  method SearchLowerBound(a: seq<nat>, key: nat) returns (r: nat)
    requires |a| > 0 && Sorted(a)
    ensures r == LastNotAbove(a, key)
  {
    var start, end := 0, |a|;
    while end - 1 > start
      invariant 0 <= start < end <= |a|
      invariant (start == 0 || a[start] <= key) && (end == |a| || a[end] > key)
    {
      var pivot := (end + start) / 2;
      if a[pivot] <= key {
        start := pivot;
      } else {
        end := pivot;
      }
    }
    LastNotAboveIs(a, key, start);
    return start;
  }

  // ---- Lookups ----

  ghost function IdByChannelId(a: Header, channelId: nat): (r: Option<nat>)
    ensures r.Some? ==> r.value < |a.idByChannelId|
  {
    if a.idByChannelId == [] then None
    else
      var r := LastNotAbove(a.idByChannelId, channelId);
      if a.idByChannelId[r] == channelId then Some(r) else None
  }

  /** `getIdTrackByName`; the channel id is truncated on its way to `getIdTrackByChannelId`. */
  ghost function IdByName(a: Header, channels: ChannelMap, name: string): Option<nat> {
    if a.idByChannelId == [] then if name in a.idByName then Some(a.idByName[name]) else None
    else if name in channels then IdByChannelId(a, Truncated(channels[name])) else None
  }

  ghost function TrackNamed(a: Header, channels: ChannelMap, name: string): Option<Track> {
    match IdByName(a, channels, name)
    case Some(id) => if id < |a.tracks| then Some(a.tracks[id]) else None
    case None => None
  }

  /** `getTrackNames`. */
  ghost function TrackNames(a: Header, channelName: seq<string>): set<string> {
    if a.idByChannelId == [] then a.idByName.Keys
    else set i | 0 <= i < |a.idByChannelId| && a.idByChannelId[i] < |channelName| :: channelName[a.idByChannelId[i]]
  }

  // ---- Compression ----

  /** Not compressed: each name has a track of its own. */
  ghost predicate Plain(a: Header) {
    && a.idByChannelId == []
    && (forall n | n in a.idByName :: a.idByName[n] < |a.tracks|)
    && (forall m, n | m in a.idByName && n in a.idByName && a.idByName[m] == a.idByName[n] :: m == n)
  }

  ghost predicate HasName(a: Header, k: nat) {
    exists n :: n in a.idByName && a.idByName[n] == k
  }

  /** Each track has a name: none was added under a name already taken. */
  ghost predicate AllNamed(a: Header) {
    forall k | 0 <= k < |a.tracks| :: HasName(a, k)
  }

  /** No track is in the array twice. */
  ghost predicate DistinctTracks(a: Header) {
    forall i, j | 0 <= i < j < |a.tracks| :: a.tracks[i] != a.tracks[j]
  }

  ghost predicate Covers(channels: ChannelMap, a: Header) {
    forall n | n in a.idByName :: n in channels
  }

  /**
   * Where each track of the animation went: a place with the truncated id of its channel. A track without
   * a name goes where the zero of its new `CTempTrackInfo` puts it.
   */
  ghost predicate Moved(b: Header, channels: ChannelMap, a: Header, place: seq<nat>)
    requires Covers(channels, b)
  {
    && |place| == |b.tracks| == |a.tracks| == |a.idByChannelId|
    && (forall i, j | 0 <= i < j < |place| :: place[i] != place[j])
    && (forall i | 0 <= i < |place| :: place[i] < |b.tracks|)
    && (forall k | 0 <= k < |place| :: k in place)
    && (forall i | 0 <= i < |place| :: a.tracks[i] == b.tracks[place[i]])
    && (forall i, n | 0 <= i < |place| && n in b.idByName && b.idByName[n] == place[i] ::
          a.idByChannelId[i] == Truncated(channels[n]))
    && (forall i | 0 <= i < |place| && !HasName(b, place[i]) :: a.idByChannelId[i] == 0)
  }

  /** The tracks are a permutation of what they were, sorted by the truncated id of their channel. */
  ghost predicate Compressed(b: Header, channels: ChannelMap, a: Header, place: seq<nat>)
    requires Covers(channels, b)
  {
    a.idByName == map[] && Sorted(a.idByChannelId) && Moved(b, channels, a, place)
  }

  /** No other channel of the set has the truncated id of a track of the animation. */
  ghost predicate NoAlias(b: Header, channels: ChannelMap)
    requires Covers(channels, b)
  {
    forall m, n | m in channels && n in b.idByName && Truncated(channels[m]) == Truncated(channels[n]) :: m == n
  }

  /** Track k of the animation may be found under a truncated id: that of its channel, or 0 without a name. */
  ghost predicate StandsUnder(b: Header, channels: ChannelMap, k: nat, key: nat)
    requires Covers(channels, b)
  {
    && k < |b.tracks|
    && if HasName(b, k) then exists n :: n in b.idByName && b.idByName[n] == k && Truncated(channels[n]) == key
       else key == 0
  }

  lemma FoundUnder(b: Header, channels: ChannelMap, a: Header, place: seq<nat>, k: nat, key: nat)
    requires Plain(b) && Covers(channels, b) && Compressed(b, channels, a, place) && StandsUnder(b, channels, k, key)
    ensures key in a.idByChannelId
  {
    assert k in place;
    var i :| 0 <= i < |place| && place[i] == k;
    assert a.idByChannelId[i] == key;
  }

  /** What a lookup ends on: a track that stands under the truncated id looked for, if there is one. */
  lemma LookupEndsOn(b: Header, channels: ChannelMap, a: Header, place: seq<nat>, m: string)
    returns (k: Option<nat>)
    requires Plain(b) && Covers(channels, b) && Compressed(b, channels, a, place) && m in channels
    ensures match k
            case Some(t) =>
              && StandsUnder(b, channels, t, Truncated(channels[m]))
              && TrackNamed(a, channels, m) == Some(b.tracks[t])
            case None =>
              && TrackNamed(a, channels, m) == None
              && forall t: nat :: !StandsUnder(b, channels, t, Truncated(channels[m]))
  {
    var key := Truncated(channels[m]);
    if a.idByChannelId != [] {
      SearchFinds(a.idByChannelId, key);
    }
    if IdByChannelId(a, key).Some? {
      var r := IdByChannelId(a, key).value;
      k := Some(place[r]);
      if HasName(b, place[r]) {
        var x :| x in b.idByName && b.idByName[x] == place[r];
        assert Truncated(channels[x]) == key;
      }
    } else {
      k := None;
      forall t: nat
        ensures StandsUnder(b, channels, t, key) ==> key in a.idByChannelId
      {
        if StandsUnder(b, channels, t, key) {
          FoundUnder(b, channels, a, place, t, key);
        }
      }
    }
  }

  /** A lookup comes to nothing exactly when no track stands under the truncated id of the name. */
  lemma NamedTrackStands(b: Header, channels: ChannelMap, n: string)
    requires Plain(b) && Covers(channels, b) && n in b.idByName
    ensures StandsUnder(b, channels, b.idByName[n], Truncated(channels[n]))
  {
    assert HasName(b, b.idByName[n]);
  }

  /** Without aliases, and without tracks that have no name, every name finds what it found. */
  lemma CompressionKeepsLookups(b: Header, channels: ChannelMap, a: Header, place: seq<nat>, name: string)
    requires Plain(b) && Covers(channels, b) && Compressed(b, channels, a, place) && NoAlias(b, channels)
    requires AllNamed(b) || name !in channels || Truncated(channels[name]) != 0
    ensures TrackNamed(a, channels, name) == TrackNamed(b, channels, name)
  {
    if name in channels {
      var k := LookupEndsOn(b, channels, a, place, name);
      if name in b.idByName {
        NamedTrackStands(b, channels, name);
      }
      hide Compressed;
      if k.Some? {
        assert HasName(b, k.value);
      }
    }
  }

  /**
   * A track without a name stands under id 0, so compression makes it answer for the channel of that id,
   * if the animation has no track for it.
   */
  lemma StrayTrackAnswers(b: Header, channels: ChannelMap, a: Header, place: seq<nat>, k: nat, m: string)
    requires Plain(b) && Covers(channels, b) && Compressed(b, channels, a, place)
    requires k < |b.tracks| && !HasName(b, k)
    requires m in channels && Truncated(channels[m]) == 0 && m !in b.idByName
    ensures TrackNamed(b, channels, m) == None && TrackNamed(a, channels, m).Some?
  {
    var t := LookupEndsOn(b, channels, a, place, m);
    assert StandsUnder(b, channels, k, 0);
  }

  /** Compression is harmless for all names if and only if there is no alias. */
  lemma CompressionIsSafe(b: Header, channels: ChannelMap, a: Header, place: seq<nat>)
    requires Plain(b) && AllNamed(b) && Covers(channels, b) && Compressed(b, channels, a, place) && DistinctTracks(b)
    ensures (forall name :: TrackNamed(a, channels, name) == TrackNamed(b, channels, name)) <==> NoAlias(b, channels)
  {
    if NoAlias(b, channels) {
      forall name
        ensures TrackNamed(a, channels, name) == TrackNamed(b, channels, name)
      {
        CompressionKeepsLookups(b, channels, a, place, name);
      }
    } else {
      var m, n :| m in channels && n in b.idByName && Truncated(channels[m]) == Truncated(channels[n]) && m != n;
      AliasBreaksOne(b, channels, a, place, m, n);
    }
  }

  lemma AliasBreaksOne(b: Header, channels: ChannelMap, a: Header, place: seq<nat>, m: string, n: string)
    requires Plain(b) && Covers(channels, b) && Compressed(b, channels, a, place) && DistinctTracks(b)
    requires m in channels && n in b.idByName && Truncated(channels[m]) == Truncated(channels[n]) && m != n
    ensures TrackNamed(a, channels, m) != TrackNamed(b, channels, m) || TrackNamed(a, channels, n) != TrackNamed(b, channels, n)
  {
    NamedTrackStands(b, channels, n);
    var i := b.idByName[n];
    var k := LookupEndsOn(b, channels, a, place, m);
    var j := LookupEndsOn(b, channels, a, place, n);
    hide Compressed, StandsUnder;
    if m in b.idByName {
      assert b.tracks[i] != b.tracks[b.idByName[m]];
    }
  }

  /** Either all the tracks have a name, or no channel has the id under which the others stand. */
  ghost predicate NoStray(b: Header, channels: ChannelMap) {
    AllNamed(b) || forall m | m in channels :: Truncated(channels[m]) != 0
  }

  ghost predicate KeepsAll(b: Header, channels: ChannelMap, a: Header) {
    forall name :: TrackNamed(a, channels, name) == TrackNamed(b, channels, name)
  }

  /** The sort may leave equal ids in any order: two tracks under one id can change places. */
  lemma SwappedIsCompressed(b: Header, channels: ChannelMap, a: Header, place: seq<nat>, i: nat, j: nat)
    returns (a2: Header, place2: seq<nat>)
    requires Plain(b) && Covers(channels, b) && Compressed(b, channels, a, place)
    requires i < |place| && j < |place| && a.idByChannelId[i] == a.idByChannelId[j]
    ensures Compressed(b, channels, a2, place2) && a2.idByChannelId == a.idByChannelId
    ensures |place2| == |place| && place2[i] == place[j]
  {
    a2 := a.(tracks := a.tracks[i := a.tracks[j]][j := a.tracks[i]]);
    place2 := place[i := place[j]][j := place[i]];
    forall k | 0 <= k < |place2|
      ensures k in place2
    {
      assert k in place;
      var q :| 0 <= q < |place| && place[q] == k;
      assert place2[if q == i then j else if q == j then i else q] == k;
    }
  }

  /** A track without a name can take the place of the one that stands under id 0 by right. */
  lemma StrayTrackHides(b: Header, channels: ChannelMap, a: Header, place: seq<nat>, k: nat, m: string)
    returns (a2: Header, place2: seq<nat>)
    requires Plain(b) && Covers(channels, b) && Compressed(b, channels, a, place) && DistinctTracks(b)
    requires k < |b.tracks| && !HasName(b, k)
    requires m in channels && Truncated(channels[m]) == 0 && m in b.idByName
    ensures Compressed(b, channels, a2, place2)
    ensures TrackNamed(a2, channels, m) != TrackNamed(b, channels, m)
  {
    FoundUnder(b, channels, a, place, k, 0);
    SearchFinds(a.idByChannelId, 0);
    var r := IdByChannelId(a, 0).value;
    assert k in place;
    var j :| 0 <= j < |place| && place[j] == k;
    a2, place2 := SwappedIsCompressed(b, channels, a, place, r, j);
    assert TrackNamed(a2, channels, m) == Some(b.tracks[k]);
    assert HasName(b, b.idByName[m]);
  }

  /**
   * Compression is harmless for all names, in whatever order the sort leaves equal ids, if and only if
   * no other channel has the truncated id of a track, and no track without a name stands under the id of
   * a channel.
   */
  lemma CompressionIsSafeInAnyOrder(b: Header, channels: ChannelMap, a: Header, place: seq<nat>)
    requires Plain(b) && Covers(channels, b) && Compressed(b, channels, a, place) && DistinctTracks(b)
    ensures (forall a2, place2 | Compressed(b, channels, a2, place2) :: KeepsAll(b, channels, a2))
       <==> NoAlias(b, channels) && NoStray(b, channels)
  {
    hide Compressed, TrackNamed;
    if NoAlias(b, channels) && NoStray(b, channels) {
      forall a2, place2, name | Compressed(b, channels, a2, place2)
        ensures TrackNamed(a2, channels, name) == TrackNamed(b, channels, name)
      {
        CompressionKeepsLookups(b, channels, a2, place2, name);
      }
    } else if !NoAlias(b, channels) {
      var m, n :| m in channels && n in b.idByName && Truncated(channels[m]) == Truncated(channels[n]) && m != n;
      AliasBreaksOne(b, channels, a, place, m, n);
      assert !KeepsAll(b, channels, a);
    } else {
      var k :| 0 <= k < |b.tracks| && !HasName(b, k);
      var m :| m in channels && Truncated(channels[m]) == 0;
      if m in b.idByName {
        var a2, place2 := StrayTrackHides(b, channels, a, place, k, m);
        assert !KeepsAll(b, channels, a2);
      } else {
        StrayTrackAnswers(b, channels, a, place, k, m);
        assert !KeepsAll(b, channels, a);
      }
    }
  }

  /** The two channel tables of an animation set are inverse to each other. */
  ghost predicate Inverse(channels: ChannelMap, channelName: seq<string>) {
    && (forall n | n in channels :: channels[n] < |channelName| && channelName[channels[n]] == n)
    && (forall i | 0 <= i < |channelName| :: channelName[i] in channels && channels[channelName[i]] == i)
  }

  /** The name behind the i-th channel id. */
  lemma NameBehind(b: Header, channels: ChannelMap, a: Header, place: seq<nat>, i: nat) returns (n: string)
    requires Plain(b) && AllNamed(b) && Covers(channels, b) && Compressed(b, channels, a, place) && i < |a.idByChannelId|
    ensures n in b.idByName && a.idByChannelId[i] == Truncated(channels[n])
  {
    assert HasName(b, place[i]);
    n :| n in b.idByName && b.idByName[n] == place[i];
  }

  lemma PlaceOfName(b: Header, channels: ChannelMap, a: Header, place: seq<nat>, n: string) returns (i: nat)
    requires Plain(b) && Covers(channels, b) && Compressed(b, channels, a, place) && n in b.idByName
    ensures i < |a.idByChannelId| && a.idByChannelId[i] == Truncated(channels[n])
  {
    assert b.idByName[n] in place;
    i :| 0 <= i < |place| && place[i] == b.idByName[n];
  }

  lemma SmallIdsAreKept(channels: ChannelMap, channelName: seq<string>)
    requires Inverse(channels, channelName) && |channelName| <= 0x1_0000
    ensures forall n | n in channels ::
              Truncated(channels[n]) == channels[n] < |channelName| && channelName[channels[n]] == n
  {
  }

  /** At most 65536 channels: no alias, and the names of the tracks can be read back. */
  lemma SmallTablesAreSafe(b: Header, channels: ChannelMap, channelName: seq<string>, a: Header, place: seq<nat>)
    requires Plain(b) && AllNamed(b) && Covers(channels, b) && Compressed(b, channels, a, place)
    requires Inverse(channels, channelName) && |channelName| <= 0x1_0000
    ensures NoAlias(b, channels)
    ensures forall i | 0 <= i < |a.idByChannelId| :: a.idByChannelId[i] < |channelName|
    ensures TrackNames(a, channelName) == TrackNames(b, channelName)
  {
    SmallIdsAreKept(channels, channelName);
    hide Compressed, Inverse;
    forall i | 0 <= i < |a.idByChannelId|
      ensures a.idByChannelId[i] < |channelName| && channelName[a.idByChannelId[i]] in b.idByName
    {
      var n := NameBehind(b, channels, a, place, i);
    }
    forall n | n in b.idByName
      ensures n in TrackNames(a, channelName)
    {
      var i := PlaceOfName(b, channels, a, place, n);
      assert channelName[a.idByChannelId[i]] == n;
    }
    if a.idByChannelId == [] {
      assert TrackNames(a, channelName) == {};
    }
  }
}
