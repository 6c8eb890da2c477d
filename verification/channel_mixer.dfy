/**
 * `CChannelMixer`: the cached tracks of each channel, the threaded lists of channels in use, and the
 * vectors of channels to evaluate, behind the dirty flags of the slots and of the mixer.
 *
 * The channels are stored by value in a map, so a pointer to a channel is the id it is filed under.
 */
module ChannelMixers {
  import opened Wrappers

  const NUM_SLOTS: nat := 8

  /** A track pointer: a track of an animation, or the default track of a channel. */
  datatype Track = AnimTrack(id: nat) | DefaultTrack(owner: nat)

  /** An animation: its address, its tracks by name and, once its header is compressed, by channel id. */
  datatype Animation = Animation(address: nat, byName: map<string, nat>, byChannelId: map<nat, nat>)

  datatype AnimationSet = AnimationSet(channelNames: seq<string>, headerOptimized: bool) {
    /** `getChannelIdByName`. */
    function ChannelId(name: string): (id: Option<nat>)
      ensures id.Some? ==> id.value < |channelNames| && channelNames[id.value] == name
      ensures id.None? <==> name !in channelNames
    {
      ChannelIdFrom(name, 0)
    }

    function ChannelIdFrom(name: string, i: nat): (id: Option<nat>)
      requires i <= |channelNames|
      ensures id.Some? ==> id.value < |channelNames| && channelNames[id.value] == name
      ensures id.None? ==> name !in channelNames[i..]
      decreases |channelNames| - i
    {
      if i == |channelNames| then None
      else if channelNames[i] == name then Some(i)
      else ChannelIdFrom(name, i + 1)
    }
  }

  /** A slot; empty if it has no animation. */
  datatype Slot = Slot(animation: Option<Animation>, dirt: bool)

  /** `CChannel`; `next` threads the list, `defaulted` says that the value is the default one. */
  datatype Channel = Channel(inTheList: bool, detail: bool, userEnabled: bool, lodEnabled: bool,
                             name: string, defaultTrack: Track, tracks: seq<Track>,
                             next: Option<nat>, defaulted: bool)

  function Get<K, V>(m: map<K, V>, k: K): Option<V> {
    if k in m then Some(m[k]) else None
  }

  /** In a header compressed set, looking up by channel id finds what the name would find. */
  ghost predicate Agrees(a: Animation, names: seq<string>, optimized: bool) {
    optimized ==> forall id | 0 <= id < |names| :: Get(a.byChannelId, id) == Get(a.byName, names[id])
  }

  predicate HasTrack(slot: Slot, name: string) {
    slot.animation.Some? && name in slot.animation.value.byName
  }

  /** The track of a channel in a slot: the animation's track of that name, else the default. */
  function TrackIn(slot: Slot, name: string, default: Track): Track {
    if HasTrack(slot, name) then AnimTrack(slot.animation.value.byName[name]) else default
  }

  /** Some slot's animation has a track of that name. */
  ghost predicate Used(slots: seq<Slot>, name: string) {
    exists s | 0 <= s < |slots| :: HasTrack(slots[s], name)
  }

  /** The ids below n of the channels in use, in increasing order, for one detail mode. */
  ghost function Listing(channels: map<nat, Channel>, slots: seq<Slot>, detail: bool, n: nat): seq<nat> {
    if n == 0 then []
    else
      var front := Listing(channels, slots, detail, n - 1);
      if Listed(channels, slots, detail, n - 1) then front + [n - 1] else front
  }

  ghost predicate Listed(channels: map<nat, Channel>, slots: seq<Slot>, detail: bool, id: nat) {
    id in channels && channels[id].detail == detail && Used(slots, channels[id].name)
  }

  predicate Enabled(c: Channel) {
    c.userEnabled && c.lodEnabled
  }

  ghost function EnabledOf(channels: map<nat, Channel>, list: seq<nat>): seq<nat> {
    if list == [] then []
    else
      var last := list[|list| - 1];
      EnabledOf(channels, list[..|list| - 1]) + (if last in channels && Enabled(channels[last]) then [last] else [])
  }

  /** Following `next` from `first` visits exactly the list, and only live channels. */
  ghost predicate IsChain(channels: map<nat, Channel>, first: Option<nat>, list: seq<nat>) {
    && first == (if list == [] then None else Some(list[0]))
    && forall i | 0 <= i < |list| ::
         list[i] in channels && channels[list[i]].next == if i + 1 < |list| then Some(list[i + 1]) else None
  }

  ghost predicate ChannelsOk(names: seq<string>, channels: map<nat, Channel>) {
    forall id | id in channels ::
      && id < |names| && channels[id].name == names[id]
      && |channels[id].tracks| == NUM_SLOTS && channels[id].defaultTrack.DefaultTrack?
  }

  ghost predicate SlotsOk(set_: AnimationSet, slots: seq<Slot>, dirt: bool) {
    && |slots| == NUM_SLOTS
    && (forall s | 0 <= s < NUM_SLOTS ::
          slots[s].animation.Some? ==> Agrees(slots[s].animation.value, set_.channelNames, set_.headerOptimized))
    && (!dirt ==> forall s | 0 <= s < NUM_SLOTS :: !slots[s].dirt)
  }

  /**
   * The cached track of a clean slot is the right one, a channel it animates is marked, and a channel
   * that is not marked has its default value.
   */
  ghost predicate CacheOk(c: Channel, slots: seq<Slot>)
    requires |slots| == NUM_SLOTS && |c.tracks| == NUM_SLOTS
  {
    && (forall s | 0 <= s < NUM_SLOTS && slots[s].animation.Some? && !slots[s].dirt ::
          c.tracks[s] == TrackIn(slots[s], c.name, c.defaultTrack) && (HasTrack(slots[s], c.name) ==> c.inTheList))
    && (!c.inTheList ==> c.defaulted)
  }

  /** The same for all slots, and the mark is exact. */
  ghost predicate FreshOk(c: Channel, slots: seq<Slot>)
    requires |slots| == NUM_SLOTS && |c.tracks| == NUM_SLOTS
  {
    && (forall s | 0 <= s < NUM_SLOTS && slots[s].animation.Some? :: c.tracks[s] == TrackIn(slots[s], c.name, c.defaultTrack))
    && c.inTheList == Used(slots, c.name)
    && (!c.inTheList ==> c.defaulted)
  }

  datatype State = State(set_: AnimationSet, channels: map<nat, Channel>, slots: seq<Slot>,
                         firstGlobal: Option<nat>, firstDetail: Option<nat>,
                         globalToEval: seq<nat>, detailToEval: seq<nat>, dirt: bool, listDirt: bool)

  /** The channels in use for one detail mode. */
  ghost function InUse(s: State, detail: bool): seq<nat> {
    Listing(s.channels, s.slots, detail, |s.set_.channelNames|)
  }

  ghost predicate BaseOk(s: State) {
    && SlotsOk(s.set_, s.slots, s.dirt)
    && ChannelsOk(s.set_.channelNames, s.channels)
  }

  ghost predicate CachesOk(s: State)
    requires BaseOk(s)
  {
    forall id | id in s.channels :: CacheOk(s.channels[id], s.slots)
  }

  /** Tracks, marks and threaded lists are those of the slots' animations. */
  ghost predicate ListsFresh(s: State)
    requires BaseOk(s)
  {
    && (forall id | id in s.channels :: FreshOk(s.channels[id], s.slots))
    && IsChain(s.channels, s.firstGlobal, InUse(s, false))
    && IsChain(s.channels, s.firstDetail, InUse(s, true))
  }

  ghost predicate EvalListsFresh(s: State) {
    && s.globalToEval == EnabledOf(s.channels, InUse(s, false))
    && s.detailToEval == EnabledOf(s.channels, InUse(s, true))
  }

  /** Each layer of the cache is right whenever the flag in front of it is clean. */
  ghost predicate Inv(s: State) {
    && BaseOk(s)
    && CachesOk(s)
    && (!s.dirt ==> ListsFresh(s))
    && (!s.dirt && !s.listDirt ==> EvalListsFresh(s))
  }

  ghost predicate AllEmpty(slots: seq<Slot>) {
    forall s | 0 <= s < |slots| :: slots[s].animation.None?
  }

  lemma {:induction false} NoListing(channels: map<nat, Channel>, slots: seq<Slot>, detail: bool, n: nat)
    requires AllEmpty(slots)
    ensures Listing(channels, slots, detail, n) == []
    ensures forall name :: !Used(slots, name)
  {
    if n > 0 {
      NoListing(channels, slots, detail, n - 1);
    }
  }

  /** With all slots empty, a mixer is clean exactly if nothing is listed nor marked. */
  ghost predicate Idle(s: State) {
    && s.firstGlobal == None && s.firstDetail == None
    && (!s.listDirt ==> s.globalToEval == [] && s.detailToEval == [])
    && forall id | id in s.channels :: !s.channels[id].inTheList && s.channels[id].defaulted
  }

  lemma WhenIdle(s: State)
    requires BaseOk(s) && AllEmpty(s.slots)
    ensures Inv(s) && !s.dirt ==> Idle(s)
    ensures Idle(s) ==> Inv(s)
  {
    NoListing(s.channels, s.slots, false, |s.set_.channelNames|);
    NoListing(s.channels, s.slots, true, |s.set_.channelNames|);
  }

  lemma EightSlots(s: State)
    requires Inv(s)
    ensures |s.slots| == NUM_SLOTS
  {
  }

  // ---- The operations ----

  function DirtAllSlots(slots: seq<Slot>): seq<Slot> {
    seq(|slots|, s requires 0 <= s < |slots| => if slots[s].animation.Some? then slots[s].(dirt := true) else slots[s])
  }

  function Dirted(s: State): State {
    s.(slots := DirtAllSlots(s.slots),
       dirt := s.dirt || exists i | 0 <= i < |s.slots| :: s.slots[i].animation.Some?)
  }

  lemma AllDirty(before: seq<Slot>, slots: seq<Slot>, dirt: bool)
    requires slots == DirtAllSlots(before)
    requires (exists i | 0 <= i < |before| :: before[i].animation.Some?) ==> dirt
    ensures |slots| == |before|
    ensures forall s | 0 <= s < |slots| :: slots[s].animation == before[s].animation
    ensures forall s | 0 <= s < |slots| && slots[s].animation.Some? :: slots[s].dirt && dirt
  {
  }

  function NewChannel(name: string, defaultTrack: Track, detail: bool, next: Option<nat>): Channel {
    Channel(false, detail, true, true, name, defaultTrack, seq(NUM_SLOTS, s => defaultTrack), next, true)
  }

  /** Exactly one channel has changed: it has the settings given, is enabled, and shows its default track. */
  ghost predicate Filed(before: map<nat, Channel>, after: map<nat, Channel>, id: nat,
                        name: string, defaultTrack: Track, detail: bool) {
    && after.Keys == before.Keys + {id}
    && (forall k | k in after && k != id :: after[k] == before[k])
    && var c := after[id];
       && c.name == name && c.defaultTrack == defaultTrack && c.detail == detail
       && c.userEnabled && c.lodEnabled && !c.inTheList && c.defaulted
       && |c.tracks| == NUM_SLOTS && forall s | 0 <= s < NUM_SLOTS :: c.tracks[s] == defaultTrack
  }

  lemma ChannelFiled(before: map<nat, Channel>, after: map<nat, Channel>, id: nat,
                     name: string, defaultTrack: Track, detail: bool, next: Option<nat>)
    requires after == before[id := NewChannel(name, defaultTrack, detail, next)]
    ensures Filed(before, after, id, name, defaultTrack, detail)
  {
  }

  /** `addChannel` for a name of the set; the copied entry brings an arbitrary `next`. */
  function Added(s: State, id: nat, c: Channel): State {
    Dirted(s.(channels := s.channels[id := c]))
  }

  function Reset(s: State): State {
    Dirted(s.(channels := map[]))
  }

  function WithEnabled(s: State, id: nat, user: bool, lod: bool): State
    requires id in s.channels
  {
    s.(channels := s.channels[id := s.channels[id].(userEnabled := user, lodEnabled := lod)], listDirt := true)
  }

  function WithAnimation(s: State, slot: nat, a: Option<Animation>): State
    requires slot < |s.slots|
  {
    if s.slots[slot].animation == a then s else s.(slots := s.slots[slot := Slot(a, true)], dirt := true)
  }

  lemma AddedKeepsInv(s: State, id: nat, default: Track, detail: bool, next: Option<nat>)
    requires Inv(s) && id < |s.set_.channelNames| && default.DefaultTrack?
    ensures Inv(Added(s, id, NewChannel(s.set_.channelNames[id], default, detail, next)))
  {
    var t := Added(s, id, NewChannel(s.set_.channelNames[id], default, detail, next));
    if AllEmpty(s.slots) {
      assert t.slots == s.slots;
      WhenIdle(s);
      if !s.dirt {
        WhenIdle(t);
      }
    } else {
      assert t.dirt;
    }
  }

  lemma ResetKeepsInv(s: State)
    requires Inv(s)
    ensures Inv(Reset(s))
  {
    var t := Reset(s);
    if AllEmpty(s.slots) {
      assert t.slots == s.slots;
      WhenIdle(s);
      if !s.dirt {
        WhenIdle(t);
      }
    }
  }

  lemma {:induction false} ListingSame(a: map<nat, Channel>, b: map<nat, Channel>, slots: seq<Slot>, detail: bool, n: nat)
    requires SameNames(a, b)
    ensures Listing(a, slots, detail, n) == Listing(b, slots, detail, n)
  {
    if n > 0 {
      ListingSame(a, b, slots, detail, n - 1);
      assert Listed(a, slots, detail, n - 1) == Listed(b, slots, detail, n - 1);
    }
  }

  ghost predicate SameNames(a: map<nat, Channel>, b: map<nat, Channel>) {
    a.Keys == b.Keys && forall id | id in a :: a[id].name == b[id].name && a[id].detail == b[id].detail
  }

  lemma WithEnabledKeepsInv(s: State, id: nat, user: bool, lod: bool)
    requires Inv(s) && id in s.channels
    ensures Inv(WithEnabled(s, id, user, lod))
  {
    var t := WithEnabled(s, id, user, lod);
    ListingSame(s.channels, t.channels, s.slots, false, |s.set_.channelNames|);
    ListingSame(s.channels, t.channels, s.slots, true, |s.set_.channelNames|);
    ChainSame(s.channels, t.channels, s.firstGlobal, InUse(s, false));
    ChainSame(s.channels, t.channels, s.firstDetail, InUse(s, true));
  }

  lemma ChainSame(a: map<nat, Channel>, b: map<nat, Channel>, first: Option<nat>, list: seq<nat>)
    requires a.Keys == b.Keys && forall id | id in a :: a[id].next == b[id].next
    ensures IsChain(a, first, list) == IsChain(b, first, list)
  {
  }

  lemma WithAnimationKeepsInv(s: State, slot: nat, a: Option<Animation>)
    requires Inv(s) && slot < NUM_SLOTS
    requires a.Some? ==> Agrees(a.value, s.set_.channelNames, s.set_.headerOptimized)
    ensures Inv(WithAnimation(s, slot, a))
  {
  }

  // ---- The refresh ----

  /** A chain still to be closed, with its last element: that element's `next` does not matter. */
  ghost predicate IsOpenChain(channels: map<nat, Channel>, first: Option<nat>, list: seq<nat>, last: Option<nat>) {
    && (forall i | 0 <= i < |list| :: list[i] in channels)
    && last == (if list == [] then None else Some(list[|list| - 1]))
    && (list != [] ==> first == Some(list[0]))
    && forall i | 0 <= i < |list| - 1 :: channels[list[i]].next == Some(list[i + 1])
  }

  lemma {:induction false} ListingMembers(channels: map<nat, Channel>, slots: seq<Slot>, detail: bool, n: nat)
    ensures Members(Listing(channels, slots, detail, n), channels, slots, detail, n)
    ensures Increasing(Listing(channels, slots, detail, n))
  {
    if n > 0 {
      ListingMembers(channels, slots, detail, n - 1);
    }
  }

  ghost predicate Members(list: seq<nat>, channels: map<nat, Channel>, slots: seq<Slot>, detail: bool, n: nat) {
    forall i | 0 <= i < |list| :: list[i] < n && Listed(channels, slots, detail, list[i])
  }

  ghost predicate Increasing(list: seq<nat>) {
    forall i, j | 0 <= i < j < |list| :: list[i] < list[j]
  }

  /** The channels after `*lastPointer = &channel`. */
  function Linked(channels: map<nat, Channel>, last: Option<nat>, next: Option<nat>): map<nat, Channel> {
    if last.Some? && last.value in channels then channels[last.value := channels[last.value].(next := next)]
    else channels
  }

  lemma LinkExtends(channels: map<nat, Channel>, first: Option<nat>, list: seq<nat>, last: Option<nat>, id: nat)
    requires IsOpenChain(channels, first, list, last) && id in channels
    requires forall i | 0 <= i < |list| :: list[i] != id
    requires Increasing(list)
    ensures IsOpenChain(Linked(channels, last, Some(id)), if last == None then Some(id) else first, list + [id], Some(id))
  {
    var t := Linked(channels, last, Some(id));
    forall i | 0 <= i < |list|
      ensures t[(list + [id])[i]].next == Some((list + [id])[i + 1])
    {
    }
  }

  lemma LinkCloses(channels: map<nat, Channel>, first: Option<nat>, list: seq<nat>, last: Option<nat>)
    requires IsOpenChain(channels, first, list, last)
    requires Increasing(list)
    ensures IsChain(Linked(channels, last, None), if last == None then None else first, list)
  {
  }

  /** A change to channels outside a chain leaves the chain alone. */
  lemma OpenChainSame(a: map<nat, Channel>, b: map<nat, Channel>, first: Option<nat>, list: seq<nat>, last: Option<nat>)
    requires IsOpenChain(a, first, list, last)
    requires forall i | 0 <= i < |list| :: list[i] in b && b[list[i]].next == a[list[i]].next
    ensures IsOpenChain(b, first, list, last)
  {
  }

  /** What the refresh keeps of a channel. */
  ghost predicate SameSettings(a: Channel, b: Channel) {
    && a.name == b.name && a.detail == b.detail && a.defaultTrack == b.defaultTrack
    && a.userEnabled == b.userEnabled && a.lodEnabled == b.lodEnabled && |a.tracks| == |b.tracks|
  }

  ghost predicate AllSameSettings(a: map<nat, Channel>, b: map<nat, Channel>) {
    a.Keys == b.Keys && forall id | id in a :: SameSettings(a[id], b[id])
  }

  ghost predicate FreshBelow(channels: map<nat, Channel>, slots: seq<Slot>, n: nat)
    requires |slots| == NUM_SLOTS
  {
    forall id | id in channels && id < n :: |channels[id].tracks| == NUM_SLOTS && FreshOk(channels[id], slots)
  }

  ghost predicate SameFrom(before: map<nat, Channel>, now: map<nat, Channel>, n: nat) {
    forall id | id in now && id >= n :: id in before && now[id] == before[id]
  }

  /** Loop invariant of the refresh: channels below n are done, the others as they were. */
  ghost predicate Progress(before: map<nat, Channel>, now: map<nat, Channel>, slots: seq<Slot>, n: nat,
                           firstGlobal: Option<nat>, lastGlobal: Option<nat>,
                           firstDetail: Option<nat>, lastDetail: Option<nat>)
    requires |slots| == NUM_SLOTS
  {
    && AllSameSettings(before, now) && FreshBelow(now, slots, n) && SameFrom(before, now, n)
    && IsOpenChain(now, firstGlobal, Listing(before, slots, false, n), lastGlobal)
    && IsOpenChain(now, firstDetail, Listing(before, slots, true, n), lastDetail)
  }

  /** The channels once channel n has been refreshed, before it is linked. */
  lemma DoneChannel(before: map<nat, Channel>, now: map<nat, Channel>, slots: seq<Slot>, n: nat,
                    firstGlobal: Option<nat>, lastGlobal: Option<nat>,
                    firstDetail: Option<nat>, lastDetail: Option<nat>, c: Channel)
    requires |slots| == NUM_SLOTS && n in now
    requires Progress(before, now, slots, n, firstGlobal, lastGlobal, firstDetail, lastDetail)
    requires SameSettings(now[n], c) && |c.tracks| == NUM_SLOTS && FreshOk(c, slots)
    ensures var done := now[n := c];
            && AllSameSettings(before, done) && FreshBelow(done, slots, n + 1) && SameFrom(before, done, n + 1)
            && IsOpenChain(done, firstGlobal, Listing(before, slots, false, n), lastGlobal)
            && IsOpenChain(done, firstDetail, Listing(before, slots, true, n), lastDetail)
    ensures n in before && c.inTheList == Used(slots, before[n].name) && c.detail == before[n].detail
  {
    ListingMembers(before, slots, false, n);
    ListingMembers(before, slots, true, n);
    DoneSettings(before, now, slots, n, c);
    hide FreshOk, Used, FreshBelow, AllSameSettings, SameFrom;
    var done := now[n := c];
    OpenChainSame(now, done, firstGlobal, Listing(before, slots, false, n), lastGlobal);
    OpenChainSame(now, done, firstDetail, Listing(before, slots, true, n), lastDetail);
  }

  lemma DoneSettings(before: map<nat, Channel>, now: map<nat, Channel>, slots: seq<Slot>, n: nat, c: Channel)
    requires |slots| == NUM_SLOTS && n in now
    requires AllSameSettings(before, now) && FreshBelow(now, slots, n) && SameFrom(before, now, n)
    requires SameSettings(now[n], c) && |c.tracks| == NUM_SLOTS && FreshOk(c, slots)
    ensures var done := now[n := c];
            AllSameSettings(before, done) && FreshBelow(done, slots, n + 1) && SameFrom(before, done, n + 1)
    ensures n in before && c.inTheList == Used(slots, before[n].name) && c.detail == before[n].detail
  {
    DoneFresh(now, slots, n, c);
    hide FreshBelow, Used;
  }

  lemma DoneFresh(now: map<nat, Channel>, slots: seq<Slot>, n: nat, c: Channel)
    requires |slots| == NUM_SLOTS && FreshBelow(now, slots, n) && |c.tracks| == NUM_SLOTS && FreshOk(c, slots)
    ensures FreshBelow(now[n := c], slots, n + 1)
  {
    hide FreshOk;
  }

  /** A channel out of use is passed over. */
  lemma ProgressSkips(before: map<nat, Channel>, done: map<nat, Channel>, slots: seq<Slot>, n: nat,
                      firstGlobal: Option<nat>, lastGlobal: Option<nat>,
                      firstDetail: Option<nat>, lastDetail: Option<nat>)
    requires |slots| == NUM_SLOTS && (n in before ==> !Used(slots, before[n].name))
    requires AllSameSettings(before, done) && FreshBelow(done, slots, n + 1) && SameFrom(before, done, n + 1)
    requires IsOpenChain(done, firstGlobal, Listing(before, slots, false, n), lastGlobal)
    requires IsOpenChain(done, firstDetail, Listing(before, slots, true, n), lastDetail)
    ensures Progress(before, done, slots, n + 1, firstGlobal, lastGlobal, firstDetail, lastDetail)
  {
    hide FreshBelow, SameFrom, AllSameSettings, IsOpenChain;
  }

  /** A channel in use is linked at the end of the list of its detail mode. */
  lemma ProgressLinks(before: map<nat, Channel>, done: map<nat, Channel>, slots: seq<Slot>, n: nat, detail: bool,
                      first: Option<nat>, last: Option<nat>, otherFirst: Option<nat>, otherLast: Option<nat>)
    requires |slots| == NUM_SLOTS && n in before && n in done && before[n].detail == detail && Used(slots, before[n].name)
    requires AllSameSettings(before, done) && FreshBelow(done, slots, n + 1) && SameFrom(before, done, n + 1)
    requires IsOpenChain(done, first, Listing(before, slots, detail, n), last)
    requires IsOpenChain(done, otherFirst, Listing(before, slots, !detail, n), otherLast)
    ensures var t := Linked(done, last, Some(n));
            && AllSameSettings(before, t) && FreshBelow(t, slots, n + 1) && SameFrom(before, t, n + 1)
            && IsOpenChain(t, if last == None then Some(n) else first, Listing(before, slots, detail, n + 1), Some(n))
            && IsOpenChain(t, otherFirst, Listing(before, slots, !detail, n + 1), otherLast)
  {
    ListingMembers(before, slots, detail, n);
    ListingMembers(before, slots, !detail, n);
    var list, other := Listing(before, slots, detail, n), Listing(before, slots, !detail, n);
    assert last.Some? ==> last.value == list[|list| - 1];
    LinkedFresh(done, last, Some(n), slots, n + 1);
    LinkExtends(done, first, list, last, n);
    OpenChainSame(done, Linked(done, last, Some(n)), otherFirst, other, otherLast);
    LinkedSettings(before, done, last, Some(n));
  }

  lemma LinkedSettings(before: map<nat, Channel>, done: map<nat, Channel>, last: Option<nat>, next: Option<nat>)
    requires AllSameSettings(before, done)
    ensures AllSameSettings(before, Linked(done, last, next))
  {
  }

  /** Linking touches nothing but a `next`. */
  lemma LinkedFresh(channels: map<nat, Channel>, last: Option<nat>, next: Option<nat>, slots: seq<Slot>, n: nat)
    requires |slots| == NUM_SLOTS && FreshBelow(channels, slots, n)
    ensures FreshBelow(Linked(channels, last, next), slots, n)
    ensures forall id | id in channels && Some(id) != last :: Linked(channels, last, next)[id] == channels[id]
  {
  }

  /** The channels once all have been refreshed and both chains closed. */
  lemma ProgressEnds(s: State, now: map<nat, Channel>,
                     firstGlobal: Option<nat>, lastGlobal: Option<nat>,
                     firstDetail: Option<nat>, lastDetail: Option<nat>)
    requires BaseOk(s)
    requires Progress(s.channels, now, s.slots, |s.set_.channelNames|, firstGlobal, lastGlobal, firstDetail, lastDetail)
    ensures var t := s.(channels := Linked(Linked(now, lastGlobal, None), lastDetail, None),
                        firstGlobal := if lastGlobal == None then None else firstGlobal,
                        firstDetail := if lastDetail == None then None else firstDetail);
            BaseOk(t) && AllSameSettings(s.channels, t.channels) && ListsFresh(t)
  {
    hide FreshOk, AllSameSettings, FreshBelow, Linked, IsChain, IsOpenChain, Used;
    var n := |s.set_.channelNames|;
    var g, d := Listing(s.channels, s.slots, false, n), Listing(s.channels, s.slots, true, n);
    ListingMembers(s.channels, s.slots, false, n);
    ListingMembers(s.channels, s.slots, true, n);
    BothClose(now, s.slots, firstGlobal, g, lastGlobal, firstDetail, d, lastDetail);
    var two := Linked(Linked(now, lastGlobal, None), lastDetail, None);
    LinkedTwice(s.channels, now, lastGlobal, lastDetail, s.slots, n);
    SettingsKeepNames(s.channels, two);
    ListingSame(s.channels, two, s.slots, false, n);
    ListingSame(s.channels, two, s.slots, true, n);
    AllFresh(s.set_.channelNames, two, s.slots);
  }

  lemma LinkedTwice(before: map<nat, Channel>, now: map<nat, Channel>, lastGlobal: Option<nat>, lastDetail: Option<nat>,
                    slots: seq<Slot>, n: nat)
    requires |slots| == NUM_SLOTS && AllSameSettings(before, now) && FreshBelow(now, slots, n)
    ensures AllSameSettings(before, Linked(Linked(now, lastGlobal, None), lastDetail, None))
    ensures FreshBelow(Linked(Linked(now, lastGlobal, None), lastDetail, None), slots, n)
  {
    hide AllSameSettings, FreshBelow, Linked;
    var one := Linked(now, lastGlobal, None);
    LinkedFresh(now, lastGlobal, None, slots, n);
    LinkedFresh(one, lastDetail, None, slots, n);
    LinkedSettings(before, now, lastGlobal, None);
    LinkedSettings(before, one, lastDetail, None);
  }

  lemma AllFresh(names: seq<string>, channels: map<nat, Channel>, slots: seq<Slot>)
    requires |slots| == NUM_SLOTS && ChannelsOk(names, channels) && FreshBelow(channels, slots, |names|)
    ensures forall id | id in channels :: FreshOk(channels[id], slots)
  {
  }

  lemma BothClose(now: map<nat, Channel>, slots: seq<Slot>,
                  firstGlobal: Option<nat>, g: seq<nat>, lastGlobal: Option<nat>,
                  firstDetail: Option<nat>, d: seq<nat>, lastDetail: Option<nat>)
    requires IsOpenChain(now, firstGlobal, g, lastGlobal) && IsOpenChain(now, firstDetail, d, lastDetail)
    requires Increasing(g) && Increasing(d)
    requires forall i, j | 0 <= i < |g| && 0 <= j < |d| :: g[i] != d[j]
    ensures var two := Linked(Linked(now, lastGlobal, None), lastDetail, None);
            && IsChain(two, if lastGlobal == None then None else firstGlobal, g)
            && IsChain(two, if lastDetail == None then None else firstDetail, d)
  {
    var one := Linked(now, lastGlobal, None);
    var two := Linked(one, lastDetail, None);
    LinkCloses(now, firstGlobal, g, lastGlobal);
    OpenChainSame(now, one, firstDetail, d, lastDetail);
    LinkCloses(one, firstDetail, d, lastDetail);
    ChainKept(one, two, if lastGlobal == None then None else firstGlobal, g);
  }

  lemma ChainStep(channels: map<nat, Channel>, first: Option<nat>, list: seq<nat>, k: nat)
    requires IsChain(channels, first, list) && k < |list|
    ensures list[k] in channels
    ensures channels[list[k]].next == if k + 1 < |list| then Some(list[k + 1]) else None
  {
  }

  lemma ChainKept(a: map<nat, Channel>, b: map<nat, Channel>, first: Option<nat>, list: seq<nat>)
    requires IsChain(a, first, list)
    requires forall i | 0 <= i < |list| :: list[i] in b && b[list[i]].next == a[list[i]].next
    ensures IsChain(b, first, list)
  {
  }

  lemma SettingsKeepNames(a: map<nat, Channel>, b: map<nat, Channel>)
    requires AllSameSettings(a, b)
    ensures SameNames(a, b)
    ensures forall names :: ChannelsOk(names, a) ==> ChannelsOk(names, b)
  {
  }

  /** Fresh lists need no dirty slot, whatever the slots' flags. */
  lemma FreshIsClean(s: State)
    requires BaseOk(s) && ListsFresh(s)
    ensures CachesOk(s)
  {
  }

  class ChannelMixer {
    var animationSet: AnimationSet
    var channels: map<nat, Channel>
    var slots: seq<Slot>
    var firstGlobal: Option<nat>
    var firstDetail: Option<nat>
    var globalListToEval: seq<nat>
    var detailListToEval: seq<nat>
    var dirt: bool
    var listToEvalDirt: bool

    ghost function Value(): State
      reads this
    {
      State(animationSet, channels, slots, firstGlobal, firstDetail, globalListToEval, detailListToEval,
            dirt, listToEvalDirt)
    }

    ghost predicate Valid()
      reads this
    {
      Inv(Value())
    }

    constructor ()
      ensures Valid() && channels == map[] && AllEmpty(slots)
    {
      animationSet, channels := AnimationSet([], false), map[];
      slots := seq(NUM_SLOTS, s => Slot(None, false));
      firstGlobal, firstDetail, globalListToEval, detailListToEval := None, None, [], [];
      dirt, listToEvalDirt := false, false;
      new;
      WhenIdle(Value());
    }

    /** Changes the set of animations: all channels go, and the slots keep their animations. */
    method SetAnimationSet(set_: AnimationSet)
      requires Valid()
      requires forall s | 0 <= s < |slots| ::
                 slots[s].animation.Some? ==> Agrees(slots[s].animation.value, set_.channelNames, set_.headerOptimized)
      modifies this
      ensures Valid() && Value() == Reset(old(Value()).(set_ := set_))
      ensures animationSet == set_ && channels == map[]
    {
      animationSet := set_;
      ghost var s := Value();
      channels := map[];
      if AllEmpty(slots) {
        WhenIdle(old(Value()));
        WhenIdle(Value());
      }
      DirtAll();
      EmptyKeepsInv(old(Value()), s);
    }

    method DirtAll()
      modifies this`slots, this`dirt
      ensures Value() == Dirted(old(Value()))
    {
      ghost var s := Value();
      var n := |slots|;
      for i := 0 to n
        invariant |slots| == n
        invariant forall k | 0 <= k < i :: slots[k] == DirtAllSlots(s.slots)[k]
        invariant forall k | i <= k < n :: slots[k] == s.slots[k]
        invariant dirt == (s.dirt || exists k | 0 <= k < i :: s.slots[k].animation.Some?)
      {
        if slots[i].animation.Some? {
          slots := slots[i := slots[i].(dirt := true)];
          dirt := true;
        }
      }
      assert slots == DirtAllSlots(s.slots);
    }

    /** Adds a channel, or resets the one of that name; names the set does not have are refused. */
    method AddChannel(channelName: string, defaultTrack: Track, detail: bool)
      returns (id: int, ghost next: Option<nat>)
      requires Valid() && defaultTrack.DefaultTrack?
      modifies this
      ensures Valid()
      ensures match animationSet.ChannelId(channelName)
              case None => id == -1 && Value() == old(Value())
              case Some(k) =>
                id == k && Value() == Added(old(Value()), k, NewChannel(channelName, defaultTrack, detail, next))
      ensures channelName !in animationSet.channelNames ==> id == -1
      ensures channelName in animationSet.channelNames ==>
                && 0 <= id < |animationSet.channelNames| && animationSet.channelNames[id] == channelName
                && Filed(old(channels), channels, id, channelName, defaultTrack, detail)
                && channels[id].name == channelName && channels[id].defaultTrack == defaultTrack
                && channels[id].detail == detail && channels[id].userEnabled && channels[id].lodEnabled
      ensures |slots| == NUM_SLOTS && animationSet == old(animationSet)
      ensures forall s | 0 <= s < NUM_SLOTS :: slots[s].animation == old(slots)[s].animation
      ensures id >= 0 ==> forall s | 0 <= s < NUM_SLOTS && slots[s].animation.Some? :: slots[s].dirt && dirt
    {
      EightSlots(Value());
      hide Inv;
      next := None;
      match animationSet.ChannelId(channelName)
      case None =>
        id := -1;
      case Some(k) =>
        var garbage: Option<nat> := *;
        next := garbage;
        AddedKeepsInv(Value(), k, defaultTrack, detail, next);
        channels := channels[k := NewChannel(channelName, defaultTrack, detail, garbage)];
        ChannelFiled(old(channels), channels, k, channelName, defaultTrack, detail, next);
        ghost var before := slots;
        DirtAll();
        AllDirty(before, slots, dirt);
        hide DirtAllSlots, NewChannel;
        id := k;
    }

    method ResetChannels()
      requires Valid()
      modifies this
      ensures Valid() && Value() == Reset(old(Value()))
      ensures animationSet == old(animationSet) && channels == map[]
      ensures |slots| == |old(slots)| && forall s | 0 <= s < |slots| :: slots[s].animation == old(slots)[s].animation
    {
      ResetKeepsInv(Value());
      channels := map[];
      DirtAll();
    }

    method EnableChannel(channelId: nat, enable: bool)
      requires Valid()
      modifies this`channels, this`listToEvalDirt
      ensures Valid()
      ensures Value() == if channelId in old(channels)
                         then WithEnabled(old(Value()), channelId, enable, old(channels)[channelId].lodEnabled)
                         else old(Value())
      ensures channelId in old(channels) ==>
                listToEvalDirt && channels == old(channels)[channelId := old(channels)[channelId].(userEnabled := enable)]
    {
      if channelId in channels {
        hide Inv;
        ghost var s := Value();
        var c := channels[channelId];
        WithEnabledKeepsInv(s, channelId, enable, c.lodEnabled);
        channels := channels[channelId := c.(userEnabled := enable)];
        listToEvalDirt := true;
        assert c.(userEnabled := enable) == c.(userEnabled := enable, lodEnabled := c.lodEnabled);
        assert Value() == WithEnabled(s, channelId, enable, c.lodEnabled);
      }
    }

    method LodEnableChannel(channelId: nat, enable: bool)
      requires Valid()
      modifies this`channels, this`listToEvalDirt
      ensures Valid()
      ensures Value() == if channelId in old(channels)
                         then WithEnabled(old(Value()), channelId, old(channels)[channelId].userEnabled, enable)
                         else old(Value())
      ensures channelId in old(channels) ==>
                listToEvalDirt && channels == old(channels)[channelId := old(channels)[channelId].(lodEnabled := enable)]
    {
      if channelId in channels {
        hide Inv;
        ghost var s := Value();
        var c := channels[channelId];
        WithEnabledKeepsInv(s, channelId, c.userEnabled, enable);
        channels := channels[channelId := c.(lodEnabled := enable)];
        listToEvalDirt := true;
        assert c.(lodEnabled := enable) == c.(userEnabled := c.userEnabled, lodEnabled := enable);
        assert Value() == WithEnabled(s, channelId, c.userEnabled, enable);
      }
    }

    method SetSlotAnimation(slot: nat, animation: Animation)
      requires Valid() && slot < NUM_SLOTS
      requires Agrees(animation, animationSet.channelNames, animationSet.headerOptimized)
      modifies this`slots, this`dirt
      ensures Valid() && Value() == WithAnimation(old(Value()), slot, Some(animation))
      ensures |slots| == NUM_SLOTS && slots[slot].animation == Some(animation)
      ensures forall s | 0 <= s < NUM_SLOTS && s != slot :: slots[s] == old(slots)[s]
    {
      WithAnimationKeepsInv(Value(), slot, Some(animation));
      if slots[slot].animation != Some(animation) {
        slots := slots[slot := Slot(Some(animation), true)];
        dirt := true;
      }
    }

    method EmptySlot(slot: nat)
      requires Valid() && slot < NUM_SLOTS
      modifies this`slots, this`dirt
      ensures Valid() && Value() == WithAnimation(old(Value()), slot, None)
      ensures |slots| == NUM_SLOTS && slots[slot].animation == None
      ensures forall s | 0 <= s < NUM_SLOTS && s != slot :: slots[s] == old(slots)[s]
    {
      WithAnimationKeepsInv(Value(), slot, None);
      if slots[slot].animation.Some? {
        slots := slots[slot := Slot(None, true)];
        dirt := true;
      }
    }

    /** The slots to look up again, and those whose cached tracks stay. */
    method SortSlots() returns (addSlots: seq<nat>, staySlots: seq<nat>)
      requires |slots| == NUM_SLOTS
      ensures SlotList(addSlots, slots, true) && SlotList(staySlots, slots, false)
    {
      addSlots, staySlots := [], [];
      for i := 0 to NUM_SLOTS
        invariant SlotList(addSlots, slots[..i], true) && SlotList(staySlots, slots[..i], false)
      {
        ghost var adds, stays := addSlots, staySlots;
        if slots[i].dirt && slots[i].animation.Some? {
          addSlots := addSlots + [i];
        }
        if !slots[i].dirt && slots[i].animation.Some? {
          staySlots := staySlots + [i];
        }
        NextSlot(adds, addSlots, slots, i, true);
        NextSlot(stays, staySlots, slots, i, false);
      }
      assert slots[..NUM_SLOTS] == slots;
    }

    /** Finds the tracks of a channel in the slots to look up, and whether the channel is in use. */
    method RefreshChannel(id: nat, addSlots: seq<nat>, staySlots: seq<nat>) returns (c: Channel)
      requires BaseOk(Value()) && id in channels && CacheOk(channels[id], slots)
      requires SlotList(addSlots, slots, true) && SlotList(staySlots, slots, false)
      ensures SameSettings(channels[id], c) && |c.tracks| == NUM_SLOTS && FreshOk(c, slots)
    {
      hide TrackIn, Used;
      var add;
      c, add := FindTracks(id, addSlots);
      TracksFound(channels[id], c, slots, addSlots);
      if !add {
        if c.inTheList {
          add := StillUsed(c, staySlots);
          // No more in use: the value takes the default.
          if !add {
            c := c.(defaulted := true);
          }
        }
      }
      UseFound(channels[id], c, slots, addSlots, staySlots, add);
      c := c.(inTheList := add);
    }

    /** Looks up the track of a channel in each of the slots given. */
    method FindTracks(id: nat, addSlots: seq<nat>) returns (c: Channel, add: bool)
      requires BaseOk(Value()) && id in channels && SlotList(addSlots, slots, true)
      ensures c == channels[id].(tracks := c.tracks) && |c.tracks| == NUM_SLOTS
      ensures forall j | 0 <= j < |addSlots| :: c.tracks[addSlots[j]] == TrackIn(slots[addSlots[j]], c.name, c.defaultTrack)
      ensures forall s | 0 <= s < NUM_SLOTS && s !in addSlots :: c.tracks[s] == channels[id].tracks[s]
      ensures add == exists j | 0 <= j < |addSlots| :: HasTrack(slots[addSlots[j]], c.name)
    {
      c, add := channels[id], false;
      for k := 0 to |addSlots|
        invariant c == channels[id].(tracks := c.tracks) && |c.tracks| == NUM_SLOTS
        invariant forall j | 0 <= j < k :: c.tracks[addSlots[j]] == TrackIn(slots[addSlots[j]], c.name, c.defaultTrack)
        invariant forall s | 0 <= s < NUM_SLOTS && s !in addSlots :: c.tracks[s] == channels[id].tracks[s]
        invariant add == exists j | 0 <= j < k :: HasTrack(slots[addSlots[j]], c.name)
      {
        var s := addSlots[k];
        var track, found := FindTrack(id, s);
        hide TrackIn, HasTrack, BaseOk;
        c := c.(tracks := c.tracks[s := track]);
        add := add || found;
      }
    }

    /** The track of a channel in a slot: that of the animation, or the default. */
    method FindTrack(id: nat, s: nat) returns (track: Track, found: bool)
      requires BaseOk(Value()) && id in channels && s < |slots| && slots[s].animation.Some?
      ensures track == TrackIn(slots[s], channels[id].name, channels[id].defaultTrack)
      ensures found == HasTrack(slots[s], channels[id].name)
    {
      var c, a := channels[id], slots[s].animation.value;
      var iDTrack := if animationSet.headerOptimized then Get(a.byChannelId, id) else Get(a.byName, c.name);
      if iDTrack.Some? {
        return AnimTrack(iDTrack.value), true;
      }
      return c.defaultTrack, false;
    }

    /** Whether a slot that stays has a track of its own for a channel. */
    method StillUsed(c: Channel, staySlots: seq<nat>) returns (add: bool)
      requires |slots| == |c.tracks| && c.defaultTrack.DefaultTrack? && SlotList(staySlots, slots, false)
      requires forall s | 0 <= s < |slots| && slots[s].animation.Some? :: c.tracks[s] == TrackIn(slots[s], c.name, c.defaultTrack)
      ensures add == exists j | 0 <= j < |staySlots| :: HasTrack(slots[staySlots[j]], c.name)
    {
      for k := 0 to |staySlots|
        invariant forall j | 0 <= j < k :: !HasTrack(slots[staySlots[j]], c.name)
      {
        if c.tracks[staySlots[k]] != c.defaultTrack {
          return true;
        }
      }
      return false;
    }

    /** Looks up the tracks of the dirty slots and threads the lists of the channels in use. */
    method RefreshList()
      requires Valid()
      modifies this`channels, this`firstGlobal, this`firstDetail, this`listToEvalDirt
      ensures BaseOk(Value()) && ListsFresh(Value()) && listToEvalDirt
      ensures AllSameSettings(old(channels), channels)
    {
      hide CacheOk, FreshOk, ListsFresh, EvalListsFresh, IsOpenChain, AllSameSettings, FreshBelow, Linked;
      ghost var s := Value();
      var addSlots, staySlots := SortSlots();
      var lastGlobal: Option<nat>, lastDetail: Option<nat> := None, None;
      var n := |animationSet.channelNames|;
      ProgressStarts(s);
      for id := 0 to n
        invariant s.(channels := channels, firstGlobal := firstGlobal, firstDetail := firstDetail) == Value()
        invariant Progress(s.channels, channels, s.slots, id, firstGlobal, lastGlobal, firstDetail, lastDetail)
      {
        StillToDo(s, channels, id);
        if id in channels {
          var c := RefreshChannel(id, addSlots, staySlots);
          DoneChannel(s.channels, channels, s.slots, id, firstGlobal, lastGlobal, firstDetail, lastDetail, c);
          channels := channels[id := c];
          if c.inTheList {
            if c.detail {
              ProgressLinks(s.channels, channels, s.slots, id, true, firstDetail, lastDetail, firstGlobal, lastGlobal);
              if lastDetail == None { firstDetail := Some(id); }
              channels := Linked(channels, lastDetail, Some(id));
              lastDetail := Some(id);
            } else {
              ProgressLinks(s.channels, channels, s.slots, id, false, firstGlobal, lastGlobal, firstDetail, lastDetail);
              if lastGlobal == None { firstGlobal := Some(id); }
              channels := Linked(channels, lastGlobal, Some(id));
              lastGlobal := Some(id);
            }
          } else {
            ProgressSkips(s.channels, channels, s.slots, id, firstGlobal, lastGlobal, firstDetail, lastDetail);
          }
        } else {
          AbsentChannel(s.channels, channels, s.slots, id);
          ProgressSkips(s.channels, channels, s.slots, id, firstGlobal, lastGlobal, firstDetail, lastDetail);
        }
      }
      ProgressEnds(s, channels, firstGlobal, lastGlobal, firstDetail, lastDetail);
      if lastGlobal == None { firstGlobal := None; }
      channels := Linked(channels, lastGlobal, None);
      if lastDetail == None { firstDetail := None; }
      channels := Linked(channels, lastDetail, None);
      listToEvalDirt := true;
      SameLists(s.(channels := channels, firstGlobal := firstGlobal, firstDetail := firstDetail), Value());
    }

    /** Marks every slot and the mixer clean. */
    method CleanAll()
      requires BaseOk(Value()) && ListsFresh(Value()) && listToEvalDirt
      modifies this`slots, this`dirt
      ensures Valid() && ListsFresh(Value()) && !dirt
      ensures |slots| == |old(slots)| && forall k | 0 <= k < |slots| :: slots[k].animation == old(slots)[k].animation
    {
      ghost var s := Value();
      for i := 0 to NUM_SLOTS
        invariant |slots| == NUM_SLOTS
        invariant forall k | 0 <= k < i :: slots[k] == s.slots[k].(dirt := false)
        invariant forall k | i <= k < NUM_SLOTS :: slots[k] == s.slots[k]
      {
        slots := slots[i := slots[i].(dirt := false)];
      }
      dirt := false;
      CleanSame(s, Value());
    }

    /** Collects the enabled channels of one threaded list. */
    method CollectEnabled(first: Option<nat>, ghost list: seq<nat>) returns (r: seq<nat>)
      requires IsChain(channels, first, list)
      ensures r == EnabledOf(channels, list)
    {
      r := [];
      var p := first;
      ghost var k := 0;
      while p.Some?
        invariant 0 <= k <= |list|
        invariant p == if k < |list| then Some(list[k]) else None
        invariant r == EnabledOf(channels, list[..k])
        decreases |list| - k
      {
        assert list[..k + 1][..k] == list[..k];
        ChainStep(channels, first, list, k);
        if Enabled(channels[p.value]) {
          r := r + [p.value];
        }
        p := channels[p.value].next;
        k := k + 1;
      }
      assert list[..k] == list;
    }

    method RefreshListToEval()
      requires Valid() && !dirt
      modifies this`globalListToEval, this`detailListToEval, this`listToEvalDirt
      ensures Valid() && !listToEvalDirt && EvalListsFresh(Value())
    {
      globalListToEval := CollectEnabled(firstGlobal, InUse(Value(), false));
      detailListToEval := CollectEnabled(firstDetail, InUse(Value(), true));
      listToEvalDirt := false;
    }

    /**
     * The prelude of every evaluation. Afterwards all three layers agree with the slots' animations:
     * the lists hold exactly the enabled channels in use, and every cached track is the right one.
     */
    method Refresh()
      requires Valid()
      modifies this`channels, this`firstGlobal, this`firstDetail, this`listToEvalDirt
      modifies this`slots, this`dirt, this`globalListToEval, this`detailListToEval
      ensures Valid() && !dirt && !listToEvalDirt
      ensures ListsFresh(Value()) && EvalListsFresh(Value())
      ensures AllSameSettings(old(channels), channels)
      ensures |slots| == NUM_SLOTS && forall s | 0 <= s < NUM_SLOTS :: slots[s].animation == old(slots)[s].animation
    {
      if dirt {
        RefreshList();
        CleanAll();
      }
      if listToEvalDirt {
        RefreshListToEval();
      }
    }
  }

  /** The slots that are not empty and have the given dirty flag. */
  ghost predicate SlotList(list: seq<nat>, slots: seq<Slot>, dirt: bool) {
    && (forall i | 0 <= i < |list| ::
          list[i] < |slots| && slots[list[i]].animation.Some? && slots[list[i]].dirt == dirt)
    && forall s | 0 <= s < |slots| && slots[s].animation.Some? && slots[s].dirt == dirt :: s in list
  }

  lemma NextSlot(before: seq<nat>, list: seq<nat>, slots: seq<Slot>, i: nat, dirt: bool)
    requires i < |slots| && SlotList(before, slots[..i], dirt)
    requires list == if slots[i].animation.Some? && slots[i].dirt == dirt then before + [i] else before
    ensures SlotList(list, slots[..i + 1], dirt)
  {
    forall s | 0 <= s < i + 1 && slots[s].animation.Some? && slots[s].dirt == dirt
      ensures s in list
    {
      if s < i {
        assert slots[..i][s] == slots[s];
      } else {
        assert list[|list| - 1] == i;
      }
    }
    forall k | 0 <= k < |list|
      ensures list[k] < i + 1 && slots[list[k]].animation.Some? && slots[list[k]].dirt == dirt
    {
      assert k < |before| ==> slots[..i][before[k]] == slots[before[k]];
    }
  }

  lemma EmptyKeepsInv(s: State, t: State)
    requires Inv(s) && t == s.(set_ := t.set_)
    requires BaseOk(t.(channels := map[]))
    ensures Inv(Reset(t))
  {
    var u := Reset(t);
    if AllEmpty(s.slots) {
      assert u.slots == s.slots;
      WhenIdle(s);
      if !s.dirt {
        WhenIdle(u);
      }
    }
  }

  lemma TracksFound(before: Channel, c: Channel, slots: seq<Slot>, addSlots: seq<nat>)
    requires |slots| == NUM_SLOTS && |before.tracks| == NUM_SLOTS && |c.tracks| == NUM_SLOTS
    requires CacheOk(before, slots) && c == before.(tracks := c.tracks)
    requires SlotList(addSlots, slots, true)
    requires forall j | 0 <= j < |addSlots| :: c.tracks[addSlots[j]] == TrackIn(slots[addSlots[j]], c.name, c.defaultTrack)
    requires forall s | 0 <= s < NUM_SLOTS && s !in addSlots :: c.tracks[s] == before.tracks[s]
    ensures forall s | 0 <= s < NUM_SLOTS && slots[s].animation.Some? :: c.tracks[s] == TrackIn(slots[s], c.name, c.defaultTrack)
  {
  }

  /** Whether the channel is in use has been found out. */
  lemma UseFound(before: Channel, c: Channel, slots: seq<Slot>, addSlots: seq<nat>, staySlots: seq<nat>, add: bool)
    requires |slots| == NUM_SLOTS && |before.tracks| == NUM_SLOTS && |c.tracks| == NUM_SLOTS
    requires CacheOk(before, slots) && SlotList(addSlots, slots, true) && SlotList(staySlots, slots, false)
    requires c.name == before.name
    requires var found := exists j | 0 <= j < |addSlots| :: HasTrack(slots[addSlots[j]], c.name);
             var stays := exists j | 0 <= j < |staySlots| :: HasTrack(slots[staySlots[j]], c.name);
             add == (found || (before.inTheList && stays))
    ensures add == Used(slots, c.name)
  {
    if s :| 0 <= s < NUM_SLOTS && HasTrack(slots[s], c.name) {
      var list := if slots[s].dirt then addSlots else staySlots;
      assert s in list;
      var j :| 0 <= j < |list| && list[j] == s;
      assert HasTrack(slots[list[j]], c.name);
    }
  }

  lemma ProgressStarts(s: State)
    requires Inv(s)
    ensures Progress(s.channels, s.channels, s.slots, 0, s.firstGlobal, None, s.firstDetail, None)
  {
  }

  lemma StillToDo(s: State, now: map<nat, Channel>, id: nat)
    requires Inv(s) && SameFrom(s.channels, now, id) && AllSameSettings(s.channels, now)
    ensures ChannelsOk(s.set_.channelNames, now)
    ensures id in now ==> CacheOk(now[id], s.slots)
  {
  }

  lemma AbsentChannel(before: map<nat, Channel>, now: map<nat, Channel>, slots: seq<Slot>, id: nat)
    requires |slots| == NUM_SLOTS && AllSameSettings(before, now) && id !in now
    requires FreshBelow(now, slots, id) && SameFrom(before, now, id)
    ensures id !in before && FreshBelow(now, slots, id + 1) && SameFrom(before, now, id + 1)
  {
  }

  lemma SameLists(s: State, t: State)
    requires BaseOk(s) && ListsFresh(s) && t == s.(listDirt := true)
    ensures BaseOk(t) && ListsFresh(t)
  {
  }

  lemma {:induction false} ListingIgnoresDirt(channels: map<nat, Channel>, a: seq<Slot>, b: seq<Slot>, detail: bool, n: nat)
    requires |a| == |b| && forall s | 0 <= s < |a| :: a[s].animation == b[s].animation
    ensures Listing(channels, a, detail, n) == Listing(channels, b, detail, n)
    ensures forall name :: Used(a, name) == Used(b, name)
  {
    assert forall name, s | 0 <= s < |a| :: HasTrack(a[s], name) == HasTrack(b[s], name);
    if n > 0 {
      ListingIgnoresDirt(channels, a, b, detail, n - 1);
      assert Listed(channels, a, detail, n - 1) == Listed(channels, b, detail, n - 1);
    }
  }

  lemma CleanSame(s: State, t: State)
    requires BaseOk(s) && ListsFresh(s) && s.listDirt
    requires t == s.(slots := t.slots, dirt := false) && |t.slots| == NUM_SLOTS
    requires forall k | 0 <= k < NUM_SLOTS :: t.slots[k] == s.slots[k].(dirt := false)
    ensures Inv(t) && ListsFresh(t)
  {
    ListingIgnoresDirt(s.channels, s.slots, t.slots, false, |s.set_.channelNames|);
    ListingIgnoresDirt(s.channels, s.slots, t.slots, true, |s.set_.channelNames|);
    assert forall id | id in t.channels :: FreshOk(t.channels[id], t.slots);
    FreshIsClean(t);
  }

  // ---- What the agreement means ----

  ghost predicate ToEval(s: State, detail: bool, id: nat) {
    Listed(s.channels, s.slots, detail, id) && Enabled(s.channels[id])
  }

  lemma {:induction false} EnabledMembers(channels: map<nat, Channel>, list: seq<nat>)
    requires Increasing(list) && forall i | 0 <= i < |list| :: list[i] in channels
    ensures Increasing(EnabledOf(channels, list))
    ensures forall id :: id in EnabledOf(channels, list) <==> id in list && Enabled(channels[id])
  {
    if list != [] {
      var front, last := list[..|list| - 1], list[|list| - 1];
      EnabledMembers(channels, front);
      assert list == front + [last];
      var r := EnabledOf(channels, front);
      assert EnabledOf(channels, list) == r + (if Enabled(channels[last]) then [last] else []);
      hide EnabledOf, Enabled;
      assert forall id | id in r :: id in front && id < last;
      IncreasingGrows(r, last);
      hide Increasing;
    }
  }

  lemma IncreasingGrows(r: seq<nat>, last: nat)
    requires Increasing(r) && forall id | id in r :: id < last
    ensures Increasing(r + [last])
  {
    assert forall i | 0 <= i < |r| :: r[i] in r;
  }

  lemma {:induction false} ListingComplete(channels: map<nat, Channel>, slots: seq<Slot>, detail: bool, n: nat, id: nat)
    requires id < n && Listed(channels, slots, detail, id)
    ensures id in Listing(channels, slots, detail, n)
  {
    if id < n - 1 {
      ListingComplete(channels, slots, detail, n - 1, id);
    }
  }

  /**
   * Main result. When both flags are clean, the list to evaluate of a detail mode is, in increasing
   * order of id and without repetition, exactly the enabled channels of that mode for which some
   * slot's animation has a track of the channel's name; and every cached track of a slot that is not
   * empty is the animation's track of that name, or else the default.
   */
  lemma CacheAgreement(s: State)
    requires Inv(s) && !s.dirt && !s.listDirt
    ensures Increasing(s.globalToEval) && Increasing(s.detailToEval)
    ensures forall i, j | 0 <= i < j < |s.globalToEval| :: s.globalToEval[i] < s.globalToEval[j]
    ensures forall i, j | 0 <= i < j < |s.detailToEval| :: s.detailToEval[i] < s.detailToEval[j]
    ensures forall id :: id in s.globalToEval <==>
              && id in s.channels && !s.channels[id].detail && s.channels[id].userEnabled && s.channels[id].lodEnabled
              && exists k :: 0 <= k < NUM_SLOTS && s.slots[k].animation.Some?
                             && s.channels[id].name in s.slots[k].animation.value.byName
    ensures forall id :: id in s.detailToEval <==>
              && id in s.channels && s.channels[id].detail && s.channels[id].userEnabled && s.channels[id].lodEnabled
              && exists k :: 0 <= k < NUM_SLOTS && s.slots[k].animation.Some?
                             && s.channels[id].name in s.slots[k].animation.value.byName
    ensures forall id, k | id in s.channels && 0 <= k < NUM_SLOTS && s.slots[k].animation.Some? ::
              var c, named := s.channels[id], s.slots[k].animation.value.byName;
              c.tracks[k] == if c.name in named then AnimTrack(named[c.name]) else c.defaultTrack
  {
    EvalListMeans(s, false);
    EvalListMeans(s, true);
    assert forall id | id in s.channels :: FreshOk(s.channels[id], s.slots);
    hide ListsFresh, IsChain, InUse, CachesOk, EnabledOf;
    forall id
      ensures id in s.globalToEval <==> ToEval(s, false, id)
      ensures id in s.detailToEval <==> ToEval(s, true, id)
    {
    }
    forall id, detail | id in s.channels
      ensures ToEval(s, detail, id) <==>
                && s.channels[id].detail == detail && s.channels[id].userEnabled && s.channels[id].lodEnabled
                && exists k :: 0 <= k < NUM_SLOTS && s.slots[k].animation.Some?
                               && s.channels[id].name in s.slots[k].animation.value.byName
    {
      UsedMeans(s.slots, s.channels[id].name);
    }
  }

  lemma UsedMeans(slots: seq<Slot>, name: string)
    ensures Used(slots, name) <==>
              exists k :: 0 <= k < |slots| && slots[k].animation.Some? && name in slots[k].animation.value.byName
  {
    if k :| 0 <= k < |slots| && slots[k].animation.Some? && name in slots[k].animation.value.byName {
      assert HasTrack(slots[k], name);
    }
  }

  /**
   * A channel that has been added is evaluated, after the next refresh, in the mode asked for and in no
   * other, if and only if some slot has a track of its name.
   */
  lemma AddedIsEvaluated(s: State, t: State, id: nat, name: string, detail: bool)
    requires id in s.channels && s.channels[id].name == name && s.channels[id].detail == detail
    requires s.channels[id].userEnabled && s.channels[id].lodEnabled && |s.slots| == NUM_SLOTS
    requires Inv(t) && !t.dirt && !t.listDirt && AllSameSettings(s.channels, t.channels)
    requires |t.slots| == NUM_SLOTS && forall k | 0 <= k < NUM_SLOTS :: t.slots[k].animation == s.slots[k].animation
    ensures var animated := exists k :: 0 <= k < NUM_SLOTS && s.slots[k].animation.Some?
                                        && name in s.slots[k].animation.value.byName;
            && (id in t.globalToEval <==> !detail && animated)
            && (id in t.detailToEval <==> detail && animated)
  {
    CacheAgreement(t);
    hide Inv;
    assert SameSettings(s.channels[id], t.channels[id]);
    assert forall k | 0 <= k < NUM_SLOTS :: t.slots[k].animation == s.slots[k].animation;
  }

  lemma EvalListMeans(s: State, detail: bool)
    requires BaseOk(s)
    ensures Increasing(EnabledOf(s.channels, InUse(s, detail)))
    ensures forall id :: id in EnabledOf(s.channels, InUse(s, detail)) <==> ToEval(s, detail, id)
  {
    var n := |s.set_.channelNames|;
    var list := InUse(s, detail);
    ListingMembers(s.channels, s.slots, detail, n);
    EnabledMembers(s.channels, list);
    forall id
      ensures id in list <==> Listed(s.channels, s.slots, detail, id)
    {
      if Listed(s.channels, s.slots, detail, id) {
        ListingComplete(s.channels, s.slots, detail, n, id);
      }
    }
  }

  // ---- Blending ----

  /** Total weight of the first n active slots for a channel. */
  ghost function TotalWeight(weights: seq<real>, n: nat): real
    requires n <= |weights|
  {
    if n == 0 then 0.0 else TotalWeight(weights, n - 1) + weights[n - 1]
  }

  ghost function WeightedSum(weights: seq<real>, values: seq<real>, n: nat): real
    requires n <= |weights| && n <= |values|
  {
    if n == 0 then 0.0 else WeightedSum(weights, values, n - 1) + weights[n - 1] * values[n - 1]
  }

  /** A mean, given by its sum and its total weight, is between two bounds. */
  ghost predicate MeanWithin(total: real, sum: real, lo: real, hi: real) {
    lo * total <= sum <= hi * total
  }

  /** The mean of values between two bounds is between them, and a slot of weight 0 does not count. */
  lemma {:induction false} MeanIsBetween(weights: seq<real>, values: seq<real>, n: nat, lo: real, hi: real)
    requires n <= |weights| && n <= |values|
    requires forall i | 0 <= i < n :: weights[i] >= 0.0 && (weights[i] > 0.0 ==> lo <= values[i] <= hi)
    ensures MeanWithin(TotalWeight(weights, n), WeightedSum(weights, values, n), lo, hi)
  {
    if n > 0 {
      MeanIsBetween(weights, values, n - 1, lo, hi);
      hide MeanWithin;
      OneMoreBetween(TotalWeight(weights, n - 1), WeightedSum(weights, values, n - 1), weights[n - 1], values[n - 1],
                     TotalWeight(weights, n), WeightedSum(weights, values, n), lo, hi);
    }
  }

  /** Each slot counts once, with its weight. */
  lemma {:induction false} EachSlotCounts(weights: seq<real>, values: seq<real>, n: nat, i: nat)
    requires i < n <= |weights| && n <= |values|
    ensures TotalWeight(weights, n) == TotalWeight(weights[i := 0.0], n) + weights[i]
    ensures WeightedSum(weights, values, n) == WeightedSum(weights[i := 0.0], values, n) + weights[i] * values[i]
  {
    if i < n - 1 {
      EachSlotCounts(weights, values, n - 1, i);
    } else {
      SameBefore(weights, weights[i := 0.0], values, n - 1);
    }
  }

  lemma {:induction false} SameBefore(a: seq<real>, b: seq<real>, values: seq<real>, n: nat)
    requires n <= |a| == |b| && n <= |values| && forall k | 0 <= k < n :: a[k] == b[k]
    ensures TotalWeight(a, n) == TotalWeight(b, n) && WeightedSum(a, values, n) == WeightedSum(b, values, n)
  {
    if n > 0 {
      SameBefore(a, b, values, n - 1);
    }
  }

  lemma OneMoreBetween(total: real, sum: real, w: real, v: real, total': real, sum': real, lo: real, hi: real)
    requires MeanWithin(total, sum, lo, hi) && w >= 0.0 && (w > 0.0 ==> lo <= v <= hi)
    requires total' == total + w && sum' == sum + w * v
    ensures MeanWithin(total', sum', lo, hi)
  {
    assert lo * (total + w) == lo * total + lo * w;
    assert hi * (total + w) == hi * total + hi * w;
    TermBetween(w, v, lo, hi);
  }

  lemma TermBetween(w: real, v: real, lo: real, hi: real)
    requires w >= 0.0 && (w > 0.0 ==> lo <= v <= hi)
    ensures lo * w <= w * v <= hi * w
  {
    if w > 0.0 {
      assert w * (v - lo) >= 0.0;
      assert w * (hi - v) >= 0.0;
    }
  }

  /**
   * The blend of one channel over the active slots: each further value is mixed in with the share of
   * its weight in the weights met so far. The result is the weighted mean, whatever the weights add
   * up to; if they are all zero the value is not modified.
   */
  method EvalSingleChannel(current: real, blends: seq<real>, values: seq<real>) returns (value: real)
    requires |blends| == |values| && forall i | 0 <= i < |blends| :: blends[i] >= 0.0
    ensures var total := TotalWeight(blends, |blends|);
            && (total > 0.0 ==> value * total == WeightedSum(blends, values, |blends|))
            && (total == 0.0 ==> value == current)
            && total >= 0.0
  {
    value := current;
    var first := true;
    var lastBlend := 0.0;
    for a := 0 to |blends|
      invariant lastBlend == TotalWeight(blends, a) >= 0.0
      invariant first <==> lastBlend == 0.0
      invariant first ==> value == current && WeightedSum(blends, values, a) == 0.0
      invariant !first ==> value * lastBlend == WeightedSum(blends, values, a)
    {
      var blend := blends[a];
      if blend != 0.0 {
        if first {
          value := values[a];
          lastBlend := blend;
          first := false;
        } else {
          var factor := lastBlend / (lastBlend + blend);
          BlendStep(value, values[a], lastBlend, blend);
          value := value * factor + values[a] * (1.0 - factor);
          lastBlend := lastBlend + blend;
        }
      }
    }
  }

  lemma BlendStep(value: real, v: real, last: real, blend: real)
    requires last > 0.0 && blend > 0.0
    ensures var factor := last / (last + blend);
            (value * factor + v * (1.0 - factor)) * (last + blend) == value * last + v * blend
  {
    var factor := last / (last + blend);
    assert factor * (last + blend) == last;
    assert (value * factor) * (last + blend) == value * (factor * (last + blend));
    assert (v * (1.0 - factor)) * (last + blend) == v * ((last + blend) - factor * (last + blend));
  }
}
