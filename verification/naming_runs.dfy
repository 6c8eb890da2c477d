/**
 * What every message keeps of the tables of the naming service, and what holds of whole runs.
 */
module NamingRuns {
  import opened NamingState
  import opened Wrappers

  // ---- Entries kept in order with their id, name and address ----

  ghost predicate SameService(a: Entry, b: Entry) {
    a.sid == b.sid && a.name == b.name && a.addr == b.addr
  }

  ghost predicate KeptAt(r: seq<Entry>, t: seq<Entry>, place: seq<nat>) {
    && |place| == |t|
    && (forall k | 0 <= k < |t| :: place[k] < |r| && SameService(r[place[k]], t[k]))
    && (forall j, k | 0 <= j < k < |t| :: place[j] < place[k])
  }

  lemma KeptStaysDistinct(s: State, t: State, place: seq<nat>)
    requires KeptAt(s.registered, t.registered, place) && t.online == s.online && t.unique == s.unique
    requires DistinctIds(s.registered) && AllOnline(s.registered, s.online) && AddressesOk(s.registered)
    requires UniqueOk(s.registered, s.unique)
    ensures DistinctIds(t.registered) && AllOnline(t.registered, t.online) && AddressesOk(t.registered)
    ensures UniqueOk(t.registered, t.unique)
  {
    forall i, j | 0 <= i < j < |t.registered|
      ensures t.registered[i].sid != t.registered[j].sid && MayCoexist(t.registered[i], t.registered[j], t.unique)
    {
      assert place[i] < place[j];
      assert MayCoexist(s.registered[place[i]], s.registered[place[j]], s.unique);
    }
  }

  // ---- Unregistration ----

  lemma FlaggedLive(r: seq<Entry>, i: nat, now: int, x: nat)
    requires i < |r| && DistinctIds(r)
    ensures IsLive(Flagged(r, i, now), x) <==> IsLive(r, x) && x != r[i].sid
  {
    var f := Flagged(r, i, now);
    if IsLive(r, x) && x != r[i].sid {
      var k :| 0 <= k < |r| && r[k].sid == x && !r[k].waiting;
      assert f[k].sid == x && !f[k].waiting;
    }
    if IsLive(f, x) {
      var k :| 0 <= k < |f| && f[k].sid == x && !f[k].waiting;
      assert k != i && r[k].sid == x && !r[k].waiting;
    }
  }

  /** What the entry at i becomes when its service unregisters. */
  ghost function Asked(r: seq<Entry>, i: nat, now: int): Entry
    requires i < |r|
  {
    var f := Flagged(r, i, now);
    Ask(f[i], Live(f))
  }

  /** The list with the unregistering entry in it, whether or not it leaves at once. */
  ghost function Marked(r: seq<Entry>, i: nat, now: int): seq<Entry>
    requires i < |r|
  {
    Flagged(r, i, now)[i := Asked(r, i, now)]
  }

  lemma MarkedLive(r: seq<Entry>, i: nat, now: int, x: nat)
    requires i < |r| && DistinctIds(r)
    ensures IsLive(Marked(r, i, now), x) <==> IsLive(r, x) && x != r[i].sid
  {
    FlaggedLive(r, i, now, x);
    var f, m := Flagged(r, i, now), Marked(r, i, now);
    if IsLive(m, x) {
      var k :| 0 <= k < |m| && m[k].sid == x && !m[k].waiting;
      assert f[k].sid == x && !f[k].waiting;
    }
    if IsLive(f, x) {
      var k :| 0 <= k < |f| && f[k].sid == x && !f[k].waiting;
      assert m[k].sid == x && !m[k].waiting;
    }
  }

  lemma MarkedAwaitsLive(r: seq<Entry>, i: nat, now: int)
    requires i < |r| && DistinctIds(r) && AwaitedAreLive(r)
    ensures AwaitedAreLive(Marked(r, i, now))
  {
    var f, m := Flagged(r, i, now), Marked(r, i, now);
    forall j, x | 0 <= j < |m| && x in m[j].waitingFor
      ensures IsLive(m, x)
    {
      MarkedLive(r, i, now, x);
      FlaggedLive(r, i, now, x);
      assert (x in r[j].waitingFor && x != r[i].sid) || IsLive(f, x);
    }
  }

  lemma MarkedKept(r: seq<Entry>, i: nat, now: int)
    requires i < |r|
    ensures KeptAt(r, Marked(r, i, now), seq(|r|, k => k))
  {
  }

  /** An erased entry: the places of the others. */
  function Others(n: nat, i: nat): seq<nat>
    requires i < n
  {
    seq(n - 1, k => if k < i then k else k + 1)
  }

  lemma ErasedLive(r: seq<Entry>, i: nat, x: nat)
    requires i < |r| && r[i].waiting && IsLive(r, x)
    ensures IsLive(r[..i] + r[i + 1..], x)
  {
    var k :| 0 <= k < |r| && r[k].sid == x && !r[k].waiting;
    var t := r[..i] + r[i + 1..];
    assert t[if k < i then k else k - 1] == r[k];
  }

  function Erased(r: seq<Entry>, i: nat): (t: seq<Entry>)
    requires i < |r|
    ensures |t| == |r| - 1 && forall j | 0 <= j < |t| :: t[j] == r[Others(|r|, i)[j]]
    ensures forall e | e in t :: e in r
  {
    r[..i] + r[i + 1..]
  }

  lemma DoRemoveIs(s: State, i: nat, now: int)
    requires i < |s.registered|
    ensures var m := Marked(s.registered, i, now);
            DoRemove(s, i, now) ==
              if m[i].waitingFor == [] then s.(registered := Erased(m, i))
              else s.(registered := m)
  {
    var f, m := Flagged(s.registered, i, now), Marked(s.registered, i, now);
    assert m[..i] == f[..i] && m[i + 1..] == f[i + 1..];
  }

  lemma ErasedAwaitsLive(m: seq<Entry>, i: nat)
    requires i < |m| && m[i].waiting && AwaitedAreLive(m)
    ensures AwaitedAreLive(Erased(m, i))
  {
    var t := Erased(m, i);
    forall j, x | 0 <= j < |t| && x in t[j].waitingFor
      ensures IsLive(t, x)
    {
      assert x in m[if j < i then j else j + 1].waitingFor;
      ErasedLive(m, i, x);
    }
  }

  /** `doRemove` keeps the invariant, whichever service unregisters, for the first time or not. */
  lemma DoRemoveKeepsInv(s: State, i: nat, now: int)
    requires Inv(s) && i < |s.registered|
    ensures Inv(DoRemove(s, i, now))
  {
    var r, m, t := s.registered, Marked(s.registered, i, now), DoRemove(s, i, now);
    MarkedAwaitsLive(r, i, now);
    MarkedKept(r, i, now);
    DoRemoveIs(s, i, now);
    hide AwaitedAreLive, DoRemove;
    if m[i].waitingFor == [] {
      ErasedAwaitsLive(m, i);
      assert KeptAt(r, t.registered, Others(|r|, i));
      KeptStaysDistinct(s, t, Others(|r|, i));
    } else {
      KeptStaysDistinct(s, t, seq(|r|, k => k));
    }
  }

  lemma {:induction false} UnregisterSockKeepsInv(s: State, sock: nat, i: nat, now: int)
    requires Inv(s) && i <= |s.registered|
    ensures Inv(UnregisterSock(s, sock, i, now))
    decreases |s.registered| - i
  {
    if i < |s.registered| {
      if s.registered[i].sock != Some(sock) {
        UnregisterSockKeepsInv(s, sock, i + 1, now);
      } else {
        DoRemoveKeepsInv(s, i, now);
        var t := DoRemove(s, i, now);
        UnregisterSockKeepsInv(t, sock, if |t.registered| == |s.registered| then i + 1 else i, now);
      }
    }
  }

  // ---- Acknowledgements and timeouts ----

  ghost function RemainingPlaces(r: seq<Entry>, now: int): seq<nat> {
    if |r| == 0 then []
    else
      var n := |r| - 1;
      if Leaves(r[n], now) then RemainingPlaces(r[..n], now) else RemainingPlaces(r[..n], now) + [n]
  }

  /** The entries left are those of the given places, in order. */
  ghost predicate TakenFrom(r: seq<Entry>, t: seq<Entry>, place: seq<nat>) {
    && |place| == |t|
    && (forall k | 0 <= k < |t| :: place[k] < |r| && t[k] == r[place[k]])
    && (forall j, k | 0 <= j < k < |t| :: place[j] < place[k])
  }

  lemma {:induction false} RemainingTaken(r: seq<Entry>, now: int)
    ensures TakenFrom(r, Remaining(r, now), RemainingPlaces(r, now))
  {
    if |r| > 0 {
      var n := |r| - 1;
      RemainingTaken(r[..n], now);
      hide TakenFrom;
      TakenGrows(r, Remaining(r[..n], now), RemainingPlaces(r[..n], now));
    }
  }

  lemma TakenGrows(r: seq<Entry>, t: seq<Entry>, place: seq<nat>)
    requires |r| > 0 && TakenFrom(r[..|r| - 1], t, place)
    ensures TakenFrom(r, t, place) && TakenFrom(r, t + [r[|r| - 1]], place + [|r| - 1])
  {
  }

  lemma {:induction false} OthersRemain(r: seq<Entry>, now: int, k: nat)
    requires k < |r| && !Leaves(r[k], now)
    ensures r[k] in Remaining(r, now)
  {
    if k < |r| - 1 {
      OthersRemain(r[..|r| - 1], now, k);
    }
  }

  /** The check keeps who goes on, in order, and nobody who has no more to wait for or has waited too long. */
  lemma {:induction false} RemainingAre(r: seq<Entry>, now: int)
    ensures forall e :: e in Remaining(r, now) <==>
              e in r && !(e.waiting && (e.waitingFor == [] || now > e.since + UNREGISTER_TIMEOUT))
    ensures TakenFrom(r, Remaining(r, now), RemainingPlaces(r, now))
  {
    RemainingTaken(r, now);
    hide TakenFrom;
    if |r| > 0 {
      var n := |r| - 1;
      RemainingAre(r[..n], now);
      assert forall e :: e in r <==> e in r[..n] || e == r[n];
    }
  }

  lemma CheckedKeepsInv(s: State, now: int)
    requires Inv(s)
    ensures Inv(Checked(s, now))
  {
    var r, t := s.registered, Checked(s, now);
    RemainingTaken(r, now);
    KeptStaysDistinct(s, t, RemainingPlaces(r, now));
    forall j, x | 0 <= j < |t.registered| && x in t.registered[j].waitingFor
      ensures IsLive(t.registered, x)
    {
      assert x in r[RemainingPlaces(r, now)[j]].waitingFor;
      assert IsLive(r, x);
      var k :| 0 <= k < |r| && r[k].sid == x && !r[k].waiting;
      OthersRemain(r, now, k);
    }
  }

  lemma AckedKeepsInv(s: State, j: nat, from: nat)
    requires Inv(s) && j < |s.registered| && s.registered[j].waiting
    ensures Inv(s.(registered := s.registered[j := AckedBy(s.registered[j], from)]))
  {
    var r := s.registered;
    var m := r[j := AckedBy(r[j], from)];
    var t := s.(registered := m);
    assert KeptAt(r, m, seq(|r|, k => k));
    KeptStaysDistinct(s, t, seq(|r|, k => k));
    forall i, x | 0 <= i < |m| && x in m[i].waitingFor
      ensures IsLive(m, x)
    {
      assert x in r[i].waitingFor;
      assert IsLive(r, x);
      var k :| 0 <= k < |r| && r[k].sid == x && !r[k].waiting;
      assert m[k] == r[k];
    }
  }

  lemma AckKeepsInv(s: State, sid: nat, from: nat, now: int)
    requires Inv(s)
    ensures Inv(Ack(s, sid, from, now))
  {
    var j := FindAwaiting(s.registered, sid, from, 0);
    if j < |s.registered| {
      AckedKeepsInv(s, j, from);
      CheckedKeepsInv(s.(registered := s.registered[j := AckedBy(s.registered[j], from)]), now);
    }
  }

  // ---- Registration ----

  /** The allocated id is the smallest free one from 128 on; there is none only if all are taken. */
  lemma {:induction false} FirstFreeIsFirst(r: seq<Entry>, sid: nat)
    ensures match FirstFree(r, sid)
            case Some(f) => sid <= f < SID_LIMIT && !Used(r, f) && forall x | sid <= x < f :: Used(r, x)
            case None => forall x | sid <= x < SID_LIMIT :: Used(r, x)
    decreases SID_LIMIT - sid
  {
    if sid < SID_LIMIT && Used(r, sid) {
      FirstFreeIsFirst(r, sid + 1);
    }
  }

  lemma FindsItself(r: seq<Entry>, k: nat)
    requires DistinctIds(r) && k < |r|
    ensures Find(r, r[k].sid, 0) == k
  {
  }

  /**
   * A service is denied if and only if a registered service of its restricted name stands against it,
   * on the shard or on its machine: the table of online ids adds nothing and misses nothing.
   */
  lemma DeniedMeans(s: State, name: string, ip: nat)
    requires Inv(s) && name != ""
    ensures Denied(s, name, ip) <==>
              name in s.unique
              && exists k :: 0 <= k < |s.registered| && s.registered[k].name == name
                             && (s.unique[name] || s.registered[k].addr[0].ip == ip)
  {
    var r := s.registered;
    if Denied(s, name, ip) {
      var o :| o in s.online && Blocks(s, name, ip, o);
      var k := Find(r, o, 0);
      assert r[k].name == name;
    }
    if k :| 0 <= k < |r| && r[k].name == name && name in s.unique && (s.unique[name] || r[k].addr[0].ip == ip) {
      FindsItself(r, k);
      assert Blocks(s, name, ip, r[k].sid);
    }
  }

  /** Registration under an id not in use. */
  lemma RegisterKeepsInv(s: State, name: string, addr: seq<Address>, sid: nat, sock: nat)
    requires Inv(s) && |addr| > 0 && (sid == 0 || !Used(s.registered, sid))
    ensures Register(s, name, addr, sid, sock).Some? ==> Inv(Register(s, name, addr, sid, sock).value)
  {
    if Register(s, name, addr, sid, sock).Some? {
      var id := ChosenId(s.registered, sid).value;
      FirstFreeIsFirst(s.registered, BASE_SID);
      assert !Used(s.registered, id);
      NewCoexists(s, NewEntry(name, addr, id, sock));
      hide Inv, MayCoexist, Denied, NewEntry;
      AddedKeepsInv(s, NewEntry(name, addr, id, sock));
    }
  }

  lemma AddedKeepsInv(s: State, e: Entry)
    requires Inv(s) && !Used(s.registered, e.sid) && |e.addr| > 0 && e.waitingFor == []
    requires forall k | 0 <= k < |s.registered| :: MayCoexist(s.registered[k], e, s.unique)
    ensures Inv(s.(registered := s.registered + [e], online := s.online + {e.sid}))
  {
    var t := s.registered + [e];
    NewKeepsAwaited(s.registered, e);
    hide AwaitedAreLive, MayCoexist;
    forall k | 0 <= k < |s.registered|
      ensures t[k] == s.registered[k] && t[k].sid != e.sid
    {
      assert s.registered[k].sid == s.registered[k].sid;
    }
  }

  lemma NewKeepsAwaited(r: seq<Entry>, e: Entry)
    requires AwaitedAreLive(r) && e.waitingFor == []
    ensures AwaitedAreLive(r + [e])
  {
    forall j, x | 0 <= j < |r + [e]| && x in (r + [e])[j].waitingFor
      ensures IsLive(r + [e], x)
    {
      assert x in r[j].waitingFor;
      assert IsLive(r, x);
      var k :| 0 <= k < |r| && r[k].sid == x && !r[k].waiting;
      assert (r + [e])[k] == r[k];
    }
  }

  lemma NewCoexists(s: State, e: Entry)
    requires Inv(s) && |e.addr| > 0 && !Denied(s, e.name, e.addr[0].ip)
    ensures forall k | 0 <= k < |s.registered| :: MayCoexist(s.registered[k], e, s.unique)
  {
    forall k | 0 <= k < |s.registered|
      ensures MayCoexist(s.registered[k], e, s.unique)
    {
      FindsItself(s.registered, k);
      assert !Blocks(s, e.name, e.addr[0].ip, s.registered[k].sid);
    }
  }

  /** An id provided by the caller is taken even if it is in use: that, and only that, doubles an id. */
  lemma RegisterDoublesId(s: State, name: string, addr: seq<Address>, sid: nat, sock: nat)
    requires Inv(s) && |addr| > 0 && Register(s, name, addr, sid, sock).Some?
    ensures DistinctIds(Register(s, name, addr, sid, sock).value.registered) <==> sid == 0 || !Used(s.registered, sid)
  {
    if sid == 0 || !Used(s.registered, sid) {
      RegisterKeepsInv(s, name, addr, sid, sock);
    } else {
      var k :| 0 <= k < |s.registered| && s.registered[k].sid == sid;
      var t := Register(s, name, addr, sid, sock).value.registered;
      assert t[k].sid == t[|s.registered|].sid;
    }
  }

  // ---- Runs ----

  datatype Event =
    | Registering(name: string, addr: seq<Address>, sid: nat, sock: nat)
    | Unregistering(sid: nat, now: int)
    | Disconnecting(sock: nat, now: int)
    | Acking(sid: nat, from: nat, now: int)
    | Updating(now: int)

  /** Services come with an address, and do not provide an id in use. */
  ghost predicate Enabled(s: State, ev: Event) {
    ev.Registering? ==> |ev.addr| > 0 && (ev.sid == 0 || !Used(s.registered, ev.sid))
  }

  ghost function Apply(s: State, ev: Event): State
    requires Enabled(s, ev)
  {
    match ev
    case Registering(name, addr, sid, sock) =>
      var t := Register(s, name, addr, sid, sock);
      if t.Some? then t.value else s
    case Unregistering(sid, now) => UnregisterSid(s, sid, now)
    case Disconnecting(sock, now) => UnregisterSock(s, sock, 0, now)
    case Acking(sid, from, now) => Ack(s, sid, from, now)
    case Updating(now) => Checked(s, now)
  }

  lemma StepKeepsInv(s: State, ev: Event)
    requires Inv(s) && Enabled(s, ev)
    ensures Inv(Apply(s, ev))
  {
    hide Inv;
    match ev
    case Registering(name, addr, sid, sock) => RegisterKeepsInv(s, name, addr, sid, sock);
    case Unregistering(sid, now) =>
      if Find(s.registered, sid, 0) < |s.registered| {
        DoRemoveKeepsInv(s, Find(s.registered, sid, 0), now);
      }
    case Disconnecting(sock, now) => UnregisterSockKeepsInv(s, sock, 0, now);
    case Acking(sid, from, now) => AckKeepsInv(s, sid, from, now);
    case Updating(now) => CheckedKeepsInv(s, now);
  }

  ghost predicate IsRun(states: seq<State>, events: seq<Event>) {
    && |states| == |events| + 1
    && states[0].registered == [] && states[0].online == {}
    && forall k | 0 <= k < |events| :: Enabled(states[k], events[k]) && states[k + 1] == Apply(states[k], events[k])
  }

  /** In every state of every run the invariant holds. */
  lemma {:induction false} RunsKeepInv(states: seq<State>, events: seq<Event>, k: nat)
    requires IsRun(states, events) && k < |states|
    ensures Inv(states[k])
  {
    if k > 0 {
      RunsKeepInv(states, events, k - 1);
      StepKeepsInv(states[k - 1], events[k - 1]);
    }
  }

  /** An id never goes offline, even when its service leaves. */
  lemma {:induction false} OnlineOnlyGrows(states: seq<State>, events: seq<Event>, k: nat, m: nat)
    requires IsRun(states, events) && k <= m < |states|
    ensures states[k].online <= states[m].online
  {
    if k < m {
      OnlineOnlyGrows(states, events, k, m - 1);
      StepOnline(states[m - 1], events[m - 1]);
    }
  }

  lemma StepOnline(s: State, ev: Event)
    requires Enabled(s, ev)
    ensures s.online <= Apply(s, ev).online
  {
    if ev.Disconnecting? {
      SockOnline(s, ev.sock, 0, ev.now);
    }
  }

  lemma {:induction false} SockOnline(s: State, sock: nat, i: nat, now: int)
    requires i <= |s.registered|
    ensures UnregisterSock(s, sock, i, now).online == s.online
    decreases |s.registered| - i
  {
    if i < |s.registered| {
      if s.registered[i].sock != Some(sock) {
        SockOnline(s, sock, i + 1, now);
      } else {
        var t := DoRemove(s, i, now);
        SockOnline(t, sock, if |t.registered| == |s.registered| then i + 1 else i, now);
      }
    }
  }

  // ---- Departures ----

  /** The event makes the registered service x unregister, for the first time or again. */
  ghost predicate Unregisters(s: State, ev: Event, x: nat) {
    match ev
    case Unregistering(sid, _) => sid == x && Used(s.registered, x)
    case Disconnecting(sock, _) => OnSock(s.registered, sock, 0, x)
    case _ => false
  }

  /** Service x is one of the connection, from place i on. */
  ghost predicate OnSock(r: seq<Entry>, sock: nat, i: nat, x: nat) {
    exists k :: i <= k < |r| && r[k].sid == x && r[k].sock == Some(sock)
  }

  /** Service sid is unregistering, and waits for x. */
  ghost predicate Awaits(r: seq<Entry>, sid: nat, x: nat) {
    exists k :: 0 <= k < |r| && r[k].sid == sid && r[k].waiting && x in r[k].waitingFor
  }

  /** If sid is unregistering, it is so since that time. */
  ghost predicate Since(r: seq<Entry>, sid: nat, time: int) {
    forall k | 0 <= k < |r| && r[k].sid == sid && r[k].waiting :: r[k].since == time
  }

  ghost predicate Waits(r: seq<Entry>, sid: nat) {
    exists k :: 0 <= k < |r| && r[k].sid == sid && r[k].waiting
  }

  // One unregistration: who waits goes on, but for the service that goes; it waits for all the others.

  lemma DoRemoveAwaits(s: State, i: nat, now: int, sid: nat, x: nat)
    requires Inv(s) && i < |s.registered| && x != s.registered[i].sid
    requires Awaits(s.registered, sid, x) || (sid == s.registered[i].sid && IsLive(s.registered, x))
    ensures Awaits(DoRemove(s, i, now).registered, sid, x)
  {
    var r, m, t := s.registered, Marked(s.registered, i, now), DoRemove(s, i, now).registered;
    FlaggedLive(r, i, now, x);
    DoRemoveIs(s, i, now);
    hide DoRemove;
    var k :| 0 <= k < |r| && r[k].sid == sid && x in m[k].waitingFor && m[k].waiting;
    assert m[k].sid == sid;
    assert IsLive(r, x) && x in m[i].waitingFor;
    assert t[k] == m[k];
  }

  lemma DoRemoveLive(s: State, i: nat, now: int, x: nat)
    requires Inv(s) && i < |s.registered|
    requires x != s.registered[i].sid && IsLive(s.registered, x)
    ensures IsLive(DoRemove(s, i, now).registered, x)
  {
    var r, m := s.registered, Marked(s.registered, i, now);
    MarkedLive(r, i, now, x);
    DoRemoveIs(s, i, now);
    assert m[i].waiting;
    hide DoRemove, Marked;
    if m[i].waitingFor == [] {
      ErasedLive(m, i, x);
    }
  }

  lemma DoRemoveSince(s: State, i: nat, now: int, sid: nat, time: int)
    requires Inv(s) && i < |s.registered|
    requires if sid == s.registered[i].sid then time == now else Since(s.registered, sid, time)
    ensures Since(DoRemove(s, i, now).registered, sid, time)
  {
    var r, m, t := s.registered, Marked(s.registered, i, now), DoRemove(s, i, now).registered;
    DoRemoveIs(s, i, now);
    hide DoRemove;
    forall k | 0 <= k < |t| && t[k].sid == sid && t[k].waiting
      ensures t[k].since == time
    {
      var p := if m[i].waitingFor == [] && k >= i then k + 1 else k;
      assert t[k] == m[p] && r[p].sid == m[p].sid;
    }
  }

  /** The services of the connection still to come. */
  lemma DoRemoveOnSock(s: State, i: nat, now: int, sock: nat, x: nat)
    requires Inv(s) && i < |s.registered|
    ensures var t := DoRemove(s, i, now).registered;
            var next := if |t| == |s.registered| then i + 1 else i;
            OnSock(t, sock, next, x) <==> OnSock(s.registered, sock, i + 1, x)
  {
    var r, m, t := s.registered, Marked(s.registered, i, now), DoRemove(s, i, now).registered;
    DoRemoveIs(s, i, now);
    hide DoRemove;
    var d := if m[i].waitingFor == [] then 1 else 0;
    if k :| i + 1 - d <= k < |t| && t[k].sid == x && t[k].sock == Some(sock) {
      assert t[k] == m[k + d];
      assert r[k + d].sid == x && r[k + d].sock == Some(sock);
    }
    if k :| i + 1 <= k < |r| && r[k].sid == x && r[k].sock == Some(sock) {
      assert t[k - d] == m[k];
    }
  }

  // A lost connection.

  lemma {:induction false} SockAwaits(s: State, sock: nat, i: nat, now: int, sid: nat, x: nat)
    requires Inv(s) && i <= |s.registered| && !OnSock(s.registered, sock, i, x)
    requires Awaits(s.registered, sid, x) || (OnSock(s.registered, sock, i, sid) && IsLive(s.registered, x))
    ensures Awaits(UnregisterSock(s, sock, i, now).registered, sid, x)
    decreases |s.registered| - i
  {
    var r := s.registered;
    if i < |r| {
      if r[i].sock != Some(sock) {
        SockAwaits(s, sock, i + 1, now, sid, x);
      } else {
        var t := DoRemove(s, i, now);
        assert r[i].sid != x;
        DoRemoveKeepsInv(s, i, now);
        DoRemoveOnSock(s, i, now, sock, x);
        DoRemoveOnSock(s, i, now, sock, sid);
        if Awaits(r, sid, x) || sid == r[i].sid {
          DoRemoveAwaits(s, i, now, sid, x);
        } else {
          DoRemoveLive(s, i, now, x);
        }
        hide Inv, DoRemove, Awaits, IsLive;
        SockAwaits(t, sock, if |t.registered| == |r| then i + 1 else i, now, sid, x);
      }
    }
  }

  lemma {:induction false} SockSince(s: State, sock: nat, i: nat, now: int, sid: nat, time: int)
    requires Inv(s) && i <= |s.registered|
    requires if OnSock(s.registered, sock, i, sid) then time == now else Since(s.registered, sid, time)
    ensures Since(UnregisterSock(s, sock, i, now).registered, sid, time)
    decreases |s.registered| - i
  {
    var r := s.registered;
    if i < |r| {
      if r[i].sock != Some(sock) {
        SockSince(s, sock, i + 1, now, sid, time);
      } else {
        var t := DoRemove(s, i, now);
        DoRemoveKeepsInv(s, i, now);
        DoRemoveOnSock(s, i, now, sock, sid);
        if sid == r[i].sid || !OnSock(r, sock, i + 1, sid) {
          assert OnSock(r, sock, i, sid) ==> sid == r[i].sid;
          DoRemoveSince(s, i, now, sid, time);
        }
        hide Inv, DoRemove, Since;
        SockSince(t, sock, if |t.registered| == |r| then i + 1 else i, now, sid, time);
      }
    }
  }

  // The timeout check and an acknowledgement.

  /** A service that waits goes on, or its timeout is over and it leaves. */
  lemma CheckedAwaits(s: State, now: int, sid: nat, x: nat, time: int)
    requires Inv(s) && Awaits(s.registered, sid, x) && Since(s.registered, sid, time)
    ensures Awaits(Checked(s, now).registered, sid, x)
         || (now > time + UNREGISTER_TIMEOUT && !Used(Checked(s, now).registered, sid))
  {
    var r, t := s.registered, Remaining(s.registered, now);
    var k :| 0 <= k < |r| && r[k].sid == sid && r[k].waiting && x in r[k].waitingFor;
    if !Leaves(r[k], now) {
      OthersRemain(r, now, k);
    } else {
      RemainingTaken(r, now);
      RemainingStay(r, now);
    }
  }

  lemma {:induction false} RemainingStay(r: seq<Entry>, now: int)
    ensures forall e | e in Remaining(r, now) :: !Leaves(e, now)
  {
    if |r| > 0 {
      RemainingStay(r[..|r| - 1], now);
    }
  }

  lemma CheckedSince(s: State, now: int, sid: nat, time: int)
    requires Since(s.registered, sid, time)
    ensures Since(Checked(s, now).registered, sid, time)
  {
    RemainingTaken(s.registered, now);
  }

  // Any event.

  ghost function TimeOf(ev: Event): int {
    if ev.Registering? then 0 else ev.now
  }

  /** Why service sid would not wait for x after an event: x has acknowledged, or unregisters itself. */
  ghost predicate Releases(s: State, ev: Event, sid: nat, x: nat) {
    (ev.Acking? && ev.sid == sid && ev.from == x) || Unregisters(s, ev, x)
  }

  /** From its unregistration on, a service waits for each live one until it has a reason not to. */
  lemma StepAwaits(s: State, ev: Event, sid: nat, x: nat, time: int)
    requires Inv(s) && Enabled(s, ev) && !Releases(s, ev, sid, x)
    requires Awaits(s.registered, sid, x) || (x != sid && Unregisters(s, ev, sid) && IsLive(s.registered, x))
    requires Unregisters(s, ev, sid) || Since(s.registered, sid, time)
    ensures var t := Apply(s, ev);
            || Awaits(t.registered, sid, x)
            || (TimeOf(ev) > time + UNREGISTER_TIMEOUT && !Used(t.registered, sid) && !Unregisters(s, ev, sid))
  {
    var r := s.registered;
    match ev
    case Registering(name, addr, id, sock) =>
      var k :| 0 <= k < |r| && r[k].sid == sid && r[k].waiting && x in r[k].waitingFor;
      assert Apply(s, ev).registered[k] == r[k];
    case Unregistering(id, now) =>
      var i := Find(r, id, 0);
      if i < |r| {
        assert x != id;
        DoRemoveAwaits(s, i, now, sid, x);
      }
    case Disconnecting(sock, now) =>
      SockAwaits(s, sock, 0, now, sid, x);
    case Acking(id, from, now) =>
      var j := FindAwaiting(r, id, from, 0);
      if j < |r| {
        var t := s.(registered := r[j := AckedBy(r[j], from)]);
        AckedKeepsInv(s, j, from);
        var k :| 0 <= k < |r| && r[k].sid == sid && r[k].waiting && x in r[k].waitingFor;
        assert t.registered[k].sid == sid && t.registered[k].waiting && x in t.registered[k].waitingFor;
        CheckedAwaits(t, now, sid, x, time);
      }
    case Updating(now) =>
      CheckedAwaits(s, now, sid, x, time);
  }

  lemma StepSince(s: State, ev: Event, sid: nat, time: int)
    requires Inv(s) && Enabled(s, ev)
    requires if Unregisters(s, ev, sid) then time == TimeOf(ev) else Since(s.registered, sid, time)
    ensures Since(Apply(s, ev).registered, sid, time)
  {
    var r := s.registered;
    match ev
    case Registering(name, addr, id, sock) =>
    case Unregistering(id, now) =>
      var i := Find(r, id, 0);
      if i < |r| {
        DoRemoveSince(s, i, now, sid, time);
      }
    case Disconnecting(sock, now) =>
      SockSince(s, sock, 0, now, sid, time);
    case Acking(id, from, now) =>
      var j := FindAwaiting(r, id, from, 0);
      if j < |r| {
        CheckedSince(s.(registered := r[j := AckedBy(r[j], from)]), now, sid, time);
      }
    case Updating(now) =>
      CheckedSince(s, now, sid, time);
  }

  // Who unregisters, and who leaves.

  lemma DoRemoveWaits(s: State, i: nat, now: int, sid: nat)
    requires i < |s.registered| && sid != s.registered[i].sid
    ensures Waits(DoRemove(s, i, now).registered, sid) ==> Waits(s.registered, sid)
    ensures Used(s.registered, sid) ==> Used(DoRemove(s, i, now).registered, sid)
  {
    var r, m, t := s.registered, Marked(s.registered, i, now), DoRemove(s, i, now).registered;
    DoRemoveIs(s, i, now);
    hide DoRemove;
    var d := if m[i].waitingFor == [] then 1 else 0;
    if k :| 0 <= k < |t| && t[k].sid == sid && t[k].waiting {
      var p := if k < i then k else k + d;
      assert t[k] == m[p];
      assert r[p].sid == sid && r[p].waiting;
    }
    if k :| 0 <= k < |r| && r[k].sid == sid {
      assert m[k].sid == sid && t[if k < i then k else k - d] == m[k];
    }
  }

  lemma {:induction false} SockWaits(s: State, sock: nat, i: nat, now: int, sid: nat)
    requires Inv(s) && i <= |s.registered| && !OnSock(s.registered, sock, i, sid)
    ensures Waits(UnregisterSock(s, sock, i, now).registered, sid) ==> Waits(s.registered, sid)
    ensures Used(s.registered, sid) ==> Used(UnregisterSock(s, sock, i, now).registered, sid)
    decreases |s.registered| - i
  {
    var r := s.registered;
    if i < |r| {
      if r[i].sock != Some(sock) {
        SockWaits(s, sock, i + 1, now, sid);
      } else {
        var t := DoRemove(s, i, now);
        assert r[i].sid != sid;
        DoRemoveKeepsInv(s, i, now);
        DoRemoveOnSock(s, i, now, sock, sid);
        DoRemoveWaits(s, i, now, sid);
        hide Inv, DoRemove, Waits, Used;
        SockWaits(t, sock, if |t.registered| == |r| then i + 1 else i, now, sid);
      }
    }
  }

  lemma CheckedWaits(s: State, now: int, sid: nat)
    ensures Waits(Checked(s, now).registered, sid) ==> Waits(s.registered, sid)
    ensures Used(s.registered, sid) && !Waits(s.registered, sid) ==> Used(Checked(s, now).registered, sid)
  {
    var r := s.registered;
    RemainingTaken(r, now);
    if Used(r, sid) && !Waits(r, sid) {
      var k :| 0 <= k < |r| && r[k].sid == sid;
      OthersRemain(r, now, k);
    }
  }

  /** A service begins to wait only when it unregisters, and leaves only when it waits. */
  lemma StepWaits(s: State, ev: Event, sid: nat)
    requires Inv(s) && Enabled(s, ev) && Used(s.registered, sid) && !Waits(s.registered, sid)
    requires !Unregisters(s, ev, sid)
    ensures Used(Apply(s, ev).registered, sid) && !Waits(Apply(s, ev).registered, sid)
  {
    var r := s.registered;
    var p :| 0 <= p < |r| && r[p].sid == sid;
    match ev
    case Registering(name, addr, id, sock) =>
      assert Apply(s, ev).registered[p] == r[p];
    case Unregistering(id, now) =>
      var i := Find(r, id, 0);
      if i < |r| {
        DoRemoveWaits(s, i, now, sid);
      }
    case Disconnecting(sock, now) =>
      SockWaits(s, sock, 0, now, sid);
    case Acking(id, from, now) =>
      var j := FindAwaiting(r, id, from, 0);
      if j < |r| {
        var t := s.(registered := r[j := AckedBy(r[j], from)]);
        assert t.registered[p].sid == sid;
        CheckedWaits(t, now, sid);
      }
    case Updating(now) =>
      CheckedWaits(s, now, sid);
  }

  // Runs.

  /** Event j makes sid unregister, and sid stays registered until event k. */
  ghost predicate UnregistersAt(states: seq<State>, events: seq<Event>, sid: nat, j: nat, k: nat)
    requires j <= k < |events| < |states|
  {
    Unregisters(states[j], events[j], sid) && forall a | j <= a <= k :: Used(states[a].registered, sid)
  }

  lemma {:induction false} WaitersUnregistered(states: seq<State>, events: seq<Event>, sid: nat, k: nat)
    requires IsRun(states, events) && k < |events| && Used(states[k].registered, sid)
    requires Waits(states[k].registered, sid) || Unregisters(states[k], events[k], sid)
    ensures exists j | 0 <= j <= k :: UnregistersAt(states, events, sid, j, k)
  {
    if Unregisters(states[k], events[k], sid) {
      assert UnregistersAt(states, events, sid, k, k);
    } else {
      var s, ev := states[k - 1], events[k - 1];
      RunsKeepInv(states, events, k - 1);
      if !Used(s.registered, sid) {
        NewcomersDoNotWait(s, ev, sid);
      } else if !Waits(s.registered, sid) && !Unregisters(s, ev, sid) {
        StepWaits(s, ev, sid);
      }
      WaitersUnregistered(states, events, sid, k - 1);
      var j :| 0 <= j <= k - 1 && UnregistersAt(states, events, sid, j, k - 1);
      assert UnregistersAt(states, events, sid, j, k);
    }
  }

  lemma NewcomersDoNotWait(s: State, ev: Event, sid: nat)
    requires Inv(s) && Enabled(s, ev) && !Used(s.registered, sid)
    ensures !Waits(Apply(s, ev).registered, sid)
  {
    match ev
    case Registering(name, addr, id, sock) =>
    case Unregistering(id, now) =>
      var i := Find(s.registered, id, 0);
      if i < |s.registered| {
        DoRemoveWaits(s, i, now, sid);
      }
    case Disconnecting(sock, now) =>
      SockWaits(s, sock, 0, now, sid);
    case Acking(id, from, now) =>
      var j := FindAwaiting(s.registered, id, from, 0);
      if j < |s.registered| {
        CheckedWaits(s.(registered := s.registered[j := AckedBy(s.registered[j], from)]), now, sid);
      }
    case Updating(now) =>
      CheckedWaits(s, now, sid);
  }

  /** A service that leaves had unregistered, while it was registered under this id. */
  lemma LeaversUnregistered(states: seq<State>, events: seq<Event>, sid: nat, k: nat)
    requires IsRun(states, events) && k < |events|
    requires Used(states[k].registered, sid) && !Used(states[k + 1].registered, sid)
    ensures exists j | 0 <= j <= k :: UnregistersAt(states, events, sid, j, k)
  {
    RunsKeepInv(states, events, k);
    if !Waits(states[k].registered, sid) && !Unregisters(states[k], events[k], sid) {
      StepWaits(states[k], events[k], sid);
    }
    WaitersUnregistered(states, events, sid, k);
  }

  // A service that unregisters is live no more, until it leaves.

  lemma DoRemoveEndsLife(s: State, i: nat, now: int, sid: nat)
    requires Inv(s) && i < |s.registered| && (sid == s.registered[i].sid || !IsLive(s.registered, sid))
    ensures !IsLive(DoRemove(s, i, now).registered, sid)
  {
    var r, m, t := s.registered, Marked(s.registered, i, now), DoRemove(s, i, now).registered;
    MarkedLive(r, i, now, sid);
    DoRemoveIs(s, i, now);
    hide DoRemove, Marked;
    forall e | e in t ensures e.sid != sid || e.waiting {
      assert e in m;
    }
  }

  lemma {:induction false} SockEndsLife(s: State, sock: nat, i: nat, now: int, sid: nat)
    requires Inv(s) && i <= |s.registered| && (OnSock(s.registered, sock, i, sid) || !IsLive(s.registered, sid))
    ensures !IsLive(UnregisterSock(s, sock, i, now).registered, sid)
    decreases |s.registered| - i
  {
    var r := s.registered;
    if i < |r| {
      if r[i].sock != Some(sock) {
        SockEndsLife(s, sock, i + 1, now, sid);
      } else {
        var t := DoRemove(s, i, now);
        DoRemoveKeepsInv(s, i, now);
        DoRemoveOnSock(s, i, now, sock, sid);
        if sid == r[i].sid || !IsLive(r, sid) {
          DoRemoveEndsLife(s, i, now, sid);
        }
        hide Inv, DoRemove, IsLive;
        SockEndsLife(t, sock, if |t.registered| == |r| then i + 1 else i, now, sid);
      }
    }
  }

  lemma CheckedEndsLife(s: State, now: int, sid: nat)
    requires !IsLive(s.registered, sid)
    ensures !IsLive(Checked(s, now).registered, sid)
  {
    RemainingTaken(s.registered, now);
  }

  lemma StepEndsLife(s: State, ev: Event, sid: nat)
    requires Inv(s) && Enabled(s, ev) && Used(s.registered, sid)
    requires Unregisters(s, ev, sid) || !IsLive(s.registered, sid)
    ensures !IsLive(Apply(s, ev).registered, sid)
  {
    var r := s.registered;
    match ev
    case Registering(name, addr, id, sock) => NewcomerIsOther(s, name, addr, id, sock, sid);
    case Unregistering(id, now) =>
      var i := Find(r, id, 0);
      if i < |r| {
        DoRemoveEndsLife(s, i, now, sid);
      }
    case Disconnecting(sock, now) =>
      SockEndsLife(s, sock, 0, now, sid);
    case Acking(id, from, now) =>
      var j := FindAwaiting(r, id, from, 0);
      if j < |r| {
        CheckedEndsLife(s.(registered := r[j := AckedBy(r[j], from)]), now, sid);
      }
    case Updating(now) =>
      CheckedEndsLife(s, now, sid);
  }

  lemma NewcomerIsOther(s: State, name: string, addr: seq<Address>, id: nat, sock: nat, sid: nat)
    requires |addr| > 0 && (id == 0 || !Used(s.registered, id)) && Used(s.registered, sid)
    requires !IsLive(s.registered, sid)
    ensures Register(s, name, addr, id, sock).Some? ==> !IsLive(Register(s, name, addr, id, sock).value.registered, sid)
  {
    FirstFreeIsFirst(s.registered, BASE_SID);
  }

  lemma {:induction false} NotLiveAfter(states: seq<State>, events: seq<Event>, sid: nat, j: nat, k: nat)
    requires IsRun(states, events) && j < k < |events| && UnregistersAt(states, events, sid, j, k)
    ensures !IsLive(states[k].registered, sid)
  {
    var s, ev := states[k - 1], events[k - 1];
    RunsKeepInv(states, events, k - 1);
    hide Inv, Unregisters, Used, Apply, IsLive;
    if j < k - 1 {
      NotLiveAfter(states, events, sid, j, k - 1);
    }
    StepEndsLife(s, ev, sid);
  }

  /**
   * The timeout is kept: a service still there when an update comes later than its last unregistration and
   * the timeout leaves then, whoever it still waits for.
   */
  lemma ExpiredLeave(states: seq<State>, events: seq<Event>, sid: nat, j: nat, l: nat, k: nat)
    requires IsRun(states, events) && j <= l < k < |events| && UnregistersAt(states, events, sid, j, k)
    requires LastUnregistration(states, events, sid, l, k)
    requires events[k].Updating? && events[k].now > TimeOf(events[l]) + UNREGISTER_TIMEOUT
    ensures !Used(states[k + 1].registered, sid)
  {
    NotLiveAfter(states, events, sid, j, k);
    var last := SinceLast(states, events, sid, j, k);
    assert last == l;
    var s, t := states[k], states[k + 1];
    RemainingAre(s.registered, events[k].now);
    assert t.registered == Remaining(s.registered, events[k].now);
    hide IsRun, Remaining, UnregistersAt, LastUnregistration;
    forall e | e in t.registered ensures e.sid != sid {
      assert e in s.registered;
    }
  }

  /** So does one that has nobody left to wait for, at any update. */
  lemma ReleasedLeave(s: State, sid: nat, now: int)
    requires forall k | 0 <= k < |s.registered| && s.registered[k].sid == sid ::
               s.registered[k].waiting && s.registered[k].waitingFor == []
    ensures !Used(Checked(s, now).registered, sid)
  {
    RemainingAre(s.registered, now);
    var t := Remaining(s.registered, now);
    hide Remaining;
    forall e | e in t ensures e.sid != sid {
      assert e in s.registered;
    }
  }

  /** From event j to event k, x acknowledged that sid goes, or unregistered itself. */
  ghost predicate Released(states: seq<State>, events: seq<Event>, sid: nat, x: nat, j: nat, k: nat)
    requires k < |events| < |states|
  {
    exists a | j <= a <= k :: Releases(states[a], events[a], sid, x)
  }

  /** Event l is the last one before k that makes sid unregister. */
  ghost predicate LastUnregistration(states: seq<State>, events: seq<Event>, sid: nat, l: nat, k: nat)
    requires l < k <= |events| < |states|
  {
    Unregisters(states[l], events[l], sid) && forall a | l < a < k :: !Unregisters(states[a], events[a], sid)
  }

  /** The timeout that began with the last unregistration of sid is over at event k. */
  ghost predicate TimedOut(states: seq<State>, events: seq<Event>, sid: nat, j: nat, k: nat)
    requires k < |events| < |states|
  {
    exists l | j <= l < k :: LastUnregistration(states, events, sid, l, k)
                             && TimeOf(events[k]) > TimeOf(events[l]) + UNREGISTER_TIMEOUT
  }

  lemma {:induction false} SinceLast(states: seq<State>, events: seq<Event>, sid: nat, j: nat, k: nat)
    returns (l: nat)
    requires IsRun(states, events) && j < k < |events| && UnregistersAt(states, events, sid, j, k)
    ensures j <= l < k && LastUnregistration(states, events, sid, l, k)
    ensures Since(states[k].registered, sid, TimeOf(events[l]))
  {
    var s, ev := states[k - 1], events[k - 1];
    RunsKeepInv(states, events, k - 1);
    hide Inv, Since, Unregisters, Used, Apply, TimeOf;
    l := k - 1;
    if !Unregisters(s, ev, sid) {
      l := SinceLast(states, events, sid, j, k - 1);
    }
    StepSince(s, ev, sid, TimeOf(events[l]));
  }

  lemma {:induction false} AwaitsOn(states: seq<State>, events: seq<Event>, sid: nat, x: nat, j: nat, k: nat)
    requires IsRun(states, events) && j < k < |events| && UnregistersAt(states, events, sid, j, k)
    requires x != sid && IsLive(states[j].registered, x)
    ensures Awaits(states[k].registered, sid, x) || Released(states, events, sid, x, j, k - 1)
  {
    var s, ev := states[k - 1], events[k - 1];
    RunsKeepInv(states, events, k - 1);
    hide Inv, Since, Awaits, Unregisters, Used, Apply, Releases, IsLive, TimeOf;
    var time := TimeOf(ev);
    if j < k - 1 {
      AwaitsOn(states, events, sid, x, j, k - 1);
      var l := SinceLast(states, events, sid, j, k - 1);
      time := TimeOf(events[l]);
    }
    if !Released(states, events, sid, x, j, k - 1) {
      assert !Releases(s, ev, sid, x);
      StepAwaits(s, ev, sid, x, time);
    }
  }

  /**
   * Over whole runs: when a service leaves, each service that was live when it unregistered has, since
   * then, acknowledged it or unregistered itself, or the timeout that began with its last unregistration
   * is over.
   */
  lemma DeparturesAreProper(states: seq<State>, events: seq<Event>, sid: nat, x: nat, j: nat, k: nat)
    requires IsRun(states, events) && j <= k < |events| && UnregistersAt(states, events, sid, j, k)
    requires !Used(states[k + 1].registered, sid)
    requires x != sid && IsLive(states[j].registered, x)
    ensures Released(states, events, sid, x, j, k) || TimedOut(states, events, sid, j, k)
  {
    var s, ev := states[k], events[k];
    RunsKeepInv(states, events, k);
    var l := j;
    if j < k {
      AwaitsOn(states, events, sid, x, j, k);
      l := SinceLast(states, events, sid, j, k);
    }
    if !Released(states, events, sid, x, j, k) {
      assert !Releases(s, ev, sid, x);
      StepAwaits(s, ev, sid, x, TimeOf(events[l]));
    }
  }

  // ---- Who is told ----

  /** Whoever is asked is awaited, told or not: told only if it can access the service that goes. */
  ghost predicate Told(s: State, i: nat, x: nat)
    requires i < |s.registered|
  {
    exists k :: 0 <= k < |s.registered| && s.registered[k].sid == x && CanAccess(s.registered[i].addr, s.registered[k])
  }

  /**
   * Every awaited service was told of the unregistration if and only if all the live services can
   * access it. One that cannot will hold the entry until the timeout.
   */
  lemma AwaitedWereTold(s: State, i: nat, now: int)
    requires Inv(s) && i < |s.registered| && !s.registered[i].waiting
    ensures (forall x | x in Asked(s.registered, i, now).waitingFor :: Told(s, i, x))
       <==> forall k | 0 <= k < |s.registered| && k != i && !s.registered[k].waiting ::
              CanAccess(s.registered[i].addr, s.registered[k])
  {
    var r, f := s.registered, Flagged(s.registered, i, now);
    forall x
      ensures x in Asked(r, i, now).waitingFor <==> IsLive(r, x) && x != r[i].sid
    {
      FlaggedLive(r, i, now, x);
    }
    hide CanAccess;
    forall k | 0 <= k < |r| && k != i && !r[k].waiting
      ensures r[k].sid in Asked(r, i, now).waitingFor
      ensures Told(s, i, r[k].sid) <==> CanAccess(r[i].addr, r[k])
    {
      assert r[k].sid == r[k].sid && IsLive(r, r[k].sid);
    }
  }

  // ---- What one message means ----

  /**
   * Beginning an unregistration: the service goes at once if and only if no other is live; else it is on no
   * connection any more, since now, and waits for exactly the others that are live. Nobody waits for it.
   */
  lemma DoRemoveMeans(s: State, i: nat, now: int)
    requires Inv(s) && i < |s.registered|
    ensures var r, t := s.registered, DoRemove(s, i, now).registered;
            var sid := r[i].sid;
            && (Used(t, sid) <==> exists x :: x != sid && IsLive(r, x))
            && (forall e | e in t && e.sid == sid ::
                  && SameService(e, r[i]) && e.sock == None && e.waiting && e.since == now
                  && forall x :: x in e.waitingFor <==> x != sid && IsLive(r, x))
            && (forall e | e in t :: sid !in e.waitingFor)
  {
    var r, m, t := s.registered, Marked(s.registered, i, now), DoRemove(s, i, now).registered;
    var sid := r[i].sid;
    DoRemoveIs(s, i, now);
    forall x
      ensures x in m[i].waitingFor <==> x != sid && IsLive(r, x)
    {
      FlaggedLive(r, i, now, x);
      assert x in r[i].waitingFor ==> IsLive(r, x);
    }
    assert forall k | 0 <= k < |m| :: m[k].sid == r[k].sid && sid !in m[k].waitingFor;
    hide DoRemove, IsLive, Marked;
    if m[i].waitingFor != [] {
      assert m[i].waitingFor[0] in m[i].waitingFor;
      assert t[i] == m[i];
    }
  }

  /** The last acknowledgement a service waits for lets it go. */
  lemma LastAckReleases(s: State, k: nat, from: nat, now: int)
    requires Inv(s) && k < |s.registered| && s.registered[k].waiting && s.registered[k].waitingFor == [from]
    ensures !Used(Ack(s, s.registered[k].sid, from, now).registered, s.registered[k].sid)
  {
    var r, sid := s.registered, s.registered[k].sid;
    assert from in r[k].waitingFor;
    var j := FindAwaiting(r, sid, from, 0);
    assert j == k;
    ReleasedLeave(s.(registered := r[k := AckedBy(r[k], from)]), sid, now);
  }

  // ---- A lost connection ----

  /** As long as service sid is live, it is on the connection. */
  ghost predicate LiveOn(r: seq<Entry>, sid: nat, sock: nat) {
    forall k | 0 <= k < |r| && r[k].sid == sid && !r[k].waiting :: r[k].sock == Some(sock)
  }

  lemma DoRemoveOn(s: State, i: nat, now: int, sid: nat, sock: nat)
    requires i < |s.registered| && LiveOn(s.registered, sid, sock)
    ensures LiveOn(DoRemove(s, i, now).registered, sid, sock)
  {
    var r, m, t := s.registered, Marked(s.registered, i, now), DoRemove(s, i, now).registered;
    DoRemoveIs(s, i, now);
    hide DoRemove;
    forall k | 0 <= k < |t| && t[k].sid == sid && !t[k].waiting
      ensures t[k].sock == Some(sock)
    {
      var p := if m[i].waitingFor == [] && k >= i then k + 1 else k;
      assert t[k] == m[p] && p != i && r[p].sid == sid && !r[p].waiting;
    }
  }

  lemma {:induction false} SockOn(s: State, lost: nat, i: nat, now: int, sid: nat, sock: nat)
    requires i <= |s.registered| && LiveOn(s.registered, sid, sock)
    ensures LiveOn(UnregisterSock(s, lost, i, now).registered, sid, sock)
    decreases |s.registered| - i
  {
    if i < |s.registered| {
      if s.registered[i].sock != Some(lost) {
        SockOn(s, lost, i + 1, now, sid, sock);
      } else {
        var t := DoRemove(s, i, now);
        DoRemoveOn(s, i, now, sid, sock);
        SockOn(t, lost, if |t.registered| == |s.registered| then i + 1 else i, now, sid, sock);
      }
    }
  }

  lemma StepOn(s: State, ev: Event, sid: nat, sock: nat)
    requires Enabled(s, ev) && Used(s.registered, sid) && LiveOn(s.registered, sid, sock)
    ensures LiveOn(Apply(s, ev).registered, sid, sock)
  {
    var r := s.registered;
    match ev
    case Registering(name, addr, id, from) => FirstFreeIsFirst(r, BASE_SID);
    case Unregistering(id, now) =>
      var i := Find(r, id, 0);
      if i < |r| {
        DoRemoveOn(s, i, now, sid, sock);
      }
    case Disconnecting(lost, now) => SockOn(s, lost, 0, now, sid, sock);
    case Acking(id, from, now) =>
      var j := FindAwaiting(r, id, from, 0);
      if j < |r| {
        RemainingTaken(r[j := AckedBy(r[j], from)], now);
      }
    case Updating(now) => RemainingTaken(r, now);
  }

  /** A service newly registered has the name and the addresses it gave, is live, and on its connection. */
  lemma NewcomerIs(s: State, ev: Event, sid: nat)
    requires Enabled(s, ev) && ev.Registering? && !Used(s.registered, sid) && Used(Apply(s, ev).registered, sid)
    ensures var r, t := s.registered, Apply(s, ev).registered;
            && |t| == |r| + 1 && t[..|r|] == r && sid in Apply(s, ev).online
            && t[|r|] == Entry(Some(ev.sock), ev.addr, ev.name, sid, false, t[|r|].since, [])
            && (ev.sid != 0 ==> sid == ev.sid) && LiveOn(t, sid, ev.sock)
  {
    var r, t := s.registered, Apply(s, ev).registered;
    assert forall k | 0 <= k < |r| :: t[k] == r[k];
  }

  lemma {:induction false} StaysOn(states: seq<State>, events: seq<Event>, sid: nat, sock: nat, j: nat, k: nat)
    requires IsRun(states, events) && j <= k < |states| && LiveOn(states[j].registered, sid, sock)
    requires forall a | j <= a < k :: Used(states[a].registered, sid)
    ensures LiveOn(states[k].registered, sid, sock)
  {
    if j < k {
      StaysOn(states, events, sid, sock, j, k - 1);
      hide LiveOn, Apply;
      StepOn(states[k - 1], events[k - 1], sid, sock);
    }
  }

  /** Over whole runs: a service registered on a connection is live no more once the connection is lost. */
  lemma LostConnectionUnregisters(states: seq<State>, events: seq<Event>, sid: nat, j: nat, k: nat)
    requires IsRun(states, events) && j < k < |events|
    requires events[j].Registering? && !Used(states[j].registered, sid)
    requires forall a | j < a <= k :: Used(states[a].registered, sid)
    requires events[k].Disconnecting? && events[k].sock == events[j].sock
    ensures !IsLive(states[k + 1].registered, sid)
  {
    var sock := events[j].sock;
    RunsKeepInv(states, events, k);
    assert Used(states[j + 1].registered, sid);
    NewcomerIs(states[j], events[j], sid);
    StaysOn(states, events, sid, sock, j + 1, k);
    assert states[k + 1] == UnregisterSock(states[k], sock, 0, events[k].now);
    SockEndsLife(states[k], sock, 0, events[k].now, sid);
  }
}
