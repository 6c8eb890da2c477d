/**
 * The tables of the naming service as a value, and what each message does to them
 * (`nelns/naming_service/naming_service.cpp`). `NamingServices` has the class whose methods do it in
 * place.
 */
module NamingState {
  import opened Wrappers

  const BASE_SID: nat := 128
  const SID_LIMIT: nat := 0x1_0000
  const UNREGISTER_TIMEOUT := 10000

  /** An internet address: the network it is on, the machine. */
  datatype Address = Address(net: nat, ip: nat)

  /** A service; once it unregisters, since when, and whose acknowledgements it waits for. */
  datatype Entry = Entry(sock: Option<nat>, addr: seq<Address>, name: string, sid: nat,
                         waiting: bool, since: int, waitingFor: seq<nat>)

  /** `unique` says of each restricted name whether it is unique on the shard, or else by machine. */
  datatype State = State(registered: seq<Entry>, online: set<nat>, unique: map<string, bool>)

  // ---- Lists of ids ----

  function Without(l: seq<nat>, x: nat): (r: seq<nat>)
    ensures forall y :: y in r <==> y in l && y != x
  {
    if |l| == 0 then []
    else
      var n := |l| - 1;
      assert forall y :: y in l <==> y in l[..n] || y == l[n];
      if l[n] == x then Without(l[..n], x) else Without(l[..n], x) + [l[n]]
  }

  function WithoutFirst(l: seq<nat>, x: nat): (r: seq<nat>)
    ensures forall y :: y in r ==> y in l
    ensures forall y :: y in l && y != x ==> y in r
    ensures |r| == if x in l then |l| - 1 else |l|
  {
    if |l| == 0 then [] else if l[0] == x then l[1..] else [l[0]] + WithoutFirst(l[1..], x)
  }

  /** The services that are not unregistering, in order. */
  function Live(r: seq<Entry>): (l: seq<nat>)
    ensures forall x :: x in l <==> IsLive(r, x)
  {
    if |r| == 0 then []
    else
      var n := |r| - 1;
      assert forall x :: IsLive(r, x) <==> IsLive(r[..n], x) || (r[n].sid == x && !r[n].waiting);
      if r[n].waiting then Live(r[..n]) else Live(r[..n]) + [r[n].sid]
  }

  predicate IsLive(r: seq<Entry>, x: nat) {
    exists k :: 0 <= k < |r| && r[k].sid == x && !r[k].waiting
  }

  predicate Used(r: seq<Entry>, x: nat) {
    exists k :: 0 <= k < |r| && r[k].sid == x
  }

  // ---- The invariant ----

  ghost predicate DistinctIds(r: seq<Entry>) {
    forall i, j | 0 <= i < j < |r| :: r[i].sid != r[j].sid
  }

  ghost predicate AllOnline(r: seq<Entry>, online: set<nat>) {
    forall i | 0 <= i < |r| :: r[i].sid in online
  }

  ghost predicate AddressesOk(r: seq<Entry>) {
    forall i | 0 <= i < |r| :: |r[i].addr| > 0
  }

  /** Two services of a restricted name: only if it is unique by machine, and they are on two machines. */
  ghost predicate MayCoexist(a: Entry, b: Entry, unique: map<string, bool>) {
    a.name == b.name && a.name in unique ==>
      !unique[a.name] && (|a.addr| > 0 && |b.addr| > 0 ==> a.addr[0].ip != b.addr[0].ip)
  }

  ghost predicate UniqueOk(r: seq<Entry>, unique: map<string, bool>) {
    forall i, j | 0 <= i < j < |r| :: MayCoexist(r[i], r[j], unique)
  }

  /** Every awaited id belongs to a registered service that is not unregistering. */
  ghost predicate AwaitedAreLive(r: seq<Entry>) {
    forall i, x | 0 <= i < |r| && x in r[i].waitingFor :: IsLive(r, x)
  }

  /** Only an unregistering service waits. */
  ghost predicate OnlyLeavingWait(r: seq<Entry>) {
    forall i | 0 <= i < |r| && !r[i].waiting :: r[i].waitingFor == []
  }

  ghost predicate Inv(s: State) {
    && DistinctIds(s.registered) && AllOnline(s.registered, s.online) && AddressesOk(s.registered)
    && UniqueOk(s.registered, s.unique) && AwaitedAreLive(s.registered)
    && OnlyLeavingWait(s.registered)
  }

  // ---- Unregistration ----

  /** The service is down: nobody waits for it any more. */
  function Forget(e: Entry, sid: nat): Entry {
    e.(waitingFor := Without(e.waitingFor, sid))
  }

  function Flag(e: Entry, now: int): Entry {
    e.(sock := None, waiting := true, since := now)
  }

  function Flagged(r: seq<Entry>, i: nat, now: int): (f: seq<Entry>)
    requires i < |r|
    ensures |f| == |r|
  {
    seq(|r|, j requires 0 <= j < |r| =>
      if j == i then Forget(Flag(r[j], now), r[i].sid) else Forget(r[j], r[i].sid))
  }

  function Ask(e: Entry, live: seq<nat>): Entry {
    e.(waitingFor := e.waitingFor + live)
  }

  /** `doRemove`: the entry is flagged and waits for all the live services; with none, it leaves. */
  ghost function DoRemove(s: State, i: nat, now: int): State
    requires i < |s.registered|
  {
    var f := Flagged(s.registered, i, now);
    var e := Ask(f[i], Live(f));
    if e.waitingFor == [] then
      s.(registered := f[..i] + f[i + 1..])
    else
      s.(registered := f[i := e])
  }

  /** First entry with an id, |r| if none. */
  function Find(r: seq<Entry>, sid: nat, from: nat): (k: nat)
    requires from <= |r|
    ensures from <= k <= |r| && (k < |r| ==> r[k].sid == sid)
    ensures forall j | from <= j < k :: r[j].sid != sid
    decreases |r| - from
  {
    if from == |r| || r[from].sid == sid then from else Find(r, sid, from + 1)
  }

  ghost function UnregisterSid(s: State, sid: nat, now: int): State {
    var k := Find(s.registered, sid, 0);
    if k < |s.registered| then DoRemove(s, k, now) else s
  }

  /** All the services of a lost connection, from place i on. */
  ghost function UnregisterSock(s: State, sock: nat, i: nat, now: int): State
    requires i <= |s.registered|
    decreases |s.registered| - i
  {
    if i == |s.registered| then s
    else if s.registered[i].sock != Some(sock) then UnregisterSock(s, sock, i + 1, now)
    else
      var t := DoRemove(s, i, now);
      UnregisterSock(t, sock, if |t.registered| == |s.registered| then i + 1 else i, now)
  }

  // ---- Acknowledgements and timeouts ----

  predicate Leaves(e: Entry, now: int) {
    e.waiting && (e.waitingFor == [] || now > e.since + UNREGISTER_TIMEOUT)
  }

  ghost function Remaining(r: seq<Entry>, now: int): seq<Entry> {
    if |r| == 0 then []
    else
      var n := |r| - 1;
      if Leaves(r[n], now) then Remaining(r[..n], now) else Remaining(r[..n], now) + [r[n]]
  }

  /** `checkWaitingUnregistrationServices`. */
  ghost function Checked(s: State, now: int): State {
    s.(registered := Remaining(s.registered, now))
  }

  /** First entry from k on that waits for this acknowledgement. */
  function FindAwaiting(r: seq<Entry>, sid: nat, from: nat, k: nat): (j: nat)
    requires k <= |r|
    ensures k <= j <= |r| && (j < |r| ==> r[j].sid == sid && r[j].waiting && from in r[j].waitingFor)
    ensures forall i | k <= i < j :: !(r[i].sid == sid && r[i].waiting && from in r[i].waitingFor)
    decreases |r| - k
  {
    if k == |r| || (r[k].sid == sid && r[k].waiting && from in r[k].waitingFor) then k
    else FindAwaiting(r, sid, from, k + 1)
  }

  function AckedBy(e: Entry, from: nat): Entry {
    e.(waitingFor := WithoutFirst(e.waitingFor, from))
  }

  /** `cbACKUnregistration`: service `from` acknowledges the unregistration of `sid`. */
  ghost function Ack(s: State, sid: nat, from: nat, now: int): State {
    var j := FindAwaiting(s.registered, sid, from, 0);
    if j < |s.registered| then
      Checked(s.(registered := s.registered[j := AckedBy(s.registered[j], from)]), now)
    else s
  }

  // ---- Registration ----

  /** An address is on a network of the service, and the service is not unregistering. */
  predicate CanAccess(addr: seq<Address>, e: Entry) {
    !e.waiting && exists i, j :: 0 <= i < |addr| && 0 <= j < |e.addr| && SameNet(addr[i], e.addr[j])
  }

  predicate SameNet(a: Address, b: Address) {
    a.net == b.net
  }

  /** First free id from sid on, none after the last sixteen-bit id. */
  function FirstFree(r: seq<Entry>, sid: nat): (f: Option<nat>)
    decreases SID_LIMIT - sid
  {
    if sid >= SID_LIMIT then None
    else if Used(r, sid) then FirstFree(r, sid + 1)
    else Some(sid)
  }

  /** Allocated, or as provided: an id in use is taken again. */
  function ChosenId(r: seq<Entry>, sid: nat): Option<nat> {
    if sid == 0 then FirstFree(r, BASE_SID) else Some(sid)
  }

  function NameOf(r: seq<Entry>, sid: nat): string {
    var k := Find(r, sid, 0);
    if k < |r| then r[k].name else ""
  }

  function HostIp(r: seq<Entry>, sid: nat): Option<nat> {
    var k := Find(r, sid, 0);
    if k < |r| && |r[k].addr| > 0 then Some(r[k].addr[0].ip) else None
  }

  /** The online service o keeps a service of this name and address from starting. */
  predicate Blocks(s: State, name: string, ip: nat, o: nat) {
    name in s.unique && NameOf(s.registered, o) == name
    && (s.unique[name] || HostIp(s.registered, o) == Some(ip))
  }

  ghost predicate Denied(s: State, name: string, ip: nat) {
    exists o :: o in s.online && Blocks(s, name, ip, o)
  }

  function NewEntry(name: string, addr: seq<Address>, sid: nat, sock: nat): Entry {
    Entry(Some(sock), addr, name, sid, false, 0, [])
  }

  /** `doRegister`: the new tables, or None if the service may not start. */
  ghost function Register(s: State, name: string, addr: seq<Address>, sid: nat, sock: nat): Option<State>
    requires |addr| > 0
  {
    var id := ChosenId(s.registered, sid);
    if id.None? || Denied(s, name, addr[0].ip) then None
    else Some(s.(registered := s.registered + [NewEntry(name, addr, id.value, sock)], online := s.online + {id.value}))
  }
}
