/**
 * The naming service: the list of registered services and the set of online ids, changed in place by
 * the message handlers of `naming_service.cpp`. The clock is a parameter, and what is sent is a list.
 */
module NamingServices {
  import opened NamingState
  import opened Wrappers

  datatype Message =
    | Unregistered(to: Option<nat>, name: string, sid: nat)
    | Registered(to: Option<nat>, name: string, sid: nat, addr: seq<Address>)
    | Accepted(from: nat, sid: nat, services: seq<Service>)
    | Refused(from: nat)

  datatype Service = Service(name: string, sid: nat, addr: seq<Address>)

  /** To every service that can access the one that goes. */
  function Farewells(r: seq<Entry>, e: Entry): seq<Message> {
    if |r| == 0 then []
    else
      var n := |r| - 1;
      if CanAccess(e.addr, r[n]) then Farewells(r[..n], e) + [Unregistered(r[n].sock, e.name, e.sid)]
      else Farewells(r[..n], e)
  }

  /** To every service but the new one that can access it. */
  function Announcements(r: seq<Entry>, name: string, addr: seq<Address>, sid: nat): seq<Message> {
    if |r| == 0 then []
    else
      var n := |r| - 1;
      if r[n].sid != sid && CanAccess(addr, r[n]) then
        Announcements(r[..n], name, addr, sid) + [Registered(r[n].sock, name, sid, addr)]
      else Announcements(r[..n], name, addr, sid)
  }

  /** The services a new one may talk to, itself included. */
  function Available(r: seq<Entry>, addr: seq<Address>): seq<Service> {
    if |r| == 0 then []
    else
      var n := |r| - 1;
      if CanAccess(addr, r[n]) then Available(r[..n], addr) + [Service(r[n].name, r[n].sid, r[n].addr)]
      else Available(r[..n], addr)
  }

  // ---- Who hears of what ----

  function Nets(addr: seq<Address>): set<nat> {
    set a | a in addr :: a.net
  }

  /** A service can be reached from the networks it shares, unless it is unregistering. */
  lemma CanAccessMeans(addr: seq<Address>, e: Entry)
    ensures CanAccess(addr, e) <==> !e.waiting && Nets(addr) * Nets(e.addr) != {}
  {
    if CanAccess(addr, e) {
      var i: nat, j: nat :| i < |addr| && j < |e.addr| && SameNet(addr[i], e.addr[j]);
      assert addr[i] in addr && e.addr[j] in e.addr;
      assert addr[i].net in Nets(addr) * Nets(e.addr);
    }
    if n :| n in Nets(addr) * Nets(e.addr) {
      var a :| a in addr && a.net == n;
      var b :| b in e.addr && b.net == n;
      var i: nat :| i < |addr| && addr[i] == a;
      var j: nat :| j < |e.addr| && e.addr[j] == b;
      assert SameNet(addr[i], e.addr[j]);
    }
  }

  /** The farewells go to exactly the services that can reach the one that goes. */
  lemma {:induction false} FarewellsAre(r: seq<Entry>, e: Entry, m: Message)
    ensures m in Farewells(r, e) <==>
              exists k :: 0 <= k < |r| && CanAccess(e.addr, r[k]) && m == Unregistered(r[k].sock, e.name, e.sid)
  {
    hide CanAccess;
    if |r| > 0 {
      FarewellsAre(r[..|r| - 1], e, m);
    }
  }

  /** The announcements go to exactly the others that can reach the new service. */
  lemma {:induction false} AnnouncementsAre(r: seq<Entry>, name: string, addr: seq<Address>, sid: nat, m: Message)
    ensures m in Announcements(r, name, addr, sid) <==>
              exists k :: 0 <= k < |r| && r[k].sid != sid && CanAccess(addr, r[k])
                          && m == Registered(r[k].sock, name, sid, addr)
  {
    hide CanAccess;
    if |r| > 0 {
      AnnouncementsAre(r[..|r| - 1], name, addr, sid, m);
    }
  }

  /** A new service is told of exactly the services it can reach. */
  lemma {:induction false} AvailableAre(r: seq<Entry>, addr: seq<Address>, s: Service)
    ensures s in Available(r, addr) <==>
              exists k :: 0 <= k < |r| && CanAccess(addr, r[k]) && s == Service(r[k].name, r[k].sid, r[k].addr)
  {
    hide CanAccess;
    if |r| > 0 {
      AvailableAre(r[..|r| - 1], addr, s);
    }
  }

  class NamingService {
    var registered: seq<Entry>
    var online: set<nat>
    var unique: map<string, bool>
    var sent: seq<Message>

    constructor ()
      ensures Value() == State([], {}, map[]) && sent == []
    {
      registered, online, unique, sent := [], {}, map[], [];
    }

    ghost function Value(): State
      reads this
    {
      State(registered, online, unique)
    }

    /** The first restriction given for a name holds. */
    method AddUniqueService(serviceName: string, uniqueOnShard: bool)
      modifies this`unique
      ensures unique == if serviceName in old(unique) then old(unique) else old(unique)[serviceName := uniqueOnShard]
    {
      if serviceName !in unique {
        unique := unique[serviceName := uniqueOnShard];
      }
    }

    /** Looks the restricted name up among the online ids; the id is online if it is granted. */
    method QueryStartService(serviceName: string, serviceId: nat, addr: seq<Address>) returns (grant: bool)
      requires |addr| > 0
      modifies this`online
      ensures grant == !Denied(old(Value()), serviceName, addr[0].ip)
      ensures online == if grant then old(online) + {serviceId} else old(online)
    {
      grant := true;
      if serviceName in unique {
        var left := online;
        while left != {}
          invariant left <= online
          invariant grant == forall o | o in online && o !in left :: !Blocks(Value(), serviceName, addr[0].ip, o)
          invariant online == old(online)
          decreases left
        {
          var o :| o in left;
          left := left - {o};
          if NameOf(registered, o) == serviceName {
            if unique[serviceName] || HostIp(registered, o) == Some(addr[0].ip) {
              grant := false;
              assert Blocks(Value(), serviceName, addr[0].ip, o);
              break;
            }
          }
        }
      }
      if grant {
        online := online + {serviceId};
      }
    }

    /** Erases every occurrence of an id from the lists of awaited ids. */
    method ForgetEverywhere(sid: nat)
      modifies this`registered
      ensures |registered| == |old(registered)|
      ensures forall k | 0 <= k < |registered| :: registered[k] == Forget(old(registered[k]), sid)
    {
      for k := 0 to |registered|
        invariant |registered| == |old(registered)|
        invariant forall i | 0 <= i < k :: registered[i] == Forget(old(registered[i]), sid)
        invariant forall i | k <= i < |registered| :: registered[i] == old(registered[i])
      {
        var e := registered[k];
        var kept: seq<nat> := [];
        for w := 0 to |e.waitingFor|
          invariant kept == Without(e.waitingFor[..w], sid)
        {
          assert e.waitingFor[..w + 1][..w] == e.waitingFor[..w];
          if e.waitingFor[w] != sid {
            kept := kept + [e.waitingFor[w]];
          }
        }
        assert e.waitingFor[..|e.waitingFor|] == e.waitingFor;
        registered := registered[k := e.(waitingFor := kept)];
      }
    }

    method CollectLive() returns (live: seq<nat>)
      ensures live == Live(registered)
    {
      live := [];
      for k := 0 to |registered|
        invariant live == Live(registered[..k])
      {
        assert registered[..k + 1][..k] == registered[..k];
        if !registered[k].waiting {
          live := live + [registered[k].sid];
        }
      }
      assert registered[..|registered|] == registered;
    }

    method BroadcastFarewells(e: Entry)
      modifies this`sent
      ensures sent == old(sent) + Farewells(registered, e)
    {
      ghost var before := sent;
      for k := 0 to |registered|
        invariant sent == before + Farewells(registered[..k], e)
      {
        assert registered[..k + 1][..k] == registered[..k];
        if CanAccess(e.addr, registered[k]) {
          sent := sent + [Unregistered(registered[k].sock, e.name, e.sid)];
        }
      }
      assert registered[..|registered|] == registered;
    }

    /**
     * Begins the unregistration of entry i: tells the others, and waits for them all; the entry leaves
     * at once if there is none. The result is the place of the next entry.
     */
    method DoRemove(i: nat, now: int) returns (next: nat)
      requires i < |registered|
      modifies this`registered, this`sent
      ensures Value() == NamingState.DoRemove(old(Value()), i, now)
      ensures sent == old(sent) + Farewells(old(registered), old(registered[i]))
      ensures next == if |registered| == |old(registered)| then i + 1 else i
    {
      BroadcastFarewells(registered[i]);
      ghost var r := registered;
      registered := registered[i := Flag(registered[i], now)];
      ForgetEverywhere(registered[i].sid);
      assert registered == Flagged(r, i, now);
      var live := CollectLive();
      registered := registered[i := Ask(registered[i], live)];
      if registered[i].waitingFor == [] {
        registered := registered[..i] + registered[i + 1..];
        next := i;
      } else {
        next := i + 1;
      }
    }

    method UnregisterService(sid: nat, now: int)
      modifies this`registered, this`sent
      ensures Value() == UnregisterSid(old(Value()), sid, now)
    {
      var k := 0;
      while k < |registered| && registered[k].sid != sid
        invariant k <= |registered| && Find(registered, sid, 0) == Find(registered, sid, k)
      {
        k := k + 1;
      }
      if k < |registered| {
        var _ := DoRemove(k, now);
      }
    }

    /** One connection may have registered several services: the whole list is looked through. */
    method UnregisterConnection(sock: nat, now: int)
      modifies this`registered, this`sent
      ensures Value() == UnregisterSock(old(Value()), sock, 0, now)
    {
      ghost var s := Value();
      var k := 0;
      while k < |registered|
        invariant k <= |registered| && UnregisterSock(s, sock, 0, now) == UnregisterSock(Value(), sock, k, now)
        decreases |registered| - k
      {
        if registered[k].sock == Some(sock) {
          k := DoRemove(k, now);
        } else {
          k := k + 1;
        }
      }
    }

    method CheckWaitingUnregistrationServices(now: int)
      modifies this`registered
      ensures Value() == Checked(old(Value()), now)
    {
      ghost var r, done := registered, 0;
      ghost var kept: seq<Entry> := [];
      assert r[..0] == [] && r[0..] == r;
      var k := 0;
      while k < |registered|
        invariant done <= |r| && registered == kept + r[done..] && k == |kept|
        invariant kept == Remaining(r[..done], now)
        decreases |registered| - k
      {
        RemainingNext(r, done, now);
        Middle(kept, r, done);
        hide Remaining, Leaves;
        var next := CheckOne(k, now);
        if next != k {
          kept := kept + [r[done]];
        }
        k, done := next, done + 1;
      }
      assert done == |r| && r[..|r|] == r && r[|r|..] == [];
      hide Remaining, Leaves;
      assert registered == kept;
    }

    /** Removes entry k if it has waited enough; the result is the place of the next entry. */
    method CheckOne(k: nat, now: int) returns (next: nat)
      requires k < |registered|
      modifies this`registered
      ensures var e := old(registered[k]);
              if Leaves(e, now) then
                next == k && registered == old(registered)[..k] + old(registered)[k + 1..]
              else next == k + 1 && registered == old(registered)
    {
      if Leaves(registered[k], now) {
        registered := registered[..k] + registered[k + 1..];
        return k;
      }
      return k + 1;
    }

    /** The first awaited occurrence of the sender goes; then whoever has waited enough leaves. */
    method AckUnregistration(sid: nat, from: nat, now: int)
      modifies this`registered
      ensures Value() == Ack(old(Value()), sid, from, now)
    {
      var k := 0;
      while k < |registered|
        invariant k <= |registered| && Value() == old(Value())
        invariant FindAwaiting(registered, sid, from, 0) == FindAwaiting(registered, sid, from, k)
      {
        var e := registered[k];
        if e.sid == sid && e.waiting && from in e.waitingFor {
          registered := registered[k := AckedBy(e, from)];
          CheckWaitingUnregistrationServices(now);
          return;
        }
        k := k + 1;
      }
    }

    /** The first id from 128 on that no entry has; none once the sixteen-bit ids wrap around. */
    method AllocateId() returns (id: Option<nat>)
      ensures id == FirstFree(registered, BASE_SID)
    {
      var sid := BASE_SID;
      while sid < SID_LIMIT
        invariant BASE_SID <= sid <= SID_LIMIT && FirstFree(registered, BASE_SID) == FirstFree(registered, sid)
      {
        var k := 0;
        while k < |registered| && registered[k].sid != sid
          invariant k <= |registered| && forall i | 0 <= i < k :: registered[i].sid != sid
        {
          k := k + 1;
        }
        if k == |registered| {
          return Some(sid);
        }
        sid := sid + 1;
      }
      return None;
    }

    method BroadcastRegistration(name: string, addr: seq<Address>, sid: nat)
      modifies this`sent
      ensures sent == old(sent) + Announcements(registered, name, addr, sid)
    {
      ghost var before := sent;
      for k := 0 to |registered|
        invariant sent == before + Announcements(registered[..k], name, addr, sid)
      {
        assert registered[..k + 1][..k] == registered[..k];
        if registered[k].sid != sid && CanAccess(addr, registered[k]) {
          sent := sent + [Registered(registered[k].sock, name, sid, addr)];
        }
      }
      assert registered[..|registered|] == registered;
    }

    /**
     * Registers a service, under an allocated id if it provides 0. A reconnection is neither announced
     * nor answered.
     */
    method DoRegister(name: string, addr: seq<Address>, sid: nat, from: nat, reconnection: bool) returns (ok: bool)
      requires |addr| > 0
      modifies this`registered, this`online, this`sent
      ensures ok == Register(old(Value()), name, addr, sid, from).Some?
      ensures Value() == if ok then Register(old(Value()), name, addr, sid, from).value else old(Value())
      ensures reconnection ==> sent == old(sent)
      ensures !reconnection && !ok ==> sent == old(sent) + [Refused(from)]
      ensures !reconnection && ok ==>
                var id := registered[|registered| - 1].sid;
                sent == old(sent) + Announcements(registered, name, addr, id)
                      + [Accepted(from, id, Available(registered, addr))]
    {
      var id := Some(sid);
      if sid == 0 {
        id := AllocateId();
      }
      ok := id.Some?;
      if ok {
        ok := QueryStartService(name, id.value, addr);
        if ok {
          registered := registered + [NewEntry(name, addr, id.value, from)];
          if !reconnection {
            BroadcastRegistration(name, addr, id.value);
          }
        }
      }
      if !reconnection {
        sent := sent + [if ok then Accepted(from, id.value, Available(registered, addr)) else Refused(from)];
      }
    }
  }

  lemma Middle(kept: seq<Entry>, r: seq<Entry>, done: nat)
    requires done < |r|
    ensures var t := kept + r[done..];
            && t == kept + [r[done]] + r[done + 1..] && t[|kept|] == r[done]
            && t[..|kept|] + t[|kept| + 1..] == kept + r[done + 1..]
  {
  }

  lemma RemainingNext(r: seq<Entry>, k: nat, now: int)
    requires k < |r|
    ensures Remaining(r[..k + 1], now) ==
              if Leaves(r[k], now) then Remaining(r[..k], now) else Remaining(r[..k], now) + [r[k]]
  {
    assert r[..k + 1][..k] == r[..k];
  }
}
