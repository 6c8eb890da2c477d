/**
 * The admin executor service: who a request is for, and the handlers that change the tables of
 * `AdminRequests` in place. What services show of themselves, and the clock, are parameters.
 */
module AdminExecutors {
  import opened AdminRequests
  import AdminRuns

  /** A service name as written, and its parts (`decodeUnifiedName`). */
  datatype Name = Name(raw: string, alias: string, shortName: string)

  function ByAlias(services: seq<Service>, alias: string): seq<nat> {
    if |services| == 0 then []
    else
      var n := |services| - 1;
      if services[n].alias == alias then ByAlias(services[..n], alias) + [n] else ByAlias(services[..n], alias)
  }

  function ByShortName(services: seq<Service>, shortName: string): seq<nat> {
    if |services| == 0 then []
    else
      var n := |services| - 1;
      if services[n].shortName == shortName then ByShortName(services[..n], shortName) + [n]
      else ByShortName(services[..n], shortName)
  }

  /** The slots with the alias, or else those with the short name. */
  function Matching(services: seq<Service>, name: Name): seq<nat> {
    if ByAlias(services, name.alias) != [] then ByAlias(services, name.alias) else ByShortName(services, name.shortName)
  }

  /** What `send` says of a command: does it go to the services, or only act on their processes. */
  datatype Destination =
    | Online(send: bool, own: seq<Row>)
    | All(send: bool, own: seq<Row>, offline: seq<Row>)
    | Named(name: Name, self: bool, send: bool, own: seq<Row>, offlineRow: Row)

  function RunningTargets(slots: seq<nat>, send: bool): (t: seq<Target>)
    ensures forall i | 0 <= i < |t| :: t[i].Running? && t[i].slot in slots
  {
    if !send then [] else seq(|slots|, i requires 0 <= i < |slots| => Running(slots[i]))
  }

  function ConnectedSlots(services: seq<Service>): seq<nat> {
    if |services| == 0 then []
    else
      var n := |services| - 1;
      if services[n].connected then ConnectedSlots(services[..n]) + [n] else ConnectedSlots(services[..n])
  }

  function OnlineTargets(services: seq<Service>, send: bool, own: seq<Row>): seq<Target> {
    RunningTargets(ConnectedSlots(services), send) + [Immediate(own)]
  }

  /** The registered services that match no slot. */
  function OfflineTargets(services: seq<Service>, registered: seq<Name>, rows: seq<Row>): seq<Target>
    requires |rows| == |registered|
  {
    if |registered| == 0 then []
    else
      var n := |registered| - 1;
      var before := OfflineTargets(services, registered[..n], rows[..n]);
      if Matching(services, registered[n]) == [] then before + [Immediate([rows[n]])] else before
  }

  predicate IsRegistered(registered: seq<Name>, name: Name) {
    exists i :: 0 <= i < |registered| && registered[i].raw == name.alias
  }

  /** There is a row for each registered service. */
  predicate RowsOk(registered: seq<Name>, d: Destination) {
    d.All? ==> |d.offline| == |registered|
  }

  /** Who a destination stands for. */
  function Targets(services: seq<Service>, registered: seq<Name>, d: Destination): seq<Target>
    requires RowsOk(registered, d)
  {
    match d
    case Online(send, own) => OnlineTargets(services, send, own)
    case All(send, own, offline) => OfflineTargets(services, registered, offline) + OnlineTargets(services, send, own)
    case Named(name, self, send, own, offlineRow) =>
      if self then [Immediate(own)]
      else if Matching(services, name) != [] then RunningTargets(Matching(services, name), send)
      else if IsRegistered(registered, name) then [Immediate([offlineRow])]
      else []
  }

  // ---- A single destination never targets a service twice, nor a lost one ----

  ghost predicate Increasing(slots: seq<nat>, n: nat) {
    && (forall i | 0 <= i < |slots| :: slots[i] < n)
    && (forall i, j | 0 <= i < j < |slots| :: slots[i] < slots[j])
  }

  lemma {:induction false} AliasSlots(services: seq<Service>, alias: string)
    ensures Increasing(ByAlias(services, alias), |services|)
    ensures forall i | i in ByAlias(services, alias) :: i < |services| && services[i].alias == alias
  {
    if |services| > 0 {
      AliasSlots(services[..|services| - 1], alias);
    }
  }

  lemma {:induction false} ShortNameSlots(services: seq<Service>, shortName: string)
    ensures Increasing(ByShortName(services, shortName), |services|)
    ensures forall i | i in ByShortName(services, shortName) :: i < |services| && services[i].shortName == shortName
  {
    if |services| > 0 {
      ShortNameSlots(services[..|services| - 1], shortName);
    }
  }

  lemma {:induction false} ConnectedAre(services: seq<Service>)
    ensures Increasing(ConnectedSlots(services), |services|)
    ensures forall i :: i in ConnectedSlots(services) <==> 0 <= i < |services| && services[i].connected
  {
    if |services| > 0 {
      ConnectedAre(services[..|services| - 1]);
    }
  }

  lemma {:induction false} OfflineAreImmediate(services: seq<Service>, registered: seq<Name>, rows: seq<Row>)
    requires |rows| == |registered|
    ensures forall i | 0 <= i < |OfflineTargets(services, registered, rows)| ::
              OfflineTargets(services, registered, rows)[i].Immediate?
  {
    if |registered| > 0 {
      var n := |registered| - 1;
      OfflineAreImmediate(services, registered[..n], rows[..n]);
    }
  }

  lemma RunningAreFine(services: seq<Service>, slots: seq<nat>, send: bool)
    requires Increasing(slots, |services|)
    ensures TargetsOk(services, RunningTargets(slots, send))
       <==> (send ==> forall i | i in slots :: i < |services| && services[i].connected)
    ensures AdminRuns.DistinctSlots(RunningTargets(slots, send))
  {
    var t := RunningTargets(slots, send);
    if send {
      assert forall i | 0 <= i < |t| :: t[i] == Running(slots[i]) && slots[i] in slots;
      if TargetsOk(services, t) {
        forall i | i in slots
          ensures i < |services| && services[i].connected
        {
          var k :| 0 <= k < |slots| && slots[k] == i;
          assert TargetOk(services, t[k]);
        }
      }
    }
  }

  lemma FineConcat(services: seq<Service>, a: seq<Target>, b: seq<Target>)
    requires TargetsOk(services, a) && AdminRuns.DistinctSlots(a)
    requires TargetsOk(services, b) && AdminRuns.DistinctSlots(b)
    requires (forall i | 0 <= i < |a| :: a[i].Immediate?) || (forall i | 0 <= i < |b| :: b[i].Immediate?)
    ensures TargetsOk(services, a + b) && AdminRuns.DistinctSlots(a + b)
  {
  }

  lemma OnlineIsFine(services: seq<Service>, send: bool, own: seq<Row>)
    ensures TargetsOk(services, OnlineTargets(services, send, own))
    ensures AdminRuns.DistinctSlots(OnlineTargets(services, send, own))
  {
    ConnectedAre(services);
    RunningAreFine(services, ConnectedSlots(services), send);
    FineConcat(services, RunningTargets(ConnectedSlots(services), send), [Immediate(own)]);
  }

  /** The slots that a destination sends the request to. */
  function SentTo(services: seq<Service>, d: Destination): seq<nat> {
    match d
    case Online(send, _) => if send then ConnectedSlots(services) else []
    case All(send, _, _) => if send then ConnectedSlots(services) else []
    case Named(name, self, send, _, _) => if send && !self then Matching(services, name) else []
  }

  /** What the assertion on the id of the service asks: the request is sent to connected services only. */
  ghost predicate DestinationOk(services: seq<Service>, d: Destination) {
    forall i | i in SentTo(services, d) :: i < |services| && services[i].connected
  }

  lemma MatchingSlots(services: seq<Service>, name: Name)
    ensures Increasing(Matching(services, name), |services|)
    ensures forall i | i in Matching(services, name) :: i < |services|
  {
    AliasSlots(services, name.alias);
    ShortNameSlots(services, name.shortName);
  }

  /** There is a blank slot, and the name is one that blank slots have. */
  ghost predicate FindsBlank(services: seq<Service>, name: Name) {
    && (exists i :: 0 <= i < |services| && !services[i].connected)
    && (name.alias == "" || (name.shortName == "" && forall i | 0 <= i < |services| :: services[i].alias != name.alias))
  }

  /**
   * A name that is sent a request makes the assertion fail exactly if a slot is blank and the name has
   * no alias, or no short name and an alias that nobody has: "x/" finds all the blank slots.
   */
  lemma BlankSlotsFound(services: seq<Service>, d: Destination)
    requires SlotsOk(services)
    ensures DestinationOk(services, d) <==> !(d.Named? && d.send && !d.self && FindsBlank(services, d.name))
  {
    ConnectedAre(services);
    if d.Named? && d.send && !d.self {
      var name := d.name;
      AliasSlots(services, name.alias);
      ShortNameSlots(services, name.shortName);
      AliasFound(services, name.alias);
      ShortNameFound(services, name.shortName);
      if FindsBlank(services, name) {
        var i :| 0 <= i < |services| && !services[i].connected;
        assert services[i] == NO_SERVICE;
        assert ByAlias(services, name.alias) != [] ==> ByAlias(services, name.alias)[0] in ByAlias(services, name.alias);
        assert i in Matching(services, name);
      }
      if i :| i in Matching(services, name) && !services[i].connected {
        assert services[i] == NO_SERVICE;
      }
    }
  }

  lemma {:induction false} AliasFound(services: seq<Service>, alias: string)
    ensures forall i | 0 <= i < |services| && services[i].alias == alias :: i in ByAlias(services, alias)
  {
    if |services| > 0 {
      var n := |services| - 1;
      AliasFound(services[..n], alias);
      forall i | 0 <= i < |services| && services[i].alias == alias
        ensures i in ByAlias(services, alias)
      {
        assert i < n ==> services[..n][i] == services[i];
      }
    }
  }

  lemma {:induction false} ShortNameFound(services: seq<Service>, shortName: string)
    ensures forall i | 0 <= i < |services| && services[i].shortName == shortName :: i in ByShortName(services, shortName)
  {
    if |services| > 0 {
      var n := |services| - 1;
      ShortNameFound(services[..n], shortName);
      forall i | 0 <= i < |services| && services[i].shortName == shortName
        ensures i in ByShortName(services, shortName)
      {
        assert i < n ==> services[..n][i] == services[i];
      }
    }
  }

  /** A name with which no service runs. */
  ghost predicate NotRunning(services: seq<Service>, name: Name) {
    forall i | 0 <= i < |services| :: services[i].alias != name.alias && services[i].shortName != name.shortName
  }

  lemma MatchingAre(services: seq<Service>, name: Name, x: nat)
    ensures x in Matching(services, name) <==>
              x < |services|
              && if exists i :: 0 <= i < |services| && services[i].alias == name.alias then services[x].alias == name.alias
                 else services[x].shortName == name.shortName
    ensures Matching(services, name) == [] <==> NotRunning(services, name)
  {
    AliasSlots(services, name.alias);
    AliasFound(services, name.alias);
    ShortNameSlots(services, name.shortName);
    ShortNameFound(services, name.shortName);
    var a, b := ByAlias(services, name.alias), ByShortName(services, name.shortName);
    assert a != [] ==> a[0] in a;
    assert b != [] ==> b[0] in b;
  }

  /**
   * The slots that are sent a request: the connected ones, or those with the alias of the name, or if nobody
   * has it those with its short name.
   */
  lemma SentToAre(services: seq<Service>, d: Destination, x: nat)
    ensures x in SentTo(services, d) <==>
              d.send && x < |services|
              && if !d.Named? then services[x].connected
                 else !d.self
                      && if exists i :: 0 <= i < |services| && services[i].alias == d.name.alias
                         then services[x].alias == d.name.alias else services[x].shortName == d.name.shortName
  {
    ConnectedAre(services);
    if d.Named? {
      MatchingAre(services, d.name, x);
    }
  }

  /** The answers given at once for "#": those of the registered services that do not run. */
  lemma {:induction false} OfflineAre(services: seq<Service>, registered: seq<Name>, rows: seq<Row>, t: Target)
    requires |rows| == |registered|
    ensures t in OfflineTargets(services, registered, rows) <==>
              exists j :: 0 <= j < |rows| && NotRunning(services, registered[j]) && t == Immediate([rows[j]])
  {
    hide Matching, NotRunning;
    if |registered| > 0 {
      var n := |registered| - 1;
      OfflineAre(services, registered[..n], rows[..n], t);
      MatchingAre(services, registered[n], 0);
    }
  }

  /**
   * A request with one destination goes to no service twice, and to connected services only if the
   * destination makes no assertion fail. With several destinations it need not.
   */
  lemma OneDestinationIsFine(services: seq<Service>, registered: seq<Name>, d: Destination)
    requires RowsOk(registered, d)
    ensures AdminRuns.DistinctSlots(Targets(services, registered, d))
    ensures TargetsOk(services, Targets(services, registered, d)) <==> DestinationOk(services, d)
  {
    match d
    case Online(send, own) =>
      ConnectedAre(services);
      OnlineIsFine(services, send, own);
    case All(send, own, offline) =>
      ConnectedAre(services);
      OnlineIsFine(services, send, own);
      OfflineAreImmediate(services, registered, offline);
      FineConcat(services, OfflineTargets(services, registered, offline), OnlineTargets(services, send, own));
    case Named(name, self, send, own, row) =>
      MatchingSlots(services, name);
      RunningAreFine(services, Matching(services, name), send);
      hide Matching, RunningTargets;
  }

  /** Two destinations may target one service twice: "*" and its name. */
  lemma TwoDestinationsMayDouble()
    ensures var services := [Service(true, "ns", "NS", [])];
            var targets := Targets(services, [], Online(true, [])) +
                           Targets(services, [], Named(Name("ns", "ns", "ns"), false, true, [], UnknownService));
            TargetsOk(services, targets) && !AdminRuns.DistinctSlots(targets)
  {
    var services := [Service(true, "ns", "NS", [])];
    var name := Name("ns", "ns", "ns");
    assert services[..0] == [];
    assert ConnectedSlots(services) == [0] && ByAlias(services, "ns") == [0];
    var a, b := Targets(services, [], Online(true, [])), Targets(services, [], Named(name, false, true, [], UnknownService));
    assert a == [Running(0), Immediate([])] && b == [Running(0)];
    assert (a + b)[0] == Running(0) && (a + b)[2] == Running(0);
  }

  // ---- Sending around in steps ----

  lemma {:induction false} TreatAllConcat(s: State, rid: nat, a: seq<Target>, b: seq<Target>, now: int)
    requires TargetsOk(s.services, a) && TargetsOk(s.services, b)
    ensures TargetsOk(s.services, a + b)
    ensures TargetsOk(TreatAll(s, rid, a, now).services, b)
    ensures TreatAll(s, rid, a + b, now) == TreatAll(TreatAll(s, rid, a, now), rid, b, now)
  {
    StillOk(s.services, TreatAll(s, rid, a, now).services, b);
    if |b| == 0 {
      assert a + b == a;
    } else {
      var n := |b| - 1;
      assert TargetsOk(s.services, b[..n]);
      assert (a + b)[..|a + b| - 1] == a + b[..n];
      hide TargetsOk, TargetOk, SameConnections, Treat;
      TreatAllConcat(s, rid, a, b[..n], now);
    }
  }

  lemma OfflineNone(s: State, rid: nat, registered: seq<Name>, rows: seq<Row>, now: int)
    requires |rows| == |registered|
    ensures TargetsOk(s.services, OfflineTargets(s.services, registered[..0], rows[..0]))
    ensures TreatAll(s, rid, OfflineTargets(s.services, registered[..0], rows[..0]), now) == s
  {
  }

  lemma OfflineNext(services: seq<Service>, registered: seq<Name>, rows: seq<Row>, j: nat)
    requires |rows| == |registered| && j < |rows|
    ensures OfflineTargets(services, registered[..j + 1], rows[..j + 1]) ==
              var before := OfflineTargets(services, registered[..j], rows[..j]);
              if Matching(services, registered[j]) == [] then before + [Immediate([rows[j]])] else before
  {
    assert registered[..j + 1][..j] == registered[..j] && rows[..j + 1][..j] == rows[..j];
    hide Matching;
  }

  lemma OneMoreAtOnce(s: State, rid: nat, before: seq<Target>, rows: seq<Row>, now: int)
    requires TargetsOk(s.services, before)
    ensures TargetsOk(s.services, before + [Immediate(rows)])
    ensures TreatAll(s, rid, before + [Immediate(rows)], now) == Treat(TreatAll(s, rid, before, now), rid, Immediate(rows), now)
  {
    assert (before + [Immediate(rows)])[..|before|] == before;
  }

  lemma StillOk(a: seq<Service>, b: seq<Service>, targets: seq<Target>)
    requires SameConnections(a, b) && TargetsOk(a, targets)
    ensures TargetsOk(b, targets)
  {
    forall i | 0 <= i < |targets|
      ensures TargetOk(b, targets[i])
    {
      assert TargetOk(a, targets[i]);
    }
  }

  // ---- The class ----

  class AdminExecutor {
    var requests: seq<Request>
    var services: seq<Service>
    var replies: seq<Reply>
    var registeredServices: seq<Name>

    constructor (registered: seq<Name>)
      ensures Value() == State([], [], []) && registeredServices == registered
    {
      requests, services, replies, registeredServices := [], [], [], registered;
    }

    ghost function Value(): State
      reads this
    {
      State(requests, services, replies)
    }

    method FindRequest(rid: nat) returns (k: nat)
      ensures k == Find(requests, rid, 0)
    {
      k := 0;
      while k < |requests| && requests[k].id != rid
        invariant k <= |requests| && Find(requests, rid, 0) == Find(requests, rid, k)
      {
        k := k + 1;
      }
    }

    /** One more answer is awaited; the timer of the request starts again. */
    method AddRequestWaitingNb(rid: nat, now: int)
      modifies this`requests
      ensures requests == Awaiting(old(requests), rid, now)
    {
      var k := FindRequest(rid);
      if k < |requests| {
        requests := requests[k := requests[k].(nbWaiting := requests[k].nbWaiting + 1, time := now)];
      }
    }

    method SubRequestWaitingNb(rid: nat)
      modifies this`requests
      ensures requests == NotAwaiting(old(requests), rid)
    {
      var k := FindRequest(rid);
      if k < |requests| {
        requests := requests[k := requests[k].(nbWaiting := requests[k].nbWaiting - 1)];
      }
    }

    /** An answer to a request that is not pending is forgotten. */
    method AddRequestAnswer(rid: nat, rows: seq<Row>)
      modifies this`requests
      ensures requests == Answered(old(requests), rid, rows)
    {
      var k := FindRequest(rid);
      if k < |requests| {
        requests := requests[k := requests[k].(nbReceived := requests[k].nbReceived + 1,
                                               answers := requests[k].answers + rows)];
      }
    }

    method TreatRequestForRunningService(rid: nat, slot: nat, now: int)
      requires slot < |services| && services[slot].connected
      modifies this`requests, this`services
      ensures Value() == Treat(old(Value()), rid, Running(slot), now)
    {
      AddRequestWaitingNb(rid, now);
      services := services[slot := services[slot].(waiting := services[slot].waiting + [rid])];
    }

    /** Oneself, or an offline service: the answer is known at once. */
    method TreatRequestAtOnce(rid: nat, rows: seq<Row>, now: int)
      modifies this`requests
      ensures Value() == Treat(old(Value()), rid, Immediate(rows), now)
    {
      AddRequestWaitingNb(rid, now);
      AddRequestAnswer(rid, rows);
    }

    method SendTo(rid: nat, slots: seq<nat>, send: bool, now: int)
      requires send ==> forall i | i in slots :: i < |services| && services[i].connected
      modifies this`requests, this`services
      ensures TargetsOk(old(services), RunningTargets(slots, send))
      ensures Value() == TreatAll(old(Value()), rid, RunningTargets(slots, send), now)
    {
      ghost var s, targets := Value(), RunningTargets(slots, send);
      forall i | 0 <= i < |targets|
        ensures TargetOk(services, targets[i])
      {
        assert targets[i].slot in slots;
      }
      if send {
        for i := 0 to |slots|
          invariant Value() == TreatAll(s, rid, targets[..i], now)
        {
          assert slots[i] in slots;
          assert targets[..i + 1][..i] == targets[..i];
          TreatRequestForRunningService(rid, slots[i], now);
        }
        assert targets[..|targets|] == targets;
      }
    }

    method AddRequestForOnlineServices(rid: nat, send: bool, own: seq<Row>, now: int)
      modifies this`requests, this`services
      ensures TargetsOk(old(services), OnlineTargets(old(services), send, own))
      ensures Value() == TreatAll(old(Value()), rid, OnlineTargets(old(services), send, own), now)
    {
      ConnectedAre(services);
      var slots := ConnectedSlots(services);
      ghost var s, running := Value(), RunningTargets(slots, send);
      SendTo(rid, slots, send, now);
      TreatAllConcat(s, rid, running, [Immediate(own)], now);
      TreatAllOne(TreatAll(s, rid, running, now), rid, Immediate(own), now);
      TreatRequestAtOnce(rid, own, now);
    }

    method AddRequestForOfflineServices(rid: nat, rows: seq<Row>, now: int)
      requires |rows| == |registeredServices|
      modifies this`requests
      ensures TargetsOk(services, OfflineTargets(services, registeredServices, rows))
      ensures Value() == TreatAll(old(Value()), rid, OfflineTargets(services, registeredServices, rows), now)
    {
      ghost var s := Value();
      OfflineNone(s, rid, registeredServices, rows, now);
      hide TreatAll, Treat, TargetsOk, OfflineTargets;
      for j := 0 to |registeredServices|
        invariant TargetsOk(services, OfflineTargets(services, registeredServices[..j], rows[..j]))
        invariant Value() == TreatAll(s, rid, OfflineTargets(services, registeredServices[..j], rows[..j]), now)
      {
        OfflineNext(services, registeredServices, rows, j);
        ghost var before := OfflineTargets(services, registeredServices[..j], rows[..j]);
        if Matching(services, registeredServices[j]) == [] {
          OneMoreAtOnce(s, rid, before, [rows[j]], now);
          TreatRequestAtOnce(rid, [rows[j]], now);
        }
      }
      assert registeredServices[..|registeredServices|] == registeredServices && rows[..|rows|] == rows;
    }

    /** Treats one destination of a request. */
    method AddRequestFor(rid: nat, d: Destination, now: int)
      requires RowsOk(registeredServices, d) && DestinationOk(services, d)
      modifies this`requests, this`services
      ensures TargetsOk(old(services), Targets(old(services), registeredServices, d))
      ensures Value() == TreatAll(old(Value()), rid, Targets(old(services), registeredServices, d), now)
    {
      OneDestinationIsFine(services, registeredServices, d);
      ghost var s := Value();
      assert TreatAll(s, rid, [], now) == s;
      hide TreatAll, Treat, TargetsOk, Matching, RunningTargets, OnlineTargets, OfflineTargets;
      match d
      case Online(send, own) => AddRequestForOnlineServices(rid, send, own, now);
      case All(send, own, offline) =>
        AddRequestForOfflineServices(rid, offline, now);
        AddRequestForOnlineServices(rid, send, own, now);
        TreatAllConcat(s, rid, OfflineTargets(s.services, registeredServices, offline),
                       OnlineTargets(s.services, send, own), now);
      case Named(name, self, send, own, offlineRow) =>
        if self {
          TreatRequestAtOnce(rid, own, now);
          TreatAllOne(s, rid, Immediate(own), now);
        } else if Matching(services, name) != [] {
          SendTo(rid, Matching(services, name), send, now);
        } else if IsRegistered(registeredServices, name) {
          TreatRequestAtOnce(rid, [offlineRow], now);
          TreatAllOne(s, rid, Immediate([offlineRow]), now);
        }
    }

    /** A new request, sent to each of its destinations. */
    method AddRequest(rid: nat, sid: nat, destinations: seq<Destination>, now: int)
      requires forall d | d in destinations :: RowsOk(registeredServices, d) && DestinationOk(services, d)
      modifies this`requests, this`services
      ensures TargetsOk(old(services), AllTargets(old(services), registeredServices, destinations))
      ensures Value() == TreatAll(NewRequest(old(Value()), rid, sid, now), rid,
                                  AllTargets(old(services), registeredServices, destinations), now)
      ensures destinations == [] ==> requests == old(requests) + [Request(rid, 0, 0, sid, now, [])]
    {
      ghost var first := NewRequest(Value(), rid, sid, now);
      requests := requests + [Request(rid, 0, 0, sid, now, [])];
      for k := 0 to |destinations|
        invariant TargetsOk(first.services, AllTargets(first.services, registeredServices, destinations[..k]))
        invariant Value() == TreatAll(first, rid, AllTargets(first.services, registeredServices, destinations[..k]), now)
      {
        ghost var before := AllTargets(first.services, registeredServices, destinations[..k]);
        var d := destinations[k];
        assert destinations[..k + 1][..k] == destinations[..k];
        assert d in destinations && RowsOk(registeredServices, d) && DestinationOk(first.services, d);
        SameTargets(first.services, services, registeredServices, d);
        OneDestinationIsFine(first.services, registeredServices, d);
        AddRequestFor(rid, d, now);
        TreatAllConcat(first, rid, before, Targets(first.services, registeredServices, d), now);
      }
      assert destinations[..|destinations|] == destinations;
    }

    /** `cbView`: the service of a slot answers a request. */
    method ReceiveView(slot: nat, rid: nat, rows: seq<Row>)
      requires slot < |services| && services[slot].connected
      modifies this`requests, this`services
      ensures Value() == Viewed(old(Value()), slot, rid, rows)
    {
      AddRequestAnswer(rid, rows);
      var owed, kept := services[slot].waiting, [];
      for k := 0 to |owed|
        invariant kept == Without(owed[..k], rid)
      {
        assert owed[..k + 1][..k] == owed[..k];
        if owed[k] != rid {
          kept := kept + [owed[k]];
        }
      }
      assert owed[..|owed|] == owed;
      services := services[slot := services[slot].(waiting := kept)];
    }

    method ServiceConnection(slot: nat, shortName: string)
      modifies this`services
      ensures Value() == Connect(old(Value()), slot, shortName)
      ensures |services| > slot && |services| >= |old(services)|
      ensures forall i | 0 <= i < |services| ::
                services[i] == if i == slot then Service(true, "", shortName, [])
                               else if i < |old(services)| then old(services)[i] else NO_SERVICE
    {
      services := Resized(services, slot + 1);
      services := services[slot := Service(true, "", shortName, [])];
    }

    method ServiceDisconnection(slot: nat)
      modifies this`requests, this`services
      ensures Value() == Disconnect(old(Value()), slot)
    {
      if slot < |services| && services[slot].connected {
        ghost var r := requests;
        var owed := services[slot].waiting;
        for k := 0 to |owed|
          invariant requests == NoneAwaiting(r, owed[..k]) && services == old(services)
        {
          assert owed[..k + 1][..k] == owed[..k];
          SubRequestWaitingNb(owed[k]);
        }
        assert owed[..|owed|] == owed;
        services := services[slot := NO_SERVICE];
      }
    }

    /** A timeout row for every service that owes the request an answer, then dummy rows up to the count. */
    method ExpireRequest(i: nat)
      requires i < |requests| && DistinctIds(requests) && CanExpire(requests[i], services)
      modifies this`requests
      ensures requests == old(requests)[i := Expired(old(requests[i]), services)]
    {
      ghost var all := requests;
      var r := requests[i];
      NoRows(r);
      assert all[i := r] == all;
      for j := 0 to |services|
        invariant requests == all[i := WithRows(r, Holders(services[..j], r.id))]
      {
        assert services[..j + 1][..j] == services[..j];
        OneMoreRow(r, Holders(services[..j], r.id), TimeoutRow(services[j], j));
        hide WithRows, DistinctIds;
        if services[j].connected && r.id in services[j].waiting {
          AnsweredAt(requests, i, [TimeoutRow(services[j], j)]);
          AddRequestAnswer(r.id, [TimeoutRow(services[j], j)]);
        }
      }
      assert services[..|services|] == services;
      ghost var rows, dummies := Holders(services, r.id), [];
      assert rows + dummies == rows;
      while requests[i].nbWaiting != requests[i].nbReceived
        invariant |requests| == |all| && requests == all[i := WithRows(r, rows + dummies)]
        invariant dummies == seq(|dummies|, _ => UnknownService)
        invariant requests[i].nbReceived <= requests[i].nbWaiting
        decreases requests[i].nbWaiting - requests[i].nbReceived
      {
        AnsweredAt(requests, i, [UnknownService]);
        OneMoreRow(r, rows + dummies, UnknownService);
        AddRequestAnswer(r.id, [UnknownService]);
        assert rows + dummies + [UnknownService] == rows + (dummies + [UnknownService]);
        dummies := dummies + [UnknownService];
      }
      assert r.answers + (rows + dummies) == r.answers + rows + dummies;
    }

    /** Replies to request i if it is over, and removes it; the result is the place of the next one. */
    method CleanOne(i: nat, now: int, timeout: int) returns (next: nat)
      requires i < |requests| && DistinctIds(requests)
      requires now >= requests[i].time + timeout ==> CanExpire(requests[i], services)
      modifies this`requests, this`replies
      ensures var r := old(requests[i]);
              if Over(r, services, now, timeout) then
                && next == i && requests == old(requests)[..i] + old(requests)[i + 1..]
                && replies == old(replies) + [Reply(r.sid, r.id, Examined(r, services, now, timeout).answers)]
              else next == i + 1 && requests == old(requests) && replies == old(replies)
    {
      if now >= requests[i].time + timeout {
        ExpireRequest(i);
      }
      if requests[i].nbWaiting <= requests[i].nbReceived {
        replies := replies + [Reply(requests[i].sid, requests[i].id, requests[i].answers)];
        requests := requests[i := requests[i].(nbWaiting := 0)];
      }
      if requests[i].nbWaiting == 0 {
        requests := requests[..i] + requests[i + 1..];
        next := i;
      } else {
        next := i + 1;
      }
    }

    /**
     * Replies to the requests that are over or expired. It ends as long as no expired request has more
     * services to time out than answers to wait for; balanced requests never do.
     */
    method CleanRequests(now: int, timeout: int)
      requires DistinctIds(requests)
      requires forall k | 0 <= k < |requests| && now >= requests[k].time + timeout :: CanExpire(requests[k], services)
      modifies this`requests, this`replies
      ensures Value() == Clean(old(Value()), now, timeout)
    {
      ghost var r, d, c := requests, replies, Cleaned(0, [], []);
      assert d + [] == d;
      var i := 0;
      while i < |requests|
        invariant i == |c.kept| && Cleaning(r, d, c, requests, replies, services, now, timeout)
        decreases |r| - c.done
      {
        CleaningHead(r, d, c, requests, replies, services, now, timeout);
        ghost var before, sent := requests, replies;
        hide Cleaning, Over, Examined, CanExpire, DistinctIds;
        var next := CleanOne(i, now, timeout);
        CleaningStep(r, d, c, before, sent, requests, replies, services, now, timeout);
        i, c := next, NextCleaned(r, c, services, now, timeout);
      }
      CleaningEnds(r, d, c, requests, replies, services, now, timeout);
    }
  }

  // ---- The loop of the cleaning ----

  /** The requests examined so far, those kept, and the replies sent. */
  datatype Cleaned = Cleaned(done: nat, kept: seq<Request>, sent: seq<Reply>)

  ghost function ReplyTo(r: Request, services: seq<Service>, now: int, timeout: int): Reply {
    Reply(r.sid, r.id, Examined(r, services, now, timeout).answers)
  }

  ghost function NextCleaned(r: seq<Request>, c: Cleaned, services: seq<Service>, now: int, timeout: int): Cleaned
    requires c.done < |r|
  {
    var x := r[c.done];
    if Over(x, services, now, timeout) then Cleaned(c.done + 1, c.kept, c.sent + [ReplyTo(x, services, now, timeout)])
    else Cleaned(c.done + 1, c.kept + [x], c.sent)
  }

  ghost predicate Cleaning(r: seq<Request>, d: seq<Reply>, c: Cleaned, requests: seq<Request>, replies: seq<Reply>,
                           services: seq<Service>, now: int, timeout: int) {
    && c.done <= |r| && requests == c.kept + r[c.done..] && replies == d + c.sent && DistinctIds(requests)
    && c.kept == Remaining(r[..c.done], services, now, timeout)
    && c.sent == RepliesTo(r[..c.done], services, now, timeout)
  }

  lemma CleaningHead(r: seq<Request>, d: seq<Reply>, c: Cleaned, requests: seq<Request>, replies: seq<Reply>,
                     services: seq<Service>, now: int, timeout: int)
    requires Cleaning(r, d, c, requests, replies, services, now, timeout) && |c.kept| < |requests|
    ensures c.done < |r| && requests[|c.kept|] == r[c.done] && DistinctIds(requests)
    ensures NextCleaned(r, c, services, now, timeout).done == c.done + 1
    ensures |NextCleaned(r, c, services, now, timeout).kept|
         == if Over(r[c.done], services, now, timeout) then |c.kept| else |c.kept| + 1
  {
  }

  lemma CleaningStep(r: seq<Request>, d: seq<Reply>, c: Cleaned, requests: seq<Request>, replies: seq<Reply>,
                     requests': seq<Request>, replies': seq<Reply>, services: seq<Service>, now: int, timeout: int)
    requires Cleaning(r, d, c, requests, replies, services, now, timeout) && c.done < |r| && |c.kept| < |requests|
    requires if Over(r[c.done], services, now, timeout) then
               && requests' == requests[..|c.kept|] + requests[|c.kept| + 1..]
               && replies' == replies + [ReplyTo(r[c.done], services, now, timeout)]
             else requests' == requests && replies' == replies
    ensures Cleaning(r, d, NextCleaned(r, c, services, now, timeout), requests', replies', services, now, timeout)
  {
    assert r[..c.done + 1][..c.done] == r[..c.done];
    Middle(c.kept, r, c.done);
    hide DistinctIds, Over, Examined;
    if Over(r[c.done], services, now, timeout) {
      var reply := ReplyTo(r[c.done], services, now, timeout);
      assert d + c.sent + [reply] == d + (c.sent + [reply]);
    }
  }

  lemma CleaningEnds(r: seq<Request>, d: seq<Reply>, c: Cleaned, requests: seq<Request>, replies: seq<Reply>,
                     services: seq<Service>, now: int, timeout: int)
    requires Cleaning(r, d, c, requests, replies, services, now, timeout) && |c.kept| >= |requests|
    ensures requests == Remaining(r, services, now, timeout) && replies == d + RepliesTo(r, services, now, timeout)
  {
    hide Remaining, RepliesTo;
    assert c.done == |r| && r[..|r|] == r && c.kept + r[|r|..] == c.kept;
  }

  function AllTargets(services: seq<Service>, registered: seq<Name>, ds: seq<Destination>): seq<Target>
    requires forall d | d in ds :: RowsOk(registered, d)
  {
    if |ds| == 0 then []
    else
      var n := |ds| - 1;
      assert ds[n] in ds && RowsOk(registered, ds[n]);
      AllTargets(services, registered, ds[..n]) + Targets(services, registered, ds[n])
  }

  lemma {:induction false} SameSlots(a: seq<Service>, b: seq<Service>, name: Name)
    requires SameConnections(a, b)
    ensures ByAlias(a, name.alias) == ByAlias(b, name.alias)
    ensures ByShortName(a, name.shortName) == ByShortName(b, name.shortName)
    ensures ConnectedSlots(a) == ConnectedSlots(b)
  {
    if |a| > 0 {
      SameSlots(a[..|a| - 1], b[..|b| - 1], name);
    }
  }

  lemma {:induction false} SameOffline(a: seq<Service>, b: seq<Service>, registered: seq<Name>, rows: seq<Row>)
    requires SameConnections(a, b) && |rows| == |registered|
    ensures OfflineTargets(a, registered, rows) == OfflineTargets(b, registered, rows)
  {
    if |registered| > 0 {
      var n := |registered| - 1;
      SameSlots(a, b, registered[n]);
      SameOffline(a, b, registered[..n], rows[..n]);
    }
  }

  /** Who a destination stands for does not depend on what the services owe. */
  lemma SameTargets(a: seq<Service>, b: seq<Service>, registered: seq<Name>, d: Destination)
    requires SameConnections(a, b) && RowsOk(registered, d)
    ensures Targets(a, registered, d) == Targets(b, registered, d)
    ensures SentTo(a, d) == SentTo(b, d) && (DestinationOk(a, d) <==> DestinationOk(b, d))
  {
    SameSlots(a, b, if d.Named? then d.name else Name("", "", ""));
    if d.All? {
      SameOffline(a, b, registered, d.offline);
    }
  }

  // ---- Several destinations ----

  /** Two destinations send the request to different slots. */
  ghost predicate Apart(services: seq<Service>, d: Destination, e: Destination) {
    forall x | x in SentTo(services, d) :: x !in SentTo(services, e)
  }

  lemma SentToGoes(services: seq<Service>, registered: seq<Name>, d: Destination, x: nat)
    requires RowsOk(registered, d)
    ensures AdminRuns.Goes(Targets(services, registered, d), x) <==> x in SentTo(services, d)
  {
    match d
    case Online(send, own) =>
      GoesConcat(RunningTargets(ConnectedSlots(services), send), [Immediate(own)], x);
      RunningGoes(ConnectedSlots(services), send, x);
    case All(send, own, offline) =>
      GoesConcat(RunningTargets(ConnectedSlots(services), send), [Immediate(own)], x);
      RunningGoes(ConnectedSlots(services), send, x);
      OfflineAreImmediate(services, registered, offline);
      GoesConcat(OfflineTargets(services, registered, offline), OnlineTargets(services, send, own), x);
    case Named(name, self, send, own, row) =>
      RunningGoes(Matching(services, name), send, x);
  }

  lemma RunningGoes(slots: seq<nat>, send: bool, x: nat)
    ensures AdminRuns.Goes(RunningTargets(slots, send), x) <==> send && x in slots
  {
    if send && x in slots {
      var k :| 0 <= k < |slots| && slots[k] == x;
      assert RunningTargets(slots, send)[k] == Running(x);
    }
  }

  lemma GoesConcat(a: seq<Target>, b: seq<Target>, x: nat)
    ensures AdminRuns.Goes(a + b, x) <==> AdminRuns.Goes(a, x) || AdminRuns.Goes(b, x)
  {
    if i :| 0 <= i < |a| && a[i] == Running(x) {
      assert (a + b)[i] == Running(x);
    }
    if i :| 0 <= i < |b| && b[i] == Running(x) {
      assert (a + b)[|a| + i] == Running(x);
    }
  }

  lemma DistinctConcat(a: seq<Target>, b: seq<Target>)
    ensures AdminRuns.DistinctSlots(a + b) <==>
              && AdminRuns.DistinctSlots(a) && AdminRuns.DistinctSlots(b)
              && forall x | AdminRuns.Goes(a, x) :: !AdminRuns.Goes(b, x)
  {
    var c := a + b;
    assert forall i | 0 <= i < |a| :: c[i] == a[i];
    assert forall i | 0 <= i < |b| :: c[|a| + i] == b[i];
    if AdminRuns.DistinctSlots(a) && AdminRuns.DistinctSlots(b) && forall x | AdminRuns.Goes(a, x) :: !AdminRuns.Goes(b, x) {
      forall i, j | 0 <= i < j < |c| && c[i].Running? && c[j].Running?
        ensures c[i].slot != c[j].slot
      {
        if i < |a| <= j {
          assert a[i] == Running(c[i].slot) && b[j - |a|] == Running(c[j].slot);
          assert AdminRuns.Goes(a, c[i].slot) && AdminRuns.Goes(b, c[j].slot);
        } else if |a| <= i {
          assert b[i - |a|] == c[i] && b[j - |a|] == c[j];
        }
      }
    }
    if AdminRuns.DistinctSlots(c) {
      forall i, j | 0 <= i < |a| && 0 <= j < |b| && a[i].Running? && b[j].Running?
        ensures a[i].slot != b[j].slot
      {
        assert c[i] == a[i] && c[|a| + j] == b[j];
      }
    }
  }

  /** Some destination sends the request to the slot. */
  ghost predicate SentByOne(services: seq<Service>, ds: seq<Destination>, x: nat) {
    exists k :: 0 <= k < |ds| && x in SentTo(services, ds[k])
  }

  lemma LastSends(services: seq<Service>, ds: seq<Destination>, x: nat)
    requires |ds| > 0
    ensures SentByOne(services, ds, x) <==>
              SentByOne(services, ds[..|ds| - 1], x) || x in SentTo(services, ds[|ds| - 1])
  {
    var n := |ds| - 1;
    hide SentTo;
    if k :| 0 <= k < |ds| && x in SentTo(services, ds[k]) {
      assert k < n ==> ds[..n][k] == ds[k];
    }
    if k :| 0 <= k < n && x in SentTo(services, ds[..n][k]) {
      assert ds[..n][k] == ds[k];
    }
  }

  lemma {:induction false} AllTargetsGo(services: seq<Service>, registered: seq<Name>, ds: seq<Destination>, x: nat)
    requires forall d | d in ds :: RowsOk(registered, d)
    ensures AdminRuns.Goes(AllTargets(services, registered, ds), x) <==> SentByOne(services, ds, x)
  {
    if |ds| == 0 {
      assert AllTargets(services, registered, ds) == [];
    } else {
      var n := |ds| - 1;
      assert ds[n] in ds;
      hide SentTo, AdminRuns.Goes, Targets, SentByOne;
      AllTargetsGo(services, registered, ds[..n], x);
      SentToGoes(services, registered, ds[n], x);
      LastSends(services, ds, x);
      GoesConcat(AllTargets(services, registered, ds[..n]), Targets(services, registered, ds[n]), x);
    }
  }

  /** No two destinations send the request to the same slot. */
  ghost predicate AllApart(services: seq<Service>, ds: seq<Destination>) {
    forall i, j | 0 <= i < j < |ds| :: Apart(services, ds[i], ds[j])
  }

  lemma LastApart(services: seq<Service>, ds: seq<Destination>)
    requires |ds| > 0
    ensures var n := |ds| - 1;
            AllApart(services, ds) <==>
              && AllApart(services, ds[..n])
              && forall x | SentByOne(services, ds[..n], x) :: x !in SentTo(services, ds[n])
  {
    var n := |ds| - 1;
    var front := ds[..n];
    assert forall i | 0 <= i < n :: front[i] == ds[i];
    hide SentTo;
    if AllApart(services, ds) {
      forall x | SentByOne(services, front, x)
        ensures x !in SentTo(services, ds[n])
      {
        var k :| 0 <= k < n && x in SentTo(services, front[k]);
        assert Apart(services, ds[k], ds[n]);
      }
    }
    if forall x | SentByOne(services, front, x) :: x !in SentTo(services, ds[n]) {
      forall i | 0 <= i < n
        ensures Apart(services, ds[i], ds[n])
      {
        forall x | x in SentTo(services, ds[i])
          ensures x !in SentTo(services, ds[n])
        {
          assert x in SentTo(services, front[i]);
          assert SentByOne(services, front, x);
        }
      }
    }
  }

  /**
   * A request goes to no service twice if and only if no two of its destinations send it to the same
   * slot: what the sender has to check for requests to be accounted for.
   */
  lemma {:induction false} DistinctExactly(services: seq<Service>, registered: seq<Name>, ds: seq<Destination>)
    requires forall d | d in ds :: RowsOk(registered, d)
    ensures AdminRuns.DistinctSlots(AllTargets(services, registered, ds)) <==> AllApart(services, ds)
  {
    if |ds| == 0 {
      assert AllTargets(services, registered, ds) == [];
    } else {
      var n := |ds| - 1;
      assert ds[n] in ds;
      var a, b := AllTargets(services, registered, ds[..n]), Targets(services, registered, ds[n]);
      assert AllTargets(services, registered, ds) == a + b;
      hide SentTo, AdminRuns.Goes, AdminRuns.DistinctSlots, AllApart, Targets, SentByOne, AllTargets;
      DistinctExactly(services, registered, ds[..n]);
      OneDestinationIsFine(services, registered, ds[n]);
      DistinctConcat(a, b);
      forall x
        ensures AdminRuns.Goes(a, x) <==> SentByOne(services, ds[..n], x)
        ensures AdminRuns.Goes(b, x) <==> x in SentTo(services, ds[n])
      {
        AllTargetsGo(services, registered, ds[..n], x);
        SentToGoes(services, registered, ds[n], x);
      }
      LastApart(services, ds);
    }
  }

  ghost function WithRows(r: Request, rows: seq<Row>): Request {
    r.(nbReceived := r.nbReceived + |rows|, answers := r.answers + rows)
  }

  lemma NoRows(r: Request)
    ensures WithRows(r, []) == r
  {
    assert r.answers + [] == r.answers;
  }

  lemma OneMoreRow(r: Request, rows: seq<Row>, x: Row)
    ensures WithRows(WithRows(r, rows), [x]) == WithRows(r, rows + [x])
    ensures WithRows(r, rows).id == r.id
  {
    assert r.answers + rows + [x] == r.answers + (rows + [x]);
  }

  /** No more services owe the request an answer than it waits for. */
  ghost predicate CanExpire(r: Request, services: seq<Service>) {
    r.nbReceived + |Holders(services, r.id)| <= r.nbWaiting
  }

  lemma BalancedCanExpire(r: Request, services: seq<Service>)
    requires Balanced(r, services)
    ensures CanExpire(r, services)
  {
    AdminRuns.HoldersAtMostOwing(services, r.id);
  }

  lemma AnsweredAt(r: seq<Request>, i: nat, rows: seq<Row>)
    requires DistinctIds(r) && i < |r| && |rows| == 1
    ensures Answered(r, r[i].id, rows) == r[i := WithRows(r[i], rows)]
  {
    AdminRuns.FindsItself(r, i);
  }

  lemma Middle(kept: seq<Request>, r: seq<Request>, done: nat)
    requires done < |r|
    ensures var t := kept + r[done..];
            && t == kept + [r[done]] + r[done + 1..] && t[|kept|] == r[done]
            && t[..|kept|] + t[|kept| + 1..] == kept + r[done + 1..]
    ensures DistinctIds(kept + r[done..]) ==> DistinctIds(kept + r[done + 1..])
  {
    var t, u := kept + r[done..], kept + r[done + 1..];
    if DistinctIds(t) {
      forall i, j | 0 <= i < j < |u|
        ensures u[i].id != u[j].id
      {
        assert u[i] == t[if i < |kept| then i else i + 1] && u[j] == t[if j < |kept| then j else j + 1];
      }
    }
  }

  lemma TreatAllOne(s: State, rid: nat, t: Target, now: int)
    requires TargetOk(s.services, t)
    ensures TreatAll(s, rid, [t], now) == Treat(s, rid, t, now)
  {
    assert [t][..0] == [];
  }
}
