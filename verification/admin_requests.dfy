/**
 * Requests of the admin executor service (`nelns/admin_executor_service/admin_executor_service.cpp`):
 * each request counts the answers it waits for, each service remembers the requests it owes an answer.
 * The tables as a value, and what each message does to them.
 */
module AdminRequests {

  /** A row of an answer; what a view shows comes from the services. */
  datatype Row = View(names: seq<string>, values: seq<string>) | TimedOut(name: string, slot: nat) | UnknownService

  datatype Request = Request(id: nat, nbWaiting: int, nbReceived: nat, sid: nat, time: int, answers: seq<Row>)

  datatype Service = Service(connected: bool, alias: string, shortName: string, waiting: seq<nat>)

  const NO_SERVICE := Service(false, "", "", [])

  /** An answer to a request; those for service 0 are only logged. */
  datatype Reply = Reply(to: nat, id: nat, answers: seq<Row>)

  datatype State = State(requests: seq<Request>, services: seq<Service>, replies: seq<Reply>)

  /** First request with an id, |r| if none. */
  function Find(r: seq<Request>, rid: nat, from: nat): (k: nat)
    requires from <= |r|
    ensures from <= k <= |r| && (k < |r| ==> r[k].id == rid)
    ensures forall j | from <= j < k :: r[j].id != rid
    decreases |r| - from
  {
    if from == |r| || r[from].id == rid then from else Find(r, rid, from + 1)
  }

  predicate Pending(r: seq<Request>, rid: nat) {
    exists k :: 0 <= k < |r| && r[k].id == rid
  }

  // ---- Counting ----

  ghost function Count(l: seq<nat>, rid: nat): nat {
    multiset(l)[rid]
  }

  /** How many answers the connected services owe a request. */
  ghost function Owing(services: seq<Service>, rid: nat): nat {
    if |services| == 0 then 0
    else
      var n := |services| - 1;
      Owing(services[..n], rid) + if services[n].connected then Count(services[n].waiting, rid) else 0
  }

  /** The connected services that owe a request an answer, once each. */
  function Holders(services: seq<Service>, rid: nat): seq<Row> {
    if |services| == 0 then []
    else
      var n := |services| - 1;
      if services[n].connected && rid in services[n].waiting then Holders(services[..n], rid) + [TimeoutRow(services[n], n)]
      else Holders(services[..n], rid)
  }

  function TimeoutRow(s: Service, slot: nat): Row {
    TimedOut(if s.alias == "" then s.shortName else s.alias, slot)
  }

  // ---- Counters of a request ----

  function Awaiting(r: seq<Request>, rid: nat, now: int): seq<Request> {
    var k := Find(r, rid, 0);
    if k < |r| then r[k := r[k].(nbWaiting := r[k].nbWaiting + 1, time := now)] else r
  }

  function NotAwaiting(r: seq<Request>, rid: nat): seq<Request> {
    var k := Find(r, rid, 0);
    if k < |r| then r[k := r[k].(nbWaiting := r[k].nbWaiting - 1)] else r
  }

  function Answered(r: seq<Request>, rid: nat, rows: seq<Row>): seq<Request> {
    var k := Find(r, rid, 0);
    if k < |r| then r[k := r[k].(nbReceived := r[k].nbReceived + 1, answers := r[k].answers + rows)] else r
  }

  // ---- A new request ----

  /** Where a request goes: a connected service, or an answer given at once for oneself or an offline one. */
  datatype Target = Running(slot: nat) | Immediate(rows: seq<Row>)

  ghost predicate TargetOk(services: seq<Service>, t: Target) {
    t.Running? ==> t.slot < |services| && services[t.slot].connected
  }

  ghost function Treat(s: State, rid: nat, t: Target, now: int): State
    requires TargetOk(s.services, t)
  {
    match t
    case Running(slot) =>
      s.(requests := Awaiting(s.requests, rid, now),
         services := s.services[slot := s.services[slot].(waiting := s.services[slot].waiting + [rid])])
    case Immediate(rows) => s.(requests := Answered(Awaiting(s.requests, rid, now), rid, rows))
  }

  ghost predicate TargetsOk(services: seq<Service>, targets: seq<Target>) {
    forall i | 0 <= i < |targets| :: TargetOk(services, targets[i])
  }

  /** Only what a service owes changes while a request is sent around. */
  ghost predicate SameConnections(a: seq<Service>, b: seq<Service>) {
    |a| == |b| && forall i | 0 <= i < |a| ::
      a[i].connected == b[i].connected && a[i].alias == b[i].alias && a[i].shortName == b[i].shortName
  }

  ghost function TreatAll(s: State, rid: nat, targets: seq<Target>, now: int): (t: State)
    requires TargetsOk(s.services, targets)
    ensures SameConnections(s.services, t.services) && t.replies == s.replies
  {
    if |targets| == 0 then s
    else
      var n := |targets| - 1;
      Treat(TreatAll(s, rid, targets[..n], now), rid, targets[n], now)
  }

  ghost function NewRequest(s: State, rid: nat, sid: nat, now: int): State {
    s.(requests := s.requests + [Request(rid, 0, 0, sid, now, [])])
  }

  // ---- Answers, connections ----

  function Without(l: seq<nat>, x: nat): (r: seq<nat>)
    ensures forall y | y != x :: multiset(r)[y] == multiset(l)[y]
    ensures x !in r
  {
    if |l| == 0 then []
    else
      var n := |l| - 1;
      assert l == l[..n] + [l[n]];
      if l[n] == x then Without(l[..n], x) else Without(l[..n], x) + [l[n]]
  }

  /** `cbView`: one more answer; the service does not owe the request any more, however often it did. */
  ghost function Viewed(s: State, slot: nat, rid: nat, rows: seq<Row>): State
    requires slot < |s.services|
  {
    s.(requests := Answered(s.requests, rid, rows),
       services := s.services[slot := s.services[slot].(waiting := Without(s.services[slot].waiting, rid))])
  }

  function Resized(services: seq<Service>, n: nat): (r: seq<Service>)
    ensures |r| >= n && |r| >= |services|
    ensures forall i | 0 <= i < |r| :: r[i] == if i < |services| then services[i] else NO_SERVICE
  {
    services + seq(if n > |services| then n - |services| else 0, _ => NO_SERVICE)
  }

  ghost function Connect(s: State, slot: nat, shortName: string): State {
    s.(services := Resized(s.services, slot + 1)[slot := Service(true, "", shortName, [])])
  }

  /** The requests owed by a lost service wait for one answer less, for each time it owed one. */
  ghost function NoneAwaiting(r: seq<Request>, owed: seq<nat>): seq<Request> {
    if |owed| == 0 then r else NotAwaiting(NoneAwaiting(r, owed[..|owed| - 1]), owed[|owed| - 1])
  }

  ghost function Disconnect(s: State, slot: nat): State {
    if slot < |s.services| && s.services[slot].connected then
      State(NoneAwaiting(s.requests, s.services[slot].waiting), s.services[slot := NO_SERVICE], s.replies)
    else s
  }

  // ---- Cleaning ----

  /** The rows of the services that did not answer, then dummy rows up to the count awaited. */
  ghost function Expired(r: Request, services: seq<Service>): Request {
    var rows := Holders(services, r.id);
    var missing := r.nbWaiting - r.nbReceived - |rows|;
    if missing >= 0 then
      r.(nbReceived := r.nbWaiting, answers := r.answers + rows + seq(missing, _ => UnknownService))
    else r.(nbReceived := r.nbReceived + |rows|, answers := r.answers + rows)
  }

  ghost function Examined(r: Request, services: seq<Service>, now: int, timeout: int): Request {
    if now >= r.time + timeout then Expired(r, services) else r
  }

  ghost predicate Over(r: Request, services: seq<Service>, now: int, timeout: int) {
    var e := Examined(r, services, now, timeout);
    e.nbWaiting <= e.nbReceived
  }

  ghost function Remaining(r: seq<Request>, services: seq<Service>, now: int, timeout: int): seq<Request> {
    if |r| == 0 then []
    else
      var n := |r| - 1;
      if Over(r[n], services, now, timeout) then Remaining(r[..n], services, now, timeout)
      else Remaining(r[..n], services, now, timeout) + [r[n]]
  }

  ghost function RepliesTo(r: seq<Request>, services: seq<Service>, now: int, timeout: int): seq<Reply> {
    if |r| == 0 then []
    else
      var n := |r| - 1;
      var before := RepliesTo(r[..n], services, now, timeout);
      if Over(r[n], services, now, timeout) then
        before + [Reply(r[n].sid, r[n].id, Examined(r[n], services, now, timeout).answers)]
      else before
  }

  /** `cleanRequests`. */
  ghost function Clean(s: State, now: int, timeout: int): State {
    s.(requests := Remaining(s.requests, s.services, now, timeout),
       replies := s.replies + RepliesTo(s.requests, s.services, now, timeout))
  }

  // ---- The invariant ----

  ghost predicate DistinctIds(r: seq<Request>) {
    forall i, j | 0 <= i < j < |r| :: r[i].id != r[j].id
  }

  /** A request waits for exactly the answers that connected services owe it. */
  ghost predicate Balanced(r: Request, services: seq<Service>) {
    Owing(services, r.id) == r.nbWaiting - r.nbReceived
  }

  ghost predicate AllBalanced(r: seq<Request>, services: seq<Service>) {
    forall i | 0 <= i < |r| :: Balanced(r[i], services)
  }

  /** No connected service owes a pending request two answers. */
  ghost predicate OwedOnce(r: seq<Request>, services: seq<Service>) {
    forall i, j | 0 <= i < |r| && 0 <= j < |services| :: Count(services[j].waiting, r[i].id) <= 1
  }

  /** A slot with no service connected is blank. */
  ghost predicate SlotsOk(services: seq<Service>) {
    forall j | 0 <= j < |services| :: !services[j].connected ==> services[j] == NO_SERVICE
  }

  ghost predicate Inv(s: State) {
    && DistinctIds(s.requests) && AllBalanced(s.requests, s.services)
    && OwedOnce(s.requests, s.services) && SlotsOk(s.services)
  }
}
