/**
 * The accounting of requests: what every message keeps, and what holds of whole runs.
 */
module AdminRuns {
  import opened AdminRequests

  // ---- Owing ----

  function Owes(s: Service, rid: nat): nat {
    if s.connected then multiset(s.waiting)[rid] else 0
  }

  lemma {:induction false} OwingUpdate(services: seq<Service>, slot: nat, s: Service, rid: nat)
    requires slot < |services|
    ensures Owing(services[slot := s], rid) == Owing(services, rid) - Owes(services[slot], rid) + Owes(s, rid)
  {
    var n := |services| - 1;
    if slot == n {
      assert services[slot := s][..n] == services[..n];
    } else {
      assert services[slot := s][..n] == services[..n][slot := s];
      OwingUpdate(services[..n], slot, s, rid);
    }
  }

  lemma {:induction false} OwingNothing(services: seq<Service>, rid: nat)
    requires forall j | 0 <= j < |services| :: Owes(services[j], rid) == 0
    ensures Owing(services, rid) == 0
  {
    if |services| > 0 {
      OwingNothing(services[..|services| - 1], rid);
    }
  }

  lemma {:induction false} OwingResized(services: seq<Service>, n: nat, rid: nat)
    requires n >= |services|
    ensures Owing(Resized(services, n), rid) == Owing(services, rid)
    decreases n
  {
    var r := Resized(services, n);
    if n > |services| {
      assert r[..n - 1] == Resized(services, n - 1);
      OwingResized(services, n - 1, rid);
    } else {
      assert r == services;
    }
  }

  /** A service owes a request an answer or more: it is a holder, once. */
  lemma {:induction false} HoldersAtMostOwing(services: seq<Service>, rid: nat)
    ensures |Holders(services, rid)| <= Owing(services, rid)
    ensures |Holders(services, rid)| == Owing(services, rid) <==>
              forall j | 0 <= j < |services| :: Owes(services[j], rid) <= 1
  {
    if |services| > 0 {
      var n := |services| - 1;
      var init := services[..n];
      HoldersAtMostOwing(init, rid);
      assert forall j | 0 <= j < n :: init[j] == services[j];
    }
  }

  // ---- Counters ----

  lemma FindsItself(r: seq<Request>, k: nat)
    requires DistinctIds(r) && k < |r|
    ensures Find(r, r[k].id, 0) == k
  {
  }

  /** The ids stay, and only the request with the given id may change. */
  ghost predicate OnlyChanges(r: seq<Request>, t: seq<Request>, rid: nat) {
    && |t| == |r|
    && forall k | 0 <= k < |r| :: t[k].id == r[k].id && t[k].sid == r[k].sid && (r[k].id != rid ==> t[k] == r[k])
  }

  /** The answers still awaited change by d for the request with the given id. */
  ghost predicate ChangesBy(r: seq<Request>, t: seq<Request>, rid: nat, d: int) {
    && OnlyChanges(r, t, rid)
    && forall k | 0 <= k < |r| && r[k].id == rid :: t[k].nbWaiting - t[k].nbReceived == r[k].nbWaiting - r[k].nbReceived + d
  }

  lemma CountersChange(r: seq<Request>, rid: nat, rows: seq<Row>, now: int)
    requires DistinctIds(r)
    ensures ChangesBy(r, Awaiting(r, rid, now), rid, 1)
    ensures ChangesBy(r, NotAwaiting(r, rid), rid, -1)
    ensures ChangesBy(r, Answered(r, rid, rows), rid, -1)
  {
    forall k | 0 <= k < |r| && r[k].id == rid
      ensures Find(r, rid, 0) == k
    {
      FindsItself(r, k);
    }
  }

  /** One answer more is awaited, from now on; one less; one more was given, with its rows. */
  lemma CountersAre(r: seq<Request>, rid: nat, rows: seq<Row>, now: int, k: nat)
    requires DistinctIds(r) && k < |r| && r[k].id == rid
    ensures var q := r[k];
            && Awaiting(r, rid, now)[k] == Request(rid, q.nbWaiting + 1, q.nbReceived, q.sid, now, q.answers)
            && NotAwaiting(r, rid)[k] == Request(rid, q.nbWaiting - 1, q.nbReceived, q.sid, q.time, q.answers)
            && Answered(r, rid, rows)[k] == Request(rid, q.nbWaiting, q.nbReceived + 1, q.sid, q.time, q.answers + rows)
  {
    FindsItself(r, k);
  }

  /** The balance follows when the services owe the request as much more or less. */
  lemma BalanceFollows(r: seq<Request>, services: seq<Service>, t: seq<Request>, after: seq<Service>, rid: nat, d: int)
    requires AllBalanced(r, services) && ChangesBy(r, t, rid, d)
    requires forall x :: Owing(after, x) == Owing(services, x) + if x == rid then d else 0
    ensures AllBalanced(t, after)
  {
    forall k | 0 <= k < |t|
      ensures Balanced(t[k], after)
    {
      assert Balanced(r[k], services);
    }
  }

  lemma ChangedKeepsDistinct(r: seq<Request>, t: seq<Request>, rid: nat)
    requires DistinctIds(r) && OnlyChanges(r, t, rid)
    ensures DistinctIds(t)
  {
  }

  // ---- Sending a request around ----

  lemma TreatBalances(s: State, rid: nat, t: Target, now: int)
    requires DistinctIds(s.requests) && AllBalanced(s.requests, s.services) && TargetOk(s.services, t)
    ensures DistinctIds(Treat(s, rid, t, now).requests)
    ensures AllBalanced(Treat(s, rid, t, now).requests, Treat(s, rid, t, now).services)
    ensures OnlyChanges(s.requests, Treat(s, rid, t, now).requests, rid)
  {
    var u := Treat(s, rid, t, now);
    match t
    case Running(slot) =>
      CountersChange(s.requests, rid, [], now);
      forall x
        ensures Owing(u.services, x) == Owing(s.services, x) + if x == rid then 1 else 0
      {
        OwingUpdate(s.services, slot, u.services[slot], x);
      }
      BalanceFollows(s.requests, s.services, u.requests, u.services, rid, 1);
    case Immediate(rows) =>
      CountersChange(s.requests, rid, rows, now);
      var m := Awaiting(s.requests, rid, now);
      ChangedKeepsDistinct(s.requests, m, rid);
      CountersChange(m, rid, rows, now);
      BalanceFollows(s.requests, s.services, u.requests, u.services, rid, 0);
  }

  /** A request goes to a running service at most once. */
  ghost predicate DistinctSlots(targets: seq<Target>) {
    forall i, j | 0 <= i < j < |targets| && targets[i].Running? && targets[j].Running? :: targets[i].slot != targets[j].slot
  }

  ghost predicate Goes(targets: seq<Target>, slot: nat) {
    exists i :: 0 <= i < |targets| && targets[i] == Running(slot)
  }

  lemma {:induction false} TreatAllBalances(s: State, rid: nat, targets: seq<Target>, now: int)
    requires TargetsOk(s.services, targets)
    requires DistinctIds(s.requests) && AllBalanced(s.requests, s.services)
    ensures var t := TreatAll(s, rid, targets, now);
            DistinctIds(t.requests) && AllBalanced(t.requests, t.services) && OnlyChanges(s.requests, t.requests, rid)
  {
    if |targets| > 0 {
      var n := |targets| - 1;
      TreatAllBalances(s, rid, targets[..n], now);
      TreatBalances(TreatAll(s, rid, targets[..n], now), rid, targets[n], now);
    }
  }

  /** What a service owes after a request was sent around: one answer more for each time it was a target. */
  lemma {:induction false} TreatAllOwed(s: State, rid: nat, targets: seq<Target>, now: int, slot: nat)
    requires TargetsOk(s.services, targets) && DistinctSlots(targets) && slot < |s.services|
    ensures var t := TreatAll(s, rid, targets, now);
            t.services[slot].waiting ==
              if Goes(targets, slot) then s.services[slot].waiting + [rid] else s.services[slot].waiting
  {
    if |targets| > 0 {
      var n := |targets| - 1;
      TreatAllOwed(s, rid, targets[..n], now, slot);
      assert Goes(targets, slot) <==> Goes(targets[..n], slot) || targets[n] == Running(slot) by {
        if i :| 0 <= i < |targets| && targets[i] == Running(slot) {
          assert i < n ==> targets[..n][i] == Running(slot);
        }
      }
    }
  }

  // ---- Answers ----

  /** What a view answer does to the balance of its request, however often the service owed it. */
  lemma ViewedOwing(s: State, slot: nat, rid: nat, rows: seq<Row>, x: nat)
    requires slot < |s.services| && s.services[slot].connected
    ensures Owing(Viewed(s, slot, rid, rows).services, x)
         == Owing(s.services, x) - if x == rid then Count(s.services[slot].waiting, rid) else 0
  {
    var u := Viewed(s, slot, rid, rows);
    OwingUpdate(s.services, slot, u.services[slot], x);
  }

  /** An answer to a pending request keeps the balance if and only if its service owed exactly one. */
  lemma ViewBalancesIff(s: State, slot: nat, rid: nat, rows: seq<Row>)
    requires DistinctIds(s.requests) && AllBalanced(s.requests, s.services)
    requires slot < |s.services| && s.services[slot].connected && Pending(s.requests, rid)
    ensures var u := Viewed(s, slot, rid, rows);
            AllBalanced(u.requests, u.services) <==> Count(s.services[slot].waiting, rid) == 1
  {
    var u := Viewed(s, slot, rid, rows);
    CountersChange(s.requests, rid, rows, 0);
    forall x
      ensures Owing(u.services, x) == Owing(s.services, x) - if x == rid then Count(s.services[slot].waiting, rid) else 0
    {
      ViewedOwing(s, slot, rid, rows, x);
    }
    if Count(s.services[slot].waiting, rid) == 1 {
      BalanceFollows(s.requests, s.services, u.requests, u.services, rid, -1);
    } else {
      var k :| 0 <= k < |s.requests| && s.requests[k].id == rid;
      assert Balanced(s.requests[k], s.services) && !Balanced(u.requests[k], u.services);
    }
  }

  /** A late answer to a request that is over changes no counter. */
  lemma LateViewBalances(s: State, slot: nat, rid: nat, rows: seq<Row>)
    requires DistinctIds(s.requests) && AllBalanced(s.requests, s.services)
    requires slot < |s.services| && s.services[slot].connected && !Pending(s.requests, rid)
    ensures var u := Viewed(s, slot, rid, rows); u.requests == s.requests && AllBalanced(u.requests, u.services)
  {
    var u := Viewed(s, slot, rid, rows);
    forall k | 0 <= k < |s.requests|
      ensures Balanced(u.requests[k], u.services)
    {
      assert Balanced(s.requests[k], s.services);
      ViewedOwing(s, slot, rid, rows, s.requests[k].id);
    }
  }

  // ---- Connections ----

  lemma {:induction false} NoneAwaitingCounts(r: seq<Request>, owed: seq<nat>)
    requires DistinctIds(r)
    ensures var t := NoneAwaiting(r, owed);
            && |t| == |r| && DistinctIds(t)
            && forall k | 0 <= k < |r| ::
                 && t[k].id == r[k].id && t[k].sid == r[k].sid
                 && t[k].nbWaiting - t[k].nbReceived == r[k].nbWaiting - r[k].nbReceived - Count(owed, r[k].id)
  {
    if |owed| > 0 {
      var n := |owed| - 1;
      NoneAwaitingCounts(r, owed[..n]);
      assert owed == owed[..n] + [owed[n]];
      var m := NoneAwaiting(r, owed[..n]);
      CountersChange(m, owed[n], [], 0);
    }
  }

  /** A lost connection keeps the balance, whatever the service owed. */
  lemma DisconnectBalances(s: State, slot: nat)
    requires DistinctIds(s.requests) && AllBalanced(s.requests, s.services)
    ensures var t := Disconnect(s, slot);
            DistinctIds(t.requests) && AllBalanced(t.requests, t.services) && |t.requests| == |s.requests|
            && forall k | 0 <= k < |t.requests| :: t.requests[k].id == s.requests[k].id
  {
    if slot < |s.services| && s.services[slot].connected {
      var t := Disconnect(s, slot);
      NoneAwaitingCounts(s.requests, s.services[slot].waiting);
      forall k | 0 <= k < |t.requests|
        ensures Balanced(t.requests[k], t.services)
      {
        assert Balanced(s.requests[k], s.services);
        OwingUpdate(s.services, slot, NO_SERVICE, s.requests[k].id);
      }
    }
  }

  /**
   * A connection blanks its slot: it keeps the balance if and only if no service was there that owed a
   * pending request an answer.
   */
  lemma ConnectBalancesIff(s: State, slot: nat, shortName: string)
    requires AllBalanced(s.requests, s.services)
    ensures AllBalanced(s.requests, Connect(s, slot, shortName).services) <==>
              (slot < |s.services| ==>
                 forall k | 0 <= k < |s.requests| :: Owes(s.services[slot], s.requests[k].id) == 0)
  {
    var n := if slot + 1 > |s.services| then slot + 1 else |s.services|;
    var r, t := Resized(s.services, slot + 1), Connect(s, slot, shortName);
    assert r == Resized(s.services, n);
    forall k | 0 <= k < |s.requests|
      ensures Balanced(s.requests[k], t.services) <==> Owes(r[slot], s.requests[k].id) == 0
    {
      assert Balanced(s.requests[k], s.services);
      OwingResized(s.services, n, s.requests[k].id);
      OwingUpdate(r, slot, t.services[slot], s.requests[k].id);
    }
  }

  // ---- Cleaning ----

  /** In a balanced request, the dummy answers are as many as the answers owed twice or more. */
  lemma DummyAnswersAre(r: Request, services: seq<Service>)
    requires Balanced(r, services)
    ensures var dummies := Owing(services, r.id) - |Holders(services, r.id)|;
            && dummies >= 0
            && Expired(r, services).answers == r.answers + Holders(services, r.id) + seq(dummies, _ => UnknownService)
            && Expired(r, services).nbReceived == r.nbWaiting
  {
    HoldersAtMostOwing(services, r.id);
  }

  /** Each service owing at most one answer, no dummy answer is ever added. */
  lemma NoDummyAnswers(s: State, k: nat)
    requires Inv(s) && k < |s.requests|
    ensures var r := s.requests[k];
            Expired(r, s.services).answers == r.answers + Holders(s.services, r.id)
  {
    var r := s.requests[k];
    assert Balanced(r, s.services);
    assert forall j | 0 <= j < |s.services| :: Owes(s.services[j], r.id) <= Count(s.services[j].waiting, r.id);
    HoldersAtMostOwing(s.services, r.id);
    assert seq(0, _ => UnknownService) == [];
  }

  /** The timeout rows: one for each connected service that owes the request, by its alias or its short name. */
  lemma {:induction false} HoldersAre(services: seq<Service>, rid: nat, row: Row)
    ensures row in Holders(services, rid) <==>
              exists j :: 0 <= j < |services| && Owes(services[j], rid) > 0
                          && row == TimedOut(if services[j].alias != "" then services[j].alias else services[j].shortName, j)
  {
    if |services| > 0 {
      HoldersAre(services[..|services| - 1], rid, row);
    }
  }

  /** What is left after cleaning waits for answers and is not expired; it is untouched. */
  lemma {:induction false} RemainingAre(r: seq<Request>, services: seq<Service>, now: int, timeout: int, x: Request)
    ensures x in Remaining(r, services, now, timeout) <==>
              x in r && x.nbWaiting > x.nbReceived && now < x.time + timeout
  {
    if |r| > 0 {
      var n := |r| - 1;
      RemainingAre(r[..n], services, now, timeout, x);
      assert r == r[..n] + [r[n]];
    }
  }

  ghost function Ids(r: seq<Request>): seq<nat> {
    seq(|r|, i requires 0 <= i < |r| => r[i].id)
  }

  ghost function ReplyIds(r: seq<Reply>): seq<nat> {
    seq(|r|, i requires 0 <= i < |r| => r[i].id)
  }

  /** Every request stays, or gets one reply and leaves. */
  lemma {:induction false} CleanSplits(r: seq<Request>, services: seq<Service>, now: int, timeout: int)
    ensures multiset(Ids(Remaining(r, services, now, timeout))) + multiset(ReplyIds(RepliesTo(r, services, now, timeout)))
         == multiset(Ids(r))
  {
    if |r| > 0 {
      var n := |r| - 1;
      CleanSplits(r[..n], services, now, timeout);
      var a, b := Remaining(r[..n], services, now, timeout), RepliesTo(r[..n], services, now, timeout);
      var reply := Reply(r[n].sid, r[n].id, Examined(r[n], services, now, timeout).answers);
      assert r == r[..n] + [r[n]];
      IdsAppend(r[..n], r[n]);
      IdsAppend(a, r[n]);
      ReplyIdsConcat(b, [reply]);
      assert ReplyIds([reply]) == [r[n].id];
      hide Ids, ReplyIds, Examined;
    }
  }

  lemma IdsAppend(r: seq<Request>, x: Request)
    ensures multiset(Ids(r + [x])) == multiset(Ids(r)) + multiset{x.id}
  {
    assert Ids(r + [x]) == Ids(r) + [x.id];
  }

  lemma {:induction false} RemainingDistinct(r: seq<Request>, services: seq<Service>, now: int, timeout: int)
    requires DistinctIds(r)
    ensures DistinctIds(Remaining(r, services, now, timeout))
  {
    if |r| > 0 {
      var n := |r| - 1;
      var a := Remaining(r[..n], services, now, timeout);
      RemainingDistinct(r[..n], services, now, timeout);
      forall i | 0 <= i < |a|
        ensures a[i].id != r[n].id
      {
        RemainingAre(r[..n], services, now, timeout, a[i]);
        assert a[i] in a && a[i] in r[..n];
      }
    }
  }

  lemma CleanKeepsInv(s: State, now: int, timeout: int)
    requires Inv(s)
    ensures Inv(Clean(s, now, timeout))
  {
    var t := Remaining(s.requests, s.services, now, timeout);
    RemainingDistinct(s.requests, s.services, now, timeout);
    forall i | 0 <= i < |t|
      ensures t[i] in s.requests
    {
      RemainingAre(s.requests, s.services, now, timeout, t[i]);
    }
    forall i | 0 <= i < |t|
      ensures Balanced(t[i], s.services)
      ensures forall j | 0 <= j < |s.services| :: Count(s.services[j].waiting, t[i].id) <= 1
    {
      var k :| 0 <= k < |s.requests| && s.requests[k] == t[i];
      assert Balanced(s.requests[k], s.services);
    }
  }

  // ---- Runs ----

  datatype Event =
    | Asking(rid: nat, sid: nat, targets: seq<Target>, now: int)
    | Viewing(slot: nat, rid: nat, rows: seq<Row>)
    | Connecting(slot: nat, shortName: string)
    | Disconnecting(slot: nat)
    | Cleaning(now: int, timeout: int)

  /** The ids used so far are history: a request comes with a new one. */
  datatype Run = Run(state: State, used: set<nat>)

  ghost predicate Enabled(r: Run, ev: Event) {
    var services := r.state.services;
    match ev
    case Asking(rid, _, targets, _) => rid !in r.used && TargetsOk(services, targets) && DistinctSlots(targets)
    case Viewing(slot, rid, _) => slot < |services| && services[slot].connected && rid in services[slot].waiting
    case Connecting(slot, _) => slot < |services| ==> !services[slot].connected
    case Disconnecting(_) => true
    case Cleaning(_, _) => true
  }

  ghost function Apply(r: Run, ev: Event): Run
    requires Enabled(r, ev)
  {
    var s := r.state;
    match ev
    case Asking(rid, sid, targets, now) => Run(TreatAll(NewRequest(s, rid, sid, now), rid, targets, now), r.used + {rid})
    case Viewing(slot, rid, rows) => Run(Viewed(s, slot, rid, rows), r.used)
    case Connecting(slot, shortName) => Run(Connect(s, slot, shortName), r.used)
    case Disconnecting(slot) => Run(Disconnect(s, slot), r.used)
    case Cleaning(now, timeout) => Run(Clean(s, now, timeout), r.used)
  }

  /** Requests owed by services were asked some time. */
  ghost predicate OwedWereUsed(services: seq<Service>, used: set<nat>) {
    forall j, x | 0 <= j < |services| && x in services[j].waiting :: x in used
  }

  /** Every request ever asked is pending, or has had its reply: once, and not both. */
  ghost predicate Accounted(r: Run) {
    multiset(Ids(r.state.requests)) + multiset(ReplyIds(r.state.replies)) == multiset(r.used)
  }

  ghost predicate RunInv(r: Run) {
    Inv(r.state) && OwedWereUsed(r.state.services, r.used) && Accounted(r)
  }

  lemma PendingWasUsed(r: Run, k: nat)
    requires Accounted(r) && k < |r.state.requests|
    ensures r.state.requests[k].id in r.used
  {
    assert Ids(r.state.requests)[k] == r.state.requests[k].id;
    assert r.state.requests[k].id in multiset(Ids(r.state.requests)) + multiset(ReplyIds(r.state.replies));
  }

  lemma NewRequestBalances(r: Run, rid: nat, sid: nat, now: int)
    requires RunInv(r) && rid !in r.used
    ensures var m := NewRequest(r.state, rid, sid, now);
            DistinctIds(m.requests) && AllBalanced(m.requests, m.services)
  {
    var s := r.state;
    forall k | 0 <= k < |s.requests|
      ensures s.requests[k].id != rid && Balanced(s.requests[k], s.services)
    {
      PendingWasUsed(r, k);
    }
    OwingNothing(s.services, rid);
  }

  /** What the services owe once a new request was sent around. */
  lemma AskingOwed(r: Run, rid: nat, sid: nat, targets: seq<Target>, now: int)
    requires RunInv(r) && Enabled(r, Asking(rid, sid, targets, now))
    ensures var t := TreatAll(NewRequest(r.state, rid, sid, now), rid, targets, now);
            OwedWereUsed(t.services, r.used + {rid}) && SlotsOk(t.services)
            && forall j, x | 0 <= j < |t.services| :: Count(t.services[j].waiting, x) <=
                 Count(r.state.services[j].waiting, x) + if x == rid then 1 else 0
  {
    var s := r.state;
    var t := TreatAll(NewRequest(s, rid, sid, now), rid, targets, now);
    forall j | 0 <= j < |t.services|
      ensures t.services[j].waiting == s.services[j].waiting
              || (t.services[j].waiting == s.services[j].waiting + [rid] && t.services[j].connected)
    {
      TreatAllOwed(NewRequest(s, rid, sid, now), rid, targets, now, j);
      if Goes(targets, j) {
        var i :| 0 <= i < |targets| && targets[i] == Running(j);
        assert TargetOk(s.services, targets[i]);
      }
    }
  }

  lemma AskingKeeps(r: Run, rid: nat, sid: nat, targets: seq<Target>, now: int)
    requires RunInv(r) && Enabled(r, Asking(rid, sid, targets, now))
    ensures RunInv(Apply(r, Asking(rid, sid, targets, now)))
  {
    var s := r.state;
    var m := NewRequest(s, rid, sid, now);
    var t := TreatAll(m, rid, targets, now);
    NewRequestBalances(r, rid, sid, now);
    TreatAllBalances(m, rid, targets, now);
    AskingOwed(r, rid, sid, targets, now);
    AskingOwedOnce(r, rid, sid, targets, now);
    hide AllBalanced, DistinctIds, DistinctSlots, TargetsOk, TreatAll, SlotsOk, OwedOnce, OwedWereUsed;
    assert Ids(t.requests) == Ids(s.requests) + [rid];
    assert multiset(r.used + {rid}) == multiset(r.used) + multiset{rid};
  }

  lemma NotYetOwed(r: Run, rid: nat, j: nat)
    requires OwedWereUsed(r.state.services, r.used) && rid !in r.used && j < |r.state.services|
    ensures Count(r.state.services[j].waiting, rid) == 0
  {
  }

  lemma AskingOwedOnce(r: Run, rid: nat, sid: nat, targets: seq<Target>, now: int)
    requires RunInv(r) && Enabled(r, Asking(rid, sid, targets, now))
    ensures var t := TreatAll(NewRequest(r.state, rid, sid, now), rid, targets, now);
            OwedOnce(t.requests, t.services)
  {
    var s := r.state;
    var m := NewRequest(s, rid, sid, now);
    var t := TreatAll(m, rid, targets, now);
    NewRequestBalances(r, rid, sid, now);
    TreatAllBalances(m, rid, targets, now);
    AskingOwed(r, rid, sid, targets, now);
    hide AllBalanced, DistinctIds, DistinctSlots, TargetsOk, TreatAll, SlotsOk, Accounted;
    forall i, j | 0 <= i < |t.requests| && 0 <= j < |t.services|
      ensures Count(t.services[j].waiting, t.requests[i].id) <= 1
    {
      assert t.requests[i].id == m.requests[i].id;
      if i < |s.requests| {
        PendingWasUsed(r, i);
        assert Count(s.services[j].waiting, s.requests[i].id) <= 1;
      } else {
        NotYetOwed(r, rid, j);
      }
    }
  }

  /** A view answer never makes a service owe more. */
  lemma ViewedOwesLess(s: State, slot: nat, rid: nat, rows: seq<Row>)
    requires slot < |s.services|
    ensures var t := Viewed(s, slot, rid, rows);
            forall j, x | 0 <= j < |t.services| :: Count(t.services[j].waiting, x) <= Count(s.services[j].waiting, x)
  {
    var t := Viewed(s, slot, rid, rows);
    forall j, x | 0 <= j < |t.services|
      ensures Count(t.services[j].waiting, x) <= Count(s.services[j].waiting, x)
    {
      if j == slot && x == rid {
        assert rid !in t.services[j].waiting;
      }
    }
  }

  lemma ViewingKeepsInv(s: State, slot: nat, rid: nat, rows: seq<Row>)
    requires Inv(s) && slot < |s.services| && s.services[slot].connected && rid in s.services[slot].waiting
    ensures Inv(Viewed(s, slot, rid, rows)) && Ids(Viewed(s, slot, rid, rows).requests) == Ids(s.requests)
  {
    var t := Viewed(s, slot, rid, rows);
    CountersChange(s.requests, rid, rows, 0);
    ChangedKeepsDistinct(s.requests, t.requests, rid);
    ViewedOwesLess(s, slot, rid, rows);
    if Pending(s.requests, rid) {
      var k :| 0 <= k < |s.requests| && s.requests[k].id == rid;
      assert Count(s.services[slot].waiting, s.requests[k].id) <= 1;
      ViewBalancesIff(s, slot, rid, rows);
    } else {
      LateViewBalances(s, slot, rid, rows);
    }
    hide AllBalanced, DistinctIds, Answered;
    forall i, j | 0 <= i < |t.requests| && 0 <= j < |t.services|
      ensures Count(t.services[j].waiting, t.requests[i].id) <= 1
    {
      assert Count(s.services[j].waiting, s.requests[i].id) <= 1;
    }
  }

  lemma ViewingKeeps(r: Run, slot: nat, rid: nat, rows: seq<Row>)
    requires RunInv(r) && Enabled(r, Viewing(slot, rid, rows))
    ensures RunInv(Apply(r, Viewing(slot, rid, rows)))
  {
    var s := r.state;
    var t := Viewed(s, slot, rid, rows);
    ViewingKeepsInv(s, slot, rid, rows);
    ViewedOwesLess(s, slot, rid, rows);
    hide Inv, Answered;
    forall j, x | 0 <= j < |t.services| && x in t.services[j].waiting
      ensures x in r.used
    {
      assert Count(t.services[j].waiting, x) > 0;
      assert x in s.services[j].waiting;
    }
  }

  lemma ConnectingKeeps(r: Run, slot: nat, shortName: string)
    requires RunInv(r) && Enabled(r, Connecting(slot, shortName))
    ensures RunInv(Apply(r, Connecting(slot, shortName)))
  {
    ConnectBalancesIff(r.state, slot, shortName);
    hide AllBalanced, DistinctIds, Accounted;
  }

  lemma DisconnectingKeeps(r: Run, slot: nat)
    requires RunInv(r)
    ensures RunInv(Apply(r, Disconnecting(slot)))
  {
    var s, t := r.state, Disconnect(r.state, slot);
    DisconnectBalances(s, slot);
    assert Ids(t.requests) == Ids(s.requests);
    hide AllBalanced, DistinctIds, NoneAwaiting;
  }

  lemma ReplyIdsConcat(a: seq<Reply>, b: seq<Reply>)
    ensures multiset(ReplyIds(a + b)) == multiset(ReplyIds(a)) + multiset(ReplyIds(b))
  {
    assert ReplyIds(a + b) == ReplyIds(a) + ReplyIds(b);
  }

  lemma CleaningAccounts(r: Run, now: int, timeout: int)
    requires Accounted(r)
    ensures Accounted(Apply(r, Cleaning(now, timeout)))
  {
    var s := r.state;
    CleanSplits(s.requests, s.services, now, timeout);
    ReplyIdsConcat(s.replies, RepliesTo(s.requests, s.services, now, timeout));
    hide Remaining, RepliesTo, Ids, ReplyIds;
  }

  lemma CleaningKeeps(r: Run, now: int, timeout: int)
    requires RunInv(r)
    ensures RunInv(Apply(r, Cleaning(now, timeout)))
  {
    CleanKeepsInv(r.state, now, timeout);
    CleaningAccounts(r, now, timeout);
    hide Inv, Accounted, Remaining, RepliesTo;
  }

  lemma StepKeeps(r: Run, ev: Event)
    requires RunInv(r) && Enabled(r, ev)
    ensures RunInv(Apply(r, ev))
  {
    hide RunInv;
    match ev
    case Asking(rid, sid, targets, now) => AskingKeeps(r, rid, sid, targets, now);
    case Viewing(slot, rid, rows) => ViewingKeeps(r, slot, rid, rows);
    case Connecting(slot, shortName) => ConnectingKeeps(r, slot, shortName);
    case Disconnecting(slot) => DisconnectingKeeps(r, slot);
    case Cleaning(now, timeout) => CleaningKeeps(r, now, timeout);
  }

  ghost predicate IsRun(runs: seq<Run>, events: seq<Event>) {
    && |runs| == |events| + 1 && runs[0] == Run(State([], [], []), {})
    && forall k | 0 <= k < |events| :: Enabled(runs[k], events[k]) && runs[k + 1] == Apply(runs[k], events[k])
  }

  /**
   * In every state of every run the services owe each pending request as many answers as it waits for,
   * and each request ever asked is either pending or has had exactly one reply.
   */
  lemma {:induction false} RunsAreAccounted(runs: seq<Run>, events: seq<Event>, k: nat)
    requires IsRun(runs, events) && k < |runs|
    ensures RunInv(runs[k])
  {
    if k > 0 {
      RunsAreAccounted(runs, events, k - 1);
      StepKeeps(runs[k - 1], events[k - 1]);
    }
  }

  /** A request pending after the timeout has a reply as soon as the requests are cleaned. */
  lemma CleaningReplies(r: Run, now: int, timeout: int, k: nat)
    requires RunInv(r) && k < |r.state.requests|
    requires now >= r.state.requests[k].time + timeout || r.state.requests[k].nbWaiting <= r.state.requests[k].nbReceived
    ensures var s := Clean(r.state, now, timeout);
            && r.state.requests[k].id in ReplyIds(s.replies)
            && !Pending(s.requests, r.state.requests[k].id)
  {
    var q, t := r.state.requests[k], Remaining(r.state.requests, r.state.services, now, timeout);
    forall i | 0 <= i < |t|
      ensures t[i].id != q.id
    {
      RemainingAre(r.state.requests, r.state.services, now, timeout, t[i]);
      assert t[i] in r.state.requests;
    }
    CleaningKeeps(r, now, timeout);
    var s := Clean(r.state, now, timeout);
    PendingWasUsed(r, k);
    assert q.id in multiset(Ids(s.requests)) + multiset(ReplyIds(s.replies));
    assert forall i | 0 <= i < |t| :: Ids(t)[i] != q.id;
  }

  // ---- Who gets the reply, and what it holds ----

  /** Some event before k asked this request, for service sid. */
  ghost predicate AskedBy(events: seq<Event>, k: nat, rid: nat, sid: nat)
    requires k <= |events|
  {
    exists j :: 0 <= j < k && events[j].Asking? && events[j].rid == rid && events[j].sid == sid
  }

  ghost predicate HasRequest(r: Run, rid: nat, sid: nat) {
    exists i :: 0 <= i < |r.state.requests| && r.state.requests[i].id == rid && r.state.requests[i].sid == sid
  }

  ghost predicate HasReply(r: Run, rid: nat, sid: nat) {
    exists i :: 0 <= i < |r.state.replies| && r.state.replies[i].id == rid && r.state.replies[i].to == sid
  }

  /** A request and its reply keep the service that asked. */
  lemma StepKeepsAsker(r: Run, ev: Event, rid: nat, sid: nat)
    requires RunInv(r) && Enabled(r, ev)
    requires HasRequest(Apply(r, ev), rid, sid) || HasReply(Apply(r, ev), rid, sid)
    ensures HasRequest(r, rid, sid) || HasReply(r, rid, sid) || (ev.Asking? && ev.rid == rid && ev.sid == sid)
  {
    var s := r.state;
    match ev
    case Asking(id, from, targets, now) =>
      NewRequestBalances(r, id, from, now);
      TreatAllBalances(NewRequest(s, id, from, now), id, targets, now);
      hide RunInv, AllBalanced, TreatAll;
    case Viewing(slot, id, rows) => CountersChange(s.requests, id, rows, 0);
    case Connecting(_, _) =>
    case Disconnecting(slot) =>
      if slot < |s.services| && s.services[slot].connected {
        NoneAwaitingCounts(s.requests, s.services[slot].waiting);
      }
    case Cleaning(now, timeout) => CleanKeepsAsker(s, now, timeout, rid, sid);
  }

  /** A request is over once it is expired or complete. */
  lemma OverMeans(q: Request, services: seq<Service>, now: int, timeout: int)
    ensures Over(q, services, now, timeout) <==> now >= q.time + timeout || q.nbWaiting <= q.nbReceived
  {
  }

  /** p is the reply to a request that is over: with its answers, and if it is expired with what is missing. */
  ghost predicate IsReply(q: Request, services: seq<Service>, now: int, timeout: int, p: Reply) {
    && (now >= q.time + timeout || q.nbWaiting <= q.nbReceived)
    && p.to == q.sid && p.id == q.id
    && p.answers == if now >= q.time + timeout then Expired(q, services).answers else q.answers
  }

  /** The replies are those to the requests that are over. */
  lemma {:induction false} RepliesAre(r: seq<Request>, services: seq<Service>, now: int, timeout: int, p: Reply)
    ensures p in RepliesTo(r, services, now, timeout) <==> exists q :: q in r && IsReply(q, services, now, timeout, p)
  {
    if |r| > 0 {
      var n := |r| - 1;
      RepliesAre(r[..n], services, now, timeout, p);
      OverMeans(r[n], services, now, timeout);
      assert Over(r[n], services, now, timeout) ==>
        (p == Reply(r[n].sid, r[n].id, Examined(r[n], services, now, timeout).answers) <==>
           IsReply(r[n], services, now, timeout, p));
      hide Over, Examined, IsReply;
      assert forall q :: q in r <==> q in r[..n] || q == r[n];
    }
  }

  lemma CleanKeepsAsker(s: State, now: int, timeout: int, rid: nat, sid: nat)
    ensures var t := Clean(s, now, timeout);
            HasRequest(Run(t, {}), rid, sid) || HasReply(Run(t, {}), rid, sid) ==>
              HasRequest(Run(s, {}), rid, sid) || HasReply(Run(s, {}), rid, sid)
  {
    var t, replies := Clean(s, now, timeout), RepliesTo(s.requests, s.services, now, timeout);
    hide Remaining, RepliesTo;
    if HasRequest(Run(t, {}), rid, sid) {
      var i :| 0 <= i < |t.requests| && t.requests[i].id == rid && t.requests[i].sid == sid;
      RemainingAre(s.requests, s.services, now, timeout, t.requests[i]);
      assert t.requests[i] in s.requests;
    }
    if HasReply(Run(t, {}), rid, sid) && !HasReply(Run(s, {}), rid, sid) {
      var i :| 0 <= i < |t.replies| && t.replies[i].id == rid && t.replies[i].to == sid;
      var p := t.replies[i];
      assert forall j | 0 <= j < |s.replies| :: t.replies[j] == s.replies[j];
      assert p == replies[i - |s.replies|];
      RepliesAre(s.requests, s.services, now, timeout, p);
      var q :| q in s.requests && IsReply(q, s.services, now, timeout, p);
    }
  }

  /** In every state of every run, a reply goes to the service that asked the request. */
  lemma {:induction false} RepliesGoToAskers(runs: seq<Run>, events: seq<Event>, k: nat, rid: nat, sid: nat)
    requires IsRun(runs, events) && k < |runs| && (HasRequest(runs[k], rid, sid) || HasReply(runs[k], rid, sid))
    ensures AskedBy(events, k, rid, sid)
  {
    if k > 0 {
      RunsAreAccounted(runs, events, k - 1);
      hide RunInv, HasRequest, HasReply;
      StepKeepsAsker(runs[k - 1], events[k - 1], rid, sid);
      if HasRequest(runs[k - 1], rid, sid) || HasReply(runs[k - 1], rid, sid) {
        RepliesGoToAskers(runs, events, k - 1, rid, sid);
        var j :| 0 <= j < k - 1 && events[j].Asking? && events[j].rid == rid && events[j].sid == sid;
        assert AskedBy(events, k, rid, sid);
      } else {
        assert events[k - 1].Asking?;
      }
    }
  }
}
