/**
 * The scheduling part of `CCloudScape::makeHalfCloud`, as steps on a value: the queue of QUEUE_SIZE
 * entries, the "last occurrence" pointers, and the flags of the clouds to process.
 *
 * A list iterator is named by the frame of its entry: frames are unique and entries do not move.
 */
module CloudSchedule {
  import opened CloudTokens

  /** `SCloudSchedulerEntry`; a delta of -1 means that no next occurrence is known yet. */
  datatype Entry = Entry(cloud: nat, deltaNextCalc: int, frame: nat, power: nat)

  /** `SCloudSchedulerAccel`: the last occurrence of a cloud, if `valid`. */
  datatype Accel = Accel(valid: bool, pos: nat)

  datatype State = State(queue: seq<Entry>, lastAdded: seq<Accel>, frameCounter: nat,
                         power: seq<nat>, should: seq<bool>)

  ghost predicate InQueue(q: seq<Entry>, c: nat) {
    exists i | 0 <= i < |q| :: q[i].cloud == c
  }

  ghost predicate IsLast(q: seq<Entry>, i: nat)
    requires i < |q|
  {
    forall j | i < j < |q| :: q[j].cloud != q[i].cloud
  }

  /** j is the next occurrence of the cloud of entry i. */
  ghost predicate IsNext(q: seq<Entry>, i: nat, j: nat)
    requires i < |q| && j < |q|
  {
    i < j && q[j].cloud == q[i].cloud && forall k | i < k < j :: q[k].cloud != q[i].cloud
  }

  ghost predicate QueueOk(q: seq<Entry>, frameCounter: nat) {
    && |q| <= frameCounter
    && (forall i | 0 <= i < |q| :: q[i].cloud < MAX_CLOUDS && q[i].frame == frameCounter - |q| + i)
  }

  /** Every non-last entry holds the exact distance to the next occurrence of its cloud. */
  ghost predicate DeltasOk(q: seq<Entry>) {
    forall i, j | 0 <= i < |q| && 0 <= j < |q| && IsNext(q, i, j) :: q[i].deltaNextCalc == j - i
  }

  /** The pointer of cloud c is valid exactly if c is queued, and then designates its last occurrence. */
  ghost predicate PointerOk(q: seq<Entry>, a: Accel, frameCounter: nat, c: nat)
    requires QueueOk(q, frameCounter)
  {
    if a.valid then
      && frameCounter - |q| <= a.pos < frameCounter
      && var i := a.pos - (frameCounter - |q|);
         q[i].cloud == c && IsLast(q, i)
    else
      !InQueue(q, c)
  }

  ghost predicate ShapeOk(s: State) {
    |s.lastAdded| == |s.power| == |s.should| == MAX_CLOUDS && QueueOk(s.queue, s.frameCounter)
  }

  ghost predicate Consistent(s: State) {
    && ShapeOk(s)
    && DeltasOk(s.queue)
    && forall c | 0 <= c < MAX_CLOUDS :: PointerOk(s.queue, s.lastAdded[c], s.frameCounter, c)
  }

  ghost predicate Inv(s: State) {
    Consistent(s) && |s.queue| == QUEUE_SIZE
  }

  /** Index in the queue of a pointed entry. */
  function IndexOf(s: State, a: Accel): int {
    a.pos - (s.frameCounter - |s.queue|)
  }

  /** Appends an occurrence of a cloud at the end of the queue. */
  function Append(s: State, c: nat): State
    requires ShapeOk(s) && c < MAX_CLOUDS
    requires s.lastAdded[c].valid ==> 0 <= IndexOf(s, s.lastAdded[c]) < |s.queue|
  {
    var a := s.lastAdded[c];
    var queue :=
      if a.valid then
        var i := IndexOf(s, a);
        s.queue[i := s.queue[i].(deltaNextCalc := s.frameCounter - s.queue[i].frame)]
      else s.queue;
    s.(queue := queue + [Entry(c, -1, s.frameCounter, s.power[c])],
       lastAdded := s.lastAdded[c := Accel(true, s.frameCounter)],
       frameCounter := s.frameCounter + 1,
       should := if a.valid && s.power[c] == 0 then s.should[c := false] else s.should)
  }

  /** Drops the front entry, and the pointer of its cloud if that was its last occurrence. */
  function PopFront(s: State): State
    requires ShapeOk(s) && s.queue != []
  {
    var c := s.queue[0].cloud;
    s.(queue := s.queue[1..],
       lastAdded := if s.lastAdded[c].valid && s.lastAdded[c].pos == s.queue[0].frame
                    then s.lastAdded[c := Accel(false, s.lastAdded[c].pos)] else s.lastAdded)
  }

  lemma AppendKeeps(s: State, c: nat)
    requires Consistent(s) && c < MAX_CLOUDS
    ensures Consistent(Append(s, c))
  {
    hide IsLast;
    var t := Append(s, c);
    var a := s.lastAdded[c];
    var n := |s.queue|;
    SameClouds(s, c);
    forall i, j | 0 <= i < |t.queue| && 0 <= j < |t.queue| && IsNext(t.queue, i, j)
      ensures t.queue[i].deltaNextCalc == j - i
    {
      NextAfterAppend(s, c, i, j);
    }
    forall d | 0 <= d < MAX_CLOUDS
      ensures PointerOk(t.queue, t.lastAdded[d], t.frameCounter, d)
    {
      PointerAfterAppend(s, c, d);
    }
  }

  lemma SameClouds(s: State, c: nat)
    requires Consistent(s) && c < MAX_CLOUDS
    ensures var t := Append(s, c);
            && |t.queue| == |s.queue| + 1 && t.queue[|s.queue|] == Entry(c, -1, s.frameCounter, s.power[c])
            && (forall i | 0 <= i < |s.queue| :: t.queue[i].cloud == s.queue[i].cloud && t.queue[i].frame == s.queue[i].frame)
            && ShapeOk(t)
  {
  }

  lemma NextAfterAppend(s: State, c: nat, i: nat, j: nat)
    requires Consistent(s) && c < MAX_CLOUDS
    requires i < |Append(s, c).queue| && j < |Append(s, c).queue| && IsNext(Append(s, c).queue, i, j)
    ensures Append(s, c).queue[i].deltaNextCalc == j - i
  {
    SameClouds(s, c);
    var t := Append(s, c);
    var a := s.lastAdded[c];
    assert PointerOk(s.queue, a, s.frameCounter, c);
    if j < |s.queue| {
      assert IsNext(s.queue, i, j);
    } else {
      assert s.queue[i].cloud == c;
      assert IsLast(s.queue, i);
      assert a.valid;
      LastIsUnique(s.queue, i, IndexOf(s, a));
    }
  }

  lemma LastIsUnique(q: seq<Entry>, i: nat, j: nat)
    requires i < |q| && j < |q| && q[i].cloud == q[j].cloud && IsLast(q, i) && IsLast(q, j)
    ensures i == j
  {
  }

  lemma PointerAfterAppend(s: State, c: nat, d: nat)
    requires Consistent(s) && c < MAX_CLOUDS && d < MAX_CLOUDS
    requires ShapeOk(Append(s, c))
    ensures PointerOk(Append(s, c).queue, Append(s, c).lastAdded[d], Append(s, c).frameCounter, d)
  {
    SameClouds(s, c);
    var t := Append(s, c);
    assert PointerOk(s.queue, s.lastAdded[d], s.frameCounter, d);
    if d != c {
      if s.lastAdded[d].valid {
        var i := IndexOf(s, s.lastAdded[d]);
        assert IsLast(t.queue, i);
      } else {
        forall i | 0 <= i < |t.queue|
          ensures t.queue[i].cloud != d
        {
          assert i < |s.queue| ==> t.queue[i].cloud == s.queue[i].cloud;
        }
      }
    }
  }

  lemma PopKeeps(s: State)
    requires Consistent(s) && s.queue != []
    ensures Consistent(PopFront(s))
  {
    var t := PopFront(s);
    forall i, j | 0 <= i < |t.queue| && 0 <= j < |t.queue| && IsNext(t.queue, i, j)
      ensures t.queue[i].deltaNextCalc == j - i
    {
      assert IsNext(s.queue, i + 1, j + 1) by {
        forall k | i + 1 < k < j + 1
          ensures s.queue[k].cloud != s.queue[i + 1].cloud
        {
          assert t.queue[k - 1] == s.queue[k];
        }
      }
    }
    forall d | 0 <= d < MAX_CLOUDS
      ensures PointerOk(t.queue, t.lastAdded[d], t.frameCounter, d)
    {
      PointerAfterPop(s, d);
    }
  }

  lemma PointerAfterPop(s: State, d: nat)
    requires Consistent(s) && s.queue != [] && d < MAX_CLOUDS
    requires QueueOk(PopFront(s).queue, s.frameCounter)
    ensures PointerOk(PopFront(s).queue, PopFront(s).lastAdded[d], s.frameCounter, d)
  {
    var t := PopFront(s);
    var a := s.lastAdded[d];
    assert PointerOk(s.queue, a, s.frameCounter, d);
    if a.valid {
      var i := IndexOf(s, a);
      if i > 0 {
        assert t.lastAdded[d] == a;
        assert t.queue[i - 1] == s.queue[i];
        forall j | i - 1 < j < |t.queue|
          ensures t.queue[j].cloud != d
        {
          assert t.queue[j] == s.queue[j + 1];
        }
      }
    } else {
      assert forall j | 0 <= j < |t.queue| :: t.queue[j] == s.queue[j + 1];
    }
  }

  // ---- The step ----

  /** The front cloud has no other occurrence in the queue and must be processed again. */
  predicate Forced(s: State)
    requires ShapeOk(s) && s.queue != []
  {
    var c := s.queue[0].cloud;
    s.should[c] && (!s.lastAdded[c].valid || s.lastAdded[c].pos == s.queue[0].frame)
  }

  /** The clouds to process that are not in the queue. */
  ghost function Absent(s: State): set<nat>
    requires ShapeOk(s)
  {
    set c: nat | c < MAX_CLOUDS && s.should[c] && !s.lastAdded[c].valid
  }

  /** Which cloud may be added: the front one if forced, else one to process, absent ones first. */
  ghost predicate Allowed(s: State, add: nat)
    requires ShapeOk(s) && s.queue != []
  {
    && add < MAX_CLOUDS
    && if Forced(s) then add == s.queue[0].cloud
       else s.should[add] && (Absent(s) != {} ==> add in Absent(s))
  }

  /** One generate step: a cloud is added at the end of the queue and the front entry is dropped. */
  ghost function Step(s: State, add: nat): State
    requires Inv(s) && add < MAX_CLOUDS
  {
    assert PointerOk(s.queue, s.lastAdded[add], s.frameCounter, add);
    AppendKeeps(s, add);
    PopFront(Append(s, add))
  }

  /** Every step keeps the whole invariant. */
  lemma StepKeepsInv(s: State, add: nat)
    requires Inv(s) && add < MAX_CLOUDS
    ensures Inv(Step(s, add))
  {
    AppendKeeps(s, add);
    PopKeeps(Append(s, add));
  }

  /**
   * The distance by which the front cloud is extrapolated: QUEUE_SIZE when forced, else the front
   * entry's own delta, or 1 if the cloud is no more in the queue.
   */
  ghost function UsedDelta(s: State, add: nat): int
    requires Inv(s) && add < MAX_CLOUDS
  {
    if !InQueue(Step(s, add).queue, s.queue[0].cloud) then 1
    else if Forced(s) then QUEUE_SIZE
    else s.queue[0].deltaNextCalc
  }

  /** A step shifts the clouds of the queue by one place and appends the added cloud. */
  lemma StepShifts(s: State, add: nat)
    requires Inv(s) && add < MAX_CLOUDS
    ensures var t := Step(s, add);
            && |t.queue| == QUEUE_SIZE
            && (forall i | 0 <= i < QUEUE_SIZE - 1 :: t.queue[i].cloud == s.queue[i + 1].cloud)
            && t.queue[QUEUE_SIZE - 1] == Entry(add, -1, s.frameCounter, s.power[add])
            && t.frameCounter == s.frameCounter + 1
            && t.power == s.power
            && t.should == if InQueue(s.queue, add) && s.power[add] == 0 then s.should[add := false] else s.should
  {
    SameClouds(s, add);
    assert PointerOk(s.queue, s.lastAdded[add], s.frameCounter, add);
  }

  /**
   * The cloud recomputed in a step is extrapolated by exactly the number of steps until it is
   * recomputed again.
   */
  lemma UsedDeltaIsExact(s: State, add: nat)
    requires Inv(s) && Allowed(s, add)
    ensures var q := Step(s, add).queue;
            var c := s.queue[0].cloud;
            var d := UsedDelta(s, add);
            InQueue(q, c) ==>
              && 1 <= d <= QUEUE_SIZE && q[d - 1].cloud == c
              && forall j | 0 <= j < d - 1 :: q[j].cloud != c
    ensures !InQueue(Step(s, add).queue, s.queue[0].cloud) ==> UsedDelta(s, add) == 1
  {
    var q := Step(s, add).queue;
    var c := s.queue[0].cloud;
    StepShifts(s, add);
    assert PointerOk(s.queue, s.lastAdded[c], s.frameCounter, c);
    assert s.lastAdded[c].valid by { assert s.queue[0].cloud == c; }
    var last := IndexOf(s, s.lastAdded[c]);
    if last == 0 {
      // No other occurrence in the queue: the new one, if it is forced.
      assert forall j | 0 <= j < QUEUE_SIZE - 1 :: q[j].cloud != c;
    } else {
      var j := NextOccurrence(s.queue, last);
      assert s.queue[0].deltaNextCalc == j;
      assert q[j - 1].cloud == c;
    }
  }

  lemma NextOccurrence(q: seq<Entry>, last: nat) returns (j: nat)
    requires 0 < last < |q| && q[last].cloud == q[0].cloud
    ensures 0 < j <= last && IsNext(q, 0, j)
  {
    j := 1;
    while q[j].cloud != q[0].cloud
      invariant 1 <= j <= last
      invariant forall k | 0 < k < j :: q[k].cloud != q[0].cloud
      decreases last - j
    {
      j := j + 1;
    }
  }

  /** A queued cloud that is to be processed, and is not fading out, stays queued and to be processed. */
  lemma StaysQueued(s: State, add: nat, c: nat)
    requires Inv(s) && Allowed(s, add)
    requires c < MAX_CLOUDS && InQueue(s.queue, c) && s.should[c] && s.power[c] > 0
    ensures InQueue(Step(s, add).queue, c) && Step(s, add).should[c] && Step(s, add).power[c] > 0
  {
    var t := Step(s, add);
    StepShifts(s, add);
    assert PointerOk(s.queue, s.lastAdded[c], s.frameCounter, c);
    var i := IndexOf(s, s.lastAdded[c]);
    if i == 0 {
      assert Forced(s);
      assert t.queue[QUEUE_SIZE - 1].cloud == c;
    } else {
      assert t.queue[i - 1].cloud == c;
    }
  }

  // ---- Runs ----

  /** Consecutive generate steps; `adds[k]` is the cloud added by step k. */
  ghost predicate Run(s: State, adds: seq<nat>)
    requires Inv(s)
    decreases adds
  {
    adds != [] ==>
      && Allowed(s, adds[0])
      && Inv(Step(s, adds[0]))
      && Run(Step(s, adds[0]), adds[1..])
  }

  /** The cloud recomputed by step k of a run. */
  ghost function Recomputed(s: State, adds: seq<nat>, k: nat): nat
    requires Inv(s) && Run(s, adds) && k < |adds|
    decreases adds
  {
    if k == 0 then s.queue[0].cloud else Recomputed(Step(s, adds[0]), adds[1..], k - 1)
  }

  /** The first QUEUE_SIZE steps of a run recompute the clouds of the queue, in order. */
  lemma {:induction false} QueueIsServed(s: State, adds: seq<nat>, k: nat)
    requires Inv(s) && Run(s, adds) && k < |adds| && k < QUEUE_SIZE
    ensures Recomputed(s, adds, k) == s.queue[k].cloud
    decreases adds
  {
    if k > 0 {
      StepShifts(s, adds[0]);
      QueueIsServed(Step(s, adds[0]), adds[1..], k - 1);
    }
  }

  lemma NextIsServed(s: State, adds: seq<nat>, k: nat)
    requires Inv(s) && Run(s, adds) && 0 < k < |adds| && k <= QUEUE_SIZE
    ensures adds[0] < MAX_CLOUDS && |Step(s, adds[0]).queue| == QUEUE_SIZE
    ensures Recomputed(s, adds, k) == Step(s, adds[0]).queue[k - 1].cloud
  {
    hide Step;
    QueueIsServed(Step(s, adds[0]), adds[1..], k - 1);
  }

  /**
   * Main result: the extrapolation is exact over whole runs. A cloud recomputed by step 0 and still
   * queued afterwards is next recomputed at step `UsedDelta`, and by no step before.
   */
  lemma ExtrapolationIsExact(s: State, adds: seq<nat>, k: nat)
    requires Inv(s) && Run(s, adds) && 0 < k < |adds| && k <= QUEUE_SIZE
    requires InQueue(Step(s, adds[0]).queue, s.queue[0].cloud)
    ensures k == UsedDelta(s, adds[0]) ==> Recomputed(s, adds, k) == s.queue[0].cloud
    ensures k < UsedDelta(s, adds[0]) ==> Recomputed(s, adds, k) != s.queue[0].cloud
  {
    UsedDeltaIsExact(s, adds[0]);
    NextIsServed(s, adds, k);
    hide Step, UsedDelta, Allowed, Inv, InQueue, Recomputed;
  }

  ghost function After(s: State, adds: seq<nat>, k: nat): State
    requires Inv(s) && Run(s, adds) && k <= |adds|
    ensures Inv(After(s, adds, k)) && Run(After(s, adds, k), adds[k..])
    decreases adds
  {
    if k == 0 then s
    else
      assert adds[1..][k - 1..] == adds[k..];
      After(Step(s, adds[0]), adds[1..], k - 1)
  }

  lemma {:induction false} RecomputedAfter(s: State, adds: seq<nat>, k: nat, j: nat)
    requires Inv(s) && Run(s, adds) && k + j < |adds|
    ensures Recomputed(After(s, adds, k), adds[k..], j) == Recomputed(s, adds, k + j)
    decreases adds
  {
    hide Inv, Step;
    if k == 0 {
      assert adds[0..] == adds;
    } else {
      RecomputedAfter(Step(s, adds[0]), adds[1..], k - 1, j);
      assert adds[1..][k - 1..] == adds[k..];
    }
  }

  lemma {:induction false} StaysQueuedAlong(s: State, adds: seq<nat>, k: nat, c: nat)
    requires Inv(s) && Run(s, adds) && k <= |adds|
    requires c < MAX_CLOUDS && InQueue(s.queue, c) && s.should[c] && s.power[c] > 0
    ensures InQueue(After(s, adds, k).queue, c)
    decreases adds
  {
    if k > 0 {
      StaysQueued(s, adds[0], c);
      StaysQueuedAlong(Step(s, adds[0]), adds[1..], k - 1, c);
    }
  }

  /**
   * Main result: no cloud starves. In any QUEUE_SIZE consecutive steps of a run, each cloud that is
   * queued, to be processed and not fading out is recomputed.
   */
  lemma NoStarvation(s: State, adds: seq<nat>, from: nat, c: nat)
    requires Inv(s) && Run(s, adds) && from + QUEUE_SIZE <= |adds|
    requires c < MAX_CLOUDS && InQueue(s.queue, c) && s.should[c] && s.power[c] > 0
    ensures exists k :: from <= k < from + QUEUE_SIZE && Recomputed(s, adds, k) == c
  {
    StaysQueuedAlong(s, adds, from, c);
    var t := After(s, adds, from);
    var i :| 0 <= i < |t.queue| && t.queue[i].cloud == c;
    QueueIsServed(t, adds[from..], i);
    RecomputedAfter(s, adds, from, i);
  }

  // ---- A cloud that has faded out leaves ----

  /** The last occurrence of c in the queue is at i. */
  ghost predicate LastAt(q: seq<Entry>, c: nat, i: nat) {
    i < |q| && q[i].cloud == c && IsLast(q, i)
  }

  ghost predicate NoneFrom(q: seq<Entry>, c: nat, i: nat) {
    forall j | i <= j < |q| :: q[j].cloud != c
  }

  lemma SomeLast(s: State, c: nat) returns (i: nat)
    requires Inv(s) && c < MAX_CLOUDS && InQueue(s.queue, c)
    ensures LastAt(s.queue, c, i)
  {
    assert PointerOk(s.queue, s.lastAdded[c], s.frameCounter, c);
    i := IndexOf(s, s.lastAdded[c]);
  }

  /** It is added once more, and is then not to be processed any more, or its last occurrence comes nearer. */
  lemma FadesStep(s: State, add: nat, c: nat, i: nat)
    requires Inv(s) && Allowed(s, add) && c < MAX_CLOUDS && s.power[c] == 0 && s.should[c] && LastAt(s.queue, c, i)
    ensures var t := Step(s, add);
            !t.should[c] || (i > 0 && t.should[c] && LastAt(t.queue, c, i - 1))
  {
    StepShifts(s, add);
    assert InQueue(s.queue, c);
    var t := Step(s, add);
    if add != c {
      assert PointerOk(s.queue, s.lastAdded[c], s.frameCounter, c);
      LastIsUnique(s.queue, i, IndexOf(s, s.lastAdded[c]));
      forall j | i - 1 < j < QUEUE_SIZE
        ensures t.queue[j].cloud != c
      {
        assert j < QUEUE_SIZE - 1 ==> t.queue[j].cloud == s.queue[j + 1].cloud;
      }
    }
  }

  /** A cloud not to be processed is not added: it is so for ever, and its occurrences go. */
  lemma LeavesStep(s: State, add: nat, c: nat, i: nat)
    requires Inv(s) && Allowed(s, add) && c < MAX_CLOUDS && !s.should[c] && NoneFrom(s.queue, c, i)
    ensures !Step(s, add).should[c] && NoneFrom(Step(s, add).queue, c, if i > 0 then i - 1 else 0)
  {
    StepShifts(s, add);
    var t := Step(s, add);
    forall j | (if i > 0 then i - 1 else 0) <= j < QUEUE_SIZE
      ensures t.queue[j].cloud != c
    {
      assert j < QUEUE_SIZE - 1 ==> t.queue[j].cloud == s.queue[j + 1].cloud;
    }
  }

  lemma {:induction false} LeavesAlong(s: State, adds: seq<nat>, k: nat, c: nat, i: nat)
    requires Inv(s) && Run(s, adds) && i <= k <= |adds| && c < MAX_CLOUDS && !s.should[c] && NoneFrom(s.queue, c, i)
    ensures !After(s, adds, k).should[c] && NoneFrom(After(s, adds, k).queue, c, 0)
    decreases adds
  {
    if k > 0 {
      LeavesStep(s, adds[0], c, i);
      hide Inv, Step, Allowed, NoneFrom;
      LeavesAlong(Step(s, adds[0]), adds[1..], k - 1, c, if i > 0 then i - 1 else 0);
    }
  }

  lemma FirstStep(s: State, adds: seq<nat>, k: nat)
    requires Inv(s) && Run(s, adds) && 0 < k <= |adds|
    ensures adds[0] < MAX_CLOUDS && Allowed(s, adds[0])
    ensures var t := Step(s, adds[0]);
            && Inv(t) && Run(t, adds[1..]) && t.power == s.power && After(s, adds, k) == After(t, adds[1..], k - 1)
    ensures forall c :: NoneFrom(Step(s, adds[0]).queue, c, QUEUE_SIZE)
    ensures |s.should| == |s.power| == |Step(s, adds[0]).should| == |Step(s, adds[0]).power| == MAX_CLOUDS
  {
    StepShifts(s, adds[0]);
  }

  lemma {:induction false} FadesAlong(s: State, adds: seq<nat>, k: nat, c: nat, i: nat)
    requires Inv(s) && Run(s, adds) && c < MAX_CLOUDS && s.power[c] == 0 && s.should[c] && LastAt(s.queue, c, i)
    requires i + 1 + QUEUE_SIZE <= k <= |adds|
    ensures !After(s, adds, k).should[c] && NoneFrom(After(s, adds, k).queue, c, 0)
    decreases adds
  {
    hide Inv, Step, Allowed, NoneFrom, LastAt, Run, After;
    FirstStep(s, adds, k);
    FadesStep(s, adds[0], c, i);
    var t := Step(s, adds[0]);
    if t.should[c] {
      FadesAlong(t, adds[1..], k - 1, c, i - 1);
    } else {
      LeavesAlong(t, adds[1..], k - 1, c, QUEUE_SIZE);
    }
  }

  /**
   * A cloud that has faded out leaves: 2 * QUEUE_SIZE steps after it is queued with no power left, and
   * from then on, it is neither to be processed nor queued.
   */
  lemma FadedCloudsLeave(s: State, adds: seq<nat>, k: nat, c: nat)
    requires Inv(s) && Run(s, adds) && 2 * QUEUE_SIZE <= k <= |adds|
    requires c < MAX_CLOUDS && InQueue(s.queue, c) && s.power[c] == 0
    ensures !After(s, adds, k).should[c] && !InQueue(After(s, adds, k).queue, c)
  {
    if s.should[c] {
      var i := SomeLast(s, c);
      FadesAlong(s, adds, k, c, i);
    } else {
      LeavesAlong(s, adds, k, c, QUEUE_SIZE);
    }
  }

  // ---- How soon a new cloud gets its place ----

  /** The queue starts with distinct clouds as long as steps are forced. */
  ghost predicate DistinctFrom(q: seq<Entry>, n: nat)
    requires n <= |q|
  {
    forall i, j | 0 <= i < j < n :: q[i].cloud != q[j].cloud
  }

  /** A forced front cloud does not occur again in the queue. */
  lemma ForcedIsAlone(s: State)
    requires Inv(s) && Forced(s)
    ensures forall j | 0 < j < QUEUE_SIZE :: s.queue[j].cloud != s.queue[0].cloud
  {
    var c := s.queue[0].cloud;
    assert PointerOk(s.queue, s.lastAdded[c], s.frameCounter, c);
    assert s.lastAdded[c].valid by { assert s.queue[0].cloud == c; }
    assert IndexOf(s, s.lastAdded[c]) == 0;
  }

  /** If the first n steps of a run are all forced, the first n clouds of the queue are distinct. */
  lemma {:induction false} ForcedAreDistinct(s: State, adds: seq<nat>, n: nat)
    requires Inv(s) && Run(s, adds) && n <= |adds| && n <= QUEUE_SIZE
    requires forall k | 0 <= k < n :: Forced(After(s, adds, k))
    ensures DistinctFrom(s.queue, n)
    decreases adds
  {
    hide Step, Absent;
    if n > 0 {
      assert After(s, adds, 0) == s;
      ForcedIsAlone(s);
      StepShifts(s, adds[0]);
      var t := Step(s, adds[0]);
      forall k | 0 <= k < n - 1
        ensures Forced(After(t, adds[1..], k))
      {
        assert After(s, adds, k + 1) == After(t, adds[1..], k);
      }
      ForcedAreDistinct(t, adds[1..], n - 1);
      forall i, j | 0 <= i < j < n
        ensures s.queue[i].cloud != s.queue[j].cloud
      {
        if i > 0 {
          assert t.queue[i - 1].cloud != t.queue[j - 1].cloud;
        }
      }
    }
  }

  lemma {:induction false} TooManyClouds(q: seq<Entry>, n: nat, bound: nat)
    requires n <= |q| && DistinctFrom(q, n)
    requires forall i | 0 <= i < n :: q[i].cloud < bound
    ensures n <= bound
    decreases bound
  {
    if n > 0 {
      assert q[0].cloud < bound;
      if i :| 0 <= i < n && q[i].cloud == bound - 1 {
        var r := q[..i] + q[i + 1..];
        RestIsDistinct(q, n, i);
        TooManyClouds(r, n - 1, bound - 1);
      } else {
        TooManyClouds(q, n, bound - 1);
      }
    }
  }

  lemma RestIsDistinct(q: seq<Entry>, n: nat, i: nat)
    requires i < n <= |q| && DistinctFrom(q, n)
    ensures var r := q[..i] + q[i + 1..];
            DistinctFrom(r, n - 1) && forall j | 0 <= j < n - 1 :: r[j].cloud != q[i].cloud && exists k :: 0 <= k < n && r[j] == q[k]
  {
    var r := q[..i] + q[i + 1..];
    forall j | 0 <= j < n - 1
      ensures r[j].cloud != q[i].cloud && exists k :: 0 <= k < n && r[j] == q[k]
    {
      var j' := if j < i then j else j + 1;
      assert r[j] == q[j'];
    }
    forall j, k | 0 <= j < k < n - 1
      ensures r[j].cloud != r[k].cloud
    {
      var j' := if j < i then j else j + 1;
      var k' := if k < i then k else k + 1;
      assert r[j] == q[j'] && r[k] == q[k'];
    }
  }

  /**
   * Main result, the reason why the queue is longer than the number of clouds: among any
   * MAX_CLOUDS + 1 consecutive steps at least one is free to add another cloud than the front one.
   */
  lemma SomeStepIsFree(s: State, adds: seq<nat>)
    requires Inv(s) && Run(s, adds) && |adds| > MAX_CLOUDS
    ensures exists k :: 0 <= k <= MAX_CLOUDS && !Forced(After(s, adds, k))
  {
    if forall k | 0 <= k <= MAX_CLOUDS :: Forced(After(s, adds, k)) {
      ForcedAreDistinct(s, adds, MAX_CLOUDS + 1);
      TooManyClouds(s.queue, MAX_CLOUDS + 1, MAX_CLOUDS);
    }
  }

  /** No cloud to process is fading out. */
  ghost predicate NoFading(s: State)
    requires ShapeOk(s)
  {
    forall c | 0 <= c < MAX_CLOUDS && s.should[c] :: s.power[c] > 0
  }

  /** A step makes no cloud absent, and a free step gives a place to an absent one. */
  lemma AbsentShrinks(s: State, add: nat)
    requires Inv(s) && Allowed(s, add) && NoFading(s)
    ensures Inv(Step(s, add)) && NoFading(Step(s, add)) && Absent(Step(s, add)) <= Absent(s)
    ensures !Forced(s) && Absent(s) != {} ==> Absent(Step(s, add)) < Absent(s)
  {
    StepKeepsInv(s, add);
    StepShifts(s, add);
    var t := Step(s, add);
    assert t.lastAdded[add].valid by {
      assert PointerOk(t.queue, t.lastAdded[add], t.frameCounter, add);
      assert t.queue[QUEUE_SIZE - 1].cloud == add;
    }
    forall c | c in Absent(t)
      ensures c in Absent(s)
    {
      assert PointerOk(t.queue, t.lastAdded[c], t.frameCounter, c);
      assert PointerOk(s.queue, s.lastAdded[c], s.frameCounter, c);
      if s.lastAdded[c].valid {
        assert InQueue(s.queue, c);
        StaysQueued(s, add, c);
      }
    }
  }

  lemma {:induction false} AbsentAlong(s: State, adds: seq<nat>, k: nat)
    requires Inv(s) && Run(s, adds) && NoFading(s) && k <= |adds|
    ensures NoFading(After(s, adds, k)) && Absent(After(s, adds, k)) <= Absent(s)
    decreases adds
  {
    if k > 0 {
      AbsentShrinks(s, adds[0]);
      AbsentAlong(Step(s, adds[0]), adds[1..], k - 1);
    }
  }

  lemma {:induction false} AfterAfter(s: State, adds: seq<nat>, k: nat, j: nat)
    requires Inv(s) && Run(s, adds) && k + j <= |adds|
    ensures After(After(s, adds, k), adds[k..], j) == After(s, adds, k + j)
    decreases adds
  {
    hide Inv, Step;
    if k == 0 {
      assert adds[0..] == adds;
    } else {
      AfterAfter(Step(s, adds[0]), adds[1..], k - 1, j);
      assert adds[1..][k - 1..] == adds[k..];
    }
  }

  /**
   * Main result: clouds that become active get their place. While no cloud fades out, every
   * MAX_CLOUDS + 1 steps give a place to at least one absent cloud, until none is absent.
   */
  lemma NewCloudsEnter(s: State, adds: seq<nat>)
    requires Inv(s) && Run(s, adds) && NoFading(s) && |adds| > MAX_CLOUDS
    requires Absent(s) != {}
    ensures Absent(After(s, adds, MAX_CLOUDS + 1)) < Absent(s)
  {
    SomeStepIsFree(s, adds);
    var k :| 0 <= k <= MAX_CLOUDS && !Forced(After(s, adds, k));
    FreeStepHelps(s, adds, k);
  }

  lemma FreeStepHelps(s: State, adds: seq<nat>, k: nat)
    requires Inv(s) && Run(s, adds) && NoFading(s) && |adds| > MAX_CLOUDS
    requires Absent(s) != {} && k <= MAX_CLOUDS && !Forced(After(s, adds, k))
    ensures Absent(After(s, adds, MAX_CLOUDS + 1)) < Absent(s)
  {
    hide Step, Allowed, Consistent, ShapeOk, Absent, NoFading, Forced;
    AbsentAlong(s, adds, k);
    var t := After(s, adds, k);
    OneStep(t, adds[k..]);
    AbsentShrinks(t, adds[k]);
    AfterAfter(s, adds, k, 1);
    AbsentAlong(s, adds, k + 1);
    AfterAfter(s, adds, k + 1, MAX_CLOUDS - k);
    AbsentAlong(After(s, adds, k + 1), adds[k + 1..], MAX_CLOUDS - k);
  }

  lemma OneStep(s: State, adds: seq<nat>)
    requires Inv(s) && Run(s, adds) && adds != []
    ensures Allowed(s, adds[0]) && After(s, adds, 1) == Step(s, adds[0])
  {
  }
}
