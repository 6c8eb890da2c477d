/**
 * `CCloudScape`: the scheduler's fields and the methods that change them. The float scores are left
 * to the caller (each generate step takes the rounded scores as a parameter), as is everything that
 * draws a cloud; what is kept is which cloud is recomputed, and how far ahead.
 */
module CloudScapes {
  import opened CloudTokens
  import opened CloudSchedule

  /** Priority of a cloud: the frames since its last occurrence, less its period. */
  ghost function Priority(s: State, tokens: seq<int>, c: nat): int
    requires ShapeOk(s) && c < MAX_CLOUDS && |tokens| == MAX_CLOUDS
    requires s.should[c] ==> tokens[c] >= 1
  {
    if !s.should[c] then 0
    else if s.lastAdded[c].valid then s.frameCounter - s.lastAdded[c].pos - QUEUE_SIZE / tokens[c]
    else 10000
  }

  ghost predicate TokensOk(tokens: seq<int>, should: seq<bool>) {
    |tokens| == |should| && forall i | 0 <= i < |should| && should[i] :: tokens[i] >= 1
  }

  /** The tokens are the scores, at least one each, reduced to QUEUE_SIZE if they are more. */
  ghost predicate Normalized(scores: seq<int>, tokens: seq<int>, should: seq<bool>) {
    exists first, rounds, last :: NormalizedBy(scores, tokens, should, first, rounds, last)
  }

  ghost predicate NormalizedBy(scores: seq<int>, tokens: seq<int>, should: seq<bool>,
                               first: seq<int>, rounds: nat, last: nat) {
    && Clamped(scores, first, should)
    && Reduced(first, tokens, should, rounds, last)
    && var n := Total(first, should, |should|);
       if n <= QUEUE_SIZE then rounds == 0 && last == 0 else Total(tokens, should, |should|) == QUEUE_SIZE
  }

  /** The first cloud of highest priority. */
  ghost predicate HasPriority(s: State, tokens: seq<int>, add: nat)
    requires ShapeOk(s) && TokensOk(tokens, s.should)
  {
    && add < MAX_CLOUDS && s.should[add]
    && forall c | 0 <= c < MAX_CLOUDS && s.should[c] ::
         && Priority(s, tokens, c) <= Priority(s, tokens, add)
         && (c < add ==> Priority(s, tokens, c) < Priority(s, tokens, add))
  }

  /** The cloud of the i-th entry of the first queue. */
  function InTurn(i: nat, nbCloud: nat): (c: nat)
    requires nbCloud > 0
    ensures c < nbCloud && (i < nbCloud ==> c == i)
  {
    i % nbCloud
  }

  lemma MultipleIsFar(d: int, n: int)
    requires 0 < n
    ensures d >= 1 ==> d * n >= n
    ensures d <= -1 ==> d * n <= -n
  {
    assert d * n == n + (d - 1) * n == (d + 1) * n - n;
    assert d >= 1 ==> (d - 1) * n >= 0;
    assert d <= -1 ==> (d + 1) * n <= 0;
  }

  /** Quotient and remainder are unique. */
  lemma SameRemainder(n: int, a: int, r: int, b: int, t: int)
    requires 0 < n && 0 <= r < n && 0 <= t < n && a * n + r == b * n + t
    ensures r == t
  {
    assert (a - b) * n == a * n - b * n;
    MultipleIsFar(a - b, n);
  }

  /** The same clouds again after each turn. */
  lemma TurnsRepeat(i: nat, nbCloud: nat)
    requires 0 < nbCloud <= i
    ensures InTurn(i, nbCloud) == InTurn(i - nbCloud, nbCloud)
  {
    var a, r := i / nbCloud, i % nbCloud;
    var b, t := (i - nbCloud) / nbCloud, (i - nbCloud) % nbCloud;
    assert i == a * nbCloud + r && i - nbCloud == b * nbCloud + t;
    assert (b + 1) * nbCloud == b * nbCloud + nbCloud;
    SameRemainder(nbCloud, a, r, b + 1, t);
  }

  class CloudScape {
    var queue: seq<Entry>
    var lastAdded: seq<Accel>
    var frameCounter: nat
    var power: seq<nat>
    var should: seq<bool>
    const priorities: array<int>

    /** The cloud recomputed by the last generate step, and how many steps ahead. */
    var inProcess: nat
    var inProcessDelta: int

    ghost function Value(): State
      reads this
    {
      State(queue, lastAdded, frameCounter, power, should)
    }

    ghost predicate Valid()
      reads this
    {
      Inv(Value()) && priorities.Length == MAX_CLOUDS
    }

    /** Fills the queue with the clouds in turn. */
    constructor (nbCloud: nat)
      requires 0 < nbCloud <= MAX_CLOUDS
      ensures Valid() && fresh(priorities) && NoFading(Value())
      ensures forall c | 0 <= c < MAX_CLOUDS :: should[c] == (c < nbCloud)
      ensures forall i | 0 <= i < QUEUE_SIZE ::
                queue[i].cloud == if i < nbCloud then i else queue[i - nbCloud].cloud
      ensures forall c | 0 <= c < nbCloud :: InQueue(queue, c)
    {
      power := seq(MAX_CLOUDS, i => if i < nbCloud then 255 else 0);
      should := seq(MAX_CLOUDS, i => i < nbCloud);
      lastAdded := seq(MAX_CLOUDS, i => Accel(false, 0));
      queue, frameCounter := [], 0;
      inProcess, inProcessDelta := 0, 0;
      priorities := new int[MAX_CLOUDS];
      new;
      hide DeltasOk, PointerOk, QueueOk, Append, InTurn;
      NothingQueued(Value());
      for i := 0 to QUEUE_SIZE
        invariant Consistent(Value()) && |queue| == i && frameCounter == i
        invariant forall k | 0 <= k < i :: queue[k].cloud == InTurn(k, nbCloud)
        invariant forall c | 0 <= c < MAX_CLOUDS :: power[c] == (if c < nbCloud then 255 else 0)
        invariant forall c | 0 <= c < MAX_CLOUDS :: should[c] == (c < nbCloud)
      {
        ghost var s := Value();
        var c := InTurn(i, nbCloud);
        FillOne(s, c);
        AddEntry(c, frameCounter, power[c]);
      }
      forall i | nbCloud <= i < QUEUE_SIZE
        ensures queue[i].cloud == queue[i - nbCloud].cloud
      {
        TurnsRepeat(i, nbCloud);
      }
      forall c | 0 <= c < nbCloud
        ensures InQueue(queue, c)
      {
        assert InTurn(c, nbCloud) == c;
        assert queue[c].cloud == c;
      }
    }

    /** Links the last occurrence of a cloud to a new one and appends it. */
    method AddEntry(c: nat, frame: nat, pw: nat)
      requires ShapeOk(Value()) && c < MAX_CLOUDS && frame == frameCounter && pw == power[c]
      requires lastAdded[c].valid ==> 0 <= IndexOf(Value(), lastAdded[c]) < |queue|
      modifies this`queue, this`lastAdded, this`frameCounter, this`should
      ensures Value() == Append(old(Value()), c)
      ensures should == if old(lastAdded[c].valid) && pw == 0 then old(should)[c := false] else old(should)
    {
      if lastAdded[c].valid {
        var i := lastAdded[c].pos - (frameCounter - |queue|);
        var delta := frameCounter - queue[i].frame;
        queue := queue[i := queue[i].(deltaNextCalc := delta)];
        // A cloud that has faded out is not to be processed any more.
        if pw == 0 {
          should := should[c := false];
        }
      }
      queue := queue + [Entry(c, -1, frame, pw)];
      lastAdded := lastAdded[c := Accel(true, frame)];
      frameCounter := frameCounter + 1;
    }

    /**
     * The generate step. The front cloud is recomputed; it is queued again at once if it has no other
     * occurrence, else the cloud of highest priority is queued. The assertion that there is a cloud
     * to queue holds as long as some cloud is to be processed.
     */
    method Generate(scores: seq<int>) returns (add: nat, ghost tokens: seq<int>)
      requires Valid() && |scores| == MAX_CLOUDS
      requires exists c :: 0 <= c < MAX_CLOUDS && should[c]
      modifies this, priorities
      ensures Valid()
      ensures Allowed(old(Value()), add)
      ensures Value() == Step(old(Value()), add)
      ensures inProcess == old(queue[0].cloud)
      ensures inProcessDelta == UsedDelta(old(Value()), add)
      ensures TokensOk(tokens, old(should))
      ensures !Forced(old(Value())) ==>
                Normalized(scores, tokens, old(should)) && HasPriority(old(Value()), tokens, add)
    {
      hide DeltasOk, PointerOk, InQueue, Absent, NoFading, Priority, HasPriority, Normalized;
      ghost var s := Value();
      var front := queue[0];
      tokens := seq(MAX_CLOUDS, i => 1);
      if should[front.cloud] && (!lastAdded[front.cloud].valid || lastAdded[front.cloud].pos == queue[0].frame) {
        add := front.cloud;
        front := front.(deltaNextCalc := QUEUE_SIZE);
      } else {
        add, tokens := ChooseCloud(scores);
        FirstServed(s, tokens, add);
      }
      StepKeepsInv(s, add);
      PointersInRange(s, add);
      AddEntry(add, frameCounter, power[add]);
      FrontIsLast(s, add);
      if lastAdded[front.cloud].pos == queue[0].frame {
        lastAdded := lastAdded[front.cloud := Accel(false, lastAdded[front.cloud].pos)];
      }
      queue := queue[1..];
      assert Value() == Step(s, add);

      // The cloud to compute is the next occurrence of the front cloud, if there is one.
      var found := FindCloud(front.cloud);
      if !found {
        front := front.(deltaNextCalc := 1);
      }
      inProcess, inProcessDelta := front.cloud, front.deltaNextCalc;
    }

    /** Whether a cloud is in the queue. */
    method FindCloud(c: nat) returns (found: bool)
      ensures found <==> InQueue(queue, c)
    {
      var i := 0;
      while i < |queue|
        invariant 0 <= i <= |queue|
        invariant forall k | 0 <= k < i :: queue[k].cloud != c
      {
        if queue[i].cloud == c {
          return true;
        }
        i := i + 1;
      }
      return false;
    }

    /** Turns the scores into tokens and finds the cloud of highest priority. */
    method ChooseCloud(scores: seq<int>) returns (add: nat, ghost tokens: seq<int>)
      requires Valid() && |scores| == MAX_CLOUDS
      requires exists c :: 0 <= c < MAX_CLOUDS && should[c]
      modifies priorities
      ensures TokensOk(tokens, should) && Normalized(scores, tokens, should)
      ensures HasPriority(Value(), tokens, add)
    {
      forall i | 0 <= i < MAX_CLOUDS {
        priorities[i] := scores[i];
      }
      assert priorities[..] == scores;
      var sum;
      ghost var first, rounds, last;
      sum, first, rounds, last := NormalizeTokens(priorities, should);
      tokens := priorities[..];
      assert NormalizedBy(scores, tokens, should, first, rounds, last);
      add := HighestPriority();
    }

    /** The first cloud to process of highest priority. */
    method HighestPriority() returns (add: nat)
      requires Valid() && TokensOk(priorities[..], should)
      requires exists c :: 0 <= c < MAX_CLOUDS && should[c]
      ensures HasPriority(Value(), priorities[..], add)
    {
      hide DeltasOk, PointerOk, QueueOk, Priority;
      ghost var s, tokens := Value(), priorities[..];
      var best, choice := -10000, -1;
      for i := 0 to MAX_CLOUDS
        invariant best >= -10000 && -1 <= choice < i
        invariant choice == -1 ==> best == -10000 && forall c | 0 <= c < i :: !should[c]
        invariant choice != -1 ==> should[choice] && best == Priority(s, tokens, choice)
        invariant choice != -1 ==> forall c | 0 <= c < i && should[c] ::
                    Priority(s, tokens, c) <= best && (c < choice ==> Priority(s, tokens, c) < best)
      {
        if should[i] {
          PriorityBounds(s, tokens, i);
          assert priorities[i] == tokens[i];
          var newPriority := 10000;
          if lastAdded[i].valid {
            newPriority := frameCounter - lastAdded[i].pos - QUEUE_SIZE / priorities[i];
          }
          PriorityIs(s, tokens, i);
          if newPriority > best {
            best, choice := newPriority, i;
          }
        }
      }
      assert choice != -1;
      add := choice;
    }
  }

  lemma PriorityIs(s: State, tokens: seq<int>, c: nat)
    requires ShapeOk(s) && c < MAX_CLOUDS && |tokens| == MAX_CLOUDS && s.should[c] && tokens[c] >= 1
    ensures Priority(s, tokens, c) == if s.lastAdded[c].valid
                                      then s.frameCounter - s.lastAdded[c].pos - QUEUE_SIZE / tokens[c] else 10000
  {
  }

  lemma NothingQueued(s: State)
    requires s.queue == [] && s.frameCounter == 0 && |s.lastAdded| == |s.power| == |s.should| == MAX_CLOUDS
    requires forall c | 0 <= c < MAX_CLOUDS :: !s.lastAdded[c].valid
    ensures Consistent(s)
  {
  }

  lemma FillOne(s: State, c: nat)
    requires Consistent(s) && c < MAX_CLOUDS && s.power[c] > 0
    ensures s.lastAdded[c].valid ==> 0 <= IndexOf(s, s.lastAdded[c]) < |s.queue|
    ensures var t := Append(s, c);
            && Consistent(t) && |t.queue| == |s.queue| + 1 && t.frameCounter == s.frameCounter + 1
            && t.power == s.power && t.should == s.should
            && t.queue[|s.queue|].cloud == c
            && forall k | 0 <= k < |s.queue| :: t.queue[k].cloud == s.queue[k].cloud
  {
    assert PointerOk(s.queue, s.lastAdded[c], s.frameCounter, c);
    AppendKeeps(s, c);
    SameClouds(s, c);
  }

  /**
   * A cloud with t tokens has priority 0 once QUEUE_SIZE / t frames have gone by since its last occurrence,
   * and each frame adds one: it asks for t places in the queue.
   */
  lemma PriorityIsLateness(s: State, tokens: seq<int>, c: nat)
    requires Inv(s) && c < MAX_CLOUDS && TokensOk(tokens, s.should) && s.should[c] && s.lastAdded[c].valid
    ensures var period := s.frameCounter - s.lastAdded[c].pos - Priority(s, tokens, c);
            period * tokens[c] <= QUEUE_SIZE < (period + 1) * tokens[c]
  {
    var q, t := QUEUE_SIZE / tokens[c], tokens[c];
    assert QUEUE_SIZE == q * t + QUEUE_SIZE % t;
    assert (q + 1) * t == q * t + t;
  }

  /** Of the clouds with as many tokens, the one that has waited longest goes first. */
  lemma LongestWaitFirst(s: State, tokens: seq<int>, add: nat, c: nat)
    requires Inv(s) && TokensOk(tokens, s.should) && HasPriority(s, tokens, add)
    requires c < MAX_CLOUDS && s.should[c] && s.lastAdded[c].valid && s.lastAdded[add].valid
    ensures tokens[c] == tokens[add] ==> s.lastAdded[add].pos <= s.lastAdded[c].pos
  {
  }

  lemma PriorityBounds(s: State, tokens: seq<int>, c: nat)
    requires Inv(s) && c < MAX_CLOUDS && TokensOk(tokens, s.should) && s.should[c]
    ensures Priority(s, tokens, c) > -10000
    ensures s.lastAdded[c].valid ==> Priority(s, tokens, c) < 10000
  {
    assert PointerOk(s.queue, s.lastAdded[c], s.frameCounter, c);
    QuotientBounds(QUEUE_SIZE, tokens[c]);
  }

  lemma QuotientBounds(n: nat, d: int)
    requires d >= 1
    ensures 0 <= n / d <= n
  {
    var q := n / d;
    assert n == q * d + n % d;
    assert q * d == q * (d - 1) + q;
    assert q >= 0 ==> q * (d - 1) >= 0;
  }

  /** The priority rule serves absent clouds first. */
  lemma FirstServed(s: State, tokens: seq<int>, add: nat)
    requires Inv(s) && TokensOk(tokens, s.should) && HasPriority(s, tokens, add) && !Forced(s)
    ensures Allowed(s, add)
  {
    if c :| c in Absent(s) {
      PriorityBounds(s, tokens, add);
      assert Priority(s, tokens, c) == 10000;
    }
  }

  lemma PointersInRange(s: State, add: nat)
    requires Inv(s) && add < MAX_CLOUDS
    ensures s.lastAdded[add].valid ==> 0 <= IndexOf(s, s.lastAdded[add]) < |s.queue|
  {
    assert PointerOk(s.queue, s.lastAdded[add], s.frameCounter, add);
  }

  /** The front cloud's pointer is valid, so comparing it with the front entry is meaningful. */
  lemma FrontIsLast(s: State, add: nat)
    requires Inv(s) && add < MAX_CLOUDS
    ensures ShapeOk(s) && s.queue != [] && s.lastAdded[s.queue[0].cloud].valid
  {
    assert PointerOk(s.queue, s.lastAdded[s.queue[0].cloud], s.frameCounter, s.queue[0].cloud);
    assert InQueue(s.queue, s.queue[0].cloud);
  }
}
