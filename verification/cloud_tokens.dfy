/**
 * The token normalisation of `CCloudScape::makeHalfCloud`: each cloud to process gets at least one
 * token, and round after round one token is taken from each cloud that has more than one, until
 * QUEUE_SIZE tokens are left.
 */
module CloudTokens {

  const MAX_CLOUDS: nat := 256
  const QUEUE_SIZE: nat := 512

  /** Tokens of the first n clouds that are to be processed. */
  ghost function Total(tokens: seq<int>, should: seq<bool>, n: nat): int
    requires n <= |tokens| && n <= |should|
  {
    if n == 0 then 0 else Total(tokens, should, n - 1) + (if should[n - 1] then tokens[n - 1] else 0)
  }

  function AtLeastOne(tokens: int): (r: int)
    ensures r >= 1
  {
    if tokens < 1 then 1 else tokens
  }

  /**
   * The closed form of the reduction: `rounds` tokens are taken from each cloud, and one more from
   * the clouds before `last`, but never the last token of a cloud.
   */
  ghost predicate Reduced(first: seq<int>, tokens: seq<int>, should: seq<bool>, rounds: nat, last: nat) {
    && |first| == |tokens| == |should|
    && forall i | 0 <= i < |should| && should[i] ::
         tokens[i] == AtLeastOne(first[i] - rounds - (if i < last then 1 else 0))
  }

  ghost predicate Clamped(raw: seq<int>, tokens: seq<int>, should: seq<bool>) {
    && |raw| == |tokens| == |should|
    && forall i | 0 <= i < |should| && should[i] :: tokens[i] == AtLeastOne(raw[i])
  }

  lemma {:induction false} TotalUpdate(tokens: seq<int>, should: seq<bool>, n: nat, i: nat, v: int)
    requires n <= |tokens| && n <= |should| && i < |tokens| && i < |should|
    ensures Total(tokens[i := v], should, n)
            == Total(tokens, should, n) + (if i < n && should[i] then v - tokens[i] else 0)
  {
    if n > 0 {
      TotalUpdate(tokens, should, n - 1, i, v);
    }
  }

  /** Clouds that all hold one token hold at most one each. */
  lemma {:induction false} OnesAreFew(tokens: seq<int>, should: seq<bool>, n: nat)
    requires n <= |tokens| && n <= |should|
    requires forall i | 0 <= i < n && should[i] :: tokens[i] <= 1
    ensures Total(tokens, should, n) <= n
  {
    if n > 0 {
      OnesAreFew(tokens, should, n - 1);
    }
  }

  /**
   * Turns the rounded scores into tokens, in place. The sum ends at QUEUE_SIZE whenever it was above,
   * every cloud keeps a token, and the result is the closed form above.
   */
  method NormalizeTokens(p: array<int>, should: seq<bool>)
    returns (sumJeton: int, ghost first: seq<int>, ghost rounds: nat, ghost last: nat)
    requires p.Length == |should| <= MAX_CLOUDS
    modifies p
    ensures Clamped(old(p[..]), first, should)
    ensures Reduced(first, p[..], should, rounds, last)
    ensures sumJeton == Total(p[..], should, |should|)
    ensures sumJeton == if Total(first, should, |should|) > QUEUE_SIZE then QUEUE_SIZE
                        else Total(first, should, |should|)
    ensures Total(first, should, |should|) <= QUEUE_SIZE ==> rounds == 0 && last == 0
  {
    sumJeton := 0;
    var n := p.Length;
    for i := 0 to n
      invariant forall k | i <= k < n :: p[k] == old(p[k])
      invariant forall k | 0 <= k < i && should[k] :: p[k] == AtLeastOne(old(p[k]))
      invariant sumJeton == Total(p[..], should, i)
    {
      if should[i] {
        ghost var before := p[..];
        p[i] := AtLeastOne(p[i]);
        sumJeton := sumJeton + p[i];
        assert p[..] == before[i := p[i]];
        TotalUpdate(before, should, i, i, p[i]);
      }
    }
    first, rounds, last := p[..], 0, 0;
    if sumJeton > QUEUE_SIZE {
      rounds, last := TakeTokens(p, should, sumJeton);
      sumJeton := QUEUE_SIZE;
    }
  }

  method TakeTokens(p: array<int>, should: seq<bool>, sum: int) returns (ghost rounds: nat, ghost last: nat)
    requires p.Length == |should| <= MAX_CLOUDS
    requires sum == Total(p[..], should, |should|) > QUEUE_SIZE
    requires forall i | 0 <= i < |should| && should[i] :: p[i] >= 1
    modifies p
    ensures Reduced(old(p[..]), p[..], should, rounds, last)
    ensures Total(p[..], should, |should|) == QUEUE_SIZE
  {
    var n := p.Length;
    var sumJeton := sum;
    rounds, last := 0, 0;
    while sumJeton > QUEUE_SIZE
      invariant sumJeton == Total(p[..], should, n) >= QUEUE_SIZE
      invariant Reduced(old(p[..]), p[..], should, rounds, last)
      invariant sumJeton > QUEUE_SIZE ==> last == 0
      decreases sumJeton
    {
      ghost var sum0 := sumJeton;
      var i := 0;
      while i < n
        invariant 0 <= i <= n
        invariant QUEUE_SIZE < sumJeton == Total(p[..], should, n) <= sum0
        invariant Reduced(old(p[..]), p[..], should, rounds, i)
        invariant sumJeton == sum0 ==> forall k | 0 <= k < i && should[k] :: p[k] <= 1
      {
        if should[i] && p[i] > 1 {
          ghost var before := p[..];
          p[i] := p[i] - 1;
          sumJeton := sumJeton - 1;
          assert p[..] == before[i := p[i]];
          TotalUpdate(before, should, n, i, p[i]);
          if sumJeton == QUEUE_SIZE {
            break;
          }
        }
        i := i + 1;
      }
      if sumJeton == QUEUE_SIZE {
        last := i + 1;
      } else {
        rounds := rounds + 1;
        if sumJeton == sum0 {
          // Not possible: at most MAX_CLOUDS tokens would be left.
          OnesAreFew(p[..], should, n);
        }
      }
    }
  }
}
