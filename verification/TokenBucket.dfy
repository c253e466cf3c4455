/** The token bucket that the policy evaluator and the grants both use, and what any sequence
    of calls to it accepts. Times are seconds on a clock that never goes back; rounding of
    floating point is not modelled. */
module TokenBucket {
  datatype Bucket = Bucket(rps: real, burst: int, tokens: real, last: real)

  function MinReal(a: real, b: real): real { if a < b then a else b }

  function Fresh(rps: real, burst: int, now: real): Bucket {
    Bucket(rps, burst, burst as real, now)
  }

  /** What `rps` adds between two times. */
  function Gain(rps: real, from: real, to: real): real { rps * (to - from) }

  function Refill(b: Bucket, now: real): Bucket {
    b.(tokens := MinReal(b.tokens + Gain(b.rps, b.last, now), b.burst as real), last := now)
  }

  /** Refill, then take one token if there is one. */
  function Take(b: Bucket, now: real): (Bucket, bool) {
    var r := Refill(b, now);
    if r.tokens >= 1.0 then (r.(tokens := r.tokens - 1.0), true) else (r, false)
  }

  class RateLimiter {
    const rps: real
    const burst: int
    var tokens: real
    var last: real

    function Value(): Bucket
      reads this
    {
      Bucket(rps, burst, tokens, last)
    }

    constructor (rps: real, burst: int, now: real)
      ensures Value() == Fresh(rps, burst, now)
    {
      this.rps, this.burst, tokens, last := rps, burst, burst as real, now;
    }

    method Allow(now: real) returns (ok: bool)
      modifies this
      ensures (Value(), ok) == Take(old(Value()), now)
    {
      var elapsed := now - last;
      assert elapsed * rps == Gain(rps, last, now);
      tokens := MinReal(tokens + elapsed * rps, burst as real);
      last := now;
      if tokens >= 1.0 {
        tokens := tokens - 1.0;
        return true;
      }
      return false;
    }
  }

  // ----- runs -----

  /** The bucket after calls at the given times. */
  function After(b: Bucket, times: seq<real>): Bucket {
    if times == [] then b else Take(After(b, times[..|times| - 1]), times[|times| - 1]).0
  }

  /** Whether call `k` is accepted. */
  predicate Accepted(b: Bucket, times: seq<real>, k: nat)
    requires k < |times|
  {
    Take(After(b, times[..k]), times[k]).1
  }

  /** How many of the calls i, ..., j-1 are accepted. */
  function Accepts(b: Bucket, times: seq<real>, i: nat, j: nat): nat
    requires i <= j <= |times|
    decreases j - i
  {
    if i == j then 0 else Accepts(b, times, i, j - 1) + (if Accepted(b, times, j - 1) then 1 else 0)
  }

  predicate Clock(start: real, times: seq<real>) {
    && (times != [] ==> start <= times[0])
    && forall i, j :: 0 <= i < j < |times| ==> times[i] <= times[j]
  }

  lemma GainAdds(rps: real, a: real, b: real, c: real)
    ensures Gain(rps, a, b) + Gain(rps, b, c) == Gain(rps, a, c)
    ensures Gain(rps, a, a) == 0.0
    ensures rps >= 0.0 && a <= b ==> Gain(rps, a, b) >= 0.0
  {
  }

  /** Refilling in two steps is refilling once. */
  lemma RefillTwice(b: Bucket, t: real, now: real)
    requires b.rps >= 0.0 && t <= now
    ensures Refill(Refill(b, t), now) == Refill(b, now)
  {
    GainAdds(b.rps, b.last, t, now);
    GainAdds(b.rps, t, now, now);
  }

  /** A limiter made shortly before its first call answers as one made at that time. */
  lemma FreshThenTake(rps: real, burst: int, made: real, now: real)
    requires rps >= 0.0 && made <= now
    ensures Take(Fresh(rps, burst, made), now) == Take(Fresh(rps, burst, now), now)
  {
    GainAdds(rps, made, now, now);
    GainAdds(rps, now, now, now);
  }

  /** The tokens call `k` finds. */
  function Level(b: Bucket, times: seq<real>, k: nat): real
    requires k < |times|
  {
    Refill(After(b, times[..k]), times[k]).tokens
  }

  /** The bound that the calls since call `j` put on the level at call `k`. */
  function Budget(b: Bucket, times: seq<real>, j: nat, k: nat): real
    requires j <= k < |times|
  {
    b.burst as real + Gain(b.rps, times[j], times[k]) - Accepts(b, times, j, k) as real
  }

  lemma AfterKeeps(b: Bucket, times: seq<real>)
    ensures After(b, times).rps == b.rps && After(b, times).burst == b.burst
    ensures times != [] ==> After(b, times).last == times[|times| - 1]
  {
  }

  lemma LevelStep(b: Bucket, times: seq<real>, k: nat)
    requires 0 < k < |times|
    ensures Level(b, times, k) ==
            var left := Level(b, times, k - 1) - (if Accepted(b, times, k - 1) then 1.0 else 0.0);
            MinReal(left + Gain(b.rps, times[k - 1], times[k]), b.burst as real)
  {
    var before := times[..k];
    assert before[..k - 1] == times[..k - 1] && before[k - 1] == times[k - 1];
    AfterKeeps(b, before);
    AfterKeeps(b, before[..k - 1]);
  }

  /** Min-plus form: the level is the least of the budgets since each earlier call. */
  lemma {:induction false} LevelIsLeastBudget(rps: real, burst: int, start: real, times: seq<real>, k: nat)
    returns (j: nat)
    requires rps >= 0.0 && Clock(start, times) && k < |times|
    ensures var b := Fresh(rps, burst, start);
            && (forall i :: 0 <= i <= k ==> Level(b, times, k) <= Budget(b, times, i, k))
            && j <= k && Level(b, times, k) == Budget(b, times, j, k)
  {
    var b := Fresh(rps, burst, start);
    GainAdds(rps, times[k], times[k], times[k]);
    if k == 0 {
      GainAdds(rps, start, times[0], times[0]);
      assert times[..0] == [];
      j := 0;
    } else {
      var p := LevelIsLeastBudget(rps, burst, start, times, k - 1);
      LevelStep(b, times, k);
      forall i | 0 <= i < k
        ensures Budget(b, times, i, k) == Budget(b, times, i, k - 1)
                - (if Accepted(b, times, k - 1) then 1.0 else 0.0) + Gain(rps, times[k - 1], times[k])
      {
        GainAdds(rps, times[i], times[k - 1], times[k]);
      }
      j := if Level(b, times, k) == burst as real then k else p;
    }
  }

  /** One more accept at call `k` fits into what the calls since `j` leave. */
  predicate Fits(b: Bucket, times: seq<real>, j: nat, k: nat)
    requires j <= k < |times|
  {
    Accepts(b, times, j, k) as real + 1.0 <= b.burst as real + b.rps * (times[k] - times[j])
  }

  lemma FitsBudget(b: Bucket, times: seq<real>, j: nat, k: nat)
    requires j <= k < |times|
    ensures Fits(b, times, j, k) <==> Budget(b, times, j, k) >= 1.0
  {
  }

  /** Exactness: a call is accepted iff it and the accepted calls since any earlier call fit
      into burst + rps * elapsed time. */
  lemma Exact(rps: real, burst: int, start: real, times: seq<real>, k: nat)
    requires rps >= 0.0 && Clock(start, times) && k < |times|
    ensures Accepted(Fresh(rps, burst, start), times, k) <==>
            forall j :: 0 <= j <= k ==> Fits(Fresh(rps, burst, start), times, j, k)
  {
    var b := Fresh(rps, burst, start);
    var least := LevelIsLeastBudget(rps, burst, start, times, k);
    AcceptedByLevel(b, times, k);
    forall j | 0 <= j <= k
      ensures Fits(b, times, j, k) <==> Budget(b, times, j, k) >= 1.0
    {
      FitsBudget(b, times, j, k);
    }
  }

  lemma AcceptedByLevel(b: Bucket, times: seq<real>, k: nat)
    requires k < |times|
    ensures Accepted(b, times, k) <==> Level(b, times, k) >= 1.0
  {
  }

  /** No window of calls admits more than burst + rps * its length. */
  lemma WindowBound(rps: real, burst: nat, start: real, times: seq<real>, i: nat, k: nat)
    requires rps >= 0.0 && Clock(start, times) && i <= k < |times|
    ensures Accepts(Fresh(rps, burst, start), times, i, k + 1) as real
            <= burst as real + rps * (times[k] - times[i])
  {
    WindowGain(rps, burst, start, times, i, k);
  }

  lemma {:induction false} WindowGain(rps: real, burst: nat, start: real, times: seq<real>, i: nat, k: nat)
    requires rps >= 0.0 && Clock(start, times) && i <= k < |times|
    ensures Accepts(Fresh(rps, burst, start), times, i, k + 1) as real <= burst as real + Gain(rps, times[i], times[k])
  {
    var b := Fresh(rps, burst, start);
    if Accepted(b, times, k) {
      Exact(rps, burst, start, times, k);
      assert Fits(b, times, i, k);
      FitsBudget(b, times, i, k);
    } else if i < k {
      WindowGain(rps, burst, start, times, i, k - 1);
      GainAdds(rps, times[i], times[k - 1], times[k]);
      GainAdds(rps, times[k - 1], times[k], times[k]);
    } else {
      GainAdds(rps, times[k], times[k], times[k]);
    }
  }

  /** Tokens stay between 0 and burst. */
  lemma {:induction false} TokensInRange(rps: real, burst: nat, start: real, times: seq<real>)
    requires rps >= 0.0 && Clock(start, times)
    ensures 0.0 <= After(Fresh(rps, burst, start), times).tokens <= burst as real
  {
    if times != [] {
      var k := |times| - 1;
      TokensInRange(rps, burst, start, times[..k]);
      AfterKeeps(Fresh(rps, burst, start), times[..k]);
      var last := After(Fresh(rps, burst, start), times[..k]).last;
      assert last <= times[k] by {
        if k > 0 {
          assert times[..k][k - 1] <= times[k];
        }
      }
      GainAdds(rps, last, times[k], times[k]);
    }
  }

  /** A client that waits 1/rps between calls is never refused. */
  lemma SpacedNeverRefused(rps: real, burst: nat, start: real, times: seq<real>, k: nat)
    requires rps > 0.0 && burst >= 1 && Clock(start, times) && k < |times|
    requires forall i :: 0 < i < |times| ==> times[i] - times[i - 1] >= 1.0 / rps
    ensures Accepted(Fresh(rps, burst, start), times, k)
  {
    var b := Fresh(rps, burst, start);
    assert Clock(start, times[..k]);
    TokensInRange(rps, burst, start, times[..k]);
    AfterKeeps(b, times[..k]);
    if k == 0 {
      GainAdds(rps, start, times[0], times[0]);
    } else {
      assert times[..k][k - 1] == times[k - 1];
      GainOfWait(rps, times[k - 1], times[k]);
    }
  }

  lemma GainOfWait(rps: real, from: real, to: real)
    requires rps > 0.0 && to - from >= 1.0 / rps
    ensures Gain(rps, from, to) >= 1.0
  {
    var wait := to - from;
    assert rps * (1.0 / rps) == 1.0;
    assert rps * (wait - 1.0 / rps) >= 0.0;
    assert rps * wait == rps * (wait - 1.0 / rps) + rps * (1.0 / rps);
  }
}
