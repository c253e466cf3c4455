/** Rate limiting per client/capability pair, over any sequence of calls by any pairs with any
    rates. */
module RateLimits {
  import opened MeshTypes
  import opened PolicySpec
  import opened TokenBucket

  datatype Call = Call(client: ServiceId, capability: CapabilityId, rps: real, now: real)

  function KeyOf(c: Call): string { Key(c.client, c.capability) }

  function Run(calls: seq<Call>): map<string, Bucket> {
    if calls == [] then map[] else
      var c := calls[|calls| - 1];
      CheckRate(Run(calls[..|calls| - 1]), c.client, c.capability, c.rps, c.now).0
  }

  /** The answer to the last call. */
  predicate LastAllowed(calls: seq<Call>)
    requires calls != []
  {
    var c := calls[|calls| - 1];
    CheckRate(Run(calls[..|calls| - 1]), c.client, c.capability, c.rps, c.now).1
  }

  predicate Uses(c: Call, key: string) {
    KeyOf(c) == key && 0.0 < c.rps <= 1000.0
  }

  /** The calls that use the bucket `key`, in order. */
  function Only(calls: seq<Call>, key: string): seq<Call> {
    if calls == [] then [] else
      Only(calls[..|calls| - 1], key) + (if Uses(calls[|calls| - 1], key) then [calls[|calls| - 1]] else [])
  }

  /** How many metered calls on `key` were let through. */
  function Admitted(calls: seq<Call>, key: string): nat {
    if calls == [] then 0 else
      Admitted(calls[..|calls| - 1], key) +
      (if Uses(calls[|calls| - 1], key) && LastAllowed(calls) then 1 else 0)
  }

  /** max(1, floor(rps)). */
  function EpochBurst(rps: real): (b: nat)
    ensures rps < 1.0 ==> b == 1
    ensures rps >= 1.0 ==> b as real <= rps < (b + 1) as real
  {
    if rps < 1.0 then 1 else rps.Floor
  }

  /** The allowance of the calls on one key: at the start of each epoch of equal rates the
      burst, and within an epoch rps times the time that passes. */
  function Allowance(calls: seq<Call>): real {
    if calls == [] then 0.0 else
      var k := |calls| - 1;
      Allowance(calls[..k]) +
      (if k > 0 && calls[k - 1].rps == calls[k].rps then calls[k].rps * (calls[k].now - calls[k - 1].now)
       else EpochBurst(calls[k].rps) as real)
  }

  predicate Monotone(calls: seq<Call>) {
    forall i, j :: 0 <= i < j < |calls| ==> calls[i].now <= calls[j].now
  }

  lemma {:induction false} OnlyIs(calls: seq<Call>, key: string)
    ensures forall c :: c in Only(calls, key) ==> c in calls && Uses(c, key)
  {
    if calls != [] {
      OnlyIs(calls[..|calls| - 1], key);
    }
  }

  /** `b` is what the calls on one key leave: rate, burst and time are those of the last. */
  predicate BucketOf(b: Bucket, mine: seq<Call>) {
    && mine != [] && b.rps == mine[|mine| - 1].rps && b.last == mine[|mine| - 1].now
    && b.burst == EpochBurst(b.rps)
  }

  /** The bucket under a key depends only on the calls that use it. */
  lemma {:induction false} BucketOfOnly(calls: seq<Call>, key: string)
    ensures key in Run(calls) <==> Only(calls, key) != []
    ensures key in Run(Only(calls, key)) <==> Only(calls, key) != []
    ensures key in Run(calls) ==> Run(calls)[key] == Run(Only(calls, key))[key]
    ensures key in Run(calls) ==> BucketOf(Run(calls)[key], Only(calls, key))
  {
    if calls != [] {
      var k := |calls| - 1;
      BucketOfOnly(calls[..k], key);
      var mine := Only(calls[..k], key);
      if Uses(calls[k], key) {
        assert (mine + [calls[k]])[..|mine|] == mine;
      } else {
        assert mine + [] == mine;
      }
    }
  }

  lemma TakeBounds(b: Bucket, now: real)
    requires b.tokens >= 0.0 && b.burst >= 0 && Gain(b.rps, b.last, now) >= 0.0
    ensures var (b', ok) := Take(b, now);
            && b'.tokens >= 0.0
            && b'.tokens + (if ok then 1.0 else 0.0) <= b.tokens + Gain(b.rps, b.last, now)
            && b'.tokens + (if ok then 1.0 else 0.0) <= b.burst as real
  {
  }

  function TokensAt(buckets: map<string, Bucket>, key: string): real {
    if key in buckets then buckets[key].tokens else 0.0
  }

  /** What a call adds to the allowance of its key. */
  function Share(mine: seq<Call>, c: Call): real {
    if mine != [] && mine[|mine| - 1].rps == c.rps then c.rps * (c.now - mine[|mine| - 1].now)
    else EpochBurst(c.rps) as real
  }

  /** The bucket a call finds holds no more than what is left on the key and the call's share. */
  lemma FoundWithinShare(buckets: map<string, Bucket>, mine: seq<Call>, c: Call)
    requires Uses(c, KeyOf(c)) && TokensAt(buckets, KeyOf(c)) >= 0.0
    requires KeyOf(c) in buckets <==> mine != []
    requires mine != [] ==> BucketOf(buckets[KeyOf(c)], mine) && mine[|mine| - 1].now <= c.now
    ensures var b := BucketFor(buckets, KeyOf(c), c.rps, c.now);
            && b.tokens >= 0.0 && Gain(b.rps, b.last, c.now) >= 0.0
            && b.tokens + Gain(b.rps, b.last, c.now) <= TokensAt(buckets, KeyOf(c)) + Share(mine, c)
  {
    GainAdds(c.rps, c.now, c.now, c.now);
    if mine != [] {
      GainAdds(c.rps, mine[|mine| - 1].now, c.now, c.now);
    }
  }

  lemma CallWithinShare(before: seq<Call>, c: Call)
    requires Uses(c, KeyOf(c)) && TokensAt(Run(before), KeyOf(c)) >= 0.0
    requires forall d :: d in before ==> d.now <= c.now
    ensures var (after, ok) := CheckRate(Run(before), c.client, c.capability, c.rps, c.now);
            && TokensAt(after, KeyOf(c)) >= 0.0
            && TokensAt(after, KeyOf(c)) + (if ok then 1.0 else 0.0)
               <= TokensAt(Run(before), KeyOf(c)) + Share(Only(before, KeyOf(c)), c)
  {
    var key := KeyOf(c);
    var mine := Only(before, key);
    BucketOfOnly(before, key);
    OnlyIs(before, key);
    assert mine != [] ==> mine[|mine| - 1] in mine;
    FoundWithinShare(Run(before), mine, c);
    TakeBounds(BucketFor(Run(before), key, c.rps, c.now), c.now);
  }

  lemma OtherCallKeeps(buckets: map<string, Bucket>, c: Call, key: string)
    requires !Uses(c, key)
    ensures TokensAt(CheckRate(buckets, c.client, c.capability, c.rps, c.now).0, key) == TokensAt(buckets, key)
  {
  }

  lemma AllowanceSnoc(mine: seq<Call>, c: Call)
    ensures Allowance(mine + [c]) == Allowance(mine) + Share(mine, c)
  {
    assert (mine + [c])[..|mine|] == mine;
  }

  /** A metered call with another rate than the last metered call on its key, or the first one,
      is admitted at once, whatever was admitted before. */
  lemma RateChangeAdmits(calls: seq<Call>, c: Call)
    requires Metered(c.rps)
    requires var mine := Only(calls, KeyOf(c)); mine == [] || mine[|mine| - 1].rps != c.rps
    ensures LastAllowed(calls + [c])
  {
    BucketOfOnly(calls, KeyOf(c));
    assert (calls + [c])[..|calls|] == calls;
    GainAdds(c.rps, c.now, c.now, c.now);
    assert BurstFor(c.rps) as real >= 1.0;
  }

  /** Over any run, the calls admitted on a key, plus the tokens left, stay within the
      allowance of that key's own calls: per epoch, max(1, floor(rps)) + rps * duration. */
  lemma {:induction false} AdmittedWithinAllowance(calls: seq<Call>, key: string)
    requires Monotone(calls)
    ensures Admitted(calls, key) as real + TokensAt(Run(calls), key) <= Allowance(Only(calls, key))
    ensures TokensAt(Run(calls), key) >= 0.0
  {
    if calls != [] {
      var k := |calls| - 1;
      var c, before := calls[k], calls[..k];
      AdmittedWithinAllowance(before, key);
      if Uses(c, key) {
        CallWithinShare(before, c);
        AllowanceSnoc(Only(before, key), c);
      } else {
        OtherCallKeeps(Run(before), c, key);
        assert Only(before, key) + [] == Only(before, key);
      }
    }
  }

  // ----- who shares a bucket -----

  /** `from` splits its last ':'-separated part off to the other side: ("a:b", "c") and
      ("a", "b:c"). */
  ghost predicate Shifted(client: ServiceId, c: CapabilityId, client': ServiceId, c': CapabilityId) {
    exists x: string :: client == client' + ":" + x && c' == x + ":" + c
  }

  /** Two pairs use the same bucket iff they are equal or one is the other with a ':' shifted
      across the separator. */
  lemma SharedBucket(client: ServiceId, c: CapabilityId, client': ServiceId, c': CapabilityId)
    ensures Key(client, c) == Key(client', c') <==>
            (client == client' && c == c') || Shifted(client, c, client', c') || Shifted(client', c', client, c)
  {
    if Key(client, c) == Key(client', c') {
      if |client| >= |client'| {
        SharedSplit(client, c, client', c');
      } else {
        SharedSplit(client', c', client, c);
      }
    }
    if Shifted(client, c, client', c') {
      var x: string :| client == client' + ":" + x && c' == x + ":" + c;
      assert Key(client, c) == client' + ":" + x + ":" + c == Key(client', c');
    }
    if Shifted(client', c', client, c) {
      var x: string :| client' == client + ":" + x && c == x + ":" + c';
      assert Key(client', c') == client + ":" + x + ":" + c' == Key(client, c);
    }
  }

  lemma SharedSplit(client: ServiceId, c: CapabilityId, client': ServiceId, c': CapabilityId)
    requires Key(client, c) == Key(client', c') && |client| >= |client'|
    ensures (client == client' && c == c') || Shifted(client, c, client', c')
  {
    var key, m, n := Key(client, c), |client'|, |client|;
    assert key[..n] == client && key[n] == ':' && key[n + 1..] == c;
    assert key == Key(client', c') && key[..m] == client' && key[m] == ':' && key[m + 1..] == c';
    if m < n {
      var x := key[m + 1..n];
      assert client == client' + ":" + x;
      assert c' == x + ":" + c;
    }
  }

  lemma NoColonNoLonger(client: ServiceId, c: CapabilityId, client': ServiceId, c': CapabilityId)
    requires ':' !in client && Key(client, c) == Key(client', c')
    ensures |client| <= |client'|
  {
    assert Key(client', c')[|client'|] == ':';
    assert forall i :: 0 <= i < |client| ==> Key(client, c)[i] == client[i];
  }

  /** Client IDs without ':' never share a bucket, ... */
  lemma NoColonNoSharing(client: ServiceId, c: CapabilityId, client': ServiceId, c': CapabilityId)
    requires ':' !in client && ':' !in client'
    requires Key(client, c) == Key(client', c')
    ensures client == client' && c == c'
  {
    NoColonNoLonger(client, c, client', c');
    NoColonNoLonger(client', c', client, c);
    var key := Key(client, c);
    assert key[..|client|] == client && key[|client| + 1..] == c;
    assert key == Key(client', c') && key[..|client'|] == client' && key[|client'| + 1..] == c';
  }

  /** ... while these two do. */
  lemma ColonSharing()
    ensures Key("a:b", "c") == Key("a", "b:c")
  {
    assert "a:b" == "a" + ":" + "b";
    assert "b:c" == "b" + ":" + "c";
  }

  function OfPair(calls: seq<Call>, client: ServiceId, c: CapabilityId): seq<Call> {
    if calls == [] then [] else
      var last := calls[|calls| - 1];
      OfPair(calls[..|calls| - 1], client, c) +
      (if last.client == client && last.capability == c && Metered(last.rps) then [last] else [])
  }

  lemma {:induction false} OnlyOfPair(calls: seq<Call>, client: ServiceId, c: CapabilityId)
    requires ':' !in client && forall d :: d in calls ==> ':' !in d.client
    ensures Only(calls, Key(client, c)) == OfPair(calls, client, c)
  {
    if calls != [] {
      var k := |calls| - 1;
      assert calls[k] in calls;
      OnlyOfPair(calls[..k], client, c);
      if KeyOf(calls[k]) == Key(client, c) {
        NoColonNoSharing(calls[k].client, calls[k].capability, client, c);
      }
    }
  }

  lemma SameBucketSameAnswer(calls: seq<Call>, others: seq<Call>, last: Call)
    requires KeyOf(last) in Run(calls) <==> KeyOf(last) in Run(others)
    requires KeyOf(last) in Run(calls) ==> Run(calls)[KeyOf(last)] == Run(others)[KeyOf(last)]
    ensures LastAllowed(calls + [last]) == LastAllowed(others + [last])
  {
    assert (calls + [last])[..|calls|] == calls && (others + [last])[..|others|] == others;
  }

  /** Isolation: with client IDs free of ':', the answer to a call is the one it would get if
      no other pair had ever called. */
  lemma Isolated(calls: seq<Call>, last: Call)
    requires ':' !in last.client && forall d :: d in calls ==> ':' !in d.client
    ensures LastAllowed(calls + [last]) == LastAllowed(OfPair(calls, last.client, last.capability) + [last])
  {
    OnlyOfPair(calls, last.client, last.capability);
    BucketOfOnly(calls, KeyOf(last));
    SameBucketSameAnswer(calls, OfPair(calls, last.client, last.capability), last);
  }

  // ----- many calls at once -----

  function Repeated(c: Call, n: nat): (calls: seq<Call>)
    ensures |calls| == n && forall i :: 0 <= i < n ==> calls[i] == c
  {
    seq(n, i => c)
  }

  lemma RepeatedSnoc(c: Call, n: nat)
    ensures Repeated(c, n + 1) == Repeated(c, n) + [c] && Repeated(c, n + 1)[..n] == Repeated(c, n)
  {
  }

  lemma RunSnoc(calls: seq<Call>, c: Call)
    ensures Run(calls + [c]) == CheckRate(Run(calls), c.client, c.capability, c.rps, c.now).0
    ensures LastAllowed(calls + [c]) == CheckRate(Run(calls), c.client, c.capability, c.rps, c.now).1
  {
    assert (calls + [c])[..|calls|] == calls;
  }

  lemma OnlySnoc(calls: seq<Call>, c: Call, key: string)
    requires Uses(c, key)
    ensures Only(calls + [c], key) == Only(calls, key) + [c]
  {
    assert (calls + [c])[..|calls|] == calls;
  }

  lemma {:induction false} RepeatedOnly(before: seq<Call>, c: Call, n: nat)
    requires Uses(c, KeyOf(c)) && Only(before, KeyOf(c)) == []
    ensures Only(before + Repeated(c, n), KeyOf(c)) == Repeated(c, n)
  {
    if n == 0 {
      assert before + Repeated(c, 0) == before;
    } else {
      RepeatedOnly(before, c, n - 1);
      RepeatedSnoc(c, n - 1);
      OnlySnoc(before + Repeated(c, n - 1), c, KeyOf(c));
      assert before + Repeated(c, n) == before + Repeated(c, n - 1) + [c];
    }
  }

  /** What n calls at once leave in a bucket that was full. */
  function Left(rps: real, n: nat): nat {
    if EpochBurst(rps) > n then EpochBurst(rps) - n else 0
  }

  ghost predicate Drained(b: Bucket, c: Call, n: nat) {
    b.rps == c.rps && b.last == c.now && b.burst == EpochBurst(c.rps) && b.tokens == Left(c.rps, n) as real
  }

  lemma DrainedOnce(b: Bucket, c: Call, n: nat)
    requires Drained(b, c, n)
    ensures Drained(Take(b, c.now).0, c, n + 1)
    ensures Take(b, c.now).1 <==> n < EpochBurst(c.rps)
  {
    GainAdds(c.rps, c.now, c.now, c.now);
  }

  lemma FreshDrained(c: Call)
    ensures Drained(Fresh(c.rps, BurstFor(c.rps), c.now), c, 0)
  {
  }

  lemma {:induction false} RepeatedDrained(c: Call, n: nat)
    requires Uses(c, KeyOf(c))
    ensures Drained(BucketFor(Run(Repeated(c, n)), KeyOf(c), c.rps, c.now), c, n)
  {
    if n == 0 {
      assert Run(Repeated(c, 0)) == map[];
      FreshDrained(c);
    } else {
      RepeatedSnoc(c, n - 1);
      RunSnoc(Repeated(c, n - 1), c);
      RepeatedDrained(c, n - 1);
      DrainedOnce(BucketFor(Run(Repeated(c, n - 1)), KeyOf(c), c.rps, c.now), c, n - 1);
    }
  }

  lemma RepeatedAnswer(c: Call, n: nat)
    requires Uses(c, KeyOf(c))
    ensures LastAllowed(Repeated(c, n) + [c]) <==> n < EpochBurst(c.rps)
  {
    RunSnoc(Repeated(c, n), c);
    RepeatedDrained(c, n);
    DrainedOnce(BucketFor(Run(Repeated(c, n)), KeyOf(c), c.rps, c.now), c, n);
  }

  /** Only the calls on its own key matter for an answer. */
  lemma OnlyMatters(calls: seq<Call>, c: Call)
    ensures LastAllowed(calls + [c]) == LastAllowed(Only(calls, KeyOf(c)) + [c])
  {
    BucketOfOnly(calls, KeyOf(c));
    SameBucketSameAnswer(calls, Only(calls, KeyOf(c)), c);
  }

  /** Of calls at one time on a key not used before, exactly the first max(1, floor(rps)) are
      admitted. */
  lemma BurstAtOnce(before: seq<Call>, c: Call, n: nat)
    requires 0.0 < c.rps <= 1000.0 && Only(before, KeyOf(c)) == []
    ensures LastAllowed(before + Repeated(c, n) + [c]) <==> n == 0 || (n + 1) as real <= c.rps
  {
    RepeatedOnly(before, c, n);
    OnlyMatters(before + Repeated(c, n), c);
    RepeatedAnswer(c, n);
    WholeBelow(c.rps, n);
  }

  lemma WholeBelow(rps: real, n: nat)
    ensures n < EpochBurst(rps) <==> n == 0 || (n + 1) as real <= rps
  {
  }

  /** A rate of zero or less is no limit, and one above 1000 is always refused; neither uses a
      bucket. */
  lemma OutOfRange(calls: seq<Call>, c: Call)
    requires c.rps <= 0.0 || c.rps > 1000.0
    ensures LastAllowed(calls + [c]) <==> c.rps <= 0.0
    ensures Run(calls + [c]) == Run(calls)
  {
    assert (calls + [c])[..|calls|] == calls;
  }
}
