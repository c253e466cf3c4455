/** How a binding request is resolved, as a function of the registry, the evaluator and the
    sorted candidates, and what that means for the provider chosen. */
module BindingSpec {
  import opened Basics
  import opened Discovery
  import opened MeshTypes
  import opened PolicySpec
  import RegistryState
  import TokenBucket

  /** What the request meets besides the stored state: cancellation before each step, the rule
      order and the time of each candidate's evaluation, the generated ID, the times at which
      the grant is issued, a denial is stamped and the audit event is recorded, and the event's
      encoded size. */
  datatype Env = Env(cancelled: nat -> bool, orders: nat -> seq<string>, checks: nat -> real, newId: string,
                     issuedAt: real, emittedAt: real, recordedAt: real, size: Option<nat>)

  ghost predicate OrdersFit(rules: map<string, PolicyRule>, orders: nat -> seq<string>) {
    forall i: nat :: ScanOrder(rules, orders(i))
  }

  /** The clock does not go back between evaluations. */
  ghost predicate Forward(checks: nat -> real) {
    forall i: nat, j: nat :: i <= j ==> checks(i) <= checks(j)
  }

  function Preference(req: BindingRequest): Locality {
    if req.locality.NoLocality? then LanPreferred else req.locality
  }

  predicate RateLimited(req: BindingRequest) {
    req.rateLimit.Some? && req.rateLimit.value.rps > 0.0
  }

  /** The buckets after one rate check of the request, and its answer. */
  function RateCheck(e: PolicySpec.View, req: BindingRequest, now: real): (map<string, TokenBucket.Bucket>, bool) {
    if RateLimited(req) then CheckRate(e.buckets, req.client, req.capability, req.rateLimit.value.rps, now)
    else (e.buckets, true)
  }

  predicate Within(e: PolicySpec.View, req: BindingRequest, now: real) {
    RateCheck(e, req, now).1
  }

  predicate Passes(e: PolicySpec.View, req: BindingRequest, p: Provider, order: seq<string>)
    requires forall k :: k in order ==> k in e.policy.rules
  {
    Judge(e, req.client, req.capability, p, order).Pass?
  }

  // ----- the walk over the candidates -----

  /** The first position that holds. */
  function First(flags: seq<bool>): (f: Option<nat>)
    ensures f.Some? ==> f.value < |flags| && flags[f.value]
    ensures forall k :: 0 <= k < (if f.Some? then f.value else |flags|) ==> !flags[k]
  {
    if flags == [] then None
    else
      var k := |flags| - 1;
      var f := First(flags[..k]);
      if f.Some? then f else if flags[k] then Some(k) else None
  }

  /** The last position that holds. */
  function Last(flags: seq<bool>): (l: Option<nat>)
    ensures l.Some? ==> l.value < |flags| && flags[l.value]
    ensures forall k :: (if l.Some? then l.value + 1 else 0) <= k < |flags| ==> !flags[k]
  {
    if flags == [] then None
    else
      var k := |flags| - 1;
      if flags[k] then Some(k) else Last(flags[..k])
  }

  /** Which candidates policy passes, rate limits aside. */
  ghost function PassFlags(e: PolicySpec.View, req: BindingRequest, sorted: seq<Provider>,
                           orders: nat -> seq<string>): (flags: seq<bool>)
    requires OrdersFit(e.policy.rules, orders)
    ensures |flags| == |sorted|
    ensures forall i :: 0 <= i < |sorted| ==> flags[i] == Passes(e, req, sorted[i], orders(i))
  {
    seq(|sorted|, i requires 0 <= i < |sorted| => Passes(e, req, sorted[i], orders(i)))
  }

  /** Which candidates policy passes at a time when the client is within its rate, each asked
      as if no other candidate were. */
  ghost function AllowFlags(e: PolicySpec.View, req: BindingRequest, sorted: seq<Provider>,
                            orders: nat -> seq<string>, checks: nat -> real): (flags: seq<bool>)
    requires OrdersFit(e.policy.rules, orders)
    ensures |flags| == |sorted|
    ensures forall i :: 0 <= i < |sorted| ==>
              flags[i] == (Passes(e, req, sorted[i], orders(i)) && Within(e, req, checks(i)))
  {
    seq(|sorted|, i requires 0 <= i < |sorted| => Passes(e, req, sorted[i], orders(i)) && Within(e, req, checks(i)))
  }

  ghost function FirstPass(e: PolicySpec.View, req: BindingRequest, sorted: seq<Provider>,
                           orders: nat -> seq<string>): Option<nat>
    requires OrdersFit(e.policy.rules, orders)
  {
    First(PassFlags(e, req, sorted, orders))
  }

  ghost function FirstAllow(e: PolicySpec.View, req: BindingRequest, sorted: seq<Provider>,
                            orders: nat -> seq<string>, checks: nat -> real): Option<nat>
    requires OrdersFit(e.policy.rules, orders)
  {
    First(AllowFlags(e, req, sorted, orders, checks))
  }

  /** How many candidates are evaluated. */
  ghost function Looked(e: PolicySpec.View, req: BindingRequest, sorted: seq<Provider>, orders: nat -> seq<string>,
                        checks: nat -> real): (n: nat)
    requires OrdersFit(e.policy.rules, orders)
    ensures n <= |sorted|
  {
    var chosen := FirstAllow(e, req, sorted, orders, checks);
    if chosen.Some? then chosen.value + 1 else |sorted|
  }

  /** The request is found cancelled before the evaluation of candidate `i`. */
  predicate StopsBefore(env: Env, i: nat) {
    env.cancelled(i + 1)
  }

  /** Before which of the first `n` evaluations the request is found cancelled. */
  function StopFlags(env: Env, n: nat): (flags: seq<bool>)
    ensures |flags| == n && forall i :: 0 <= i < n ==> flags[i] == StopsBefore(env, i)
  {
    seq(n, i requires 0 <= i < n => StopsBefore(env, i))
  }

  /** The candidate before whose evaluation the request is found cancelled, if any. */
  ghost function Stop(e: PolicySpec.View, req: BindingRequest, sorted: seq<Provider>, env: Env): (stop: Option<nat>)
    requires OrdersFit(e.policy.rules, env.orders)
    ensures stop.Some? ==> stop.value < Looked(e, req, sorted, env.orders, env.checks)
  {
    First(StopFlags(env, Looked(e, req, sorted, env.orders, env.checks)))
  }

  /** How many candidates are evaluated before an answer or the cancellation. */
  ghost function Reached(e: PolicySpec.View, req: BindingRequest, sorted: seq<Provider>, env: Env): (n: nat)
    requires OrdersFit(e.policy.rules, env.orders)
    ensures n <= |sorted|
  {
    var stop := Stop(e, req, sorted, env);
    if stop.Some? then stop.value else Looked(e, req, sorted, env.orders, env.checks)
  }

  /** No cancellation was found before the first `n` evaluations. */
  predicate NotStopped(env: Env, n: nat) {
    forall k :: 0 <= k < n ==> !StopsBefore(env, k)
  }

  /** None of the first `n` candidates is allowed. */
  ghost predicate NoneAllowed(e: PolicySpec.View, req: BindingRequest, sorted: seq<Provider>, env: Env, n: nat)
    requires OrdersFit(e.policy.rules, env.orders) && n <= |sorted|
  {
    forall k :: 0 <= k < n ==> !AllowFlags(e, req, sorted, env.orders, env.checks)[k]
  }

  /** The three ways the walk ends. */
  lemma StopsAt(e: PolicySpec.View, req: BindingRequest, sorted: seq<Provider>, env: Env, i: nat)
    requires OrdersFit(e.policy.rules, env.orders) && i < |sorted| && NotStopped(env, i) && StopsBefore(env, i)
    requires NoneAllowed(e, req, sorted, env, i)
    ensures Stop(e, req, sorted, env) == Some(i) && Reached(e, req, sorted, env) == i
  {
    assert StopFlags(env, Looked(e, req, sorted, env.orders, env.checks))[i];
  }

  lemma EndsAt(e: PolicySpec.View, req: BindingRequest, sorted: seq<Provider>, env: Env, i: nat)
    requires OrdersFit(e.policy.rules, env.orders) && i < |sorted| && NotStopped(env, i + 1)
    requires NoneAllowed(e, req, sorted, env, i)
    requires AllowFlags(e, req, sorted, env.orders, env.checks)[i]
    ensures FirstAllow(e, req, sorted, env.orders, env.checks) == Some(i)
    ensures Stop(e, req, sorted, env).None? && Reached(e, req, sorted, env) == i + 1
  {
  }

  lemma EndsWithout(e: PolicySpec.View, req: BindingRequest, sorted: seq<Provider>, env: Env)
    requires OrdersFit(e.policy.rules, env.orders) && NotStopped(env, |sorted|)
    requires NoneAllowed(e, req, sorted, env, |sorted|)
    ensures FirstAllow(e, req, sorted, env.orders, env.checks).None?
    ensures Stop(e, req, sorted, env).None? && Reached(e, req, sorted, env) == |sorted|
  {
  }

  /** The buckets once the first `n` candidates were evaluated and none before the last of them
      was allowed: as if only the last rate check had been made. */
  ghost function BucketsAfter(e: PolicySpec.View, req: BindingRequest, sorted: seq<Provider>,
                              orders: nat -> seq<string>, checks: nat -> real, n: nat): map<string, TokenBucket.Bucket>
    requires OrdersFit(e.policy.rules, orders) && n <= |sorted|
  {
    match Last(PassFlags(e, req, sorted, orders)[..n])
    case None => e.buckets
    case Some(l) => RateCheck(e, req, checks(l)).0
  }

  datatype Resolution = Granted(provider: Provider) | Denied(reason: Reason)

  /** The decision on a validated request, given the candidates sorted by locality. */
  ghost function Resolve(r: RegistryState.View, e: PolicySpec.View, req: BindingRequest, sorted: seq<Provider>,
                         orders: nat -> seq<string>, checks: nat -> real): Resolution
    requires OrdersFit(e.policy.rules, orders)
  {
    if req.capability !in r.cache then Denied(CapabilityUnknown)
    else if req.client !in r.services || sorted == [] then Denied(NoProviderAvailable)
    else
      match FirstAllow(e, req, sorted, orders, checks)
      case None => Denied(Reason.PolicyDenied)
      case Some(i) => if sorted[i].serviceId == "" then Denied(InternalError) else Granted(sorted[i])
  }

  // ----- rate checks within one request -----

  /** The tokens a rate check of the request finds. */
  function LevelAt(e: PolicySpec.View, req: BindingRequest, now: real): real
    requires RateLimited(req)
  {
    var rps := req.rateLimit.value.rps;
    TokenBucket.Refill(BucketFor(e.buckets, Key(req.client, req.capability), rps, now), now).tokens
  }

  /** A check after a refused one: it answers, and leaves the buckets, as if it were the only one. */
  lemma RefusedThenChecked(e: PolicySpec.View, req: BindingRequest, t: real, now: real)
    requires !Within(e, req, t) && t <= now
    ensures RateCheck(e.(buckets := RateCheck(e, req, t).0), req, now) == RateCheck(e, req, now)
  {
    var rps, key := req.rateLimit.value.rps, Key(req.client, req.capability);
    if rps <= MAX_RPS_PER_CLIENT {
      var b := BucketFor(e.buckets, key, rps, t);
      assert Within(e, req, t) <==> TokenBucket.Refill(b, t).tokens >= 1.0;
      if key !in e.buckets || e.buckets[key].rps != rps {
        TokenBucket.GainAdds(rps, t, t, t);
      } else {
        TokenBucket.RefillTwice(b, t, now);
        assert e.buckets[key := TokenBucket.Refill(b, t)][key := TokenBucket.Take(b, now).0]
            == e.buckets[key := TokenBucket.Take(b, now).0];
      }
    }
  }

  /** Evaluating one candidate, with the buckets untouched or after a refused rate check of the
      same request, allows iff policy passes it and the client is within its rate. */
  lemma EvaluateOutcome(e: PolicySpec.View, e': PolicySpec.View, req: BindingRequest, p: Provider, order: seq<string>,
                        t: real, now: real)
    requires forall k :: k in order ==> k in e.policy.rules
    requires e' == e || (e' == e.(buckets := RateCheck(e, req, t).0) && !Within(e, req, t) && t <= now)
    ensures var (buckets, answer) := Evaluate(e', req, Some(p), order, now);
            && (!answer.error && answer.decision.Allow? <==> Passes(e, req, p, order) && Within(e, req, now))
            && buckets == if Passes(e, req, p, order) then RateCheck(e, req, now).0 else e'.buckets
  {
    assert Judge(e', req.client, req.capability, p, order) == Judge(e, req.client, req.capability, p, order);
    if e' != e {
      RefusedThenChecked(e, req, t, now);
    }
  }

  /** Evaluating one more candidate after `i` that were not allowed. */
  lemma WalkStep(e: PolicySpec.View, e': PolicySpec.View, req: BindingRequest, sorted: seq<Provider>,
                 orders: nat -> seq<string>, checks: nat -> real, i: nat)
    requires OrdersFit(e.policy.rules, orders) && Forward(checks) && i < |sorted|
    requires forall k :: 0 <= k < i ==> !AllowFlags(e, req, sorted, orders, checks)[k]
    requires e' == e.(buckets := BucketsAfter(e, req, sorted, orders, checks, i))
    ensures var (buckets, answer) := Evaluate(e', req, Some(sorted[i]), orders(i), checks(i));
            && (!answer.error && answer.decision.Allow? <==> AllowFlags(e, req, sorted, orders, checks)[i])
            && buckets == BucketsAfter(e, req, sorted, orders, checks, i + 1)
  {
    var flags := PassFlags(e, req, sorted, orders);
    assert flags[..i + 1][..i] == flags[..i];
    var l := Last(flags[..i]);
    if l.Some? {
      assert flags[l.value] && !AllowFlags(e, req, sorted, orders, checks)[l.value];
      EvaluateOutcome(e, e', req, sorted[i], orders(i), checks(l.value), checks(i));
    } else {
      EvaluateOutcome(e, e, req, sorted[i], orders(i), checks(i), checks(i));
    }
  }

  /** Between two times without a check of the key in between, the second check succeeds iff
      what the first finds and what is refilled since reach one token. */
  lemma RefillDecides(e: PolicySpec.View, req: BindingRequest, t: real, now: real)
    requires RateLimited(req) && req.rateLimit.value.rps <= MAX_RPS_PER_CLIENT && BurstsFit(e.buckets) && t <= now
    ensures Within(e, req, now) <==>
            LevelAt(e, req, t) + TokenBucket.Gain(req.rateLimit.value.rps, t, now) >= 1.0
  {
    var rps, key := req.rateLimit.value.rps, Key(req.client, req.capability);
    TokenBucket.GainAdds(rps, t, now, now);
    TokenBucket.GainAdds(rps, t, t, t);
    if key in e.buckets && e.buckets[key].rps == rps {
      TokenBucket.GainAdds(rps, e.buckets[key].last, t, now);
    }
  }

  /** Once within its rate, the client stays so until it is checked. */
  lemma WithinStays(e: PolicySpec.View, req: BindingRequest, t: real, now: real)
    requires Within(e, req, t) && t <= now
    ensures Within(e, req, now)
  {
    if RateLimited(req) {
      var rps, key := req.rateLimit.value.rps, Key(req.client, req.capability);
      TokenBucket.GainAdds(rps, t, now, now);
      TokenBucket.GainAdds(rps, now, now, now);
      if key in e.buckets && e.buckets[key].rps == rps {
        TokenBucket.GainAdds(rps, e.buckets[key].last, t, now);
      }
    }
  }

  /** A candidate other than the first that policy passes is chosen exactly when the first one's
      rate check finds less than a token and the refill up to a later one's check makes up for
      it; the one chosen is then the first for which it does. */
  lemma LaterChosen(e: PolicySpec.View, req: BindingRequest, sorted: seq<Provider>,
                    orders: nat -> seq<string>, checks: nat -> real, f: nat)
    requires OrdersFit(e.policy.rules, orders) && Forward(checks) && BurstsFit(e.buckets)
    requires RateLimited(req) && req.rateLimit.value.rps <= MAX_RPS_PER_CLIENT
    requires FirstPass(e, req, sorted, orders) == Some(f)
    ensures var level, chosen := LevelAt(e, req, checks(f)), FirstAllow(e, req, sorted, orders, checks);
            && (chosen == Some(f) <==> level >= 1.0)
            && (chosen.Some? && chosen.value != f <==>
                  level < 1.0 && exists k :: f < k < |sorted| && Refilled(e, req, sorted, orders, checks, f, k))
            && (chosen.Some? && chosen.value != f ==>
                  && f < chosen.value && Refilled(e, req, sorted, orders, checks, f, chosen.value)
                  && forall k :: f < k < chosen.value ==> !Refilled(e, req, sorted, orders, checks, f, k))
  {
    var flags := AllowFlags(e, req, sorted, orders, checks);
    forall k | f <= k < |sorted|
      ensures flags[k] == Refilled(e, req, sorted, orders, checks, f, k)
    {
      RefillDecides(e, req, checks(f), checks(k));
    }
    TokenBucket.GainAdds(req.rateLimit.value.rps, checks(f), checks(f), checks(f));
  }

  /** Policy passes candidate `k`, and the tokens found at the check of `f` and refilled since
      make one. */
  predicate Refilled(e: PolicySpec.View, req: BindingRequest, sorted: seq<Provider>,
                     orders: nat -> seq<string>, checks: nat -> real, f: nat, k: nat)
    requires RateLimited(req) && k < |sorted| && forall i :: i in orders(k) ==> i in e.policy.rules
  {
    && Passes(e, req, sorted[k], orders(k))
    && LevelAt(e, req, checks(f)) + TokenBucket.Gain(req.rateLimit.value.rps, checks(f), checks(k)) >= 1.0
  }

  /** The request's bucket was last refilled at `now`, and then gave `taken` tokens. */
  predicate Checked(e: PolicySpec.View, req: BindingRequest, after: map<string, TokenBucket.Bucket>, now: real,
                    taken: real)
    requires RateLimited(req)
  {
    var key := Key(req.client, req.capability);
    key in after && after[key].last == now && after[key].tokens == LevelAt(e, req, now) - taken
  }

  /** Evaluations that allow nothing take no token. */
  lemma RefusedTakeNone(e: PolicySpec.View, req: BindingRequest, sorted: seq<Provider>,
                        orders: nat -> seq<string>, checks: nat -> real, n: nat)
    requires OrdersFit(e.policy.rules, orders) && n <= |sorted|
    requires RateLimited(req) && req.rateLimit.value.rps <= MAX_RPS_PER_CLIENT
    requires forall k :: 0 <= k < n ==> !AllowFlags(e, req, sorted, orders, checks)[k]
    ensures var after := BucketsAfter(e, req, sorted, orders, checks, n);
            after == e.buckets || exists l: nat :: Checked(e, req, after, checks(l), 0.0)
  {
    var l := Last(PassFlags(e, req, sorted, orders)[..n]);
    if l.Some? {
      assert !AllowFlags(e, req, sorted, orders, checks)[l.value];
      assert Checked(e, req, RateCheck(e, req, checks(l.value)).0, checks(l.value), 0.0);
    }
  }

  /** However many candidates are checked, a request takes one token if it chooses a provider
      and none otherwise, and touches no other key's bucket. */
  lemma OneTokenIfChosen(e: PolicySpec.View, req: BindingRequest, sorted: seq<Provider>,
                         orders: nat -> seq<string>, checks: nat -> real)
    requires OrdersFit(e.policy.rules, orders)
    requires RateLimited(req) && req.rateLimit.value.rps <= MAX_RPS_PER_CLIENT
    ensures var chosen := FirstAllow(e, req, sorted, orders, checks);
            var after := BucketsAfter(e, req, sorted, orders, checks, Looked(e, req, sorted, orders, checks));
            && after - {Key(req.client, req.capability)} == e.buckets - {Key(req.client, req.capability)}
            && (chosen.Some? ==> Checked(e, req, after, checks(chosen.value), 1.0))
            && (chosen.None? ==> after == e.buckets || exists l: nat :: Checked(e, req, after, checks(l), 0.0))
  {
    var chosen := FirstAllow(e, req, sorted, orders, checks);
    if chosen.Some? {
      assert Last(PassFlags(e, req, sorted, orders)[..chosen.value + 1]) == Some(chosen.value);
      assert Checked(e, req, RateCheck(e, req, checks(chosen.value)).0, checks(chosen.value), 1.0);
    } else {
      RefusedTakeNone(e, req, sorted, orders, checks, |sorted|);
    }
  }

  /** A cancelled request reached no candidate that was allowed, so it took no token. */
  lemma CancelledTakesNone(e: PolicySpec.View, req: BindingRequest, sorted: seq<Provider>, env: Env)
    requires OrdersFit(e.policy.rules, env.orders) && Stop(e, req, sorted, env).Some?
    requires RateLimited(req) && req.rateLimit.value.rps <= MAX_RPS_PER_CLIENT
    ensures var n := Reached(e, req, sorted, env);
            var after := BucketsAfter(e, req, sorted, env.orders, env.checks, n);
            && StopsBefore(env, n) && NotStopped(env, n)
            && NoneAllowed(e, req, sorted, env, n)
            && (after == e.buckets || exists l: nat :: Checked(e, req, after, env.checks(l), 0.0))
  {
    var n := Reached(e, req, sorted, env);
    assert forall k :: 0 <= k < n ==> !StopFlags(env, Looked(e, req, sorted, env.orders, env.checks))[k];
    RefusedTakeNone(e, req, sorted, env.orders, env.checks, n);
  }

  /** Policy accepts the provider whatever the rule order. */
  ghost predicate Accepted(e: PolicySpec.View, req: BindingRequest, p: Provider) {
    forall order | ScanOrder(e.policy.rules, order) :: Passes(e, req, p, order)
  }

  /** A registered provider of the capability that the locality preference allows. */
  ghost predicate Candidate(r: RegistryState.View, req: BindingRequest, p: Provider)
    requires req.client in r.services
  {
    && p in RegistryState.ListOf(r.providers, req.capability)
    && Eligible(DistanceTo(r, req, p), Preference(req))
  }

  function DistanceTo(r: RegistryState.View, req: BindingRequest, p: Provider): Distance
    requires req.client in r.services
  {
    DistanceBetween(r.members, r.services[req.client].nodeId, p.nodeId)
  }

  ghost predicate SortedCandidates(r: RegistryState.View, req: BindingRequest, sorted: seq<Provider>)
    requires req.client in r.services
  {
    NearestFirst(r.members, r.services[req.client].nodeId, Preference(req),
                 RegistryState.ListOf(r.providers, req.capability), sorted)
  }

  /** The candidates of a request as the engine sorts them; none when the registry does not know
      capability or client. */
  function SortedFor(r: RegistryState.View, req: BindingRequest): seq<Provider> {
    if req.capability in r.cache && req.client in r.services then
      SortByLocality(r.members, r.services[req.client].nodeId, Preference(req),
                     RegistryState.ListOf(r.providers, req.capability))
    else []
  }

  lemma SortedForIs(r: RegistryState.View, req: BindingRequest)
    requires req.capability in r.cache && req.client in r.services
    ensures SortedCandidates(r, req, SortedFor(r, req))
  {
    SortedEligible(r.members, r.services[req.client].nodeId, Preference(req),
                   RegistryState.ListOf(r.providers, req.capability));
  }

  lemma SortedAreCandidates(r: RegistryState.View, req: BindingRequest, sorted: seq<Provider>, p: Provider)
    requires req.client in r.services && SortedCandidates(r, req, sorted)
    ensures p in sorted <==> Candidate(r, req, p)
  {
    assert p in sorted <==> multiset(sorted)[p] > 0;
  }

  ghost predicate RulesAgree(rules: map<string, PolicyRule>) {
    !(SomeRule(rules, Allow) && SomeRule(rules, Deny))
  }

  /** When decisive rules agree, acceptance does not depend on the rule order. */
  lemma PassesIffAccepted(e: PolicySpec.View, req: BindingRequest, p: Provider, order: seq<string>)
    requires RulesAgree(e.policy.rules) && ScanOrder(e.policy.rules, order)
    ensures Passes(e, req, p, order) <==> Accepted(e, req, p)
  {
    OrderIrrelevant(e.policy.rules);
  }

  /** The candidates in the terms of the request; without a stated locality all providers are. */
  lemma CandidateExactly(r: RegistryState.View, req: BindingRequest, p: Provider)
    requires req.capability in r.cache && req.client in r.services
    ensures p in SortedFor(r, req) <==>
            && req.capability in r.providers && p in r.providers[req.capability]
            && var client := r.services[req.client].nodeId;
               && (req.locality.NodeOnly? ==> p.nodeId == client)
               && (req.locality.LanOnly? ==>
                     p.nodeId == client || DistanceBetween(r.members, client, p.nodeId).SameLan?)
  {
    EligibleExactly(r.members, r.services[req.client].nodeId, Preference(req),
                    RegistryState.ListOf(r.providers, req.capability), p);
  }

  /** The denials before any candidate is evaluated. */
  lemma EarlyDenials(r: RegistryState.View, e: PolicySpec.View, req: BindingRequest, orders: nat -> seq<string>,
                     checks: nat -> real)
    requires OrdersFit(e.policy.rules, orders)
    ensures var d := Resolve(r, e, req, SortedFor(r, req), orders, checks);
            && (d == Denied(CapabilityUnknown) <==> req.capability !in r.cache)
            && (d == Denied(NoProviderAvailable) <==>
                  req.capability in r.cache && (req.client !in r.services || SortedFor(r, req) == []))
            && (d.Denied? ==> d.reason.CapabilityUnknown? || d.reason.NoProviderAvailable? || d.reason.InternalError?
                              || d.reason == Reason.PolicyDenied)
  {
  }

  /** With agreeing rules, the first pass in the sorted list is an accepted candidate with no
      accepted candidate strictly closer, and there is none only if no candidate is accepted. */
  lemma FirstPassNearest(r: RegistryState.View, e: PolicySpec.View, req: BindingRequest, sorted: seq<Provider>,
                         orders: nat -> seq<string>)
    requires OrdersFit(e.policy.rules, orders) && RulesAgree(e.policy.rules)
    requires req.client in r.services && SortedCandidates(r, req, sorted)
    ensures match FirstPass(e, req, sorted, orders)
            case Some(i) => Nearest(r, e, req, sorted[i])
            case None => forall q :: Candidate(r, req, q) ==> !Accepted(e, req, q)
  {
    var f := FirstPass(e, req, sorted, orders);
    if f.Some? {
      SortedAreCandidates(r, req, sorted, sorted[f.value]);
      PassesIffAccepted(e, req, sorted[f.value], orders(f.value));
    }
    forall q | Candidate(r, req, q) && Accepted(e, req, q)
      ensures f.Some? && Rank(DistanceTo(r, req, sorted[f.value])) <= Rank(DistanceTo(r, req, q))
    {
      SortedAreCandidates(r, req, sorted, q);
      var k: nat :| k < |sorted| && sorted[k] == q;
      PassesIffAccepted(e, req, q, orders(k));
      assert PassFlags(e, req, sorted, orders)[k];
    }
  }

  /** An accepted candidate such that no accepted candidate is strictly closer. */
  ghost predicate Nearest(r: RegistryState.View, e: PolicySpec.View, req: BindingRequest, p: Provider)
    requires req.client in r.services
  {
    && Candidate(r, req, p) && Accepted(e, req, p)
    && forall q :: Candidate(r, req, q) && Accepted(e, req, q) ==> Closer(r, req, p, q)
  }

  /** `p` is no farther than `q`. */
  predicate Closer(r: RegistryState.View, req: BindingRequest, p: Provider, q: Provider)
    requires req.client in r.services
  {
    Rank(DistanceTo(r, req, p)) <= Rank(DistanceTo(r, req, q))
  }

  /** Candidate `k` is accepted, checked within the rate, and every accepted candidate that is
      strictly closer was checked before, when the client was over its rate. */
  ghost predicate NearestInRate(r: RegistryState.View, e: PolicySpec.View, req: BindingRequest, sorted: seq<Provider>,
                                checks: nat -> real, k: nat)
    requires req.client in r.services && k < |sorted|
  {
    && Candidate(r, req, sorted[k]) && Accepted(e, req, sorted[k]) && Within(e, req, checks(k))
    && forall q :: Candidate(r, req, q) && Accepted(e, req, q) && !Closer(r, req, sorted[k], q) ==>
         exists j: nat :: j < k && sorted[j] == q && !Within(e, req, checks(j))
  }

  /** An accepted candidate is checked at a time when the client is within its rate. */
  ghost predicate SomeInRate(e: PolicySpec.View, req: BindingRequest, sorted: seq<Provider>, checks: nat -> real) {
    exists k :: 0 <= k < |sorted| && Accepted(e, req, sorted[k]) && Within(e, req, checks(k))
  }

  lemma AllowIsAccepted(e: PolicySpec.View, req: BindingRequest, sorted: seq<Provider>, orders: nat -> seq<string>,
                        checks: nat -> real)
    requires OrdersFit(e.policy.rules, orders) && RulesAgree(e.policy.rules)
    ensures forall k :: 0 <= k < |sorted| ==>
              AllowFlags(e, req, sorted, orders, checks)[k]
              == (Accepted(e, req, sorted[k]) && Within(e, req, checks(k)))
  {
    forall k | 0 <= k < |sorted|
      ensures Passes(e, req, sorted[k], orders(k)) == Accepted(e, req, sorted[k])
    {
      PassesIffAccepted(e, req, sorted[k], orders(k));
    }
  }

  lemma FirstAllowNearest(r: RegistryState.View, e: PolicySpec.View, req: BindingRequest, sorted: seq<Provider>,
                          orders: nat -> seq<string>, checks: nat -> real, k: nat)
    requires OrdersFit(e.policy.rules, orders) && RulesAgree(e.policy.rules) && Forward(checks)
    requires req.client in r.services && SortedCandidates(r, req, sorted)
    requires FirstAllow(e, req, sorted, orders, checks) == Some(k)
    ensures NearestInRate(r, e, req, sorted, checks, k)
    ensures Within(e, req, checks(0)) ==> Nearest(r, e, req, sorted[k])
  {
    AllowIsAccepted(e, req, sorted, orders, checks);
    SortedAreCandidates(r, req, sorted, sorted[k]);
    var flags := AllowFlags(e, req, sorted, orders, checks);
    forall q | Candidate(r, req, q) && Accepted(e, req, q) && !Closer(r, req, sorted[k], q)
      ensures exists j: nat :: j < k && sorted[j] == q && !Within(e, req, checks(j))
      ensures !Within(e, req, checks(0))
    {
      var j := CloserIsBefore(r, req, sorted, k, q);
      assert !flags[j];
      if Within(e, req, checks(0)) {
        WithinStays(e, req, checks(0), checks(j));
      }
    }
  }

  lemma CloserIsBefore(r: RegistryState.View, req: BindingRequest, sorted: seq<Provider>, k: nat, q: Provider)
    returns (j: nat)
    requires req.client in r.services && SortedCandidates(r, req, sorted) && k < |sorted|
    requires Candidate(r, req, q) && !Closer(r, req, sorted[k], q)
    ensures j < k && sorted[j] == q
  {
    SortedAreCandidates(r, req, sorted, q);
    j :| 0 <= j < |sorted| && sorted[j] == q;
  }

  /** Nearest acceptable provider, with a clock reading for every rate check. With decisive
      rules that agree: a grant goes to an accepted candidate, and any accepted one strictly
      closer was checked before it while the client was over its rate, so that a client within
      its rate from the start gets a nearest one; a grant is given iff some accepted candidate
      is checked within the rate (one without a service ID ends the request with an internal
      error); POLICY_DENIED means that there are candidates and no such one. */
  lemma NearestAcceptable(r: RegistryState.View, e: PolicySpec.View, req: BindingRequest, sorted: seq<Provider>,
                          orders: nat -> seq<string>, checks: nat -> real)
    requires OrdersFit(e.policy.rules, orders) && RulesAgree(e.policy.rules) && Forward(checks)
    requires req.capability in r.cache && req.client in r.services && SortedCandidates(r, req, sorted)
    ensures var d := Resolve(r, e, req, sorted, orders, checks);
            && (d.Granted? ==> exists k: nat :: k < |sorted| && sorted[k] == d.provider
                                                && NearestInRate(r, e, req, sorted, checks, k))
            && (d.Granted? && Within(e, req, checks(0)) ==> Nearest(r, e, req, d.provider))
            && (d.Granted? || d == Denied(InternalError) <==> SomeInRate(e, req, sorted, checks))
            && (d == Denied(NoProviderAvailable) <==> forall q :: !Candidate(r, req, q))
            && (d == Denied(Reason.PolicyDenied) <==>
                  (exists q :: Candidate(r, req, q)) && !SomeInRate(e, req, sorted, checks))
  {
    AllowIsAccepted(e, req, sorted, orders, checks);
    var f := FirstAllow(e, req, sorted, orders, checks);
    if f.Some? {
      FirstAllowNearest(r, e, req, sorted, orders, checks, f.value);
    }
    if sorted == [] {
      forall q ensures !Candidate(r, req, q) {
        SortedAreCandidates(r, req, sorted, q);
      }
    } else {
      SortedAreCandidates(r, req, sorted, sorted[0]);
    }
  }

  // ----- over the rate at first -----

  /** With agreeing rules a nearer accepted candidate than the one chosen exists exactly when the
      first accepted candidate is strictly closer than it and was checked with less than a token
      left. */
  lemma FartherChosen(r: RegistryState.View, e: PolicySpec.View, req: BindingRequest, sorted: seq<Provider>,
                      orders: nat -> seq<string>, checks: nat -> real, f: nat, k: nat)
    requires OrdersFit(e.policy.rules, orders) && RulesAgree(e.policy.rules)
    requires Forward(checks) && BurstsFit(e.buckets)
    requires RateLimited(req) && req.rateLimit.value.rps <= MAX_RPS_PER_CLIENT
    requires req.client in r.services && SortedCandidates(r, req, sorted)
    requires FirstPass(e, req, sorted, orders) == Some(f) && FirstAllow(e, req, sorted, orders, checks) == Some(k)
    ensures !Nearest(r, e, req, sorted[k]) <==>
            LevelAt(e, req, checks(f)) < 1.0 && !Closer(r, req, sorted[k], sorted[f])
  {
    FirstPassNearest(r, e, req, sorted, orders);
    FirstAllowNearest(r, e, req, sorted, orders, checks, k);
    LaterChosen(e, req, sorted, orders, checks, f);
    if Closer(r, req, sorted[k], sorted[f]) {
      forall q | Candidate(r, req, q) && Accepted(e, req, q)
        ensures Closer(r, req, sorted[k], q)
      {
        assert Closer(r, req, sorted[f], q);
      }
    }
  }

  // ----- rules in conflict -----

  /** Policy passes the provider in some rule order. */
  ghost predicate Passable(e: PolicySpec.View, req: BindingRequest, p: Provider) {
    exists order :: ScanOrder(e.policy.rules, order) && Passes(e, req, p, order)
  }

  /** No candidate that some rule order passes is strictly closer than the first pass. */
  ghost predicate NonePassedOver(r: RegistryState.View, e: PolicySpec.View, req: BindingRequest, sorted: seq<Provider>,
                                 orders: nat -> seq<string>)
    requires OrdersFit(e.policy.rules, orders) && req.client in r.services
  {
    var f := FirstPass(e, req, sorted, orders);
    f.Some? ==> forall q :: Candidate(r, req, q) && Passable(e, req, q) ==> Closer(r, req, sorted[f.value], q)
  }

  /** All candidates that some rule order passes are equally far. */
  ghost predicate PassableEquallyFar(r: RegistryState.View, e: PolicySpec.View, req: BindingRequest)
    requires req.client in r.services
  {
    forall p, q :: Candidate(r, req, p) && Candidate(r, req, q) && Passable(e, req, p) && Passable(e, req, q)
                   ==> Closer(r, req, p, q)
  }

  /** A passable provider passes in every order that meets an allow rule first, and none passes
      in one that meets a deny rule first. */
  lemma FirstRuleDecides(e: PolicySpec.View, req: BindingRequest, p: Provider, order: seq<string>)
    requires ScanOrder(e.policy.rules, order) && order != [] && Decisive(e.policy.rules[order[0]])
    ensures Passes(e, req, p, order) <==> e.policy.rules[order[0]].decision.Allow? && Passable(e, req, p)
  {
    var d := e.policy.rules[order[0]].decision;
    assert FirstDecisive(e.policy.rules, order) == Some(d);
    if d.Allow? && Passable(e, req, p) {
      var o :| ScanOrder(e.policy.rules, o) && Passes(e, req, p, o);
    }
  }

  /** What makes a provider pass in some rule order: a known capability, the minimum tier, and
      either an allow rule, which for high risk still asks for a certified tier and consent, or
      no decisive rule and a risk low enough for the tier. */
  lemma PassableExactly(e: PolicySpec.View, req: BindingRequest, p: Provider)
    ensures Passable(e, req, p) <==>
            && e.cache.Some? && req.capability in e.cache.value
            && MeetsTier(p.trustTier, MinTier(e.policy))
            && var risk := e.cache.value[req.capability].riskClass;
               if SomeRule(e.policy.rules, Allow) then
                 risk.High? ==> MeetsTier(p.trustTier, Certified) && ConsentOf(e.consents, req.client, req.capability)
               else
                 && !SomeRule(e.policy.rules, Deny)
                 && (risk.Low? || (risk.Medium? && MeetsTier(p.trustTier, Certified)))
  {
    assert p.trustTier.Certified? || p.trustTier.Official? <==> MeetsTier(p.trustTier, Certified);
    if SomeRule(e.policy.rules, Allow) {
      var a :| a in e.policy.rules && e.policy.rules[a].decision == Allow;
      var order := OrderFrom(e.policy.rules, a);
      FirstRuleDecides(e, req, p, order);
      assert FirstDecisive(e.policy.rules, order) == Some(Allow);
    } else {
      var order := AnyOrder(e.policy.rules);
      PassesIffAccepted(e, req, p, order);
      PassesExactly(e, req.client, req.capability, p, order);
      if Passable(e, req, p) {
        var o :| ScanOrder(e.policy.rules, o) && Passes(e, req, p, o);
        PassesExactly(e, req.client, req.capability, p, o);
      }
    }
  }

  /** In every rule order of every evaluation no nearer provider is passed over, iff allow and
      deny rules do not both exist or all providers at stake are equally far. */
  lemma NearestForEveryOrder(r: RegistryState.View, e: PolicySpec.View, req: BindingRequest, sorted: seq<Provider>)
    requires req.client in r.services && SortedCandidates(r, req, sorted)
    ensures (forall orders | OrdersFit(e.policy.rules, orders) :: NonePassedOver(r, e, req, sorted, orders))
            <==> RulesAgree(e.policy.rules) || PassableEquallyFar(r, e, req)
  {
    if RulesAgree(e.policy.rules) || PassableEquallyFar(r, e, req) {
      forall orders | OrdersFit(e.policy.rules, orders)
        ensures NonePassedOver(r, e, req, sorted, orders)
      {
        AgreeingPassOverNone(r, e, req, sorted, orders);
      }
    } else {
      var p, q :| Candidate(r, req, p) && Candidate(r, req, q) && Passable(e, req, p) && Passable(e, req, q)
                  && !Closer(r, req, p, q);
      var orders := OrdersPassingOver(r, e, req, sorted, p, q);
    }
  }

  lemma AgreeingPassOverNone(r: RegistryState.View, e: PolicySpec.View, req: BindingRequest, sorted: seq<Provider>,
                             orders: nat -> seq<string>)
    requires OrdersFit(e.policy.rules, orders) && req.client in r.services && SortedCandidates(r, req, sorted)
    requires RulesAgree(e.policy.rules) || PassableEquallyFar(r, e, req)
    ensures NonePassedOver(r, e, req, sorted, orders)
  {
    var f := FirstPass(e, req, sorted, orders);
    if f.Some? {
      var p := sorted[f.value];
      SortedAreCandidates(r, req, sorted, p);
      assert Passable(e, req, p);
      if RulesAgree(e.policy.rules) {
        FirstPassNearest(r, e, req, sorted, orders);
        forall q | Candidate(r, req, q) && Passable(e, req, q)
          ensures Closer(r, req, p, q)
        {
          var o :| ScanOrder(e.policy.rules, o) && Passes(e, req, q, o);
          PassesIffAccepted(e, req, q, o);
        }
      }
    }
  }

  function OneAllows(k: nat, allowing: seq<string>, denying: seq<string>): nat -> seq<string> {
    (i: nat) => if i == k then allowing else denying
  }

  /** Rules in conflict can be walked so that any passable candidate is the first to pass. */
  lemma AnyCanBeFirst(e: PolicySpec.View, req: BindingRequest, sorted: seq<Provider>, k: nat)
    returns (orders: nat -> seq<string>)
    requires !RulesAgree(e.policy.rules) && k < |sorted| && Passable(e, req, sorted[k])
    ensures OrdersFit(e.policy.rules, orders) && FirstPass(e, req, sorted, orders) == Some(k)
  {
    var a :| a in e.policy.rules && e.policy.rules[a].decision == Allow;
    var d :| d in e.policy.rules && e.policy.rules[d].decision == Deny;
    var allowing := OrderFrom(e.policy.rules, a);
    var denying := OrderFrom(e.policy.rules, d);
    orders := OneAllows(k, allowing, denying);
    OnlyOnePasses(e, req, sorted, k, allowing, denying);
  }

  lemma OnlyOnePasses(e: PolicySpec.View, req: BindingRequest, sorted: seq<Provider>, k: nat,
                      allowing: seq<string>, denying: seq<string>)
    requires k < |sorted| && Passable(e, req, sorted[k])
    requires ScanOrder(e.policy.rules, allowing) && allowing != [] && e.policy.rules[allowing[0]].decision == Allow
    requires ScanOrder(e.policy.rules, denying) && denying != [] && e.policy.rules[denying[0]].decision == Deny
    ensures OrdersFit(e.policy.rules, OneAllows(k, allowing, denying))
    ensures FirstPass(e, req, sorted, OneAllows(k, allowing, denying)) == Some(k)
  {
    var orders := OneAllows(k, allowing, denying);
    FirstRuleDecides(e, req, sorted[k], allowing);
    forall i | 0 <= i < |sorted| && i != k
      ensures !Passes(e, req, sorted[i], orders(i))
    {
      FirstRuleDecides(e, req, sorted[i], denying);
    }
    assert PassFlags(e, req, sorted, orders)[k];
  }

  /** In particular a farther one than another passable candidate. */
  lemma OrdersPassingOver(r: RegistryState.View, e: PolicySpec.View, req: BindingRequest, sorted: seq<Provider>,
                          far: Provider, near: Provider) returns (orders: nat -> seq<string>)
    requires req.client in r.services && SortedCandidates(r, req, sorted) && !RulesAgree(e.policy.rules)
    requires Candidate(r, req, far) && Candidate(r, req, near) && Passable(e, req, far) && Passable(e, req, near)
    requires !Closer(r, req, far, near)
    ensures OrdersFit(e.policy.rules, orders) && !NonePassedOver(r, e, req, sorted, orders)
  {
    SortedAreCandidates(r, req, sorted, far);
    var k: nat :| k < |sorted| && sorted[k] == far;
    orders := AnyCanBeFirst(e, req, sorted, k);
  }

  // A case of it: a client, an official provider on its own node and another elsewhere, one rule
  // that allows and one that denies.

  const NEAR := Provider("near", "near-id", "here", "print", Official, Endpoint("tcp", "localhost", 80), None, true)
  const FAR := Provider("far", "far-id", "there", "print", Official, Endpoint("tcp", "localhost", 80), None, true)
  const CLIENT := ServiceEntry("client", "", "here", [], [], None, "running")
  const PRINT := map["print" := Capability("print", Low)]
  const RULES := map["a" := PolicyRule(Allow, "", 0), "d" := PolicyRule(Deny, "", 0)]
  const PRINT_REGISTRY := RegistryState.View(map[], map["client" := CLIENT], map["print" := [NEAR, FAR]], PRINT)
  const PRINT_POLICY := PolicySpec.View(MeshPolicy(RULES, Certified), map[], Some(PRINT), map[])
  const PLAIN_POLICY := PolicySpec.View(DEFAULT_POLICY, map[], Some(PRINT), map[])
  const PRINT_REQUEST := BindingRequest("r", "client", "", "print", NoLocality, NoTier, 0, None)

  lemma HeadGranted(r: RegistryState.View, e: PolicySpec.View, req: BindingRequest, sorted: seq<Provider>,
                    orders: nat -> seq<string>, checks: nat -> real)
    requires OrdersFit(e.policy.rules, orders) && sorted != [] && sorted[0].serviceId != ""
    requires req.capability in r.cache && req.client in r.services
    requires Passes(e, req, sorted[0], orders(0)) && Within(e, req, checks(0))
    ensures Resolve(r, e, req, sorted, orders, checks) == Granted(sorted[0])
  {
    assert AllowFlags(e, req, sorted, orders, checks)[0];
  }

  lemma SecondOfTwo(r: RegistryState.View, e: PolicySpec.View, req: BindingRequest, near: Provider, far: Provider,
                    orders: nat -> seq<string>, checks: nat -> real)
    requires OrdersFit(e.policy.rules, orders) && far.serviceId != ""
    requires req.capability in r.cache && req.client in r.services
    requires !Passes(e, req, near, orders(0)) || !Within(e, req, checks(0))
    requires Passes(e, req, far, orders(1)) && Within(e, req, checks(1))
    ensures Resolve(r, e, req, [near, far], orders, checks) == Granted(far)
  {
    var flags := AllowFlags(e, req, [near, far], orders, checks);
    assert !flags[0] && flags[1];
  }

  /** Without rules, a tier that reaches the default minimum passes. */
  lemma PrintPasses(e: PolicySpec.View, req: BindingRequest, p: Provider, order: seq<string>)
    requires e.policy == DEFAULT_POLICY && e.cache == Some(PRINT) && req.capability == "print"
    requires MeetsTier(p.trustTier, Certified) && ScanOrder(map[], order)
    ensures Passes(e, req, p, order)
  {
    FirstDecisiveIs(map[], order);
  }

  lemma PrintPassable(p: Provider)
    requires p.trustTier.Official?
    ensures !RulesAgree(RULES) && Passable(PRINT_POLICY, PRINT_REQUEST, p)
  {
    assert RULES["a"].decision == Allow && RULES["d"].decision == Deny;
    var allowing := OrderFrom(RULES, "a");
    assert FirstDecisive(RULES, allowing) == Some(Allow);
    assert Passes(PRINT_POLICY, PRINT_REQUEST, p, allowing);
  }

  lemma PrintOrders() returns (orders: nat -> seq<string>)
    ensures OrdersFit(RULES, orders)
    ensures !Passes(PRINT_POLICY, PRINT_REQUEST, NEAR, orders(0)) && Passes(PRINT_POLICY, PRINT_REQUEST, FAR, orders(1))
  {
    PrintPassable(FAR);
    orders := AnyCanBeFirst(PRINT_POLICY, PRINT_REQUEST, [NEAR, FAR], 1);
    var flags := PassFlags(PRINT_POLICY, PRINT_REQUEST, [NEAR, FAR], orders);
    assert !flags[0] && flags[1];
  }

  /** The farther provider is granted although policy would pass the nearer one. */
  lemma ConflictingRulesCanSkipNearest() returns (orders: nat -> seq<string>)
    ensures OrdersFit(RULES, orders) && SortedFor(PRINT_REGISTRY, PRINT_REQUEST) == [NEAR, FAR]
    ensures Passable(PRINT_POLICY, PRINT_REQUEST, NEAR) && !Closer(PRINT_REGISTRY, PRINT_REQUEST, FAR, NEAR)
    ensures forall checks ::
              Resolve(PRINT_REGISTRY, PRINT_POLICY, PRINT_REQUEST, [NEAR, FAR], orders, checks) == Granted(FAR)
  {
    PrintSorted(PRINT_REQUEST);
    PrintPassable(NEAR);
    orders := PrintOrders();
    forall checks
      ensures Resolve(PRINT_REGISTRY, PRINT_POLICY, PRINT_REQUEST, [NEAR, FAR], orders, checks) == Granted(FAR)
    {
      SecondOfTwo(PRINT_REGISTRY, PRINT_POLICY, PRINT_REQUEST, NEAR, FAR, orders, checks);
    }
  }

  // A case of a farther choice over the rate: no rules, one request a second, no token left at
  // time 0, and evaluations at 0.5 and 1.

  const EMPTY_BUCKET := TokenBucket.Bucket(1.0, 1, 0.0, 0.0)
  const SPENT_POLICY := PLAIN_POLICY.(buckets := map["client:print" := EMPTY_BUCKET])
  const RATED_REQUEST := PRINT_REQUEST.(rateLimit := Some(RateLimit(1.0, 1)))

  /** The farther provider is granted because the token comes back just before its turn. */
  lemma RefillCanSkipNearest(orders: nat -> seq<string>, checks: nat -> real)
    requires OrdersFit(map[], orders) && checks(0) == 0.5 && checks(1) == 1.0
    ensures SortedFor(PRINT_REGISTRY, RATED_REQUEST) == [NEAR, FAR]
    ensures Accepted(SPENT_POLICY, RATED_REQUEST, NEAR) && !Closer(PRINT_REGISTRY, RATED_REQUEST, FAR, NEAR)
    ensures Resolve(PRINT_REGISTRY, SPENT_POLICY, RATED_REQUEST, [NEAR, FAR], orders, checks) == Granted(FAR)
  {
    PrintSorted(RATED_REQUEST);
    PrintAccepted(NEAR);
    RefillGrantsFarther(orders, checks);
  }

  lemma RefillGrantsFarther(orders: nat -> seq<string>, checks: nat -> real)
    requires OrdersFit(map[], orders) && checks(0) == 0.5 && checks(1) == 1.0
    ensures Resolve(PRINT_REGISTRY, SPENT_POLICY, RATED_REQUEST, [NEAR, FAR], orders, checks) == Granted(FAR)
  {
    var e, req := SPENT_POLICY, RATED_REQUEST;
    assert Passes(e, req, FAR, orders(1)) by {
      PrintPasses(e, req, FAR, orders(1));
    }
    assert !Within(e, req, checks(0)) && Within(e, req, checks(1)) by {
      PrintSpent(checks(0));
      PrintSpent(checks(1));
    }
    SecondOfTwo(PRINT_REGISTRY, e, req, NEAR, FAR, orders, checks);
  }

  lemma PrintAccepted(p: Provider)
    requires MeetsTier(p.trustTier, Certified)
    ensures Accepted(SPENT_POLICY, RATED_REQUEST, p)
  {
    forall order | ScanOrder(map[], order)
      ensures Passes(SPENT_POLICY, RATED_REQUEST, p, order)
    {
      PrintPasses(SPENT_POLICY, RATED_REQUEST, p, order);
    }
  }

  lemma PrintSpent(now: real)
    ensures Within(SPENT_POLICY, RATED_REQUEST, now) <==> now >= 1.0
  {
    assert Key("client", "print") == "client:print";
  }

  lemma PrintSorted(req: BindingRequest)
    requires req.client == "client" && req.capability == "print" && req.locality.NoLocality?
    ensures SortedFor(PRINT_REGISTRY, req) == [NEAR, FAR]
  {
    var scores := Scores(map[], "here", LanPreferred, [NEAR, FAR]);
    assert scores == [Scored(NEAR, SameNode, 3), Scored(FAR, Wan, 1)];
    assert Compared(scores, 0, 1) == scores;
    assert InnerSort(scores, 0, 1) == InnerSort(scores, 0, 2) == scores;
    assert OuterSort(scores, 1) == OuterSort(InnerSort(scores, 1, 2), 2) == scores;
    assert OuterSort(scores, 0) == scores;
    assert scores[..1] == [scores[0]] && scores[..1][..0] == [];
    assert KeepEligible(scores) == KeepEligible(scores[..1]) + [FAR];
    assert KeepEligible(scores[..1]) == [NEAR];
  }

  /** A capability missing from the evaluator's cache is never granted, even when the registry
      knows it: a request for it that has candidates is answered with POLICY_DENIED. */
  lemma EvaluatorCacheDecides(r: RegistryState.View, e: PolicySpec.View, req: BindingRequest, sorted: seq<Provider>,
                              orders: nat -> seq<string>, checks: nat -> real)
    requires OrdersFit(e.policy.rules, orders)
    requires e.cache.None? || req.capability !in e.cache.value
    ensures var d := Resolve(r, e, req, sorted, orders, checks);
            && d.Denied?
            && (req.capability in r.cache && req.client in r.services && sorted != [] ==>
                  d == Denied(Reason.PolicyDenied))
  {
    assert forall k :: 0 <= k < |sorted| ==> !AllowFlags(e, req, sorted, orders, checks)[k];
  }
}
