/** The policy evaluator object and what holds over every sequence of calls to it. */
module PolicyEvaluator {
  import opened Basics
  import opened MeshTypes
  import opened PolicySpec
  import opened TokenBucket

  class Evaluator {
    var policy: MeshPolicy
    var consentStates: Consents
    const capabilityCache: Option<map<CapabilityId, Capability>>
    var rateLimiters: map<string, RateLimiter>

    /** No two keys share a limiter. */
    ghost predicate Valid()
      reads this
    {
      forall k1, k2 :: k1 in rateLimiters && k2 in rateLimiters && rateLimiters[k1] == rateLimiters[k2] ==> k1 == k2
    }

    ghost function Buckets(): map<string, Bucket>
      reads this, rateLimiters.Values
    {
      map k | k in rateLimiters :: rateLimiters[k].Value()
    }

    ghost function View(): PolicySpec.View
      reads this, rateLimiters.Values
    {
      PolicySpec.View(policy, consentStates, capabilityCache, Buckets())
    }

    constructor (capabilities: Option<map<CapabilityId, Capability>>)
      ensures Valid() && View() == PolicySpec.View(DEFAULT_POLICY, map[], capabilities, map[])
      ensures rateLimiters == map[]
    {
      policy, consentStates, capabilityCache, rateLimiters := DEFAULT_POLICY, map[], capabilities, map[];
    }

    /** A nil policy is refused and changes nothing. */
    method UpdatePolicy(newPolicy: Option<MeshPolicy>) returns (ok: bool)
      requires Valid()
      modifies this`policy
      ensures Valid() && ok == newPolicy.Some?
      ensures View() == old(View()).(policy := if newPolicy.Some? then newPolicy.value else old(policy))
    {
      ok := newPolicy.Some?;
      if ok {
        policy := newPolicy.value;
      }
    }

    method UpdateConsent(subject: string, c: CapabilityId, consented: bool)
      requires Valid()
      modifies this`consentStates
      ensures Valid()
      ensures View() == old(View()).(consents := WithConsent(old(consentStates), subject, c, consented))
    {
      if subject !in consentStates {
        consentStates := consentStates[subject := map[]];
      }
      consentStates := consentStates[subject := consentStates[subject][c := consented]];
    }

    method HasConsent(subject: string, c: CapabilityId) returns (b: bool)
      ensures b == ConsentOf(consentStates, subject, c)
    {
      if subject !in consentStates {
        return false;
      }
      b := c in consentStates[subject] && consentStates[subject][c];
    }

    /** Walks the rules in the order the map happens to give them. */
    method EvaluatePolicy(order: seq<string>, risk: RiskClass, tier: TrustTier)
      returns (decision: Decision, reason: Reason)
      requires ScanOrder(policy.rules, order)
      ensures (decision, reason) == PolicyVerdict(policy, order, risk, tier)
    {
      for i := 0 to |order|
        invariant FirstDecisive(policy.rules, order) == FirstDecisive(policy.rules, order[i..])
      {
        assert order[i..][1..] == order[i + 1..];
        var rule := policy.rules[order[i]];
        if rule.decision.Allow? {
          return Allow, NoReason;
        }
        if rule.decision.Deny? {
          return Deny, Reason.PolicyDenied;
        }
      }
      match risk {
        case Low => return Allow, NoReason;
        case Medium =>
          if MeetsTier(tier, Certified) {
            return Allow, NoReason;
          }
          return Deny, TrustTierInsufficient;
        case _ => return Deny, Reason.PolicyDenied;
      }
    }

    /** The key's limiter, replaced by a full one when the requested rate differs from its own. */
    method LimiterFor(key: string, rps: real, now: real) returns (limiter: RateLimiter)
      requires Valid() && rps > 0.0
      modifies this`rateLimiters
      ensures Valid() && key in rateLimiters && limiter == rateLimiters[key]
      ensures fresh(rateLimiters.Values - old(rateLimiters.Values))
      ensures limiter.rps == rps
      ensures (if key in old(rateLimiters) && old(rateLimiters)[key].rps == rps then limiter == old(rateLimiters)[key]
               else IsBurst(limiter.burst, rps) && limiter.tokens == limiter.burst as real && limiter.last == now)
      ensures Buckets() == old(Buckets())[key := BucketFor(old(Buckets()), key, rps, now)]
    {
      if key !in rateLimiters || rateLimiters[key].rps != rps {
        limiter := new RateLimiter(rps, BurstFor(rps), now);
        rateLimiters := rateLimiters[key := limiter];
      } else {
        limiter := rateLimiters[key];
      }
    }

    method CheckRateLimit(client: ServiceId, c: CapabilityId, rps: real, now: real) returns (ok: bool)
      requires Valid()
      modifies this`rateLimiters, rateLimiters.Values
      ensures Valid() && fresh(rateLimiters.Values - old(rateLimiters.Values))
      ensures (Buckets(), ok) == CheckRate(old(Buckets()), client, c, rps, now)
    {
      if rps <= 0.0 {
        return true;
      }
      if rps > MAX_RPS_PER_CLIENT {
        return false;
      }
      var key := client + ":" + c;
      var limiter := LimiterFor(key, rps, now);
      ghost var found := Buckets();
      ok := limiter.Allow(now);
      assert limiter.Value() == Take(found[key], now).0;
      assert Buckets() == found[key := limiter.Value()] == old(Buckets())[key := limiter.Value()];
    }

    /** Steps 1 to 6 for one provider. */
    method JudgeProvider(req: BindingRequest, p: Provider, order: seq<string>) returns (verdict: Verdict)
      requires ScanOrder(policy.rules, order)
      ensures verdict == Judge(View(), req.client, req.capability, p, order)
    {
      if capabilityCache.None? || req.capability !in capabilityCache.value {
        return Fail(CapabilityUnknown);
      }
      var cap := capabilityCache.value[req.capability];
      var minTier := if policy.minTrustTier.NoTier? then Certified else policy.minTrustTier;
      if !MeetsTier(p.trustTier, minTier) {
        return Refuse(TrustTierInsufficient);
      }
      if cap.riskClass.High? && !(p.trustTier.Certified? || p.trustTier.Official?) {
        return Refuse(ProvenanceMismatch);
      }
      var decision, reason := EvaluatePolicy(order, cap.riskClass, p.trustTier);
      if decision.Deny? {
        return Refuse(reason);
      }
      if cap.riskClass.High? {
        var consented := HasConsent(req.client, req.capability);
        if !consented {
          return Refuse(ConsentRequired);
        }
      }
      return Pass;
    }

    /** The seven-step evaluation for one provider. */
    method EvaluateBinding(req: BindingRequest, provider: Option<Provider>, order: seq<string>, now: real)
      returns (answer: Outcome)
      requires Valid() && ScanOrder(policy.rules, order)
      modifies this`rateLimiters, rateLimiters.Values
      ensures Valid() && fresh(rateLimiters.Values - old(rateLimiters.Values))
      ensures (Buckets(), answer) == Evaluate(old(View()), req, provider, order, now)
    {
      if provider.None? {
        return Outcome(Deny, InternalError, true);
      }
      var verdict := JudgeProvider(req, provider.value, order);
      if !verdict.Pass? {
        return Outcome(Deny, verdict.reason, verdict.Fail?);
      }
      if req.rateLimit.Some? && req.rateLimit.value.rps > 0.0 {
        var ok := CheckRateLimit(req.client, req.capability, req.rateLimit.value.rps, now);
        if !ok {
          return Outcome(Deny, RateLimited, false);
        }
      }
      return Outcome(Allow, NoReason, false);
    }
  }

  function WithConsent(consents: Consents, subject: string, c: CapabilityId, consented: bool): Consents {
    consents[subject := (if subject in consents then consents[subject] else map[])[c := consented]]
  }

  // ----- runs -----

  datatype Call =
    | SetPolicy(newPolicy: Option<MeshPolicy>)
    | SetConsent(subject: string, capability: CapabilityId, consented: bool)
    | Bind(req: BindingRequest, provider: Option<Provider>, order: seq<string>, now: real)

  /** One call; a Bind with an impossible walk order does nothing. */
  function Perform(v: PolicySpec.View, call: Call): PolicySpec.View {
    match call
    case SetPolicy(p) => if p.Some? then v.(policy := p.value) else v
    case SetConsent(s, c, b) => v.(consents := WithConsent(v.consents, s, c, b))
    case Bind(req, p, order, now) =>
      if forall k :: k in order ==> k in v.policy.rules then v.(buckets := Evaluate(v, req, p, order, now).0) else v
  }

  function Run(cache: Option<map<CapabilityId, Capability>>, calls: seq<Call>): PolicySpec.View {
    if calls == [] then PolicySpec.View(DEFAULT_POLICY, map[], cache, map[])
    else Perform(Run(cache, calls[..|calls| - 1]), calls[|calls| - 1])
  }

  predicate GivesPolicy(call: Call) {
    call.SetPolicy? && call.newPolicy.Some?
  }

  /** `p` is the last policy given, or the default when none was. */
  ghost predicate CurrentPolicy(calls: seq<Call>, p: MeshPolicy) {
    || (p == DEFAULT_POLICY && forall i :: 0 <= i < |calls| ==> !GivesPolicy(calls[i]))
    || exists i :: LastPolicy(calls, i, p)
  }

  ghost predicate LastPolicy(calls: seq<Call>, i: int, p: MeshPolicy) {
    0 <= i < |calls| && calls[i] == SetPolicy(Some(p)) && forall j :: i < j < |calls| ==> !GivesPolicy(calls[j])
  }

  lemma CheckRateBursts(buckets: map<string, Bucket>, client: ServiceId, c: CapabilityId, rps: real, now: real)
    requires BurstsFit(buckets)
    ensures BurstsFit(CheckRate(buckets, client, c, rps, now).0)
  {
  }

  /** After any calls every bucket has the burst max(1, floor(rps)). */
  lemma {:induction false} RunBursts(cache: Option<map<CapabilityId, Capability>>, calls: seq<Call>)
    ensures BurstsFit(Run(cache, calls).buckets)
  {
    if calls != [] {
      var k := |calls| - 1;
      RunBursts(cache, calls[..k]);
      if calls[k].Bind? && calls[k].req.rateLimit.Some? {
        var req := calls[k].req;
        var rps := req.rateLimit.value.rps;
        CheckRateBursts(Run(cache, calls[..k]).buckets, req.client, req.capability, rps, calls[k].now);
      }
    }
  }

  predicate ConsentCall(call: Call, subject: string, c: CapabilityId) {
    call.SetConsent? && call.subject == subject && call.capability == c
  }

  /** The latest consent update for the pair was a yes. */
  ghost predicate Consented(calls: seq<Call>, subject: string, c: CapabilityId) {
    exists i :: 0 <= i < |calls| && ConsentCall(calls[i], subject, c) && calls[i].consented
                && forall j :: i < j < |calls| ==> !ConsentCall(calls[j], subject, c)
  }

  lemma {:induction false} RunPolicy(cache: Option<map<CapabilityId, Capability>>, calls: seq<Call>)
    ensures CurrentPolicy(calls, Run(cache, calls).policy) && Run(cache, calls).cache == cache
  {
    if calls != [] {
      var k := |calls| - 1;
      var before := calls[..k];
      RunPolicy(cache, before);
      var p := Run(cache, before).policy;
      assert forall i :: 0 <= i < k ==> before[i] == calls[i];
      if GivesPolicy(calls[k]) {
        assert LastPolicy(calls, k, calls[k].newPolicy.value);
      } else if i :| LastPolicy(before, i, p) {
        assert LastPolicy(calls, i, p);
      }
    }
  }

  lemma {:induction false} RunConsent(cache: Option<map<CapabilityId, Capability>>, calls: seq<Call>, subject: string,
                                      c: CapabilityId)
    ensures ConsentOf(Run(cache, calls).consents, subject, c) <==> Consented(calls, subject, c)
  {
    if calls != [] {
      var k := |calls| - 1;
      var before := calls[..k];
      RunConsent(cache, before, subject, c);
      assert forall i :: 0 <= i < k ==> before[i] == calls[i];
      if ConsentCall(calls[k], subject, c) {
        assert Consented(calls, subject, c) <==> calls[k].consented;
      } else {
        ConsentFrame(calls, subject, c);
      }
    }
  }

  lemma ConsentFrame(calls: seq<Call>, subject: string, c: CapabilityId)
    requires calls != [] && !ConsentCall(calls[|calls| - 1], subject, c)
    ensures Consented(calls, subject, c) <==> Consented(calls[..|calls| - 1], subject, c)
  {
    var k := |calls| - 1;
    var before := calls[..k];
    if Consented(before, subject, c) {
      var i :| 0 <= i < k && ConsentCall(before[i], subject, c) && before[i].consented
               && forall j :: i < j < k ==> !ConsentCall(before[j], subject, c);
      assert ConsentCall(calls[i], subject, c) && forall j :: i < j < |calls| ==> j == k || calls[j] == before[j];
    }
    if Consented(calls, subject, c) {
      var i :| 0 <= i < |calls| && ConsentCall(calls[i], subject, c) && calls[i].consented
               && forall j :: i < j < |calls| ==> !ConsentCall(calls[j], subject, c);
      assert ConsentCall(before[i], subject, c) && forall j :: i < j < k ==> calls[j] == before[j];
    }
  }

  /** High-risk safety: after any sequence of calls, an allow for a high-risk capability means
      that the policy last given has an allow rule, the client's latest consent update for the
      capability was a yes, and the provider is certified or official and meets the policy's
      minimum tier. */
  lemma HighRiskSafety(cache: Option<map<CapabilityId, Capability>>, calls: seq<Call>,
                       req: BindingRequest, p: Provider, order: seq<string>, now: real)
    requires var v := Run(cache, calls);
             && (forall k :: k in order ==> k in v.policy.rules)
             && Evaluate(v, req, Some(p), order, now).1.decision.Allow?
    requires cache.Some? && req.capability in cache.value && cache.value[req.capability].riskClass.High?
    ensures Consented(calls, req.client, req.capability)
    ensures p.trustTier.Certified? || p.trustTier.Official?
    ensures exists policy :: CurrentPolicy(calls, policy) && SomeRule(policy.rules, Allow)
                             && MeetsTier(p.trustTier, MinTier(policy))
  {
    var v := Run(cache, calls);
    RunPolicy(cache, calls);
    RunConsent(cache, calls, req.client, req.capability);
    FirstDecisiveIs(v.policy.rules, order);
    assert Judge(v, req.client, req.capability, p, order).Pass?;
    assert CurrentPolicy(calls, v.policy) && SomeRule(v.policy.rules, Allow);
  }

  /** A capability missing from the evaluator's own cache is never allowed, whatever the
      registry's cache says. */
  lemma UnknownToEvaluator(cache: Option<map<CapabilityId, Capability>>, calls: seq<Call>,
                           req: BindingRequest, p: Option<Provider>, order: seq<string>, now: real)
    requires forall k :: k in order ==> k in Run(cache, calls).policy.rules
    requires cache.None? || req.capability !in cache.value
    ensures var answer := Evaluate(Run(cache, calls), req, p, order, now);
            answer.1.decision.Deny? && answer.1.error && answer.0 == Run(cache, calls).buckets
  {
    RunPolicy(cache, calls);
  }
}
