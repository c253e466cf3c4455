/** The policy evaluation flow as functions of the evaluator's contents. */
module PolicySpec {
  import opened Basics
  import opened MeshTypes
  import opened TokenBucket

  const MAX_RPS_PER_CLIENT: real := 1000.0

  datatype View = View(policy: MeshPolicy, consents: Consents,
                       cache: Option<map<CapabilityId, Capability>>, buckets: map<string, Bucket>)

  const DEFAULT_POLICY: MeshPolicy := MeshPolicy(map[], Certified)

  // ----- trust tiers -----

  function TierRank(t: TrustTier): Option<nat> {
    match t
    case Local => Some(0)
    case Experimental => Some(1)
    case Community => Some(2)
    case Certified => Some(3)
    case Official => Some(4)
    case _ => None
  }

  predicate MeetsTier(t: TrustTier, min: TrustTier) {
    TierRank(t).Some? && TierRank(min).Some? && TierRank(t).value >= TierRank(min).value
  }

  function MinTier(policy: MeshPolicy): TrustTier {
    if policy.minTrustTier.NoTier? then Certified else policy.minTrustTier
  }

  // ----- rules -----

  /** An order in which the rule map may be walked. */
  ghost predicate ScanOrder(rules: map<string, PolicyRule>, order: seq<string>) {
    && (forall k :: k in order <==> k in rules)
    && forall i, j :: 0 <= i < j < |order| ==> order[i] != order[j]
  }

  predicate Decisive(rule: PolicyRule) {
    rule.decision.Allow? || rule.decision.Deny?
  }

  /** The decision of the first rule that has one. */
  function FirstDecisive(rules: map<string, PolicyRule>, order: seq<string>): Option<Decision>
    requires forall k :: k in order ==> k in rules
  {
    if order == [] then None
    else if Decisive(rules[order[0]]) then Some(rules[order[0]].decision)
    else FirstDecisive(rules, order[1..])
  }

  function PolicyVerdict(policy: MeshPolicy, order: seq<string>, risk: RiskClass, tier: TrustTier): (Decision, Reason)
    requires forall k :: k in order ==> k in policy.rules
  {
    match FirstDecisive(policy.rules, order)
    case Some(d) => if d.Allow? then (Allow, NoReason) else (Deny, Reason.PolicyDenied)
    case None =>
      match risk
      case Low => (Allow, NoReason)
      case Medium => if MeetsTier(tier, Certified) then (Allow, NoReason) else (Deny, TrustTierInsufficient)
      case _ => (Deny, Reason.PolicyDenied)
  }

  // ----- the flow up to rate limiting -----

  function ConsentOf(consents: Consents, subject: string, c: CapabilityId): bool {
    subject in consents && c in consents[subject] && consents[subject][c]
  }

  datatype Verdict = Pass | Refuse(reason: Reason) | Fail(reason: Reason)

  /** Steps 1 to 6 for one provider; `Fail` is a returned error. */
  function Judge(v: View, client: ServiceId, c: CapabilityId, p: Provider, order: seq<string>): Verdict
    requires forall k :: k in order ==> k in v.policy.rules
  {
    if v.cache.None? || c !in v.cache.value then Fail(CapabilityUnknown)
    else
      var risk := v.cache.value[c].riskClass;
      if !MeetsTier(p.trustTier, MinTier(v.policy)) then Refuse(TrustTierInsufficient)
      else if risk.High? && !(p.trustTier.Certified? || p.trustTier.Official?) then Refuse(ProvenanceMismatch)
      else
        var (decision, reason) := PolicyVerdict(v.policy, order, risk, p.trustTier);
        if decision.Deny? then Refuse(reason)
        else if risk.High? && !ConsentOf(v.consents, client, c) then Refuse(ConsentRequired)
        else Pass
  }

  // ----- rate limiting -----

  function Key(client: ServiceId, c: CapabilityId): string {
    client + ":" + c
  }

  function BurstFor(rps: real): nat {
    if rps.Floor < 1 then 1 else rps.Floor
  }

  predicate Metered(rps: real) {
    0.0 < rps <= MAX_RPS_PER_CLIENT
  }

  /** The bucket a call uses: the one filed under its key if that has the same rate. */
  function BucketFor(buckets: map<string, Bucket>, key: string, rps: real, now: real): Bucket {
    if key in buckets && buckets[key].rps == rps then buckets[key] else Fresh(rps, BurstFor(rps), now)
  }

  function CheckRate(buckets: map<string, Bucket>, client: ServiceId, c: CapabilityId, rps: real,
                     now: real): (map<string, Bucket>, bool)
  {
    if rps <= 0.0 then (buckets, true)
    else if rps > MAX_RPS_PER_CLIENT then (buckets, false)
    else
      var (b, ok) := Take(BucketFor(buckets, Key(client, c), rps, now), now);
      (buckets[Key(client, c) := b], ok)
  }

  /** Every bucket has the burst that goes with its rate. */
  predicate BurstsFit(buckets: map<string, Bucket>) {
    forall k :: k in buckets ==> IsBurst(buckets[k].burst, buckets[k].rps)
  }

  /** max(1, floor(rps)), said without computing it. */
  predicate IsBurst(burst: int, rps: real) {
    if rps < 1.0 then burst == 1 else burst as real <= rps < (burst + 1) as real
  }

  datatype Outcome = Outcome(decision: Decision, reason: Reason, error: bool)

  /** EvaluateBinding: the new buckets and the answer. */
  function Evaluate(v: View, req: BindingRequest, provider: Option<Provider>, order: seq<string>,
                    now: real): (map<string, Bucket>, Outcome)
    requires forall k :: k in order ==> k in v.policy.rules
  {
    if provider.None? then (v.buckets, Outcome(Deny, InternalError, true))
    else
      match Judge(v, req.client, req.capability, provider.value, order)
      case Fail(reason) => (v.buckets, Outcome(Deny, reason, true))
      case Refuse(reason) => (v.buckets, Outcome(Deny, reason, false))
      case Pass =>
        if req.rateLimit.Some? && req.rateLimit.value.rps > 0.0 then
          var (buckets, ok) := CheckRate(v.buckets, req.client, req.capability, req.rateLimit.value.rps, now);
          (buckets, if ok then Outcome(Allow, NoReason, false) else Outcome(Deny, RateLimited, false))
        else (v.buckets, Outcome(Allow, NoReason, false))
  }

  // ----- properties of the rules -----

  ghost predicate SomeRule(rules: map<string, PolicyRule>, d: Decision) {
    exists k :: k in rules && rules[k].decision == d
  }

  lemma {:induction false} FirstDecisiveIs(rules: map<string, PolicyRule>, order: seq<string>)
    requires forall k :: k in order ==> k in rules
    ensures FirstDecisive(rules, order).None? <==> forall k :: k in order ==> !Decisive(rules[k])
    ensures var f := FirstDecisive(rules, order);
            f.Some? ==> Decisive(PolicyRule(f.value, "", 0)) && exists k :: k in order && rules[k].decision == f.value
  {
    if order != [] {
      FirstDecisiveIs(rules, order[1..]);
      assert forall k :: k in order <==> k == order[0] || k in order[1..];
      if Decisive(rules[order[0]]) {
        assert order[0] in order;
      } else if FirstDecisive(rules, order[1..]).Some? {
        var k :| k in order[1..] && rules[k].decision == FirstDecisive(rules, order[1..]).value;
        assert k in order;
      }
    }
  }

  /** Some walk order visits rule `k` first. */
  lemma OrderFrom(rules: map<string, PolicyRule>, k: string) returns (order: seq<string>)
    requires k in rules
    ensures ScanOrder(rules, order) && order != [] && order[0] == k
  {
    order := [k];
    var rest := rules.Keys - {k};
    while rest != {}
      invariant order != [] && order[0] == k
      invariant forall j :: j in order <==> j in rules && j !in rest
      invariant forall i, j :: 0 <= i < j < |order| ==> order[i] != order[j]
    {
      var j :| j in rest;
      order := order + [j];
      rest := rest - {j};
    }
  }

  lemma AnyOrder(rules: map<string, PolicyRule>) returns (order: seq<string>)
    ensures ScanOrder(rules, order)
  {
    if rules == map[] {
      order := [];
    } else {
      var k :| k in rules;
      order := OrderFrom(rules, k);
    }
  }

  /** The walk order does not matter iff allow rules and deny rules do not both exist; then any
      allow rule allows, any deny rule denies, and without either the defaults apply. */
  lemma OrderIrrelevant(rules: map<string, PolicyRule>)
    ensures (forall o1, o2 | ScanOrder(rules, o1) && ScanOrder(rules, o2) ::
               FirstDecisive(rules, o1) == FirstDecisive(rules, o2))
            <==> !(SomeRule(rules, Allow) && SomeRule(rules, Deny))
    ensures !(SomeRule(rules, Allow) && SomeRule(rules, Deny)) ==>
              forall o | ScanOrder(rules, o) ::
                FirstDecisive(rules, o) == if SomeRule(rules, Allow) then Some(Allow)
                                           else if SomeRule(rules, Deny) then Some(Deny) else None
  {
    forall o | ScanOrder(rules, o)
      ensures !(SomeRule(rules, Allow) && SomeRule(rules, Deny)) ==>
                FirstDecisive(rules, o) == if SomeRule(rules, Allow) then Some(Allow)
                                           else if SomeRule(rules, Deny) then Some(Deny) else None
    {
      FirstDecisiveIs(rules, o);
    }
    if SomeRule(rules, Allow) && SomeRule(rules, Deny) {
      var a :| a in rules && rules[a].decision == Allow;
      var d :| d in rules && rules[d].decision == Deny;
      var o1 := OrderFrom(rules, a);
      var o2 := OrderFrom(rules, d);
      assert FirstDecisive(rules, o1) == Some(Allow) && FirstDecisive(rules, o2) == Some(Deny);
    }
  }

  /** For a fixed walk order, a better-trusted provider passes wherever a worse one does. */
  lemma TierMonotone(v: View, client: ServiceId, c: CapabilityId, p: Provider, better: TrustTier, order: seq<string>)
    requires forall k :: k in order ==> k in v.policy.rules
    requires MeetsTier(better, p.trustTier)
    requires Judge(v, client, c, p, order).Pass?
    ensures Judge(v, client, c, p.(trustTier := better), order).Pass?
  {
    assert TierRank(p.trustTier).value <= TierRank(better).value;
    assert TierRank(p.trustTier).value >= 3 ==> better.Certified? || better.Official?;
  }

  /** What a risk class asks for besides the minimum tier, given that no rule denies. */
  ghost predicate RiskSatisfied(v: View, client: ServiceId, c: CapabilityId, risk: RiskClass, p: Provider) {
    match risk
    case Low => true
    case Medium => SomeRule(v.policy.rules, Allow) || MeetsTier(p.trustTier, Certified)
    case High =>
      SomeRule(v.policy.rules, Allow) && MeetsTier(p.trustTier, Certified) && ConsentOf(v.consents, client, c)
    case OtherRisk(_) => SomeRule(v.policy.rules, Allow)
  }

  /** Without rules in conflict, a provider passes exactly when the capability is known, no rule
      denies, its tier reaches the policy's minimum, and its capability's risk class is
      satisfied. An allow rule lifts neither the minimum tier nor, for high risk, provenance
      and consent. */
  lemma PassesExactly(v: View, client: ServiceId, c: CapabilityId, p: Provider, order: seq<string>)
    requires ScanOrder(v.policy.rules, order)
    requires !(SomeRule(v.policy.rules, Allow) && SomeRule(v.policy.rules, Deny))
    ensures Judge(v, client, c, p, order).Pass? <==>
            && v.cache.Some? && c in v.cache.value
            && !SomeRule(v.policy.rules, Deny)
            && MeetsTier(p.trustTier, MinTier(v.policy))
            && RiskSatisfied(v, client, c, v.cache.value[c].riskClass, p)
  {
    OrderIrrelevant(v.policy.rules);
    assert p.trustTier.Certified? || p.trustTier.Official? <==> MeetsTier(p.trustTier, Certified);
  }

  // ----- tiers and reasons in plain terms -----

  const TIERS := [Local, Experimental, Community, Certified, Official]

  /** A tier reaches another iff both are known and it does not stand before it. */
  lemma TierOrder(t: TrustTier, min: TrustTier)
    ensures MeetsTier(t, min) <==> exists i, j :: 0 <= j <= i < |TIERS| && TIERS[i] == t && TIERS[j] == min
  {
    if MeetsTier(t, min) {
      var i, j := TierRank(t).value, TierRank(min).value;
      assert 0 <= j <= i < |TIERS| && TIERS[i] == t && TIERS[j] == min;
    }
  }

  /** A policy without a minimum asks for a certified or official provider. */
  lemma MinimumTier(policy: MeshPolicy, t: TrustTier)
    ensures MeetsTier(t, MinTier(policy)) <==>
            if policy.minTrustTier.NoTier? then t.Certified? || t.Official? else MeetsTier(t, policy.minTrustTier)
  {
  }

  /** Without rules in conflict, the reason of each denial: the tier is below the minimum; a high
      risk without certified tier; a deny rule; no allow rule, and a risk that is medium without
      certified tier, or higher; high risk without consent. */
  lemma DenialReasons(v: View, client: ServiceId, c: CapabilityId, p: Provider, order: seq<string>)
    requires ScanOrder(v.policy.rules, order)
    requires !(SomeRule(v.policy.rules, Allow) && SomeRule(v.policy.rules, Deny))
    requires v.cache.Some? && c in v.cache.value
    ensures var risk, certified := v.cache.value[c].riskClass, p.trustTier.Certified? || p.trustTier.Official?;
            Judge(v, client, c, p, order) ==
            if !(if v.policy.minTrustTier.NoTier? then certified else MeetsTier(p.trustTier, v.policy.minTrustTier))
            then Refuse(TrustTierInsufficient)
            else if risk.High? && !certified then Refuse(ProvenanceMismatch)
            else if SomeRule(v.policy.rules, Deny) then Refuse(Reason.PolicyDenied)
            else if !SomeRule(v.policy.rules, Allow) && risk.Medium? && !certified then Refuse(TrustTierInsufficient)
            else if !SomeRule(v.policy.rules, Allow) && !risk.Low? && !risk.Medium? then Refuse(Reason.PolicyDenied)
            else if risk.High? && !(client in v.consents && c in v.consents[client] && v.consents[client][c])
            then Refuse(ConsentRequired)
            else Pass
  {
    OrderIrrelevant(v.policy.rules);
  }

  /** And the answer those give: an unknown capability, or no provider, is an error. */
  lemma AnswerReasons(v: View, req: BindingRequest, p: Option<Provider>, order: seq<string>, now: real)
    requires forall k :: k in order ==> k in v.policy.rules
    ensures var (buckets, answer) := Evaluate(v, req, p, order, now);
            && (answer.error <==> p.None? || v.cache.None? || req.capability !in v.cache.value)
            && (p.None? ==> answer.decision.Deny? && answer.reason.InternalError?)
            && (p.Some? && answer.error ==> answer.decision.Deny? && answer.reason.CapabilityUnknown?)
            && (answer.reason.RateLimited? <==>
                  && p.Some? && Judge(v, req.client, req.capability, p.value, order).Pass?
                  && req.rateLimit.Some? && req.rateLimit.value.rps > 0.0
                  && !CheckRate(v.buckets, req.client, req.capability, req.rateLimit.value.rps, now).1)
            && (answer.decision.Allow? <==> answer.reason.NoReason?)
            && (answer.decision.Allow? || answer.decision.Deny?)
  {
    if p.Some? {
      FirstDecisiveIs(v.policy.rules, order);
    }
  }

  /** Until a policy is given, a provider passes iff it is certified or official and the risk of
      the capability is low or medium. */
  lemma DefaultsPass(v: View, client: ServiceId, c: CapabilityId, p: Provider)
    requires v.policy == DEFAULT_POLICY && v.cache.Some? && c in v.cache.value
    ensures Judge(v, client, c, p, []).Pass? <==>
            && (p.trustTier.Certified? || p.trustTier.Official?)
            && (v.cache.value[c].riskClass.Low? || v.cache.value[c].riskClass.Medium?)
  {
  }
}
