/** The trust tier a request asks for. The evaluation does not read it; when a binding respects
    it all the same, and when not. */
module RequestedTier {
  import opened Basics
  import opened BindingSpec
  import opened MeshTypes
  import opened PolicySpec
  import Discovery
  import RegistryState

  /** The provider's tier reaches the one the request asks for, if it asks for one. */
  predicate MeetsRequested(req: BindingRequest, p: Provider) {
    req.minTrustTier.NoTier? || MeetsTier(p.trustTier, req.minTrustTier)
  }

  /** The minimum tier, raised to certified where nothing lower can pass. */
  function Raised(min: TrustTier, certified: bool): TrustTier {
    if certified && !MeetsTier(min, Certified) && TierRank(min).Some? then Certified else min
  }

  lemma RaisedIs(min: TrustTier, certified: bool, t: TrustTier)
    ensures MeetsTier(t, Raised(min, certified)) <==> MeetsTier(t, min) && (certified ==> MeetsTier(t, Certified))
  {
  }

  /** All tiers from `least` on reach the requested one iff `least` itself does, if any tier
      reaches `least` at all. */
  lemma LeastDecides(least: TrustTier, wanted: TrustTier)
    ensures (forall t :: MeetsTier(t, least) ==> MeetsTier(t, wanted)) <==>
            TierRank(least).None? || MeetsTier(least, wanted)
  {
    assert TierRank(least).Some? ==> MeetsTier(least, least);
  }

  // ----- one rule order -----

  predicate Known(e: PolicySpec.View, req: BindingRequest) {
    e.cache.Some? && req.capability in e.cache.value
  }

  function RiskOf(e: PolicySpec.View, req: BindingRequest): RiskClass
    requires Known(e, req)
  {
    e.cache.value[req.capability].riskClass
  }

  /** The lowest tier that can pass. */
  function LeastTier(e: PolicySpec.View, req: BindingRequest, order: seq<string>): TrustTier
    requires Known(e, req) && forall k :: k in order ==> k in e.policy.rules
  {
    Raised(MinTier(e.policy), RiskOf(e, req).High? ||
                              (RiskOf(e, req).Medium? && FirstDecisive(e.policy.rules, order).None?))
  }

  /** Apart from its tier, nothing keeps a provider from passing. */
  predicate Open(e: PolicySpec.View, req: BindingRequest, order: seq<string>)
    requires Known(e, req) && forall k :: k in order ==> k in e.policy.rules
  {
    var d := FirstDecisive(e.policy.rules, order);
    && d != Some(Deny)
    && (d.None? ==> RiskOf(e, req).Low? || RiskOf(e, req).Medium?)
    && (RiskOf(e, req).High? ==> ConsentOf(e.consents, req.client, req.capability))
  }

  lemma PassesFrom(e: PolicySpec.View, req: BindingRequest, p: Provider, order: seq<string>)
    requires Known(e, req) && forall k :: k in order ==> k in e.policy.rules
    ensures Passes(e, req, p, order) <==> Open(e, req, order) && MeetsTier(p.trustTier, LeastTier(e, req, order))
  {
    FirstDecisiveIs(e.policy.rules, order);
  }

  const SAMPLE := Provider("", "", "", "", NoTier, Endpoint("", "", 0), None, false)

  /** For a rule order: everything that passes has the requested tier iff the request asks for
      none, nothing can pass (the policy's minimum is not a tier, a deny rule comes first, the
      risk finds no allow rule, or consent is missing), or the lowest tier that can pass has it. */
  lemma TierRespected(e: PolicySpec.View, req: BindingRequest, order: seq<string>)
    requires Known(e, req) && forall k :: k in order ==> k in e.policy.rules
    ensures (forall p :: Passes(e, req, p, order) ==> MeetsRequested(req, p)) <==>
            || req.minTrustTier.NoTier?
            || !Open(e, req, order) || TierRank(MinTier(e.policy)).None?
            || MeetsTier(LeastTier(e, req, order), req.minTrustTier)
    ensures (forall p :: !Passes(e, req, p, order)) <==> !Open(e, req, order) || TierRank(MinTier(e.policy)).None?
  {
    var least := LeastTier(e, req, order);
    forall p
      ensures Passes(e, req, p, order) <==> Open(e, req, order) && MeetsTier(p.trustTier, least)
    {
      PassesFrom(e, req, p, order);
    }
    LeastDecides(least, req.minTrustTier);
    var lowest := SAMPLE.(trustTier := least);
    assert Open(e, req, order) && TierRank(least).Some? ==> Passes(e, req, lowest, order);
  }

  // ----- every rule order -----

  /** The lowest tier that can pass in some order. */
  ghost function LeastTierAnyOrder(e: PolicySpec.View, req: BindingRequest): TrustTier
    requires Known(e, req)
  {
    Raised(MinTier(e.policy),
           RiskOf(e, req).High? || (RiskOf(e, req).Medium? && !SomeRule(e.policy.rules, Allow)))
  }

  /** Apart from its tier, nothing keeps a provider from passing in some order. */
  ghost predicate OpenAnyOrder(e: PolicySpec.View, req: BindingRequest)
    requires Known(e, req)
  {
    if SomeRule(e.policy.rules, Allow) then
      RiskOf(e, req).High? ==> ConsentOf(e.consents, req.client, req.capability)
    else !SomeRule(e.policy.rules, Deny) && (RiskOf(e, req).Low? || RiskOf(e, req).Medium?)
  }

  /** Whatever can pass in some order has the requested tier. */
  ghost predicate Safe(e: PolicySpec.View, req: BindingRequest)
    requires Known(e, req)
  {
    || req.minTrustTier.NoTier?
    || !OpenAnyOrder(e, req) || TierRank(MinTier(e.policy)).None?
    || MeetsTier(LeastTierAnyOrder(e, req), req.minTrustTier)
  }

  lemma TierRespectedInEveryOrder(e: PolicySpec.View, req: BindingRequest)
    requires Known(e, req)
    ensures (forall p :: Passable(e, req, p) ==> MeetsRequested(req, p)) <==> Safe(e, req)
  {
    var least := LeastTierAnyOrder(e, req);
    forall p
      ensures Passable(e, req, p) <==> OpenAnyOrder(e, req) && MeetsTier(p.trustTier, least)
    {
      PassableExactly(e, req, p);
    }
    LeastDecides(least, req.minTrustTier);
    var lowest := SAMPLE.(trustTier := least);
    assert OpenAnyOrder(e, req) && TierRank(least).Some? ==> Passable(e, req, lowest);
  }

  /** Then every grant has it, whatever the registry, the rule orders and the times. */
  lemma GrantRespectsTier(r: RegistryState.View, e: PolicySpec.View, req: BindingRequest, orders: nat -> seq<string>,
                          checks: nat -> real)
    requires OrdersFit(e.policy.rules, orders) && Known(e, req) && Safe(e, req)
    ensures var d := Resolve(r, e, req, SortedFor(r, req), orders, checks);
            d.Granted? ==> MeetsRequested(req, d.provider)
  {
    var sorted := SortedFor(r, req);
    var f := FirstAllow(e, req, sorted, orders, checks);
    TierRespectedInEveryOrder(e, req);
    assert f.Some? ==> AllowFlags(e, req, sorted, orders, checks)[f.value];
    assert f.Some? ==> Passes(e, req, sorted[f.value], orders(f.value)) && Passable(e, req, sorted[f.value]);
  }

  // A case: without rules, a request that asks for the official tier.

  const CERTIFIED := NEAR.(trustTier := Certified)
  const CERTIFIED_REGISTRY := RegistryState.View(map[], map["client" := CLIENT], map["print" := [CERTIFIED]], PRINT)
  const OFFICIAL_REQUEST := BindingRequest("r", "client", "", "print", NoLocality, Official, 0, None)

  lemma CertifiedCandidate()
    ensures SortedFor(CERTIFIED_REGISTRY, OFFICIAL_REQUEST) == [CERTIFIED]
    ensures !MeetsRequested(OFFICIAL_REQUEST, CERTIFIED)
  {
    Discovery.SortOfOne(map[], "here", LanPreferred, CERTIFIED);
  }

  /** It is granted a certified provider. */
  lemma GrantBelowTier(orders: nat -> seq<string>, checks: nat -> real)
    requires OrdersFit(PLAIN_POLICY.policy.rules, orders)
    ensures SortedFor(CERTIFIED_REGISTRY, OFFICIAL_REQUEST) == [CERTIFIED]
    ensures Resolve(CERTIFIED_REGISTRY, PLAIN_POLICY, OFFICIAL_REQUEST, [CERTIFIED], orders, checks)
         == Granted(CERTIFIED)
    ensures !MeetsRequested(OFFICIAL_REQUEST, CERTIFIED)
  {
    CertifiedCandidate();
    CertifiedGranted(orders, checks);
  }

  lemma CertifiedGranted(orders: nat -> seq<string>, checks: nat -> real)
    requires OrdersFit(PLAIN_POLICY.policy.rules, orders)
    ensures Resolve(CERTIFIED_REGISTRY, PLAIN_POLICY, OFFICIAL_REQUEST, [CERTIFIED], orders, checks)
         == Granted(CERTIFIED)
  {
    var r, e, req := CERTIFIED_REGISTRY, PLAIN_POLICY, OFFICIAL_REQUEST;
    assert Passes(e, req, CERTIFIED, orders(0)) by {
      PrintPasses(e, req, CERTIFIED, orders(0));
    }
    HeadGranted(r, e, req, [CERTIFIED], orders, checks);
  }
}
