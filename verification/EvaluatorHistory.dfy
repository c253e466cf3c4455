/** Policy and consents equal their history: what the event consumer feeds the evaluator, and
    what that means for high-risk bindings. */
module EvaluatorHistory {
  import opened Basics
  import opened MeshTypes
  import opened PolicySpec
  import opened RegistryHistory
  import PolicyEvaluator

  /** consent_state.updated counts as consent for these two decisions only. */
  predicate MeansConsent(decision: string) {
    decision == "allow" || decision == "granted"
  }

  function PolicyAfter(p: MeshPolicy, b: Body): MeshPolicy {
    if b.PolicyLoaded? then b.policy else p
  }

  function ConsentsAfter(consents: Consents, b: Body): Consents {
    if b.ConsentUpdated? then
      PolicyEvaluator.WithConsent(consents, b.subject, b.capabilityId, MeansConsent(b.decision))
    else consents
  }

  /** The evaluator after an event; its buckets and its capability cache stay. */
  function EvaluatorAfter(v: View, b: Body): View {
    v.(policy := PolicyAfter(v.policy, b), consents := ConsentsAfter(v.consents, b))
  }

  function PolicyReplay(start: MeshPolicy, h: seq<Body>): MeshPolicy {
    if h == [] then start else PolicyAfter(PolicyReplay(start, h[..|h| - 1]), h[|h| - 1])
  }

  function ConsentsReplay(start: Consents, h: seq<Body>): Consents {
    if h == [] then start else ConsentsAfter(ConsentsReplay(start, h[..|h| - 1]), h[|h| - 1])
  }

  lemma ReplaysSnoc(policy: MeshPolicy, consents: Consents, h: seq<Body>, b: Body)
    ensures PolicyReplay(policy, h + [b]) == PolicyAfter(PolicyReplay(policy, h), b)
    ensures ConsentsReplay(consents, h + [b]) == ConsentsAfter(ConsentsReplay(consents, h), b)
  {
    assert (h + [b])[..|h|] == h;
  }

  predicate LastPolicy(h: seq<Body>, i: nat) {
    i < |h| && h[i].PolicyLoaded? && forall j :: i < j < |h| ==> !h[j].PolicyLoaded?
  }

  /** The policy is the last one loaded, and the first one until then. */
  lemma {:induction false} PolicyHistory(start: MeshPolicy, h: seq<Body>)
    ensures forall i: nat | LastPolicy(h, i) :: PolicyReplay(start, h) == h[i].policy
    ensures (forall i: nat :: !LastPolicy(h, i)) ==> PolicyReplay(start, h) == start
  {
    if h != [] {
      var k := |h| - 1;
      PolicyHistory(start, h[..k]);
      assert forall j :: 0 <= j < k ==> h[..k][j] == h[j];
      if h[k].PolicyLoaded? {
        assert LastPolicy(h, k);
      } else {
        assert forall i: nat :: LastPolicy(h, i) <==> LastPolicy(h[..k], i);
      }
    }
  }

  predicate UpdatesConsent(b: Body, subject: string, c: CapabilityId) {
    b.ConsentUpdated? && b.subject == subject && b.capabilityId == c
  }

  predicate GivesConsent(b: Body, subject: string, c: CapabilityId) {
    UpdatesConsent(b, subject, c) && (b.decision == "allow" || b.decision == "granted")
  }

  /** A pair has consent iff its latest update gave it, or it had it at first and none came. */
  lemma {:induction false} ConsentHistory(start: Consents, h: seq<Body>, subject: string, c: CapabilityId)
    ensures ConsentOf(ConsentsReplay(start, h), subject, c) <==>
            || Since(h, b => GivesConsent(b, subject, c), b => UpdatesConsent(b, subject, c))
            || (ConsentOf(start, subject, c) && forall i :: 0 <= i < |h| ==> !UpdatesConsent(h[i], subject, c))
  {
    if h != [] {
      var k := |h| - 1;
      ConsentHistory(start, h[..k], subject, c);
      SinceSnoc(h, b => GivesConsent(b, subject, c), b => UpdatesConsent(b, subject, c));
      assert (forall i :: 0 <= i < |h| ==> !UpdatesConsent(h[i], subject, c)) <==>
             !UpdatesConsent(h[k], subject, c) && forall i :: 0 <= i < k ==> !UpdatesConsent(h[..k][i], subject, c);
    }
  }

  /** High-risk safety, said of the events: if the handled events fed a new evaluator, a
      high-risk allow means that the client's latest consent update for the capability was an
      "allow" or "granted", that a policy was loaded and the last one has an allow rule, and
      that the provider is certified or official. */
  lemma EventsGovernHighRisk(h: seq<Body>, v: View, req: BindingRequest, p: Provider, order: seq<string>, now: real)
    requires v.policy == PolicyReplay(DEFAULT_POLICY, h) && v.consents == ConsentsReplay(map[], h)
    requires forall k :: k in order ==> k in v.policy.rules
    requires v.cache.Some? && req.capability in v.cache.value && v.cache.value[req.capability].riskClass.High?
    requires Evaluate(v, req, Some(p), order, now).1.decision.Allow?
    ensures Since(h, b => GivesConsent(b, req.client, req.capability),
                  b => UpdatesConsent(b, req.client, req.capability))
    ensures exists i: nat :: LastPolicy(h, i) && SomeRule(h[i].policy.rules, Allow)
    ensures MeetsTier(p.trustTier, Certified)
  {
    PolicyHistory(DEFAULT_POLICY, h);
    ConsentHistory(map[], h, req.client, req.capability);
    FirstDecisiveIs(v.policy.rules, order);
    assert Judge(v, req.client, req.capability, p, order).Pass?;
    assert SomeRule(v.policy.rules, Allow);
    var i: nat :| LastPolicy(h, i);
  }
}
