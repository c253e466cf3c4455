/** The binding engine: validation, candidate search, locality sort, first-accept loop, grant
    and audit record. */
module BindingEngine {
  import opened Basics
  import opened BindingSpec
  import opened MeshTypes
  import opened PolicySpec
  import Discovery
  import Grants
  import PolicyEvaluator
  import RegistryState
  import Telemetry
  import TokenBucket
  import TelemetrySpec

  datatype Response = Response(decision: Decision, reason: Reason, bindingId: string,
                               provider: Option<Provider>, grant: Option<Grants.Grant>)

  function DenyWith(req: BindingRequest, reason: Reason): Response {
    Response(Deny, reason, req.requestId, None, None)
  }

  function GrantRequestFor(req: BindingRequest, p: Provider): Grants.GrantRequest {
    Grants.GrantRequest(req.client, req.clientIdentity, p.serviceId, p.identity, req.capability, req.ttlMs)
  }

  predicate Validated(req: Option<BindingRequest>) {
    req.Some? && req.value.client != "" && req.value.capability != ""
  }

  /** The telemetry operation that a response stands for. */
  function AuditOp(req: BindingRequest, resp: Response, env: Env): TelemetrySpec.Op {
    match resp.grant
    case Some(g) =>
      TelemetrySpec.Grant(TelemetrySpec.AuditEvent(
          TelemetrySpec.Granted(g.id, req.client, g.provider, req.capability, g.expiresAt, g.createdAt), env.size),
        req.capability, env.recordedAt)
    case None =>
      TelemetrySpec.Deny(TelemetrySpec.AuditEvent(
          TelemetrySpec.Denied(req.requestId, req.client, req.capability, resp.reason, env.emittedAt), env.size),
        resp.reason, env.recordedAt)
  }

  function RevokeOp(id: string, reason: string, env: Env): TelemetrySpec.Op {
    TelemetrySpec.Revoke(
      TelemetrySpec.AuditEvent(TelemetrySpec.Revoked(id, reason, env.emittedAt), env.size), env.recordedAt)
  }

  /** The response that a resolution stands for. */
  function ResponseTo(req: BindingRequest, d: Resolution, env: Env): Response {
    match d
    case Denied(reason) => DenyWith(req, reason)
    case Granted(p) =>
      var g := Grants.NewGrant(GrantRequestFor(req, p), env.newId, env.issuedAt);
      Response(Allow, NoReason, g.id, Some(p), Some(g))
  }

  /** A grant to a provider without an ID cannot be issued. */
  function Issuable(choice: Resolution): Resolution {
    if choice.Granted? && choice.provider.serviceId == "" then Resolution.Denied(InternalError) else choice
  }

  function ChoiceOf(chosen: Option<nat>, sorted: seq<Provider>): Resolution
    requires chosen.Some? ==> chosen.value < |sorted|
  {
    if chosen.Some? then Resolution.Granted(sorted[chosen.value]) else Resolution.Denied(Reason.PolicyDenied)
  }

  /** A response and its grant in the terms of the request. */
  lemma ResponseSays(req: BindingRequest, d: Resolution, env: Env)
    ensures var resp := ResponseTo(req, d, env);
            match d
            case Denied(reason) =>
              && resp.decision.Deny? && resp.reason == reason && resp.bindingId == req.requestId
              && resp.provider.None? && resp.grant.None?
            case Granted(p) =>
              && resp.decision.Allow? && resp.reason.NoReason? && resp.bindingId == env.newId
              && resp.provider == Some(p) && resp.grant.Some? && GrantFor(resp.grant.value, req, p, env)
  {
  }

  /** The grant is for this client and provider, now, and for the time the request asks for. */
  predicate GrantFor(g: Grants.Grant, req: BindingRequest, p: Provider, env: Env) {
    && g.id == env.newId && g.client == req.client && g.clientIdentity == req.clientIdentity
    && g.provider == p.serviceId && g.providerIdentity == p.identity && g.capability == req.capability
    && g.createdAt == env.issuedAt && g.state.Active?
    && g.expiresAt == env.issuedAt + (if req.ttlMs == 0 then 3600.0 else req.ttlMs as real / 1000.0)
  }

  /** The audit content of an answer: of a denial its own reason, of a grant its own terms. */
  predicate IsContentOf(content: TelemetrySpec.Content, req: BindingRequest, resp: Response, env: Env) {
    if resp.grant.None? then
      content == TelemetrySpec.Denied(req.requestId, req.client, req.capability, resp.reason, env.emittedAt)
    else
      && resp.provider.Some?
      && content == TelemetrySpec.Granted(resp.bindingId, req.client, resp.provider.value.serviceId, req.capability,
                                          resp.grant.value.expiresAt, resp.grant.value.createdAt)
  }

  /** One more under `key`. */
  predicate OneMore<K>(now: map<K, nat>, was: map<K, nat>, key: K) {
    now == was[key := (if key in was then was[key] else 0) + 1]
  }

  /** The counters count this answer once, a denial under its own reason, a grant under its
      capability. */
  predicate CountsAnswer(now: TelemetrySpec.Counts, was: TelemetrySpec.Counts, req: BindingRequest, resp: Response) {
    && now.revoked == was.revoked
    && if resp.grant.None? then
         && now.denied == was.denied + 1 && OneMore(now.byReason, was.byReason, resp.reason)
         && now.granted == was.granted && now.byCapability == was.byCapability
       else
         && now.granted == was.granted + 1 && OneMore(now.byCapability, was.byCapability, req.capability)
         && now.denied == was.denied && now.byReason == was.byReason
  }

  /** The newest event in the buffer, if one of its size fits, has this content, size and time. */
  predicate NewestIs(events: seq<TelemetrySpec.Buffered>, content: TelemetrySpec.Content, env: Env, max: nat) {
    env.size.Some? && env.size.value <= max ==>
      && events != []
      && events[|events| - 1] == TelemetrySpec.Buffered(TelemetrySpec.AuditEvent(content, env.size), env.recordedAt)
  }

  lemma AuditSays(q: seq<TelemetrySpec.Buffered>, t: TelemetrySpec.Tally, req: BindingRequest, resp: Response, env: Env,
                  max: nat, interval: real)
    requires resp.grant.Some? ==>
               && resp.provider.Some? && resp.bindingId == resp.grant.value.id
               && resp.grant.value.provider == resp.provider.value.serviceId
    ensures exists content :: IsContentOf(content, req, resp, env) &&
              NewestIs(TelemetrySpec.LedgerStep(Telemetry.LedgerOf(q), t, AuditOp(req, resp, env), max, interval).queue,
                       content, env, max)
    ensures CountsAnswer(TelemetrySpec.TallyStep(t, AuditOp(req, resp, env), interval).counts, t.counts, req, resp)
  {
    var e := AuditOp(req, resp, env).event;
    assert IsContentOf(e.content, req, resp, env);
    if env.size.Some? && env.size.value <= max {
      var k := TelemetrySpec.RecordedLast(q, e, env.recordedAt, max);
    }
  }

  /** Why a request has no candidates, if it has none. */
  function ProblemOf(r: RegistryState.View, req: BindingRequest): Reason {
    if req.capability !in r.cache then CapabilityUnknown
    else if req.client !in r.services || SortedFor(r, req) == [] then NoProviderAvailable
    else NoReason
  }

  /** What a request is answered. */
  ghost function DecisionOn(r: RegistryState.View, e: PolicySpec.View, req: BindingRequest, env: Env): Resolution
    requires OrdersFit(e.policy.rules, env.orders)
  {
    Resolve(r, e, req, SortedFor(r, req), env.orders, env.checks)
  }

  /** Before which of its candidates a request is found cancelled, if it is. */
  ghost function StopOf(r: RegistryState.View, e: PolicySpec.View, req: BindingRequest, env: Env): Option<nat>
    requires OrdersFit(e.policy.rules, env.orders)
  {
    Stop(e, req, SortedFor(r, req), env)
  }

  /** The buckets a request leaves: those after the last rate check it reached. */
  ghost function BucketsLeft(r: RegistryState.View, e: PolicySpec.View, req: BindingRequest, env: Env)
    : map<string, TokenBucket.Bucket>
    requires OrdersFit(e.policy.rules, env.orders)
  {
    var sorted := SortedFor(r, req);
    BucketsAfter(e, req, sorted, env.orders, env.checks, Reached(e, req, sorted, env))
  }

  lemma WithCandidates(r: RegistryState.View, e: PolicySpec.View, req: BindingRequest, env: Env)
    requires OrdersFit(e.policy.rules, env.orders) && ProblemOf(r, req) == NoReason
    ensures var sorted := SortedFor(r, req);
            DecisionOn(r, e, req, env) == Issuable(ChoiceOf(FirstAllow(e, req, sorted, env.orders, env.checks), sorted))
  {
  }

  /** Without candidates nothing is evaluated: no cancellation is noticed, no bucket changes. */
  lemma WithoutCandidates(r: RegistryState.View, e: PolicySpec.View, req: BindingRequest, env: Env)
    requires OrdersFit(e.policy.rules, env.orders) && ProblemOf(r, req) != NoReason
    ensures DecisionOn(r, e, req, env) == Resolution.Denied(ProblemOf(r, req))
    ensures StopOf(r, e, req, env).None? && BucketsLeft(r, e, req, env) == e.buckets
  {
    assert SortedFor(r, req) == [];
  }

  class Engine {
    const registry: Discovery.Registry
    const policyEvaluator: PolicyEvaluator.Evaluator
    const grants: Grants.GrantManager
    const telemetryBuffer: Telemetry.Buffer
    const collector: Telemetry.Collector

    constructor (registry: Discovery.Registry, policyEvaluator: PolicyEvaluator.Evaluator,
                 telemetryBuffer: Telemetry.Buffer, collector: Telemetry.Collector)
      ensures this.registry == registry && this.policyEvaluator == policyEvaluator
      ensures this.telemetryBuffer == telemetryBuffer && this.collector == collector
      ensures fresh(grants) && grants.Valid() && grants.grants == map[]
    {
      this.registry, this.policyEvaluator := registry, policyEvaluator;
      this.telemetryBuffer, this.collector := telemetryBuffer, collector;
      grants := new Grants.GrantManager();
    }

    ghost predicate Valid()
      reads policyEvaluator, grants, telemetryBuffer
    {
      policyEvaluator.Valid() && grants.Valid() && telemetryBuffer.Valid()
    }

    /** The state that records of decisions go to. */
    ghost function Tally(): TelemetrySpec.Tally
      reads collector
    {
      TelemetrySpec.Tally(collector.Counts(), collector.lastSummary, 0, 0, 0)
    }

    /** Buffer and counters are as the telemetry operation `op` leaves them. */
    ghost predicate Audited(events: seq<TelemetrySpec.Buffered>, tally: TelemetrySpec.Tally, op: TelemetrySpec.Op)
      reads telemetryBuffer, collector
    {
      && telemetryBuffer.events ==
         TelemetrySpec.LedgerStep(Telemetry.LedgerOf(events), tally, op,
                                  telemetryBuffer.maxSizeBytes, collector.summaryInterval).queue
      && Tally() == TelemetrySpec.TallyStep(tally, op, collector.summaryInterval)
    }

    method EmitBindingGranted(grant: Grants.Grant, req: BindingRequest, provider: Provider, env: Env)
      requires telemetryBuffer.Valid() && grant.provider == provider.serviceId
      modifies telemetryBuffer, collector
      ensures telemetryBuffer.Valid()
      ensures var resp := Response(Allow, NoReason, grant.id, Some(provider), Some(grant));
              Audited(old(telemetryBuffer.events), old(Tally()), AuditOp(req, resp, env))
    {
      var _ := telemetryBuffer.RecordEvent(
        TelemetrySpec.AuditEvent(
          TelemetrySpec.Granted(grant.id, req.client, provider.serviceId, req.capability,
                                grant.expiresAt, grant.createdAt),
          env.size),
        env.recordedAt);
      collector.RecordBindingGranted(req.capability);
    }

    method EmitBindingDenied(req: BindingRequest, reason: Reason, env: Env)
      requires telemetryBuffer.Valid()
      modifies telemetryBuffer, collector
      ensures telemetryBuffer.Valid()
      ensures Audited(old(telemetryBuffer.events), old(Tally()), AuditOp(req, DenyWith(req, reason), env))
    {
      var _ := telemetryBuffer.RecordEvent(
        TelemetrySpec.AuditEvent(
          TelemetrySpec.Denied(req.requestId, req.client, req.capability, reason, env.emittedAt), env.size),
        env.recordedAt);
      collector.RecordBindingDenied(req.capability, reason);
    }

    /** The first `i` candidates were evaluated and none was allowed. */
    ghost predicate Walked(e: PolicySpec.View, req: BindingRequest, sorted: seq<Provider>, env: Env, i: nat)
      requires OrdersFit(e.policy.rules, env.orders) && i <= |sorted|
      reads policyEvaluator, policyEvaluator.rateLimiters.Values
    {
      && policyEvaluator.View() == e.(buckets := BucketsAfter(e, req, sorted, env.orders, env.checks, i))
      && NoneAllowed(e, req, sorted, env, i)
    }

    /** One round of the loop: candidate `i`. */
    method EvaluateNext(req: BindingRequest, sorted: seq<Provider>, env: Env, i: nat, ghost e: PolicySpec.View)
      returns (allowed: bool)
      requires Valid() && OrdersFit(e.policy.rules, env.orders) && Forward(env.checks)
      requires i < |sorted| && Walked(e, req, sorted, env, i)
      modifies policyEvaluator`rateLimiters, policyEvaluator.rateLimiters.Values
      ensures Valid() && fresh(policyEvaluator.rateLimiters.Values - old(policyEvaluator.rateLimiters.Values))
      ensures policyEvaluator.View() == e.(buckets := BucketsAfter(e, req, sorted, env.orders, env.checks, i + 1))
      ensures allowed == AllowFlags(e, req, sorted, env.orders, env.checks)[i]
      ensures !allowed ==> NoneAllowed(e, req, sorted, env, i + 1)
    {
      WalkStep(e, policyEvaluator.View(), req, sorted, env.orders, env.checks, i);
      var answer := policyEvaluator.EvaluateBinding(req, Some(sorted[i]), env.orders(i), env.checks(i));
      allowed := !answer.error && answer.decision.Allow?;
    }

    /** Step 5: the candidates in order, up to the first allowed one or a cancellation. */
    method FirstAllowed(req: BindingRequest, sorted: seq<Provider>, env: Env)
      returns (chosen: Option<nat>, cancelled: bool)
      requires Valid() && OrdersFit(policyEvaluator.policy.rules, env.orders) && Forward(env.checks)
      modifies policyEvaluator`rateLimiters, policyEvaluator.rateLimiters.Values
      ensures Valid() && fresh(policyEvaluator.rateLimiters.Values - old(policyEvaluator.rateLimiters.Values))
      ensures var e := old(policyEvaluator.View());
              && cancelled == Stop(e, req, sorted, env).Some?
              && chosen == (if cancelled then None else FirstAllow(e, req, sorted, env.orders, env.checks))
              && policyEvaluator.Buckets()
                 == BucketsAfter(e, req, sorted, env.orders, env.checks, Reached(e, req, sorted, env))
    {
      ghost var e := policyEvaluator.View();
      for i := 0 to |sorted|
        invariant Valid() && fresh(policyEvaluator.rateLimiters.Values - old(policyEvaluator.rateLimiters.Values))
        invariant Walked(e, req, sorted, env, i)
        invariant NotStopped(env, i)
      {
        if StopsBefore(env, i) {
          StopsAt(e, req, sorted, env, i);
          return None, true;
        }
        var allowed := EvaluateNext(req, sorted, env, i, e);
        if allowed {
          EndsAt(e, req, sorted, env, i);
          return Some(i), false;
        }
      }
      EndsWithout(e, req, sorted, env);
      return None, false;
    }

    /** Steps 1 to 4: the candidates nearest first, or the reason there are none. */
    method FindCandidates(req: BindingRequest) returns (sorted: seq<Provider>, problem: Reason)
      ensures sorted == SortedFor(registry.View(), req) && problem == ProblemOf(registry.View(), req)
    {
      if req.capability !in registry.cache {
        return [], CapabilityUnknown;
      }
      if req.client !in registry.services {
        return [], NoProviderAvailable;
      }
      var candidates := registry.GetProviders(req.capability);
      if |candidates| == 0 {
        Discovery.SortOfNone(registry.members, registry.services[req.client].nodeId, Preference(req));
        return [], NoProviderAvailable;
      }
      var preference := if req.locality.NoLocality? then LanPreferred else req.locality;
      sorted := registry.SortProvidersByLocality(candidates, registry.services[req.client].nodeId, preference);
      problem := if |sorted| == 0 then NoProviderAvailable else NoReason;
    }

    /** The request was answered as decided, with one audit record. */
    ghost predicate Answered(d: Resolution, events: seq<TelemetrySpec.Buffered>, tally: TelemetrySpec.Tally,
                             req: BindingRequest, resp: Response, env: Env)
      reads telemetryBuffer, collector
    {
      resp == ResponseTo(req, d, env) && Audited(events, tally, AuditOp(req, resp, env))
    }

    /** Buffer and counters show this answer. */
    ghost predicate AnswerRecorded(counts: TelemetrySpec.Counts, req: BindingRequest, resp: Response, env: Env)
      reads telemetryBuffer, collector
    {
      && CountsAnswer(collector.Counts(), counts, req, resp)
      && exists content :: IsContentOf(content, req, resp, env)
                           && NewestIs(telemetryBuffer.events, content, env, telemetryBuffer.maxSizeBytes)
    }

    /** Step 6: issues the grant, if one was decided, and records the outcome. */
    method Answer(req: BindingRequest, choice: Resolution, env: Env) returns (resp: Response)
      requires Valid() && req.client != "" && req.capability != ""
      modifies grants, telemetryBuffer, collector
      ensures Valid() && policyEvaluator.Buckets() == old(policyEvaluator.Buckets())
      ensures Answered(Issuable(choice), old(telemetryBuffer.events), old(Tally()), req, resp, env)
      ensures AnswerRecorded(old(collector.Counts()), req, resp, env)
      ensures grants.grants == if resp.grant.Some? then old(grants.grants)[env.newId := resp.grant.value]
                               else old(grants.grants)
    {
      ghost var events, tally := telemetryBuffer.events, Tally();
      if choice.Denied? {
        EmitBindingDenied(req, choice.reason, env);
        AuditSays(events, tally, req, DenyWith(req, choice.reason), env,
                  telemetryBuffer.maxSizeBytes, collector.summaryInterval);
        return DenyWith(req, choice.reason);
      }
      var grant := grants.IssueGrant(Some(GrantRequestFor(req, choice.provider)), env.newId, env.issuedAt);
      if grant.None? {
        EmitBindingDenied(req, InternalError, env);
        AuditSays(events, tally, req, DenyWith(req, InternalError), env,
                  telemetryBuffer.maxSizeBytes, collector.summaryInterval);
        return DenyWith(req, InternalError);
      }
      EmitBindingGranted(grant.value, req, choice.provider, env);
      resp := Response(Allow, NoReason, grant.value.id, Some(choice.provider), grant);
      AuditSays(events, tally, req, resp, env,
                  telemetryBuffer.maxSizeBytes, collector.summaryInterval);
    }

    /** Nothing was recorded and nothing granted. */
    twostate predicate Untouched()
      reads telemetryBuffer, collector, grants
    {
      && telemetryBuffer.events == old(telemetryBuffer.events)
      && Tally() == old(Tally())
      && grants.grants == old(grants.grants)
    }

    /** The buckets show exactly the rate checks that the request reached. */
    ghost predicate Charged(r: RegistryState.View, e: PolicySpec.View, req: BindingRequest, env: Env)
      requires OrdersFit(e.policy.rules, env.orders)
      reads policyEvaluator, policyEvaluator.rateLimiters.Values
    {
      policyEvaluator.Buckets() == BucketsLeft(r, e, req, env)
    }

    /** Steps 1 to 5: the provider to grant, or the reason to deny. */
    method Decide(req: BindingRequest, env: Env) returns (choice: Resolution, cancelled: bool)
      requires Valid() && OrdersFit(policyEvaluator.policy.rules, env.orders) && Forward(env.checks)
      modifies policyEvaluator`rateLimiters, policyEvaluator.rateLimiters.Values
      ensures Valid() && fresh(policyEvaluator.rateLimiters.Values - old(policyEvaluator.rateLimiters.Values))
      ensures var r, e := registry.View(), old(policyEvaluator.View());
              && cancelled == StopOf(r, e, req, env).Some?
              && (!cancelled ==> Issuable(choice) == DecisionOn(r, e, req, env))
              && Charged(r, e, req, env)
    {
      ghost var r, e := registry.View(), policyEvaluator.View();
      var sorted, problem := FindCandidates(req);
      assert policyEvaluator.View() == e;
      if problem != NoReason {
        WithoutCandidates(r, e, req, env);
        return Resolution.Denied(problem), false;
      }
      WithCandidates(r, e, req, env);
      var chosen;
      chosen, cancelled := FirstAllowed(req, sorted, env);
      choice := ChoiceOf(chosen, sorted);
    }

    /** The request was found cancelled; it is denied, and nothing recorded or granted. */
    twostate predicate Abandoned(req: BindingRequest, resp: Response)
      reads telemetryBuffer, collector, grants
    {
      resp == DenyWith(req, InternalError) && Untouched()
    }

    /** Steps 1 to 6 for a validated request. */
    method ResolveRequest(req: BindingRequest, env: Env) returns (resp: Response)
      requires Valid() && OrdersFit(policyEvaluator.policy.rules, env.orders) && Forward(env.checks)
      requires Validated(Some(req))
      modifies policyEvaluator`rateLimiters, policyEvaluator.rateLimiters.Values, grants, telemetryBuffer, collector
      ensures Valid() && fresh(policyEvaluator.rateLimiters.Values - old(policyEvaluator.rateLimiters.Values))
      ensures Charged(registry.View(), old(policyEvaluator.View()), req, env)
      ensures if StopOf(registry.View(), old(policyEvaluator.View()), req, env).Some? then Abandoned(req, resp)
              else && Answered(DecisionOn(registry.View(), old(policyEvaluator.View()), req, env),
                               old(telemetryBuffer.events), old(Tally()), req, resp, env)
                   && AnswerRecorded(old(collector.Counts()), req, resp, env)
      ensures grants.grants == if resp.grant.Some? then old(grants.grants)[env.newId := resp.grant.value]
                               else old(grants.grants)
    {
      var choice, cancelled := Decide(req, env);
      if cancelled {
        return DenyWith(req, InternalError);
      }
      resp := Answer(req, choice, env);
    }

    /** Every validated request that is not cancelled is answered as decided and leaves exactly
        one audit record, of its own outcome; one found cancelled before some candidate's
        evaluation is denied and leaves neither record nor grant, as does a rejected one. The
        buckets are those after the last rate check reached. */
    method RequestBinding(request: Option<BindingRequest>, env: Env) returns (resp: Response)
      requires Valid() && OrdersFit(policyEvaluator.policy.rules, env.orders) && Forward(env.checks)
      modifies policyEvaluator`rateLimiters, policyEvaluator.rateLimiters.Values, grants, telemetryBuffer, collector
      ensures Valid() && fresh(policyEvaluator.rateLimiters.Values - old(policyEvaluator.rateLimiters.Values))
      ensures Validated(request) && !env.cancelled(0) ==>
                var r, e, req := registry.View(), old(policyEvaluator.View()), request.value;
                && Charged(r, e, req, env)
                && if StopOf(r, e, req, env).Some? then Abandoned(req, resp)
                   else && Answered(DecisionOn(r, e, req, env), old(telemetryBuffer.events), old(Tally()), req, resp,
                                    env)
                        && AnswerRecorded(old(collector.Counts()), req, resp, env)
      ensures !Validated(request) || env.cancelled(0) ==>
                && resp.decision.Deny? && resp.reason.InternalError? && resp.grant.None? && Untouched()
                && policyEvaluator.Buckets() == old(policyEvaluator.Buckets())
      ensures grants.grants == if resp.grant.Some? then old(grants.grants)[env.newId := resp.grant.value]
                               else old(grants.grants)
    {
      if request.None? {
        return Response(Deny, InternalError, "", None, None);
      }
      var req := request.value;
      if req.client == "" || req.capability == "" {
        return DenyWith(req, InternalError);
      }
      if env.cancelled(0) {
        return DenyWith(req, InternalError);
      }
      resp := ResolveRequest(req, env);
    }

    /** Revokes a stored grant and records it; an unknown one is an error and records nothing. */
    method RevokeBinding(id: string, reason: string, env: Env) returns (ok: bool)
      requires Valid()
      modifies grants, telemetryBuffer, collector
      ensures Valid() && ok == (id != "" && id in old(grants.grants))
      ensures grants.grants == Grants.Perform(old(grants.grants), Grants.Revoke(id, reason))
      ensures ok ==> Audited(old(telemetryBuffer.events), old(Tally()), RevokeOp(id, reason, env))
      ensures ok ==>
                && collector.bindingsRevoked == old(collector.bindingsRevoked) + 1
                && NewestIs(telemetryBuffer.events, TelemetrySpec.Revoked(id, reason, env.emittedAt), env,
                            telemetryBuffer.maxSizeBytes)
      ensures ok ==>
                grants.grants[id] == old(grants.grants)[id].(state := Grants.GrantState.Revoked, lastError := reason)
      ensures !ok ==> telemetryBuffer.events == old(telemetryBuffer.events) && Tally() == old(Tally())
    {
      ok := grants.RevokeGrant(id, reason);
      if !ok {
        return;
      }
      ghost var events, event := telemetryBuffer.events, RevokeOp(id, reason, env).event;
      if env.size.Some? && env.size.value <= telemetryBuffer.maxSizeBytes {
        var k := TelemetrySpec.RecordedLast(events, event, env.recordedAt, telemetryBuffer.maxSizeBytes);
      }
      var _ := telemetryBuffer.RecordEvent(
        TelemetrySpec.AuditEvent(TelemetrySpec.Revoked(id, reason, env.emittedAt), env.size), env.recordedAt);
      collector.RecordBindingRevoked();
    }
  }
}
