/** The event consumer object: resumption points, the bounded channel, the sequence filter and
    the handlers that update registry and evaluator. */
module EventConsumer {
  import opened Basics
  import opened EvaluatorHistory
  import opened MeshTypes
  import opened RegistryState
  import Discovery
  import EventStream
  import PolicyEvaluator
  import PolicySpec
  import RegistryHistory
  import TokenBucket

  function Bodies(es: seq<Event>): seq<Body> {
    seq(|es|, i requires 0 <= i < |es| => es[i].body)
  }

  datatype Feed = NoEvaluator | Feed(view: PolicySpec.View, limiters: map<string, TokenBucket.RateLimiter>)

  function FeedAfter(f: Feed, b: Body): Feed {
    if f.NoEvaluator? then f else f.(view := EvaluatorAfter(f.view, b))
  }

  lemma NotForEvaluator(f: Feed, b: Body)
    requires !b.PolicyLoaded? && !b.ConsentUpdated?
    ensures FeedAfter(f, b) == f
  {
  }

  lemma NotForRegistry(v: View, b: Body)
    requires b.PolicyLoaded? || b.ConsentUpdated? || b.Undecodable? || b.Registered? || b.Ignored?
    ensures Apply(v, b) == v
  {
  }

  class EventConsumer {
    const registry: Discovery.Registry
    const policy: PolicyEvaluator.Evaluator?
    var nodeSequences: map<NodeId, nat>
    var received: Option<Event>
    var eventCh: seq<Event>
    ghost var handled: seq<Event>
    ghost var skipped: seq<Event>
    ghost const startPolicy: MeshPolicy
    ghost const startConsents: Consents

    /** The registry is the replay of the events handled so far, and so are the evaluator's
        policy and consents, from what they were when it was handed over. */
    ghost predicate Valid()
      reads this, registry, policy
    {
      && registry.Valid()
      && registry.View() == Replay(Bodies(handled))
      && (policy != null ==> policy.Valid() && Fed(policy.policy, policy.consentStates))
    }

    ghost predicate Fed(p: MeshPolicy, consents: Consents)
      reads this
    {
      && p == PolicyReplay(startPolicy, Bodies(handled))
      && consents == ConsentsReplay(startConsents, Bodies(handled))
    }

    /** This object is the consumer's part of the protocol state `s`. */
    ghost predicate Represents(s: EventStream.State)
      reads this
    {
      s.nodeSequences == nodeSequences && s.hand == received && s.eventCh == eventCh
      && s.handled == handled && s.skipped == skipped
    }

    constructor (policy: PolicyEvaluator.Evaluator?)
      requires policy != null ==> policy.Valid()
      ensures Valid() && fresh(registry) && this.policy == policy
      ensures policy != null ==> startPolicy == policy.policy && startConsents == policy.consentStates
      ensures Represents(EventStream.Init())
    {
      this.policy := policy;
      startPolicy := if policy == null then PolicySpec.DEFAULT_POLICY else policy.policy;
      startConsents := if policy == null then map[] else policy.consentStates;
      registry := new Discovery.Registry();
      nodeSequences, received, eventCh, handled, skipped := map[], None, [], [], [];
    }

    /** A copy of the sequence map, for the stream request. */
    method GetLastSeenSeq() returns (m: map<NodeId, nat>)
      ensures m == nodeSequences
    {
      m := map[];
      var rest := nodeSequences.Keys;
      while rest != {}
        invariant rest <= nodeSequences.Keys
        invariant m == map n | n in nodeSequences && n !in rest :: nodeSequences[n]
      {
        var n :| n in rest;
        rest := rest - {n};
        m := m[n := nodeSequences[n]];
      }
    }

    /** The stream request after a dial: resumes from the sequence numbers handled so far. */
    method RequestStream(ghost s: EventStream.State) returns (lastSeen: map<NodeId, nat>)
      requires Represents(s) && EventStream.Enabled(s, EventStream.Dial)
      ensures EventStream.Apply(s, EventStream.Dial).link == EventStream.Requested(lastSeen)
      ensures Represents(EventStream.Apply(s, EventStream.Dial))
    {
      lastSeen := GetLastSeenSeq();
    }

    /** consumeStream, first half: the next event of node `n` arrives. */
    method Receive(event: Event, ghost s: EventStream.State, ghost n: NodeId)
      requires Represents(s) && EventStream.Enabled(s, EventStream.Recv(n))
      requires event == EventStream.Log(s, n)[EventStream.Cursor(s, n)]
      modifies this`received
      ensures Represents(EventStream.Apply(s, EventStream.Recv(n)))
    {
      received := Some(event);
    }

    /** consumeStream, second half: the received event enters the channel once there is room. */
    method Push(ghost s: EventStream.State)
      requires Represents(s) && received.Some? && |eventCh| < EventStream.BUFFER_SIZE
      modifies this`received, this`eventCh
      ensures Represents(EventStream.Apply(s, EventStream.Push))
    {
      eventCh := eventCh + [received.value];
      received := None;
    }

    /** One round of processEventLoop: takes the oldest event and handles it unless its
        sequence number was already seen. The protocol makes its Process step, the registry
        changes exactly as the event says, or not at all. */
    method Process(ghost s: EventStream.State) returns (ok: bool)
      requires Valid() && Represents(s) && eventCh != []
      modifies this, registry, policy
      ensures Valid() && Represents(EventStream.Apply(s, EventStream.Process))
      ensures registry.View() == if EventStream.Stale(old(nodeSequences), old(eventCh)[0]) then old(registry.View())
                                 else Apply(old(registry.View()), old(eventCh)[0].body)
      ensures Evaluator() == if EventStream.Stale(old(nodeSequences), old(eventCh)[0]) then old(Evaluator())
                             else FeedAfter(old(Evaluator()), old(eventCh)[0].body)
      ensures ok <==> EventStream.Stale(old(nodeSequences), old(eventCh)[0]) || !HandlingFails(old(eventCh)[0].body)
    {
      var event := eventCh[0];
      eventCh := eventCh[1..];
      ok := HandleEvent(event);
    }

    /** Filters by sequence number, records the number, then dispatches on the event's content. */
    method HandleEvent(event: Event) returns (ok: bool)
      requires Valid()
      modifies this`nodeSequences, this`handled, this`skipped, registry, policy
      ensures Valid()
      ensures EventStream.Stale(old(nodeSequences), event) ==>
                && ok && nodeSequences == old(nodeSequences) && handled == old(handled)
                && skipped == old(skipped) + [event] && registry.View() == old(registry.View())
                && Evaluator() == old(Evaluator())
      ensures !EventStream.Stale(old(nodeSequences), event) ==>
                && nodeSequences == old(nodeSequences)[event.node := event.seqNo]
                && handled == old(handled) + [event] && skipped == old(skipped)
                && registry.View() == Apply(old(registry.View()), event.body)
                && Evaluator() == FeedAfter(old(Evaluator()), event.body)
                && (ok <==> !HandlingFails(event.body))
    {
      var lastSeq := EventStream.LastSeq(nodeSequences, event.node);
      if event.seqNo <= lastSeq && lastSeq > 0 {
        skipped := skipped + [event];
        return true;
      }
      nodeSequences := nodeSequences[event.node := event.seqNo];
      ok := HandleNew(event);
    }

    method HandleNew(event: Event) returns (ok: bool)
      requires Valid()
      modifies this`handled, registry, policy
      ensures Valid() && handled == old(handled) + [event]
      ensures registry.View() == Apply(old(registry.View()), event.body)
      ensures Evaluator() == FeedAfter(old(Evaluator()), event.body)
      ensures ok <==> !HandlingFails(event.body)
    {
      ghost var before := Bodies(handled);
      ApplyValid(registry.View(), event.body);
      ok := Dispatch(event.body);
      handled := handled + [event];
      assert Bodies(handled) == before + [event.body];
      RegistryHistory.ReplaySnoc(before, event.body);
      ReplaysSnoc(startPolicy, startConsents, before, event.body);
    }

    /** What the consumer's events reach of the evaluator, and its limiters, which they do not. */
    ghost function Evaluator(): Feed
      reads policy, if policy == null then {} else policy.rateLimiters.Values
    {
      if policy == null then NoEvaluator else Feed(policy.View(), policy.rateLimiters)
    }

    method Dispatch(b: Body) returns (ok: bool)
      requires registry.Valid() && (policy != null ==> policy.Valid())
      modifies registry, policy
      ensures registry.View() == Apply(old(registry.View()), b)
      ensures (policy != null ==> policy.Valid()) && Evaluator() == FeedAfter(old(Evaluator()), b)
      ensures ok <==> !HandlingFails(b)
    {
      if b.PolicyLoaded? || b.ConsentUpdated? {
        NotForRegistry(registry.View(), b);
        UpdateEvaluator(b);
        return true;
      }
      NotForEvaluator(Evaluator(), b);
      if b.Undecodable? || b.Registered? || b.Ignored? {
        NotForRegistry(registry.View(), b);
        return b.Ignored? || (b.Registered? && b.succeeds);
      }
      UpdateRegistry(b);
      ok := true;
    }

    /** Policy and consent updates, for the evaluator if there is one. */
    method UpdateEvaluator(b: Body)
      requires (b.PolicyLoaded? || b.ConsentUpdated?) && (policy != null ==> policy.Valid())
      modifies policy
      ensures (policy != null ==> policy.Valid()) && Evaluator() == FeedAfter(old(Evaluator()), b)
    {
      if policy != null {
        if b.PolicyLoaded? {
          var _ := policy.UpdatePolicy(Some(b.policy));
        } else {
          policy.UpdateConsent(b.subject, b.capabilityId, b.decision == "allow" || b.decision == "granted");
        }
      }
    }

    method UpdateRegistry(b: Body)
      requires registry.Valid()
      modifies registry
      ensures registry.View() == Apply(old(registry.View()), b)
    {
      match b {
        case Snapshot(members) => HandleClusterSnapshot(members);
        case MemberJoined(m) => registry.AddOrUpdateMember(m.(status := "healthy"));
        case MemberUpdated(n, endpoints, tags, status) =>
          if n in registry.members {
            registry.AddOrUpdateMember(UpdateMember(registry.members[n], endpoints, tags, status));
          }
        case MemberLeft(n) => registry.RemoveMember(n);
        case MemberHealth(n, status) =>
          if n in registry.members {
            registry.AddOrUpdateMember(registry.members[n].(status := status));
          }
        case ServiceStarted(st) => HandleServiceStarted(st);
        case ServiceUpdated(s, endpoints, labels) =>
          if s in registry.services {
            registry.AddOrUpdateService(UpdateService(registry.services[s], endpoints, labels));
          }
        case ServiceStopped(s) => registry.RemoveService(s);
        case CacheLoaded(capabilities) => registry.ReplaceCapabilityCache(capabilities);
        case IdentityIssued(s, id) =>
          if s in registry.services {
            registry.AddOrUpdateService(registry.services[s].(identity := id));
          }
          ReidentifyProviders(s, id, false);
        case IdentityRevoked(s) =>
          if s in registry.services {
            registry.AddOrUpdateService(registry.services[s].(identity := "", status := "identity_revoked"));
          }
          ReidentifyProviders(s, "", true);
        case _ =>
      }
    }

    method HandleClusterSnapshot(members: seq<Member>)
      modifies registry
      ensures registry.View() == Apply(old(registry.View()), Snapshot(members))
    {
      registry.Clear();
      ghost var cleared := registry.View();
      for i := 0 to |members|
        invariant registry.View() == cleared.(members := AddMembers(map[], members[..i]))
      {
        assert members[..i + 1][..i] == members[..i];
        registry.AddOrUpdateMember(members[i]);
      }
      assert members[..|members|] == members;
    }

    /** Adds the service, then one provider per capability and endpoint; for each capability the
        last endpoint stays. */
    method HandleServiceStarted(st: Started)
      modifies registry
      ensures registry.View() == Apply(old(registry.View()), ServiceStarted(st))
    {
      registry.AddOrUpdateService(NewService(st));
      ghost var base := registry.View();
      for i := 0 to |st.capabilities|
        invariant registry.View() == base.(providers := AddCapabilities(base.providers, st, st.capabilities[..i]))
      {
        assert st.capabilities[..i + 1][..i] == st.capabilities[..i];
        AddProviders(st, st.capabilities[i]);
      }
      assert st.capabilities[..|st.capabilities|] == st.capabilities;
    }

    /** One provider per endpoint, each taking the place of the one before. */
    method AddProviders(st: Started, c: CapabilityId)
      modifies registry
      ensures registry.View() ==
              old(registry.View()).(providers := AddEndpoints(old(registry.providers), st, c, st.endpoints))
    {
      ghost var base := registry.View();
      for j := 0 to |st.endpoints|
        invariant registry.View() == base.(providers := AddEndpoints(base.providers, st, c, st.endpoints[..j]))
      {
        assert st.endpoints[..j + 1][..j] == st.endpoints[..j];
        registry.AddOrUpdateProvider(c, NewProvider(st, c, st.endpoints[j]));
      }
      assert st.endpoints[..|st.endpoints|] == st.endpoints;
    }

    /** Walks all providers and rewrites those of `s`, as an identity issue or revocation does. */
    method ReidentifyProviders(s: ServiceId, identity: string, revoked: bool)
      requires IndexValid(registry.providers)
      modifies registry
      ensures registry.View() ==
              old(registry.View()).(providers := ReidentifyAll(old(registry.providers), s, identity, revoked))
    {
      var all := registry.providers;
      ghost var base := registry.View();
      var rest := all.Keys;
      ReidentifyEnds(all, s, identity, revoked);
      while rest != {}
        invariant rest <= all.Keys
        invariant registry.View() == base.(providers := ReidentifyExcept(all, rest, s, identity, revoked))
      {
        var c :| c in rest;
        ReidentifyCapability(c, s, identity, revoked);
        ReidentifyOneMore(all, rest, c, s, identity, revoked);
        rest := rest - {c};
      }
    }

    method ReidentifyCapability(c: CapabilityId, s: ServiceId, identity: string, revoked: bool)
      requires c in registry.providers && NoRepeats(registry.providers[c])
      modifies registry
      ensures registry.View() == old(registry.View()).(providers :=
                old(registry.providers)[c := ReidentifyList(old(registry.providers)[c], s, identity, revoked)])
    {
      var list := registry.providers[c];
      ghost var base := registry.View();
      assert ReidentifyPart(list, 0, s, identity, revoked) == list;
      assert base.providers[c := ReidentifyPart(list, 0, s, identity, revoked)] == base.providers;
      for i := 0 to |list|
        invariant registry.View() ==
                  base.(providers := base.providers[c := ReidentifyPart(list, i, s, identity, revoked)])
      {
        ReidentifyStep(list, i, s, identity, revoked);
        var p := list[i];
        if p.serviceId == s {
          var q := if revoked then p.(identity := "", available := false) else p.(identity := identity);
          registry.AddOrUpdateProvider(c, q);
          assert registry.providers == base.providers[c := ReidentifyPart(list, i + 1, s, identity, revoked)];
        }
      }
      assert ReidentifyPart(list, |list|, s, identity, revoked) == ReidentifyList(list, s, identity, revoked);
    }
  }

  /** The first `i` entries rewritten. */
  ghost function ReidentifyPart(list: seq<Provider>, i: nat, s: ServiceId, identity: string,
                                revoked: bool): seq<Provider>
    requires i <= |list|
  {
    ReidentifyList(list, s, identity, revoked)[..i] + list[i..]
  }

  lemma ReidentifyPartGrows(list: seq<Provider>, i: nat, s: ServiceId, identity: string, revoked: bool)
    requires i < |list|
    ensures ReidentifyPart(list, i + 1, s, identity, revoked)
         == ReidentifyPart(list, i, s, identity, revoked)[i := Reidentify(list[i], s, identity, revoked)]
  {
  }

  lemma ReidentifyPartServices(list: seq<Provider>, i: nat, s: ServiceId, identity: string, revoked: bool)
    requires i <= |list| && NoRepeats(list)
    ensures NoRepeats(ReidentifyPart(list, i, s, identity, revoked))
    ensures i < |list| ==> ReidentifyPart(list, i, s, identity, revoked)[i] == list[i]
  {
    var now := ReidentifyPart(list, i, s, identity, revoked);
    assert forall k :: 0 <= k < |now| ==> now[k].serviceId == list[k].serviceId;
  }

  lemma ReidentifyStep(list: seq<Provider>, i: nat, s: ServiceId, identity: string, revoked: bool)
    requires i < |list| && NoRepeats(list)
    ensures list[i].serviceId == s ==>
              Upsert(ReidentifyPart(list, i, s, identity, revoked), Reidentify(list[i], s, identity, revoked))
              == ReidentifyPart(list, i + 1, s, identity, revoked)
    ensures list[i].serviceId != s ==>
              ReidentifyPart(list, i, s, identity, revoked) == ReidentifyPart(list, i + 1, s, identity, revoked)
  {
    var now := ReidentifyPart(list, i, s, identity, revoked);
    ReidentifyPartGrows(list, i, s, identity, revoked);
    ReidentifyPartServices(list, i, s, identity, revoked);
    UpsertInPlace(now, i, Reidentify(list[i], s, identity, revoked));
  }

  ghost function ReidentifyExcept(providers: ProviderIndex, rest: set<CapabilityId>, s: ServiceId,
                                  identity: string, revoked: bool): ProviderIndex
  {
    map c | c in providers :: if c in rest then providers[c] else ReidentifyList(providers[c], s, identity, revoked)
  }

  lemma ReidentifyOneMore(all: ProviderIndex, rest: set<CapabilityId>, c: CapabilityId, s: ServiceId,
                          identity: string, revoked: bool)
    requires c in rest && rest <= all.Keys
    ensures ReidentifyExcept(all, rest, s, identity, revoked)[c := ReidentifyList(all[c], s, identity, revoked)]
         == ReidentifyExcept(all, rest - {c}, s, identity, revoked)
  {
  }

  lemma ReidentifyEnds(all: ProviderIndex, s: ServiceId, identity: string, revoked: bool)
    ensures ReidentifyExcept(all, all.Keys, s, identity, revoked) == all
    ensures ReidentifyExcept(all, {}, s, identity, revoked) == ReidentifyAll(all, s, identity, revoked)
  {
  }

  // ----- reconnecting -----

  const INITIAL_BACKOFF: nat := 1
  const MAX_BACKOFF: nat := 300

  /** One round of the reconnect loop: it finds at its head that it is to stop, or tries. */
  datatype Attempt = StopSeen | DialFailed | StreamRefused | StreamEnded(cancelled: bool)

  predicate EndsLoop(a: Attempt) { a.StopSeen? || a == StreamEnded(true) }

  function Pow2(k: nat): nat { if k == 0 then 1 else 2 * Pow2(k - 1) }

  /** Attempts since the last one that opened a stream; 0 for such an attempt itself. */
  function SinceOpen(attempts: seq<Attempt>, i: nat): nat
    requires i < |attempts|
  {
    if attempts[i].StreamEnded? || i == 0 then 0 else SinceOpen(attempts, i - 1) + 1
  }

  function CappedBackoff(k: nat): nat { if Pow2(k) < MAX_BACKOFF then Pow2(k) else MAX_BACKOFF }

  lemma BackoffDoubles(k: nat)
    ensures CappedBackoff(k + 1) == if 2 * CappedBackoff(k) < MAX_BACKOFF then 2 * CappedBackoff(k) else MAX_BACKOFF
  {
  }

  /** Each wait is min(2^k, 300) seconds, k counting the attempts since the last opened stream. */
  ghost predicate WaitsFit(attempts: seq<Attempt>, waits: seq<nat>) {
    && |waits| <= |attempts|
    && forall i :: 0 <= i < |waits| ==> !EndsLoop(attempts[i]) && waits[i] == CappedBackoff(SinceOpen(attempts, i))
  }

  lemma WaitsSnoc(attempts: seq<Attempt>, waits: seq<nat>, backoff: nat)
    requires WaitsFit(attempts, waits) && |waits| < |attempts| && !EndsLoop(attempts[|waits|])
    requires backoff == CappedBackoff(SinceOpen(attempts, |waits|))
    ensures WaitsFit(attempts, waits + [backoff])
  {
  }

  /** The reconnect loop over the outcomes of its attempts: the seconds slept after each. It
      starts over at one second after a stream, and ends when it is to stop or the stream is
      cancelled. */
  method ReconnectWaits(attempts: seq<Attempt>) returns (waits: seq<nat>)
    ensures WaitsFit(attempts, waits)
    ensures |waits| < |attempts| ==> attempts[|waits|].StopSeen? || attempts[|waits|] == StreamEnded(true)
    ensures forall i :: 0 <= i < |waits| ==>
              waits[i] == if i == 0 || attempts[i].StreamEnded? then 1
                          else if 2 * waits[i - 1] < 300 then 2 * waits[i - 1] else 300
  {
    waits := [];
    var backoff := INITIAL_BACKOFF;
    ghost var k := 0;
    assert CappedBackoff(0) == INITIAL_BACKOFF;
    for i := 0 to |attempts|
      invariant |waits| == i && WaitsFit(attempts, waits)
      invariant k == (if i == 0 then 0 else SinceOpen(attempts, i - 1) + 1) && backoff == CappedBackoff(k)
    {
      if attempts[i].StopSeen? {
        return;
      }
      if attempts[i].StreamEnded? {
        backoff := INITIAL_BACKOFF;
        k := 0;
        if attempts[i].cancelled {
          return;
        }
      }
      WaitsSnoc(attempts, waits, backoff);
      waits := waits + [backoff];
      BackoffDoubles(k);
      backoff := if backoff * 2 < MAX_BACKOFF then backoff * 2 else MAX_BACKOFF;
      k := k + 1;
    }
  }
}
