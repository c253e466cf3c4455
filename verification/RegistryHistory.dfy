/** The registry equals its history: what it holds after any sequence of events, said by
    quantifying over the events themselves. */
module RegistryHistory {
  import opened Basics
  import opened MeshTypes
  import opened RegistryState

  /** Some event starts it and no later event stops it. */
  ghost predicate Since(h: seq<Body>, start: Body -> bool, stop: Body -> bool) {
    exists i :: 0 <= i < |h| && start(h[i]) && forall j :: i < j < |h| ==> !stop(h[j])
  }

  lemma SinceBefore(h: seq<Body>, start: Body -> bool, stop: Body -> bool)
    requires h != [] && Since(h, start, stop) && !start(h[|h| - 1])
    ensures Since(h[..|h| - 1], start, stop) && !stop(h[|h| - 1])
  {
    var k, before := |h| - 1, h[..|h| - 1];
    var i :| 0 <= i < |h| && start(h[i]) && forall j :: i < j < |h| ==> !stop(h[j]);
    assert start(before[i]) && forall j :: i < j < k ==> !stop(before[j]);
  }

  lemma SinceStill(h: seq<Body>, start: Body -> bool, stop: Body -> bool)
    requires h != [] && Since(h[..|h| - 1], start, stop) && !stop(h[|h| - 1])
    ensures Since(h, start, stop)
  {
    var k, before := |h| - 1, h[..|h| - 1];
    var i :| 0 <= i < k && start(before[i]) && forall j :: i < j < k ==> !stop(before[j]);
    assert start(h[i]) && forall j :: i < j < |h| ==> j == k || !stop(before[j]);
  }

  lemma SinceSnoc(h: seq<Body>, start: Body -> bool, stop: Body -> bool)
    requires h != []
    ensures Since(h, start, stop) <==>
            start(h[|h| - 1]) || (Since(h[..|h| - 1], start, stop) && !stop(h[|h| - 1]))
  {
    if Since(h, start, stop) && !start(h[|h| - 1]) {
      SinceBefore(h, start, stop);
    }
    if Since(h[..|h| - 1], start, stop) && !stop(h[|h| - 1]) {
      SinceStill(h, start, stop);
    }
  }

  // ----- members and services -----

  predicate AdmitsMember(b: Body, n: NodeId) {
    (b.MemberJoined? && b.joined.nodeId == n) || (b.Snapshot? && Names(b.members, n))
  }

  predicate EvictsMember(b: Body, n: NodeId) {
    (b.MemberLeft? && b.nodeId == n) || (b.Snapshot? && !Names(b.members, n))
  }

  predicate StartsService(b: Body, s: ServiceId) {
    b.ServiceStarted? && b.started.serviceId == s
  }

  predicate EndsService(b: Body, s: ServiceId) {
    b.Snapshot? || (b.ServiceStopped? && b.serviceId == s)
  }

  /** A member is known iff the latest event about its presence admits it. */
  lemma {:induction false} MemberHistory(h: seq<Body>, n: NodeId)
    ensures n in Replay(h).members <==> Since(h, b => AdmitsMember(b, n), b => EvictsMember(b, n))
  {
    if h != [] {
      var k := |h| - 1;
      MemberHistory(h[..k], n);
      SinceSnoc(h, b => AdmitsMember(b, n), b => EvictsMember(b, n));
      if h[k].Snapshot? {
        AddMembersValid(map[], h[k].members, n);
      }
    }
  }

  /** A service is known iff it was started and neither stopped nor cleared by a snapshot since. */
  lemma {:induction false} ServiceHistory(h: seq<Body>, s: ServiceId)
    ensures s in Replay(h).services <==> Since(h, b => StartsService(b, s), b => EndsService(b, s))
  {
    if h != [] {
      ServiceHistory(h[..|h| - 1], s);
      SinceSnoc(h, b => StartsService(b, s), b => EndsService(b, s));
    }
  }

  // ----- what distances read -----

  /** The last entry of a snapshot for a node. */
  function LastNamed(ms: seq<Member>, n: NodeId): Option<Member> {
    if ms == [] then None
    else if ms[|ms| - 1].nodeId == n then Some(ms[|ms| - 1])
    else LastNamed(ms[..|ms| - 1], n)
  }

  lemma {:induction false} AddMembersLast(ms: seq<Member>, n: NodeId)
    ensures n in AddMembers(map[], ms) <==> LastNamed(ms, n).Some?
    ensures n in AddMembers(map[], ms) ==> AddMembers(map[], ms)[n] == LastNamed(ms, n).value
  {
    if ms != [] {
      AddMembersLast(ms[..|ms| - 1], n);
    }
  }

  /** The tags an event gives a member, if any. */
  function GivenTags(b: Body, n: NodeId): Option<map<string, string>> {
    match b
    case MemberJoined(m) => if m.nodeId == n then Some(m.tags) else None
    case MemberUpdated(m, _, tags, _) => if m == n then tags else None
    case Snapshot(ms) => if LastNamed(ms, n).Some? then Some(LastNamed(ms, n).value.tags) else None
    case _ => None
  }

  /** One event and the tags of a member known after it. */
  lemma TagsStep(members: map<NodeId, Member>, b: Body, n: NodeId)
    requires n in MembersAfter(members, b)
    requires forall m :: m in members ==> members[m].nodeId == m
    ensures GivenTags(b, n).Some? ==> MembersAfter(members, b)[n].tags == GivenTags(b, n).value
    ensures GivenTags(b, n).None? ==>
              n in members && MembersAfter(members, b)[n].tags == members[n].tags && !EvictsMember(b, n)
  {
    if b.Snapshot? {
      AddMembersLast(b.members, n);
      AddMembersValid(map[], b.members, n);
    }
  }

  /** Event `i` gave the member these tags, and it was neither given others nor evicted since. */
  ghost predicate TagsFrom(h: seq<Body>, i: nat, n: NodeId, tags: map<string, string>) {
    && i < |h| && GivenTags(h[i], n) == Some(tags)
    && forall j :: i < j < |h| ==> GivenTags(h[j], n).None? && !EvictsMember(h[j], n)
  }

  /** A known member carries the tags last given by its join, an update or a snapshot, an event
      after which it was not evicted. */
  lemma {:induction false} MemberTags(h: seq<Body>, n: NodeId) returns (i: nat)
    requires n in Replay(h).members
    ensures TagsFrom(h, i, n, Replay(h).members[n].tags)
  {
    var k := |h| - 1;
    ReplayValid(h[..k]);
    TagsStep(Replay(h[..k]).members, h[k], n);
    if GivenTags(h[k], n).Some? {
      i := k;
    } else {
      i := MemberTags(h[..k], n);
      assert forall j :: 0 <= j < k ==> h[..k][j] == h[j];
    }
  }

  /** What an event says about a member; what it leaves unsaid stays. A join makes the member
      healthy. */
  datatype MemberNews = MemberNews(identity: Option<string>, endpoints: Option<seq<Endpoint>>,
                                   tags: Option<map<string, string>>, status: Option<string>)

  function MemberNewsOf(b: Body, n: NodeId): MemberNews {
    match b
    case MemberJoined(m) =>
      if m.nodeId == n then MemberNews(Some(m.identity), Some(m.endpoints), Some(m.tags), Some("healthy"))
      else MemberNews(None, None, None, None)
    case MemberUpdated(m, endpoints, tags, status) =>
      if m == n then MemberNews(None, if endpoints == [] then None else Some(endpoints), tags,
                                if status == "" then None else Some(status))
      else MemberNews(None, None, None, None)
    case MemberHealth(m, status) => MemberNews(None, None, None, if m == n then Some(status) else None)
    case Snapshot(ms) =>
      (match LastNamed(ms, n)
       case Some(m) => MemberNews(Some(m.identity), Some(m.endpoints), Some(m.tags), Some(m.status))
       case None => MemberNews(None, None, None, None))
    case _ => MemberNews(None, None, None, None)
  }

  function Newer<T>(late: Option<T>, early: Option<T>): Option<T> { if late.Some? then late else early }

  /** The latest of each. */
  function LatestMemberNews(h: seq<Body>, n: NodeId): MemberNews {
    if h == [] then MemberNews(None, None, None, None)
    else
      var early, late := LatestMemberNews(h[..|h| - 1], n), MemberNewsOf(h[|h| - 1], n);
      MemberNews(Newer(late.identity, early.identity), Newer(late.endpoints, early.endpoints),
                 Newer(late.tags, early.tags), Newer(late.status, early.status))
  }

  lemma MemberStep(members: map<NodeId, Member>, b: Body, n: NodeId)
    requires n in MembersAfter(members, b)
    ensures var now, news := MembersAfter(members, b)[n], MemberNewsOf(b, n);
            && (news.identity.None? || news.endpoints.None? || news.tags.None? || news.status.None? ==> n in members)
            && now.identity == (if news.identity.Some? then news.identity.value else members[n].identity)
            && now.endpoints == (if news.endpoints.Some? then news.endpoints.value else members[n].endpoints)
            && now.tags == (if news.tags.Some? then news.tags.value else members[n].tags)
            && now.status == (if news.status.Some? then news.status.value else members[n].status)
  {
    if b.Snapshot? {
      AddMembersLast(b.members, n);
    }
  }

  /** A known member is what the latest news of each kind say of it. */
  lemma {:induction false} MemberValue(h: seq<Body>, n: NodeId)
    requires n in Replay(h).members
    ensures var m, news := Replay(h).members[n], LatestMemberNews(h, n);
            && m.nodeId == n && news.identity == Some(m.identity) && news.endpoints == Some(m.endpoints)
            && news.tags == Some(m.tags) && news.status == Some(m.status)
  {
    var k := |h| - 1;
    ReplayValid(h);
    MemberStep(Replay(h[..k]).members, h[k], n);
    if n in Replay(h[..k]).members {
      MemberValue(h[..k], n);
    }
  }

  /** Event `i` is the latest start of the service, which did not end since. */
  ghost predicate LatestStart(h: seq<Body>, i: nat, s: ServiceId) {
    && i < |h| && StartsService(h[i], s)
    && forall j :: i < j < |h| ==> !StartsService(h[j], s) && !EndsService(h[j], s)
  }

  lemma ServiceStep(services: map<ServiceId, ServiceEntry>, b: Body, s: ServiceId)
    requires s in ServicesAfter(services, b)
    ensures var entry := ServicesAfter(services, b)[s];
            if StartsService(b, s) then entry == NewService(b.started)
            else s in services && !EndsService(b, s)
                 && entry.nodeId == services[s].nodeId && entry.capabilities == services[s].capabilities
  {
  }

  /** A known service runs on the node, and provides the capabilities, of its latest start. */
  lemma {:induction false} ServiceValue(h: seq<Body>, s: ServiceId) returns (i: nat)
    requires s in Replay(h).services
    ensures LatestStart(h, i, s)
    ensures Replay(h).services[s].nodeId == h[i].started.nodeId
    ensures Replay(h).services[s].capabilities == h[i].started.capabilities
  {
    var k := |h| - 1;
    ServiceStep(Replay(h[..k]).services, h[k], s);
    if StartsService(h[k], s) {
      i := k;
    } else {
      i := ServiceValue(h[..k], s);
      assert forall j :: 0 <= j < k ==> h[..k][j] == h[j];
    }
  }

  /** What an event says about a service. */
  datatype ServiceNews = ServiceNews(identity: Option<string>, endpoints: Option<seq<Endpoint>>,
                                     labels: Option<Option<map<string, string>>>, status: Option<string>)

  function ServiceNewsOf(b: Body, s: ServiceId): ServiceNews {
    match b
    case ServiceStarted(st) =>
      if st.serviceId == s then ServiceNews(Some(st.identity), Some(st.endpoints), Some(st.labels), Some("running"))
      else ServiceNews(None, None, None, None)
    case ServiceUpdated(t, endpoints, labels) =>
      if t == s then ServiceNews(None, if endpoints == [] then None else Some(endpoints),
                                 if labels.None? then None else Some(labels), None)
      else ServiceNews(None, None, None, None)
    case IdentityIssued(t, id) => ServiceNews(if t == s then Some(id) else None, None, None, None)
    case IdentityRevoked(t) =>
      if t == s then ServiceNews(Some(""), None, None, Some("identity_revoked"))
      else ServiceNews(None, None, None, None)
    case _ => ServiceNews(None, None, None, None)
  }

  function LatestServiceNews(h: seq<Body>, s: ServiceId): ServiceNews {
    if h == [] then ServiceNews(None, None, None, None)
    else
      var early, late := LatestServiceNews(h[..|h| - 1], s), ServiceNewsOf(h[|h| - 1], s);
      ServiceNews(Newer(late.identity, early.identity), Newer(late.endpoints, early.endpoints),
                  Newer(late.labels, early.labels), Newer(late.status, early.status))
  }

  lemma ServiceNewsStep(services: map<ServiceId, ServiceEntry>, b: Body, s: ServiceId)
    requires s in ServicesAfter(services, b)
    ensures var now, news := ServicesAfter(services, b)[s], ServiceNewsOf(b, s);
            && (news.identity.None? || news.endpoints.None? || news.labels.None? || news.status.None? ==> s in services)
            && now.identity == (if news.identity.Some? then news.identity.value else services[s].identity)
            && now.endpoints == (if news.endpoints.Some? then news.endpoints.value else services[s].endpoints)
            && now.labels == (if news.labels.Some? then news.labels.value else services[s].labels)
            && now.status == (if news.status.Some? then news.status.value else services[s].status)
  {
  }

  /** A known service has identity, endpoints, labels and status as last given. */
  lemma {:induction false} ServiceLatest(h: seq<Body>, s: ServiceId)
    requires s in Replay(h).services
    ensures var e, news := Replay(h).services[s], LatestServiceNews(h, s);
            && e.serviceId == s && news.identity == Some(e.identity) && news.endpoints == Some(e.endpoints)
            && news.labels == Some(e.labels) && news.status == Some(e.status)
  {
    var k := |h| - 1;
    ReplayValid(h);
    ServiceNewsStep(Replay(h[..k]).services, h[k], s);
    if s in Replay(h[..k]).services {
      ServiceLatest(h[..k], s);
    }
  }

  // ----- providers -----

  /** A start of `s` that lists capability `c` and has an endpoint. */
  predicate Offers(b: Body, c: CapabilityId, s: ServiceId) {
    StartsService(b, s) && c in b.started.capabilities && b.started.endpoints != []
  }

  function Offered(st: Started, c: CapabilityId): Provider
    requires st.endpoints != []
  {
    NewProvider(st, c, st.endpoints[|st.endpoints| - 1])
  }

  /** How one event changes the provider filed under (c, s). */
  function Evolve(was: Option<Provider>, b: Body, c: CapabilityId, s: ServiceId): Option<Provider> {
    if b.Snapshot? then None
    else if Offers(b, c, s) then Some(Offered(b.started, c))
    else if was.Some? && b.IdentityIssued? && b.serviceId == s then Some(was.value.(identity := b.spiffeId))
    else if was.Some? && b.IdentityRevoked? && b.serviceId == s then
      Some(was.value.(identity := "", available := false))
    else was
  }

  lemma StartFinds(v: View, st: Started, c: CapabilityId, s: ServiceId)
    requires ViewValid(v)
    ensures Find(Apply(v, ServiceStarted(st)).providers, c, s) ==
            if Offers(ServiceStarted(st), c, s) then Some(Offered(st, c)) else Find(v.providers, c, s)
  {
    AddCapabilitiesFinds(v.providers, st, st.capabilities);
  }

  lemma ReidentifyFinds(v: View, t: ServiceId, identity: string, revoked: bool, c: CapabilityId, s: ServiceId)
    ensures var was := Find(v.providers, c, s);
            Find(ReidentifyAll(v.providers, t, identity, revoked), c, s) ==
            if was.Some? then Some(Reidentify(was.value, t, identity, revoked)) else None
    ensures Find(v.providers, c, s).Some? ==> Find(v.providers, c, s).value.serviceId == s
  {
    LookupIs(ListOf(v.providers, c), s);
    LookupReidentify(ListOf(v.providers, c), t, identity, revoked, s);
    assert ListOf(ReidentifyAll(v.providers, t, identity, revoked), c)
        == ReidentifyList(ListOf(v.providers, c), t, identity, revoked);
  }

  lemma OtherFinds(v: View, b: Body, c: CapabilityId, s: ServiceId)
    requires ViewValid(v) && !b.ServiceStarted? && !b.IdentityIssued? && !b.IdentityRevoked?
    ensures Find(Apply(v, b).providers, c, s) == if b.Snapshot? then None else Find(v.providers, c, s)
  {
  }

  lemma ApplyFinds(v: View, b: Body, c: CapabilityId, s: ServiceId)
    requires ViewValid(v)
    ensures Find(Apply(v, b).providers, c, s) == Evolve(Find(v.providers, c, s), b, c, s)
  {
    match b
    case ServiceStarted(st) => StartFinds(v, st, c, s);
    case IdentityIssued(t, id) => ReidentifyFinds(v, t, id, false, c, s);
    case IdentityRevoked(t) => ReidentifyFinds(v, t, "", true, c, s);
    case _ => OtherFinds(v, b, c, s);
  }

  /** A provider is filed under (c, s) iff a start of s offering c came after the last
      snapshot; stopping s does not remove it. */
  lemma {:induction false} ProviderHistory(h: seq<Body>, c: CapabilityId, s: ServiceId)
    ensures Find(Replay(h).providers, c, s).Some? <==> Since(h, b => Offers(b, c, s), (b: Body) => b.Snapshot?)
  {
    if h != [] {
      var k := |h| - 1;
      ProviderHistory(h[..k], c, s);
      SinceSnoc(h, b => Offers(b, c, s), (b: Body) => b.Snapshot?);
      FindStep(h, c, s);
    }
  }

  /** Event `i` is the latest start of `s` offering `c`, with no snapshot after it. */
  ghost predicate Origin(h: seq<Body>, i: nat, c: CapabilityId, s: ServiceId) {
    && i < |h| && Offers(h[i], c, s)
    && forall j :: i < j < |h| ==> !Offers(h[j], c, s) && !h[j].Snapshot?
  }

  ghost predicate RevokedAfter(h: seq<Body>, i: nat, s: ServiceId) {
    exists j :: i < j < |h| && h[j] == IdentityRevoked(s)
  }

  predicate Reidentifies(b: Body, s: ServiceId) {
    (b.IdentityIssued? || b.IdentityRevoked?) && b.serviceId == s
  }

  /** The identity an event gives; a revocation gives the empty one. */
  function GivenIdentity(b: Body): string {
    if b.IdentityIssued? then b.spiffeId else if b.ServiceStarted? then b.started.identity else ""
  }

  /** Event `j` gives `s` the identity, and no later event replaces it. */
  ghost predicate LastIdentity(h: seq<Body>, i: nat, j: nat, s: ServiceId, identity: string) {
    && i <= j < |h| && identity == GivenIdentity(h[j]) && (j == i || Reidentifies(h[j], s))
    && forall k :: j < k < |h| ==> !Reidentifies(h[k], s)
  }

  /** `identity` was given to `s` by event `i` or later and not replaced afterwards. */
  ghost predicate IdentityIs(h: seq<Body>, i: nat, s: ServiceId, identity: string) {
    exists j :: LastIdentity(h, i, j, s, identity)
  }

  /** The labels name this trust tier. */
  predicate Says(labels: Option<map<string, string>>, tier: string) {
    labels.Some? && "trust_tier" in labels.value && labels.value["trust_tier"] == tier
  }

  /** Node, labels, last endpoint and tier are those of the start; labels that name no tier
      above local, or none that is known, make a local provider. */
  predicate AsStarted(p: Provider, st: Started)
    requires st.endpoints != []
  {
    && p.nodeId == st.nodeId && p.labels == st.labels && p.endpoint == st.endpoints[|st.endpoints| - 1]
    && (p.trustTier.Official? <==> Says(st.labels, "official"))
    && (p.trustTier.Certified? <==> Says(st.labels, "certified"))
    && (p.trustTier.Community? <==> Says(st.labels, "community"))
    && (p.trustTier.Experimental? <==> Says(st.labels, "experimental"))
    && (p.trustTier.Local? <==> !p.trustTier.Official? && !p.trustTier.Certified?
                                && !p.trustTier.Community? && !p.trustTier.Experimental?)
  }

  ghost predicate Carries(p: Option<Provider>, h: seq<Body>, i: nat, c: CapabilityId, s: ServiceId)
    requires Origin(h, i, c, s)
  {
    && p.Some?
    && AsStarted(p.value, h[i].started) && p.value.serviceId == s && p.value.capabilityId == c
    && (p.value.available <==> !RevokedAfter(h, i, s))
    && IdentityIs(h, i, s, p.value.identity)
  }

  /** The provider filed under (c, s) carries node, tier, labels and last endpoint of its
      latest start, the identity last issued or revoked since, and is marked available iff it
      was not revoked since. */
  lemma {:induction false} ProviderValue(h: seq<Body>, i: nat, c: CapabilityId, s: ServiceId)
    requires Origin(h, i, c, s)
    ensures Carries(Find(Replay(h).providers, c, s), h, i, c, s)
  {
    var k := |h| - 1;
    var h' := h[..k];
    FindStep(h, c, s);
    if i == k {
      StartCarries(Find(Replay(h').providers, c, s), h, c, s);
    } else {
      assert Origin(h', i, c, s) by {
        assert forall j :: i < j < k ==> h'[j] == h[j];
      }
      ProviderValue(h', i, c, s);
      CarriesOn(Find(Replay(h').providers, c, s), h, i, c, s);
    }
  }

  lemma StartCarries(was: Option<Provider>, h: seq<Body>, c: CapabilityId, s: ServiceId)
    requires h != [] && Origin(h, |h| - 1, c, s)
    ensures Carries(Evolve(was, h[|h| - 1], c, s), h, |h| - 1, c, s)
  {
    assert LastIdentity(h, |h| - 1, |h| - 1, s, h[|h| - 1].started.identity);
  }

  lemma FindStep(h: seq<Body>, c: CapabilityId, s: ServiceId)
    requires h != []
    ensures var k := |h| - 1;
            Find(Replay(h).providers, c, s) == Evolve(Find(Replay(h[..k]).providers, c, s), h[k], c, s)
  {
    ReplayValid(h[..|h| - 1]);
    ApplyFinds(Replay(h[..|h| - 1]), h[|h| - 1], c, s);
  }

  /** An event that neither starts the service nor is a snapshot. */
  lemma CarriesOn(was: Option<Provider>, h: seq<Body>, i: nat, c: CapabilityId, s: ServiceId)
    requires i < |h| - 1 && Origin(h, i, c, s) && Origin(h[..|h| - 1], i, c, s)
    requires Carries(was, h[..|h| - 1], i, c, s)
    ensures Carries(Evolve(was, h[|h| - 1], c, s), h, i, c, s)
  {
    RevokedSnoc(h, i, s);
    IdentitySnoc(h, i, s, was.value.identity);
  }

  lemma RevokedSnoc(h: seq<Body>, i: nat, s: ServiceId)
    requires i < |h| - 1
    ensures RevokedAfter(h, i, s) <==> h[|h| - 1] == IdentityRevoked(s) || RevokedAfter(h[..|h| - 1], i, s)
  {
    var h' := h[..|h| - 1];
    if RevokedAfter(h', i, s) {
      var j :| i < j < |h'| && h'[j] == IdentityRevoked(s);
      assert h[j] == IdentityRevoked(s);
    }
    if RevokedAfter(h, i, s) && h[|h| - 1] != IdentityRevoked(s) {
      var j :| i < j < |h| && h[j] == IdentityRevoked(s);
      assert h'[j] == IdentityRevoked(s);
    }
  }

  lemma IdentitySnoc(h: seq<Body>, i: nat, s: ServiceId, was: string)
    requires i < |h| - 1 && IdentityIs(h[..|h| - 1], i, s, was)
    ensures IdentityIs(h, i, s, if Reidentifies(h[|h| - 1], s) then GivenIdentity(h[|h| - 1]) else was)
  {
    var k, h' := |h| - 1, h[..|h| - 1];
    if Reidentifies(h[k], s) {
      assert LastIdentity(h, i, k, s, GivenIdentity(h[k]));
    } else {
      var j: nat :| LastIdentity(h', i, j, s, was);
      assert forall m :: 0 <= m < k ==> h[m] == h'[m];
      assert LastIdentity(h, i, j, s, was);
    }
  }

  // ----- revocation -----

  /** No provider entry for (c, s), or one marked unavailable. */
  predicate Unavailable(v: View, c: CapabilityId, s: ServiceId) {
    Find(v.providers, c, s).Some? ==> !Find(v.providers, c, s).value.available
  }

  predicate WithoutIdentity(v: View, c: CapabilityId, s: ServiceId) {
    && (Find(v.providers, c, s).Some? ==> Find(v.providers, c, s).value.identity == "")
    && (s in v.services ==> v.services[s].identity == "")
  }

  lemma UnrevivedStep(v: View, b: Body, c: CapabilityId, s: ServiceId)
    requires ViewValid(v) && !StartsService(b, s) && !b.Snapshot?
    ensures Unavailable(v, c, s) ==> Unavailable(Apply(v, b), c, s)
    ensures WithoutIdentity(v, c, s) && !(b.IdentityIssued? && b.serviceId == s) ==> WithoutIdentity(Apply(v, b), c, s)
  {
    ApplyFinds(v, b, c, s);
  }

  lemma RevokedNow(v: View, s: ServiceId, c: CapabilityId)
    requires ViewValid(v)
    ensures Unavailable(Apply(v, IdentityRevoked(s)), c, s) && WithoutIdentity(Apply(v, IdentityRevoked(s)), c, s)
  {
    ApplyFinds(v, IdentityRevoked(s), c, s);
  }

  /** From its revocation on, unless it is started again or a snapshot arrives, every provider
      entry of `s` stays unavailable; unless an identity is issued too, its providers and its
      service entry stay without identity. */
  lemma {:induction false} RevocationPersists(before: seq<Body>, s: ServiceId, after: seq<Body>, c: CapabilityId)
    requires forall b :: b in after ==> !StartsService(b, s) && !b.Snapshot?
    ensures Unavailable(Replay(before + [IdentityRevoked(s)] + after), c, s)
    ensures (forall b :: b in after ==> !(b.IdentityIssued? && b.serviceId == s)) ==>
              WithoutIdentity(Replay(before + [IdentityRevoked(s)] + after), c, s)
  {
    if after == [] {
      assert before + [IdentityRevoked(s)] + [] == before + [IdentityRevoked(s)];
      ReplaySnoc(before, IdentityRevoked(s));
      RevokedNow(Replay(before), s, c);
    } else {
      var after', b := after[..|after| - 1], after[|after| - 1];
      var h := before + [IdentityRevoked(s)] + after';
      assert before + [IdentityRevoked(s)] + after == h + [b] && b in after;
      ReplaySnoc(h, b);
      RevocationPersists(before, s, after', c);
      UnrevivedStep(Replay(h), b, c, s);
    }
  }

  lemma ReplaySnoc(h: seq<Body>, b: Body)
    ensures Replay(h + [b]) == Apply(Replay(h), b) && ViewValid(Replay(h))
  {
    assert (h + [b])[..|h|] == h;
    ReplayValid(h);
  }

  /** The handler touches no other service's entries. */
  lemma RevocationIsLocal(v: View, s: ServiceId, c: CapabilityId, t: ServiceId)
    requires ViewValid(v) && t != s
    ensures Find(Apply(v, IdentityRevoked(s)).providers, c, t) == Find(v.providers, c, t)
    ensures t in v.services <==> t in Apply(v, IdentityRevoked(s)).services
    ensures t in v.services ==> Apply(v, IdentityRevoked(s)).services[t] == v.services[t]
  {
    ApplyFinds(v, IdentityRevoked(s), c, t);
  }

  /** Stopping a service removes its entry and none of its providers. */
  lemma StoppedKeepsProviders(h: seq<Body>, s: ServiceId, c: CapabilityId)
    ensures s !in Replay(h + [ServiceStopped(s)]).services
    ensures Find(Replay(h + [ServiceStopped(s)]).providers, c, s) == Find(Replay(h).providers, c, s)
  {
    assert (h + [ServiceStopped(s)])[..|h|] == h;
  }

  /** The capability cache is the last one loaded, whole, snapshot or "delta"; a cluster
      snapshot does not clear it. */
  lemma {:induction false} CacheHistory(h: seq<Body>, i: nat)
    requires i < |h| && h[i].CacheLoaded? && forall j :: i < j < |h| ==> !h[j].CacheLoaded?
    ensures Replay(h).cache == h[i].capabilities
  {
    var k := |h| - 1;
    if i < k {
      assert forall j :: 0 <= j < k ==> h[..k][j] == h[j];
      CacheHistory(h[..k], i);
    }
  }
}
