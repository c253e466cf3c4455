/** The registry's contents as a value, and what each event does to it. The Registry class
    and the event handlers are proved against these functions. */
module RegistryState {
  import opened Basics
  import opened MeshTypes

  datatype View = View(members: map<NodeId, Member>, services: map<ServiceId, ServiceEntry>,
                       providers: ProviderIndex, cache: map<CapabilityId, Capability>)

  const EMPTY: View := View(map[], map[], map[], map[])

  // ----- the provider index -----

  function ListOf(providers: ProviderIndex, c: CapabilityId): seq<Provider> {
    if c in providers then providers[c] else []
  }

  function Lookup(ps: seq<Provider>, s: ServiceId): Option<Provider> {
    if ps == [] then None else if ps[0].serviceId == s then Some(ps[0]) else Lookup(ps[1..], s)
  }

  /** The provider of capability `c` offered by service `s`. */
  function Find(providers: ProviderIndex, c: CapabilityId, s: ServiceId): Option<Provider> {
    Lookup(ListOf(providers, c), s)
  }

  function Upsert(ps: seq<Provider>, p: Provider): seq<Provider> {
    if ps == [] then [p]
    else if ps[0].serviceId == p.serviceId then [p] + ps[1..]
    else [ps[0]] + Upsert(ps[1..], p)
  }

  function Without(ps: seq<Provider>, s: ServiceId): seq<Provider> {
    if ps == [] then []
    else Without(ps[..|ps| - 1], s) + (if ps[|ps| - 1].serviceId != s then [ps[|ps| - 1]] else [])
  }

  function Put(providers: ProviderIndex, c: CapabilityId, p: Provider): ProviderIndex {
    providers[c := Upsert(ListOf(providers, c), p)]
  }

  function Remove(providers: ProviderIndex, c: CapabilityId, s: ServiceId): ProviderIndex {
    if c in providers then providers[c := Without(providers[c], s)] else providers
  }

  predicate NoRepeats(ps: seq<Provider>) {
    forall i, j :: 0 <= i < j < |ps| ==> ps[i].serviceId != ps[j].serviceId
  }

  /** A list never names a service twice and holds only its own capability's providers. */
  predicate IndexValid(providers: ProviderIndex) {
    forall c :: c in providers ==>
      NoRepeats(providers[c]) && forall i :: 0 <= i < |providers[c]| ==> providers[c][i].capabilityId == c
  }

  lemma {:induction false} LookupIs(ps: seq<Provider>, s: ServiceId)
    ensures Lookup(ps, s).None? <==> forall i :: 0 <= i < |ps| ==> ps[i].serviceId != s
    ensures Lookup(ps, s).Some? ==> Lookup(ps, s).value in ps && Lookup(ps, s).value.serviceId == s
  {
    if ps != [] {
      LookupIs(ps[1..], s);
      assert forall i :: 1 <= i < |ps| ==> ps[i] == ps[1..][i - 1];
    }
  }

  lemma {:induction false} LookupUpsert(ps: seq<Provider>, p: Provider, s: ServiceId)
    ensures Lookup(Upsert(ps, p), s) == if s == p.serviceId then Some(p) else Lookup(ps, s)
  {
    if ps != [] {
      if ps[0].serviceId != p.serviceId {
        LookupUpsert(ps[1..], p, s);
        assert Upsert(ps, p)[1..] == Upsert(ps[1..], p);
      } else {
        assert Upsert(ps, p)[1..] == ps[1..];
      }
    } else {
      assert Upsert(ps, p) == [p];
    }
  }

  lemma {:induction false} UpsertKeepsServices(ps: seq<Provider>, p: Provider)
    ensures forall q :: q in Upsert(ps, p) ==> q == p || q in ps
    ensures NoRepeats(ps) ==> NoRepeats(Upsert(ps, p))
  {
    if ps != [] && ps[0].serviceId != p.serviceId {
      UpsertKeepsServices(ps[1..], p);
      var u := Upsert(ps[1..], p);
      assert NoRepeats(ps) ==> NoRepeats(ps[1..]);
      assert forall q :: q in u ==> q == p || q in ps[1..];
      assert forall j :: 0 <= j < |u| ==> u[j] in u;
    }
  }

  /** A new service goes to the end. */
  lemma {:induction false} UpsertAppends(ps: seq<Provider>, p: Provider)
    requires Lookup(ps, p.serviceId).None?
    ensures Upsert(ps, p) == ps + [p]
  {
    if ps != [] {
      UpsertAppends(ps[1..], p);
    }
  }

  /** A known one keeps its place. */
  lemma {:induction false} UpsertInPlace(ps: seq<Provider>, i: nat, p: Provider)
    requires i < |ps| && NoRepeats(ps) && ps[i].serviceId == p.serviceId
    ensures Upsert(ps, p) == ps[i := p]
  {
    if i > 0 {
      assert ps[0].serviceId != p.serviceId;
      UpsertInPlace(ps[1..], i - 1, p);
    }
  }

  /** Removing keeps the order of the rest. */
  lemma {:induction false} WithoutInOrder(ps: seq<Provider>, s: ServiceId)
    ensures Subsequence(Without(ps, s), ps)
  {
    if ps != [] {
      var k := |ps| - 1;
      var rest := Without(ps[..k], s);
      assert ps == ps[..k] + [ps[k]] && rest + [] == rest;
      WithoutInOrder(ps[..k], s);
      SubsequenceAppend(rest, ps[..k], ps[k]);
    }
  }

  lemma {:induction false} LookupSnoc(ps: seq<Provider>, p: Provider, s: ServiceId)
    ensures Lookup(ps + [p], s) ==
            if Lookup(ps, s).Some? then Lookup(ps, s) else if p.serviceId == s then Some(p) else None
  {
    if ps == [] {
      assert ps + [p] == [p] && [p][1..] == [];
    } else {
      assert (ps + [p])[1..] == ps[1..] + [p];
      LookupSnoc(ps[1..], p, s);
    }
  }

  lemma {:induction false} LookupWithout(ps: seq<Provider>, gone: ServiceId, s: ServiceId)
    ensures Lookup(Without(ps, gone), s) == if s == gone then None else Lookup(ps, s)
  {
    if ps != [] {
      var k := |ps| - 1;
      LookupWithout(ps[..k], gone, s);
      LookupSnoc(Without(ps[..k], gone), ps[k], s);
      LookupSnoc(ps[..k], ps[k], s);
      assert ps == ps[..k] + [ps[k]];
      assert Without(ps[..k], gone) + [] == Without(ps[..k], gone);
    }
  }

  lemma {:induction false} WithoutKeeps(ps: seq<Provider>, gone: ServiceId)
    ensures forall q :: q in Without(ps, gone) <==> q in ps && q.serviceId != gone
    ensures NoRepeats(ps) ==> NoRepeats(Without(ps, gone))
  {
    if ps != [] {
      var k := |ps| - 1;
      WithoutKeeps(ps[..k], gone);
      assert ps == ps[..k] + [ps[k]];
      assert NoRepeats(ps) ==> NoRepeats(ps[..k]);
      var w := Without(ps[..k], gone);
      assert forall i :: 0 <= i < |w| ==> w[i] in w;
    }
  }

  /** The index is a map from (capability, service) to provider: Put, Remove and Find are its
      update, deletion and lookup, and both keep the lists free of repeats. */
  lemma IndexIsMap(providers: ProviderIndex, c: CapabilityId, p: Provider, gone: ServiceId)
    requires IndexValid(providers) && p.capabilityId == c
    ensures IndexValid(Put(providers, c, p)) && IndexValid(Remove(providers, c, gone))
    ensures forall c', s :: Find(Put(providers, c, p), c', s) ==
                            if c' == c && s == p.serviceId then Some(p) else Find(providers, c', s)
    ensures forall c', s :: Find(Remove(providers, c, gone), c', s) ==
                            if c' == c && s == gone then None else Find(providers, c', s)
  {
    UpsertKeepsServices(ListOf(providers, c), p);
    var up := Put(providers, c, p)[c];
    forall i | 0 <= i < |up| ensures up[i].capabilityId == c {
      assert up[i] in up;
    }
    WithoutKeeps(ListOf(providers, c), gone);
    var without := Without(ListOf(providers, c), gone);
    forall i | 0 <= i < |without| ensures without[i].capabilityId == c {
      assert without[i] in without;
    }
    forall s ensures Lookup(up, s) == if s == p.serviceId then Some(p) else Lookup(ListOf(providers, c), s) {
      LookupUpsert(ListOf(providers, c), p, s);
    }
    forall s ensures Lookup(without, s) == if s == gone then None else Lookup(ListOf(providers, c), s) {
      LookupWithout(ListOf(providers, c), gone, s);
    }
  }

  // ----- what events do -----

  function ParseTier(text: string): TrustTier {
    if text == "local" then Local
    else if text == "experimental" then Experimental
    else if text == "community" then Community
    else if text == "certified" then Certified
    else if text == "official" then Official
    else if text == "" then NoTier
    else OtherTier(text)
  }

  predicate KnownTier(t: TrustTier) {
    !t.NoTier? && !t.OtherTier?
  }

  /** The tier a started service claims in its labels; anything unknown counts as local. */
  function LabelTier(labels: Option<map<string, string>>): TrustTier {
    if labels.Some? && "trust_tier" in labels.value && KnownTier(ParseTier(labels.value["trust_tier"]))
    then ParseTier(labels.value["trust_tier"]) else Local
  }

  function NewProvider(st: Started, c: CapabilityId, endpoint: Endpoint): Provider {
    Provider(st.serviceId, st.identity, st.nodeId, c, LabelTier(st.labels), endpoint, st.labels, true)
  }

  function AddEndpoints(providers: ProviderIndex, st: Started, c: CapabilityId, endpoints: seq<Endpoint>): ProviderIndex
  {
    if endpoints == [] then providers else
      var k := |endpoints| - 1;
      Put(AddEndpoints(providers, st, c, endpoints[..k]), c, NewProvider(st, c, endpoints[k]))
  }

  function AddCapabilities(providers: ProviderIndex, st: Started, capabilities: seq<CapabilityId>): ProviderIndex {
    if capabilities == [] then providers else
      var k := |capabilities| - 1;
      AddEndpoints(AddCapabilities(providers, st, capabilities[..k]), st, capabilities[k], st.endpoints)
  }

  function NewService(st: Started): ServiceEntry {
    ServiceEntry(st.serviceId, st.identity, st.nodeId, st.endpoints, st.capabilities, st.labels, "running")
  }

  function AddMembers(members: map<NodeId, Member>, ms: seq<Member>): map<NodeId, Member> {
    if ms == [] then members else
      AddMembers(members, ms[..|ms| - 1])[ms[|ms| - 1].nodeId := ms[|ms| - 1]]
  }

  function UpdateMember(m: Member, endpoints: seq<Endpoint>, tags: Option<map<string, string>>, status: string): Member
  {
    m.(endpoints := if endpoints != [] then endpoints else m.endpoints,
       tags := if tags.Some? then tags.value else m.tags,
       status := if status != "" then status else m.status)
  }

  function UpdateService(e: ServiceEntry, endpoints: seq<Endpoint>, labels: Option<map<string, string>>): ServiceEntry {
    e.(endpoints := if endpoints != [] then endpoints else e.endpoints,
       labels := if labels.Some? then labels else e.labels)
  }

  /** identity.service.issued (identity given) or .revoked (identity "", unavailable). */
  function Reidentify(p: Provider, s: ServiceId, identity: string, revoked: bool): Provider {
    if p.serviceId != s then p
    else if revoked then p.(identity := "", available := false)
    else p.(identity := identity)
  }

  function ReidentifyList(ps: seq<Provider>, s: ServiceId, identity: string, revoked: bool): (r: seq<Provider>)
    ensures |r| == |ps| && forall i :: 0 <= i < |ps| ==> r[i] == Reidentify(ps[i], s, identity, revoked)
  {
    seq(|ps|, i requires 0 <= i < |ps| => Reidentify(ps[i], s, identity, revoked))
  }

  function ReidentifyAll(providers: ProviderIndex, s: ServiceId, identity: string, revoked: bool): ProviderIndex {
    map c | c in providers :: ReidentifyList(providers[c], s, identity, revoked)
  }

  function MembersAfter(members: map<NodeId, Member>, b: Body): map<NodeId, Member> {
    match b
    case Snapshot(ms) => AddMembers(map[], ms)
    case MemberJoined(m) => members[m.nodeId := m.(status := "healthy")]
    case MemberUpdated(n, endpoints, tags, status) =>
      if n in members then members[n := UpdateMember(members[n], endpoints, tags, status)] else members
    case MemberLeft(n) => members - {n}
    case MemberHealth(n, status) => if n in members then members[n := members[n].(status := status)] else members
    case _ => members
  }

  function ServicesAfter(services: map<ServiceId, ServiceEntry>, b: Body): map<ServiceId, ServiceEntry> {
    match b
    case Snapshot(_) => map[]
    case ServiceStarted(st) => services[st.serviceId := NewService(st)]
    case ServiceUpdated(s, endpoints, labels) =>
      if s in services then services[s := UpdateService(services[s], endpoints, labels)] else services
    case ServiceStopped(s) => services - {s}
    case IdentityIssued(s, id) => if s in services then services[s := services[s].(identity := id)] else services
    case IdentityRevoked(s) =>
      if s in services then services[s := services[s].(identity := "", status := "identity_revoked")] else services
    case _ => services
  }

  function ProvidersAfter(providers: ProviderIndex, b: Body): ProviderIndex {
    match b
    case Snapshot(_) => map[]
    case ServiceStarted(st) => AddCapabilities(providers, st, st.capabilities)
    case IdentityIssued(s, id) => ReidentifyAll(providers, s, id, false)
    case IdentityRevoked(s) => ReidentifyAll(providers, s, "", true)
    case _ => providers
  }

  /** What an event does; policy and consent updates, and events that cannot be decoded or are
      not the registry's, do nothing to it. */
  function Apply(v: View, b: Body): View {
    View(MembersAfter(v.members, b), ServicesAfter(v.services, b), ProvidersAfter(v.providers, b),
         if b.CacheLoaded? then b.capabilities else v.cache)
  }

  /** The registry after the events `h`, starting empty. */
  function Replay(h: seq<Body>): View {
    if h == [] then EMPTY else Apply(Replay(h[..|h| - 1]), h[|h| - 1])
  }

  // ----- what every event keeps -----

  /** Entries are filed under their own IDs and the provider index is well formed. */
  predicate ViewValid(v: View) {
    && (forall n :: n in v.members ==> v.members[n].nodeId == n)
    && (forall s :: s in v.services ==> v.services[s].serviceId == s)
    && IndexValid(v.providers)
  }

  predicate Names(ms: seq<Member>, n: NodeId) {
    exists m :: m in ms && m.nodeId == n
  }

  lemma {:induction false} AddMembersValid(members: map<NodeId, Member>, ms: seq<Member>, n: NodeId)
    requires n in members ==> members[n].nodeId == n
    ensures n in AddMembers(members, ms) <==> n in members || Names(ms, n)
    ensures n in AddMembers(members, ms) ==> AddMembers(members, ms)[n].nodeId == n
  {
    if ms != [] {
      var k := |ms| - 1;
      AddMembersValid(members, ms[..k], n);
      assert ms == ms[..k] + [ms[k]];
      if ms[k].nodeId == n {
        assert Names(ms, n);
      } else if Names(ms[..k], n) {
        var m :| m in ms[..k] && m.nodeId == n;
        assert m in ms;
      }
    }
  }

  lemma {:induction false} AddEndpointsFinds(providers: ProviderIndex, st: Started, c: CapabilityId,
                                             endpoints: seq<Endpoint>)
    requires IndexValid(providers)
    ensures IndexValid(AddEndpoints(providers, st, c, endpoints))
    ensures forall c', s :: Find(AddEndpoints(providers, st, c, endpoints), c', s) ==
                            if c' == c && s == st.serviceId && endpoints != []
                            then Some(NewProvider(st, c, endpoints[|endpoints| - 1])) else Find(providers, c', s)
  {
    if endpoints != [] {
      var k := |endpoints| - 1;
      AddEndpointsFinds(providers, st, c, endpoints[..k]);
      IndexIsMap(AddEndpoints(providers, st, c, endpoints[..k]), c, NewProvider(st, c, endpoints[k]), "");
    }
  }

  lemma {:induction false} AddCapabilitiesFinds(providers: ProviderIndex, st: Started, capabilities: seq<CapabilityId>)
    requires IndexValid(providers)
    ensures IndexValid(AddCapabilities(providers, st, capabilities))
    ensures forall c, s :: Find(AddCapabilities(providers, st, capabilities), c, s) ==
                           if c in capabilities && s == st.serviceId && st.endpoints != []
                           then Some(NewProvider(st, c, st.endpoints[|st.endpoints| - 1])) else Find(providers, c, s)
  {
    if capabilities != [] {
      var k := |capabilities| - 1;
      AddCapabilitiesFinds(providers, st, capabilities[..k]);
      AddEndpointsFinds(AddCapabilities(providers, st, capabilities[..k]), st, capabilities[k], st.endpoints);
      assert capabilities == capabilities[..k] + [capabilities[k]];
    }
  }

  lemma {:induction false} LookupReidentify(ps: seq<Provider>, s: ServiceId, identity: string, revoked: bool,
                                            t: ServiceId)
    ensures var r := Lookup(ReidentifyList(ps, s, identity, revoked), t);
            r == if Lookup(ps, t).Some? then Some(Reidentify(Lookup(ps, t).value, s, identity, revoked)) else None
  {
    if ps != [] {
      LookupReidentify(ps[1..], s, identity, revoked, t);
      assert ReidentifyList(ps, s, identity, revoked)[1..] == ReidentifyList(ps[1..], s, identity, revoked);
    }
  }

  lemma MembersValid(members: map<NodeId, Member>, b: Body)
    requires forall n :: n in members ==> members[n].nodeId == n
    ensures forall n :: n in MembersAfter(members, b) ==> MembersAfter(members, b)[n].nodeId == n
  {
    if b.Snapshot? {
      forall n | n in AddMembers(map[], b.members)
        ensures AddMembers(map[], b.members)[n].nodeId == n
      {
        AddMembersValid(map[], b.members, n);
      }
    }
  }

  lemma ProvidersValid(providers: ProviderIndex, b: Body)
    requires IndexValid(providers)
    ensures IndexValid(ProvidersAfter(providers, b))
  {
    if b.ServiceStarted? {
      AddCapabilitiesFinds(providers, b.started, b.started.capabilities);
    }
  }

  lemma ApplyValid(v: View, b: Body)
    requires ViewValid(v)
    ensures ViewValid(Apply(v, b))
  {
    MembersValid(v.members, b);
    ProvidersValid(v.providers, b);
  }

  lemma {:induction false} ReplayValid(h: seq<Body>)
    ensures ViewValid(Replay(h))
  {
    if h != [] {
      ReplayValid(h[..|h| - 1]);
      ApplyValid(Replay(h[..|h| - 1]), h[|h| - 1]);
    }
  }
}
