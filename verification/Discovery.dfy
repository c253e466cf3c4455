/** The registry object: in-memory index of members, services and providers, and the locality
    sort over providers. */
module Discovery {
  import opened Basics
  import opened MeshTypes
  import RegistryState

  // ----- locality -----

  function Tag(tags: map<string, string>, key: string): string {
    if key in tags then tags[key] else ""
  }

  function DistanceBetween(members: map<NodeId, Member>, a: NodeId, b: NodeId): Distance {
    if a == b then SameNode
    else if a !in members || b !in members then Wan
    else if members[a].tags != map[] && members[b].tags != map[]
            && Tag(members[a].tags, "site") == Tag(members[b].tags, "site") then SameLan
    else Wan
  }

  function Rank(d: Distance): nat {
    match d case SameNode => 0 case SameLan => 1 case Wan => 2
  }

  function RankFrom(members: map<NodeId, Member>, client: NodeId, p: Provider): nat {
    Rank(DistanceBetween(members, client, p.nodeId))
  }

  /** The distance is a symmetric ultrametric on nodes. */
  lemma DistanceUltrametric(members: map<NodeId, Member>, a: NodeId, b: NodeId, c: NodeId)
    ensures DistanceBetween(members, a, b) == DistanceBetween(members, b, a)
    ensures Rank(DistanceBetween(members, a, b)) == 0 <==> a == b
    ensures Rank(DistanceBetween(members, a, c))
            <= Max(Rank(DistanceBetween(members, a, b)), Rank(DistanceBetween(members, b, c)))
  {
  }

  /** The node states no site: a missing tag reads as an empty one. */
  predicate Siteless(tags: map<string, string>) {
    "site" in tags ==> tags["site"] == ""
  }

  predicate SameSite(a: map<string, string>, b: map<string, string>) {
    "site" in a && "site" in b && a["site"] == b["site"]
  }

  /** Two nodes are on the same LAN iff they share a stated site, or both carry tags and neither
      states one. */
  lemma SameLanExactly(members: map<NodeId, Member>, a: NodeId, b: NodeId)
    ensures DistanceBetween(members, a, b).SameLan? <==>
            && a != b && a in members && b in members
            && var s, t := members[a].tags, members[b].tags;
               SameSite(s, t) || (Siteless(s) && Siteless(t) && s != map[] && t != map[])
  {
  }

  /** What a locality preference allows. */
  predicate Eligible(d: Distance, preference: Locality) {
    && (preference.NodeOnly? ==> d.SameNode?)
    && (preference.LanOnly? ==> !d.Wan?)
  }

  datatype Scored = Scored(provider: Provider, distance: Distance, score: int)

  /** The score the sort gives: closer is higher, 0 is not eligible. */
  function ScoreFor(d: Distance, preference: Locality): int {
    var base := match d case SameNode => 3 case SameLan => 2 case Wan => 1;
    match preference
    case NodeOnly => if d != SameNode then 0 else base
    case LanOnly => if d == Wan then 0 else base
    case LanPreferred => if d == Wan then 1 else base
    case _ => base
  }

  function Score(members: map<NodeId, Member>, client: NodeId, preference: Locality, p: Provider): Scored {
    var d := DistanceBetween(members, client, p.nodeId);
    Scored(p, d, ScoreFor(d, preference))
  }

  ghost predicate Descending(s: seq<Scored>) {
    forall i, j :: 0 <= i < j < |s| ==> s[i].score >= s[j].score
  }

  /** The first `i` elements are in place: none scores less than anything after it. */
  ghost predicate InPlace(s: seq<Scored>, i: int) {
    forall a, b :: 0 <= a < i && a < b < |s| ==> s[a].score >= s[b].score
  }

  /** The inner loop has compared position `i` with all up to `j`. */
  ghost predicate Leads(s: seq<Scored>, i: nat, j: int) {
    i < |s| && forall b :: i < b < j && b < |s| ==> s[i].score >= s[b].score
  }

  // ----- the exchange sort -----

  /** Positions i and j after one comparison: exchanged when the later scores higher. */
  function Compared(s: seq<Scored>, i: nat, j: nat): (r: seq<Scored>)
    requires i < j < |s|
    ensures |r| == |s|
  {
    if s[j].score > s[i].score then s[i := s[j]][j := s[i]] else s
  }

  /** What the inner loop leaves, starting at `j`. */
  function InnerSort(s: seq<Scored>, i: nat, j: nat): (r: seq<Scored>)
    requires i < j <= |s|
    ensures |r| == |s|
    decreases |s| - j
  {
    if j == |s| then s else InnerSort(Compared(s, i, j), i, j + 1)
  }

  /** What the outer loop leaves, starting at `i`. */
  function OuterSort(s: seq<Scored>, i: nat): (r: seq<Scored>)
    requires i <= |s|
    ensures |r| == |s|
    decreases |s| - i
  {
    if i == |s| then s else OuterSort(InnerSort(s, i, i + 1), i + 1)
  }

  lemma ComparedIs(s: seq<Scored>, i: nat, j: nat)
    requires i < j < |s| && InPlace(s, i) && Leads(s, i, j)
    ensures multiset(Compared(s, i, j)) == multiset(s)
    ensures InPlace(Compared(s, i, j), i) && Leads(Compared(s, i, j), i, j + 1)
  {
  }

  lemma {:induction false} InnerSortIs(s: seq<Scored>, i: nat, j: nat)
    requires i < j <= |s| && InPlace(s, i) && Leads(s, i, j)
    ensures multiset(InnerSort(s, i, j)) == multiset(s) && InPlace(InnerSort(s, i, j), i + 1)
    decreases |s| - j
  {
    if j < |s| {
      ComparedIs(s, i, j);
      InnerSortIs(Compared(s, i, j), i, j + 1);
    } else {
      LeadsAll(s, i);
    }
  }

  lemma LeadsAll(s: seq<Scored>, i: nat)
    requires i < |s| && InPlace(s, i) && Leads(s, i, |s|)
    ensures InPlace(s, i + 1)
  {
  }

  /** The loops permute and leave the scores in descending order. */
  lemma {:induction false} OuterSortIs(s: seq<Scored>, i: nat)
    requires i <= |s| && InPlace(s, i)
    ensures multiset(OuterSort(s, i)) == multiset(s) && Descending(OuterSort(s, i))
    decreases |s| - i
  {
    if i < |s| {
      InnerSortIs(s, i, i + 1);
      OuterSortIs(InnerSort(s, i, i + 1), i + 1);
    }
  }

  /** One comparison of the inner loop. */
  method CompareExchange(scores: array<Scored>, i: nat, j: nat)
    requires i < j < scores.Length
    modifies scores
    ensures scores[..] == Compared(old(scores[..]), i, j)
  {
    if scores[j].score > scores[i].score {
      scores[i], scores[j] := scores[j], scores[i];
    }
  }

  /** The in-place exchange loops. */
  method SortByScore(scores: array<Scored>)
    modifies scores
    ensures scores[..] == OuterSort(old(scores[..]), 0)
    ensures multiset(scores[..]) == multiset(old(scores[..])) && Descending(scores[..])
  {
    for i := 0 to scores.Length
      invariant OuterSort(scores[..], i) == OuterSort(old(scores[..]), 0)
    {
      RunInner(scores, i);
    }
    OuterSortIs(old(scores[..]), 0);
  }

  /** The inner loop. */
  method RunInner(scores: array<Scored>, i: nat)
    requires i < scores.Length
    modifies scores
    ensures scores[..] == InnerSort(old(scores[..]), i, i + 1)
  {
    for j := i + 1 to scores.Length
      invariant InnerSort(scores[..], i, j) == InnerSort(old(scores[..]), i, i + 1)
    {
      CompareExchange(scores, i, j);
    }
  }

  /** `sorted` holds exactly the eligible members of `ps`, as often as `ps` does, nearest first. */
  ghost predicate NearestFirst(members: map<NodeId, Member>, client: NodeId, preference: Locality,
                               ps: seq<Provider>, sorted: seq<Provider>) {
    && (forall p :: multiset(sorted)[p] ==
          if Eligible(DistanceBetween(members, client, p.nodeId), preference) then multiset(ps)[p] else 0)
    && forall i, j :: 0 <= i < j < |sorted| ==>
         RankFrom(members, client, sorted[i]) <= RankFrom(members, client, sorted[j])
  }

  class Registry {
    var members: map<NodeId, Member>
    var services: map<ServiceId, ServiceEntry>
    var providers: ProviderIndex
    var cache: map<CapabilityId, Capability>

    ghost function View(): RegistryState.View
      reads this
    {
      RegistryState.View(members, services, providers, cache)
    }

    ghost predicate Valid()
      reads this
    {
      RegistryState.ViewValid(View())
    }

    constructor ()
      ensures Valid() && View() == RegistryState.EMPTY
    {
      members, services, providers, cache := map[], map[], map[], map[];
    }

    method ReplaceCapabilityCache(capabilities: map<CapabilityId, Capability>)
      modifies this
      ensures View() == old(View()).(cache := capabilities)
    {
      cache := capabilities;
    }

    method AddOrUpdateMember(member: Member)
      modifies this
      ensures View() == old(View()).(members := old(members)[member.nodeId := member])
    {
      members := members[member.nodeId := member];
    }

    method RemoveMember(nodeId: NodeId)
      modifies this
      ensures View() == old(View()).(members := old(members) - {nodeId})
    {
      members := members - {nodeId};
    }

    method AddOrUpdateService(service: ServiceEntry)
      modifies this
      ensures View() == old(View()).(services := old(services)[service.serviceId := service])
    {
      services := services[service.serviceId := service];
    }

    method RemoveService(serviceId: ServiceId)
      modifies this
      ensures View() == old(View()).(services := old(services) - {serviceId})
    {
      services := services - {serviceId};
    }

    /** Replaces the capability's first entry of the same service, or appends. */
    method AddOrUpdateProvider(capabilityId: CapabilityId, provider: Provider)
      modifies this
      ensures View() == old(View()).(providers := RegistryState.Put(old(providers), capabilityId, provider))
    {
      if capabilityId !in providers {
        providers := providers[capabilityId := [provider]];
        return;
      }
      var list := providers[capabilityId];
      var i := 0;
      while i < |list|
        invariant i <= |list|
        invariant RegistryState.Upsert(list, provider) == list[..i] + RegistryState.Upsert(list[i..], provider)
      {
        if list[i].serviceId == provider.serviceId {
          providers := providers[capabilityId := list[i := provider]];
          assert list[i := provider] == list[..i] + ([provider] + list[i..][1..]);
          return;
        }
        assert list[i..][1..] == list[i + 1..];
        assert list[..i] + ([list[i]] + RegistryState.Upsert(list[i + 1..], provider))
            == list[..i + 1] + RegistryState.Upsert(list[i + 1..], provider);
        i := i + 1;
      }
      assert list[..i] == list && list[i..] == [];
      providers := providers[capabilityId := list + [provider]];
    }

    method RemoveProvider(capabilityId: CapabilityId, serviceId: ServiceId)
      modifies this
      ensures View() == old(View()).(providers := RegistryState.Remove(old(providers), capabilityId, serviceId))
    {
      if capabilityId !in providers {
        return;
      }
      var list := providers[capabilityId];
      var filtered: seq<Provider> := [];
      for i := 0 to |list|
        invariant filtered == RegistryState.Without(list[..i], serviceId)
      {
        assert list[..i + 1][..i] == list[..i];
        if list[i].serviceId != serviceId {
          filtered := filtered + [list[i]];
        } else {
          assert filtered + [] == filtered;
        }
      }
      assert list[..|list|] == list;
      providers := providers[capabilityId := filtered];
    }

    method GetProviders(capabilityId: CapabilityId) returns (ps: seq<Provider>)
      ensures ps == RegistryState.ListOf(providers, capabilityId)
    {
      ps := if capabilityId in providers then providers[capabilityId] else [];
    }

    /** Members, services and providers go; the capability cache stays. */
    method Clear()
      modifies this
      ensures View() == RegistryState.View(map[], map[], map[], old(cache))
    {
      members, services, providers := map[], map[], map[];
    }

    method CalculateProviderDistance(clientNodeId: NodeId, providerNodeId: NodeId) returns (d: Distance)
      ensures d == DistanceBetween(members, clientNodeId, providerNodeId)
    {
      if clientNodeId == providerNodeId {
        return SameNode;
      }
      if clientNodeId !in members || providerNodeId !in members {
        return Wan;
      }
      var c, p := members[clientNodeId], members[providerNodeId];
      if |c.tags| > 0 && |p.tags| > 0 {
        if Tag(c.tags, "site") == Tag(p.tags, "site") {
          return SameLan;
        }
      }
      d := Wan;
    }

    /** The eligible providers, nearest first. */
    method SortProvidersByLocality(ps: seq<Provider>, clientNodeId: NodeId, preference: Locality)
      returns (result: seq<Provider>)
      ensures result == SortByLocality(members, clientNodeId, preference, ps)
      ensures NearestFirst(members, clientNodeId, preference, ps, result)
    {
      var unset := Scored(Provider("", "", "", "", NoTier, Endpoint("", "", 0), None, false), Wan, 0);
      var scores := new Scored[|ps|](_ => unset);
      for i := 0 to |ps|
        invariant forall k :: 0 <= k < i ==> scores[k] == Score(members, clientNodeId, preference, ps[k])
      {
        var d := CalculateProviderDistance(clientNodeId, ps[i].nodeId);
        scores[i] := Scored(ps[i], d, ScoreFor(d, preference));
      }
      assert scores[..] == Scores(members, clientNodeId, preference, ps);
      SortByScore(scores);
      result := [];
      for i := 0 to scores.Length
        invariant result == KeepEligible(scores[..i])
      {
        assert scores[..i + 1][..i] == scores[..i];
        if scores[i].score > 0 {
          result := result + [scores[i].provider];
        } else {
          assert result + [] == result;
        }
      }
      assert scores[..scores.Length] == scores[..];
      SortedEligible(members, clientNodeId, preference, ps);
    }
  }

  function Scores(members: map<NodeId, Member>, client: NodeId, preference: Locality, ps: seq<Provider>): seq<Scored> {
    seq(|ps|, i requires 0 <= i < |ps| => Score(members, client, preference, ps[i]))
  }

  /** The list the sort returns. */
  function SortByLocality(members: map<NodeId, Member>, client: NodeId, preference: Locality,
                          ps: seq<Provider>): seq<Provider>
  {
    KeepEligible(OuterSort(Scores(members, client, preference, ps), 0))
  }

  function KeepEligible(s: seq<Scored>): seq<Provider> {
    if s == [] then [] else
      KeepEligible(s[..|s| - 1]) + (if s[|s| - 1].score > 0 then [s[|s| - 1].provider] else [])
  }

  /** Filtering scored providers keeps the positive ones, each as often as before, ... */
  lemma {:induction false} KeepCount(score: Provider -> Scored, s: seq<Scored>, p: Provider)
    requires score(p).provider == p && forall i :: 0 <= i < |s| ==> s[i] == score(s[i].provider)
    ensures multiset(KeepEligible(s))[p] == if score(p).score > 0 then multiset(s)[score(p)] else 0
  {
    if s != [] {
      var k := |s| - 1;
      KeepCount(score, s[..k], p);
      assert s == s[..k] + [s[k]];
      assert s[k].provider == p <==> s[k] == score(p);
    }
  }

  lemma {:induction false} KeptScores(score: Provider -> Scored, s: seq<Scored>, i: nat)
    requires i < |KeepEligible(s)| && forall i :: 0 <= i < |s| ==> s[i] == score(s[i].provider)
    ensures score(KeepEligible(s)[i]).score > 0 && exists m :: 0 <= m < |s| && s[m] == score(KeepEligible(s)[i])
  {
    var k := |s| - 1;
    if i < |KeepEligible(s[..k])| {
      KeptScores(score, s[..k], i);
      var m :| 0 <= m < k && s[..k][m] == score(KeepEligible(s[..k])[i]);
      assert s[m] == s[..k][m];
    } else {
      assert s[k] == score(KeepEligible(s)[i]);
    }
  }

  /** ... and their order. */
  lemma {:induction false} KeepOrder(score: Provider -> Scored, s: seq<Scored>, i: nat, j: nat)
    requires i < j < |KeepEligible(s)| && Descending(s) && forall i :: 0 <= i < |s| ==> s[i] == score(s[i].provider)
    ensures score(KeepEligible(s)[i]).score >= score(KeepEligible(s)[j]).score
  {
    var k := |s| - 1;
    if j < |KeepEligible(s[..k])| {
      KeepOrder(score, s[..k], i, j);
    } else {
      KeptScores(score, s[..k], i);
      var m :| 0 <= m < k && s[..k][m] == score(KeepEligible(s[..k])[i]);
      assert s[m].score >= s[k].score;
    }
  }

  /** Scoring is injective on providers, so it keeps multiplicities. */
  lemma ScoredMultiset(score: Provider -> Scored, ps: seq<Provider>, scores: seq<Scored>)
    requires forall p :: score(p).provider == p
    requires |scores| == |ps| && forall k :: 0 <= k < |ps| ==> scores[k] == score(ps[k])
    ensures forall p :: multiset(scores)[score(p)] == multiset(ps)[p]
    ensures forall e :: e in multiset(scores) ==> e == score(e.provider)
  {
    forall p
      ensures multiset(scores)[score(p)] == multiset(ps)[p]
    {
      assert score(p).provider == p;
      ImageCounts(score, ps, scores, p);
    }
  }

  /** It holds exactly the eligible providers, each as often as given, nearest first. */
  lemma SortedEligible(members: map<NodeId, Member>, client: NodeId, preference: Locality, ps: seq<Provider>)
    ensures NearestFirst(members, client, preference, ps, SortByLocality(members, client, preference, ps))
  {
    var score := p => Score(members, client, preference, p);
    var unsorted := Scores(members, client, preference, ps);
    var s := OuterSort(unsorted, 0);
    OuterSortIs(unsorted, 0);
    ScoredMultiset(score, ps, unsorted);
    forall i | 0 <= i < |s| ensures s[i] == score(s[i].provider) {
      assert s[i] in multiset(s);
    }
    forall p ensures multiset(KeepEligible(s))[p] ==
        if Eligible(DistanceBetween(members, client, p.nodeId), preference) then multiset(ps)[p] else 0
    {
      KeepCount(score, s, p);
      ScorePositive(DistanceBetween(members, client, p.nodeId), preference);
    }
    var kept := KeepEligible(s);
    forall i, j | 0 <= i < j < |kept|
      ensures RankFrom(members, client, kept[i]) <= RankFrom(members, client, kept[j])
    {
      KeepOrder(score, s, i, j);
      KeptScores(score, s, i);
      KeptScores(score, s, j);
      ScorePositive(DistanceBetween(members, client, kept[i].nodeId), preference);
      ScorePositive(DistanceBetween(members, client, kept[j].nodeId), preference);
    }
  }

  /** The eligible providers in plain terms: on the client's own node for node_only, on its node
      or LAN for lan_only, all for anything else. */
  lemma EligibleExactly(members: map<NodeId, Member>, client: NodeId, preference: Locality, ps: seq<Provider>,
                        p: Provider)
    ensures p in SortByLocality(members, client, preference, ps) <==>
            && p in ps
            && (preference.NodeOnly? ==> p.nodeId == client)
            && (preference.LanOnly? ==> p.nodeId == client || DistanceBetween(members, client, p.nodeId).SameLan?)
  {
    SortedEligible(members, client, preference, ps);
    assert p in ps <==> multiset(ps)[p] > 0;
    var sorted := SortByLocality(members, client, preference, ps);
    assert p in sorted <==> multiset(sorted)[p] > 0;
  }

  // ----- which of several nearest comes first -----

  /** The first of the best, of `best` and the scores from `j` on. */
  function FirstBest(s: seq<Scored>, best: Scored, j: nat): Scored
    requires j <= |s|
    decreases |s| - j
  {
    if j == |s| then best else FirstBest(s, if s[j].score > best.score then s[j] else best, j + 1)
  }

  /** The inner loop brings it to position 0; what lies ahead of the loop is as it was. */
  lemma {:induction false} InnerSortHead(s: seq<Scored>, was: seq<Scored>, j: nat)
    requires 0 < j <= |s| == |was| && s[j..] == was[j..]
    ensures InnerSort(s, 0, j)[0] == FirstBest(was, s[0], j)
    decreases |s| - j
  {
    if j < |s| {
      assert s[j] == s[j..][0] && was[j] == was[j..][0];
      assert Compared(s, 0, j)[j + 1..] == s[j + 1..] == s[j..][1..] && was[j + 1..] == was[j..][1..];
      InnerSortHead(Compared(s, 0, j), was, j + 1);
    }
  }

  lemma {:induction false} InnerSortKeeps(s: seq<Scored>, i: nat, j: nat)
    requires 0 < i < j <= |s|
    ensures InnerSort(s, i, j)[0] == s[0]
    decreases |s| - j
  {
    if j < |s| {
      InnerSortKeeps(Compared(s, i, j), i, j + 1);
    }
  }

  lemma {:induction false} OuterSortKeeps(s: seq<Scored>, i: nat)
    requires 0 < i <= |s|
    ensures OuterSort(s, i)[0] == s[0]
    decreases |s| - i
  {
    if i < |s| {
      InnerSortKeeps(s, i, i + 1);
      OuterSortKeeps(InnerSort(s, i, i + 1), i + 1);
    }
  }

  lemma {:induction false} FirstBestIs(s: seq<Scored>, j: nat, m: nat) returns (k: nat)
    requires m < j <= |s|
    requires forall a :: 0 <= a < j ==> s[a].score <= s[m].score
    requires forall a :: 0 <= a < m ==> s[a].score < s[m].score
    ensures k < |s| && FirstBest(s, s[m], j) == s[k]
    ensures forall a :: 0 <= a < |s| ==> s[a].score <= s[k].score
    ensures forall a :: 0 <= a < k ==> s[a].score < s[k].score
    decreases |s| - j
  {
    if j == |s| {
      k := m;
    } else {
      k := FirstBestIs(s, j + 1, if s[j].score > s[m].score then j else m);
    }
  }

  /** The head of the sorted scores is the first of the best in the order given. */
  lemma SortedHead(s: seq<Scored>) returns (k: nat)
    requires s != []
    ensures k < |s| && OuterSort(s, 0)[0] == s[k]
    ensures forall a :: 0 <= a < |s| ==> s[a].score <= s[k].score
    ensures forall a :: 0 <= a < k ==> s[a].score < s[k].score
  {
    InnerSortHead(s, s, 1);
    OuterSortKeeps(InnerSort(s, 0, 1), 1);
    k := FirstBestIs(s, 1, 0);
  }

  lemma {:induction false} KeepHead(s: seq<Scored>)
    requires s != [] && s[0].score > 0
    ensures KeepEligible(s) != [] && KeepEligible(s)[0] == s[0].provider
  {
    if |s| > 1 {
      KeepHead(s[..|s| - 1]);
    } else {
      assert s[..0] == [];
    }
  }

  lemma ScoresAre(members: map<NodeId, Member>, client: NodeId, preference: Locality, ps: seq<Provider>)
    ensures var scores := Scores(members, client, preference, ps);
            forall a :: 0 <= a < |ps| ==>
              && scores[a].provider == ps[a]
              && (scores[a].score > 0 <==> IsEligible(members, client, preference, ps[a]))
              && (scores[a].score > 0 ==> scores[a].score == 3 - RankFrom(members, client, ps[a]))
  {
    forall a | 0 <= a < |ps|
      ensures var s := Scores(members, client, preference, ps)[a];
              && s.provider == ps[a] && (s.score > 0 <==> IsEligible(members, client, preference, ps[a]))
              && (s.score > 0 ==> s.score == 3 - RankFrom(members, client, ps[a]))
    {
      ScorePositive(DistanceBetween(members, client, ps[a].nodeId), preference);
    }
  }

  predicate IsEligible(members: map<NodeId, Member>, client: NodeId, preference: Locality, p: Provider) {
    Eligible(DistanceBetween(members, client, p.nodeId), preference)
  }

  lemma SomeEligible(members: map<NodeId, Member>, client: NodeId, preference: Locality, ps: seq<Provider>)
    returns (e: nat)
    requires SortByLocality(members, client, preference, ps) != []
    ensures e < |ps| && IsEligible(members, client, preference, ps[e])
  {
    var sorted := SortByLocality(members, client, preference, ps);
    assert sorted[0] in sorted;
    EligibleHolds(members, client, preference, ps, sorted[0]);
    e :| 0 <= e < |ps| && ps[e] == sorted[0];
  }

  lemma EligibleHolds(members: map<NodeId, Member>, client: NodeId, preference: Locality, ps: seq<Provider>,
                      p: Provider)
    requires p in SortByLocality(members, client, preference, ps)
    ensures p in ps && IsEligible(members, client, preference, p)
  {
    SortedEligible(members, client, preference, ps);
    assert multiset(SortByLocality(members, client, preference, ps))[p] > 0;
    assert multiset(ps)[p] > 0;
  }

  /** Of several equally near providers, the one registered first comes first: the head of the
      result is the first, in the order given, of the nearest eligible ones. */
  lemma FirstOfTheNearest(members: map<NodeId, Member>, client: NodeId, preference: Locality, ps: seq<Provider>)
    returns (k: nat)
    requires SortByLocality(members, client, preference, ps) != []
    ensures k < |ps| && SortByLocality(members, client, preference, ps)[0] == ps[k]
    ensures forall a :: 0 <= a < |ps| && IsEligible(members, client, preference, ps[a]) ==>
              RankFrom(members, client, ps[k]) <= RankFrom(members, client, ps[a])
    ensures forall a :: 0 <= a < k && IsEligible(members, client, preference, ps[a]) ==>
              RankFrom(members, client, ps[k]) < RankFrom(members, client, ps[a])
  {
    var scores := Scores(members, client, preference, ps);
    ScoresAre(members, client, preference, ps);
    var e := SomeEligible(members, client, preference, ps);
    k := SortedHead(scores);
    assert scores[e].score <= scores[k].score;
    KeepHead(OuterSort(scores, 0));
  }

  lemma SortOfNone(members: map<NodeId, Member>, client: NodeId, preference: Locality)
    ensures SortByLocality(members, client, preference, []) == []
  {
  }

  lemma SortOfOne(members: map<NodeId, Member>, client: NodeId, preference: Locality, p: Provider)
    requires Eligible(DistanceBetween(members, client, p.nodeId), preference)
    ensures SortByLocality(members, client, preference, [p]) == [p]
  {
    var scores := Scores(members, client, preference, [p]);
    ScorePositive(DistanceBetween(members, client, p.nodeId), preference);
    assert OuterSort(scores, 0) == OuterSort(InnerSort(scores, 0, 1), 1) == scores;
    assert KeepEligible(scores) == KeepEligible(scores[..0]) + [p];
  }

  lemma ScorePositive(d: Distance, preference: Locality)
    ensures ScoreFor(d, preference) > 0 <==> Eligible(d, preference)
    ensures ScoreFor(d, preference) > 0 ==> ScoreFor(d, preference) == 3 - Rank(d)
  {
  }
}
