/** What revoking a service's identity changes about binding decisions: nothing but the fields
    of the provider handed out. */
module BindingRevocation {
  import opened Basics
  import opened BindingSpec
  import opened Discovery
  import opened MeshTypes
  import opened RegistryState
  import PolicySpec

  function Revoke(r: View, s: ServiceId): View {
    Apply(r, IdentityRevoked(s))
  }

  function Revise(ps: seq<Provider>, s: ServiceId): (revised: seq<Provider>)
    ensures |revised| == |ps| && forall i :: 0 <= i < |ps| ==> revised[i] == Reidentify(ps[i], s, "", true)
  {
    ReidentifyList(ps, s, "", true)
  }

  /** The same decision, with the entry of the registry after the revocation. */
  function RevisedDecision(d: Resolution, s: ServiceId): Resolution {
    if d.Granted? then Granted(Reidentify(d.provider, s, "", true)) else d
  }

  // ----- sorting -----

  /** Scored providers, rewritten; the scores stay. */
  function ReviseScores(scores: seq<Scored>, s: ServiceId): (revised: seq<Scored>)
    ensures |revised| == |scores|
    ensures forall i :: 0 <= i < |scores| ==>
              revised[i] == scores[i].(provider := Reidentify(scores[i].provider, s, "", true))
  {
    seq(|scores|, i requires 0 <= i < |scores| =>
      scores[i].(provider := Reidentify(scores[i].provider, s, "", true)))
  }

  lemma ComparedRevised(scores: seq<Scored>, i: nat, j: nat, s: ServiceId)
    requires i < j < |scores|
    ensures Compared(ReviseScores(scores, s), i, j) == ReviseScores(Compared(scores, i, j), s)
  {
  }

  lemma {:induction false} InnerSortRevised(scores: seq<Scored>, i: nat, j: nat, s: ServiceId)
    requires i < j <= |scores|
    ensures InnerSort(ReviseScores(scores, s), i, j) == ReviseScores(InnerSort(scores, i, j), s)
    decreases |scores| - j
  {
    if j < |scores| {
      ComparedRevised(scores, i, j, s);
      InnerSortRevised(Compared(scores, i, j), i, j + 1, s);
    }
  }

  /** The exchange loops read nothing but scores. */
  lemma {:induction false} OuterSortRevised(scores: seq<Scored>, i: nat, s: ServiceId)
    requires i <= |scores|
    ensures OuterSort(ReviseScores(scores, s), i) == ReviseScores(OuterSort(scores, i), s)
    decreases |scores| - i
  {
    if i < |scores| {
      InnerSortRevised(scores, i, i + 1, s);
      OuterSortRevised(InnerSort(scores, i, i + 1), i + 1, s);
    }
  }

  lemma {:induction false} KeepEligibleRevised(scores: seq<Scored>, s: ServiceId)
    ensures KeepEligible(ReviseScores(scores, s)) == Revise(KeepEligible(scores), s)
  {
    if scores != [] {
      var k := |scores| - 1;
      KeepEligibleRevised(scores[..k], s);
      assert ReviseScores(scores, s)[..k] == ReviseScores(scores[..k], s);
    }
  }

  /** Sorting the rewritten providers gives the rewritten sort. */
  lemma SortRevised(members: map<NodeId, Member>, client: NodeId, preference: Locality, ps: seq<Provider>, s: ServiceId)
    ensures SortByLocality(members, client, preference, Revise(ps, s))
         == Revise(SortByLocality(members, client, preference, ps), s)
  {
    var scores := Scores(members, client, preference, ps);
    assert Scores(members, client, preference, Revise(ps, s)) == ReviseScores(scores, s);
    OuterSortRevised(scores, 0, s);
    KeepEligibleRevised(OuterSort(scores, 0), s);
  }

  /** What a decision reads of the registry, apart from the fields of the providers. */
  lemma RevokedRegistry(r: View, req: BindingRequest, s: ServiceId)
    ensures var r' := Revoke(r, s);
            && r'.members == r.members && r'.cache == r.cache && r'.services.Keys == r.services.Keys
            && ListOf(r'.providers, req.capability) == Revise(ListOf(r.providers, req.capability), s)
            && (req.client in r.services ==> r'.services[req.client].nodeId == r.services[req.client].nodeId)
  {
  }

  /** The candidates after the revocation are those before it, rewritten, in the same order. */
  lemma CandidatesRevised(r: View, req: BindingRequest, s: ServiceId)
    ensures SortedFor(Revoke(r, s), req) == Revise(SortedFor(r, req), s)
  {
    RevokedRegistry(r, req, s);
    if req.capability in r.cache && req.client in r.services {
      var ps := ListOf(r.providers, req.capability);
      SortRevised(r.members, r.services[req.client].nodeId, Preference(req), ps, s);
    }
  }

  // ----- the decision -----

  /** For any list of candidates the decision after the revocation of `s` is the one before it;
      only a provider of `s` is handed out without identity and marked unavailable. */
  lemma RevocationChangesNoChoice(r: View, e: PolicySpec.View, req: BindingRequest, sorted: seq<Provider>,
                                  orders: nat -> seq<string>, checks: nat -> real, s: ServiceId)
    requires OrdersFit(e.policy.rules, orders)
    ensures Resolve(Revoke(r, s), e, req, Revise(sorted, s), orders, checks)
         == RevisedDecision(Resolve(r, e, req, sorted, orders, checks), s)
  {
    RevokedRegistry(r, req, s);
    assert AllowFlags(e, req, Revise(sorted, s), orders, checks) == AllowFlags(e, req, sorted, orders, checks);
  }

  /** The engine's decision: every request is answered after the revocation as before it, and a
      service, revoked or not, is granted exactly when it was. */
  lemma RevokedStillGranted(r: View, e: PolicySpec.View, req: BindingRequest, orders: nat -> seq<string>,
                            checks: nat -> real, s: ServiceId, t: ServiceId)
    requires OrdersFit(e.policy.rules, orders)
    ensures var before := Resolve(r, e, req, SortedFor(r, req), orders, checks);
            var after := Resolve(Revoke(r, s), e, req, SortedFor(Revoke(r, s), req), orders, checks);
            && after == RevisedDecision(before, s)
            && (after.Granted? && after.provider.serviceId == t <==> before.Granted? && before.provider.serviceId == t)
  {
    CandidatesRevised(r, req, s);
    RevocationChangesNoChoice(r, e, req, SortedFor(r, req), orders, checks, s);
  }

  /** A case: without rules, the revoked provider on the client's node is still granted. */
  lemma RevokedNearGranted(orders: nat -> seq<string>, checks: nat -> real)
    requires OrdersFit(map[], orders)
    ensures var r := Revoke(PRINT_REGISTRY, "near");
            Resolve(r, PLAIN_POLICY, PRINT_REQUEST, SortedFor(r, PRINT_REQUEST), orders, checks)
            == Granted(NEAR.(identity := "", available := false))
  {
    PrintSorted(PRINT_REQUEST);
    PrintPasses(PLAIN_POLICY, PRINT_REQUEST, NEAR, orders(0));
    HeadGranted(PRINT_REGISTRY, PLAIN_POLICY, PRINT_REQUEST, [NEAR, FAR], orders, checks);
    RevokedStillGranted(PRINT_REGISTRY, PLAIN_POLICY, PRINT_REQUEST, orders, checks, "near", "near");
  }
}
