/** The grant store: issue, revoke, lazy expiry while listing and periodic expiry, against the
    simple meaning "issued, not revoked since, not past its expiry". Times are seconds. */
module Grants {
  import opened Basics
  import opened MeshTypes

  const DEFAULT_GRANT_TTL: real := 3600.0
  const RETENTION: real := 86400.0

  datatype GrantState = Active | Expired | Revoked

  datatype Grant = Grant(id: string, client: ServiceId, clientIdentity: string, provider: ServiceId,
                         providerIdentity: string, capability: CapabilityId, createdAt: real, expiresAt: real,
                         state: GrantState, lastError: string)

  datatype GrantRequest = GrantRequest(client: ServiceId, clientIdentity: string, provider: ServiceId,
                                       providerIdentity: string, capability: CapabilityId, ttlMs: int)

  function Ttl(ttlMs: int): real {
    if ttlMs == 0 then DEFAULT_GRANT_TTL else ttlMs as real / 1000.0
  }

  predicate Complete(req: GrantRequest) {
    req.client != "" && req.provider != "" && req.capability != ""
  }

  function NewGrant(req: GrantRequest, id: string, now: real): Grant {
    Grant(id, req.client, req.clientIdentity, req.provider, req.providerIdentity, req.capability,
          now, now + Ttl(req.ttlMs), Active, "")
  }

  predicate IsOverdue(g: Grant, now: real) {
    g.state.Active? && now > g.expiresAt
  }

  /** The grant names what the request names, from now on. */
  predicate AsRequested(g: Grant, req: GrantRequest, id: string, now: real) {
    && g.id == id && g.client == req.client && g.clientIdentity == req.clientIdentity
    && g.provider == req.provider && g.providerIdentity == req.providerIdentity
    && g.capability == req.capability && g.createdAt == now
  }

  function Expire(g: Grant, now: real): Grant {
    if IsOverdue(g, now) then g.(state := Expired) else g
  }

  function ExpireAll(grants: map<string, Grant>, now: real): map<string, Grant> {
    map id | id in grants :: Expire(grants[id], now)
  }

  predicate Disposable(g: Grant, now: real) {
    g.state.Expired? && g.expiresAt < now - RETENTION
  }

  /** Part of the way through a walk over the map: only `rest` is still to be visited. */
  ghost function ExpireExcept(grants: map<string, Grant>, rest: set<string>, now: real): map<string, Grant> {
    map id | id in grants :: if id in rest then grants[id] else Expire(grants[id], now)
  }

  lemma ExpireOneMore(grants: map<string, Grant>, rest: set<string>, id: string, now: real)
    requires id in rest && rest <= grants.Keys
    ensures ExpireExcept(grants, rest - {id}, now) == ExpireExcept(grants, rest, now)[id := Expire(grants[id], now)]
    ensures ExpireExcept(grants, rest, now)[id] == grants[id]
  {
  }

  lemma ExpireEnds(grants: map<string, Grant>, now: real)
    ensures ExpireExcept(grants, grants.Keys, now) == grants && ExpireExcept(grants, {}, now) == ExpireAll(grants, now)
  {
  }

  /** The grants that a walk marks as expired. */
  function Overdue(grants: map<string, Grant>, now: real): set<string> {
    set id | id in grants && IsOverdue(grants[id], now)
  }

  function OverdueExcept(grants: map<string, Grant>, rest: set<string>, now: real): nat {
    |Overdue(grants, now) - rest|
  }

  lemma OverdueOneMore(grants: map<string, Grant>, rest: set<string>, id: string, now: real)
    requires id in rest && rest <= grants.Keys
    ensures OverdueExcept(grants, rest - {id}, now)
         == OverdueExcept(grants, rest, now) + (if IsOverdue(grants[id], now) then 1 else 0)
  {
    var more := if id in Overdue(grants, now) then {id} else {};
    assert Overdue(grants, now) - (rest - {id}) == (Overdue(grants, now) - rest) + more;
  }

  lemma OverdueEnds(grants: map<string, Grant>, now: real)
    ensures OverdueExcept(grants, grants.Keys, now) == 0 && OverdueExcept(grants, {}, now) == |Overdue(grants, now)|
  {
    assert Overdue(grants, now) - grants.Keys == {} && Overdue(grants, now) - {} == Overdue(grants, now);
  }

  /** Part of the way through a walk that deletes the disposable grants. */
  ghost function KeptExcept(grants: map<string, Grant>, rest: set<string>, now: real): map<string, Grant> {
    map id | id in grants && (id in rest || !Disposable(grants[id], now)) :: grants[id]
  }

  lemma KeepOneMore(grants: map<string, Grant>, rest: set<string>, id: string, now: real)
    requires id in rest && rest <= grants.Keys
    ensures id in KeptExcept(grants, rest, now) && KeptExcept(grants, rest, now)[id] == grants[id]
    ensures KeptExcept(grants, rest - {id}, now) ==
            if Disposable(grants[id], now) then KeptExcept(grants, rest, now) - {id} else KeptExcept(grants, rest, now)
  {
  }

  lemma KeepEnds(grants: map<string, Grant>, now: real)
    ensures KeptExcept(grants, grants.Keys, now) == grants
    ensures KeptExcept(ExpireAll(grants, now), {}, now) == Sweep(grants, now)
  {
  }

  function Sweep(grants: map<string, Grant>, now: real): map<string, Grant> {
    map id | id in grants && !Disposable(Expire(grants[id], now), now) :: Expire(grants[id], now)
  }

  predicate Listed(g: Grant, now: real) {
    g.state.Active? && now <= g.expiresAt
  }

  /** `active` lists each live grant outside `rest` once. */
  ghost predicate ListedExcept(grants: map<string, Grant>, rest: set<string>, now: real, active: seq<Grant>) {
    && (forall i :: 0 <= i < |active| ==>
          && active[i].id in grants && active[i].id !in rest
          && active[i] == grants[active[i].id] && Listed(active[i], now))
    && (forall id :: id in grants && id !in rest && Listed(grants[id], now) ==> grants[id] in active)
    && (forall i, j :: 0 <= i < j < |active| ==> active[i].id != active[j].id)
  }

  lemma ListOneMore(grants: map<string, Grant>, rest: set<string>, id: string, now: real, active: seq<Grant>)
    requires id in rest && rest <= grants.Keys && grants[id].id == id && ListedExcept(grants, rest, now, active)
    ensures ListedExcept(grants, rest - {id}, now, if Listed(grants[id], now) then active + [grants[id]] else active)
  {
  }

  class GrantManager {
    var grants: map<string, Grant>

    predicate Valid()
      reads this
    {
      forall id :: id in grants ==> grants[id].id == id
    }

    constructor ()
      ensures Valid() && grants == map[]
    {
      grants := map[];
    }

    /** Stores a new active grant under the generated `id`, unless the request names no client,
        provider or capability. */
    method IssueGrant(req: Option<GrantRequest>, id: string, now: real) returns (grant: Option<Grant>)
      requires Valid()
      modifies this
      ensures Valid()
      ensures grant.Some? <==>
                req.Some? && req.value.client != "" && req.value.provider != "" && req.value.capability != ""
      ensures grant.Some? ==> grant.value == NewGrant(req.value, id, now) && grants == old(grants)[id := grant.value]
      ensures grant.Some? ==> AsRequested(grant.value, req.value, id, now)
      ensures grant.None? ==> grants == old(grants)
    {
      if req.None? || req.value.client == "" || req.value.provider == "" || req.value.capability == "" {
        return None;
      }
      var ttl := req.value.ttlMs as real / 1000.0;
      if ttl == 0.0 {
        ttl := DEFAULT_GRANT_TTL;
      }
      var r := req.value;
      var g := Grant(id, r.client, r.clientIdentity, r.provider, r.providerIdentity, r.capability,
                     now, now + ttl, Active, "");
      grants := grants[id := g];
      grant := Some(g);
    }

    /** Revokes a stored grant whatever its state. */
    method RevokeGrant(id: string, reason: string) returns (ok: bool)
      requires Valid()
      modifies this
      ensures Valid() && ok == (id != "" && id in old(grants))
      ensures grants == if ok then old(grants)[id := old(grants)[id].(state := Revoked, lastError := reason)]
                        else old(grants)
    {
      if id == "" || id !in grants {
        return false;
      }
      grants := grants[id := grants[id].(state := Revoked, lastError := reason)];
      ok := true;
    }

    /** Returns the live grants, each once, and marks the overdue ones it meets as expired. */
    method ListActiveGrants(now: real) returns (active: seq<Grant>)
      requires Valid()
      modifies this
      ensures Valid() && grants == ExpireAll(old(grants), now)
      ensures forall g :: g in active <==> g.id in old(grants) && g == old(grants)[g.id] && Listed(g, now)
      ensures forall i, j :: 0 <= i < j < |active| ==> active[i].id != active[j].id
    {
      active := [];
      var rest := grants.Keys;
      ghost var was := grants;
      ExpireEnds(was, now);
      while rest != {}
        invariant rest <= was.Keys
        invariant grants == ExpireExcept(was, rest, now)
        invariant ListedExcept(was, rest, now, active)
      {
        var id :| id in rest;
        ExpireOneMore(was, rest, id, now);
        ListOneMore(was, rest, id, now, active);
        rest := rest - {id};
        var g := grants[id];
        if g.state.Active? {
          if now > g.expiresAt {
            grants := grants[id := g.(state := Expired)];
          } else {
            active := active + [g];
          }
        }
      }
    }

    /** First half of ExpireGrants: marks overdue grants and counts them. */
    method MarkExpired(now: real) returns (expired: nat)
      modifies this
      ensures grants == ExpireAll(old(grants), now)
      ensures expired == |Overdue(old(grants), now)|
    {
      expired := 0;
      var rest := grants.Keys;
      ghost var was := grants;
      ExpireEnds(was, now);
      OverdueEnds(was, now);
      while rest != {}
        invariant rest <= was.Keys
        invariant grants == ExpireExcept(was, rest, now)
        invariant expired == OverdueExcept(was, rest, now)
      {
        var id :| id in rest;
        ExpireOneMore(was, rest, id, now);
        OverdueOneMore(was, rest, id, now);
        rest := rest - {id};
        var marked := MarkIfOverdue(id, now);
        if marked {
          expired := expired + 1;
        }
      }
    }

    method MarkIfOverdue(id: string, now: real) returns (marked: bool)
      requires id in grants
      modifies this
      ensures grants == old(grants)[id := Expire(old(grants)[id], now)] && marked == IsOverdue(old(grants)[id], now)
    {
      var g := grants[id];
      marked := g.state.Active? && now > g.expiresAt;
      if marked {
        grants := grants[id := g.(state := Expired)];
      }
    }

    /** Marks overdue grants as expired and deletes those expired for more than a day. */
    method ExpireGrants(now: real) returns (expired: nat)
      requires Valid()
      modifies this
      ensures Valid() && grants == Sweep(old(grants), now)
      ensures expired == |Overdue(old(grants), now)|
    {
      ghost var was := grants;
      expired := MarkExpired(now);
      var rest := grants.Keys;
      ghost var marked := grants;
      KeepEnds(was, now);
      KeepEnds(marked, now);
      while rest != {}
        invariant rest <= marked.Keys
        invariant grants == KeptExcept(marked, rest, now)
      {
        var id :| id in rest;
        KeepOneMore(marked, rest, id, now);
        rest := rest - {id};
        if grants[id].state.Expired? && grants[id].expiresAt < now - RETENTION {
          grants := grants - {id};
        }
      }
    }
  }

  // ----- runs -----

  datatype Op =
    | Issue(req: GrantRequest, id: string, now: real)
    | Revoke(target: string, reason: string)
    | List(now: real)
    | SweepAt(now: real)

  function Perform(grants: map<string, Grant>, op: Op): map<string, Grant> {
    match op
    case Issue(req, id, now) => if Complete(req) then grants[id := NewGrant(req, id, now)] else grants
    case Revoke(id, reason) =>
      if id != "" && id in grants then grants[id := grants[id].(state := Revoked, lastError := reason)] else grants
    case List(now) => ExpireAll(grants, now)
    case SweepAt(now) => Sweep(grants, now)
  }

  function Run(ops: seq<Op>): map<string, Grant> {
    if ops == [] then map[] else Perform(Run(ops[..|ops| - 1]), ops[|ops| - 1])
  }

  /** Generated IDs are not empty and never repeat. */
  predicate FreshIds(ops: seq<Op>) {
    && (forall i :: 0 <= i < |ops| && ops[i].Issue? ==> ops[i].id != "")
    && forall i, j :: 0 <= i < j < |ops| && ops[i].Issue? && ops[j].Issue? ==> ops[i].id != ops[j].id
  }

  /** No operation happens after `t`. */
  predicate Before(ops: seq<Op>, t: real) {
    forall i :: 0 <= i < |ops| && !ops[i].Revoke? ==> ops[i].now <= t
  }

  predicate Monotone(ops: seq<Op>) {
    forall i, j :: 0 <= i < j < |ops| && !ops[i].Revoke? && !ops[j].Revoke? ==> ops[i].now <= ops[j].now
  }

  predicate Issues(op: Op, g: Grant) {
    op.Issue? && Complete(op.req) && g == NewGrant(op.req, op.id, op.now)
  }

  /** Issued, not revoked since, and not past its expiry at `t`. */
  ghost predicate LiveAt(ops: seq<Op>, g: Grant, t: real) {
    && t <= g.expiresAt
    && exists i :: 0 <= i < |ops| && Issues(ops[i], g)
                   && forall j :: i < j < |ops| ==> !(ops[j].Revoke? && ops[j].target == g.id)
  }

  lemma LiveSnoc(ops: seq<Op>, g: Grant, t: real)
    requires ops != []
    ensures LiveAt(ops, g, t) <==>
            t <= g.expiresAt && (Issues(ops[|ops| - 1], g)
              || (LiveAt(ops[..|ops| - 1], g, t) && !(ops[|ops| - 1].Revoke? && ops[|ops| - 1].target == g.id)))
  {
    var k, before := |ops| - 1, ops[..|ops| - 1];
    if LiveAt(ops, g, t) && !Issues(ops[k], g) {
      var i :| 0 <= i < |ops| && Issues(ops[i], g)
               && forall j :: i < j < |ops| ==> !(ops[j].Revoke? && ops[j].target == g.id);
      assert Issues(before[i], g) && forall j :: i < j < k ==> before[j] == ops[j];
    }
    if LiveAt(before, g, t) && !(ops[k].Revoke? && ops[k].target == g.id) {
      var i :| 0 <= i < k && Issues(before[i], g)
               && forall j :: i < j < k ==> !(before[j].Revoke? && before[j].target == g.id);
      assert Issues(ops[i], g) && forall j :: i < j < |ops| ==> j == k || ops[j] == before[j];
    }
    if Issues(ops[k], g) && t <= g.expiresAt {
      assert LiveAt(ops, g, t);
    }
  }

  lemma {:induction false} OnlyIssued(ops: seq<Op>)
    ensures forall id :: id in Run(ops) ==>
              Run(ops)[id].id == id && exists i :: 0 <= i < |ops| && ops[i].Issue? && ops[i].id == id
  {
    if ops != [] {
      var k := |ops| - 1;
      OnlyIssued(ops[..k]);
      forall id | id in Run(ops)
        ensures Run(ops)[id].id == id && exists i :: 0 <= i < |ops| && ops[i].Issue? && ops[i].id == id
      {
        if id in Run(ops[..k]) {
          var i :| 0 <= i < k && ops[..k][i].Issue? && ops[..k][i].id == id;
          assert ops[i].Issue? && ops[i].id == id;
        }
      }
    }
  }

  predicate Stored(grants: map<string, Grant>, g: Grant) {
    g.id in grants && grants[g.id] == g
  }

  /** One operation and the grants it leaves live. */
  lemma PerformLive(grants: map<string, Grant>, op: Op, g: Grant, t: real)
    requires forall id :: id in grants ==> grants[id].id == id
    requires !op.Revoke? ==> op.now <= t
    requires op.Issue? ==> op.id !in grants
    ensures Stored(Perform(grants, op), g) && Listed(g, t) <==>
            t <= g.expiresAt && (Issues(op, g) ||
              (Stored(grants, g) && Listed(g, t) && !(op.Revoke? && op.target != "" && op.target == g.id)))
  {
  }

  /** Expiry refines its meaning: at any time t not before the operations done, a grant is
      stored as active and not overdue iff it was issued, was not revoked since, and t is not
      past its expiry, whichever lists, sweeps and deletions took place. */
  lemma {:induction false} ListedIffLive(ops: seq<Op>, g: Grant, t: real)
    requires FreshIds(ops) && Monotone(ops) && Before(ops, t)
    ensures Stored(Run(ops), g) && Listed(g, t) <==> LiveAt(ops, g, t)
  {
    if ops != [] {
      var k := |ops| - 1;
      var before := ops[..k];
      assert forall i :: 0 <= i < k ==> before[i] == ops[i];
      ListedIffLive(before, g, t);
      LiveSnoc(ops, g, t);
      OnlyIssued(before);
      PerformLive(Run(before), ops[k], g, t);
    }
  }

  /** What is stored under an ID was issued under it, for what its request names. */
  lemma {:induction false} StoredAsRequested(ops: seq<Op>, id: string)
    requires id in Run(ops)
    ensures exists i :: 0 <= i < |ops| && ops[i].Issue? && ops[i].id == id
                        && AsRequested(Run(ops)[id], ops[i].req, id, ops[i].now)
  {
    var k := |ops| - 1;
    if !(ops[k].Issue? && ops[k].id == id && Complete(ops[k].req)) {
      assert id in Run(ops[..k]);
      StoredAsRequested(ops[..k], id);
      var i :| 0 <= i < k && ops[..k][i].Issue? && ops[..k][i].id == id
               && AsRequested(Run(ops[..k])[id], ops[..k][i].req, id, ops[..k][i].now);
      assert ops[i] == ops[..k][i];
      assert AsRequested(Run(ops)[id], ops[i].req, id, ops[i].now);
    }
  }

  /** What the holder of a grant can count on, in the terms of the request: issued at its time
      with a TTL of k milliseconds and not revoked since, it is listed at t exactly until k
      milliseconds have passed, or an hour if k is 0. */
  lemma ListedAsLongAsRequested(ops: seq<Op>, i: nat, t: real)
    requires FreshIds(ops) && Monotone(ops) && Before(ops, t)
    requires i < |ops| && ops[i].Issue? && Complete(ops[i].req)
    requires forall j :: i < j < |ops| ==> !(ops[j].Revoke? && ops[j].target == ops[i].id)
    ensures var id, k, passed := ops[i].id, ops[i].req.ttlMs, t - ops[i].now;
            id in Run(ops) && Listed(Run(ops)[id], t) <==>
            if k == 0 then passed <= 3600.0 else passed * 1000.0 <= k as real
    ensures ops[i].id in Run(ops) ==> AsRequested(Run(ops)[ops[i].id], ops[i].req, ops[i].id, ops[i].now)
  {
    var id := ops[i].id;
    var g := NewGrant(ops[i].req, id, ops[i].now);
    ListedIffLive(ops, g, t);
    assert Issues(ops[i], g);
    if id in Run(ops) {
      StoredAsRequested(ops, id);
      if Listed(Run(ops)[id], t) {
        OnlyIssued(ops);
        ListedIffLive(ops, Run(ops)[id], t);
      }
    }
  }

  /** No grant returns to active, and one disappears iff a sweep finds it unrevoked and more
      than 24 hours past its expiry. */
  lemma StatesOnlyAdvance(grants: map<string, Grant>, op: Op, id: string)
    requires id in grants && (op.Issue? ==> op.id !in grants)
    ensures var after := Perform(grants, op);
            && (id in after && after[id].state.Active? ==> grants[id].state.Active?)
            && (grants[id].state.Revoked? ==> id in after && after[id].state.Revoked?)
            && (id !in after <==>
                  op.SweepAt? && !grants[id].state.Revoked? && grants[id].expiresAt < op.now - 86400.0)
  {
  }
}
