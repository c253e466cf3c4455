/** What the telemetry buffer and the collector do, as functions, and what holds over every
    run of records, summaries and flushes. */
module TelemetrySpec {
  import opened Basics
  import opened MeshTypes

  // ----- the bounded queue -----

  datatype Content =
    | Granted(bindingId: string, client: ServiceId, provider: ServiceId, capability: CapabilityId,
              expiresAt: real, grantedAt: real)
    | Denied(requestId: string, client: ServiceId, capability: CapabilityId, reason: Reason, deniedAt: real)
    | Revoked(bindingId: string, why: string, revokedAt: real)
    | SummaryOf(summary: Summary)

  datatype Summary = Summary(granted: nat, denied: nat, revoked: nat, topDenies: seq<(Reason, nat)>,
                             topCapabilities: seq<(CapabilityId, nat)>, denyRate: Option<real>)

  /** An event and the length of its JSON encoding, None when encoding fails. */
  datatype AuditEvent = AuditEvent(content: Content, size: Option<nat>)

  datatype Buffered = Buffered(event: AuditEvent, timestamp: real)

  function SizeOf(b: Buffered): nat {
    if b.event.size.Some? then b.event.size.value else 0
  }

  function Bytes(q: seq<Buffered>): nat {
    if q == [] then 0 else SizeOf(q[0]) + Bytes(q[1..])
  }

  /** Drops the oldest events until `size` more bytes fit or nothing is left. */
  function MakeRoom(q: seq<Buffered>, size: nat, max: nat): (room: seq<Buffered>)
    ensures |room| <= |q|
  {
    if q == [] || Bytes(q) + size <= max then q else MakeRoom(q[1..], size, max)
  }

  datatype RecordResult = Recorded | EncodingFailed | BufferFull

  function Record(q: seq<Buffered>, e: AuditEvent, now: real, max: nat): (seq<Buffered>, RecordResult) {
    if e.size.None? then (q, EncodingFailed)
    else
      var room := MakeRoom(q, e.size.value, max);
      if Bytes(q) + e.size.value > max && q != [] && e.size.value > max then (room, BufferFull)
      else (room + [Buffered(e, now)], Recorded)
  }

  function Younger(q: seq<Buffered>, since: real): seq<Buffered> {
    if q == [] then [] else
      Younger(q[..|q| - 1], since) + (if q[|q| - 1].timestamp >= since then [q[|q| - 1]] else [])
  }

  function Older(q: seq<Buffered>, since: real): seq<Buffered> {
    if q == [] then [] else
      Older(q[..|q| - 1], since) + (if q[|q| - 1].timestamp >= since then [] else [q[|q| - 1]])
  }

  predicate InOrder(q: seq<Buffered>) {
    forall i, j :: 0 <= i < j < |q| ==> q[i].timestamp <= q[j].timestamp
  }

  lemma {:induction false} BytesConcat(a: seq<Buffered>, b: seq<Buffered>)
    ensures Bytes(a + b) == Bytes(a) + Bytes(b)
  {
    if a == [] {
      assert a + b == b;
    } else {
      assert (a + b)[1..] == a[1..] + b;
      BytesConcat(a[1..], b);
    }
  }

  /** Making room drops the shortest oldest prefix that makes the event fit; all of the queue
      if nothing less does. */
  lemma {:induction false} MakeRoomIsShortest(q: seq<Buffered>, size: nat, max: nat) returns (k: nat)
    ensures k <= |q| && MakeRoom(q, size, max) == q[k..]
    ensures k < |q| ==> Bytes(q[k..]) + size <= max
    ensures forall j :: 0 <= j < k ==> Bytes(q[j..]) + size > max
  {
    if q == [] || Bytes(q) + size <= max {
      k := 0;
    } else {
      var k' := MakeRoomIsShortest(q[1..], size, max);
      k := k' + 1;
      assert q[1..][k'..] == q[k..];
      forall j | 0 <= j < k ensures Bytes(q[j..]) + size > max {
        if j > 0 {
          assert q[1..][j - 1..] == q[j..];
        }
      }
    }
  }

  /** A queue within the bound, or a single event recorded while it was empty. */
  predicate Bounded(q: seq<Buffered>, max: nat) {
    Bytes(q) <= max || |q| == 1
  }

  lemma RecordBounded(q: seq<Buffered>, e: AuditEvent, now: real, max: nat)
    requires Bounded(q, max)
    ensures Bounded(Record(q, e, now, max).0, max)
    ensures e.size.Some? && e.size.value <= max ==>
              Record(q, e, now, max).1.Recorded? && Bytes(Record(q, e, now, max).0) <= max
  {
    if e.size.Some? {
      var k := MakeRoomIsShortest(q, e.size.value, max);
      BytesConcat(q[k..], [Buffered(e, now)]);
      assert Bytes([Buffered(e, now)]) == e.size.value;
    }
  }

  /** A recorded event is the newest, with the time of its recording, and only older ones are
      dropped for it; one that fits is recorded. */
  lemma RecordedLast(q: seq<Buffered>, e: AuditEvent, now: real, max: nat) returns (k: nat)
    requires e.size.Some? && e.size.value <= max
    ensures k <= |q| && Record(q, e, now, max) == (q[k..] + [Buffered(e, now)], Recorded)
  {
    k := MakeRoomIsShortest(q, e.size.value, max);
  }

  /** An event larger than the buffer is kept when recorded into an empty buffer; recorded into
      a nonempty one it empties it and is rejected. */
  lemma OversizeEvent(q: seq<Buffered>, e: AuditEvent, now: real, max: nat)
    requires e.size.Some? && e.size.value > max
    ensures Record([], e, now, max) == ([Buffered(e, now)], Recorded)
    ensures q != [] ==> Record(q, e, now, max) == ([], BufferFull)
  {
    var k := MakeRoomIsShortest(q, e.size.value, max);
    assert q[|q|..] == [];
    assert [] + [Buffered(e, now)] == [Buffered(e, now)];
  }

  /** The first `k` events are the ones older than `since`. */
  predicate SplitAt(q: seq<Buffered>, since: real, k: nat) {
    k <= |q| && forall i :: 0 <= i < |q| ==> (q[i].timestamp < since <==> i < k)
  }

  lemma {:induction false} SplitPoint(q: seq<Buffered>, since: real) returns (k: nat)
    requires InOrder(q)
    ensures SplitAt(q, since, k)
  {
    k := 0;
    while k < |q| && q[k].timestamp < since
      invariant k <= |q| && forall i :: 0 <= i < k ==> q[i].timestamp < since
    {
      k := k + 1;
    }
  }

  lemma {:induction false} OlderIs(q: seq<Buffered>, since: real, k: nat)
    requires SplitAt(q, since, k)
    ensures Older(q, since) == q[..k]
  {
    if q != [] {
      var n := |q| - 1;
      OlderIs(q[..n], since, if k == |q| then n else k);
      assert k == |q| ==> q == q[..n] + [q[n]];
    }
  }

  lemma {:induction false} YoungerIs(q: seq<Buffered>, since: real, k: nat)
    requires SplitAt(q, since, k)
    ensures Younger(q, since) == q[k..]
  {
    if q != [] {
      var n := |q| - 1;
      if k == |q| {
        YoungerIs(q[..n], since, n);
        assert q[..n][n..] == [] && q[k..] == [];
      } else {
        YoungerIs(q[..n], since, k);
        assert q[k..] == q[..n][k..] + [q[n]];
      }
    }
  }

  /** With timestamps in order, flushing since a time splits the queue into an older part that
      stays and a younger part that is delivered. */
  lemma SinceSplits(q: seq<Buffered>, since: real) returns (k: nat)
    requires InOrder(q)
    ensures SplitAt(q, since, k) && Older(q, since) == q[..k] && Younger(q, since) == q[k..]
  {
    k := SplitPoint(q, since);
    OlderIs(q, since, k);
    YoungerIs(q, since, k);
  }

  // ----- the counters -----

  datatype Counts = Counts(granted: nat, denied: nat, revoked: nat,
                           byReason: map<Reason, nat>, byCapability: map<CapabilityId, nat>)

  const ZERO: Counts := Counts(0, 0, 0, map[], map[])

  function At<K>(m: map<K, nat>, k: K): nat { if k in m then m[k] else 0 }

  function CountGranted(c: Counts, capability: CapabilityId): Counts {
    c.(granted := c.granted + 1, byCapability := c.byCapability[capability := At(c.byCapability, capability) + 1])
  }

  function CountDenied(c: Counts, reason: Reason): Counts {
    c.(denied := c.denied + 1, byReason := c.byReason[reason := At(c.byReason, reason) + 1])
  }

  function CountRevoked(c: Counts): Counts {
    c.(revoked := c.revoked + 1)
  }

  /** The per-key maps always add up to their counters. */
  ghost predicate SumsAgree(c: Counts) {
    SumMap(c.byCapability) == c.granted && SumMap(c.byReason) == c.denied
  }

  lemma CountsKeepSums(c: Counts, capability: CapabilityId, reason: Reason)
    requires SumsAgree(c)
    ensures SumsAgree(CountGranted(c, capability)) && SumsAgree(CountDenied(c, reason)) && SumsAgree(CountRevoked(c))
  {
    SumMapSet(c.byCapability, capability, At(c.byCapability, capability) + 1);
    SumMapSet(c.byReason, reason, At(c.byReason, reason) + 1);
  }

  /** One decision counts once, under its own capability or reason. */
  lemma CountsOne(c: Counts, capability: CapabilityId, reason: Reason)
    ensures var g := CountGranted(c, capability);
            && g.granted == c.granted + 1 && g.denied == c.denied && g.revoked == c.revoked
            && g.byReason == c.byReason && g.byCapability.Keys == c.byCapability.Keys + {capability}
            && g.byCapability[capability]
               == (if capability in c.byCapability then c.byCapability[capability] else 0) + 1
            && forall k :: k in c.byCapability && k != capability ==> g.byCapability[k] == c.byCapability[k]
    ensures var d := CountDenied(c, reason);
            && d.denied == c.denied + 1 && d.granted == c.granted && d.revoked == c.revoked
            && d.byCapability == c.byCapability && d.byReason.Keys == c.byReason.Keys + {reason}
            && d.byReason[reason] == (if reason in c.byReason then c.byReason[reason] else 0) + 1
            && forall k :: k in c.byReason && k != reason ==> d.byReason[k] == c.byReason[k]
    ensures CountRevoked(c) == Counts(c.granted, c.denied, c.revoked + 1, c.byReason, c.byCapability)
  {
  }

  // ----- runs -----

  datatype Op =
    | Grant(event: AuditEvent, capability: CapabilityId, now: real)
    | Deny(event: AuditEvent, reason: Reason, now: real)
    | Revoke(event: AuditEvent, now: real)
    | Flush(types: seq<string>, since: Option<real>, now: real)
    | Summarize(event: AuditEvent, now: real)
    | Clear(now: real)

  /** The buffer, and what became of every event offered to it. */
  datatype Ledger = Ledger(queue: seq<Buffered>, offered: seq<Buffered>, delivered: seq<Buffered>,
                           dropped: seq<Buffered>, rejected: seq<Buffered>, cleared: seq<Buffered>)

  /** The collector, and the totals of the `Delivered` counts of all flushes. */
  datatype Tally = Tally(counts: Counts, lastSummary: real, granted: nat, denied: nat, revoked: nat)

  function Offer(l: Ledger, e: AuditEvent, now: real, max: nat): Ledger {
    var (q, r) := Record(l.queue, e, now, max);
    var room := if e.size.Some? then MakeRoom(l.queue, e.size.value, max) else l.queue;
    l.(queue := q, offered := l.offered + [Buffered(e, now)],
       dropped := l.dropped + l.queue[..|l.queue| - |room|],
       rejected := if r.Recorded? then l.rejected else l.rejected + [Buffered(e, now)])
  }

  function FlushAudit(l: Ledger, since: Option<real>): Ledger {
    if since.None? then l.(queue := [], delivered := l.delivered + l.queue)
    else l.(queue := Older(l.queue, since.value), delivered := l.delivered + Younger(l.queue, since.value))
  }

  predicate Due(t: Tally, interval: real, now: real) {
    now - t.lastSummary >= interval
  }

  function LedgerStep(l: Ledger, t: Tally, op: Op, max: nat, interval: real): Ledger {
    match op
    case Grant(e, _, now) => Offer(l, e, now, max)
    case Deny(e, _, now) => Offer(l, e, now, max)
    case Revoke(e, now) => Offer(l, e, now, max)
    case Flush(types, since, _) => if "audit" in types then FlushAudit(l, since) else l
    case Summarize(e, now) => if Due(t, interval, now) then Offer(l, e, now, max) else l
    case Clear(_) => l.(queue := [], cleared := l.cleared + l.queue)
  }

  function TallyStep(t: Tally, op: Op, interval: real): Tally {
    match op
    case Grant(_, c, _) => t.(counts := CountGranted(t.counts, c))
    case Deny(_, r, _) => t.(counts := CountDenied(t.counts, r))
    case Revoke(_, _) => t.(counts := CountRevoked(t.counts))
    case Flush(types, _, now) =>
      if "metrics" in types && Due(t, interval, now) then
        Tally(ZERO, now, t.granted + t.counts.granted, t.denied + t.counts.denied, t.revoked + t.counts.revoked)
      else t
    case Summarize(_, now) => if Due(t, interval, now) then t.(lastSummary := now) else t
    case Clear(_) => t
  }

  function Tallied(ops: seq<Op>, start: real, interval: real): Tally {
    if ops == [] then Tally(ZERO, start, 0, 0, 0)
    else TallyStep(Tallied(ops[..|ops| - 1], start, interval), ops[|ops| - 1], interval)
  }

  function Run(ops: seq<Op>, start: real, max: nat, interval: real): Ledger {
    if ops == [] then Ledger([], [], [], [], [], [])
    else
      var k := |ops| - 1;
      LedgerStep(Run(ops[..k], start, max, interval), Tallied(ops[..k], start, interval), ops[k], max, interval)
  }

  /** Every offered event is in exactly one of these places. */
  ghost predicate Accounted(l: Ledger) {
    multiset(l.offered) == multiset(l.queue) + multiset(l.delivered) + multiset(l.dropped)
                           + multiset(l.rejected) + multiset(l.cleared)
  }

  /** The queue is in the order of recording, its timestamps do not decrease and none is later
      than `now`. */
  ghost predicate Ordered(l: Ledger, now: real) {
    Subsequence(l.queue, l.offered) && InOrder(l.queue) && forall b :: b in l.queue ==> b.timestamp <= now
  }

  /** The ways a step can move events. */
  datatype Move =
    | Stay
    | Enter(k: nat, b: Buffered, kept: bool)  // the k oldest are dropped, then b is kept or rejected
    | Deliver(k: nat)                         // all but the first k are delivered
    | Wipe

  predicate CanMove(l: Ledger, m: Move) {
    (m.Enter? || m.Deliver?) ==> m.k <= |l.queue|
  }

  function DoMove(l: Ledger, m: Move): Ledger
    requires CanMove(l, m)
  {
    match m
    case Stay => l
    case Enter(k, b, kept) =>
      l.(queue := l.queue[k..] + (if kept then [b] else []), offered := l.offered + [b],
         dropped := l.dropped + l.queue[..k], rejected := l.rejected + (if kept then [] else [b]))
    case Deliver(k) => l.(queue := l.queue[..k], delivered := l.delivered + l.queue[k..])
    case Wipe => l.(queue := [], cleared := l.cleared + l.queue)
  }

  lemma MoveAccounts(l: Ledger, m: Move)
    requires CanMove(l, m) && Accounted(l)
    ensures Accounted(DoMove(l, m))
  {
    if m.Enter? || m.Deliver? {
      assert l.queue == l.queue[..m.k] + l.queue[m.k..];
    }
  }

  lemma SuffixInOrder(q: seq<Buffered>, k: nat, b: Buffered, was: real)
    requires k <= |q| && InOrder(q) && was <= b.timestamp && forall x :: x in q ==> x.timestamp <= was
    ensures InOrder(q[k..]) && InOrder(q[k..] + [b])
    ensures forall x :: x in q[k..] ==> x.timestamp <= was
  {
    assert forall i :: 0 <= i < |q[k..]| ==> q[k..][i] in q;
  }

  lemma EnterOrders(l: Ledger, k: nat, b: Buffered, kept: bool, was: real)
    requires k <= |l.queue| && Ordered(l, was) && was <= b.timestamp
    ensures Ordered(DoMove(l, Enter(k, b, kept)), b.timestamp)
  {
    var rest := l.queue[k..];
    SubsequenceSuffix(l.queue, l.offered, k);
    SubsequenceAppend(rest, l.offered, b);
    SuffixInOrder(l.queue, k, b, was);
    assert rest + [] == rest;
  }

  lemma DeliverOrders(l: Ledger, k: nat, now: real)
    requires k <= |l.queue| && Ordered(l, now)
    ensures Ordered(DoMove(l, Deliver(k)), now)
  {
    SubsequencePrefix(l.queue, l.offered, k);
    assert forall i :: 0 <= i < k ==> l.queue[..k][i] in l.queue;
  }

  lemma MoveOrders(l: Ledger, m: Move, was: real, now: real)
    requires CanMove(l, m) && Ordered(l, was) && was <= now && (m.Enter? ==> m.b.timestamp == now)
    ensures Ordered(DoMove(l, m), now)
  {
    match m
    case Enter(k, b, kept) => EnterOrders(l, k, b, kept, was);
    case Deliver(k) => DeliverOrders(l, k, was);
    case _ =>
  }

  lemma OfferMoves(l: Ledger, e: AuditEvent, now: real, max: nat) returns (m: Move)
    ensures CanMove(l, m) && Offer(l, e, now, max) == DoMove(l, m) && m.Enter? && m.b.timestamp == now
    ensures Bounded(l.queue, max) ==> Bounded(DoMove(l, m).queue, max)
  {
    var k := 0;
    if e.size.Some? {
      k := MakeRoomIsShortest(l.queue, e.size.value, max);
    }
    m := Enter(k, Buffered(e, now), Record(l.queue, e, now, max).1.Recorded?);
    assert l.queue[0..] == l.queue && l.rejected + [] == l.rejected && l.queue[k..] + [] == l.queue[k..];
    if Bounded(l.queue, max) {
      RecordBounded(l.queue, e, now, max);
    }
  }

  lemma FlushMoves(l: Ledger, since: Option<real>, max: nat) returns (m: Move)
    requires InOrder(l.queue)
    ensures CanMove(l, m) && FlushAudit(l, since) == DoMove(l, m) && m.Deliver?
    ensures Bounded(l.queue, max) ==> Bounded(DoMove(l, m).queue, max)
  {
    var k := 0;
    if since.Some? {
      k := SinceSplits(l.queue, since.value);
    } else {
      assert l.queue[..0] == [] && l.queue[0..] == l.queue;
    }
    m := Deliver(k);
    BytesConcat(l.queue[..k], l.queue[k..]);
    assert l.queue == l.queue[..k] + l.queue[k..];
  }

  lemma StepMoves(l: Ledger, t: Tally, op: Op, max: nat, interval: real) returns (m: Move)
    requires InOrder(l.queue)
    ensures CanMove(l, m) && LedgerStep(l, t, op, max, interval) == DoMove(l, m)
    ensures m.Enter? ==> m.b.timestamp == op.now
    ensures Bounded(l.queue, max) ==> Bounded(DoMove(l, m).queue, max)
  {
    m := Stay;
    match op
    case Flush(types, since, _) =>
      if "audit" in types {
        m := FlushMoves(l, since, max);
      }
    case Clear(_) => m := Wipe;
    case Summarize(e, now) =>
      if Due(t, interval, now) {
        m := OfferMoves(l, e, now, max);
      }
    case _ => m := OfferMoves(l, op.event, op.now, max);
  }

  /** Only flushes deliver, only clearing clears, and neither drops or rejects anything; a record
      drops the oldest events and rejects at most its own. */
  lemma EachHasItsPlace(l: Ledger, t: Tally, op: Op, max: nat, interval: real)
    ensures var after := LedgerStep(l, t, op, max, interval);
            && (!op.Flush? ==> after.delivered == l.delivered)
            && (op.Clear? ==> after.queue == [] && after.cleared == l.cleared + l.queue)
            && (!op.Clear? ==> after.cleared == l.cleared)
            && (op.Flush? || op.Clear? ==>
                  after.offered == l.offered && after.dropped == l.dropped && after.rejected == l.rejected)
            && (after.rejected == l.rejected || exists b :: after.rejected == l.rejected + [b] && b.timestamp == op.now)
  {
    if !op.Flush? && !op.Clear? {
      var e := Buffered(op.event, op.now);
      assert Offer(l, op.event, op.now, max).rejected == l.rejected
          || Offer(l, op.event, op.now, max).rejected == l.rejected + [e];
    }
  }

  /** What a flush delivers: with "audit" among its types, all events, or those not older than
      `since`; without it none. */
  lemma FlushDelivers(l: Ledger, t: Tally, types: seq<string>, since: Option<real>, now: real, max: nat, interval: real)
    returns (k: nat)
    requires InOrder(l.queue)
    ensures k <= |l.queue|
    ensures LedgerStep(l, t, Flush(types, since, now), max, interval)
         == l.(queue := l.queue[..k], delivered := l.delivered + l.queue[k..])
    ensures "audit" !in types ==> k == |l.queue|
    ensures "audit" in types && since.None? ==> k == 0
    ensures "audit" in types && since.Some? ==>
              forall i :: 0 <= i < |l.queue| ==> (l.queue[i].timestamp >= since.value <==> i >= k)
  {
    k := |l.queue|;
    assert l.queue[..k] == l.queue && l.delivered + l.queue[k..] == l.delivered;
    if "audit" in types {
      if since.Some? {
        k := SinceSplits(l.queue, since.value);
      } else {
        k := 0;
        assert l.queue[..0] == [] && l.queue[0..] == l.queue;
      }
    }
  }

  predicate Clocked(ops: seq<Op>, start: real) {
    && (ops != [] ==> start <= ops[0].now)
    && forall i, j :: 0 <= i < j < |ops| ==> ops[i].now <= ops[j].now
  }

  ghost predicate LedgerInv(l: Ledger, max: nat, now: real) {
    Accounted(l) && Ordered(l, now) && Bounded(l.queue, max)
  }

  lemma LedgerStepKeeps(l: Ledger, t: Tally, op: Op, max: nat, interval: real, was: real)
    requires LedgerInv(l, max, was) && was <= op.now
    ensures LedgerInv(LedgerStep(l, t, op, max, interval), max, op.now)
  {
    var m := StepMoves(l, t, op, max, interval);
    MoveAccounts(l, m);
    MoveOrders(l, m, was, op.now);
  }

  /** Conservation: after any run every offered event is in exactly one of queued, delivered,
      dropped, rejected and cleared; the queue is in the order of recording, time-ordered, and
      within its byte bound unless it is one event recorded while empty. */
  lemma {:induction false} Conservation(ops: seq<Op>, start: real, max: nat, interval: real)
    requires Clocked(ops, start)
    ensures LedgerInv(Run(ops, start, max, interval), max, if ops == [] then start else ops[|ops| - 1].now)
  {
    if ops != [] {
      var k := |ops| - 1;
      Conservation(ops[..k], start, max, interval);
      LedgerStepKeeps(Run(ops[..k], start, max, interval), Tallied(ops[..k], start, interval), ops[k], max, interval,
                      if k == 0 then start else ops[k - 1].now);
    }
  }

  function Grants(ops: seq<Op>): nat {
    if ops == [] then 0 else Grants(ops[..|ops| - 1]) + (if ops[|ops| - 1].Grant? then 1 else 0)
  }

  function Denials(ops: seq<Op>): nat {
    if ops == [] then 0 else Denials(ops[..|ops| - 1]) + (if ops[|ops| - 1].Deny? then 1 else 0)
  }

  function Revocations(ops: seq<Op>): nat {
    if ops == [] then 0 else Revocations(ops[..|ops| - 1]) + (if ops[|ops| - 1].Revoke? then 1 else 0)
  }

  lemma TallyStepKeeps(t: Tally, op: Op, interval: real)
    requires SumsAgree(t.counts)
    ensures SumsAgree(TallyStep(t, op, interval).counts)
  {
    match op
    case Grant(_, c, _) => CountsKeepSums(t.counts, c, NoReason);
    case Deny(_, r, _) => CountsKeepSums(t.counts, "", r);
    case _ =>
  }

  /** Audit completeness: over any run, the counts delivered by flushes plus the current
      counters are the decisions made, and the per-reason and per-capability counts add up to
      the counters. */
  lemma {:induction false} DeliveredPlusCurrent(ops: seq<Op>, start: real, interval: real)
    ensures var t := Tallied(ops, start, interval);
            && t.granted + t.counts.granted == Grants(ops)
            && t.denied + t.counts.denied == Denials(ops)
            && t.revoked + t.counts.revoked == Revocations(ops)
            && SumsAgree(t.counts)
  {
    if ops != [] {
      DeliveredPlusCurrent(ops[..|ops| - 1], start, interval);
      TallyStepKeeps(Tallied(ops[..|ops| - 1], start, interval), ops[|ops| - 1], interval);
    }
  }

  /** A flush that returns the counters and resets them. */
  predicate Resets(t: Tally, op: Op, interval: real) {
    op.Flush? && "metrics" in op.types && Due(t, interval, op.now)
  }

  /** The operations after the last such flush. */
  function SinceReset(ops: seq<Op>, start: real, interval: real): seq<Op> {
    if ops == [] then []
    else
      var k := |ops| - 1;
      if Resets(Tallied(ops[..k], start, interval), ops[k], interval) then []
      else SinceReset(ops[..k], start, interval) + [ops[k]]
  }

  predicate Counted(c: Counts, ops: seq<Op>) {
    c.granted == Grants(ops) && c.denied == Denials(ops) && c.revoked == Revocations(ops)
  }

  lemma CountedSnoc(t: Tally, ops: seq<Op>, op: Op, interval: real)
    requires Counted(t.counts, ops) && !Resets(t, op, interval)
    ensures Counted(TallyStep(t, op, interval).counts, ops + [op])
  {
    assert (ops + [op])[..|ops|] == ops;
  }

  /** The counters, and with them every summary, count all decisions since the last flush that
      reset them, also those that earlier buffered summaries counted. */
  lemma {:induction false} CountedSinceReset(ops: seq<Op>, start: real, interval: real)
    ensures Counted(Tallied(ops, start, interval).counts, SinceReset(ops, start, interval))
  {
    if ops != [] {
      var k := |ops| - 1;
      CountedSinceReset(ops[..k], start, interval);
      var t := Tallied(ops[..k], start, interval);
      if !Resets(t, ops[k], interval) {
        CountedSnoc(t, SinceReset(ops[..k], start, interval), ops[k], interval);
      }
    }
  }
}
