/** The telemetry objects: the byte-bounded drop-oldest buffer, the counters, and the flusher
    that empties both on request. */
module Telemetry {
  import opened Basics
  import opened MeshTypes
  import opened TelemetrySpec

  const DEFAULT_BUFFER_SIZE: nat := 10 * 1024 * 1024
  const MAX_BUFFER_SIZE: nat := 100 * 1024 * 1024

  class Buffer {
    var events: seq<Buffered>
    const maxSizeBytes: nat
    var currentSize: int

    /** currentSize is the total size of the queued events, all of which could be encoded. */
    ghost predicate Valid()
      reads this
    {
      currentSize == Bytes(events) && forall b :: b in events ==> b.event.size.Some?
    }

    constructor (maxSizeBytes: int)
      ensures Valid() && events == []
      ensures maxSizeBytes <= 0 ==> this.maxSizeBytes == 10 * 1024 * 1024
      ensures maxSizeBytes > 0 ==> this.maxSizeBytes == if maxSizeBytes < 100 * 1024 * 1024 then maxSizeBytes
                                                        else 100 * 1024 * 1024
    {
      events, currentSize := [], 0;
      this.maxSizeBytes := if maxSizeBytes <= 0 then DEFAULT_BUFFER_SIZE
                           else if maxSizeBytes > MAX_BUFFER_SIZE then MAX_BUFFER_SIZE else maxSizeBytes;
    }

    method RecordEvent(event: AuditEvent, now: real) returns (result: RecordResult)
      requires Valid()
      modifies this
      ensures Valid()
      ensures (events, result) == Record(old(events), event, now, maxSizeBytes)
    {
      if event.size.None? {
        return EncodingFailed;
      }
      var eventSize := event.size.value;
      if currentSize + eventSize > maxSizeBytes && |events| > 0 {
        var removed := 0;
        while currentSize + eventSize > maxSizeBytes && |events| > removed
          invariant removed <= |events| && events == old(events)
          invariant currentSize == Bytes(events[removed..])
          invariant MakeRoom(events, eventSize, maxSizeBytes) == MakeRoom(events[removed..], eventSize, maxSizeBytes)
        {
          assert events[removed..][1..] == events[removed + 1..];
          assert events[removed] in events;
          currentSize := currentSize - events[removed].event.size.value;
          removed := removed + 1;
        }
        events := events[removed..];
        if eventSize > maxSizeBytes {
          return BufferFull;
        }
      }
      BytesConcat(events, [Buffered(event, now)]);
      events := events + [Buffered(event, now)];
      currentSize := currentSize + eventSize;
      return Recorded;
    }

    method GetEvents() returns (result: seq<Content>)
      requires Valid()
      modifies this
      ensures Valid() && events == [] && result == Contents(old(events))
    {
      result := [];
      for i := 0 to |events|
        invariant result == Contents(events[..i])
      {
        result := result + [events[i].event.content];
      }
      assert events[..|events|] == events;
      events := [];
      currentSize := 0;
    }

    /** Returns the events recorded at `since` or later and keeps the others. */
    method GetEventsSince(since: real) returns (result: seq<Content>)
      requires Valid()
      modifies this
      ensures Valid() && events == Older(old(events), since) && result == Contents(Younger(old(events), since))
    {
      result := [];
      var retained: seq<Buffered> := [];
      for i := 0 to |events|
        invariant result == Contents(Younger(events[..i], since)) && retained == Older(events[..i], since)
        invariant events == old(events) && forall b :: b in retained ==> b in events
      {
        assert events[..i + 1][..i] == events[..i];
        if events[i].timestamp >= since {
          result := result + [events[i].event.content];
        } else {
          retained := retained + [events[i]];
        }
      }
      assert events[..|events|] == events;
      events := retained;
      var newSize := 0;
      for i := 0 to |retained|
        invariant newSize == Bytes(retained[..i]) && events == retained
      {
        assert retained[..i + 1] == retained[..i] + [retained[i]];
        BytesConcat(retained[..i], [retained[i]]);
        assert retained[i] in retained;
        newSize := newSize + retained[i].event.size.value;
      }
      assert retained[..|retained|] == retained;
      currentSize := newSize;
    }

    method Clear()
      modifies this
      ensures Valid() && events == []
    {
      events := [];
      currentSize := 0;
    }
  }

  class Collector {
    var bindingsGranted: nat
    var bindingsDenied: nat
    var bindingsRevoked: nat
    var denialReasons: map<Reason, nat>
    var topCapabilities: map<CapabilityId, nat>
    const summaryInterval: real
    var lastSummary: real

    ghost function Counts(): TelemetrySpec.Counts
      reads this
    {
      TelemetrySpec.Counts(bindingsGranted, bindingsDenied, bindingsRevoked, denialReasons, topCapabilities)
    }

    constructor (summaryInterval: real, now: real)
      ensures Counts() == ZERO && lastSummary == now && this.summaryInterval == summaryInterval
    {
      bindingsGranted, bindingsDenied, bindingsRevoked := 0, 0, 0;
      denialReasons, topCapabilities := map[], map[];
      this.summaryInterval, lastSummary := summaryInterval, now;
    }

    method RecordBindingGranted(capability: CapabilityId)
      modifies this
      ensures Counts() == CountGranted(old(Counts()), capability) && lastSummary == old(lastSummary)
      ensures topCapabilities == old(topCapabilities)[capability :=
                (if capability in old(topCapabilities) then old(topCapabilities)[capability] else 0) + 1]
    {
      bindingsGranted := bindingsGranted + 1;
      topCapabilities := topCapabilities[capability := At(topCapabilities, capability) + 1];
    }

    method RecordBindingDenied(capability: CapabilityId, reason: Reason)
      modifies this
      ensures Counts() == CountDenied(old(Counts()), reason) && lastSummary == old(lastSummary)
      ensures denialReasons == old(denialReasons)[reason :=
                (if reason in old(denialReasons) then old(denialReasons)[reason] else 0) + 1]
    {
      bindingsDenied := bindingsDenied + 1;
      denialReasons := denialReasons[reason := At(denialReasons, reason) + 1];
    }

    method RecordBindingRevoked()
      modifies this
      ensures Counts() == CountRevoked(old(Counts())) && lastSummary == old(lastSummary)
    {
      bindingsRevoked := bindingsRevoked + 1;
    }

    method ShouldGenerateSummary(now: real) returns (due: bool)
      ensures due <==> now - lastSummary >= summaryInterval
    {
      due := now - lastSummary >= summaryInterval;
    }

    /** Lists every counted reason and capability once, with its count. */
    method GenerateSummary(now: real) returns (summary: Summary)
      modifies this`lastSummary
      ensures lastSummary == now && Summarizes(summary, Counts())
    {
      var topDenies := Entries(denialReasons);
      var topCaps := Entries(topCapabilities);
      var total := bindingsGranted + bindingsDenied;
      var rate := if total > 0 then Some(bindingsDenied as real / total as real) else None;
      summary := Summary(bindingsGranted, bindingsDenied, bindingsRevoked, topDenies, topCaps, rate);
      lastSummary := now;
    }

    method ResetCounters()
      modifies this
      ensures Counts() == ZERO && lastSummary == old(lastSummary)
    {
      bindingsGranted, bindingsDenied, bindingsRevoked := 0, 0, 0;
      denialReasons, topCapabilities := map[], map[];
    }
  }

  function Contents(q: seq<Buffered>): seq<Content> {
    seq(|q|, i requires 0 <= i < |q| => q[i].event.content)
  }

  /** `entries` lists the map, each key once. */
  ghost predicate Lists<K(!new)>(entries: seq<(K, nat)>, m: map<K, nat>) {
    && (forall e :: e in entries <==> e.0 in m && m[e.0] == e.1)
    && |entries| == |m|
  }

  method Entries<K(==,!new)>(m: map<K, nat>) returns (entries: seq<(K, nat)>)
    ensures Lists(entries, m)
  {
    entries := [];
    var rest := m.Keys;
    while rest != {}
      invariant rest <= m.Keys && |entries| + |rest| == |m.Keys|
      invariant forall e :: e in entries <==> e.0 in m && e.0 !in rest && m[e.0] == e.1
    {
      var k :| k in rest;
      rest := rest - {k};
      entries := entries + [(k, m[k])];
    }
  }

  ghost predicate Summarizes(s: Summary, c: Counts) {
    && s.granted == c.granted && s.denied == c.denied && s.revoked == c.revoked
    && Lists(s.topDenies, c.byReason) && Lists(s.topCapabilities, c.byCapability)
    && (s.denyRate.Some? <==> c.granted + c.denied > 0)
    && (s.denyRate.Some? ==> s.denyRate.value * (c.granted + c.denied) as real == c.denied as real)
  }

  datatype FlushResponse = FlushResponse(granted: nat, denied: nat, revoked: nat, events: seq<Content>, remaining: nat)

  function LedgerOf(q: seq<Buffered>): Ledger { Ledger(q, [], [], [], [], []) }

  class Flusher {
    const buffer: Buffer
    const collector: Collector

    constructor (buffer: Buffer, collector: Collector)
      ensures this.buffer == buffer && this.collector == collector
    {
      this.buffer, this.collector := buffer, collector;
    }

    ghost function Tally(): TelemetrySpec.Tally
      reads collector
    {
      TelemetrySpec.Tally(collector.Counts(), collector.lastSummary, 0, 0, 0)
    }

    method Wanted(types: seq<string>) returns (audit: bool, metrics: bool)
      ensures audit == ("audit" in types) && metrics == ("metrics" in types)
    {
      audit, metrics := false, false;
      for i := 0 to |types|
        invariant audit == ("audit" in types[..i]) && metrics == ("metrics" in types[..i])
      {
        if types[i] == "audit" {
          audit := true;
        } else if types[i] == "metrics" {
          metrics := true;
        }
      }
      assert types[..|types|] == types;
    }

    method FlushAuditEvents(since: Option<real>) returns (events: seq<Content>)
      requires buffer.Valid()
      modifies buffer
      ensures buffer.Valid()
      ensures var l := FlushAudit(LedgerOf(old(buffer.events)), since);
              buffer.events == l.queue && events == Contents(l.delivered)
    {
      if since.Some? {
        events := buffer.GetEventsSince(since.value);
      } else {
        events := buffer.GetEvents();
      }
    }

    method FlushMetrics(now: real) returns (summary: Option<Summary>)
      modifies collector
      ensures summary.Some? <==> now - old(collector.lastSummary) >= collector.summaryInterval
      ensures summary.Some? ==> Summarizes(summary.value, old(collector.Counts()))
      ensures summary.Some? ==> collector.Counts() == ZERO && collector.lastSummary == now
      ensures summary.None? ==>
                collector.Counts() == old(collector.Counts()) && collector.lastSummary == old(collector.lastSummary)
    {
      var due := collector.ShouldGenerateSummary(now);
      if !due {
        return None;
      }
      var generated := collector.GenerateSummary(now);
      collector.ResetCounters();
      summary := Some(generated);
    }

    /** Returns the audit events asked for, and the counters with a summary when metrics are
        asked for and due; what is returned is gone. */
    method FlushRequest(types: seq<string>, since: Option<real>, now: real) returns (response: FlushResponse)
      requires buffer.Valid()
      modifies buffer, collector
      ensures buffer.Valid()
      ensures var op := Flush(types, since, now);
              var l := LedgerStep(LedgerOf(old(buffer.events)), old(Tally()), op,
                                  buffer.maxSizeBytes, collector.summaryInterval);
              var t := TallyStep(old(Tally()), op, collector.summaryInterval);
              && buffer.events == l.queue && collector.Counts() == t.counts && collector.lastSummary == t.lastSummary
              && response.granted == t.granted && response.denied == t.denied && response.revoked == t.revoked
              && response.remaining == |l.queue|
              && (if "metrics" in types && Due(old(Tally()), collector.summaryInterval, now)
                  then |response.events| == |l.delivered| + 1
                       && response.events[..|l.delivered|] == Contents(l.delivered)
                       && response.events[|l.delivered|].SummaryOf?
                       && Summarizes(response.events[|l.delivered|].summary, old(collector.Counts()))
                  else response.events == Contents(l.delivered))
    {
      var audit, metrics := Wanted(types);
      var events: seq<Content> := [];
      if audit {
        events := FlushAuditEvents(since);
      }
      response := FlushResponse(0, 0, 0, events, |buffer.events|);
      if metrics {
        var summary := FlushMetrics(now);
        if summary.Some? {
          var s := summary.value;
          response := FlushResponse(s.granted, s.denied, s.revoked, events + [SummaryOf(s)], |buffer.events|);
        }
      }
    }

    /** Buffers a summary when one is due; the counters are not reset. `size` is the length of
        its encoding. */
    method SendTelemetrySummary(size: Option<nat>, now: real)
      returns (sent: Option<Summary>, ghost generated: Option<Summary>)
      requires buffer.Valid()
      modifies buffer, collector`lastSummary
      ensures buffer.Valid() && collector.Counts() == old(collector.Counts())
      ensures generated.Some? <==> now - old(collector.lastSummary) >= collector.summaryInterval
      ensures collector.lastSummary == if generated.Some? then now else old(collector.lastSummary)
      ensures generated.None? ==> sent.None? && buffer.events == old(buffer.events)
      ensures generated.Some? ==>
                var event := AuditEvent(SummaryOf(generated.value), size);
                var (q, r) := Record(old(buffer.events), event, now, buffer.maxSizeBytes);
                && Summarizes(generated.value, collector.Counts())
                && buffer.events == q && sent == if r.Recorded? then generated else None
    {
      var due := collector.ShouldGenerateSummary(now);
      if !due {
        return None, None;
      }
      var summary := collector.GenerateSummary(now);
      generated := Some(summary);
      var result := buffer.RecordEvent(AuditEvent(SummaryOf(summary), size), now);
      sent := if result.Recorded? then Some(summary) else None;
    }
  }
}
