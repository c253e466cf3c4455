/** The bind and unbind handlers for exposure and tunnel links, and what their completion
    events say over any run. */
module LinkHandlers {
  import opened Basics
  import opened Exposure

  datatype Kind = ExposureLink | TunnelLink

  /** A completion event as the kernel receives it. */
  datatype Completed =
    | BindCompleted(link: LinkId, kind: Kind, success: bool, publicUrl: string)
    | UnbindCompleted(link: LinkId, kind: Kind, success: bool)

  datatype BindPayload = BindPayload(link: LinkId, kind: Kind, hostname: string, leaseId: string,
                                     localAddr: string, target: string, targetIsUrl: bool)

  /** The provider request of an exposure, which has a local address, or of a tunnel, which has
      a port or a URL as target. */
  function RequestOf(p: BindPayload): BindRequest {
    match p.kind
    case ExposureLink => BindRequest(p.link, p.leaseId, p.hostname, p.localAddr, "")
    case TunnelLink =>
      if p.targetIsUrl then BindRequest(p.link, p.leaseId, p.hostname, "", p.target)
      else BindRequest(p.link, p.leaseId, p.hostname, "localhost:" + p.target, "")
  }

  lemma SameElsewhere(m: map<LinkId, Tunnel>, n: map<LinkId, Tunnel>, link: LinkId)
    requires m - {link} == n - {link}
    ensures m.Keys - {link} == n.Keys - {link}
  {
    assert (m - {link}).Keys == m.Keys - {link} && (n - {link}).Keys == n.Keys - {link};
  }

  class Emitter {
    var received: seq<Completed>  // events that reached the kernel

    constructor ()
      ensures received == []
    {
      received := [];
    }

    method EmitEvent(e: Completed, arrives: bool) returns (ok: bool)
      modifies this
      ensures ok == arrives && received == if arrives then old(received) + [e] else old(received)
    {
      if arrives {
        received := received + [e];
      }
      ok := arrives;
    }
  }

  class Handlers {
    const provider: HyphaeProvider
    const emitter: Emitter?

    constructor (provider: HyphaeProvider, emitter: Emitter?)
      ensures this.provider == provider && this.emitter == emitter
    {
      this.provider, this.emitter := provider, emitter;
    }

    ghost function Active(): set<LinkId>
      reads provider
    {
      provider.activeTunnels.Keys
    }

    method BindLink(p: BindPayload, io: Io, arrives: bool) returns (ok: bool)
      requires provider.Valid()
      modifies provider, emitter
      ensures provider.Valid() && ok == BindSucceeds(RequestOf(p), io)
      ensures ok <==>
                && (p.kind.TunnelLink? && p.targetIsUrl && p.target != "" ==> io.proxyStarts)
                && io.clientCreated && io.connects && io.serviceReachable
      ensures Active() == if ok then old(Active()) + {p.link} else old(Active()) - {p.link}
      ensures ok ==>
                var t := provider.activeTunnels[p.link];
                && t.leaseId == p.leaseId && t.hostname == p.hostname
                && t.localAddr == if p.kind.ExposureLink? then p.localAddr
                                  else if !p.targetIsUrl then "localhost:" + p.target
                                  else if p.target == "" then "" else io.proxyAddr
      ensures emitter != null ==>
                var url := if ok then "https://" + p.hostname else "";
                emitter.received == if arrives then old(emitter.received) + [BindCompleted(p.link, p.kind, ok, url)]
                                    else old(emitter.received)
      ensures Active() == ActiveAfter(old(Active()), Bind(p, io, arrives))
      ensures emitter != null ==> emitter.received == ReceivedAfter(old(emitter.received), Bind(p, io, arrives))
    {
      ghost var was := provider.activeTunnels;
      var result := provider.Bind(RequestOf(p), io);
      SameElsewhere(was, provider.activeTunnels, p.link);
      ghost var active := provider.activeTunnels.Keys;
      assert result.Some? ==> p.link in active;
      assert active == if result.Some? then (active - {p.link}) + {p.link} else active - {p.link};
      assert was.Keys + {p.link} == (was.Keys - {p.link}) + {p.link};
      if emitter != null {
        var completed := BindCompleted(p.link, p.kind, true, "");
        if result.None? {
          completed := completed.(success := false);
        } else {
          completed := completed.(publicUrl := result.value.publicUrl);
        }
        var _ := emitter.EmitEvent(completed, arrives);
      }
      ok := result.Some?;
    }

    method UnbindLink(link: LinkId, kind: Kind, forwardEnds: bool, arrives: bool) returns (ok: bool)
      requires provider.Valid()
      modifies provider, emitter
      ensures provider.Valid() && ok == (link !in old(Active()) || forwardEnds)
      ensures Active() == old(Active()) - {link}
      ensures Active() == ActiveAfter(old(Active()), Unbind(link, kind, forwardEnds, arrives))
      ensures emitter != null ==>
                emitter.received == (if arrives then old(emitter.received) + [UnbindCompleted(link, kind, ok)]
                                     else old(emitter.received))
    {
      ok := provider.Unbind(link, forwardEnds);
      if emitter != null {
        var _ := emitter.EmitEvent(UnbindCompleted(link, kind, ok), arrives);
      }
    }
  }

  // ----- runs -----

  datatype Op =
    | Bind(payload: BindPayload, io: Io, arrives: bool)
    | Unbind(target: LinkId, kind: Kind, forwardEnds: bool, arrives: bool)

  function LinkOf(op: Op): LinkId { if op.Bind? then op.payload.link else op.target }

  predicate Binds(op: Op) {
    op.Bind? && BindSucceeds(RequestOf(op.payload), op.io)
  }

  function ActiveAfter(active: set<LinkId>, op: Op): set<LinkId> {
    if Binds(op) then active + {LinkOf(op)} else active - {LinkOf(op)}
  }

  function ReceivedAfter(received: seq<Completed>, op: Op): seq<Completed>
    requires op.Bind?
  {
    if !op.arrives then received
    else received + [BindCompleted(op.payload.link, op.payload.kind, Binds(op),
                                   if Binds(op) then "https://" + op.payload.hostname else "")]
  }

  datatype State = State(active: set<LinkId>, received: seq<Completed>)

  function Step(s: State, op: Op): State {
    State(ActiveAfter(s.active, op),
          match op
          case Bind(_, _, _) => ReceivedAfter(s.received, op)
          case Unbind(link, kind, forwardEnds, arrives) =>
            if arrives then s.received + [UnbindCompleted(link, kind, link !in s.active || forwardEnds)]
            else s.received)
  }

  function Run(ops: seq<Op>): State {
    if ops == [] then State({}, []) else Step(Run(ops[..|ops| - 1]), ops[|ops| - 1])
  }

  /** The latest completion event about a link. */
  function Latest(received: seq<Completed>, link: LinkId): Option<Completed> {
    if received == [] then None
    else if received[|received| - 1].link == link then Some(received[|received| - 1])
    else Latest(received[..|received| - 1], link)
  }

  predicate ReportsActive(c: Option<Completed>) {
    c.Some? && c.value.BindCompleted? && c.value.success
  }

  /** The last request about the link arrived at the kernel, if there was one. */
  predicate LastReported(ops: seq<Op>, link: LinkId) {
    if ops == [] then true
    else if LinkOf(ops[|ops| - 1]) == link then ops[|ops| - 1].arrives
    else LastReported(ops[..|ops| - 1], link)
  }

  lemma LatestSnoc(received: seq<Completed>, c: Completed, link: LinkId)
    ensures Latest(received + [c], link) == if c.link == link then Some(c) else Latest(received, link)
  {
    assert (received + [c])[..|received|] == received;
  }

  /** One request's completion event: none if it did not arrive, else one about the request's
      link, which says success exactly when a bind succeeded. */
  lemma StepReports(s: State, op: Op, link: LinkId)
    requires LinkOf(op) == link ==> op.arrives
    ensures var latest := Latest(Step(s, op).received, link);
            if LinkOf(op) == link then ReportsActive(latest) == Binds(op) else latest == Latest(s.received, link)
  {
    if op.arrives {
      var completed := Step(s, op).received[|s.received|];
      assert Step(s, op).received == s.received + [completed];
      LatestSnoc(s.received, completed, link);
    }
  }

  /** When the completion event of a link's last request arrived, the link is active iff its
      latest completion event is a successful bind, whatever earlier events were lost. */
  lemma {:induction false} ActiveIffReported(ops: seq<Op>, link: LinkId)
    requires LastReported(ops, link)
    ensures link in Run(ops).active <==> ReportsActive(Latest(Run(ops).received, link))
  {
    if ops != [] {
      var k := |ops| - 1;
      StepReports(Run(ops[..k]), ops[k], link);
      if LinkOf(ops[k]) != link {
        ActiveIffReported(ops[..k], link);
      }
    }
  }
}
