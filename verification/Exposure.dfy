/** Tunnels for exposures: which tunnel clients are open and which are recorded as active.
    Requests are handled one at a time. */
module Exposure {
  import opened Basics

  type LinkId = string

  datatype BindRequest = BindRequest(exposureId: LinkId, leaseId: string, hostname: string,
                                     localAddr: string, targetUrl: string)

  datatype BindResult = BindResult(exposureId: LinkId, leaseId: string, publicUrl: string)

  /** Whether each step of a bind that talks to the outside succeeds. */
  datatype Io = Io(proxyStarts: bool, proxyAddr: string, clientCreated: bool, connects: bool, serviceReachable: bool)

  datatype Tunnel = Tunnel(exposureId: LinkId, leaseId: string, hostname: string, localAddr: string, client: nat)

  /** Exactly when a bind succeeds. */
  predicate BindSucceeds(req: BindRequest, io: Io) {
    (req.targetUrl != "" ==> io.proxyStarts) && io.clientCreated && io.connects && io.serviceReachable
  }

  /** The tunnel is as requested, forwards to the proxy when there is one, and has a client that
      did not exist before. */
  predicate Serves(t: Tunnel, req: BindRequest, io: Io, created: nat) {
    && t.exposureId == req.exposureId && t.leaseId == req.leaseId && t.hostname == req.hostname
    && t.localAddr == (if req.targetUrl != "" then io.proxyAddr else req.localAddr)
    && t.client >= created
  }

  /** The open clients are exactly those of the active tunnels, one per exposure. */
  ghost predicate Owned(tunnels: map<LinkId, Tunnel>, open: set<nat>) {
    && (forall id :: id in tunnels ==> tunnels[id].exposureId == id && tunnels[id].client in open)
    && (forall c :: c in open ==> exists id :: id in tunnels && tunnels[id].client == c)
    && (forall i, j :: i in tunnels && j in tunnels && tunnels[i].client == tunnels[j].client ==> i == j)
  }

  lemma OwnedWithout(tunnels: map<LinkId, Tunnel>, open: set<nat>, id: LinkId)
    requires Owned(tunnels, open) && id in tunnels
    ensures Owned(tunnels - {id}, open - {tunnels[id].client})
  {
    var rest := tunnels - {id};
    forall c | c in open - {tunnels[id].client}
      ensures exists j :: j in rest && rest[j].client == c
    {
      var j :| j in tunnels && tunnels[j].client == c;
      assert j in rest && rest[j].client == c;
    }
  }

  lemma OwnedWith(tunnels: map<LinkId, Tunnel>, open: set<nat>, t: Tunnel)
    requires Owned(tunnels, open) && t.exposureId !in tunnels && t.client !in open
    ensures Owned(tunnels[t.exposureId := t], open + {t.client})
  {
    var more := tunnels[t.exposureId := t];
    forall c | c in open + {t.client}
      ensures exists j :: j in more && more[j].client == c
    {
      if c == t.client {
        assert t.exposureId in more;
      } else {
        var j :| j in tunnels && tunnels[j].client == c;
        assert j in more && more[j].client == c;
      }
    }
  }

  class HyphaeProvider {
    var activeTunnels: map<LinkId, Tunnel>
    var openClients: set<nat>  // tunnel clients created and not yet closed
    var created: nat           // clients created so far; the next one gets this number

    ghost predicate Valid()
      reads this
    {
      Owned(activeTunnels, openClients) && forall c :: c in openClients ==> c < created
    }

    constructor ()
      ensures Valid() && activeTunnels == map[] && openClients == {}
    {
      activeTunnels, openClients, created := map[], {}, 0;
    }

    /** Tears down any tunnel of the exposure, then opens a new one; on failure at any step the
        exposure is left without tunnel and the new client, if any, is closed. */
    method Bind(req: BindRequest, io: Io) returns (result: Option<BindResult>)
      requires Valid()
      modifies this
      ensures Valid()
      ensures result.Some? <==>
                (req.targetUrl == "" || io.proxyStarts) && io.clientCreated && io.connects && io.serviceReachable
      ensures result.Some? <==> BindSucceeds(req, io)
      ensures result.Some? ==>
                result.value == BindResult(req.exposureId, req.leaseId, "https://" + req.hostname)
      ensures activeTunnels - {req.exposureId} == old(activeTunnels) - {req.exposureId}
      ensures result.None? ==> req.exposureId !in activeTunnels
      ensures result.Some? ==>
                req.exposureId in activeTunnels && Serves(activeTunnels[req.exposureId], req, io, old(created))
      ensures result.Some? ==>
                var t := activeTunnels[req.exposureId];
                && t == Tunnel(req.exposureId, req.leaseId, req.hostname,
                               if req.targetUrl == "" then req.localAddr else io.proxyAddr, t.client)
                && t.client !in old(openClients)
    {
      Teardown(req.exposureId);
      var localAddr := req.localAddr;
      if req.targetUrl != "" {
        if !io.proxyStarts {
          return None;
        }
        localAddr := io.proxyAddr;
      }
      ghost var others := activeTunnels;
      var tunnel := Open(req.exposureId, req.leaseId, req.hostname, localAddr, io);
      if tunnel.None? {
        return None;
      }
      activeTunnels := activeTunnels[req.exposureId := tunnel.value];
      assert activeTunnels - {req.exposureId} == others;
      result := Some(BindResult(req.exposureId, req.leaseId, "https://" + req.hostname));
    }

    method Teardown(id: LinkId)
      requires Valid()
      modifies this`activeTunnels, this`openClients
      ensures Valid() && activeTunnels == old(activeTunnels) - {id}
    {
      if id in activeTunnels {
        OwnedWithout(activeTunnels, openClients, id);
        CloseClient(activeTunnels[id].client);
        activeTunnels := activeTunnels - {id};
      }
    }

    /** Creates and connects a client and probes the local service; the client stays open only
        when both succeed. */
    method Open(id: LinkId, leaseId: string, hostname: string, localAddr: string, io: Io)
      returns (tunnel: Option<Tunnel>)
      requires Valid() && id !in activeTunnels
      modifies this`openClients, this`created
      ensures tunnel.Some? <==> io.clientCreated && io.connects && io.serviceReachable
      ensures tunnel.Some? ==> tunnel.value == Tunnel(id, leaseId, hostname, localAddr, old(created))
      ensures tunnel.Some? ==> Owned(activeTunnels[id := tunnel.value], openClients)
      ensures tunnel.None? ==> openClients == old(openClients)
      ensures created >= old(created) && forall c :: c in openClients ==> c < created
    {
      if !io.clientCreated {
        return None;
      }
      ghost var others := openClients;
      var client := created;
      created := created + 1;
      openClients := openClients + {client};
      if !io.connects || !io.serviceReachable {
        CloseClient(client);
        assert openClients == others;
        return None;
      }
      tunnel := Some(Tunnel(id, leaseId, hostname, localAddr, client));
      OwnedWith(activeTunnels, others, tunnel.value);
    }

    /** An error from the client's own Close is only logged. */
    method CloseClient(client: nat)
      modifies this`openClients
      ensures openClients == old(openClients) - {client}
    {
      openClients := openClients - {client};
    }

    /** Removes the tunnel and closes its client; reports an error when forwarding does not end
        in time, and none when there was no tunnel. */
    method Unbind(exposureId: LinkId, forwardEnds: bool) returns (ok: bool)
      requires Valid()
      modifies this
      ensures Valid()
      ensures activeTunnels == old(activeTunnels) - {exposureId}
      ensures ok <==> exposureId !in old(activeTunnels) || forwardEnds
    {
      if exposureId !in activeTunnels {
        return true;
      }
      var tunnel := activeTunnels[exposureId];
      OwnedWithout(activeTunnels, openClients, exposureId);
      activeTunnels := activeTunnels - {exposureId};
      CloseClient(tunnel.client);
      ok := forwardEnds;
    }

    /** Closes every client; the entries stay. */
    method Close()
      requires Valid()
      modifies this`openClients
      ensures openClients == {}
    {
      var rest := activeTunnels.Keys;
      while rest != {}
        invariant rest <= activeTunnels.Keys
        invariant forall c :: c in openClients ==> exists id :: id in rest && activeTunnels[id].client == c
      {
        var id :| id in rest;
        ghost var was := rest;
        rest := rest - {id};
        CloseClient(activeTunnels[id].client);
        forall c | c in openClients
          ensures exists j :: j in rest && activeTunnels[j].client == c
        {
          var j :| j in was && activeTunnels[j].client == c;
          assert j in rest;
        }
      }
    }
  }
}
