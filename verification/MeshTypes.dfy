/** The data the mesh agent exchanges and stores. String-valued enumerations keep a
    constructor for "absent" and one for text outside the known values. Payload fields
    no decision reads (versions, timestamps, certificates) are not kept. */
module MeshTypes {
  import opened Basics

  type NodeId = string
  type ServiceId = string
  type CapabilityId = string

  datatype TrustTier = Local | Experimental | Community | Certified | Official | NoTier | OtherTier(tier: string)

  datatype RiskClass = Low | Medium | High | OtherRisk(risk: string)

  datatype Locality = NodeOnly | LanPreferred | LanOnly | WanAllowed | NoLocality | OtherLocality(locality: string)

  datatype Distance = SameNode | SameLan | Wan

  datatype Decision = Allow | Deny | OtherDecision(decision: string)

  datatype Reason =
    | NoReason
    | CapabilityUnknown
    | NoProviderAvailable
    | PolicyDenied
    | ConsentRequired
    | TrustTierInsufficient
    | ProvenanceMismatch
    | LocalityViolation
    | RateLimited
    | InternalError

  datatype Endpoint = Endpoint(proto: string, host: string, port: int)

  datatype Member = Member(nodeId: NodeId, identity: string, endpoints: seq<Endpoint>,
                           tags: map<string, string>, status: string)

  datatype ServiceEntry = ServiceEntry(serviceId: ServiceId, identity: string, nodeId: NodeId,
                                       endpoints: seq<Endpoint>, capabilities: seq<CapabilityId>,
                                       labels: Option<map<string, string>>, status: string)

  datatype Provider = Provider(serviceId: ServiceId, identity: string, nodeId: NodeId,
                               capabilityId: CapabilityId, trustTier: TrustTier, endpoint: Endpoint,
                               labels: Option<map<string, string>>, available: bool)

  /** Per capability, its providers. */
  type ProviderIndex = map<CapabilityId, seq<Provider>>

  /** Per subject and capability, the latest consent. */
  type Consents = map<string, map<CapabilityId, bool>>

  datatype Capability = Capability(id: CapabilityId, riskClass: RiskClass)

  /** service.started, as announced by the Underleaf agent. */
  datatype Started = Started(serviceId: ServiceId, identity: string, nodeId: NodeId,
                             endpoints: seq<Endpoint>, capabilities: seq<CapabilityId>,
                             labels: Option<map<string, string>>)

  datatype PolicyRule = PolicyRule(decision: Decision, condition: string, priority: int)

  datatype MeshPolicy = MeshPolicy(rules: map<string, PolicyRule>, minTrustTier: TrustTier)

  datatype RateLimit = RateLimit(rps: real, burst: int)

  datatype BindingRequest = BindingRequest(requestId: string, client: ServiceId, clientIdentity: string,
                                           capability: CapabilityId, locality: Locality, minTrustTier: TrustTier,
                                           ttlMs: int, rateLimit: Option<RateLimit>)

  /** What an event says once its payload has been decoded and the file it refers to, if any,
      has been read. `Undecodable` is a payload or file that could not be read, `Registered` an
      event whose type has a registered handler, with that handler's outcome, and `Ignored` an
      event of any other type the registry and the evaluator do not react to (unknown types,
      trust roots, a cache or policy event without a reference). */
  datatype Body =
    | Snapshot(members: seq<Member>)
    | MemberJoined(joined: Member)
    | MemberUpdated(nodeId: NodeId, endpoints: seq<Endpoint>, tags: Option<map<string, string>>, status: string)
    | MemberLeft(nodeId: NodeId)
    | MemberHealth(nodeId: NodeId, status: string)
    | ServiceStarted(started: Started)
    | ServiceUpdated(serviceId: ServiceId, newEndpoints: seq<Endpoint>, newLabels: Option<map<string, string>>)
    | ServiceStopped(serviceId: ServiceId)
    | CacheLoaded(capabilities: map<CapabilityId, Capability>)
    | IdentityIssued(serviceId: ServiceId, spiffeId: string)
    | IdentityRevoked(serviceId: ServiceId)
    | PolicyLoaded(policy: MeshPolicy)
    | ConsentUpdated(subject: string, capabilityId: CapabilityId, decision: string)
    | Undecodable
    | Registered(succeeds: bool)
    | Ignored

  /** Handling the event returns an error. */
  predicate HandlingFails(b: Body) {
    b.Undecodable? || (b.Registered? && !b.succeeds)
  }

  /** The event envelope: origin node, per-node sequence number, content. */
  datatype Event = Event(node: NodeId, seqNo: nat, body: Body)
}
