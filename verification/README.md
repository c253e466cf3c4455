# Verified model of the mesh agent's decision core

The mesh agent (MMA) learns about its cluster from a per-node event log that the Underleaf
agent (UA) streams to it, decides which service may bind to which capability, hands out
grants, keeps an audit trail, and opens tunnels and channels for links. This project models
those parts in Dafny and proves what they keep over every run.

| file | content |
|---|---|
| `Basics.dfy`, `MeshTypes.dfy` | options, sums over maps, subsequences; the data the agent exchanges |
| `EventStream.dfy`, `Resumption.dfy` | the stream protocol as a state machine: UA log, connection, bounded channel, filter; where reopened streams go on |
| `RegistryState.dfy`, `RegistryHistory.dfy` | what each event does to the registry; the registry as a function of history |
| `EvaluatorHistory.dfy` | the evaluator's policy and consents as a function of history |
| `EventConsumer.dfy` | the consumer object and its handlers, proved against the three above; reconnect waits |
| `Discovery.dfy` | the registry object, node distance, the in-place locality sort |
| `TokenBucket.dfy`, `RateLimits.dfy` | the limiter over any call sequence; limits per client/capability key |
| `PolicySpec.dfy`, `PolicyEvaluator.dfy` | the seven-step evaluation as a function; the evaluator object and its runs |
| `BindingSpec.dfy`, `BindingEngine.dfy` | what a binding decision means; the engine that reaches it |
| `BindingRevocation.dfy`, `RequestedTier.dfy` | what a revocation changes about decisions; when they respect the tier a request asks for |
| `Grants.dfy` | the grant store with lazy and periodic expiry |
| `TelemetrySpec.dfy`, `Telemetry.dfy` | the drop-oldest buffer, the counters, flushing, and their conservation laws |
| `Exposure.dfy`, `LinkHandlers.dfy`, `Channel.dfy` | tunnels, links and channels: which connections are open and what is reported |

Objects whose methods change fields are classes; each method is proved equal to a function of
the old state, and the laws are lemmas about those functions over all runs. Time is an explicit
argument in seconds, a `real` that never goes back where a law needs that; `float64` is `real`.
Everything that talks to the outside is an outcome passed in: whether a dial, an upgrade, a TLS
setup, a file read or an emit succeeds, the order in which Go walks the rule map, the generated
ID, the encoded size of an event, when the context is cancelled. Loops over Go maps take their
elements in arbitrary order.

## Where the code departs from its documentation

The model follows the code.

- The evaluator's capability cache is not the registry's: `cmd/serve/main.go:79-88` creates it
  empty and nothing updates it, so as wired every evaluation returns an error and every request
  with candidates, for a capability and a client the registry knows, ends in POLICY_DENIED
  (`BindingSpec.EvaluatorCacheDecides`). The model quantifies over both caches.
- `service.stopped` removes the service and keeps its providers (`RegistryHistory.StoppedKeepsProviders`).
- A revoked service's providers are marked unavailable, and a comment at
  `internal/discovery/ua_event_consumer.go:898` says that such a service can no longer be used as
  a provider, but neither the engine nor the evaluator reads that mark or the identity: after the
  revocation every request is answered as before it, with the same provider, which only is handed
  out without identity (`BindingRevocation.RevokedStillGranted`; a case in
  `BindingRevocation.RevokedNearGranted`).
- Rules are walked in map order and the first allow or deny wins; `Condition` and `Priority` are
  not read although a comment speaks of the highest priority. The outcome is independent of the
  order iff allow and deny rules do not both exist (`PolicySpec.OrderIrrelevant`). When they do
  both exist, a nearer provider can be passed over iff two candidates at different distances
  each pass in some order (`BindingSpec.NearestForEveryOrder`; a case in
  `BindingSpec.ConflictingRulesCanSkipNearest`).
- A client over its rate when the first acceptable provider is evaluated can get a later one, if
  enough is refilled before that one's evaluation (`BindingSpec.LaterChosen`). With agreeing rules
  a provider nearer than the one granted was acceptable iff that first one was strictly closer and
  found less than a token (`BindingSpec.FartherChosen`; a case in
  `BindingSpec.RefillCanSkipNearest`).
- `agent_docs/INTERFACE_CONTRACT.md:191` lets a request ask for a minimum trust tier, which is not
  read. What is granted has that tier anyway iff the lowest tier that can pass has it, or nothing
  can pass (`RequestedTier.TierRespected` for a rule order,
  `RequestedTier.TierRespectedInEveryOrder`; a case of a grant below the tier in
  `RequestedTier.GrantBelowTier`).
- A request with another rps than the last on its key gets a new, full bucket and is admitted
  whatever was admitted before (`RateLimits.RateChangeAdmits`); keys are `client:capability`, so
  IDs with ':' can share one (`RateLimits.SharedBucket`).
- A capability-cache "delta" replaces the whole cache (`RegistryHistory.CacheHistory`).
- An event larger than the telemetry buffer is kept when the buffer is empty; otherwise it
  empties the buffer and is rejected (`TelemetrySpec.OversizeEvent`).
- `SendTelemetrySummary` does not reset the counters, so each summary counts all decisions since
  the last flush that did (`TelemetrySpec.CountedSinceReset`).
- `RevokeGrant` also revokes expired grants, which are then never deleted
  (`Grants.StatesOnlyAdvance`).
- Two nodes with tags but without a `site` tag count as being on the same LAN
  (`Discovery.SameLanExactly`).
- An event whose handler fails counts as handled: its sequence number is recorded first, and it
  is not asked for again (`EventConsumer.EventConsumer.HandleEvent`).

## Model

| member | source | states |
|---|---|---|
| EventStream.ExactlyOnceInOrder | internal/discovery/ua_event_consumer.go:199-325 | after every schedule of appends, dials, receives, processing, stream failures and stop, each node's handled events are exactly the prefix of its log numbered up to `nodeSequences`, in order, without gap or repeat, however often events are sent |
| Resumption.ResumesAtHandled | internal/discovery/ua_event_consumer.go:252-259 | whatever happens between a dial and the opening of its stream, each node's stream starts at the number of its events handled at the dial |
| Resumption.CleanDialSkipsNothing | internal/discovery/ua_event_consumer.go:199-325 | if nothing is on its way at a dial, no event received before the next dial is ever skipped as a duplicate |
| Resumption.SeamlessStep | internal/discovery/ua_event_consumer.go:290-325 | until then every step keeps cursors, channel and handled events end to end |
| EventStream.StepKeeps | internal/discovery/ua_event_consumer.go:290-325 | every step keeps the invariant: each queued event and the stream's cursor lie at most one log position past what is handled or queued before them |
| EventStream.ReceivedAreAccounted | internal/discovery/ua_event_consumer.go:407-447 | while running, every received event is handled, skipped as a duplicate, or still on its way |
| EventStream.ChannelBounded | internal/discovery/ua_event_consumer.go:72-89 | the channel never holds more than 1000 events, and a received one enters as soon as there are fewer |
| EventStream.DrainStep | internal/discovery/ua_event_consumer.go:407-428 | each receive, push or process step lowers the remaining work by exactly one |
| EventStream.CaughtUp | internal/discovery/ua_event_consumer.go:290-325 | no such step is possible iff no work remains, and then every log is handled completely |
| EventStream.CatchUp | internal/discovery/ua_event_consumer.go:290-325 | with the logs at rest and the stream up, every schedule reaches the caught-up state after exactly the remaining number of steps, duplicates included |
| EventStream.SequencesAreMaxima | internal/discovery/ua_event_consumer.go:431-447 | for any input `nodeSequences` holds the largest number seen per node |
| EventStream.FilterKeepsRecords | internal/discovery/ua_event_consumer.go:431-447 | for any input, 0 included, an event is handled iff every earlier event of its node has a smaller number or number 0 |
| EventConsumer.EventConsumer.constructor | internal/discovery/ua_event_consumer.go:72-89 | the consumer starts in the protocol's initial state with an empty registry |
| EventConsumer.EventConsumer.GetLastSeenSeq | internal/discovery/ua_event_consumer.go:354-363 | returns a copy of the sequence map |
| EventConsumer.EventConsumer.RequestStream | internal/discovery/ua_event_consumer.go:252-256 | the request of the protocol's dial step names exactly the numbers handled so far |
| EventConsumer.EventConsumer.Receive | internal/discovery/ua_event_consumer.go:302-315 | refines the protocol's receive step |
| EventConsumer.EventConsumer.Push | internal/discovery/ua_event_consumer.go:317-323 | refines the protocol's push step into the bounded channel |
| EventConsumer.EventConsumer.Process | internal/discovery/ua_event_consumer.go:407-428 | refines the protocol's process step; registry, policy and consents stay the replay of the handled events, and buckets and limiters are untouched |
| EventConsumer.EventConsumer.HandleEvent | internal/discovery/ua_event_consumer.go:431-532 | a stale event changes nothing; any other records its number and changes registry, policy and consents exactly as its content says, and of the evaluator nothing else; an error is returned iff the content cannot be decoded or the registered handler of its type fails |
| EventConsumer.EventConsumer.Dispatch | internal/discovery/ua_event_consumer.go:451-531 | each event type has the effect of the registry function, policy and consent updates and nothing else reach the evaluator, and events of types with a registered handler only give its outcome |
| EventConsumer.EventConsumer.UpdateEvaluator | internal/discovery/ua_event_consumer.go:819-954 | a loaded policy replaces the policy, a consent event sets one pair's consent to whether it says "allow" or "granted"; limiters and cache stay |
| EventConsumer.EventConsumer.HandleClusterSnapshot | internal/discovery/ua_event_consumer.go:549-569 | members become exactly the listed ones, services and providers go, the cache stays |
| EventConsumer.EventConsumer.UpdateRegistry | internal/discovery/ua_event_consumer.go:571-923 | member, service, cache and identity events change the registry as specified, unknown members and services not at all |
| EventConsumer.EventConsumer.HandleServiceStarted | internal/discovery/ua_event_consumer.go:658-709 | files the service and, per capability, its provider with the last endpoint and the label's trust tier |
| EventConsumer.EventConsumer.ReidentifyProviders | internal/discovery/ua_event_consumer.go:871-916 | rewrites the identity, and for a revocation the availability, of all of the service's providers and of no other |
| EventConsumer.ReconnectWaits | internal/discovery/ua_event_consumer.go:199-287 | the wait after each attempt is min(2^k, 300) seconds, k counting the attempts since a stream last opened; only a cancelled stream or a stop or cancellation seen at the head of a round ends the loop |
| RegistryState.IndexIsMap | internal/discovery/registry.go:110-166 | upsert, remove and lookup implement a map from (capability, service) to provider; lists never repeat a service and hold only their own capability |
| RegistryState.UpsertInPlace | internal/discovery/registry.go:120-128 | a provider of a known service takes its place in the list |
| RegistryState.UpsertAppends | internal/discovery/registry.go:114-131 | a provider of a new service goes to the end |
| RegistryState.WithoutInOrder | internal/discovery/registry.go:135-151 | removing keeps the order of the rest |
| RegistryState.ApplyValid | internal/discovery/ua_event_consumer.go:549-923 | every event keeps the index a map, and members and services filed under their own IDs |
| RegistryState.ReplayValid | internal/discovery/ua_event_consumer.go:549-923 | the same after any history |
| RegistryState.AddCapabilitiesFinds | internal/discovery/ua_event_consumer.go:681-705 | a start changes exactly the providers of its service under the listed capabilities, to the last endpoint, and none when it lists no endpoint |
| RegistryHistory.MemberHistory | internal/discovery/ua_event_consumer.go:549-635 | a member is known iff the latest of its join, its leave and the snapshots is a join or a snapshot naming it |
| RegistryHistory.ServiceHistory | internal/discovery/ua_event_consumer.go:658-751 | a service is known iff it was started and neither stopped nor cleared by a snapshot since |
| RegistryHistory.MemberTags | internal/discovery/ua_event_consumer.go:549-621 | a known member carries the tags last given by its join, an update or a snapshot, with no eviction since |
| RegistryHistory.MemberValue | internal/discovery/ua_event_consumer.go:549-656 | a known member has identity, endpoints, tags and status as last said; a join makes it healthy, an update leaves alone what it does not mention |
| RegistryHistory.ServiceValue | internal/discovery/ua_event_consumer.go:658-751 | a known service has the node and capabilities of its latest start |
| RegistryHistory.ServiceLatest | internal/discovery/ua_event_consumer.go:658-923 | a known service has identity, endpoints, labels and status as last said: "running" by a start, "identity_revoked" by a revocation |
| RegistryHistory.ProviderHistory | internal/discovery/ua_event_consumer.go:658-751 | a provider is filed iff a start offering it with an endpoint followed the last snapshot |
| RegistryHistory.ProviderValue | internal/discovery/ua_event_consumer.go:681-705 | it carries node, labels and last endpoint of its latest start; the tier its labels name, local if they name none that is known; the identity last issued or revoked since; and is available iff not revoked since |
| RegistryHistory.RevocationPersists | internal/discovery/ua_event_consumer.go:889-923 | a revoked service's providers stay unavailable, and without identity unless one is issued, through any events until it is started again or a snapshot arrives |
| RegistryHistory.RevocationIsLocal | internal/discovery/ua_event_consumer.go:889-923 | a revocation changes no other service's entries |
| RegistryHistory.StoppedKeepsProviders | internal/discovery/ua_event_consumer.go:739-751 | stopping a service removes its entry and none of its providers |
| RegistryHistory.CacheHistory | internal/discovery/ua_event_consumer.go:753-801 | the capability cache is the last one loaded, snapshot or delta, and outlives snapshots of the cluster |
| EvaluatorHistory.PolicyHistory | internal/discovery/ua_event_consumer.go:819-853 | the policy is the last one loaded, and the first one until then |
| EvaluatorHistory.ConsentHistory | internal/discovery/ua_event_consumer.go:925-954 | a pair has consent iff its latest event gave it, or it had it at first and none came |
| EvaluatorHistory.EventsGovernHighRisk | internal/policy_evaluator/evaluator.go:44-111 | a high-risk allow means that the latest consent event of the pair gave it, that the last policy loaded has an allow rule, and that the provider is certified or official |
| Discovery.DistanceUltrametric | internal/discovery/registry.go:205-230 | the distance is symmetric, zero only for the same node, and satisfies the ultrametric inequality |
| Discovery.SameLanExactly | internal/discovery/registry.go:205-230 | two nodes are on the same LAN iff both are known and share a stated site, or both carry tags and neither states one |
| Discovery.Registry.CalculateProviderDistance | internal/discovery/registry.go:205-230 | same node, same LAN (equal sites, both tagged), or WAN |
| Discovery.CompareExchange | internal/discovery/registry.go:290-292 | one comparison leaves what the sort function says |
| Discovery.InnerSortIs | internal/discovery/registry.go:289-293 | a round of the inner loop permutes and puts the largest remaining score in place |
| Discovery.OuterSortIs | internal/discovery/registry.go:287-294 | the loops permute and leave descending scores |
| Discovery.SortByScore | internal/discovery/registry.go:287-294 | the in-place exchange loops leave exactly what the sort function says, a permutation in descending score |
| Discovery.SortedEligible | internal/discovery/registry.go:233-305 | the returned list holds exactly the eligible providers, each as often as given, nearest first |
| Discovery.EligibleExactly | internal/discovery/registry.go:264-282 | a provider is returned iff given and, for node_only, on the client's own node, for lan_only on its node or LAN |
| Discovery.FirstOfTheNearest | internal/discovery/registry.go:287-294 | the head of the result is the first, in the order given, of the nearest eligible providers |
| Discovery.Registry.SortProvidersByLocality | internal/discovery/registry.go:233-305 | the result is one function of members, client, preference and list, and is the multiset of eligible providers, nondecreasing in distance |
| Discovery.Registry.AddOrUpdateProvider | internal/discovery/registry.go:110-132 | the scan replaces the service's entry in place or appends, as the map update |
| Discovery.Registry.RemoveProvider | internal/discovery/registry.go:135-151 | the filter loop removes the service's entries under one capability only |
| Discovery.Registry.GetProviders | internal/discovery/registry.go:154-166 | the capability's list, empty when there is none |
| Discovery.Registry.Clear | internal/discovery/registry.go:315-322 | empties members, services and providers, keeps the cache |
| TokenBucket.RateLimiter.Allow | internal/policy_evaluator/evaluator.go:283-298 | refills by elapsed time up to the burst and takes a token if there is one |
| TokenBucket.LevelIsLeastBudget | internal/policy_evaluator/evaluator.go:283-298 | the level a call finds is the least, over all earlier calls, of burst plus refill since minus accepts since |
| TokenBucket.Exact | internal/policy_evaluator/evaluator.go:283-298 | a call is accepted iff, for every earlier call, it and the accepts since fit into burst + rps * seconds since |
| TokenBucket.WindowBound | internal/policy_evaluator/evaluator.go:283-298 | every window admits at most burst + rps * its length |
| TokenBucket.TokensInRange | internal/binding_engine/grants.go:255-271 | tokens stay between 0 and burst |
| TokenBucket.SpacedNeverRefused | internal/policy_evaluator/evaluator.go:283-298 | with burst at least 1, calls at least 1/rps apart are never refused |
| TokenBucket.RefillTwice | internal/policy_evaluator/evaluator.go:287-290 | refilling at two times is refilling once at the later |
| TokenBucket.FreshThenTake | internal/policy_evaluator/evaluator.go:252-262 | that a new limiter and its first call read the clock separately makes no difference |
| RateLimits.AdmittedWithinAllowance | internal/policy_evaluator/evaluator.go:240-263 | over any calls, the accepts on a key plus the tokens left are at most the sum over its epochs of max(1, floor(rps)) + rps * duration |
| RateLimits.BurstAtOnce | internal/policy_evaluator/evaluator.go:252-262 | of calls at one time on a key not used before, exactly the first max(1, floor(rps)) are admitted |
| RateLimits.OutOfRange | internal/policy_evaluator/evaluator.go:240-246 | a rate of zero or less never refuses, one above 1000 always does, and neither uses a bucket |
| RateLimits.BucketOfOnly | internal/policy_evaluator/evaluator.go:240-263 | a bucket depends only on the metered calls on its key |
| RateLimits.RateChangeAdmits | internal/policy_evaluator/evaluator.go:250-262 | a call with another rate than the last on its key is admitted, whatever was admitted before |
| RateLimits.SharedBucket | internal/policy_evaluator/evaluator.go:248 | two pairs share a bucket iff they are equal or one is the other with a ':' moved between client and capability |
| RateLimits.NoColonNoSharing | internal/policy_evaluator/evaluator.go:248 | client IDs without ':' never share a bucket |
| RateLimits.Isolated | internal/policy_evaluator/evaluator.go:240-263 | with such IDs every answer is the one the pair would get alone |
| PolicySpec.FirstDecisiveIs | internal/policy_evaluator/evaluator.go:161-187 | the scan finds a decision iff some rule allows or denies, and only one that a rule gives |
| PolicySpec.OrderIrrelevant | internal/policy_evaluator/evaluator.go:161-187 | the scan order does not matter iff allow and deny rules do not both exist, and what the result is then |
| PolicySpec.PassesExactly | internal/policy_evaluator/evaluator.go:44-111 | without conflicting rules, a provider passes iff the capability is known, no rule denies, its tier reaches the minimum and the risk class is satisfied: low always, medium by an allow rule or a certified tier, high only by an allow rule with a certified tier and consent |
| PolicySpec.DenialReasons | internal/policy_evaluator/evaluator.go:54-99 | without conflicting rules, which reason each refusal has, from the rules that exist, the tier, the risk and the consent |
| PolicySpec.AnswerReasons | internal/policy_evaluator/evaluator.go:44-111 | exactly when the answer is an error, an allow, or RATE_LIMITED |
| PolicySpec.DefaultsPass | internal/policy_evaluator/evaluator.go:172-186 | until a policy is given, exactly certified and official providers pass, for low and medium risk |
| PolicySpec.TierOrder | internal/policy_evaluator/evaluator.go:130-148 | tiers are ordered local, experimental, community, certified, official, and an unknown one reaches nothing |
| PolicySpec.MinimumTier | internal/policy_evaluator/evaluator.go:67-76 | a policy without a minimum asks for certified or official |
| PolicySpec.TierMonotone | internal/policy_evaluator/evaluator.go:130-157 | for a fixed scan order, a provider of a higher tier passes wherever one of a lower tier does |
| PolicyEvaluator.Evaluator.EvaluatePolicy | internal/policy_evaluator/evaluator.go:161-187 | the first decisive rule, else the default for the risk class |
| PolicyEvaluator.Evaluator.HasConsent | internal/policy_evaluator/evaluator.go:190-199 | true iff the stored consent of the pair is true |
| PolicyEvaluator.Evaluator.UpdatePolicy | internal/policy_evaluator/evaluator.go:211-222 | replaces the policy, refuses nil, touches nothing else |
| PolicyEvaluator.Evaluator.UpdateConsent | internal/policy_evaluator/evaluator.go:225-236 | sets one pair's consent and no other's |
| PolicyEvaluator.Evaluator.LimiterFor | internal/policy_evaluator/evaluator.go:248-260 | the key's limiter if it has the rate, otherwise a new full one with burst 1 below rate 1 and the whole part of the rate from there; other keys keep theirs |
| PolicyEvaluator.Evaluator.CheckRateLimit | internal/policy_evaluator/evaluator.go:240-263 | answer and new buckets of one rate check, for every rate |
| PolicyEvaluator.Evaluator.JudgeProvider | internal/policy_evaluator/evaluator.go:54-99 | verdict or error of the steps before the rate check, in their order |
| PolicyEvaluator.Evaluator.EvaluateBinding | internal/policy_evaluator/evaluator.go:44-111 | answer, error and new buckets of the seven steps, in their order |
| PolicyEvaluator.RunPolicy | internal/policy_evaluator/evaluator.go:211-222 | after any calls the policy is the last one given, or the default |
| PolicyEvaluator.RunConsent | internal/policy_evaluator/evaluator.go:190-236 | a pair has consent iff its latest update was a yes |
| PolicyEvaluator.RunBursts | internal/policy_evaluator/evaluator.go:248-260 | after any calls every bucket's burst is max(1, floor(rps)) |
| PolicyEvaluator.HighRiskSafety | internal/policy_evaluator/evaluator.go:44-111 | a high-risk allow implies an allow rule in the current policy, consent as last updated, and a certified or official provider that meets the minimum tier |
| PolicyEvaluator.UnknownToEvaluator | internal/policy_evaluator/evaluator.go:54-59 | a capability missing from the evaluator's own cache is always denied with an error, without touching a bucket |
| BindingSpec.First | internal/binding_engine/engine.go:158-181 | the loop's result: the first position that holds, none iff none does |
| BindingSpec.Last | internal/binding_engine/engine.go:158-181 | the latest evaluation that reached the rate check |
| BindingSpec.PassesIffAccepted | internal/policy_evaluator/evaluator.go:161-187 | with agreeing rules, passing in one order is passing in all |
| BindingSpec.FirstPassNearest | internal/binding_engine/engine.go:142-181 | with agreeing rules the first candidate policy passes is a nearest accepted one, and there is none iff none is accepted |
| BindingSpec.CandidateExactly | internal/binding_engine/engine.go:130-156 | the candidates in terms of the request: all registered providers, for node_only and lan_only those on the client's node or LAN |
| BindingSpec.EarlyDenials | internal/binding_engine/engine.go:106-156 | exactly when the answer is CAPABILITY_UNKNOWN or NO_PROVIDER_AVAILABLE |
| BindingSpec.NearestAcceptable | internal/binding_engine/engine.go:106-237 | with agreeing rules and any nondecreasing clock readings: a grant goes to an eligible, accepted provider, every strictly closer accepted one having been evaluated before it while the client was over its rate; a client within its rate from the start gets a nearest one; exactly when a grant and each denial reason is given |
| BindingSpec.FirstAllowNearest | internal/binding_engine/engine.go:158-181 | the same for the position the loop stops at |
| BindingSpec.NearestForEveryOrder | internal/policy_evaluator/evaluator.go:161-187 | no scan order of any evaluation passes over a strictly closer provider that policy passes in some order, iff allow and deny rules do not both exist or all providers that some order passes are equally far |
| BindingSpec.AnyCanBeFirst | internal/policy_evaluator/evaluator.go:163-170 | with conflicting rules, any candidate that passes in some order can be the first to pass |
| BindingSpec.PassableExactly | internal/policy_evaluator/evaluator.go:44-111 | some order passes a provider iff the capability is known, its tier reaches the minimum, and either an allow rule exists, with a certified tier and consent for high risk, or no rule decides and the risk is low, or medium with a certified tier |
| BindingSpec.FirstRuleDecides | internal/policy_evaluator/evaluator.go:163-170 | an order that meets an allow rule first passes exactly the providers some order passes, one that meets a deny rule first passes none |
| BindingSpec.ConflictingRulesCanSkipNearest | internal/binding_engine/engine.go:142-225 | a registry, policy and request for which a provider elsewhere is granted although one on the client's own node passes in another order |
| BindingRevocation.RevocationChangesNoChoice | internal/discovery/ua_event_consumer.go:889-923 | after the revocation the decision is the one before it, the provider handed out having no identity and being marked unavailable if it is the revoked service's |
| BindingRevocation.SortRevised | internal/discovery/registry.go:233-305 | the sort reads nothing of a provider but its node: sorting rewritten providers gives the rewritten sort |
| BindingRevocation.CandidatesRevised | internal/discovery/ua_event_consumer.go:889-923 | the candidates after a revocation are those before it, rewritten, in the same order |
| BindingRevocation.RevokedStillGranted | internal/discovery/ua_event_consumer.go:889-923 | every request is decided after the revocation as before it, with the provider's entry rewritten; any service, revoked or not, is granted exactly when it was |
| BindingRevocation.RevokedNearGranted | internal/discovery/ua_event_consumer.go:898-916 | a registry and request for which the revoked provider is granted, without identity and marked unavailable |
| RequestedTier.TierRespected | internal/policy_evaluator/evaluator.go:67-91 | for a rule order, all that passes has the requested tier iff none is asked for, nothing can pass, or the lowest tier that can pass has it; and exactly when nothing can pass |
| RequestedTier.TierRespectedInEveryOrder | internal/policy_evaluator/evaluator.go:67-91 | the same over all rule orders, from the existence of allow and deny rules |
| RequestedTier.GrantRespectsTier | internal/binding_engine/engine.go:106-237 | under that condition every grant has the requested tier, whatever registry, rule orders and times |
| RequestedTier.GrantBelowTier | internal/binding_engine/engine.go:142-225 | a registry, policy and request for the official tier that is granted a certified provider |
| BindingSpec.EvaluatorCacheDecides | cmd/serve/main.go:79-88 | a capability missing from the evaluator's cache is never granted, and a request for it that has candidates is answered with POLICY_DENIED |
| BindingSpec.RefusedThenChecked | internal/policy_evaluator/evaluator.go:240-298 | a rate check at or after the time of a refused one answers, and leaves the buckets, as if it were the only one |
| BindingSpec.RefillDecides | internal/policy_evaluator/evaluator.go:240-298 | a later check succeeds iff the tokens an earlier one finds plus the refill since reach one |
| BindingSpec.WithinStays | internal/policy_evaluator/evaluator.go:240-298 | a client within its rate stays so while it is not checked |
| BindingSpec.LaterChosen | internal/binding_engine/engine.go:158-181 | a candidate after the first that policy passes is chosen iff the first one's check finds less than a token and the refill up to a later one's check makes up for it; it is then the first such |
| BindingSpec.FartherChosen | internal/binding_engine/engine.go:158-181 | with agreeing rules, a nearer acceptable provider than the one chosen exists iff the first acceptable one is strictly closer and its check found less than a token |
| BindingSpec.RefillCanSkipNearest | internal/binding_engine/engine.go:142-225 | a registry, bucket and request for which a provider elsewhere is granted because the token comes back after the evaluation of the one on the client's own node |
| BindingSpec.OneTokenIfChosen | internal/binding_engine/engine.go:158-181 | however many candidates are checked, one token is taken if a provider is chosen and none otherwise, and no other key's bucket changes |
| BindingSpec.CancelledTakesNone | internal/binding_engine/engine.go:159-169 | a cancelled request was cancelled before the first allowed candidate, at the first evaluation that found it so, and took no token |
| BindingSpec.EvaluateOutcome | internal/policy_evaluator/evaluator.go:44-111 | a candidate is allowed iff policy passes it and the client is within its rate at that time, also after refused checks of the same request |
| BindingSpec.WalkStep | internal/binding_engine/engine.go:158-181 | one more evaluation allows and charges as if the candidate were the only one asked |
| BindingEngine.Engine.FindCandidates | internal/binding_engine/engine.go:106-156 | the specified sorted candidates, none when capability or client is unknown, and the reason when there are none |
| BindingEngine.Engine.FirstAllowed | internal/binding_engine/engine.go:158-181 | with a clock reading per evaluation, the loop stops at the first candidate that policy passes while the client is within its rate, or at the first cancellation before it; the buckets are those after the last check reached |
| BindingEngine.Engine.Decide | internal/binding_engine/engine.go:106-181 | candidate search and loop together reach the specified decision, or the specified cancellation, and charge for exactly the candidates evaluated |
| BindingEngine.Engine.Answer | internal/binding_engine/engine.go:182-237 | stores the grant, if one is due; the newest audit event is a denial with the response's own reason or a grant with its own terms, and the counters count it once, under that reason or the capability |
| BindingEngine.Engine.EmitBindingGranted | internal/binding_engine/engine.go:241-256 | buffer and counters as after one recorded grant |
| BindingEngine.Engine.EmitBindingDenied | internal/binding_engine/engine.go:259-275 | buffer and counters as after one recorded denial with its reason |
| BindingEngine.Engine.RequestBinding | internal/binding_engine/engine.go:73-238 | a validated request is answered as decided iff it is not cancelled before an evaluation it reaches, with one audit event and count carrying the response's reason or grant; otherwise it is denied with none and no grant, as a rejected one; the buckets are a function of registry, evaluator and request in every case |
| BindingEngine.ResponseSays | internal/binding_engine/engine.go:182-237 | a denial carries its reason and the request's ID; a grant the new ID, client, provider, both identities, capability, creation time and the requested lifetime |
| BindingEngine.AuditSays | internal/binding_engine/engine.go:241-275 | what recording an answer leaves as newest event and as counts, field by field |
| BindingEngine.WithoutCandidates | internal/binding_engine/engine.go:106-156 | without candidates, as for an unknown capability or client, the denial is fixed, no cancellation is noticed and no bucket changes |
| BindingEngine.Engine.RevokeBinding | internal/binding_engine/engine.go:304-324 | revokes a stored grant, counts it and records its ID and reason; an unknown one is an error and changes nothing |
| Grants.GrantManager.IssueGrant | internal/binding_engine/grants.go:53-101 | stores one new active grant for what the request names, or fails iff client, provider or capability is missing and changes nothing |
| Grants.GrantManager.RevokeGrant | internal/binding_engine/grants.go:148-164 | revokes a stored grant from any state |
| Grants.GrantManager.ListActiveGrants | internal/binding_engine/grants.go:167-197 | returns each active, not overdue grant once and marks exactly the overdue ones |
| Grants.GrantManager.MarkExpired | internal/binding_engine/grants.go:204-212 | marks and counts exactly the overdue grants |
| Grants.GrantManager.ExpireGrants | internal/binding_engine/grants.go:200-223 | marks overdue grants and deletes those expired for more than 24 hours |
| Grants.ListedIffLive | internal/binding_engine/grants.go:148-223 | over any run with fresh IDs and a monotone clock, the listed grants are those issued, not revoked since and not past expiry, whatever lists, sweeps and deletions took place |
| Grants.ListedAsLongAsRequested | internal/binding_engine/grants.go:74-91 | a grant issued with a TTL of k milliseconds and not revoked is listed exactly until k milliseconds have passed, an hour for k = 0, whatever lists and sweeps took place, and names what its request named |
| Grants.StoredAsRequested | internal/binding_engine/grants.go:81-92 | what is stored under an ID names what the request that got the ID named |
| Grants.StatesOnlyAdvance | internal/binding_engine/grants.go:148-223 | no grant returns to active, revoked ones stay, and one is deleted iff a sweep finds it unrevoked and 24 hours past expiry |
| TelemetrySpec.MakeRoomIsShortest | internal/telemetry/buffer.go:114-133 | recording drops the shortest oldest prefix that makes room, or everything |
| TelemetrySpec.RecordBounded | internal/telemetry/buffer.go:102-143 | the queue stays within its bytes unless it is a single event recorded while empty; an event that fits is always recorded |
| TelemetrySpec.RecordedLast | internal/telemetry/buffer.go:135-140 | an event that fits becomes the newest, with the time of its recording, behind a suffix of the queue |
| TelemetrySpec.OversizeEvent | internal/telemetry/buffer.go:114-133 | an oversize event is kept by an empty buffer and empties a nonempty one |
| TelemetrySpec.SinceSplits | internal/telemetry/buffer.go:164-193 | flushing since a time splits the queue into a kept prefix and a delivered suffix |
| TelemetrySpec.FlushDelivers | internal/telemetry/flusher.go:50-65 | a flush delivers all events, those not older than its time, or none, as it asks |
| TelemetrySpec.Conservation | internal/telemetry/buffer.go:102-216 | over any run each recorded event is in exactly one of queued, delivered, dropped, rejected, cleared; the queue is an in-order, time-ordered subsequence within its bound |
| TelemetrySpec.EachHasItsPlace | internal/telemetry/buffer.go:102-216 | only flushes deliver, only clearing clears, and only a record drops or rejects |
| TelemetrySpec.CountsKeepSums | internal/telemetry/collector.go:51-71 | per-reason and per-capability counts add up to the denied and granted counters |
| TelemetrySpec.CountsOne | internal/telemetry/collector.go:51-71 | a decision counts once, under its own capability or reason, and changes no other count |
| TelemetrySpec.DeliveredPlusCurrent | internal/telemetry/flusher.go:28-91 | over any run the counts delivered by flushes plus the current counters are all decisions made |
| TelemetrySpec.CountedSinceReset | internal/telemetry/flusher.go:68-109 | the counters, and every summary, count all decisions since the last flush that reset them, also those earlier summaries counted |
| Telemetry.Buffer.constructor | internal/telemetry/buffer.go:32-50 | the size limit is at most 100 MB, and 10 MB when not positive |
| Telemetry.Buffer.RecordEvent | internal/telemetry/buffer.go:102-143 | queue and result of one record; `currentSize` stays the sum of the queued sizes |
| Telemetry.Buffer.GetEvents | internal/telemetry/buffer.go:146-161 | returns all events in order and empties the queue |
| Telemetry.Buffer.GetEventsSince | internal/telemetry/buffer.go:164-193 | returns the events not older than the time, keeps the others, recomputes the size |
| Telemetry.Buffer.Clear | internal/telemetry/buffer.go:210-216 | empties queue and size |
| Telemetry.Collector.RecordBindingGranted | internal/telemetry/collector.go:51-57 | counts the grant and its capability |
| Telemetry.Collector.RecordBindingDenied | internal/telemetry/collector.go:60-66 | counts the denial and its reason |
| Telemetry.Collector.RecordBindingRevoked | internal/telemetry/collector.go:69-71 | counts the revocation |
| Telemetry.Collector.GenerateSummary | internal/telemetry/collector.go:114-164 | the summary lists every counted reason and capability once, with the current counts and the deny rate |
| Telemetry.Entries | internal/telemetry/collector.go:118-134 | walking a counter map lists each key once with its count |
| Telemetry.Collector.ResetCounters | internal/telemetry/collector.go:167-179 | all counts are zero; the summary time stays |
| Telemetry.Flusher.Wanted | internal/telemetry/flusher.go:38-48 | which of the two kinds were asked for, whatever else is in the list |
| Telemetry.Flusher.FlushAuditEvents | internal/telemetry/flusher.go:51-65 | what is delivered is exactly what leaves the buffer |
| Telemetry.Flusher.FlushMetrics | internal/telemetry/flusher.go:68-83 | a due summary carries the counts and resets them; otherwise nothing changes |
| Telemetry.Flusher.FlushRequest | internal/telemetry/flusher.go:28-91 | response, buffer and counters after a flush; counts and events are delivered or stay, never both |
| Telemetry.Flusher.SendTelemetrySummary | internal/telemetry/flusher.go:95-109 | buffers a due summary without resetting the counters |
| Exposure.HyphaeProvider.Bind | internal/exposure/hyphae_provider.go:94-225 | for every outcome the open clients remain exactly those of the active tunnels; succeeds iff every step does, with a client that did not exist before; a failed bind leaves the exposure without tunnel |
| Exposure.HyphaeProvider.Open | internal/exposure/hyphae_provider.go:150-177 | a client stays open only if it connected and the local service is reachable |
| Exposure.HyphaeProvider.Unbind | internal/exposure/hyphae_provider.go:228-265 | removes the tunnel and closes its client even when forwarding does not end in time |
| Exposure.HyphaeProvider.Close | internal/exposure/hyphae_provider.go:281-302 | closes every client |
| Exposure.OwnedWith | internal/exposure/hyphae_provider.go:192-206 | recording a new client keeps open clients and active tunnels in bijection |
| Exposure.OwnedWithout | internal/exposure/hyphae_provider.go:107-122 | closing a tunnel's client and deleting it keeps the bijection |
| LinkHandlers.Handlers.BindLink | internal/link/handlers.go:82-171 | the link is active iff the bind succeeded, exactly when; its tunnel has the payload's lease, host and target; and the emitted event says so with its URL |
| LinkHandlers.Handlers.UnbindLink | internal/link/handlers.go:218-243 | the link is not active afterwards; the emitted event carries the error, if any |
| LinkHandlers.StepReports | internal/link/handlers.go:82-243 | one request's event concerns its own link only and reports success iff a bind succeeded |
| LinkHandlers.ActiveIffReported | internal/link/handlers.go:82-243 | over any run, when a link's last event reached the kernel, the link is active iff its latest event is a successful bind, whatever was lost before |
| Channel.HyphaeProvider.AttemptUpgrade | internal/channel/hyphae_provider.go:309-357 | one attempt's effects; only status 101 leaves its connection open, only a 503 with a full wait leads to another attempt |
| Channel.HyphaeProvider.DialUntilUpgraded | internal/channel/hyphae_provider.go:302-358 | the retry loop's effects are those specified; it ends with a connection iff some attempt within ten is upgraded after nothing but full waits |
| Channel.HyphaeProvider.BindInitiator | internal/channel/hyphae_provider.go:277-392 | returns with the one new connection recorded as active, or with nothing of its own open; exactly when it succeeds |
| Channel.HyphaeProvider.BindListener | internal/channel/hyphae_provider.go:124-202 | a single attempt; records its session, or leaves nothing open |
| Channel.HyphaeProvider.UnbindChannel | internal/channel/hyphae_provider.go:85-105 | forgets the channel and closes its connection only |
| Channel.HyphaeProvider.CloseAll | internal/channel/hyphae_provider.go:107-120 | unbinds every channel; nothing stays open |
| Channel.HyphaeProvider.EndRelay | internal/channel/hyphae_provider.go:401-440 | a finished relay closes its connection and leaves the channel active |
| Channel.HyphaeProvider.LocalAddr | internal/channel/hyphae_provider.go:442-452 | the address of an active initiator that has one, and none for any other channel |
| Channel.RetryBounds | internal/channel/hyphae_provider.go:302-358 | at most ten dials and 110 seconds of backoff, however the attempts go |
| Channel.BackoffIs | internal/channel/hyphae_provider.go:306-353 | the waits are 2, 4, 8 seconds and then 16 |
| Channel.PauseIs | internal/channel/hyphae_provider.go:342-355 | only a 503 before the tenth attempt is waited for, in full or until the cancellation |
| Channel.ConnectsExactly | internal/channel/hyphae_provider.go:308-358 | the loop ends with a connection iff one of ten attempts is answered 101 after nothing but 503s waited for in full |
| Channel.RetryBoundsTight | internal/channel/hyphae_provider.go:302-358 | a listener that is late or never comes costs exactly that |
| Channel.OneAtATime | internal/channel/hyphae_provider.go:302-358 | after every effect at most one connection of the bind is open |
| Channel.EndsOpenIffConnects | internal/channel/hyphae_provider.go:302-358 | the loop leaves exactly the upgraded connection open, and none if there is none |
| Channel.BeforeAndLeft | internal/channel/hyphae_provider.go:302-358 | the attempts made and the attempts left make up the same whole at every turn of the loop |
| Channel.InitiatorBounds | internal/channel/hyphae_provider.go:277-392 | the bounds on dials, waits and open connections for the whole bind, with the local listener's failure |

## Left out

- gRPC, TLS, HTTP upgrade, yamux, sockets, file reads and JSON: they are outcomes passed in.
- Stopping the event consumer and starting it again: its channel is created once and closed by the stream goroutine; one start is modelled.
- Locks and data races: each method is one atomic step; the protocol's steps interleave freely.
- Sequence number 0 in the stream: the protocol's logs number from 1 and strictly upward, as the UA's resumption by last seen number presumes; the filter alone is covered for any numbers.
- Width of sequence numbers, rounding of `float64`, overflow of durations: numbers are unbounded and exact.
- Aliasing of stored objects: members, services, providers and grants are values in maps; a caller that changes one through a pointer it was given is not modelled. One consequence: handlers that change an entry and store it again are a single update here.
- What registered handlers do: an event whose type has one carries that handler's outcome and does nothing to the registry.
- Trust roots, log output, versions and timestamps such as the last heartbeat, which no decision reads.
- A missing telemetry buffer or collector: the engine is given both.
- A grant's own rate limiter: it is created and never asked; the token bucket's laws are those of its algorithm too.
- Bindings expired, connections, bytes and health in the collector: plain counters beside the modelled ones.
- The local proxy for URL targets: rebinding and failing binds do not stop it, so it is not part of what the open clients account for.
- Which tunnel server a client dials: the per-link address override changes no ownership.
- The live relay, stream forwarding, route registration and local address resolution of channels; concurrent binds of one channel.
- Completion events of channel links, and the HTTP server, configuration, host adapter, kernel client and launcher.
- GetBinding, status queries and other getters.
- Randomness of generated IDs: they are assumed not empty and not repeated where a law needs it.
- EventStream.CatchUp: bounds the number of steps, not their duration; it assumes the logs at rest and the stream up, without which the source promises nothing.
- BindingEngine.Engine.RequestBinding: the two clock readings of issuing a grant, for its creation and its expiry, are one.
- TelemetrySpec.DeliveredPlusCurrent: for calls one after another; a count made between the summary and its reset by a concurrent call is not modelled.
- Telemetry.Flusher.SendTelemetrySummary: the caller's summary is returned only when it could be buffered, as in the source; sending it anywhere is not part of this model.
