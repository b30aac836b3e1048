# Service Router Operator: reconcile engine

A model of the reconcile engine of the Service Router Operator, and proofs of what it keeps and reaches.
The operator moves a shared store of Kubernetes objects towards a desired state by six controllers, two of
which fill in-memory caches that the others read in place of the store.

The project has three layers.

* **Controllers.** `Cluster` (`api_server.dfy`) is the store of one cluster: maps of objects that are read,
  listed by label, created (refused if the name is taken), patched and deleted. Any listing of endpoints
  and any write may also be refused by a fault. The controllers are methods with the loops of the source
  over that store. Map iteration order is an arbitrary choice, the order of listings too.
  Their contracts tie every new state to functions of the old one, also when they stop half way.
* **Runs.** `RoutingRuns`, `RouteQueue`, `RouteAgreement`, `GatewayRuns`, `ServedHosts`, `IngressOutcomes`,
  `SingletonRuns` and `AgreementRuns` are step machines: user edits, reconciliations and refused writes in any
  order, over stores, queues and caches. Their steps are the functions and predicates the contracts of the
  controllers are stated with.
* **Outcomes.** The modules whose names end in Outcomes, `GeneratedEndpoints` and `ServedHosts` say what those
  functions come to in terms of the objects themselves: their fields, labels and names, written out.

| file | content |
|---|---|
| `objects.dfy`, `api_server.dfy`, `host_names.dfy`, `admission.dfy` | objects, the store, host names, what the schemas admit |
| `endpoint_diff.dfy` | work left, single writes, runs of writes, the goal of a reconciliation |
| `service_route.dfy`, `route_properties.dfy` | the ServiceRoute controller; several routes, repeated controllers |
| `route_outcomes.dfy`, `generated_endpoints.dfy` | what a reconciliation of a route comes to, branch by branch and field by field |
| `dns_policy.dfy`, `multi_cluster.dfy` | controller selection; several clusters sharing a configuration |
| `routing_runs.dfy`, `drain_limit.dfy`, `route_queue.dfy` | runs of policies and routes: well-formedness, draining and its limits, the queue of routes |
| `route_agreement.dfy`, `agreement_outcomes.dfy`, `route_agreement_limit.dfy` | routes beside the identity cache: eventual agreement, and its limits |
| `singleton_runs.dfy`, `singleton_api.dfy`, `cluster_identity.dfy`, `dns_configuration.dfy`, `singleton_outcomes.dfy` | the two singleton controllers, their caches, `Fetch` |
| `agreement_runs.dfy`, `stale_paths.dfy`, `agreement_limit.dfy` | policies beside both caches: eventual agreement, and its limit |
| `gateway.dfy`, `gateway_runs.dfy`, `gateway_outcomes.dfy` | host aggregation and the Istio Gateways as an index |
| `served_hosts.dfy` | the CNAMEs of routes beside the hosts of Istio Gateways |
| `ingress_dns.dfy`, `ingress_pass.dfy`, `ingress_outcomes.dfy` | the IngressDNS pass, and runs of passes |
| `dns_chain.dfy`, `dns_regions.dfy` | CNAMEs meet A records (canonical names, section 3.6.2 of RFC 1034); repeated controller names |

## What the proofs found

* **Route and controller names can run together.** The endpoint of route `a` for controller `b-c` and the
  endpoint of route `a-b` for controller `c` have one name. The route reconciled second fails with
  "already exists" on every retry (`RoutesThatNeverSettle`, `FirstBlocksSecond`). `NamesMeetExactly` says
  exactly when names meet, `ConvergesExactly` that a taken name is the only obstacle, and
  `HyphenFreeNeverMeet` that controller names without hyphens are safe.
* **Policies and routes may stay stale beside a second object.** Deleting a second ClusterIdentity or
  DNSConfiguration clears the cache without an event, so a policy or route reconciled just before keeps
  what the old spec demanded (`TwoIdentitiesDisagree`, `TwoConfigurationsDisagree`,
  `TwoIdentitiesStrandRoutes`). For policies it is enough that the second object is never valid: the schemas
  admit an object without a spec, and an entry without a name. `AgreementExactly` and `RouteAgreementExactly`:
  agreement is certain if and only if at most one object may exist at a time.
* **Routes miss changes of the configuration.** The ServiceRoute controller does not watch DNSConfiguration. A
  route reconciled while an entry was missing lacks that endpoint until something else queues it, if its
  policy never noticed (`ConfigurationChangeIsMissed`).
* **An invalid route is not drained.** docs/ARCHITECTURE.md:356 says that an inactive policy removes all
  endpoints of its namespace. The code validates the route first and returns, so the endpoints of a
  route that became invalid stay (`DrainsExactly` for the condition, `InvalidRouteIsNotDrained` for a
  history).
* **Repeated controller names.** ServiceRoute takes the last entry of a name, IngressDNS keeps what the first
  entry created, so with a repeated name the regions of a CNAME and its A record may differ
  (`RegionsAgreeExactly`, and `RepeatedNameBreaksTheChain` for an instance). The DNS chain and the claims
  on selection therefore ask for distinct names.
* **An empty desired list deletes nothing**, because no namespace is listed then, and an active policy without
  controllers is an error (`UnconfiguredRouteKeepsEndpoints`, `ControllerlessRouteKeepsEndpoints`). Takeover
  and draining go through an inactive policy instead, and the DNS chain needs some active controller to be
  configured (`RouteStepSettlesExactly`).
* **Hosts can run together too**: `HostsMeetExactly` says when two routes of a cluster have one host,
  `TargetsMeetExactly` when two clusters of a domain have one target host, `RecordNamesMeetExactly` when two
  Gateway records have one name.
* **A waiting route keeps its old CNAME.** While a route is incomplete or lacks a policy or a configuration, or
  no selected controller is configured, its CNAME may announce a host its Istio Gateway does not serve any more
  (`ServedExactly` for the condition).
* The comment at api/cluster/v1alpha1/dnsconfiguration_types.go:37 says that RegionBound mode activates the
  controllers of the cluster's region only; the code activates all of them, and the model follows it.
* docs/ARCHITECTURE.md:299 says the annotation matches the controller name; the code writes the region, and
  the model follows the code.

## Model

| member | source | states |
|---|---|---|
| `EndpointDiff.SelectorMatches` | internal/controller/routing/serviceroute_controller.go:401-407 | the label selector of a listing picks exactly the endpoints carrying the three labels of the route |
| `EndpointDiff.WriteProgress` | internal/controller/routing/serviceroute_controller.go:431-459 | any one create, patch or delete lowers the work left by exactly one, moves no goal and neither frees nor takes a name |
| `EndpointDiff.RunProgress` | internal/controller/routing/serviceroute_controller.go:431-459 | writes done plus work left is constant over every run, in whatever order and wherever cut off |
| `EndpointDiff.Settled` | internal/controller/routing/serviceroute_controller.go:431-459 | no work is left if and only if no write is possible and no name is taken; then the goal is the store itself |
| `EndpointDiff.GoalMeaning` | internal/controller/routing/serviceroute_controller.go:385-462 | after a complete reconciliation the selected endpoints are exactly the desired names with the desired specs; all others are as before |
| `EndpointDiff.GoalSettles` | internal/controller/routing/serviceroute_controller.go:431-459 | a second reconciliation would write nothing |
| `EndpointDiff.CompletedRun` | internal/controller/routing/serviceroute_controller.go:431-459 | a run that leaves no work ends in the goal of its first store after as many writes as there was work |
| `EndpointDiff.RunsProgress` | internal/controller/routing/serviceroute_controller.go:431-459 | the same conservation over any number of consecutive cut-off runs |
| `EndpointDiff.CutOffRunsConverge` | internal/controller/routing/serviceroute_controller.go:431-459 | crash safety: however often it is cut off, the first completed run ends in the goal of the first store, and all runs together wrote exactly the initial work |
| `EndpointDiff.ConvergesExactly` | internal/controller/routing/serviceroute_controller.go:417-462 | some run leaves no work if and only if no desired name is held by an endpoint of someone else |
| `EndpointDiff.RunFrame` | internal/controller/routing/serviceroute_controller.go:396-415 | no run, complete or not, touches an endpoint outside the route's labels and namespaces |
| `ServiceRouteController.MapControllers` | internal/controller/routing/serviceroute_controller.go:300-303 | the loop over the configuration builds the last-wins map |
| `ServiceRouteController.ControllerMapMeaning` | internal/controller/routing/serviceroute_controller.go:300-303 | the map has exactly the configured names, and with distinct names every entry under its own |
| `ServiceRouteController.GenerateEndpoints` | internal/controller/routing/serviceroute_controller.go:267-318 | generation as a loop: an error without active controllers, unknown controllers skipped, one endpoint for each listed one otherwise |
| `ServiceRouteController.IndexByKey` | internal/controller/routing/serviceroute_controller.go:417-429 | the loop that indexes endpoints by namespace and name |
| `ServiceRouteController.ByKeyMeaning` | internal/controller/routing/serviceroute_controller.go:417-429 | the index loses no name and invents no endpoint |
| `ServiceRouteController.BuildAllIsDesired` | internal/controller/routing/serviceroute_controller.go:305-317 | what is generated, indexed by name, depends on the set of active names only |
| `ServiceRouteController.BuildAllNamespaces` | internal/controller/routing/serviceroute_controller.go:390-394 | what is generated lies in the route's namespace, and no namespace at all is listed when no active controller is configured |
| `ServiceRouteController.DesiredNamespaces` | internal/controller/routing/serviceroute_controller.go:390-394 | the loop collects the namespaces of what is desired |
| `ServiceRouteController.RepetitionIsHarmless` | internal/controller/routing/serviceroute_controller.go:300-317 | lists with the same set of names generate the same index and the same namespaces, or both fail |
| `ServiceRouteController.ListExisting` | internal/controller/routing/serviceroute_controller.go:396-415 | the listing loop over namespaces in any order finds exactly the endpoints of the route there |
| `ServiceRouteController.UpsertOne` | internal/controller/routing/serviceroute_controller.go:432-450 | one desired name is patched if its spec differs, created if absent from the listing, and refused if someone else has it |
| `ServiceRouteController.UpsertDesired` | internal/controller/routing/serviceroute_controller.go:431-450 | the upserts in any order stop at the first error; without one, every desired name is held and nothing else is touched |
| `ServiceRouteController.DeleteStale` | internal/controller/routing/serviceroute_controller.go:452-459 | the deletions in any order stop at the first error; without one, no work is left |
| `ServiceRouteController.OthersStillListed` | internal/controller/routing/serviceroute_controller.go:431-459 | upserts do not disturb the deletions that follow |
| `ServiceRouteController.ReconcileEndpoints` | internal/controller/routing/serviceroute_controller.go:385-462 | every call is a run of single writes; unless refused it succeeds if and only if no desired name is taken, and then the store is the goal after exactly as many writes as there was work |
| `ServiceRouteController.DeleteEndpoints` | internal/controller/routing/serviceroute_controller.go:181-220 | cleanup in any order removes exactly the endpoints of the route in its namespace, or stops at a refusal part of the way |
| `ServiceRouteController.PurgedIsGoal` | internal/controller/routing/serviceroute_controller.go:182-220 | cleanup is reconciliation towards nothing, so the progress results hold for it |
| `ServiceRouteController.WantedIsLabelled` | internal/controller/routing/serviceroute_controller.go:343-371 | whatever is generated for a route carries its labels and lies in its namespace |
| `ServiceRouteController.GetPolicyForNamespace` | internal/controller/routing/serviceroute_controller.go:239-252 | some policy of the namespace, if there is any |
| `ServiceRouteController.Report` | internal/controller/routing/serviceroute_controller.go:464-559 | a status update touches the status of the one route only, and says what was decided |
| `ServiceRouteController.CarryOut` | internal/controller/routing/serviceroute_controller.go:101-178 | endpoints first, status only after they succeeded |
| `ServiceRouteController.Reconcile` | internal/controller/routing/serviceroute_controller.go:64-179 | the whole reconciliation: which writes were done even if cut off, the final store and status if nothing is refused, and the name clash that makes it fail, for the decision the lemmas of RouteOutcomes spell out branch by branch |
| `RoutingRuns.ReconciliationIsStep` | internal/controller/routing/serviceroute_controller.go:64-179 | what the method promises is a step of the runs below |
| `RoutingRuns.DesiredIsWellFormed` | internal/controller/routing/serviceroute_controller.go:327-382 | generated endpoints are well-formed and belong to their route |
| `RoutingRuns.RunKeepsWellFormed` | internal/controller/routing/serviceroute_controller.go:431-459 | well-formedness survives every single create, patch and delete |
| `RoutingRuns.DecisionKeepsWellFormed` | internal/controller/routing/serviceroute_controller.go:64-179 | and every reconciliation, complete or not, whatever was fetched |
| `RoutingRuns.NextKeepsInvariant` | internal/controller/routing/dnspolicy_controller.go:257-376 | every step keeps all endpoints well-formed and every inactive policy without controllers |
| `RoutingRuns.ReachableStoresAreWellFormed` | internal/controller/routing/serviceroute_controller.go:327-382 | every reachable store: each route endpoint lives in its source namespace, is named after its own labels, annotated for its own region, and holds one CNAME with one target |
| `RoutingRuns.OneEndpointPerController` | internal/controller/routing/serviceroute_controller.go:357-360 | a namespace, route and controller have at most one endpoint |
| `RoutingRuns.MismatchDeactivates` | internal/controller/routing/dnspolicy_controller.go:106-111 | one step makes a mismatching policy inactive and empty, whatever it was |
| `RoutingRuns.DecisionKeepsAbsent` | internal/controller/routing/serviceroute_controller.go:64-179 | reconciling one route never gives an endpoint to another |
| `RoutingRuns.StepKeepsDrained` | internal/controller/routing/serviceroute_controller.go:101-116 | no step recreates an endpoint of a drained route while the mismatch holds |
| `RoutingRuns.StepDrains` | internal/controller/routing/serviceroute_controller.go:101-116 | one completed step of a valid or deleted route removes all its endpoints and no others |
| `RoutingRuns.DrainsExactly` | internal/controller/routing/serviceroute_controller.go:83-116 | a completed step leaves the route without endpoints if and only if it is valid or deleted, or had none |
| `RoutingRuns.InactiveAlong` | internal/controller/routing/dnspolicy_controller.go:106-111 | the policy stays inactive through any history of the mismatch |
| `RoutingRuns.DrainedForever` | internal/controller/routing/serviceroute_controller.go:101-116 | over whole histories: once reconciled, such a route has no endpoint ever after, whatever else happens |
| `RouteOutcomes.ViewsAgree` | internal/controller/routing/serviceroute_controller.go:132-148 | the objects the controller looks up are those the runs say: the Gateway in the namespace the route gives, or in the default one |
| `RouteOutcomes.PolicyIsOfNamespace` | internal/controller/routing/serviceroute_controller.go:239-252 | the policy is one of the route's namespace, and there is none if and only if the namespace has none |
| `RouteOutcomes.IncompleteRouteIsLeftAlone` | internal/controller/routing/serviceroute_controller.go:83-87 | an incomplete route is failed, its endpoints untouched |
| `RouteOutcomes.PolicylessRouteWaits` | internal/controller/routing/serviceroute_controller.go:90-99 | without a policy a complete route is pending, its endpoints untouched |
| `RouteOutcomes.WaitingRouteIsLeftAlone` | internal/controller/routing/serviceroute_controller.go:118-161 | under an active policy with configuration, Gateway or identity missing, no endpoint is touched and the route is pending with the reason of the first that is missing |
| `RouteOutcomes.ControllerlessRouteIsLeftAlone` | internal/controller/routing/serviceroute_controller.go:276-279 | with all there but no controller selected the route is failed, its endpoints untouched |
| `RouteOutcomes.WithdrawnRouteIsEmptied` | internal/controller/routing/serviceroute_controller.go:67-116 | a deleted route, or a complete one under an inactive policy, loses exactly the endpoints with its three labels in its namespace |
| `RouteOutcomes.CompleteRouteIsActive` | internal/controller/routing/serviceroute_controller.go:163-178 | with all there the route is reported active, unless a call is refused or a name is taken |
| `RouteOutcomes.ChangesAreJustified` | internal/controller/routing/serviceroute_controller.go:64-179 | every change of an endpoint by a reconciliation, complete or not, is of an endpoint of that route; it is written only if all objects are there, and removed only if so, or the route is deleted, or its policy inactive |
| `RouteOutcomes.RemovalsAreJustified` | internal/controller/routing/serviceroute_controller.go:64-179 | along any history an endpoint that nobody else removed is gone only because its route was deleted, its policy was inactive, or all four objects were there |
| `RouteOutcomes.ActivityIsJustified` | internal/controller/routing/dnspolicy_controller.go:137-152 | along any history a policy is active only if a reconciliation of its own found identity and configuration and every constraint met, and it still has the selection of that moment |
| `GeneratedEndpoints.WantsExactly` | internal/controller/routing/serviceroute_controller.go:327-382 | the endpoint that is asked for, field by field: name, labels, annotation, owner and the one CNAME with both hosts written out |
| `GeneratedEndpoints.WantsNothingElse` | internal/controller/routing/serviceroute_controller.go:305-317 | only selected controllers are asked for, each with the last entry of its name |
| `GeneratedEndpoints.ReadyRouteHasEndpoints` | internal/controller/routing/serviceroute_controller.go:431-450 | afterwards each selected configured controller has its endpoint: new, or kept whole if its record was right, or with all but the owner replaced |
| `GeneratedEndpoints.ReadyRouteHasNoOthers` | internal/controller/routing/serviceroute_controller.go:452-459 | no other endpoint of the route is left, and every endpoint that is none of the route's is as before |
| `GeneratedEndpoints.StatusNamesFirstEndpoint` | internal/controller/routing/serviceroute_controller.go:464-498 | the status names the endpoint of the first selected controller that is configured |
| `GeneratedEndpoints.NothingConfiguredChangesNothing` | internal/controller/routing/serviceroute_controller.go:390-462 | when none of the selected controllers is configured nothing changes |
| `RouteProperties.RepetitionChangesNothing` | internal/controller/routing/serviceroute_controller.go:300-450 | end to end: active lists with the same set of names lead to the same endpoints in any store and to the same failures |
| `RouteProperties.NamesMeetExactly` | internal/controller/routing/serviceroute_controller.go:357-360 | endpoints of two routes have one name if and only if one route name continues after a hyphen with the beginning of the other's controller name |
| `HostNames.JoinedExactly` | internal/controller/routing/serviceroute_controller.go:357-359 | two names joined by hyphens are equal if and only if their parts are, or one part goes on into the other |
| `RouteProperties.DesiredMeetExactly` | internal/controller/routing/serviceroute_controller.go:305-317 | two routes desire a common name if and only if two of their controllers are shifted that way |
| `RouteProperties.HyphenFreeNeverMeet` | internal/controller/routing/serviceroute_controller.go:357-360 | controllers without hyphens never make routes meet |
| `RouteProperties.BothSettleExactly` | internal/controller/routing/serviceroute_controller.go:431-459 | some store leaves two routes without work if and only if they desire no common name |
| `RouteProperties.OtherGoal` | internal/controller/routing/serviceroute_controller.go:396-415 | reconciling one route changes neither the endpoints nor the work of another |
| `RouteProperties.RoutesCommute` | internal/controller/routing/serviceroute_controller.go:385-462 | two routes reconciled in either order end in the same store, with work for neither |
| `RouteProperties.FirstBlocksSecond` | internal/controller/routing/serviceroute_controller.go:444-449 | if they do share a name, the one reconciled first blocks the other |
| `RouteProperties.RoutesThatNeverSettle` | internal/controller/routing/serviceroute_controller.go:357-360 | a concrete policy and two route names for which no store is final |
| `DnsPolicyController.CollectNames` | internal/controller/routing/dnspolicy_controller.go:187-191 | the inner loop: the names of one region, in order |
| `DnsPolicyController.ExistingRegions` | internal/controller/routing/dnspolicy_controller.go:196-199 | the regions that have a controller |
| `DnsPolicyController.ContributesWhenConfigured` | internal/controller/routing/dnspolicy_controller.go:202-210 | a region contributes a name if and only if it is an existing region |
| `DnsPolicyController.ActiveModeControllers` | internal/controller/routing/dnspolicy_controller.go:180-214 | the loops with the existing-regions filter compute what the unfiltered definition says: the filter changes nothing |
| `DnsPolicyController.RegionBoundModeControllers` | internal/controller/routing/dnspolicy_controller.go:220-231 | all configured names, in order |
| `DnsPolicyController.DetermineActiveControllers` | internal/controller/routing/dnspolicy_controller.go:166-175 | the mode decides |
| `DnsPolicyController.ActiveModeCounts` | internal/controller/routing/dnspolicy_controller.go:180-214 | each name is selected once for each entry in the cluster's region plus once each time the entry's region is adopted |
| `DnsPolicyController.ActiveModeSelects` | internal/controller/routing/dnspolicy_controller.go:180-214 | the names selected are those of the cluster's own and adopted regions |
| `DnsPolicyController.Reconcile` | internal/controller/routing/dnspolicy_controller.go:58-118 | the new status in every branch; pending and failed keep the old selection, inactive keeps the phase |
| `DnsPolicyController.ActiveExactly` | internal/controller/routing/dnspolicy_controller.go:137-152 | a reconciled policy is active if and only if its source region and its source cluster are each empty or the cluster's own |
| `DnsPolicyController.UnreadyPolicyKeepsSelection` | internal/controller/routing/dnspolicy_controller.go:67-104 | while identity or configuration is missing, and when it is invalid, it keeps phase and selection and gets the reason of the first of these |
| `DnsPolicyController.InactivePolicySelectsNothing` | internal/controller/routing/dnspolicy_controller.go:106-111 | when a constraint is not met it selects nothing and keeps its phase |
| `DnsPolicyController.NamesForInOrder` | internal/controller/routing/dnspolicy_controller.go:187-191 | a region contributes the names of exactly its entries, at increasing positions of the configuration |
| `DnsPolicyController.ActiveModeInOrder` | internal/controller/routing/dnspolicy_controller.go:180-214 | the active selection lists the own region first, then each adopted region in turn, each in the order of the configuration |
| `DnsPolicyController.RegionBoundModeInOrder` | internal/controller/routing/dnspolicy_controller.go:220-231 | in RegionBound mode it lists all entries in their order |
| `MultiCluster.BecomesActiveExactly` | internal/controller/routing/dnspolicy_controller.go:137-152 | a spec makes a cluster active if and only if the cluster meets each constraint the spec has, whatever the status was before |
| `MultiCluster.SourceRegionExcludes` | internal/controller/routing/dnspolicy_controller.go:141-144 | every policy that names a source region becomes active in at most one cluster if and only if no two clusters share a region |
| `MultiCluster.SourceClusterExcludes` | internal/controller/routing/dnspolicy_controller.go:146-150 | every policy that names a source cluster becomes active in at most one if and only if no two clusters share a name |
| `MultiCluster.SourceConstraintsExclude` | internal/controller/routing/dnspolicy_controller.go:141-150 | every policy that names both does if and only if no two clusters share both |
| `MultiCluster.UnconstrainedIsActiveEverywhere` | internal/controller/routing/dnspolicy_controller.go:137-152 | a policy that names neither is active in every cluster |
| `MultiCluster.ActiveClusterSelectsAll` | internal/controller/routing/dnspolicy_controller.go:106-117 | in RegionBound mode the active cluster selects every controller and the others none |
| `MultiCluster.RaceFreeExactly` | internal/controller/routing/dnspolicy_controller.go:180-214 | no controller is selected by two clusters if and only if no configured region is managed by two |
| `MultiCluster.SelectedAsOftenAsClaimed` | internal/controller/routing/dnspolicy_controller.go:180-214 | a controller is selected over all clusters as often as its region is claimed |
| `MultiCluster.PartitionExactly` | internal/controller/routing/dnspolicy_controller.go:180-214 | the clusters partition the controllers if and only if every configured region is claimed exactly once |
| `MultiCluster.OthersServeNone` | internal/controller/routing/serviceroute_controller.go:101-116 | an inactive cluster keeps no endpoint of the route |
| `MultiCluster.SourceServesAll` | internal/controller/routing/serviceroute_controller.go:118-178 | the active one gets exactly one endpoint per configured controller |
| `MultiCluster.ListServesExactly` | internal/controller/routing/serviceroute_controller.go:385-462 | reconciling towards a list leaves one endpoint per listed controller and no other if and only if the list is not empty or there was none |
| `MultiCluster.Takeover` | internal/controller/routing/serviceroute_controller.go:101-178 | after every cluster reconciled policy and route, each controller has exactly one endpoint over all clusters, and it is in the source cluster |
| `SingletonRuns.StepKeepsCoherent` | internal/controller/cluster/clusteridentity_controller.go:58-105 | no edit and no step of the worker breaks the tie between cache and objects |
| `SingletonRuns.CoherentAlong` | internal/controller/cluster/dnsconfiguration_controller.go:47-91 | so it holds at every moment of every history |
| `SingletonRuns.FetchAgreesWhenDrained` | internal/clusteridentity/helper.go:31-57 | whenever nothing is queued or in progress and one valid object exists, Fetch returns its spec, through creates, edits, renames, deletes and singleton violations |
| `SingletonApi.ObjectApi.UpdateStatus` | internal/controller/cluster/clusteridentity_controller.go:208-219 | a status write goes through or is refused as a whole |
| `SingletonApi.ObjectApi.Report` | internal/controller/cluster/clusteridentity_controller.go:195-245 | the name is queued again if and only if the write is refused or changes the object |
| `ClusterIdentityController.Cache.Set` | internal/clusteridentity/cache.go:38-42 | the given record itself becomes the cached one |
| `ClusterIdentityController.Cache.Get` | internal/clusteridentity/cache.go:45-65 | nil if and only if nothing is cached; else a fresh record with a fresh slice and the cached contents |
| `ClusterIdentityController.Cache.Clear` | internal/clusteridentity/cache.go:68-72 | nothing is cached |
| `ClusterIdentityController.CopiesAreIsolated` | internal/clusteridentity/cache.go:45-65 | no sequence of writes through any earlier results changes a later Get |
| `ClusterIdentityController.NewRecord` | internal/controller/cluster/clusteridentity_controller.go:95-101 | the record that is cached holds the spec |
| `ClusterIdentityController.Fetch` | internal/clusteridentity/helper.go:31-57 | the cached identity, else that of some listed object, else nil; always a fresh record |
| `ClusterIdentityController.Reconcile` | internal/controller/cluster/clusteridentity_controller.go:58-105 | one uninterrupted reconciliation is one pass of the worker of the runs, on cache and objects; of a sole valid object the adopted regions without an entry are reported, in their order |
| `ClusterIdentityController.ValidateAdoptedRegions` | internal/controller/cluster/clusteridentity_controller.go:109-162 | the invalid regions are those at the increasing positions of the list whose region no configured entry has |
| `ClusterIdentityController.SilentCounts` | internal/controller/cluster/clusteridentity_controller.go:127-158 | each region is reported as often as it is adopted if no entry has it, and otherwise not at all |
| `ClusterIdentityController.SilentInOrder` | internal/controller/cluster/clusteridentity_controller.go:127-158 | the reported regions keep their order |
| `ClusterIdentityController.AllSilentWithoutConfig` | internal/controller/cluster/clusteridentity_controller.go:116-140 | without a configuration all adopted regions are reported |
| `ClusterIdentityController.AdoptionAgrees` | internal/controller/cluster/clusteridentity_controller.go:127-158 | all adopted regions are valid if and only if each makes Active mode select a controller of that region |
| `DnsConfigurationController.Cache.Set` | internal/dnsconfiguration/cache.go:40-44 | the given record itself becomes the cached one |
| `DnsConfigurationController.Cache.Get` | internal/dnsconfiguration/cache.go:47-62 | nil if and only if nothing is cached; else a fresh record with a fresh slice and the cached contents |
| `DnsConfigurationController.Cache.Clear` | internal/dnsconfiguration/cache.go:65-69 | nothing is cached |
| `DnsConfigurationController.CopiesAreIsolated` | internal/dnsconfiguration/cache.go:47-62 | no sequence of writes through any earlier results changes a later Get |
| `DnsConfigurationController.Convert` | internal/dnsconfiguration/helper.go:51-60 | the conversion loop keeps every entry and its place |
| `DnsConfigurationController.Fetch` | internal/dnsconfiguration/helper.go:31-63 | the cached configuration, else the converted one of some listed object, else nil; always a fresh record |
| `DnsConfigurationController.ValidateSpec` | internal/controller/cluster/dnsconfiguration_controller.go:108-121 | accepted if and only if there is an entry and every entry has name and region |
| `DnsConfigurationController.Reconcile` | internal/controller/cluster/dnsconfiguration_controller.go:47-91 | one uninterrupted reconciliation is one pass of the worker of the runs, on cache and objects |
| `SingletonOutcomes.AbsentEmptiesCache` | internal/controller/cluster/clusteridentity_controller.go:61-72 | a deleted object empties the cache and changes no object |
| `SingletonOutcomes.SecondIsRefused` | internal/controller/cluster/clusteridentity_controller.go:74-78 | beside another object a valid one too is refused, and the cache stays |
| `SingletonOutcomes.InvalidIsRefused` | internal/controller/cluster/clusteridentity_controller.go:80-83 | alone and invalid it is refused, and the cache stays |
| `SingletonOutcomes.SoleIsCached` | internal/controller/cluster/clusteridentity_controller.go:93-105 | alone and valid it is cached and reported ready at its generation |
| `SingletonOutcomes.IdentityIsCachedExactly` | internal/controller/cluster/clusteridentity_controller.go:179-193 | an identity is cached if and only if it is the only object and its four fields are not empty |
| `SingletonOutcomes.ConfigurationIsCachedExactly` | internal/controller/cluster/dnsconfiguration_controller.go:47-121 | a configuration is cached if and only if it is the only object, is not empty and no entry lacks name or region |
| `SingletonOutcomes.EmptiesOutAlong` | internal/clusteridentity/helper.go:31-57 | at every moment, with no object left and nothing queued, the cache is empty or about to be emptied |
| `SingletonOutcomes.FetchesNothingWhenGone` | internal/clusteridentity/helper.go:31-57 | so whenever nothing is queued or in progress and no object exists, Fetch returns nothing |
| `SingletonOutcomes.ChangesAreQueued` | internal/controller/cluster/clusteridentity_controller.go:266-273 | whatever changes an object queues its name |
| `SingletonOutcomes.OnlyTheWorkerCaches` | internal/controller/cluster/clusteridentity_controller.go:61-102 | the cache only changes when a worker that read nothing empties it, or one that read a valid spec while no second object exists sets it |
| `AgreementRuns.StepKeepsTracked` | internal/controller/cluster/clusteridentity_controller.go:93-104 | a stale cache always goes with an object whose status is still to be written |
| `AgreementRuns.FetchesObserved` | internal/clusteridentity/helper.go:31-57 | once the status is written Fetch returns the object's spec |
| `AgreementRuns.MoveKeepsSound` | internal/controller/routing/dnspolicy_controller.go:379-391 | every policy that is not queued agrees with every observed object |
| `AgreementRuns.AgreesWithOneObject` | internal/controller/routing/dnspolicy_controller.go:58-118 | with at most one object of each kind at a time, every drained run ends with every policy agreeing with the pure function of spec, identity and configuration |
| `Admission.RefusedIdentityExactly` | api/cluster/v1alpha1/clusteridentity_types.go:26-74 | of what the schema admits the controller refuses only the object without a spec |
| `StalePaths.Strand` | internal/controller/cluster/clusteridentity_controller.go:74-78 | beside a second object an edited one is refused and the cache keeps its old spec, in either kind |
| `StalePaths.ClearStale` | internal/controller/cluster/clusteridentity_controller.go:62-72 | handling the deletion of the second object clears the cache and changes no object |
| `AgreementLimit.TwoIdentitiesDisagree` | internal/controller/cluster/clusteridentity_controller.go:62-78 | a run with two ClusterIdentity objects, both valid or the second one without a spec, drains with a policy computed from a cache that was cleared afterwards |
| `AgreementLimit.TwoConfigurationsDisagree` | internal/controller/cluster/dnsconfiguration_controller.go:52-72 | so does one with two DNSConfiguration objects, even if the second one has an entry without a name and is never valid |
| `AgreementLimit.AgreementExactly` | internal/controller/routing/dnspolicy_controller.go:379-391 | drained runs always agree if and only if at most one object of each kind may exist, or one of the kinds may have none; whether two may be valid makes no difference |
| `GatewayController.CollectHosts` | internal/controller/routing/gateway_controller.go:177-225 | the hosts of exactly the routes naming the Gateway, each once, in some order |
| `GatewayController.ListOf` | internal/controller/routing/gateway_controller.go:218-224 | a set becomes a list without duplicates, in some order |
| `GatewayController.EntriesDifferLoop` | internal/controller/routing/gateway_controller.go:327-331 | the map comparison finds a desired entry that is missing or different |
| `GatewayController.IstioNeedsUpdate` | internal/controller/routing/gateway_controller.go:322-373 | the test with its loops and early returns: sizes and one inclusion, TLS only where both have it |
| `GatewayController.Pigeonhole` | internal/controller/routing/gateway_controller.go:342-354 | equal length and one inclusion make a permutation, because the desired hosts have no duplicates |
| `GatewayController.NoDifferenceMeans` | internal/controller/routing/gateway_controller.go:322-373 | whoever wrote the existing one, no difference means equal selectors and hosts that are a permutation of the desired ones |
| `GatewayController.TestIsExact` | internal/controller/routing/gateway_controller.go:322-373 | on what the operator writes there is no difference if and only if all but the order of hosts is equal |
| `GatewayController.GetLoadBalancerService` | internal/controller/routing/gateway_controller.go:545-560 | some load balancer service of the controller, if there is any |
| `GatewayController.ReconcileIstioGateway` | internal/controller/routing/gateway_controller.go:271-298 | created if absent, replaced if it needs an update, else untouched |
| `GatewayController.DeleteIstioGateway` | internal/controller/routing/gateway_controller.go:301-319 | absent afterwards |
| `GatewayController.Reconcile` | internal/controller/routing/gateway_controller.go:75-149 | Istio Gateway and status in every branch; the status shows the address of a load balancer, hosts or not |
| `GatewayRuns.EditKeepsOtherHosts` | internal/controller/routing/gateway_controller.go:522-542 | a route edit changes the hosts of no Gateway but the two it enqueues, old and new |
| `GatewayRuns.ReconcileIndexes` | internal/controller/routing/gateway_controller.go:270-298 | a reconciled entry is what a full recomputation gives, also when the existing one is kept |
| `GatewayRuns.ReconciliationIsStep` | internal/controller/routing/gateway_controller.go:75-149 | what the method promises, refused status writes included, is a step of these runs |
| `GatewayRuns.NextKeepsInv` | internal/controller/routing/gateway_controller.go:637-669 | every step keeps each entry right that is not queued, also a reconciliation whose status was refused after the Istio Gateway was written |
| `GatewayRuns.IndexAgreesWithRecompute` | internal/controller/routing/gateway_controller.go:75-149 | over all runs, whatever the operator wrote before they started: a valid Gateway that is not queued has an Istio Gateway if and only if a route names it, with exactly the recomputed hosts |
| `GatewayRuns.RouteEditQueuesExactly` | internal/controller/routing/gateway_controller.go:522-542 | a route edit queues exactly the Gateways that the route named before or names now |
| `GatewayOutcomes.IncompleteGatewayIsLeftAlone` | internal/controller/routing/gateway_controller.go:89-93 | a Gateway without controller, credential or a postfix of the pattern is failed; Istio Gateway and shown address stay |
| `GatewayOutcomes.GatewayWithoutIdentityWaits` | internal/controller/routing/gateway_controller.go:95-108 | without an identity it is pending without an address, and its Istio Gateway stays |
| `GatewayOutcomes.UnusedGatewayIsRemoved` | internal/controller/routing/gateway_controller.go:121-132 | when no route names it its Istio Gateway goes and no other, and it is pending with its address |
| `GatewayOutcomes.UsedGatewayServes` | internal/controller/routing/gateway_controller.go:134-149 | otherwise its Istio Gateway carries both labels, selects the controller and serves the hosts, also if an existing one is kept, whoever wrote it |
| `GatewayOutcomes.AddressIsBalancers` | internal/controller/routing/ingressdns_controller.go:127-143 | the address is the first one of a load balancer with the controller's label; there is none if and only if none is found or the one found has none |
| `GatewayOutcomes.ChainEndsAtStatus` | internal/controller/routing/gateway_controller.go:117-149 | a settled route's CNAME leads in every view to the address the status of its reconciled Gateway shows, with the status saying that DNS is ready |
| `ServedHosts.IstioServesRoutes` | internal/controller/routing/gateway_controller.go:177-263 | over all runs with one identity: a Gateway without pending work has an Istio Gateway if and only if a route names it, with exactly the hosts of those routes, each once, its controller, port 443 and its credential |
| `ServedHosts.CnamesAreServed` | internal/controller/routing/serviceroute_controller.go:283-290 | over all runs of both controllers: once a route and its Gateway are not queued, the name of every CNAME of the route is among the hosts of the Istio Gateway |
| `ServedHosts.HostIsAnnounced` | internal/controller/routing/serviceroute_controller.go:327-382 | and every selected configured controller has such a CNAME |
| `ServedHosts.ServedExactly` | internal/controller/routing/serviceroute_controller.go:83-161 | that is sure if and only if the route is complete and has a policy which is inactive or selects a configured controller; otherwise it may keep the CNAME of an old host |
| `IngressDnsController.CollectConfigs` | internal/controller/routing/ingressdns_controller.go:70-83 | the configurations of the Gateways that are not being deleted |
| `IngressDnsController.CollectNamespaces` | internal/controller/routing/ingressdns_controller.go:225-234 | the namespaces of services with the label |
| `IngressDnsController.SweepItems` | internal/controller/routing/ingressdns_controller.go:243-258 | of one listing only orphans are deleted, and all of them unless a deletion is refused |
| `IngressDnsController.SweepNamespace` | internal/controller/routing/ingressdns_controller.go:236-259 | a refused listing skips the namespace |
| `IngressDnsController.CleanupOrphans` | internal/controller/routing/ingressdns_controller.go:221-262 | only orphans in scanned namespaces are deleted; without a refusal all of them, by exactly that many writes |
| `IngressDnsController.UpsertAllAppends` | internal/controller/routing/ingressdns_controller.go:152-215 | handling configurations one after the other is handling all their records in order |
| `IngressDnsController.ReconcileForConfig` | internal/controller/routing/ingressdns_controller.go:120-218 | the records of one configuration are upserted in order up to the first refusal; none while there is no address |
| `IngressDnsController.UpsertEach` | internal/controller/routing/ingressdns_controller.go:152-215 | the loop over the entries upserts the records in order up to the first refusal |
| `IngressDnsController.HandleConfig` | internal/controller/routing/ingressdns_controller.go:108-113 | one configuration is handled up to its first refusal, which is dropped |
| `IngressDnsController.UpsertRecords` | internal/controller/routing/ingressdns_controller.go:108-114 | configurations in any order: each gets its records up to its own first refusal, and each refused call cuts short one configuration only |
| `IngressDnsController.NothingCut` | internal/controller/routing/ingressdns_controller.go:108-114 | without a refusal all records of all configurations were handled |
| `IngressDnsController.Reconcile` | internal/controller/routing/ingressdns_controller.go:59-117 | the whole pass: in any case only orphans are removed and each configuration gets a prefix of its records, with the exact store and number of writes; without a refusal all orphans and all records |
| `IngressDnsController.UpsertRecord` | internal/controller/routing/ingressdns_controller.go:188-214 | one record is created if absent, corrected if its name or address differ, else left alone |
| `IngressPass.NoWritesIsQuiet` | internal/controller/routing/ingressdns_controller.go:188-214 | no write is needed if and only if no record is due |
| `IngressPass.UpsertsQuieten` | internal/controller/routing/ingressdns_controller.go:188-214 | after the upserts no record is due, if records of one name agree |
| `IngressPass.AddressTestIsExact` | internal/controller/routing/ingressdns_controller.go:199-206 | on endpoints with one address the test on first name and first target is equality of specs |
| `IngressPass.QuietIsClashFree` | internal/controller/routing/ingressdns_controller.go:152-153 | two records of one name that disagree are never both satisfied |
| `IngressPass.SameServicesFound` | internal/controller/routing/ingressdns_controller.go:265-280 | with one load balancer per controller every pass finds the same services |
| `IngressPass.PlansAgree` | internal/controller/routing/ingressdns_controller.go:108-114 | passes that found the same services differ only in the order of records |
| `IngressPass.PassIsExact` | internal/controller/routing/ingressdns_controller.go:59-117 | what is no record goes if and only if it is an orphan and is otherwise unchanged; every record is there |
| `IngressPass.CutPassKeepsOthers` | internal/controller/routing/ingressdns_controller.go:221-262 | a refused pass too touches nothing but orphans and records |
| `IngressPass.PassLeavesRecords` | internal/controller/routing/ingressdns_controller.go:152-215 | each ExternalDNS controller has its A endpoint with exactly the wanted name, address, type and lifetime |
| `IngressPass.PassLeavesNoOrphans` | internal/controller/routing/ingressdns_controller.go:221-262 | no orphan is left in the scanned namespaces |
| `IngressPass.SecondPassExactly` | internal/controller/routing/ingressdns_controller.go:59-117 | whatever services two passes find, the second writes nothing if and only if its records agree with the first one's and none of its own was due |
| `IngressPass.SecondPassIsQuiet` | internal/controller/routing/ingressdns_controller.go:59-117 | a second pass that finds the same services writes nothing if and only if no two records of one name disagree, and then changes nothing |
| `IngressOutcomes.RemovalsAreLeftOver` | internal/controller/routing/ingressdns_controller.go:243-258 | a pass, refused calls or not, removes only Gateway records in a namespace with a labelled service whose controller and postfix labels are those of no Gateway that is not being deleted |
| `IngressOutcomes.WritesAreAskedFor` | internal/controller/routing/ingressdns_controller.go:152-214 | and writes only records a Gateway not being deleted asks for, with name, labels, host, address and lifetime written out; a correction keeps owner and annotation |
| `IngressOutcomes.UnrefusedPassExactly` | internal/controller/routing/ingressdns_controller.go:59-117 | without a refusal, a record under no name asked for is left in a scanned namespace if and only if it was there and some Gateway not being deleted has its controller and postfix |
| `IngressOutcomes.LiveGatewayHasRecords` | internal/controller/routing/ingressdns_controller.go:120-215 | without a refusal, each Gateway not being deleted whose controller has one load balancer with an address gets its endpoint for each ExternalDNS controller, with host and address if records of that name agree |
| `IngressOutcomes.RouteWritesNoRecord` | internal/controller/routing/serviceroute_controller.go:343-371 | no reconciliation of a route writes a Gateway record |
| `IngressOutcomes.RoutingStepIsStep` | internal/controller/routing/serviceroute_controller.go:64-179 | so the steps of the routing runs are steps of the runs below |
| `IngressOutcomes.StepKeepsAway` | internal/controller/routing/ingressdns_controller.go:70-83 | no step writes a record with labels of no live Gateway |
| `IngressOutcomes.DeletedGatewayLeavesNothing` | internal/controller/routing/ingressdns_controller.go:72-76 | once every Gateway of a configuration is being deleted, the next unrefused pass removes its records from the scanned namespaces and nothing brings one back |
| `HostNames.HostsMeetExactly` | internal/controller/routing/serviceroute_controller.go:283-290 | in one cluster two routes have one host if and only if they have one service and their environments and applications are equal or go on into each other, or one service name goes on into the other |
| `HostNames.ServiceContinuedExactly` | internal/controller/routing/serviceroute_controller.go:283-290 | with a one-letter environment identifier the latter takes a service name that contains the separator |
| `HostNames.HyphensMayMeet` | internal/controller/routing/serviceroute_controller.go:283-290 | with hyphens two different routes may have one host |
| `HostNames.PostfixPattern` | internal/controller/routing/gateway_controller.go:168-171 | the validity test on characters is the pattern of groups joined by single hyphens |
| `HostNames.TargetsMeetExactly` | internal/controller/routing/serviceroute_controller.go:292-298 | two clusters of one domain have one target host if and only if cluster, region and postfix are equal or go on into each other |
| `HostNames.HyphenFreeTargetsDiffer` | internal/controller/routing/serviceroute_controller.go:292-298 | without hyphens in cluster names and regions, target hosts are equal if and only if cluster, region and postfix are |
| `HostNames.TargetsMayMeet` | internal/controller/routing/serviceroute_controller.go:292-298 | with hyphens two clusters of one domain may have one target host |
| `HostNames.RecordNamesMeetExactly` | internal/controller/routing/ingressdns_controller.go:152-153 | two record names are equal if and only if controller, postfix and ExternalDNS controller are, or go on into each other |
| `DnsChain.DesiredIsFaithful` | internal/controller/routing/serviceroute_controller.go:343-371 | generated endpoints carry the labels their controller has in the configuration |
| `DnsChain.RouteRunKeepsFaithful` | internal/controller/routing/serviceroute_controller.go:431-459 | reconciling a route keeps labels faithful to the configuration |
| `DnsChain.RouteRunKeepsQuiet` | internal/controller/routing/serviceroute_controller.go:396-415 | reconciling a route leaves no record due |
| `DnsChain.PassKeepsFaithful` | internal/controller/routing/ingressdns_controller.go:188-262 | a pass keeps labels faithful, keeps every route endpoint and adds none |
| `DnsChain.NotDueHolds` | internal/controller/routing/ingressdns_controller.go:199-206 | an endpoint that is not due for a record is that A record, in its controller's region |
| `DnsChain.RecordOf` | internal/controller/routing/ingressdns_controller.go:145-186 | the Gateway has its A record for every configured controller |
| `DnsChain.SettledEndpoint` | internal/controller/routing/serviceroute_controller.go:335-349 | without work left every endpoint of the route is a CNAME to the Gateway's name, in the region of an active controller |
| `DnsChain.ControllerHasEndpoint` | internal/controller/routing/serviceroute_controller.go:300-315 | without work left every active configured controller has its CNAME endpoint, in the region of the last entry of its name |
| `DnsChain.ChainHolds` | internal/controller/routing/ingressdns_controller.go:145-186 | in every regional view that holds a CNAME of the route, its target has an A record with the address in the Gateway's status |
| `DnsChain.EveryControllerReaches` | internal/controller/routing/serviceroute_controller.go:284-315 | so the route reaches that address in the view of every active controller's region |
| `DnsChain.RouteStepMeans` | internal/controller/routing/serviceroute_controller.go:276-279 | one reconciliation of a valid route under an active policy reaches the goal, or does nothing when no active controller is configured |
| `DnsChain.RouteStepSettlesExactly` | internal/controller/routing/serviceroute_controller.go:385-462 | it leaves the route no work if and only if some active controller is configured, or the route held no endpoint |
| `DnsChain.PassTakesNoName` | internal/controller/routing/ingressdns_controller.go:152-186 | a pass takes no name a route desires, if the names are disjoint |
| `DnsChain.DoneInEitherOrder` | internal/controller/routing/ingressdns_controller.go:59-117 | one reconciliation of the route and one pass, in either order, leave neither anything to do if and only if some active controller is configured, or the route held no endpoint |
| `DnsChain.ReachesInEitherOrder` | internal/controller/routing/ingressdns_controller.go:59-117 | after one of each, in either order and from any faithful store, the route reaches its load balancer in the view of every active controller's region |
| `DnsChain.SettledByRoutes` | internal/controller/routing/serviceroute_controller.go:396-407 | whether a route has work depends on route endpoints only |
| `DnsRegions.FirstRecordWins` | internal/controller/routing/ingressdns_controller.go:188-214 | in any store, of several records of one name that agree the first one is written if it is due and no other ever is |
| `DnsRegions.RecordRegion` | internal/controller/routing/ingressdns_controller.go:152-174 | after a pass with all Gateways the A record has the region of the first entry of the controller's name |
| `DnsRegions.CnameRegion` | internal/controller/routing/serviceroute_controller.go:300-313 | the CNAME of a settled route has the region of the last entry |
| `DnsRegions.RegionsAgreeExactly` | internal/controller/routing/serviceroute_controller.go:300-303 | CNAME and A record of an active controller are in the same region if and only if the first and the last entry of its name are |
| `DnsRegions.RepeatedNameBreaksTheChain` | internal/controller/routing/serviceroute_controller.go:300-303 | a configuration and a route for which, after one step of each controller from the empty store, the CNAME's own view has no A record |
| `DrainLimit.ControllerlessRouteKeepsEndpoints` | internal/controller/routing/serviceroute_controller.go:276-279 | a history in which an active policy is left without controllers, the route is reported as failed, and its endpoint stays |
| `DrainLimit.UnconfiguredRouteKeepsEndpoints` | internal/controller/routing/serviceroute_controller.go:390-415 | a history in which the selected controller is not configured any more, nothing is desired, and the endpoint stays |
| `DrainLimit.InvalidRouteIsNotDrained` | internal/controller/routing/serviceroute_controller.go:83-116 | a history from the empty store in which a route edited to be invalid is reconciled under an inactive policy and keeps its endpoint |
| `RouteQueue.DecisionKeepsOthers` | internal/controller/routing/serviceroute_controller.go:396-407 | whatever one route's reconciliation wrote, the endpoints of another are as before |
| `RouteQueue.ForeignKeepsUnqueued` | internal/controller/routing/serviceroute_controller.go:652-654 | others cannot change endpoints of a route without it being queued as their owner |
| `RouteQueue.CompletedIsIdle` | internal/controller/routing/serviceroute_controller.go:64-179 | a completed reconciliation leaves its route nothing to do |
| `RouteQueue.StepKeepsIdle` | internal/controller/routing/serviceroute_controller.go:561-668 | no edit, policy step or reconciliation gives work to a route the watches do not queue |
| `RouteQueue.UnqueuedIsFinished` | internal/controller/routing/serviceroute_controller.go:561-668 | over all runs with a fixed identity and configuration and at most one policy per namespace: from any start after a restart, reconciling a route that is not queued would change nothing, and no name it desires is taken |
| `RouteQueue.WatchesQueueExactly` | internal/controller/routing/serviceroute_controller.go:561-668 | besides those queued already, an event queues exactly the routes of the policy's namespace, the routes that name the Gateway, the edited route, or the owner of an endpoint others changed |
| `RouteAgreement.WorkerKeepsLinked` | internal/controller/routing/serviceroute_controller.go:621-643 | a changed identity queues every route, and setting or clearing the cache needs none |
| `RouteAgreement.RoutingKeepsIdle` | internal/clusteridentity/helper.go:31-57 | a reconciliation that fetched from a stale cache is queued again, by the status write that follows |
| `RouteAgreement.RoutingKeepsGone` | internal/controller/routing/serviceroute_controller.go:67-78 | a deleted route that is not queued has no endpoint |
| `RouteAgreement.RoutesAgreeWhenDrained` | internal/controller/routing/serviceroute_controller.go:621-668 | with a fixed configuration and at most one ClusterIdentity: when the identity controller is done, every route that is not queued is as the identity demands, although it may have been reconciled against a stale cache |
| `AgreementOutcomes.ActiveExactlyWhenDrained` | internal/controller/routing/dnspolicy_controller.go:137-152 | with at most one object of each kind, in a drained run a policy is active if and only if the identity object meets each constraint it has |
| `AgreementOutcomes.CnamesWhenDrained` | internal/controller/routing/serviceroute_controller.go:327-382 | with at most one identity, once its controller is done every endpoint of an unqueued route that settles is the CNAME that object demands, both hosts written out |
| `AgreementOutcomes.WorkersQueueExactly` | internal/controller/routing/dnspolicy_controller.go:234-255 | a step of a singleton worker queues every policy if and only if it changed an object, and every identity if that is a configuration |
| `RouteAgreementLimit.TwoIdentitiesStrandRoutes` | internal/controller/cluster/clusteridentity_controller.go:62-78 | beside a second ClusterIdentity a route can be left with the host of the old identity and nothing queued |
| `RouteAgreementLimit.RouteAgreementExactly` | internal/controller/routing/serviceroute_controller.go:621-668 | routes always agree if and only if at most one ClusterIdentity may exist at a time |
| `RouteAgreementLimit.ConfigurationChangeIsMissed` | internal/controller/routing/serviceroute_controller.go:652-667 | with a configuration that changes a route can lack a demanded endpoint with nothing queued, since the controller does not watch it |

## Left out

- The Kubernetes client, informers, HTTP and leader election: the store and coalescing queues stand for them. Assumed of watches: an update maps both the old and the new object, and a status write that changes nothing causes no event.
- Failed reads other than a refused listing of endpoints, wherever they occur: no Get and no other List fails in the model, and no Fetch.
- Event filtering by generation and RequeueAfter timers: the runs of the Gateway controller are about edits of specs, which change the generation.
- Route queues under a changing configuration: the results on the queue are for a fixed one, and `ConfigurationChangeIsMissed` shows why.
- Interleaving of policy, route, Gateway and IngressDNS reconciliations with other writers: each is one step, except that a route reconciliation may stop after any write. The two singleton controllers are split at their reads, cache updates and status writes.
- Lock-level concurrency of the caches: Set, Get and Clear are atomic.
- Status messages, timestamps and the internals of condition lists: kept are phase, Ready with reason and observed generation, and the load balancer address. A status write that changes only a message or AdoptedRegionsValid causes one more event, which the runs allow at any time as a resync.
- Labels and annotations as open maps: label keys are those the operator uses and one kind for all others; the one annotation kept is the ExternalDNS controller filter. A map key `namespace/name` is a pair.
- Garbage collection by owner reference, ExternalDNS, TXT records and Azure DNS: outside the operator. An Istio Gateway may disappear at any step of a Gateway run.
- TLS contents, port names, the regular expression engine (the one pattern is written out as a recursive predicate), logging, metrics, flag parsing, main, generated deep copies, Helm and kustomize files: no behaviour to prove.
- Labels after a configuration change: the code rewrites labels only with a changed spec, so convergence is on names and specs, and agreement of region labels (the DNS chain) is for a fixed configuration.
- Cleanup of A records after an ExternalDNS controller is removed from the configuration: the code has none.
- ClusterIdentityController.Reconcile: caches a record of its own, where the source shares the slice of adopted regions with the object it has just decoded; what `config` Fetch returned is a parameter.
- DnsPolicyController.Reconcile: takes what the two Fetch helpers returned as parameters and does not model a Fetch that fails.
- ServiceRouteController.Reconcile: the same.
- GatewayController.Reconcile: the same, and TLS and port are kept only as far as the update test looks at them.
- IngressDnsController.Reconcile: the same.
