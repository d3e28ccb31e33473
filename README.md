# Database-based routing for NServiceBus, modelled in Dafny

NServiceBus.DatabaseBasedRouting keeps an NServiceBus endpoint's routing
information in a database. It has three parts:

- **The subscriber table** (`UnicastSubscriberTable`) stores the last batch of
  route table entries each routing source submitted. A route table entry pairs
  a message type with a unicast route. From the batches it derives a published
  table: for each message type, the routes grouped by their endpoint name.
  Submitting a batch equal to the stored one changes nothing. Any other
  submission stores the batch and rebuilds the whole table from all batches.
- **The publish connector** (`PublishRoutingConnector`) turns the groups for an
  event type into the set of transport addresses the event goes to. A group
  without an endpoint name fans out to every address its routes resolve to. A
  named group sends to the one address the distribution policy selects among
  the resolved candidates. When no address results, the publish stops there.
  Otherwise the message intent header is set to `Publish` and one unicast
  routing strategy per address goes to the next stage.
- **The feature** (`DatabaseBasedRoutingFeature`) reads the endpoint
  configurations from the database. Each configuration is an endpoint name
  with the commands it handles and the events it subscribes to. The feature
  turns them into command entries and event entries, all routed to the
  endpoint by name, and submits them under the source key
  `"DatabaseBasedRouting"`: commands to NServiceBus's routing table, events to
  the subscriber table. A failed read leaves both tables alone. The first
  refresh at set-up passes its failure on. The periodic refresh, registered
  only for a positive interval, swallows failures and tries again on the next
  tick.

The model has four modules:

- `RoutingTypes` (`routing_types.dfy`): the value types.
- `SubscriberTable` (`unicast_subscriber_table.dfy`): the table as a class with
  its rebuild loop. The rebuild is specified by `BuildTable`, a function of the
  stored batches.
- `PublishRouting` (`publish_routing_connector.dfy`): the connector. The
  destinations are specified by `Destinations`, a function of the groups and
  the collaborators.
- `DatabaseBasedRouting` (`database_based_routing_feature.dfy`): the refresh,
  the set-up and the refresh task. The entries are specified by
  `RouteEntries`.

The sources are kept in a .NET `Dictionary`, whose enumeration order .NET
leaves undefined. The model takes that order to be insertion order and keeps
it as the field `sourceOrder`. The rebuild concatenates the batches in
that order. `TableRoutesIgnoreSourceOrder` proves that the routes of each
message type, counted with multiplicity, do not depend on that order.

## Model

| member | source | states |
|---|---|---|
| RoutingTypes.UnicastRoute.EndpointName | NServiceBus.DatabaseBasedRouting/src/NServiceBus.DatabaseRouting/UnicastSubscriberTable.cs:78 | a route has an endpoint name (the key it is grouped by) exactly when it was created from an endpoint name; instance and physical-address routes group under null |
| SubscriberTable.RoutesTo | NServiceBus.DatabaseBasedRouting/src/NServiceBus.DatabaseRouting/UnicastSubscriberTable.cs:78-79 | the routes selected for a key all carry that key, and there are no more of them than routes |
| SubscriberTable.DistinctEndpoints | NServiceBus.DatabaseBasedRouting/src/NServiceBus.DatabaseRouting/UnicastSubscriberTable.cs:78 | the keys `GroupBy` finds, in order of first occurrence; stated by `DistinctEndpointsSpec` (each key once, exactly the names that occur) and `DistinctEndpointsFirstOccurrenceOrder` |
| SubscriberTable.GroupsFor | NServiceBus.DatabaseBasedRouting/src/NServiceBus.DatabaseRouting/UnicastSubscriberTable.cs:79 | the `Select` that makes one group per key holding that key's routes; its properties are stated through `GroupByEndpointPartition` and `GroupByEndpointKeepsRoutes` |
| SubscriberTable.GroupByEndpoint | NServiceBus.DatabaseBasedRouting/src/NServiceBus.DatabaseRouting/UnicastSubscriberTable.cs:76-81 | the LINQ `GroupBy` on endpoint name; its properties are stated by `DistinctEndpointsSpec`, `DistinctEndpointsFirstOccurrenceOrder`, `GroupByEndpointPartition`, `GroupByEndpointKeepsRoutes` and `GroupByEndpointNonEmpty` |
| SubscriberTable.RoutesToEmpty | NServiceBus.DatabaseBasedRouting/src/NServiceBus.DatabaseRouting/UnicastSubscriberTable.cs:78-80 | a key selects no route exactly when no route has that endpoint name |
| SubscriberTable.RoutesToConcat | NServiceBus.DatabaseBasedRouting/src/NServiceBus.DatabaseRouting/UnicastSubscriberTable.cs:78-79 | selecting a key's routes keeps their relative order |
| SubscriberTable.DistinctEndpointsSpec | NServiceBus.DatabaseBasedRouting/src/NServiceBus.DatabaseRouting/UnicastSubscriberTable.cs:78 | group keys are pairwise distinct, and a key (null included) is present exactly when some route has it |
| SubscriberTable.DistinctEndpointsFirstOccurrenceOrder | NServiceBus.DatabaseBasedRouting/src/NServiceBus.DatabaseRouting/UnicastSubscriberTable.cs:78-80 | groups come in the order of the first route with each key, as `GroupBy` yields them |
| SubscriberTable.GroupByEndpointKeepsRoutes | NServiceBus.DatabaseBasedRouting/src/NServiceBus.DatabaseRouting/UnicastSubscriberTable.cs:76-81 | the routes of all groups together are a permutation of the input routes |
| SubscriberTable.GroupByEndpointPartition | NServiceBus.DatabaseBasedRouting/src/NServiceBus.DatabaseRouting/UnicastSubscriberTable.cs:76-81 | group keys are distinct; every group is non-empty; every route in a group has the group's key; a group holds all routes with its key in input order; a key has a group exactly when some route has it; no route is lost or duplicated |
| SubscriberTable.GroupByEndpointNonEmpty | NServiceBus.DatabaseBasedRouting/src/NServiceBus.DatabaseRouting/UnicastSubscriberTable.cs:76-81 | routes yield at least one group exactly when there is at least one route, so every bucket the rebuild groups gives a non-empty result |
| SubscriberTable.MessageTypesMember | NServiceBus.DatabaseBasedRouting/src/NServiceBus.DatabaseRouting/UnicastSubscriberTable.cs:62-71 | a message type gets a bucket exactly when it has routes, which is exactly when some entry has that type |
| SubscriberTable.RoutesOfType | NServiceBus.DatabaseBasedRouting/src/NServiceBus.DatabaseRouting/UnicastSubscriberTable.cs:64-71 | the routes the loop collects for one type, in entry order; stated by `MessageTypesMember`, `RoutesOfTypeConcat` and `BucketByMessageType` |
| SubscriberTable.MessageTypes | NServiceBus.DatabaseBasedRouting/src/NServiceBus.DatabaseRouting/UnicastSubscriberTable.cs:62-71 | the key set of the per-type dictionary the loop builds; stated by `MessageTypesMember` and `BucketByMessageType` |
| SubscriberTable.BuildTable | NServiceBus.DatabaseBasedRouting/src/NServiceBus.DatabaseRouting/UnicastSubscriberTable.cs:60-73 | the table a rebuild produces from all stored entries; its keys and routes are stated by `TableKeys`, `TableRoutes` and `TableRoutesIgnoreSourceOrder`, and `CalculateNewRouteTable` is proved to compute it |
| SubscriberTable.Lookup | NServiceBus.DatabaseBasedRouting/src/NServiceBus.DatabaseRouting/UnicastSubscriberTable.cs:18-20 | a type's groups, or none when the table has no key for it; `GetRoutesFor` states when that happens |
| SubscriberTable.FlattenMember | NServiceBus.DatabaseBasedRouting/src/NServiceBus.DatabaseRouting/UnicastSubscriberTable.cs:63 | an entry is among all sources' entries exactly when some source's batch holds it |
| SubscriberTable.Flatten | NServiceBus.DatabaseBasedRouting/src/NServiceBus.DatabaseRouting/UnicastSubscriberTable.cs:63 | the `SelectMany` over the stored batches, in enumeration order; stated by `FlattenMember` and `FlattenConcat` |
| SubscriberTable.TableKeys | NServiceBus.DatabaseBasedRouting/src/NServiceBus.DatabaseRouting/UnicastSubscriberTable.cs:60-73 | after a rebuild, a message type is a key of the table exactly when some stored entry of some source has that type |
| SubscriberTable.TableRoutes | NServiceBus.DatabaseBasedRouting/src/NServiceBus.DatabaseRouting/UnicastSubscriberTable.cs:62-73 | for each type, the routes across its groups are exactly the routes of all stored entries of that type, counted with multiplicity |
| SubscriberTable.FlattenConcat | NServiceBus.DatabaseBasedRouting/src/NServiceBus.DatabaseRouting/UnicastSubscriberTable.cs:63 | flattening concatenates the batches source by source |
| SubscriberTable.RoutesOfTypeConcat | NServiceBus.DatabaseBasedRouting/src/NServiceBus.DatabaseRouting/UnicastSubscriberTable.cs:64-71 | a type's bucket of concatenated entries is the concatenation of the buckets |
| SubscriberTable.TableRoutesIgnoreSourceOrder | NServiceBus.DatabaseBasedRouting/src/NServiceBus.DatabaseRouting/UnicastSubscriberTable.cs:63 | whatever order the source dictionary enumerates its keys in, each type gets the same routes, counted with multiplicity |
| SubscriberTable.EmptyingOnlySourceRemovesType | NServiceBus.DatabaseBasedRouting/src/NServiceBus.DatabaseRouting/UnicastSubscriberTable.cs:60-73 | replacing the only source that names a type with an empty batch leaves no groups for that type |
| SubscriberTable.BucketStep | NServiceBus.DatabaseBasedRouting/src/NServiceBus.DatabaseRouting/UnicastSubscriberTable.cs:64-71 | one iteration (create the bucket if missing, append the route) keeps every bucket equal to the routes of its type seen so far |
| SubscriberTable.BucketByMessageType | NServiceBus.DatabaseBasedRouting/src/NServiceBus.DatabaseRouting/UnicastSubscriberTable.cs:62-71 | the loop ends with one bucket per message type met, each holding that type's routes in entry order |
| SubscriberTable.GroupedBucketsAreTable | NServiceBus.DatabaseBasedRouting/src/NServiceBus.DatabaseRouting/UnicastSubscriberTable.cs:73 | grouping each complete bucket by endpoint gives the table of all entries |
| SubscriberTable.SourceOrderAfterPut | NServiceBus.DatabaseBasedRouting/src/NServiceBus.DatabaseRouting/UnicastSubscriberTable.cs:36 | storing a batch keeps the key order consistent: a replaced key keeps its place, a new key comes last |
| SubscriberTable.UnicastSubscriberTable.constructor | NServiceBus.DatabaseBasedRouting/src/NServiceBus.DatabaseRouting/UnicastSubscriberTable.cs:83-84 | a new table has no sources and an empty published table |
| SubscriberTable.UnicastSubscriberTable.GetRoutesFor | NServiceBus.DatabaseBasedRouting/src/NServiceBus.DatabaseRouting/UnicastSubscriberTable.cs:15-21 | the result is empty exactly when no stored entry names the type (an unknown type is not an error); otherwise its routes are those of the stored entries of the type |
| SubscriberTable.UnicastSubscriberTable.GetExistingRoutes | NServiceBus.DatabaseBasedRouting/src/NServiceBus.DatabaseRouting/UnicastSubscriberTable.cs:45-58 | gives the batch the source last submitted, or null when it never submitted one |
| SubscriberTable.UnicastSubscriberTable.AddOrReplaceRoutes | NServiceBus.DatabaseBasedRouting/src/NServiceBus.DatabaseRouting/UnicastSubscriberTable.cs:23-43 | the source's batch becomes `entries` and every other source's batch is unchanged; an equal batch leaves the published table alone and causes no rebuild; any other batch causes exactly one rebuild, including the first batch of a new source, even an empty one; the published table stays the rebuild of the stored batches |
| SubscriberTable.UnicastSubscriberTable.CalculateNewRouteTable | NServiceBus.DatabaseBasedRouting/src/NServiceBus.DatabaseRouting/UnicastSubscriberTable.cs:60-74 | the new table is determined by the stored batches alone, not by the previous table |
| PublishRouting.TranslateAll | src/NServiceBus.DatabaseRouting/PublishRoutingConnector.cs:97-100 | one translated address per instance, in lookup order |
| PublishRouting.ResolveRoute | src/NServiceBus.DatabaseRouting/PublishRoutingConnector.cs:85-102 | an instance route yields exactly its translated address; a physical-address route yields exactly that address; an endpoint-name route yields as many addresses as the lookup finds instances |
| PublishRouting.ResolveEndpointRoute | src/NServiceBus.DatabaseRouting/PublishRoutingConnector.cs:95-101 | the i-th address of an endpoint-name route is the translation of the i-th instance found |
| PublishRouting.AddressesOf | src/NServiceBus.DatabaseRouting/PublishRoutingConnector.cs:58 | a set collects no more addresses than were added |
| PublishRouting.AddressesOfMember | src/NServiceBus.DatabaseRouting/PublishRoutingConnector.cs:65-70 | the set holds exactly the addresses added |
| PublishRouting.Candidates | src/NServiceBus.DatabaseRouting/PublishRoutingConnector.cs:75 | the resolved addresses of a group's routes, route after route; membership is stated by `CandidatesMember` |
| PublishRouting.Contribution | src/NServiceBus.DatabaseRouting/PublishRoutingConnector.cs:62-79 | what one group adds: all its candidates when unnamed, the policy's choice when named; stated by `UnnamedGroupFansOut` and `NamedGroupSendsToSelection` |
| PublishRouting.Destinations | src/NServiceBus.DatabaseRouting/PublishRoutingConnector.cs:55-83 | the destinations of all groups; stated by `DestinationsMember`, `NoDestinations`, `DestinationsBounded` and `DestinationsAreCandidates`, and `SelectDestinationsForEachEndpoint` is proved to compute it |
| PublishRouting.CandidatesMember | src/NServiceBus.DatabaseRouting/PublishRoutingConnector.cs:75 | an address is a candidate exactly when one of the group's routes resolves to it |
| PublishRouting.DestinationsMember | src/NServiceBus.DatabaseRouting/PublishRoutingConnector.cs:60-82 | an address is a destination exactly when some group contributes it |
| PublishRouting.DestinationsAreCandidates | src/NServiceBus.DatabaseRouting/PublishRoutingConnector.cs:60-82 | when the policy picks one of the candidates, every destination is an address some route resolves to |
| PublishRouting.UnnamedGroupFansOut | src/NServiceBus.DatabaseRouting/PublishRoutingConnector.cs:62-71 | a group without an endpoint name sends to every address of every one of its routes |
| PublishRouting.NamedGroupSendsToSelection | src/NServiceBus.DatabaseRouting/PublishRoutingConnector.cs:73-79 | a named group sends to the policy's choice for its name and candidates, even when there are no candidates |
| PublishRouting.DestinationsBounded | src/NServiceBus.DatabaseRouting/PublishRoutingConnector.cs:55-83 | each address counts once: there are at most as many destinations as candidates of unnamed groups plus named groups |
| PublishRouting.NoDestinations | src/NServiceBus.DatabaseRouting/PublishRoutingConnector.cs:60-82 | there is no destination exactly when every group is unnamed and none of its routes resolves to an address |
| PublishRouting.Strategies | src/NServiceBus.DatabaseRouting/PublishRoutingConnector.cs:52 | there is a strategy for each destination and a destination for each strategy |
| PublishRouting.StrategiesCount | src/NServiceBus.DatabaseRouting/PublishRoutingConnector.cs:52 | there are as many strategies as destinations |
| PublishRouting.OutgoingPublishContext.constructor | src/NServiceBus.DatabaseRouting/PublishRoutingConnector.cs:26-36 | the publish context carries the event's message type and the headers `Invoke` may set; a new context keeps both as given |
| PublishRouting.PublishRoutingConnector.constructor | src/NServiceBus.DatabaseRouting/PublishRoutingConnector.cs:18-24 | the connector keeps the subscriber table and the lookups it is given |
| PublishRouting.PublishRoutingConnector.AddEveryCandidate | src/NServiceBus.DatabaseRouting/PublishRoutingConnector.cs:65-71 | the two nested loops add exactly the resolved addresses of the group's routes |
| PublishRouting.PublishRoutingConnector.SelectDestinationsForEachEndpoint | src/NServiceBus.DatabaseRouting/PublishRoutingConnector.cs:55-83 | the loop computes exactly the destinations of the groups |
| PublishRouting.PublishRoutingConnector.Route | src/NServiceBus.DatabaseRouting/PublishRoutingConnector.cs:48-53 | one strategy per destination of the event type's groups; no strategies for a type no stored entry names |
| PublishRouting.PublishRoutingConnector.Invoke | src/NServiceBus.DatabaseRouting/PublishRoutingConnector.cs:26-46 | with no destination, nothing goes on and the headers are untouched; otherwise the intent header becomes `Publish` and the strategies go on, one per destination |
| DatabaseBasedRouting.EntriesFor | src/NServiceBus.DatabaseRouting/DatabaseBasedRoutingFeature.cs:84-91 | one entry per message type |
| DatabaseBasedRouting.EntriesForAt | src/NServiceBus.DatabaseRouting/DatabaseBasedRoutingFeature.cs:84-91 | the j-th entry pairs the j-th type with the endpoint's route |
| DatabaseBasedRouting.RouteEntries | src/NServiceBus.DatabaseRouting/DatabaseBasedRoutingFeature.cs:78-101 | there are as many entries as (endpoint, type) pairs |
| DatabaseBasedRouting.RouteEntriesConcat | src/NServiceBus.DatabaseRouting/DatabaseBasedRoutingFeature.cs:81-101 | the entries come endpoint after endpoint: those of later endpoints follow those of earlier ones |
| DatabaseBasedRouting.RouteEntriesMember | src/NServiceBus.DatabaseRouting/DatabaseBasedRoutingFeature.cs:81-101 | an entry is produced exactly when it pairs a type of some endpoint with a route to that endpoint's name |
| DatabaseBasedRouting.RouteEntriesRouteByName | src/NServiceBus.DatabaseRouting/DatabaseBasedRoutingFeature.cs:83-99 | every produced route is an endpoint-name route |
| DatabaseBasedRouting.UnicastRoutingTable.AddOrReplaceRoutes | src/NServiceBus.DatabaseRouting/DatabaseBasedRoutingFeature.cs:103 | the routing table's batch for the source becomes the command entries; other sources keep theirs |
| DatabaseBasedRouting.AppendEntries | src/NServiceBus.DatabaseRouting/DatabaseBasedRoutingFeature.cs:84-91 | the inner loop appends one entry per type, in type order |
| DatabaseBasedRouting.BuildRouteEntries | src/NServiceBus.DatabaseRouting/DatabaseBasedRoutingFeature.cs:78-101 | the loops build exactly the command entries and the event entries; the native-routing flags do not change them |
| DatabaseBasedRouting.UpdateRoutingTable | src/NServiceBus.DatabaseRouting/DatabaseBasedRoutingFeature.cs:72-113 | a failed read leaves both tables entirely unchanged (no rebuild, same source order) and passes the failure on; a successful read replaces this feature's batch with the command entries in the routing table and with the event entries in the subscriber table, under `"DatabaseBasedRouting"`, keeping the subscriber table's source order and its skip rule: an event batch equal to the stored one causes no rebuild and leaves the published table alone, any other causes exactly one rebuild |
| DatabaseBasedRouting.UpdateRoutingTask.constructor | src/NServiceBus.DatabaseRouting/DatabaseBasedRoutingFeature.cs:121-125 | the task keeps the refresh and the interval, with no timer yet |
| DatabaseBasedRouting.UpdateRoutingTask.OnStart | src/NServiceBus.DatabaseRouting/DatabaseBasedRoutingFeature.cs:127-142 | starting creates the timer |
| DatabaseBasedRouting.UpdateRoutingTask.Tick | src/NServiceBus.DatabaseRouting/DatabaseBasedRoutingFeature.cs:129-138 | a tick has exactly the table effects of `UpdateRoutingTable`, including the skip of an unchanged event batch, but swallows a failure, leaving both tables unchanged; the timer keeps running, so the next tick tries again |
| DatabaseBasedRouting.UpdateRoutingTask.OnStop | src/NServiceBus.DatabaseRouting/DatabaseBasedRoutingFeature.cs:144-150 | stopping drops the timer |
| DatabaseBasedRouting.UpdateRoutingTask.Dispose | src/NServiceBus.DatabaseRouting/DatabaseBasedRoutingFeature.cs:152-156 | disposing drops the timer |
| DatabaseBasedRouting.Setup | src/NServiceBus.DatabaseRouting/DatabaseBasedRoutingFeature.cs:31-70 | both native-routing flags come from the transport's outbound routing policy; the first refresh's failure stops set-up with no task, no connector and both tables unchanged; after a success the tables change as in `UpdateRoutingTable`, a refresh task with the same tables and flags exists exactly when the interval is positive, and a publish connector over the subscriber table exists exactly when the transport publishes by unicast |
| DatabaseBasedRouting.GroupsOfEndpointRoutesAreNamed | NServiceBus.DatabaseBasedRouting/src/NServiceBus.DatabaseRouting/UnicastSubscriberTable.cs:76-81 | routes that all name an endpoint are grouped under named keys only |
| DatabaseBasedRouting.RoutesOfEndpointEntries | NServiceBus.DatabaseBasedRouting/src/NServiceBus.DatabaseRouting/UnicastSubscriberTable.cs:64-71 | bucketing entries that all route by name yields only endpoint-name routes |
| DatabaseBasedRouting.FlattenOfEndpointBatches | NServiceBus.DatabaseBasedRouting/src/NServiceBus.DatabaseRouting/UnicastSubscriberTable.cs:63 | flattening batches that route by name only yields name routes only |
| DatabaseBasedRouting.NoUnnamedGroups | src/NServiceBus.DatabaseRouting/DatabaseBasedRoutingFeature.cs:93-100 | a subscriber table that holds only endpoint-name routes, which is all this feature submits, never returns a group without an endpoint name |
| DatabaseBasedRouting.NamedGroupsBound | src/NServiceBus.DatabaseRouting/PublishRoutingConnector.cs:73-79 | with named groups only, the destination bound is the number of groups |
| DatabaseBasedRouting.NamedGroupsOnlyUsePolicy | src/NServiceBus.DatabaseRouting/PublishRoutingConnector.cs:60-82 | with named groups only, the destinations are exactly the policy's choices, at most one per group |
| DatabaseBasedRouting.FeatureFedTableUsesPolicyOnly | src/NServiceBus.DatabaseRouting/DatabaseBasedRoutingFeature.cs:99-104 | when this feature is the table's only source, publishing any event goes through the distribution policy only, with at most one address per group |

## Left out

- Concurrency is not modelled. This covers the reader-writer lock, the `volatile` swap of the published table and the timer's thread. The model is sequential: the swap is one field assignment, and each timer callback is an explicit `Tick` call. The race between the unlocked compare and the write lock in `AddOrReplaceRoutes` is therefore not analysed.
- Logging is not modelled: the warnings for native routing, the debug message after a refresh, and the error message before the rethrow.
- `DatabaseReader.cs` is not part of this model. Its SQL calls and type lookup by name are replaced by an input, which is either the endpoint configurations it returned or the failure it raised.
- `DatabaseBasedRoutingConfigExtensions.cs`, `DatabaseBasedRoutingOptions.cs` and the defaults the feature's constructor registers (`DatabaseBasedRoutingFeature.cs:20-29`) are not part of this model. Settings arrive as plain parameters of `Setup`.
- `SubscribeTerminator.cs` and `UnsubscribeTerminator.cs` are not part of this model. `Setup` does not model the pipeline replacements, including the one guarded by the message-driven-subscriptions flag. `Setup` returns the connector it would register.
- `Invoke` does not call the next stage. It returns the strategies it would pass on. The translation of a queue-not-found failure into another exception is not modelled.
- The NServiceBus collaborators are functions:
  - The endpoint-instance lookup and the translation to a transport address are fixed functions (`Collaborators`).
  - The distribution policy is a function given per publish (`Selection`). A stateful policy such as round robin is therefore covered one publish at a time.
  - The policy receives the endpoint name and the candidates. The rest of the distribution context (message, message id, headers, extensions) is folded into the function itself.
- The publish scope passed to the policy is implicit in `Selection`.
- NServiceBus's `UnicastRoutingTable` is modelled only as far as this feature uses it: a map from source key to the last batch submitted. How it routes sends is not modelled.
- Route table entries and routes are compared by value; the model inherits this from Dafny datatypes. The equality NServiceBus's `RouteTableEntry` really uses is not modelled.
- Null batches, null entries and null route parts do not exist in the model.
- A route has exactly one of its three shapes, so the source's precedence of an instance over a physical address holds by construction.
- PublishRouting.ResolveRoute: its endpoint-name case states only the count; the element-wise statement is the lemma `ResolveEndpointRoute`.
- The connector asks the policy even when a named group has no candidates (`PublishRoutingConnector.cs:73-79`), and the model follows the code (`NamedGroupSendsToSelection`).
- A policy is expected to return one of its candidates. Nothing in the connector checks this, so the model does not assume it. `DestinationsAreCandidates` states what follows when the policy does.
- The order in which the source dictionary enumerates keys is taken to be insertion order. Only the per-type route multiset is proved independent of it.
- `UpdateRoutingTask.OnStart` creates a timer even if one already exists. The model records only that a timer is running.
- The timer interval is a number of ticks. The timer's due time and period are not modelled beyond the positive-interval check in `Setup`.
