/**
 * The database-based routing feature: reads the endpoint configurations
 * stored in the routing database, turns them into command and event route
 * entries, pushes those into NServiceBus's routing table and into the
 * subscriber table under one fixed source key, and keeps doing so
 * periodically.
 *
 * Reading the database is an input: the endpoint configurations it returned,
 * or the failure it raised.
 */
module DatabaseBasedRouting {
  import opened RoutingTypes
  import opened SubscriberTable
  import opened PublishRouting

  /** The source key under which this feature submits its routes to both tables. */
  const SourceKey: string := "DatabaseBasedRouting"

  /** Which list of message types of an endpoint configuration is meant. */
  datatype RouteKind = Commands | Events

  function TypesOf(endpoint: EndpointRoutingConfiguration, kind: RouteKind): seq<MessageType>
  {
    match kind
    case Commands => endpoint.commands
    case Events => endpoint.events
  }

  /** Every entry routes to a logical endpoint by name. */
  ghost predicate EndpointRoutesOnly(entries: seq<RouteTableEntry>)
  {
    forall e | e in entries :: e.route.Endpoint?
  }

  // ---------------------------------------------------------------------
  // The entries the database yields
  // ---------------------------------------------------------------------

  /** One entry per message type, all along the same route, in type order. */
  function EntriesFor(route: UnicastRoute, types: seq<MessageType>): (entries: seq<RouteTableEntry>)
    ensures |entries| == |types|
  {
    if types == [] then []
    else EntriesFor(route, types[..|types| - 1]) + [RouteTableEntry(types[|types| - 1], route)]
  }

  /** The `j`-th entry pairs the `j`-th type with the route. */
  lemma {:induction false} EntriesForAt(route: UnicastRoute, types: seq<MessageType>, j: nat)
    requires j < |types|
    ensures EntriesFor(route, types)[j] == RouteTableEntry(types[j], route)
  {
    var n := |types| - 1;
    if j < n {
      EntriesForAt(route, types[..n], j);
    }
  }

  /** The number of message types of one kind across all endpoints. */
  function TypeCount(endpoints: seq<EndpointRoutingConfiguration>, kind: RouteKind): nat
  {
    if endpoints == [] then 0
    else TypeCount(endpoints[..|endpoints| - 1], kind) + |TypesOf(endpoints[|endpoints| - 1], kind)|
  }

  /**
   * The entries of one kind: endpoint after endpoint, each endpoint's types
   * in order, each routed to that endpoint's logical name.
   */
  function RouteEntries(endpoints: seq<EndpointRoutingConfiguration>, kind: RouteKind): (entries: seq<RouteTableEntry>)
    ensures |entries| == TypeCount(endpoints, kind)
  {
    if endpoints == [] then []
    else
      var last := endpoints[|endpoints| - 1];
      RouteEntries(endpoints[..|endpoints| - 1], kind) + EntriesFor(Endpoint(last.logicalEndpointName), TypesOf(last, kind))
  }

  lemma EntriesForSnoc(route: UnicastRoute, types: seq<MessageType>, j: nat)
    requires j < |types|
    ensures EntriesFor(route, types[..j + 1]) == EntriesFor(route, types[..j]) + [RouteTableEntry(types[j], route)]
  {
    assert types[..j + 1][..j] == types[..j];
  }

  lemma RouteEntriesSnoc(endpoints: seq<EndpointRoutingConfiguration>, i: nat, kind: RouteKind)
    requires i < |endpoints|
    ensures RouteEntries(endpoints[..i + 1], kind)
         == RouteEntries(endpoints[..i], kind) + EntriesFor(Endpoint(endpoints[i].logicalEndpointName), TypesOf(endpoints[i], kind))
  {
    assert endpoints[..i + 1][..i] == endpoints[..i];
  }

  /** The entries of more endpoints follow the entries of the earlier ones. */
  lemma {:induction false} RouteEntriesConcat(e1: seq<EndpointRoutingConfiguration>, e2: seq<EndpointRoutingConfiguration>, kind: RouteKind)
    ensures RouteEntries(e1 + e2, kind) == RouteEntries(e1, kind) + RouteEntries(e2, kind)
  {
    if e2 == [] {
      assert e1 + e2 == e1;
    } else {
      var n := |e2| - 1;
      var front, back := RouteEntries(e1, kind), RouteEntries(e2[..n], kind);
      var last := EntriesFor(Endpoint(e2[n].logicalEndpointName), TypesOf(e2[n], kind));
      DropLastOfConcat(e1, e2);
      assert RouteEntries(e1 + e2, kind) == RouteEntries(e1 + e2[..n], kind) + last;
      RouteEntriesConcat(e1, e2[..n], kind);
      ConcatAssociates(front, back, last);
    }
  }

  /** Dropping the last element of a concatenation drops it from the second part. */
  lemma DropLastOfConcat<T>(x: seq<T>, y: seq<T>)
    requires y != []
    ensures (x + y)[..|x + y| - 1] == x + y[..|y| - 1]
    ensures (x + y)[|x + y| - 1] == y[|y| - 1]
  {
  }

  /**
   * Concatenation regroups. Stated apart so that the step is proved outside
   * the large context of the calculation that needs it.
   */
  lemma ConcatAssociates<T>(x: seq<T>, y: seq<T>, z: seq<T>)
    ensures (x + y) + z == x + (y + z)
  {
  }

  /** An entry is produced exactly when it pairs a type of some endpoint with that endpoint's route. */
  lemma {:induction false} RouteEntriesMember(endpoints: seq<EndpointRoutingConfiguration>, kind: RouteKind, e: RouteTableEntry)
    ensures e in RouteEntries(endpoints, kind) <==>
            exists i, j | 0 <= i < |endpoints| && 0 <= j < |TypesOf(endpoints[i], kind)| ::
              e == RouteTableEntry(TypesOf(endpoints[i], kind)[j], Endpoint(endpoints[i].logicalEndpointName))
  {
    if endpoints != [] {
      var n := |endpoints| - 1;
      var earlier := RouteEntries(endpoints[..n], kind);
      var last := EntriesFor(Endpoint(endpoints[n].logicalEndpointName), TypesOf(endpoints[n], kind));
      RouteEntriesMember(endpoints[..n], kind, e);
      assert RouteEntries(endpoints, kind) == earlier + last;
      if e in earlier {
        var i, j :| 0 <= i < n && 0 <= j < |TypesOf(endpoints[..n][i], kind)|
                    && e == RouteTableEntry(TypesOf(endpoints[..n][i], kind)[j], Endpoint(endpoints[..n][i].logicalEndpointName));
        assert endpoints[..n][i] == endpoints[i];
      } else if e in last {
        var j :| 0 <= j < |last| && last[j] == e;
        EntriesForAt(Endpoint(endpoints[n].logicalEndpointName), TypesOf(endpoints[n], kind), j);
      } else {
        forall i, j | 0 <= i < |endpoints| && 0 <= j < |TypesOf(endpoints[i], kind)|
          ensures e != RouteTableEntry(TypesOf(endpoints[i], kind)[j], Endpoint(endpoints[i].logicalEndpointName))
        {
          if i < n {
            assert endpoints[..n][i] == endpoints[i];
          } else {
            EntriesForAt(Endpoint(endpoints[i].logicalEndpointName), TypesOf(endpoints[i], kind), j);
          }
        }
      }
    }
  }

  /** Every entry routes to the logical endpoint it was read for, by name. */
  lemma RouteEntriesRouteByName(endpoints: seq<EndpointRoutingConfiguration>, kind: RouteKind)
    ensures EndpointRoutesOnly(RouteEntries(endpoints, kind))
  {
    forall e | e in RouteEntries(endpoints, kind)
      ensures e.route.Endpoint?
    {
      RouteEntriesMember(endpoints, kind, e);
    }
  }

  // ---------------------------------------------------------------------
  // Where the entries go
  // ---------------------------------------------------------------------

  /** NServiceBus's routing table for commands, as far as this feature uses it: the last batch each source submitted. */
  class UnicastRoutingTable {
    var routes: map<string, seq<RouteTableEntry>>

    constructor ()
      ensures routes == map[]
    {
      routes := map[];
    }

    method AddOrReplaceRoutes(sourceKey: string, entries: seq<RouteTableEntry>)
      modifies this
      ensures routes == old(routes)[sourceKey := entries]
    {
      routes := routes[sourceKey := entries];
    }
  }

  /** Appends one entry per message type, all along `route`, in type order (one inner `foreach`). */
  method AppendEntries(entries: seq<RouteTableEntry>, route: UnicastRoute, types: seq<MessageType>)
    returns (result: seq<RouteTableEntry>)
    ensures result == entries + EntriesFor(route, types)
  {
    result := entries;
    var j := 0;
    while j < |types|
      invariant 0 <= j <= |types|
      invariant result == entries + EntriesFor(route, types[..j])
    {
      EntriesForSnoc(route, types, j);
      result := result + [RouteTableEntry(types[j], route)];
      j := j + 1;
    }
    assert types[..j] == types;
  }

  /**
   * Walks the endpoints and their command and event types, building one
   * command list and one event list. The native-routing flags only cause a
   * warning to be logged: the entries are the same either way.
   */
  method BuildRouteEntries(endpoints: seq<EndpointRoutingConfiguration>, nativeSends: bool, nativePublishes: bool)
    returns (commandRoutes: seq<RouteTableEntry>, eventRoutes: seq<RouteTableEntry>)
    ensures commandRoutes == RouteEntries(endpoints, Commands)
    ensures eventRoutes == RouteEntries(endpoints, Events)
  {
    commandRoutes, eventRoutes := [], [];
    var i := 0;
    while i < |endpoints|
      invariant 0 <= i <= |endpoints|
      invariant commandRoutes == RouteEntries(endpoints[..i], Commands)
      invariant eventRoutes == RouteEntries(endpoints[..i], Events)
    {
      var endpoint := endpoints[i];
      var route := Endpoint(endpoint.logicalEndpointName);
      RouteEntriesSnoc(endpoints, i, Commands);
      RouteEntriesSnoc(endpoints, i, Events);
      commandRoutes := AppendEntries(commandRoutes, route, endpoint.commands);
      eventRoutes := AppendEntries(eventRoutes, route, endpoint.events);
      i := i + 1;
    }
    assert endpoints[..i] == endpoints;
  }

  /**
   * One refresh. When reading the database fails, neither table is touched
   * and the failure is passed on; otherwise the command entries replace this
   * source's batch in the routing table and the event entries replace it in
   * the subscriber table.
   */
  method UpdateRoutingTable(fetched: Result<seq<EndpointRoutingConfiguration>, string>,
                            routingTable: UnicastRoutingTable, subscriberTable: UnicastSubscriberTable,
                            nativeSends: bool, nativePublishes: bool)
    returns (outcome: Outcome<string>)
    requires subscriberTable.Valid()
    modifies routingTable, subscriberTable
    ensures subscriberTable.Valid()
    ensures outcome == (if fetched.Failure? then Fail(fetched.error) else Pass)
    ensures fetched.Failure? ==> unchanged(routingTable) && unchanged(subscriberTable)
    ensures fetched.Success? ==>
              && routingTable.routes == old(routingTable.routes)[SourceKey := RouteEntries(fetched.value, Commands)]
              && subscriberTable.routeGroups == old(subscriberTable.routeGroups)[SourceKey := RouteEntries(fetched.value, Events)]
              && subscriberTable.sourceOrder == (if SourceKey in old(subscriberTable.routeGroups) then old(subscriberTable.sourceOrder)
                                                 else old(subscriberTable.sourceOrder) + [SourceKey])
    ensures fetched.Success? && old(subscriberTable.GetExistingRoutes(SourceKey)) == Some(RouteEntries(fetched.value, Events)) ==>
              subscriberTable.routeTable == old(subscriberTable.routeTable) && subscriberTable.Rebuilds == old(subscriberTable.Rebuilds)
    ensures fetched.Success? && old(subscriberTable.GetExistingRoutes(SourceKey)) != Some(RouteEntries(fetched.value, Events)) ==>
              subscriberTable.Rebuilds == old(subscriberTable.Rebuilds) + 1
  {
    if fetched.Failure? {
      return Fail(fetched.error);
    }
    var endpoints := fetched.value;
    var commandRoutes, eventRoutes := BuildRouteEntries(endpoints, nativeSends, nativePublishes);
    routingTable.AddOrReplaceRoutes(SourceKey, commandRoutes);
    subscriberTable.AddOrReplaceRoutes(SourceKey, eventRoutes);
    outcome := Pass;
  }

  // ---------------------------------------------------------------------
  // Start-up and the periodic refresh
  // ---------------------------------------------------------------------

  /** The start-up task that refreshes the tables on a timer. */
  class UpdateRoutingTask {
    /** The tables and flags the refresh callback was created with. */
    const routingTable: UnicastRoutingTable
    const subscriberTable: UnicastSubscriberTable
    const nativeSends: bool
    const nativePublishes: bool
    /** The refresh period, in ticks. */
    const interval: int
    /** Whether the timer exists (it is created by `OnStart` and dropped by `OnStop` and `Dispose`). */
    var timerRunning: bool

    constructor (routingTable: UnicastRoutingTable, subscriberTable: UnicastSubscriberTable,
                 nativeSends: bool, nativePublishes: bool, interval: int)
      ensures this.routingTable == routingTable && this.subscriberTable == subscriberTable
      ensures this.nativeSends == nativeSends && this.nativePublishes == nativePublishes
      ensures this.interval == interval && !timerRunning
    {
      this.routingTable := routingTable;
      this.subscriberTable := subscriberTable;
      this.nativeSends := nativeSends;
      this.nativePublishes := nativePublishes;
      this.interval := interval;
      timerRunning := false;
    }

    method OnStart()
      modifies this
      ensures timerRunning
    {
      timerRunning := true;
    }

    /**
     * One timer callback: refreshes the tables and swallows a failure, so
     * that the timer keeps running and the next tick tries again.
     */
    method Tick(fetched: Result<seq<EndpointRoutingConfiguration>, string>)
      requires timerRunning && subscriberTable.Valid()
      modifies routingTable, subscriberTable
      ensures timerRunning && subscriberTable.Valid()
      ensures fetched.Failure? ==> unchanged(routingTable) && unchanged(subscriberTable)
      ensures fetched.Success? ==>
                && routingTable.routes == old(routingTable.routes)[SourceKey := RouteEntries(fetched.value, Commands)]
                && subscriberTable.routeGroups == old(subscriberTable.routeGroups)[SourceKey := RouteEntries(fetched.value, Events)]
                && subscriberTable.sourceOrder == (if SourceKey in old(subscriberTable.routeGroups) then old(subscriberTable.sourceOrder)
                                                   else old(subscriberTable.sourceOrder) + [SourceKey])
      ensures fetched.Success? && old(subscriberTable.GetExistingRoutes(SourceKey)) == Some(RouteEntries(fetched.value, Events)) ==>
                subscriberTable.routeTable == old(subscriberTable.routeTable) && subscriberTable.Rebuilds == old(subscriberTable.Rebuilds)
      ensures fetched.Success? && old(subscriberTable.GetExistingRoutes(SourceKey)) != Some(RouteEntries(fetched.value, Events)) ==>
                subscriberTable.Rebuilds == old(subscriberTable.Rebuilds) + 1
    {
      var _ := UpdateRoutingTable(fetched, routingTable, subscriberTable, nativeSends, nativePublishes);
    }

    method OnStop()
      modifies this
      ensures !timerRunning
    {
      timerRunning := false;
    }

    method Dispose()
      modifies this
      ensures !timerRunning
    {
      timerRunning := false;
    }
  }

  /** How the transport routes outgoing messages of one kind. */
  datatype OutboundRoutingType = Unicast | Multicast

  /**
   * Feature set-up. Both native-routing flags come from the transport's
   * outbound routing policy. The first refresh runs immediately and its
   * failure stops the set-up; after it succeeds, a periodic refresh task is
   * created only for a positive interval, and the publish connector is
   * created only when the transport publishes by unicast.
   */
  method Setup(fetched: Result<seq<EndpointRoutingConfiguration>, string>, interval: int,
               routingTable: UnicastRoutingTable, subscriberTable: UnicastSubscriberTable,
               sends: OutboundRoutingType, publishes: OutboundRoutingType, lookup: Collaborators)
    returns (outcome: Outcome<string>, task: Option<UpdateRoutingTask>, connector: Option<PublishRoutingConnector>)
    requires subscriberTable.Valid()
    modifies routingTable, subscriberTable
    ensures subscriberTable.Valid()
    ensures outcome == (if fetched.Failure? then Fail(fetched.error) else Pass)
    ensures outcome.Fail? ==> task.None? && connector.None? && unchanged(routingTable) && unchanged(subscriberTable)
    ensures outcome.Pass? ==>
              && (task.Some? <==> interval > 0)
              && (task.Some? ==> && task.value.routingTable == routingTable && task.value.subscriberTable == subscriberTable
                                 && task.value.nativeSends == (sends == Multicast)
                                 && task.value.nativePublishes == (publishes == Multicast)
                                 && task.value.interval == interval && !task.value.timerRunning)
              && (connector.Some? <==> publishes == Unicast)
              && (connector.Some? ==> connector.value.routingTable == subscriberTable && connector.value.lookup == lookup)
    ensures fetched.Success? ==>
              && routingTable.routes == old(routingTable.routes)[SourceKey := RouteEntries(fetched.value, Commands)]
              && subscriberTable.routeGroups == old(subscriberTable.routeGroups)[SourceKey := RouteEntries(fetched.value, Events)]
              && subscriberTable.sourceOrder == (if SourceKey in old(subscriberTable.routeGroups) then old(subscriberTable.sourceOrder)
                                                 else old(subscriberTable.sourceOrder) + [SourceKey])
    ensures fetched.Success? && old(subscriberTable.GetExistingRoutes(SourceKey)) == Some(RouteEntries(fetched.value, Events)) ==>
              subscriberTable.routeTable == old(subscriberTable.routeTable) && subscriberTable.Rebuilds == old(subscriberTable.Rebuilds)
    ensures fetched.Success? && old(subscriberTable.GetExistingRoutes(SourceKey)) != Some(RouteEntries(fetched.value, Events)) ==>
              subscriberTable.Rebuilds == old(subscriberTable.Rebuilds) + 1
  {
    task, connector := None, None;
    var nativeSends := sends == Multicast;
    var nativePublishes := publishes == Multicast;
    outcome := UpdateRoutingTable(fetched, routingTable, subscriberTable, nativeSends, nativePublishes);
    if outcome.Fail? {
      return;
    }
    if interval > 0 {
      var t := new UpdateRoutingTask(routingTable, subscriberTable, nativeSends, nativePublishes, interval);
      task := Some(t);
    }
    if publishes == Unicast {
      var c := new PublishRoutingConnector(subscriberTable, lookup);
      connector := Some(c);
    }
  }

  // ---------------------------------------------------------------------
  // Publishing from a table this feature fills
  // ---------------------------------------------------------------------

  /** Every batch stored in the subscriber table routes by endpoint name only. */
  ghost predicate EndpointRoutesStored(batches: map<string, seq<RouteTableEntry>>)
  {
    forall k | k in batches :: EndpointRoutesOnly(batches[k])
  }

  /** Routes that all name an endpoint are grouped under named keys only. */
  lemma GroupsOfEndpointRoutesAreNamed(routes: seq<UnicastRoute>)
    requires forall r | r in routes :: r.Endpoint?
    ensures forall g | g in GroupByEndpoint(routes) :: g.endpointName.Some?
  {
    GroupByEndpointPartition(routes);
    var groups := GroupByEndpoint(routes);
    forall g | g in groups
      ensures g.endpointName.Some?
    {
      var i :| 0 <= i < |groups| && groups[i] == g;
      assert Mentions(routes, g.endpointName);
      var p :| 0 <= p < |routes| && routes[p].EndpointName() == g.endpointName;
      assert routes[p] in routes;
    }
  }

  /** The routes of a type, taken from entries that all route by endpoint name, all name an endpoint. */
  lemma {:induction false} RoutesOfEndpointEntries(entries: seq<RouteTableEntry>, t: MessageType)
    requires EndpointRoutesOnly(entries)
    ensures forall r | r in RoutesOfType(entries, t) :: r.Endpoint?
  {
    if entries != [] {
      var n := |entries| - 1;
      assert entries[..n] + [entries[n]] == entries;
      assert entries[n] in entries;
      assert EndpointRoutesOnly(entries[..n]) by {
        forall e | e in entries[..n]
          ensures e.route.Endpoint?
        {
          assert e in entries;
        }
      }
      RoutesOfEndpointEntries(entries[..n], t);
    }
  }

  /** Flattening batches that route by endpoint name only keeps that property. */
  lemma FlattenOfEndpointBatches(order: seq<string>, batches: map<string, seq<RouteTableEntry>>)
    requires forall k | k in order :: k in batches
    requires EndpointRoutesStored(batches)
    ensures EndpointRoutesOnly(Flatten(order, batches))
  {
    forall e | e in Flatten(order, batches)
      ensures e.route.Endpoint?
    {
      FlattenMember(order, batches, e);
      var j :| 0 <= j < |order| && e in batches[order[j]];
      assert EndpointRoutesOnly(batches[order[j]]);
    }
  }

  /**
   * A subscriber table holding only endpoint-name routes (which is all this
   * feature ever submits) never returns a group without an endpoint name.
   */
  lemma NoUnnamedGroups(table: UnicastSubscriberTable, t: MessageType)
    requires table.Valid() && EndpointRoutesStored(table.routeGroups)
    ensures forall g | g in table.GetRoutesFor(t) :: g.endpointName.Some?
  {
    var flat := Flatten(table.sourceOrder, table.routeGroups);
    FlattenOfEndpointBatches(table.sourceOrder, table.routeGroups);
    RoutesOfEndpointEntries(flat, t);
    GroupsOfEndpointRoutesAreNamed(RoutesOfType(flat, t));
  }

  /** With named groups only, the bound on destinations is the number of groups. */
  lemma {:induction false} NamedGroupsBound(c: Collaborators, groups: seq<UnicastRouteGroup>)
    requires forall i | 0 <= i < |groups| :: groups[i].endpointName.Some?
    ensures DestinationBound(c, groups) == |groups|
  {
    if groups != [] {
      var n := |groups| - 1;
      assert forall i | 0 <= i < n :: groups[..n][i] == groups[i];
      NamedGroupsBound(c, groups[..n]);
    }
  }

  /** When every group is named, each destination is the policy's choice for one group, so there are at most as many as groups. */
  lemma NamedGroupsOnlyUsePolicy(c: Collaborators, select: Selection, groups: seq<UnicastRouteGroup>)
    requires forall i | 0 <= i < |groups| :: groups[i].endpointName.Some?
    ensures forall a :: a in Destinations(c, select, groups) <==>
              exists i | 0 <= i < |groups| :: a == select(groups[i].endpointName.value, Candidates(c, groups[i].routes))
    ensures |Destinations(c, select, groups)| <= |groups|
  {
    forall a
      ensures a in Destinations(c, select, groups) <==>
              exists i | 0 <= i < |groups| :: a == select(groups[i].endpointName.value, Candidates(c, groups[i].routes))
    {
      DestinationsMember(c, select, groups, a);
    }
    NamedGroupsBound(c, groups);
    DestinationsBounded(c, select, groups);
  }

  /**
   * After this feature's refresh into an empty subscriber table, publishing
   * any event goes through the distribution policy only: one selected
   * address per endpoint group.
   */
  lemma FeatureFedTableUsesPolicyOnly(table: UnicastSubscriberTable, endpoints: seq<EndpointRoutingConfiguration>,
                                      c: Collaborators, select: Selection, t: MessageType)
    requires table.Valid() && table.routeGroups == map[SourceKey := RouteEntries(endpoints, Events)]
    ensures forall g | g in table.GetRoutesFor(t) :: g.endpointName.Some?
    ensures |Destinations(c, select, table.GetRoutesFor(t))| <= |table.GetRoutesFor(t)|
  {
    RouteEntriesRouteByName(endpoints, Events);
    NoUnnamedGroups(table, t);
    var groups := table.GetRoutesFor(t);
    assert forall i | 0 <= i < |groups| :: groups[i] in groups;
    NamedGroupsOnlyUsePolicy(c, select, groups);
  }
}
