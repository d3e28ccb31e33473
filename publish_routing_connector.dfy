/**
 * The publish connector: turns the groups the subscriber table holds for an
 * event type into the set of transport addresses the event is sent to, and
 * decides whether the publish goes on to the next pipeline stage at all.
 *
 * The NServiceBus services it consults (the endpoint-instance lookup, the
 * translation of an instance into a transport address and the distribution
 * policy) are given as functions.
 */
module PublishRouting {
  import opened RoutingTypes
  import opened SubscriberTable

  /** The endpoint-instance lookup and the instance-to-address translation. */
  datatype Collaborators = Collaborators(
    findInstances: string -> seq<EndpointInstance>,
    toTransportAddress: EndpointInstance -> Address)

  /**
   * What the distribution policy's publish strategy for an endpoint answers
   * during one publish: the address it selects among the candidates.
   */
  type Selection = (string, seq<Address>) -> Address

  /** A routing decision for one destination. */
  datatype UnicastRoutingStrategy = UnicastRoutingStrategy(destination: Address)

  /** The header that carries the message intent, and the value a publish puts there. */
  const MessageIntentHeader: string := "NServiceBus.MessageIntent"
  const PublishIntent: string := "Publish"

  // ---------------------------------------------------------------------
  // Resolving routes into addresses
  // ---------------------------------------------------------------------

  /** Translates every instance, in lookup order. */
  function TranslateAll(c: Collaborators, instances: seq<EndpointInstance>): (addresses: seq<Address>)
    ensures |addresses| == |instances|
    ensures forall i | 0 <= i < |instances| :: addresses[i] == c.toTransportAddress(instances[i])
  {
    if instances == [] then []
    else TranslateAll(c, instances[..|instances| - 1]) + [c.toTransportAddress(instances[|instances| - 1])]
  }

  /**
   * The addresses a route stands for: the translated instance, the physical
   * address itself, or one translated address per instance the lookup finds.
   */
  function ResolveRoute(c: Collaborators, route: UnicastRoute): (addresses: seq<Address>)
    ensures route.Instance? ==> addresses == [c.toTransportAddress(route.instance)]
    ensures route.PhysicalAddress? ==> addresses == [route.address]
    ensures route.Endpoint? ==> |addresses| == |c.findInstances(route.endpoint)|
  {
    match route
    case Instance(instance) => [c.toTransportAddress(instance)]
    case PhysicalAddress(address) => [address]
    case Endpoint(endpoint) => TranslateAll(c, c.findInstances(endpoint))
  }

  /** An endpoint-name route yields the translated address of each instance found, in lookup order. */
  lemma ResolveEndpointRoute(c: Collaborators, route: UnicastRoute, i: nat)
    requires route.Endpoint? && i < |c.findInstances(route.endpoint)|
    ensures ResolveRoute(c, route)[i] == c.toTransportAddress(c.findInstances(route.endpoint)[i])
  {
  }

  /** The resolved addresses of all routes, route after route (the `SelectMany`). */
  function Candidates(c: Collaborators, routes: seq<UnicastRoute>): seq<Address>
  {
    if routes == [] then []
    else Candidates(c, routes[..|routes| - 1]) + ResolveRoute(c, routes[|routes| - 1])
  }

  /** The distinct elements of a sequence of addresses. */
  function AddressesOf(s: seq<Address>): (addresses: set<Address>)
    ensures |addresses| <= |s|
  {
    if s == [] then {}
    else AddressesOf(s[..|s| - 1]) + {s[|s| - 1]}
  }

  /** The destinations one group adds: every candidate for an unnamed group, the policy's choice for a named one. */
  function Contribution(c: Collaborators, select: Selection, group: UnicastRouteGroup): set<Address>
  {
    if group.endpointName.None? then AddressesOf(Candidates(c, group.routes))
    else {select(group.endpointName.value, Candidates(c, group.routes))}
  }

  /** The destinations of all groups together. */
  function Destinations(c: Collaborators, select: Selection, groups: seq<UnicastRouteGroup>): set<Address>
  {
    if groups == [] then {}
    else Destinations(c, select, groups[..|groups| - 1]) + Contribution(c, select, groups[|groups| - 1])
  }

  /** The most destinations the groups can yield: all candidates of the unnamed groups plus one per named group. */
  function DestinationBound(c: Collaborators, groups: seq<UnicastRouteGroup>): nat
  {
    if groups == [] then 0
    else
      var g := groups[|groups| - 1];
      DestinationBound(c, groups[..|groups| - 1]) + (if g.endpointName.None? then |Candidates(c, g.routes)| else 1)
  }

  // ---------------------------------------------------------------------
  // Properties of the resolution
  // ---------------------------------------------------------------------

  lemma {:induction false} AddressesOfMember(s: seq<Address>, a: Address)
    ensures a in AddressesOf(s) <==> a in s
  {
    if s != [] {
      var n := |s| - 1;
      AddressesOfMember(s[..n], a);
      assert s == s[..n] + [s[n]];
    }
  }

  lemma {:induction false} AddressesOfConcat(s: seq<Address>, t: seq<Address>)
    ensures AddressesOf(s + t) == AddressesOf(s) + AddressesOf(t)
  {
    forall a
      ensures a in AddressesOf(s + t) <==> a in AddressesOf(s) + AddressesOf(t)
    {
      AddressesOfMember(s + t, a);
      AddressesOfMember(s, a);
      AddressesOfMember(t, a);
    }
  }

  /** An address is a candidate of a group exactly when one of the group's routes resolves to it. */
  lemma {:induction false} CandidatesMember(c: Collaborators, routes: seq<UnicastRoute>, a: Address)
    ensures a in Candidates(c, routes) <==> exists i | 0 <= i < |routes| :: a in ResolveRoute(c, routes[i])
  {
    if routes != [] {
      var n := |routes| - 1;
      CandidatesMember(c, routes[..n], a);
      if a in Candidates(c, routes[..n]) {
        var i :| 0 <= i < n && a in ResolveRoute(c, routes[..n][i]);
        assert routes[..n][i] == routes[i];
      }
      if exists i | 0 <= i < |routes| :: a in ResolveRoute(c, routes[i]) {
        var i :| 0 <= i < |routes| && a in ResolveRoute(c, routes[i]);
        if i < n {
          assert routes[..n][i] == routes[i];
        }
      }
    }
  }

  lemma AddressesOfSnoc(s: seq<Address>, k: nat)
    requires k < |s|
    ensures AddressesOf(s[..k + 1]) == AddressesOf(s[..k]) + {s[k]}
  {
    assert s[..k + 1][..k] == s[..k];
  }

  lemma CandidatesSnoc(c: Collaborators, routes: seq<UnicastRoute>, j: nat)
    requires j < |routes|
    ensures Candidates(c, routes[..j + 1]) == Candidates(c, routes[..j]) + ResolveRoute(c, routes[j])
  {
    assert routes[..j + 1][..j] == routes[..j];
  }

  lemma DestinationsSnoc(c: Collaborators, select: Selection, groups: seq<UnicastRouteGroup>, i: nat)
    requires i < |groups|
    ensures Destinations(c, select, groups[..i + 1]) == Destinations(c, select, groups[..i]) + Contribution(c, select, groups[i])
  {
    assert groups[..i + 1][..i] == groups[..i];
  }

  /** Every destination comes from the contribution of some group, and every contribution is a destination. */
  lemma {:induction false} DestinationsMember(c: Collaborators, select: Selection, groups: seq<UnicastRouteGroup>, a: Address)
    ensures a in Destinations(c, select, groups) <==> exists i | 0 <= i < |groups| :: a in Contribution(c, select, groups[i])
  {
    if groups != [] {
      var n := |groups| - 1;
      var earlier := Destinations(c, select, groups[..n]);
      DestinationsMember(c, select, groups[..n], a);
      assert Destinations(c, select, groups) == earlier + Contribution(c, select, groups[n]);
      if a in earlier {
        var i :| 0 <= i < n && a in Contribution(c, select, groups[..n][i]);
        assert groups[..n][i] == groups[i];
      } else if a !in Contribution(c, select, groups[n]) {
        forall i | 0 <= i < |groups|
          ensures a !in Contribution(c, select, groups[i])
        {
          if i < n {
            assert groups[..n][i] == groups[i];
          }
        }
      }
    }
  }

  /**
   * When the policy picks one of the candidates for every named group,
   * every destination is an address some route of some group resolves to.
   */
  lemma DestinationsAreCandidates(c: Collaborators, select: Selection, groups: seq<UnicastRouteGroup>, a: Address)
    requires forall i | 0 <= i < |groups| && groups[i].endpointName.Some? ::
               select(groups[i].endpointName.value, Candidates(c, groups[i].routes)) in Candidates(c, groups[i].routes)
    requires a in Destinations(c, select, groups)
    ensures exists i | 0 <= i < |groups| :: a in Candidates(c, groups[i].routes)
  {
    DestinationsMember(c, select, groups, a);
    var i :| 0 <= i < |groups| && a in Contribution(c, select, groups[i]);
    if groups[i].endpointName.None? {
      AddressesOfMember(Candidates(c, groups[i].routes), a);
    }
  }

  /** A group without an endpoint name sends to every address any of its routes resolves to. */
  lemma UnnamedGroupFansOut(c: Collaborators, select: Selection, groups: seq<UnicastRouteGroup>, i: nat, r: nat, a: Address)
    requires i < |groups| && groups[i].endpointName.None?
    requires r < |groups[i].routes| && a in ResolveRoute(c, groups[i].routes[r])
    ensures a in Destinations(c, select, groups)
  {
    CandidatesMember(c, groups[i].routes, a);
    AddressesOfMember(Candidates(c, groups[i].routes), a);
    DestinationsMember(c, select, groups, a);
  }

  /** A named group sends to the address the policy selects among its candidates, even when there are none. */
  lemma NamedGroupSendsToSelection(c: Collaborators, select: Selection, groups: seq<UnicastRouteGroup>, i: nat)
    requires i < |groups| && groups[i].endpointName.Some?
    ensures select(groups[i].endpointName.value, Candidates(c, groups[i].routes)) in Destinations(c, select, groups)
  {
    DestinationsMember(c, select, groups, select(groups[i].endpointName.value, Candidates(c, groups[i].routes)));
  }

  /** Each address appears once, however many groups yield it; the count never exceeds the bound. */
  lemma {:induction false} DestinationsBounded(c: Collaborators, select: Selection, groups: seq<UnicastRouteGroup>)
    ensures |Destinations(c, select, groups)| <= DestinationBound(c, groups)
  {
    if groups != [] {
      var n := |groups| - 1;
      DestinationsBounded(c, select, groups[..n]);
      var before := Destinations(c, select, groups[..n]);
      var added := Contribution(c, select, groups[n]);
      assert |before + added| <= |before| + |added| by {
        SetUnionBound(before, added);
      }
    }
  }

  /**
   * Set union regroups. Stated apart so that the step is proved outside the
   * large context of the loops that need it.
   */
  lemma UnionAssociates<T>(a: set<T>, b: set<T>, c: set<T>)
    ensures (a + b) + c == a + (b + c)
  {
  }

  lemma {:induction false} SetUnionBound<T>(a: set<T>, b: set<T>)
    ensures |a + b| <= |a| + |b|
  {
    assert a + b == a + (b - a);
    assert |b - a| <= |b| by {
      assert b - a <= b;
      SubsetBound(b - a, b);
    }
  }

  lemma {:induction false} SubsetBound<T>(a: set<T>, b: set<T>)
    requires a <= b
    ensures |a| <= |b|
  {
    assert b == a + (b - a);
  }

  /** There is nowhere to send exactly when every group is unnamed and none of its routes resolves to anything. */
  lemma {:induction false} NoDestinations(c: Collaborators, select: Selection, groups: seq<UnicastRouteGroup>)
    ensures Destinations(c, select, groups) == {} <==>
            forall i | 0 <= i < |groups| :: groups[i].endpointName.None? && Candidates(c, groups[i].routes) == []
  {
    if groups != [] {
      var n := |groups| - 1;
      NoDestinations(c, select, groups[..n]);
      var g := groups[n];
      if g.endpointName.None? && Candidates(c, g.routes) != [] {
        AddressesOfMember(Candidates(c, g.routes), Candidates(c, g.routes)[0]);
      }
      if forall i | 0 <= i < |groups| :: groups[i].endpointName.None? && Candidates(c, groups[i].routes) == [] {
        forall i | 0 <= i < n
          ensures groups[..n][i].endpointName.None? && Candidates(c, groups[..n][i].routes) == []
        {
          assert groups[..n][i] == groups[i];
        }
      } else {
        var i :| 0 <= i < |groups| && !(groups[i].endpointName.None? && Candidates(c, groups[i].routes) == []);
        if i < n {
          assert groups[..n][i] == groups[i];
        }
      }
    }
  }

  /** One strategy per destination address. */
  function Strategies(destinations: set<Address>): (strategies: set<UnicastRoutingStrategy>)
    ensures forall s | s in strategies :: s.destination in destinations
    ensures forall a | a in destinations :: UnicastRoutingStrategy(a) in strategies
  {
    set a | a in destinations :: UnicastRoutingStrategy(a)
  }

  /** Strategies and destinations correspond one to one. */
  lemma {:induction false} StrategiesCount(destinations: set<Address>)
    ensures |Strategies(destinations)| == |destinations|
  {
    if destinations != {} {
      var a :| a in destinations;
      var rest := destinations - {a};
      StrategiesCount(rest);
      assert Strategies(destinations) == Strategies(rest) + {UnicastRoutingStrategy(a)};
    }
  }

  // ---------------------------------------------------------------------
  // The connector
  // ---------------------------------------------------------------------

  /** The outgoing publish: the event's type and the headers it will carry. */
  class OutgoingPublishContext {
    const messageType: MessageType
    var headers: map<string, string>

    constructor (messageType: MessageType, headers: map<string, string>)
      ensures this.messageType == messageType && this.headers == headers
    {
      this.messageType := messageType;
      this.headers := headers;
    }
  }

  class PublishRoutingConnector {
    const routingTable: UnicastSubscriberTable
    const lookup: Collaborators

    constructor (routingTable: UnicastSubscriberTable, lookup: Collaborators)
      ensures this.routingTable == routingTable && this.lookup == lookup
    {
      this.routingTable := routingTable;
      this.lookup := lookup;
    }

    /** The resolved addresses of the routes of one unnamed group, added one by one. */
    method AddEveryCandidate(addresses: set<Address>, routes: seq<UnicastRoute>) returns (result: set<Address>)
      ensures result == addresses + AddressesOf(Candidates(lookup, routes))
    {
      result := addresses;
      var j := 0;
      while j < |routes|
        invariant 0 <= j <= |routes|
        invariant result == addresses + AddressesOf(Candidates(lookup, routes[..j]))
      {
        var resolved := ResolveRoute(lookup, routes[j]);
        var before := result;
        var k := 0;
        while k < |resolved|
          invariant 0 <= k <= |resolved|
          invariant result == before + AddressesOf(resolved[..k])
        {
          AddressesOfSnoc(resolved, k);
          UnionAssociates(before, AddressesOf(resolved[..k]), {resolved[k]});
          result := result + {resolved[k]};
          assert result == before + AddressesOf(resolved[..k + 1]);
          k := k + 1;
        }
        assert resolved[..k] == resolved;
        CandidatesSnoc(lookup, routes, j);
        AddressesOfConcat(Candidates(lookup, routes[..j]), resolved);
        UnionAssociates(addresses, AddressesOf(Candidates(lookup, routes[..j])), AddressesOf(resolved));
        assert result == addresses + AddressesOf(Candidates(lookup, routes[..j + 1]));
        j := j + 1;
      }
      assert routes[..j] == routes;
    }

    /** Collects the destinations of all groups into one set, so that each address is sent to once. */
    method SelectDestinationsForEachEndpoint(groups: seq<UnicastRouteGroup>, select: Selection)
      returns (addresses: set<Address>)
      ensures addresses == Destinations(lookup, select, groups)
    {
      addresses := {};
      var i := 0;
      while i < |groups|
        invariant 0 <= i <= |groups|
        invariant addresses == Destinations(lookup, select, groups[..i])
      {
        var group := groups[i];
        ghost var before := addresses;
        if group.endpointName.None? {
          addresses := AddEveryCandidate(addresses, group.routes);
        } else {
          var candidates := Candidates(lookup, group.routes);
          var selected := select(group.endpointName.value, candidates);
          addresses := addresses + {selected};
        }
        assert addresses == before + Contribution(lookup, select, group);
        DestinationsSnoc(lookup, select, groups, i);
        i := i + 1;
      }
      assert groups[..i] == groups;
    }

    /** One routing strategy per destination of the event type's groups. */
    method Route(eventType: MessageType, select: Selection) returns (strategies: set<UnicastRoutingStrategy>)
      requires routingTable.Valid()
      ensures strategies == Strategies(Destinations(lookup, select, routingTable.GetRoutesFor(eventType)))
      ensures !Stored(routingTable.routeGroups, eventType) ==> strategies == {}
    {
      var routes := routingTable.GetRoutesFor(eventType);
      var selectedDestinations := SelectDestinationsForEachEndpoint(routes, select);
      strategies := set destination | destination in selectedDestinations :: UnicastRoutingStrategy(destination);
    }

    /**
     * Routes the publish. With no destination it stops here, leaving the
     * headers alone; otherwise it marks the message as a publish and hands
     * the strategies to the next stage.
     */
    method Invoke(context: OutgoingPublishContext, select: Selection) returns (dispatched: Option<set<UnicastRoutingStrategy>>)
      requires routingTable.Valid()
      modifies context
      ensures var destinations := Destinations(lookup, select, routingTable.GetRoutesFor(context.messageType));
        && (dispatched.None? <==> destinations == {})
        && (dispatched.None? ==> context.headers == old(context.headers))
        && (dispatched.Some? ==> context.headers == old(context.headers)[MessageIntentHeader := PublishIntent]
                                 && dispatched.value == Strategies(destinations))
    {
      var eventType := context.messageType;
      var routingStrategies := Route(eventType, select);
      StrategiesCount(Destinations(lookup, select, routingTable.GetRoutesFor(eventType)));
      if |routingStrategies| == 0 {
        return None;
      }
      context.headers := context.headers[MessageIntentHeader := PublishIntent];
      dispatched := Some(routingStrategies);
    }
  }
}
