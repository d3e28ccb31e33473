/**
 * The subscriber routing table: for every message type, the route groups a
 * published event of that type goes to. Sources (identified by a key) submit
 * whole batches of route table entries; the table keeps the last batch of
 * every source and, whenever a batch changes, rebuilds the published table
 * from all batches: flatten, bucket the routes by message type, then group
 * each bucket by endpoint name.
 */
module SubscriberTable {
  import opened RoutingTypes

  // ---------------------------------------------------------------------
  // Grouping the routes of one message type by endpoint name
  // ---------------------------------------------------------------------

  /** No element occurs twice. */
  ghost predicate NoDuplicates<T>(xs: seq<T>)
  {
    forall i, j | 0 <= i < j < |xs| :: xs[i] != xs[j]
  }

  /** Some route in `routes` has endpoint name `key` (a missing name is a key too). */
  ghost predicate Mentions(routes: seq<UnicastRoute>, key: Option<string>)
  {
    exists p | 0 <= p < |routes| :: routes[p].EndpointName() == key
  }

  /** The endpoint names of `routes`, each once, in order of first occurrence. */
  function DistinctEndpoints(routes: seq<UnicastRoute>): seq<Option<string>>
  {
    if routes == [] then []
    else
      var keys := DistinctEndpoints(routes[..|routes| - 1]);
      var key := routes[|routes| - 1].EndpointName();
      if key in keys then keys else keys + [key]
  }

  /** The routes of `routes` whose endpoint name is `key`, in their original order. */
  function RoutesTo(routes: seq<UnicastRoute>, key: Option<string>): (selected: seq<UnicastRoute>)
    ensures |selected| <= |routes|
    ensures forall r | r in selected :: r.EndpointName() == key
  {
    if routes == [] then []
    else
      var last := routes[|routes| - 1];
      RoutesTo(routes[..|routes| - 1], key) + (if last.EndpointName() == key then [last] else [])
  }

  /** One group per key of `keys`, holding the routes with that endpoint name. */
  function GroupsFor(routes: seq<UnicastRoute>, keys: seq<Option<string>>): seq<UnicastRouteGroup>
  {
    seq(|keys|, i requires 0 <= i < |keys| => UnicastRouteGroup(keys[i], RoutesTo(routes, keys[i])))
  }

  /** The LINQ `GroupBy(r => r.Endpoint)`: groups in order of first occurrence of their key. */
  function GroupByEndpoint(routes: seq<UnicastRoute>): seq<UnicastRouteGroup>
  {
    GroupsFor(routes, DistinctEndpoints(routes))
  }

  /** All routes of a sequence of groups, group after group. */
  function AllRoutes(groups: seq<UnicastRouteGroup>): seq<UnicastRoute>
  {
    if groups == [] then [] else AllRoutes(groups[..|groups| - 1]) + groups[|groups| - 1].routes
  }

  /** The position of the first route whose endpoint name is `key`. */
  ghost function FirstIndex(routes: seq<UnicastRoute>, key: Option<string>): (p: nat)
    requires Mentions(routes, key)
    ensures p < |routes| && routes[p].EndpointName() == key
    ensures forall q | 0 <= q < p :: routes[q].EndpointName() != key
  {
    var n := |routes| - 1;
    if Mentions(routes[..n], key) then
      FirstIndex(routes[..n], key)
    else
      n
  }

  lemma {:induction false} RoutesToEmpty(routes: seq<UnicastRoute>, key: Option<string>)
    ensures RoutesTo(routes, key) == [] <==> !Mentions(routes, key)
  {
    if routes != [] {
      var n := |routes| - 1;
      RoutesToEmpty(routes[..n], key);
      if Mentions(routes[..n], key) {
        var p :| 0 <= p < n && routes[..n][p].EndpointName() == key;
        assert routes[p].EndpointName() == key;
      }
      if Mentions(routes, key) && routes[n].EndpointName() != key {
        var p :| 0 <= p < |routes| && routes[p].EndpointName() == key;
        assert routes[..n][p].EndpointName() == key;
      }
    }
  }

  /** Filtering distributes over concatenation, so each group keeps the original relative order. */
  lemma {:induction false} RoutesToConcat(a: seq<UnicastRoute>, b: seq<UnicastRoute>, key: Option<string>)
    ensures RoutesTo(a + b, key) == RoutesTo(a, key) + RoutesTo(b, key)
  {
    if b != [] {
      var n := |b| - 1;
      assert (a + b)[..|a + b| - 1] == a + b[..n];
      RoutesToConcat(a, b[..n], key);
    } else {
      assert a + b == a;
    }
  }

  /** The keys are pairwise distinct and are exactly the endpoint names that occur. */
  lemma {:induction false} DistinctEndpointsSpec(routes: seq<UnicastRoute>)
    ensures NoDuplicates(DistinctEndpoints(routes))
    ensures forall key :: key in DistinctEndpoints(routes) <==> Mentions(routes, key)
  {
    if routes != [] {
      var n := |routes| - 1;
      var prefix := routes[..n];
      DistinctEndpointsSpec(prefix);
      forall key
        ensures key in DistinctEndpoints(routes) <==> Mentions(routes, key)
      {
        if Mentions(prefix, key) {
          var p :| 0 <= p < n && prefix[p].EndpointName() == key;
          assert routes[p] == prefix[p];
        }
        if Mentions(routes, key) && routes[n].EndpointName() != key {
          var p :| 0 <= p < |routes| && routes[p].EndpointName() == key;
          assert prefix[p] == routes[p];
        }
      }
    }
  }

  /** Groups appear in the order in which their endpoint names first occur. */
  lemma {:induction false} DistinctEndpointsFirstOccurrenceOrder(routes: seq<UnicastRoute>, i: nat, j: nat)
    requires i < j < |DistinctEndpoints(routes)|
    ensures Mentions(routes, DistinctEndpoints(routes)[i]) && Mentions(routes, DistinctEndpoints(routes)[j])
    ensures FirstIndex(routes, DistinctEndpoints(routes)[i]) < FirstIndex(routes, DistinctEndpoints(routes)[j])
  {
    var keys := DistinctEndpoints(routes);
    DistinctEndpointsSpec(routes);
    assert keys[i] in keys && keys[j] in keys;
    var n := |routes| - 1;
    var prefix := routes[..n];
    var pkeys := DistinctEndpoints(prefix);
    DistinctEndpointsSpec(prefix);
    if j < |pkeys| {
      DistinctEndpointsFirstOccurrenceOrder(prefix, i, j);
      MentionsPrefix(routes, n, keys[i]);
      MentionsPrefix(routes, n, keys[j]);
    } else {
      // keys[j] is the endpoint name of the last route, met for the first time there
      assert keys[j] !in pkeys;
      assert FirstIndex(routes, keys[j]) == n;
      assert keys[i] in pkeys;
      MentionsPrefix(routes, n, keys[i]);
    }
  }

  /** A key mentioned in a prefix keeps its first index in the whole sequence. */
  lemma MentionsPrefix(routes: seq<UnicastRoute>, n: nat, key: Option<string>)
    requires n == |routes| - 1
    requires Mentions(routes[..n], key)
    ensures Mentions(routes, key)
    ensures FirstIndex(routes, key) == FirstIndex(routes[..n], key)
  {
    var p :| 0 <= p < n && routes[..n][p].EndpointName() == key;
    assert routes[p].EndpointName() == key;
  }

  lemma AllRoutesSnoc(groups: seq<UnicastRouteGroup>, g: UnicastRouteGroup)
    ensures AllRoutes(groups + [g]) == AllRoutes(groups) + g.routes
  {
    assert (groups + [g])[..|groups|] == groups;
  }

  lemma GroupsForSnoc(routes: seq<UnicastRoute>, keys: seq<Option<string>>, key: Option<string>)
    ensures GroupsFor(routes, keys + [key]) == GroupsFor(routes, keys) + [UnicastRouteGroup(key, RoutesTo(routes, key))]
  {
  }

  /** The routes with each key of `keys` in turn, key after key. */
  function RoutesToEach(routes: seq<UnicastRoute>, keys: seq<Option<string>>): seq<UnicastRoute>
  {
    if keys == [] then [] else RoutesToEach(routes, keys[..|keys| - 1]) + RoutesTo(routes, keys[|keys| - 1])
  }

  lemma {:induction false} AllRoutesOfGroupsFor(routes: seq<UnicastRoute>, keys: seq<Option<string>>)
    ensures AllRoutes(GroupsFor(routes, keys)) == RoutesToEach(routes, keys)
  {
    if keys != [] {
      var n := |keys| - 1;
      assert keys == keys[..n] + [keys[n]];
      AllRoutesOfGroupsFor(routes, keys[..n]);
      GroupsForSnoc(routes, keys[..n], keys[n]);
      AllRoutesSnoc(GroupsFor(routes, keys[..n]), UnicastRouteGroup(keys[n], RoutesTo(routes, keys[n])));
    } else {
      assert GroupsFor(routes, keys) == [];
    }
  }

  lemma RoutesToSnoc(s: seq<UnicastRoute>, x: UnicastRoute, key: Option<string>)
    ensures RoutesTo(s + [x], key) == RoutesTo(s, key) + (if x.EndpointName() == key then [x] else [])
  {
    assert (s + [x])[..|s|] == s;
  }

  lemma RoutesToEachSnoc(s: seq<UnicastRoute>, keys: seq<Option<string>>, key: Option<string>)
    ensures RoutesToEach(s, keys + [key]) == RoutesToEach(s, keys) + RoutesTo(s, key)
  {
    assert (keys + [key])[..|keys|] == keys;
  }

  lemma NoDuplicatesSnoc<T>(xs: seq<T>, y: T)
    requires NoDuplicates(xs + [y])
    ensures NoDuplicates(xs) && y !in xs
  {
    assert forall i | 0 <= i < |xs| :: xs[i] == (xs + [y])[i];
    forall i | 0 <= i < |xs|
      ensures xs[i] != y
    {
      assert (xs + [y])[i] == xs[i] && (xs + [y])[|xs|] == y;
    }
  }

  /** Adding a route to the input adds it once, for the key it has, if that key is listed. */
  lemma {:induction false} RoutesToEachOfAppend(s: seq<UnicastRoute>, x: UnicastRoute, keys: seq<Option<string>>)
    requires NoDuplicates(keys)
    ensures multiset(RoutesToEach(s + [x], keys))
         == multiset(RoutesToEach(s, keys)) + (if x.EndpointName() in keys then multiset{x} else multiset{})
  {
    if keys != [] {
      var n := |keys| - 1;
      var k := keys[n];
      var front := keys[..n];
      assert keys == front + [k];
      NoDuplicatesSnoc(front, k);
      RoutesToEachOfAppend(s, x, front);
      RoutesToEachSnoc(s + [x], front, k);
      RoutesToEachSnoc(s, front, k);
      RoutesToSnoc(s, x, k);
      var here := if x.EndpointName() == k then [x] else [];
      var before := if x.EndpointName() in front then multiset{x} else multiset{};
      MultisetAppendStep(RoutesToEach(s + [x], front), RoutesToEach(s, front), RoutesTo(s, k), here, before);
    }
  }

  lemma MultisetAppendStep<T>(a: seq<T>, b: seq<T>, r: seq<T>, here: seq<T>, before: multiset<T>)
    requires multiset(a) == multiset(b) + before
    ensures multiset(a + (r + here)) == multiset(b + r) + (multiset(here) + before)
  {
  }

  lemma {:induction false} GroupByEndpointKeepsRoutes(routes: seq<UnicastRoute>)
    ensures multiset(AllRoutes(GroupByEndpoint(routes))) == multiset(routes)
  {
    AllRoutesOfGroupsFor(routes, DistinctEndpoints(routes));
    RoutesToEachKeepsRoutes(routes);
  }

  lemma {:induction false} RoutesToEachKeepsRoutes(routes: seq<UnicastRoute>)
    ensures multiset(RoutesToEach(routes, DistinctEndpoints(routes))) == multiset(routes)
  {
    if routes != [] {
      var n := |routes| - 1;
      var p := routes[..n];
      var x := routes[n];
      assert routes == p + [x];
      var pkeys := DistinctEndpoints(p);
      RoutesToEachKeepsRoutes(p);
      DistinctEndpointsSpec(p);
      RoutesToEachOfAppend(p, x, pkeys);
      var key := x.EndpointName();
      if key !in pkeys {
        assert DistinctEndpoints(routes) == pkeys + [key];
        assert (pkeys + [key])[..|pkeys|] == pkeys;
        RoutesToEmpty(p, key);
        RoutesToConcat(p, [x], key);
        assert [x][..0] == [];
        assert RoutesTo(routes, key) == [x];
      }
    }
  }

  /**
   * The grouping is a partition of the routes by endpoint name: keys are
   * pairwise distinct (a missing name is allowed as one), every group is
   * non-empty, every route of a group has the group's key, a group holds
   * exactly the routes with its key in their original order, every name
   * that occurs has a group, and no route is lost or duplicated.
   */
  lemma GroupByEndpointPartition(routes: seq<UnicastRoute>)
    ensures var groups := GroupByEndpoint(routes);
      && (forall i, j | 0 <= i < j < |groups| :: groups[i].endpointName != groups[j].endpointName)
      && (forall i | 0 <= i < |groups| :: groups[i].routes != [])
      && (forall i, r | 0 <= i < |groups| && r in groups[i].routes :: r.EndpointName() == groups[i].endpointName)
      && (forall i | 0 <= i < |groups| :: groups[i].routes == RoutesTo(routes, groups[i].endpointName))
      && (forall key :: Mentions(routes, key) <==> exists i | 0 <= i < |groups| :: groups[i].endpointName == key)
      && multiset(AllRoutes(groups)) == multiset(routes)
  {
    var keys := DistinctEndpoints(routes);
    var groups := GroupByEndpoint(routes);
    DistinctEndpointsSpec(routes);
    forall i | 0 <= i < |groups|
      ensures groups[i].routes != []
    {
      assert keys[i] in keys;
      RoutesToEmpty(routes, keys[i]);
    }
    forall key
      ensures Mentions(routes, key) <==> exists i | 0 <= i < |groups| :: groups[i].endpointName == key
    {
      if Mentions(routes, key) {
        var i :| 0 <= i < |keys| && keys[i] == key;
        assert groups[i].endpointName == key;
      }
    }
    GroupByEndpointKeepsRoutes(routes);
  }

  /** Routes yield at least one group exactly when there is at least one route. */
  lemma GroupByEndpointNonEmpty(routes: seq<UnicastRoute>)
    ensures GroupByEndpoint(routes) == [] <==> routes == []
  {
    if routes != [] {
      DistinctEndpointsSpec(routes);
      assert Mentions(routes, routes[0].EndpointName());
      assert routes[0].EndpointName() in DistinctEndpoints(routes);
    }
  }

  // ---------------------------------------------------------------------
  // Rebuilding the table from the batches of all sources
  // ---------------------------------------------------------------------

  /** The routes of the entries whose message type is `t`, in entry order. */
  function RoutesOfType(entries: seq<RouteTableEntry>, t: MessageType): seq<UnicastRoute>
  {
    if entries == [] then []
    else
      var n := |entries| - 1;
      assert entries == entries[..n] + [entries[n]];
      RoutesOfType(entries[..n], t) + (if entries[n].messageType == t then [entries[n].route] else [])
  }

  /** The message types the entries mention. */
  function MessageTypes(entries: seq<RouteTableEntry>): set<MessageType>
  {
    if entries == [] then {}
    else MessageTypes(entries[..|entries| - 1]) + {entries[|entries| - 1].messageType}
  }

  /** A type is mentioned exactly when it has routes. */
  lemma {:induction false} MessageTypesMember(entries: seq<RouteTableEntry>, t: MessageType)
    ensures t in MessageTypes(entries) <==> RoutesOfType(entries, t) != []
    ensures RoutesOfType(entries, t) == [] <==> forall e | e in entries :: e.messageType != t
  {
    if entries != [] {
      var n := |entries| - 1;
      MessageTypesMember(entries[..n], t);
      assert entries == entries[..n] + [entries[n]];
    }
  }

  /** The table a rebuild produces from the flattened entries of all sources. */
  function BuildTable(entries: seq<RouteTableEntry>): map<MessageType, seq<UnicastRouteGroup>>
  {
    map t | t in MessageTypes(entries) :: GroupByEndpoint(RoutesOfType(entries, t))
  }

  /** The groups of `t` in a table, or none. */
  function Lookup(table: map<MessageType, seq<UnicastRouteGroup>>, t: MessageType): seq<UnicastRouteGroup>
  {
    if t in table then table[t] else []
  }

  /** The source keys in dictionary enumeration order: no key twice, and exactly the stored keys. */
  ghost predicate SourceOrderOk(order: seq<string>, batches: map<string, seq<RouteTableEntry>>)
  {
    && NoDuplicates(order)
    && (forall k :: k in batches <==> k in order)
  }

  /** All batches concatenated in the enumeration order `order` (the `SelectMany`). */
  function Flatten(order: seq<string>, batches: map<string, seq<RouteTableEntry>>): seq<RouteTableEntry>
    requires forall k | k in order :: k in batches
  {
    if order == [] then []
    else Flatten(order[..|order| - 1], batches) + batches[order[|order| - 1]]
  }

  /** Some stored entry of some source has message type `t`. */
  ghost predicate Stored(batches: map<string, seq<RouteTableEntry>>, t: MessageType)
  {
    exists k, e | k in batches && e in batches[k] :: e.messageType == t
  }

  lemma {:induction false} FlattenMember(order: seq<string>, batches: map<string, seq<RouteTableEntry>>, e: RouteTableEntry)
    requires forall k | k in order :: k in batches
    ensures e in Flatten(order, batches) <==> exists j | 0 <= j < |order| :: e in batches[order[j]]
  {
    if order != [] {
      var n := |order| - 1;
      FlattenMember(order[..n], batches, e);
      if e in Flatten(order[..n], batches) {
        var j :| 0 <= j < n && e in batches[order[..n][j]];
        assert order[j] == order[..n][j];
      }
      if (exists j | 0 <= j < |order| :: e in batches[order[j]]) && e !in batches[order[n]] {
        var j :| 0 <= j < |order| && e in batches[order[j]];
        assert order[..n][j] == order[j];
      }
    }
  }

  /** After a rebuild, `t` is a key of the table iff some stored entry of some source has type `t`. */
  lemma TableKeys(order: seq<string>, batches: map<string, seq<RouteTableEntry>>, t: MessageType)
    requires SourceOrderOk(order, batches)
    ensures t in BuildTable(Flatten(order, batches)) <==> Stored(batches, t)
  {
    var flat := Flatten(order, batches);
    MessageTypesMember(flat, t);
    if t in MessageTypes(flat) {
      var e :| e in flat && e.messageType == t;
      FlattenMember(order, batches, e);
      var j :| 0 <= j < |order| && e in batches[order[j]];
      assert order[j] in batches;
    }
    if Stored(batches, t) {
      var k, e :| k in batches && e in batches[k] && e.messageType == t;
      var j :| 0 <= j < |order| && order[j] == k;
      FlattenMember(order, batches, e);
      assert e in flat;
    }
  }

  /** For every type, the routes across its groups are exactly the routes of the stored entries of that type. */
  lemma TableRoutes(order: seq<string>, batches: map<string, seq<RouteTableEntry>>, t: MessageType)
    requires SourceOrderOk(order, batches)
    ensures multiset(AllRoutes(Lookup(BuildTable(Flatten(order, batches)), t)))
         == multiset(RoutesOfType(Flatten(order, batches), t))
  {
    var flat := Flatten(order, batches);
    MessageTypesMember(flat, t);
    if t in MessageTypes(flat) {
      GroupByEndpointKeepsRoutes(RoutesOfType(flat, t));
    } else {
      assert forall e | e in flat :: e.messageType != t;
    }
  }

  lemma {:induction false} FlattenConcat(o1: seq<string>, o2: seq<string>, batches: map<string, seq<RouteTableEntry>>)
    requires forall k | k in o1 + o2 :: k in batches
    ensures Flatten(o1 + o2, batches) == Flatten(o1, batches) + Flatten(o2, batches)
  {
    if o2 == [] {
      assert o1 + o2 == o1;
    } else {
      var n := |o2| - 1;
      assert (o1 + o2)[..|o1 + o2| - 1] == o1 + o2[..n];
      FlattenConcat(o1, o2[..n], batches);
    }
  }

  lemma {:induction false} RoutesOfTypeConcat(a: seq<RouteTableEntry>, b: seq<RouteTableEntry>, t: MessageType)
    ensures RoutesOfType(a + b, t) == RoutesOfType(a, t) + RoutesOfType(b, t)
  {
    if b == [] {
      assert a + b == a;
    } else {
      var n := |b| - 1;
      assert (a + b)[..|a + b| - 1] == a + b[..n];
      RoutesOfTypeConcat(a, b[..n], t);
    }
  }

  /** Two enumerations of the same source keys, each key once. */
  ghost predicate SameSources(o1: seq<string>, o2: seq<string>)
  {
    && NoDuplicates(o1)
    && NoDuplicates(o2)
    && (forall k :: k in o1 <==> k in o2)
  }

  /**
   * The routes a rebuild collects for one type, counted with multiplicity,
   * do not depend on the order in which the sources are enumerated.
   */
  lemma {:induction false} TableRoutesIgnoreSourceOrder(o1: seq<string>, o2: seq<string>,
                                                        batches: map<string, seq<RouteTableEntry>>, t: MessageType)
    requires SameSources(o1, o2)
    requires forall k | k in o1 :: k in batches
    ensures multiset(RoutesOfType(Flatten(o1, batches), t)) == multiset(RoutesOfType(Flatten(o2, batches), t))
    decreases |o1|
  {
    if o1 != [] {
      var n := |o1| - 1;
      var x := o1[n];
      assert x in o2;
      var j :| 0 <= j < |o2| && o2[j] == x;
      var rest := o2[..j] + o2[j + 1..];
      SameSourcesRemove(o1, o2, j);
      TableRoutesIgnoreSourceOrder(o1[..n], rest, batches, t);
      RoutesOfTypeConcat(Flatten(o1[..n], batches), batches[x], t);
      TypeRoutesSplit(o2, j, batches, t);
    }
  }

  /** Removing the same key from both enumerations keeps them enumerations of the same keys. */
  lemma SameSourcesRemove(o1: seq<string>, o2: seq<string>, j: nat)
    requires SameSources(o1, o2) && o1 != [] && j < |o2| && o2[j] == o1[|o1| - 1]
    ensures SameSources(o1[..|o1| - 1], o2[..j] + o2[j + 1..])
  {
    var n := |o1| - 1;
    var x := o1[n];
    var rest := o2[..j] + o2[j + 1..];
    forall k
      ensures k in o1[..n] <==> k in rest
    {
      if k in o1[..n] {
        var a :| 0 <= a < n && o1[..n][a] == k;
        assert o1[a] == k && k != x;
        assert k in o1;
        assert k in o2;
        var c :| 0 <= c < |o2| && o2[c] == k;
        assert c != j;
        if c < j { assert rest[c] == k; } else { assert rest[c - 1] == k; }
      }
      if k in rest {
        var a :| 0 <= a < |rest| && rest[a] == k;
        var a' := if a < j then a else a + 1;
        assert o2[a'] == k && a' != j;
        assert k in o1;
        var b :| 0 <= b < |o1| && o1[b] == k;
        assert b != n;
        assert o1[..n][b] == k;
      }
    }
    forall a, b | 0 <= a < b < |rest|
      ensures rest[a] != rest[b]
    {
      var a' := if a < j then a else a + 1;
      var b' := if b < j then b else b + 1;
      assert rest[a] == o2[a'] && rest[b] == o2[b'];
    }
  }

  /** The routes of one type contributed by the source at position `j`, split off from the others. */
  lemma TypeRoutesSplit(o: seq<string>, j: nat, batches: map<string, seq<RouteTableEntry>>, t: MessageType)
    requires forall k | k in o :: k in batches
    requires j < |o|
    ensures multiset(RoutesOfType(Flatten(o, batches), t))
         == multiset(RoutesOfType(Flatten(o[..j] + o[j + 1..], batches), t)) + multiset(RoutesOfType(batches[o[j]], t))
  {
    var x := o[j];
    assert o == o[..j] + [x] + o[j + 1..];
    FlattenConcat(o[..j], [x], batches);
    FlattenConcat(o[..j] + [x], o[j + 1..], batches);
    FlattenConcat(o[..j], o[j + 1..], batches);
    assert Flatten([x], batches) == batches[x] by {
      assert [x][..0] == [];
    }
    var A := Flatten(o[..j], batches);
    var B := Flatten(o[j + 1..], batches);
    RoutesOfTypeConcat(A, batches[x], t);
    RoutesOfTypeConcat(A + batches[x], B, t);
    RoutesOfTypeConcat(A, B, t);
  }

  /** Replacing the only source that mentions `t` with an empty batch removes `t` from the rebuilt table. */
  lemma EmptyingOnlySourceRemovesType(order: seq<string>, batches: map<string, seq<RouteTableEntry>>,
                                      k: string, t: MessageType)
    requires SourceOrderOk(order, batches) && k in batches
    requires forall k', e | k' in batches && k' != k && e in batches[k'] :: e.messageType != t
    ensures Lookup(BuildTable(Flatten(order, batches[k := []])), t) == []
  {
    var after := batches[k := []];
    assert SourceOrderOk(order, after);
    TableKeys(order, after, t);
  }

  /** `buckets` holds, for each message type met in `prefix`, the routes of that type in order. */
  ghost predicate BucketsOf(prefix: seq<RouteTableEntry>, buckets: map<MessageType, seq<UnicastRoute>>)
  {
    && buckets.Keys == MessageTypes(prefix)
    && forall t | t in buckets :: buckets[t] == RoutesOfType(prefix, t)
  }

  /** One more entry adds its message type to the types met so far. */
  lemma MessageTypesSnoc(all: seq<RouteTableEntry>, i: nat)
    requires i < |all|
    ensures MessageTypes(all[..i + 1]) == MessageTypes(all[..i]) + {all[i].messageType}
  {
    assert all[..i + 1] == all[..i] + [all[i]];
  }

  /** One more entry extends the routes of its own message type and no other. */
  lemma RoutesOfTypeSnoc(all: seq<RouteTableEntry>, i: nat, t: MessageType)
    requires i < |all|
    ensures RoutesOfType(all[..i + 1], t) == RoutesOfType(all[..i], t) + (if all[i].messageType == t then [all[i].route] else [])
  {
    assert all[..i + 1][..i] == all[..i];
  }

  /** Appending the route of `all[i]` to the bucket of its type (creating the bucket if needed) keeps the buckets exact. */
  lemma BucketStep(all: seq<RouteTableEntry>, i: nat,
                   buckets: map<MessageType, seq<UnicastRoute>>, typeRoutes: seq<UnicastRoute>)
    requires i < |all|
    requires BucketsOf(all[..i], buckets)
    requires typeRoutes == if all[i].messageType in buckets then buckets[all[i].messageType] else []
    ensures BucketsOf(all[..i + 1], buckets[all[i].messageType := typeRoutes + [all[i].route]])
  {
    MessageTypesSnoc(all, i);
    var grown := buckets[all[i].messageType := typeRoutes + [all[i].route]];
    forall t | t in grown
      ensures grown[t] == RoutesOfType(all[..i + 1], t)
    {
      RoutesOfTypeSnoc(all, i, t);
      if t != all[i].messageType {
        assert grown[t] == buckets[t];
      } else if t !in buckets {
        MessageTypesMember(all[..i], t);
      }
    }
  }

  /** Grouping every complete bucket by endpoint yields the table of all entries. */
  lemma GroupedBucketsAreTable(all: seq<RouteTableEntry>, buckets: map<MessageType, seq<UnicastRoute>>)
    requires BucketsOf(all, buckets)
    ensures (map t | t in buckets :: GroupByEndpoint(buckets[t])) == BuildTable(all)
  {
  }

  /** The `foreach` of the rebuild: appends each entry's route to the bucket of its message type, creating the bucket on first use. */
  method BucketByMessageType(all: seq<RouteTableEntry>) returns (buckets: map<MessageType, seq<UnicastRoute>>)
    ensures BucketsOf(all, buckets)
  {
    buckets := map[];
    var i := 0;
    while i < |all|
      invariant 0 <= i <= |all|
      invariant BucketsOf(all[..i], buckets)
    {
      var entry := all[i];
      var typeRoutes: seq<UnicastRoute>;
      if entry.messageType in buckets {
        typeRoutes := buckets[entry.messageType];
      } else {
        typeRoutes := [];
      }
      BucketStep(all, i, buckets, typeRoutes);
      buckets := buckets[entry.messageType := typeRoutes + [entry.route]];
      i := i + 1;
    }
    assert all[..i] == all;
  }

  /** Storing a batch keeps the enumeration order consistent; a new key is enumerated last. */
  lemma SourceOrderAfterPut(order: seq<string>, batches: map<string, seq<RouteTableEntry>>,
                            k: string, entries: seq<RouteTableEntry>)
    requires SourceOrderOk(order, batches)
    ensures SourceOrderOk(if k in batches then order else order + [k], batches[k := entries])
  {
  }

  // ---------------------------------------------------------------------
  // The table object
  // ---------------------------------------------------------------------

  class UnicastSubscriberTable {
    /** The published table, replaced as a whole on every rebuild. */
    var routeTable: map<MessageType, seq<UnicastRouteGroup>>
    /** The last batch each source submitted. */
    var routeGroups: map<string, seq<RouteTableEntry>>
    /** The order in which the source dictionary enumerates its keys: the order they were first added. */
    var sourceOrder: seq<string>
    /** How many times the published table has been rebuilt and swapped in. */
    ghost var Rebuilds: nat

    /** The published table is always the rebuild of the stored batches. */
    ghost predicate Valid()
      reads this
    {
      SourceOrderOk(sourceOrder, routeGroups) && routeTable == BuildTable(Flatten(sourceOrder, routeGroups))
    }

    constructor ()
      ensures Valid()
      ensures routeTable == map[] && routeGroups == map[] && sourceOrder == [] && Rebuilds == 0
    {
      routeTable := map[];
      routeGroups := map[];
      sourceOrder := [];
      Rebuilds := 0;
    }

    /** The groups for a message type; empty when no stored entry names the type. */
    function GetRoutesFor(messageType: MessageType): (groups: seq<UnicastRouteGroup>)
      reads this
      requires Valid()
      ensures groups == [] <==> !Stored(routeGroups, messageType)
      ensures multiset(AllRoutes(groups)) == multiset(RoutesOfType(Flatten(sourceOrder, routeGroups), messageType))
    {
      TableKeys(sourceOrder, routeGroups, messageType);
      TableRoutes(sourceOrder, routeGroups, messageType);
      var flat := Flatten(sourceOrder, routeGroups);
      MessageTypesMember(flat, messageType);
      GroupByEndpointNonEmpty(RoutesOfType(flat, messageType));
      Lookup(routeTable, messageType)
    }

    /** The batch a source last submitted, if any. */
    function GetExistingRoutes(sourceKey: string): (existing: Option<seq<RouteTableEntry>>)
      reads this
      ensures existing.Some? <==> sourceKey in routeGroups
      ensures existing.Some? ==> existing.value == routeGroups[sourceKey]
    {
      if sourceKey in routeGroups then Some(routeGroups[sourceKey]) else None
    }

    /**
     * Stores `entries` as the batch of `sourceKey`. A batch equal to the
     * stored one changes nothing; otherwise the batch is stored and the
     * whole table is rebuilt and replaced.
     */
    method AddOrReplaceRoutes(sourceKey: string, entries: seq<RouteTableEntry>)
      requires Valid()
      modifies this
      ensures Valid()
      ensures routeGroups == old(routeGroups)[sourceKey := entries]
      ensures sourceOrder == if sourceKey in old(routeGroups) then old(sourceOrder) else old(sourceOrder) + [sourceKey]
      ensures old(GetExistingRoutes(sourceKey)) == Some(entries) ==>
                routeTable == old(routeTable) && Rebuilds == old(Rebuilds)
      ensures old(GetExistingRoutes(sourceKey)) != Some(entries) ==> Rebuilds == old(Rebuilds) + 1
    {
      var existing := GetExistingRoutes(sourceKey);
      if existing.Some? && existing.value == entries {
        assert routeGroups[sourceKey := entries] == routeGroups;
        return;
      }

      var stored := routeGroups[sourceKey := entries];
      SourceOrderAfterPut(sourceOrder, routeGroups, sourceKey, entries);
      if sourceKey !in routeGroups {
        sourceOrder := sourceOrder + [sourceKey];
      }
      routeGroups := stored;
      var table := CalculateNewRouteTable();
      routeTable := table;
      Rebuilds := Rebuilds + 1;
    }

    /** Buckets the routes of all stored entries by message type, then groups each bucket by endpoint. */
    method CalculateNewRouteTable() returns (table: map<MessageType, seq<UnicastRouteGroup>>)
      requires SourceOrderOk(sourceOrder, routeGroups)
      ensures table == BuildTable(Flatten(sourceOrder, routeGroups))
    {
      var all := Flatten(sourceOrder, routeGroups);
      var buckets := BucketByMessageType(all);
      table := map t | t in buckets :: GroupByEndpoint(buckets[t]);
      GroupedBucketsAreTable(all, buckets);
    }
  }
}
