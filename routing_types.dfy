/**
 * Value types shared by the routing table, the publish connector and the
 * refresh step: message types, transport addresses, routes, route table
 * entries, route groups and the endpoint configurations read from the
 * routing database.
 */
module RoutingTypes {

  /** A nullable reference: `None` stands for C#'s `null`. */
  datatype Option<+T> = None | Some(value: T)

  /** The result of a step that either completes or throws. */
  datatype Outcome<+E> = Pass | Fail(error: E)

  /** A value or the failure that prevented producing it. */
  datatype Result<+T, +E> = Success(value: T) | Failure(error: E)

  /** A message type, identified by its full type name. */
  type MessageType = string

  /** A transport address (a queue name). */
  type Address = string

  /** One running instance of a logical endpoint. */
  datatype EndpointInstance = EndpointInstance(endpoint: string, discriminator: Option<string>)

  /**
   * A unicast route has exactly one of three shapes: a specific endpoint
   * instance, a raw physical address, or a logical endpoint name whose
   * instances are looked up when a message is sent.
   */
  datatype UnicastRoute =
    | Instance(instance: EndpointInstance)
    | PhysicalAddress(address: string)
    | Endpoint(endpoint: string)
  {
    /** The route's endpoint name; only a route built from an endpoint name has one. */
    function EndpointName(): (name: Option<string>)
      ensures name.Some? <==> Endpoint?
    {
      if Endpoint? then Some(endpoint) else None
    }
  }

  /** "Messages of this type may go along this route." */
  datatype RouteTableEntry = RouteTableEntry(messageType: MessageType, route: UnicastRoute)

  /** The routes of one message type that share one endpoint name (possibly none). */
  datatype UnicastRouteGroup = UnicastRouteGroup(endpointName: Option<string>, routes: seq<UnicastRoute>)

  /** One row of the routing database: an endpoint with the commands it handles and the events it subscribes to. */
  datatype EndpointRoutingConfiguration =
    EndpointRoutingConfiguration(logicalEndpointName: string, commands: seq<MessageType>, events: seq<MessageType>)
}
