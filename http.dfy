/** The HTTP side of the renderer: which response each request gets. Every request is
    answered from its method and its path alone; the four service paths are matched
    as whole strings. */
module Http {
  import opened Common

  /** The request method as the HTTP library reports it. */
  datatype Method = Get | Head | Post | Put | Delete | Connect | Options | Trace | Patch | NonStandard(name: string)

  /** A response: its status code and its text body. */
  datatype Response = Response(status: U16, body: string)

  /** The status code a response gets when none is set. */
  const DEFAULT_STATUS: U16 := 200

  /** Answer to a POST on one of the service paths; the actions are not handled yet. */
  function PostInvalid(): Response
  {
    Response(718, "Invalid InstanceID")
  }

  function GetDeviceSpec(): Response
  {
    Response(DEFAULT_STATUS, "TODO: DeviceSpec response")
  }

  function GetRenderingControl(): Response
  {
    Response(DEFAULT_STATUS, "TODO: RenderingControl response")
  }

  function GetAvTransport(): Response
  {
    Response(DEFAULT_STATUS, "TODO: AVTransport response")
  }

  function GetIgnore(): Response
  {
    Response(DEFAULT_STATUS, "TODO: Ignore response")
  }

  function NotFound(): Response
  {
    Response(404, "Not Found")
  }

  function MethodNotAllowed(): Response
  {
    Response(405, "Method Not Allowed")
  }

  /** The router: the method is looked at first, so anything but GET and POST is
      refused whatever the path; a POST to a service path is refused with 718; a GET
      to a service path gets that path's placeholder; every other path is not found. */
  function HandleRequest(verb: Method, path: string): (r: Response)
    ensures r.status == 405 <==> !(verb.Get? || verb.Post?)
    ensures r.status == 718 <==> verb.Post? && path in ServicePaths
    ensures r.status == 200 <==> verb.Get? && path in ServicePaths
    ensures r.status == 404 <==> (verb.Get? || verb.Post?) && path !in ServicePaths
  {
    if !(verb.Get? || verb.Post?) then MethodNotAllowed()
    else
      var isPost := verb.Post?;
      if (path == "/DeviceSpec" || path == "/RenderingControl" || path == "/AVTransport" || path == "/Ignore") && isPost then PostInvalid()
      else if path == "/DeviceSpec" then GetDeviceSpec()
      else if path == "/RenderingControl" then GetRenderingControl()
      else if path == "/AVTransport" then GetAvTransport()
      else if path == "/Ignore" then GetIgnore()
      else NotFound()
  }

  /** The endpoints the router knows, each with its path and its service name. */
  datatype Endpoint = DeviceSpec | RenderingControl | AvTransport | Ignore

  function EndpointPath(ep: Endpoint): string
  {
    match ep
    case DeviceSpec => "/DeviceSpec"
    case RenderingControl => "/RenderingControl"
    case AvTransport => "/AVTransport"
    case Ignore => "/Ignore"
  }

  const ServicePaths: set<string> := {"/DeviceSpec", "/RenderingControl", "/AVTransport", "/Ignore"}

  /** The endpoint a path names, matching the whole path. */
  function EndpointOf(path: string): (r: Option<Endpoint>)
    ensures r.Some? <==> path in ServicePaths
    ensures r.Some? ==> EndpointPath(r.value) == path
  {
    if path == "/DeviceSpec" then Some(DeviceSpec)
    else if path == "/RenderingControl" then Some(RenderingControl)
    else if path == "/AVTransport" then Some(AvTransport)
    else if path == "/Ignore" then Some(Ignore)
    else None
  }

  /** The service paths are exactly the endpoints' paths, and each names its own endpoint. */
  lemma EndpointPathRoundTrip(ep: Endpoint)
    ensures EndpointPath(ep) in ServicePaths
    ensures EndpointOf(EndpointPath(ep)) == Some(ep)
  {
  }

  /** The placeholder a GET receives. */
  function Placeholder(ep: Endpoint): Response
  {
    match ep
    case DeviceSpec => GetDeviceSpec()
    case RenderingControl => GetRenderingControl()
    case AvTransport => GetAvTransport()
    case Ignore => GetIgnore()
  }

  /** The routing decision written the other way round: first the endpoint, then the
      method. */
  function Routed(verb: Method, ep: Option<Endpoint>): Response
  {
    if !(verb.Get? || verb.Post?) then MethodNotAllowed()
    else match ep
      case None => NotFound()
      case Some(e) => if verb.Post? then PostInvalid() else Placeholder(e)
  }

  /** The router agrees with the endpoint-first description on every request. */
  lemma HandleRequestRouted(verb: Method, path: string)
    ensures HandleRequest(verb, path) == Routed(verb, EndpointOf(path))
  {
  }

  /** A method other than GET and POST is refused the same way on every path, known
      or not. */
  lemma MethodCheckedFirst(verb: Method, path: string)
    requires !(verb.Get? || verb.Post?)
    ensures HandleRequest(verb, path) == Response(405, "Method Not Allowed")
  {
  }

  /** A POST to any service path is refused with 718 "Invalid InstanceID". */
  lemma PostToServiceRefused(ep: Endpoint)
    ensures HandleRequest(Post, EndpointPath(ep)) == Response(718, "Invalid InstanceID")
  {
  }

  /** A GET to a service path gets the default status 200 and that service's
      placeholder text. */
  lemma GetServicePlaceholder(ep: Endpoint)
    ensures HandleRequest(Get, EndpointPath(ep)) == Placeholder(ep)
    ensures Placeholder(ep).status == 200
  {
    HandleRequestRouted(Get, EndpointPath(ep));
    EndpointPathRoundTrip(ep);
  }

  /** Any other path, with GET or POST, is not found. */
  lemma OtherPathNotFound(verb: Method, path: string)
    requires verb.Get? || verb.Post?
    requires path !in ServicePaths
    ensures HandleRequest(verb, path) == Response(404, "Not Found")
  {
  }

  /** No service path is a proper prefix of another. */
  lemma ServicePathsPrefixFree(a: Endpoint, b: Endpoint)
    requires EndpointPath(a) <= EndpointPath(b)
    ensures a == b
  {
    var pa := EndpointPath(a);
    var pb := EndpointPath(b);
    assert pa[1] == pb[1];
  }

  /** Paths are matched whole: a service path followed by anything, as a trailing
      slash or a query string, is not a service path, so it is not found. */
  lemma SuffixedPathNotFound(verb: Method, ep: Endpoint, suffix: string)
    requires verb.Get? || verb.Post?
    requires suffix != []
    ensures HandleRequest(verb, EndpointPath(ep) + suffix) == Response(404, "Not Found")
  {
    var path := EndpointPath(ep) + suffix;
    if path in ServicePaths {
      var other := EndpointOf(path).value;
      assert EndpointPath(ep) <= EndpointPath(other);
      ServicePathsPrefixFree(ep, other);
    }
    OtherPathNotFound(verb, path);
  }

  /** The POST and GET answers on the service paths are exactly the builders'. */
  lemma ServiceResponses()
    ensures HandleRequest(Get, "/AVTransport") == Response(200, "TODO: AVTransport response")
    ensures HandleRequest(Post, "/AVTransport") == Response(718, "Invalid InstanceID")
    ensures HandleRequest(Get, "/AVTransport/") == Response(404, "Not Found")
    ensures HandleRequest(Head, "/AVTransport") == Response(405, "Method Not Allowed")
    ensures HandleRequest(Get, "/description.xml") == Response(404, "Not Found")
  {
    SuffixedPathNotFound(Get, AvTransport, "/");
  }
}
