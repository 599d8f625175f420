/**
  The `config` entry point: routing a configuration request from the cloud to
  one of the configuration handlers. The handlers themselves are not modelled;
  a route names the handler and the parameters it would be called with.
*/
module Config {
  import opened Entities

  /** The parameters of a request, passed through untouched. */
  type Params = map<string, string>

  /** A request `{method, params}`. */
  datatype Request = Request(methodName: string, params: Params)

  /** The five named configuration handlers. */
  datatype Handler = ConfigScan | ManualSetTcp | ManualGetTcp | ManualShowRemove | ManualRemoveTcp

  /** Where a request goes: the probe handler (called with the callback only),
      a named handler with the request's parameters, or straight back to the
      callback with `true`, the failure flag. */
  datatype Route = Probe | Call(handler: Handler, params: Params) | Fail

  /** The method name each handler answers to. */
  function MethodName(h: Handler): string
  {
    match h
    case ConfigScan => "configScan"
    case ManualSetTcp => "manual_set_tcp"
    case ManualGetTcp => "manual_get_tcp"
    case ManualShowRemove => "manual_show_remove"
    case ManualRemoveTcp => "manual_remove_tcp"
  }

  /** The dispatch of `config(rpc, cb)`. A missing (falsy) request goes to the
      probe handler; a method name one handler answers to goes to that handler
      with the request's parameters; any other name fails. */
  function Dispatch(rpc: Option<Request>): (r: Route)
    ensures r == Probe <==> rpc.None?
    ensures r == Fail <==> rpc.Some? && forall h :: MethodName(h) != rpc.value.methodName
    ensures r.Call? ==> rpc.Some? && MethodName(r.handler) == rpc.value.methodName && r.params == rpc.value.params
  {
    match rpc
    case None => Probe
    case Some(req) =>
      match req.methodName
      case "configScan" => assert MethodName(ConfigScan) == req.methodName; Call(ConfigScan, req.params)
      case "manual_set_tcp" => assert MethodName(ManualSetTcp) == req.methodName; Call(ManualSetTcp, req.params)
      case "manual_get_tcp" => assert MethodName(ManualGetTcp) == req.methodName; Call(ManualGetTcp, req.params)
      case "manual_show_remove" => assert MethodName(ManualShowRemove) == req.methodName; Call(ManualShowRemove, req.params)
      case "manual_remove_tcp" => assert MethodName(ManualRemoveTcp) == req.methodName; Call(ManualRemoveTcp, req.params)
      case _ => Fail
  }

  /** Different handlers answer to different method names. */
  lemma MethodNameInjective(h1: Handler, h2: Handler)
    requires MethodName(h1) == MethodName(h2)
    ensures h1 == h2
  {
  }

  /** A request naming a handler's method reaches that handler, with its
      parameters: every handler is reachable and no other one is chosen. */
  lemma DispatchReachesHandler(h: Handler, params: Params)
    ensures Dispatch(Some(Request(MethodName(h), params))) == Call(h, params)
  {
  }
}
