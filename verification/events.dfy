/**
 * The event objects the router hands to listeners. Every event carries the request
 * and a response slot; a response set on an event stops the routing process. The
 * kinds differ in what else they carry and in when they are fired.
 */
module Events {
  import opened Wrappers
  import opened Http
  import opened Runtime

  datatype RouterEvent =
      /** fired as soon as routing starts */
    | RequestEvent(request: Request, response: Option<Response>)
      /** fired once the controller is instantiated; the controller may be replaced */
    | ControllerLoadedEvent(request: Request, controller: Controller, response: Option<Response>)
      /** fired before the action method is invoked */
    | BeforeActionEvent(request: Request, controller: Controller, action: string, response: Option<Response>)
      /** fired after the action, carrying the response it produced */
    | AfterActionEvent(request: Request, response: Option<Response>)
      /** fired before the response is sent */
    | BeforeSendEvent(request: Request, response: Option<Response>)
      /** fired after the response is sent; its response can no longer change */
    | AfterSendEvent(request: Request, response: Option<Response>)

  const AlreadySent := "The response has already been sent and cannot be modified"

  /** `new ControllerLoadedEvent($request, $controller)`: no response yet. */
  function NewControllerLoadedEvent(req: Request, c: Controller): (e: RouterEvent)
    ensures e.ControllerLoadedEvent?
    ensures e.request == req && e.controller == c
    ensures e.response.None?
  {
    ControllerLoadedEvent(req, c, None)
  }

  /** `new AfterSendEvent($request, $response)`: the sent response is stored from the start. */
  function NewAfterSendEvent(req: Request, resp: Response): (e: RouterEvent)
    ensures e.AfterSendEvent?
    ensures e.request == req && e.response == Some(resp)
  {
    AfterSendEvent(req, Some(resp))
  }

  /**
   * `setResponse`: fills the response slot and changes nothing else, except on an
   * after-send event, which refuses with a `BadMethodCallException` and stays as it was.
   */
  function SetResponse(e: RouterEvent, r: Response): (eff: Effect<RouterEvent>)
    ensures eff.thrown.Some? <==> e.AfterSendEvent?
    ensures e.AfterSendEvent? ==> eff.after == e && eff.thrown == Some(BadMethodCallException(AlreadySent))
    ensures !e.AfterSendEvent? ==> eff.after.response == Some(r)
    ensures eff.after.request == e.request
    ensures eff.after.(response := e.response) == e
  {
    if e.AfterSendEvent? then Effect(e, Some(BadMethodCallException(AlreadySent)))
    else Effect(e.(response := Some(r)), None)
  }

  /** Of two `setResponse` calls the second one decides the response. */
  lemma SetResponseLastWriteWins(e: RouterEvent, r1: Response, r2: Response)
    ensures SetResponse(SetResponse(e, r1).after, r2) == SetResponse(e, r2)
  {
  }

  /** `ControllerLoadedEvent::setController`: replaces the controller, keeps request and response. */
  function SetController(e: RouterEvent, c: Controller): (r: RouterEvent)
    requires e.ControllerLoadedEvent?
    ensures r.ControllerLoadedEvent? && r.controller == c
    ensures r.request == e.request && r.response == e.response
  {
    ControllerLoadedEvent(e.request, c, e.response)
  }
}
