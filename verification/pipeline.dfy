/**
 * `Router::route` as a pure function over an abstract world: the URL matcher's
 * answer, the listeners, the classes and the action bodies are inputs, and the
 * result is the response sent (or the exception that escaped) together with the
 * names of the events dispatched along the way.
 *
 * Each stage may answer the request early: a listener that sets a response on
 * `router.request`, `router.controller_loaded` or `router.before_action`, a route
 * whose method does not match (405), a missing controller or action (404), a
 * non-public action (500), a missing parameter (400).
 */
module Pipeline {
  import opened Wrappers
  import opened Php
  import opened Http
  import opened Runtime
  import opened Events
  import opened Controllers
  import opened Routing

  const RequestName := "router.request"
  const ControllerLoadedName := "router.controller_loaded"
  const BeforeActionName := "router.before_action"
  const AfterActionName := "router.after_action"
  const BeforeSendName := "router.before_response_sent"
  const ResponseSentName := "router.response_sent"
  const InvalidHttpMethod := "Invalid http method"
  /** What PHP reports when an `\Error` is passed where `handleException` declares `\Exception`. */
  const HandlerArgument := "handleException(): Argument #1 ($e) must be of type Exception"

  /** What the listeners on one event name do with the event they are given. */
  datatype Reaction =
    | Silent
    | Respond(response: Response)
    | Raise(exception: Exception)
      /** `setController` on a controller-loaded event; nothing on any other event */
    | SwapController(controller: Controller)

  type Listeners = (string, RouterEvent) -> Reaction

  /** The URL matcher's answer: a route by name with its path parameters, or one of its two refusals. */
  datatype Match = Found(route: string, params: map<string, string>) | NotFound | MethodNotAllowed

  /** What calling an action did: returned (a response or something else) or threw; with its printed output. */
  datatype ActionOutcome =
    | Returned(result: Option<Response>, output: string)
    | Threw(exception: Exception, output: string)

  /** Everything outside the router that routing one request consults. */
  datatype World = World(
    matched: Match,
    listen: Listeners,
    classes: Classes,
    invoke: (Controller, string, seq<string>) -> ActionOutcome)

  /** An action call: the controller, the method and the bound arguments. */
  datatype Invocation = Invocation(controller: Controller, action: string, args: seq<string>)

  /**
   * The outcome of routing one request: the response sent or the exception that
   * escaped, the events dispatched in order, whether the controller factory was
   * asked for a controller, and the action call made, if any.
   */
  datatype Run = Run(
    outcome: Result<Response, Exception>,
    trace: seq<string>,
    factoryUsed: bool,
    invoked: Option<Invocation>)

  /** A request attribute, read as PHP interpolates it: a missing one is "". */
  function Attr(req: Request, key: string): string {
    if key in req.attributes then req.attributes[key] else ""
  }

  // ---------------------------------------------------------------------------
  // Dispatching events
  // ---------------------------------------------------------------------------

  /** One listener reaction applied to the event. */
  function React(reaction: Reaction, e: RouterEvent): (eff: Effect<RouterEvent>)
    ensures eff.after.request == e.request
    ensures e.response.Some? ==> eff.after.response.Some?
    ensures eff.thrown.Some? ==> eff.after == e
    ensures eff.after.AfterSendEvent? <==> e.AfterSendEvent?
    ensures reaction.Silent? ==> eff == Effect(e, None)
  {
    match reaction
    case Silent => Effect(e, None)
    case Respond(r) => SetResponse(e, r)
    case Raise(x) => Effect(e, Some(x))
    case SwapController(c) =>
      if e.ControllerLoadedEvent? then Effect(SetController(e, c), None) else Effect(e, None)
  }

  /**
   * The names one `dispatchEvent` fires: the name itself, then the name suffixed
   * with the `controller` attribute if the request has one, then suffixed with the
   * controller and the `action` attribute if it has both.
   */
  function EventNames(name: string, req: Request): (names: seq<string>)
    ensures 1 <= |names| <= 3 && names[0] == name
    ensures |names| >= 2 <==> "controller" in req.attributes
    ensures |names| == 3 <==> "controller" in req.attributes && "action" in req.attributes
    ensures |names| >= 2 ==> names[1] == name + "." + req.attributes["controller"]
    ensures |names| == 3 ==>
      names[2] == name + "." + req.attributes["controller"] + "." + req.attributes["action"]
  {
    if "controller" !in req.attributes then [name]
    else
      var c := req.attributes["controller"];
      if "action" !in req.attributes then [name, name + "." + c]
      else [name, name + "." + c, name + "." + c + "." + req.attributes["action"]]
  }

  /** The result of firing listeners: the event as they left it, the names fired, and what escaped. */
  datatype Fired = Fired(event: RouterEvent, fired: seq<string>, thrown: Option<Exception>)

  /** Fires the names in order; a listener that throws stops the rest. */
  function FireAll(listen: Listeners, names: seq<string>, e: RouterEvent): (d: Fired)
    ensures |d.fired| <= |names| && d.fired == names[..|d.fired|]
    ensures d.thrown.None? ==> d.fired == names
    ensures d.thrown.Some? ==> |d.fired| >= 1
    ensures d.event.request == e.request
    ensures e.response.Some? ==> d.event.response.Some?
    ensures d.event.AfterSendEvent? <==> e.AfterSendEvent?
    decreases |names|
  {
    if names == [] then Fired(e, [], None)
    else
      var eff := React(listen(names[0], e), e);
      if eff.thrown.Some? then Fired(eff.after, [names[0]], eff.thrown)
      else
        var rest := FireAll(listen, names[1..], eff.after);
        Fired(rest.event, [names[0]] + rest.fired, rest.thrown)
  }

  /** The result of one `dispatchEvent`. */
  datatype Dispatched = Dispatched(
    event: RouterEvent,
    trace: seq<string>,
    thrown: Option<Exception>,
    answer: Option<Response>)

  /**
   * Whether the error handler can be handed `x`. The interface declares
   * `handleException(\Exception $e)`; an `\Error` reaches it only when the
   * implementation widens the parameter to `\Throwable`, and otherwise the call
   * itself fails with a `TypeError`.
   */
  predicate Accepts(h: ErrorHandler, x: Exception) {
    !IsError(x) || h.takesThrowable
  }

  /**
   * `dispatchEvent`: fires the fanned-out names; an exception is handed to the
   * error handler, whose response is set on the event, or rethrown when there is
   * none. The event's response is the answer, except for `router.after_action`
   * and `router.response_sent`, which never answer.
   */
  function DispatchEvent(r: Router, listen: Listeners, name: string, e: RouterEvent): (d: Dispatched)
    ensures 1 <= |d.trace| <= |EventNames(name, e.request)|
    ensures d.trace == EventNames(name, e.request)[..|d.trace|]
    ensures d.trace[0] == name
    ensures d.event.request == e.request
    ensures e.response.Some? && d.thrown.None? ==> d.event.response.Some?
    ensures d.answer.Some? ==> d.thrown.None? && d.answer == d.event.response
    ensures d.answer.Some? ==> name != AfterActionName && name != ResponseSentName
    ensures d.thrown.None? && name != AfterActionName && name != ResponseSentName ==> d.answer == d.event.response
    ensures r.errorHandler.None? ==> d.thrown == FireAll(listen, EventNames(name, e.request), e).thrown
    ensures d.trace == FireAll(listen, EventNames(name, e.request), e).fired
    ensures var run := FireAll(listen, EventNames(name, e.request), e);
      run.thrown.None? ==> d.thrown.None? && d.event == run.event
    ensures var run := FireAll(listen, EventNames(name, e.request), e);
      run.thrown.Some? && r.errorHandler.Some? && !Accepts(r.errorHandler.value, run.thrown.value) ==>
        d.thrown == Some(TypeError(HandlerArgument)) && d.event == run.event
    ensures var run := FireAll(listen, EventNames(name, e.request), e);
      run.thrown.Some? && r.errorHandler.Some? && Accepts(r.errorHandler.value, run.thrown.value) &&
      r.errorHandler.value.handleException(run.thrown.value).Failure? ==>
        d.thrown == Some(r.errorHandler.value.handleException(run.thrown.value).error) && d.event == run.event
    ensures var run := FireAll(listen, EventNames(name, e.request), e);
      run.thrown.Some? && r.errorHandler.Some? && Accepts(r.errorHandler.value, run.thrown.value) &&
      r.errorHandler.value.handleException(run.thrown.value) == Success(None) ==>
        d.thrown.None? && d.event == run.event
    ensures var run := FireAll(listen, EventNames(name, e.request), e);
      run.thrown.Some? && r.errorHandler.Some? && Accepts(r.errorHandler.value, run.thrown.value) &&
      r.errorHandler.value.handleException(run.thrown.value).Success? &&
      r.errorHandler.value.handleException(run.thrown.value).value.Some? ==>
        if e.AfterSendEvent? then d.thrown == Some(BadMethodCallException(AlreadySent))
        else d.thrown.None? && d.event.response == r.errorHandler.value.handleException(run.thrown.value).value
  {
    var run := FireAll(listen, EventNames(name, e.request), e);
    var settled :=
      match run.thrown
      case None => Effect(run.event, None)
      case Some(x) =>
        match r.errorHandler
        case None => Effect(run.event, Some(x))
        case Some(h) =>
          if !Accepts(h, x) then Effect(run.event, Some(TypeError(HandlerArgument)))
          else match h.handleException(x)
          case Failure(y) => Effect(run.event, Some(y))
          case Success(None) => Effect(run.event, None)
          case Success(Some(resp)) => SetResponse(run.event, resp);
    var answer :=
      if settled.thrown.None? && settled.after.response.Some? && name != AfterActionName && name != ResponseSentName
      then settled.after.response else None;
    Dispatched(settled.after, run.fired, settled.thrown, answer)
  }

  /** Without listeners' involvement a dispatch fires every fanned-out name and answers nothing new. */
  lemma QuietDispatch(r: Router, listen: Listeners, name: string, e: RouterEvent)
    requires forall n :: listen(n, e) == Silent
    ensures DispatchEvent(r, listen, name, e) ==
      Dispatched(e, EventNames(name, e.request), None,
                 if name != AfterActionName && name != ResponseSentName then e.response else None)
  {
    FireAllQuiet(listen, EventNames(name, e.request), e);
  }

  /** Listeners that all stay silent fire every name and leave the event alone. */
  lemma {:induction false} FireAllQuiet(listen: Listeners, names: seq<string>, e: RouterEvent)
    requires forall i :: 0 <= i < |names| ==> listen(names[i], e) == Silent
    ensures FireAll(listen, names, e) == Fired(e, names, None)
    decreases |names|
  {
    if names != [] {
      assert forall i :: 1 <= i < |names| ==> names[i] == names[1..][i - 1];
      FireAllQuiet(listen, names[1..], e);
    }
  }

  /** A listener setting the response of an after-send event always ends in `BadMethodCallException`. */
  lemma ResponseSentCannotBeReplaced(r: Router, listen: Listeners, req: Request, resp: Response, x: Response)
    requires listen(ResponseSentName, NewAfterSendEvent(req, resp)) == Respond(x)
    requires r.errorHandler.Some? ==>
      && r.errorHandler.value.handleException(BadMethodCallException(AlreadySent)).Success?
      && r.errorHandler.value.handleException(BadMethodCallException(AlreadySent)).value.Some?
    ensures DispatchEvent(r, listen, ResponseSentName, NewAfterSendEvent(req, resp)).thrown
         == Some(BadMethodCallException(AlreadySent))
  {
  }

  /**
   * `handleError`: the error handler's page, or a bare response with the standard
   * reason phrase; a handler that fails makes `handleError` fail.
   */
  function HandleError(r: Router, message: string, code: int): (page: Result<Response, Exception>)
    ensures r.errorHandler.None? ==> page == Success(Response(StatusText(code), code))
    ensures r.errorHandler.Some? ==> page == r.errorHandler.value.displayErrorPage(code, message)
  {
    match r.errorHandler
    case None => Success(Response(StatusText(code), code))
    case Some(h) => h.displayErrorPage(code, message)
  }

  // ---------------------------------------------------------------------------
  // Choosing and calling the action
  // ---------------------------------------------------------------------------

  /**
   * `matchAction`: the action is the path after its last `/` (the whole path but
   * its first character when there is no `/`), or `index` when that reads as
   * false. It is stored as the `action` attribute; the method is the action with
   * `Action` appended, if the controller has it.
   */
  function MatchAction(classes: Classes, c: Controller, req: Request): (r: (Option<string>, Request))
    ensures "action" in r.1.attributes
    ensures r.1 == req.SetAttribute("action", r.1.attributes["action"])
    ensures Truthy(r.1.attributes["action"])
    ensures r.0.Some? <==> classes.methodOf(c.cls, r.1.attributes["action"] + "Action").Some?
    ensures r.0.Some? ==> r.0.value == r.1.attributes["action"] + "Action"
  {
    var path := req.pathInfo;
    var start := match LastIndexOf(path, '/') case None => 1 case Some(i) => i + 1;
    var tail := if start <= |path| then path[start..] else "";
    var action := if Truthy(tail) then tail else "index";
    var name := action + "Action";
    (if classes.methodOf(c.cls, name).Some? then Some(name) else None, req.SetAttribute("action", action))
  }

  /** The action named by a path `prefix/tail`: the tail, or `index` when the tail reads as false. */
  lemma {:induction false} ActionFromLastSegment(classes: Classes, c: Controller, req: Request, prefix: string, tail: string)
    requires req.pathInfo == prefix + "/" + tail && '/' !in tail
    ensures MatchAction(classes, c, req).1.attributes["action"] == if Truthy(tail) then tail else "index"
  {
    var path := req.pathInfo;
    assert path[|prefix|] == '/';
    assert forall j :: |prefix| < j < |path| ==> path[j] == tail[j - |prefix| - 1];
    assert LastIndexOf(path, '/') == Some(|prefix|) by {
      LastIndexOfIs(path, '/', |prefix|);
    }
    assert path[|prefix| + 1..] == tail;
  }

  /**
   * Binds the action's parameters by name, in declaration order: a parameter the
   * request lacks takes its default, and a required one that is missing is
   * reported by name.
   */
  function BindParams(params: seq<Param>, req: Request): (r: Result<seq<string>, string>)
    ensures r.Success? <==> forall i :: 0 <= i < |params| ==> req.Get(params[i].name).Some? || params[i].default.Some?
    ensures r.Success? ==> |r.value| == |params|
    ensures r.Success? ==> forall i :: 0 <= i < |params| ==>
      r.value[i] == req.Get(params[i].name).GetOr(params[i].default.GetOr(""))
    ensures r.Failure? ==> exists i :: (
      && 0 <= i < |params| && params[i].name == r.error
      && req.Get(params[i].name).None? && params[i].default.None?
      && forall j :: 0 <= j < i ==> req.Get(params[j].name).Some? || params[j].default.Some?)
  {
    if params == [] then Success([])
    else
      var p := params[0];
      var value := req.Get(p.name);
      if value.None? && p.default.None? then Failure(p.name)
      else
        match BindParams(params[1..], req)
        case Failure(missing) =>
          assert forall i :: 1 <= i < |params| ==> params[i] == params[1..][i - 1];
          Failure(missing)
        case Success(rest) =>
          var bound := if value.Some? then value.value else p.default.value;
          assert forall i :: 1 <= i < |params| ==> params[i] == params[1..][i - 1];
          Success([bound] + rest)
  }

  /** The result of `invokeAction`: a response or an escaped exception, the events fired, the call made. */
  datatype Invoked = Invoked(outcome: Result<Response, Exception>, trace: seq<string>, invoked: Option<Invocation>)

  /**
   * `invokeAction`: reflection fails on a method the controller lacks; a
   * non-public method is a 500; then `router.before_action` may answer in the
   * action's place; a missing required parameter is a 400; the action's exception
   * goes to the error handler or escapes, and an `\Error` such as a `TypeError`
   * always escapes, since only `\Exception` is caught there; a non-response result becomes a 200
   * response carrying the printed output; `router.after_action` may replace it.
   */
  function InvokeAction(r: Router, w: World, c: Controller, m: string, req: Request): (inv: Invoked)
    ensures inv.invoked.Some? ==> inv.invoked.value.controller == c && inv.invoked.value.action == m
    ensures inv.invoked.Some? ==>
      && w.classes.methodOf(c.cls, m).Some?
      && w.classes.methodOf(c.cls, m).value.isPublic
      && BindParams(w.classes.methodOf(c.cls, m).value.params, req) == Success(inv.invoked.value.args)
    ensures w.classes.methodOf(c.cls, m).None? ==>
      inv == Invoked(Failure(ReflectionException("Method " + c.cls + "::" + m + "() does not exist")), [], None)
    ensures inv.invoked.Some? && w.invoke(c, m, inv.invoked.value.args).Threw? ==>
      var x := w.invoke(c, m, inv.invoked.value.args).exception;
      (r.errorHandler.None? || IsError(x)) ==> inv.outcome == Failure(x)
    ensures inv.invoked.Some? && w.invoke(c, m, inv.invoked.value.args).Threw? ==>
      var x := w.invoke(c, m, inv.invoked.value.args).exception;
      r.errorHandler.Some? && !IsError(x) && r.errorHandler.value.handleException(x).Failure? ==>
        inv.outcome == Failure(r.errorHandler.value.handleException(x).error)
  {
    match w.classes.methodOf(c.cls, m)
    case None => Invoked(Failure(ReflectionException("Method " + c.cls + "::" + m + "() does not exist")), [], None)
    case Some(info) =>
      if !info.isPublic then
        var message := "Method '" + m + "' on " + Attr(req, "controller") + "Controller is not public";
        Invoked(HandleError(r, message, 500), [], None)
      else
        var before := DispatchEvent(r, w.listen, BeforeActionName, BeforeActionEvent(req, c, m, None));
        if before.thrown.Some? then Invoked(Failure(before.thrown.value), before.trace, None)
        else if before.answer.Some? then Invoked(Success(before.answer.value), before.trace, None)
        else match BindParams(info.params, req)
          case Failure(missing) =>
            var message := "Missing required parameter '" + missing + "'";
            Invoked(HandleError(r, message, 400), before.trace, None)
          case Success(args) =>
            var call := Invocation(c, m, args);
            var outcome := w.invoke(c, m, args);
            var handled: Result<Option<Response>, Exception> :=
              match outcome
              case Returned(result, _) => Success(result)
              case Threw(x, _) =>
                if r.errorHandler.Some? && !IsError(x) then r.errorHandler.value.handleException(x)
                else Failure(x);
            match handled
            case Failure(x) => Invoked(Failure(x), before.trace, Some(call))
            case Success(result) =>
              var resp := if result.Some? then result.value else Response(outcome.output, 200);
              var after := DispatchEvent(r, w.listen, AfterActionName, AfterActionEvent(req, Some(resp)));
              if after.thrown.Some? then Invoked(Failure(after.thrown.value), before.trace + after.trace, Some(call))
              else Invoked(Success(after.event.response.value), before.trace + after.trace, Some(call))
  }

  // ---------------------------------------------------------------------------
  // Sending and routing
  // ---------------------------------------------------------------------------

  /** The result of `sendResponse`: the events fired and what escaped. */
  datatype Sent = Sent(thrown: Option<Exception>, trace: seq<string>)

  /**
   * `sendResponse`: `router.before_response_sent` is dispatched plainly (no
   * fan-out, no error handling, its response unread), the response is sent, then
   * `router.response_sent` is dispatched.
   */
  function SendResponse(r: Router, listen: Listeners, req: Request, resp: Response): (s: Sent)
    ensures 1 <= |s.trace| <= 4 && s.trace[0] == BeforeSendName
    ensures |s.trace| >= 2 ==> s.trace[1] == ResponseSentName
    ensures |s.trace| <= 1 + |EventNames(ResponseSentName, req)|
    ensures s.trace == [BeforeSendName] + EventNames(ResponseSentName, req)[..|s.trace| - 1]
    ensures r.errorHandler.None? && s.thrown.None? ==>
      s.trace == [BeforeSendName] + EventNames(ResponseSentName, req)
  {
    var before := BeforeSendEvent(req, Some(resp));
    var eff := React(listen(BeforeSendName, before), before);
    if eff.thrown.Some? then Sent(eff.thrown, [BeforeSendName])
    else
      var d := DispatchEvent(r, listen, ResponseSentName, NewAfterSendEvent(req, resp));
      Sent(d.thrown, [BeforeSendName] + d.trace)
  }

  /** Routing ends with an error page: it is sent, unless producing it failed. */
  function FinishPage(r: Router, w: World, req: Request, page: Result<Response, Exception>, trace: seq<string>,
                      factoryUsed: bool): (run: Run)
    ensures page.Failure? ==> run == Run(Failure(page.error), trace, factoryUsed, None)
    ensures page.Success? ==> run == Finish(r, w, req, page.value, trace, factoryUsed, None)
  {
    match page
    case Failure(y) => Run(Failure(y), trace, factoryUsed, None)
    case Success(resp) => Finish(r, w, req, resp, trace, factoryUsed, None)
  }

  /** Routing ends by sending `resp`: the run answers `resp` unless sending threw. */
  function Finish(r: Router, w: World, req: Request, resp: Response, trace: seq<string>,
                  factoryUsed: bool, invoked: Option<Invocation>): (run: Run)
    ensures run.outcome.Success? ==> run.outcome.value == resp
    ensures |run.trace| > |trace| && run.trace[..|trace|] == trace
    ensures run.factoryUsed == factoryUsed && run.invoked == invoked
  {
    var s := SendResponse(r, w.listen, req, resp);
    Run(if s.thrown.Some? then Failure(s.thrown.value) else Success(resp), trace + s.trace, factoryUsed, invoked)
  }

  /**
   * The part of `route` after the controller name is known: look the controller
   * up, dispatch `router.controller_loaded`, choose the action (unless the route
   * named one), invoke it and send the response. The controller invoked is always
   * the one the factory made, whatever the listeners set on the event.
   */
  function Load(r: Router, w: World, req: Request, name: string, explicit: Option<string>, trace: seq<string>)
    : (run: Run)
    ensures run.factoryUsed
    ensures |run.trace| >= |trace| && run.trace[..|trace|] == trace
    ensures run.outcome.Success? ==> |run.trace| > |trace|
    ensures run.invoked.Some? ==> GetController(r.factory, w.classes, name) == Some(run.invoked.value.controller)
    ensures run.invoked.Some? && explicit.Some? && Truthy(explicit.value) ==> run.invoked.value.action == explicit.value
    ensures GetController(r.factory, w.classes, name).None? && r.errorHandler.None? ==>
      run.invoked.None? && (run.outcome.Success? ==> run.outcome.value == Response(StatusText(404), 404))
  {
    var req1 := req.SetAttribute("controller", name);
    match GetController(r.factory, w.classes, name)
    case None =>
      FinishPage(r, w, req1, HandleError(r, "Unable to load " + Attr(req1, "controller") + "Controller.", 404), trace, true)
    case Some(c) =>
      var loaded := DispatchEvent(r, w.listen, ControllerLoadedName, NewControllerLoadedEvent(req1, c));
      var trace1 := trace + loaded.trace;
      var run :=
        if loaded.thrown.Some? then Run(Failure(loaded.thrown.value), trace1, true, None)
        else if loaded.answer.Some? then Finish(r, w, req1, loaded.answer.value, trace1, true, None)
        else RunAction(r, w, c, req1, explicit, trace1);
      TraceExtends(run.trace, trace, loaded.trace);
      run
  }

  /** A trace that starts with `a + b` starts with `a`. */
  lemma TraceExtends(t: seq<string>, a: seq<string>, b: seq<string>)
    requires |t| >= |a + b| && t[..|a + b|] == a + b
    ensures t[..|a|] == a
  {
    assert t[..|a|] == t[..|a + b|][..|a|];
  }

  /**
   * The part of `Load` after `router.controller_loaded` passed quietly: choose the
   * action (unless the route named one), invoke it on `c` and send the response.
   */
  function RunAction(r: Router, w: World, c: Controller, req1: Request, explicit: Option<string>, trace1: seq<string>)
    : (run: Run)
    ensures run.factoryUsed
    ensures |run.trace| >= |trace1| && run.trace[..|trace1|] == trace1
    ensures run.invoked.Some? ==> run.invoked.value.controller == c
    ensures run.invoked.Some? && explicit.Some? && Truthy(explicit.value) ==> run.invoked.value.action == explicit.value
  {
    var chosen := if explicit.Some? && Truthy(explicit.value) then (explicit, req1) else MatchAction(w.classes, c, req1);
    var req2 := chosen.1;
    match chosen.0
    case None =>
      var message := "Method " + Attr(req2, "action") + " not found on " + Attr(req2, "controller") + "Controller";
      FinishPage(r, w, req2, HandleError(r, message, 404), trace1, true)
    case Some(m) =>
      var inv := InvokeAction(r, w, c, m, req2);
      match inv.outcome
      case Failure(x) => Run(Failure(x), trace1 + inv.trace, true, inv.invoked)
      case Success(resp) => Finish(r, w, req2, resp, trace1 + inv.trace, true, inv.invoked)
  }

  /** The request attributes a matched route contributes: its defaults, overridden by the path parameters and `_route`. */
  function MatchAttributes(route: RouteDef, name: string, params: map<string, string>): (attrs: map<string, string>)
    ensures attrs.Keys == route.defaults.Keys + params.Keys + {"_route"}
    ensures attrs["_route"] == name
    ensures forall k :: k in params && k != "_route" ==> attrs[k] == params[k]
    ensures forall k :: k in route.defaults && k !in params && k != "_route" ==> attrs[k] == route.defaults[k]
  {
    route.defaults + params + map["_route" := name]
  }

  /**
   * `route`: dispatches `router.request`, asks the matcher, derives the controller
   * name from the matched `_controller` or, with no matching route, from the URL,
   * and continues with `Load`. A method mismatch is answered with 405 at once.
   */
  function Route(r: Router, w: World, req: Request): (run: Run)
    requires WellFormed(r)
    requires w.matched.Found? ==> w.matched.route in r.routes
    ensures |run.trace| >= 1 && run.trace[0] == RequestName
    ensures run.invoked.Some? ==> run.factoryUsed
    ensures w.matched.NotFound? && run.invoked.Some? ==>
      GetController(r.factory, w.classes, ControllerName(req.pathInfo, req.baseUrl)) == Some(run.invoked.value.controller)
    ensures w.matched.Found? && run.invoked.Some? ==>
      var target := MatchedTarget(r.routes[w.matched.route], w.matched.route, w.matched.params);
      && GetController(r.factory, w.classes, target.0) == Some(run.invoked.value.controller)
      && (target.1.Some? ==> run.invoked.value.action == ActionMethodName(target.1.value))
  {
    var d := DispatchEvent(r, w.listen, RequestName, RequestEvent(req, None));
    if d.thrown.Some? then Run(Failure(d.thrown.value), d.trace, false, None)
    else if d.answer.Some? then Finish(r, w, req, d.answer.value, d.trace, false, None)
    else match w.matched
      case MethodNotAllowed => Finish(r, w, req, Response(InvalidHttpMethod, 405), d.trace, false, None)
      case NotFound => Load(r, w, req, ControllerName(req.pathInfo, req.baseUrl), None, d.trace)
      case Found(name, params) => LoadMatched(r, w, req, name, params, d.trace)
  }

  /** The controller and the action a matched route's `_controller` attribute names. */
  function MatchedTarget(route: RouteDef, name: string, params: map<string, string>): (string, Option<string>)
    requires ControllerKey in route.defaults
  {
    SplitController(MatchAttributes(route, name, params)[ControllerKey])
  }

  /**
   * A matched route: its attributes join the request's, and its `_controller`
   * names the controller and, after `::`, the action method.
   */
  function LoadMatched(r: Router, w: World, req: Request, name: string, params: map<string, string>,
                       trace: seq<string>): (run: Run)
    requires WellFormed(r) && name in r.routes
    ensures run.factoryUsed
    ensures |run.trace| >= |trace| && run.trace[..|trace|] == trace
    ensures run.outcome.Success? ==> |run.trace| > |trace|
    ensures run.invoked.Some? ==>
      var target := MatchedTarget(r.routes[name], name, params);
      && GetController(r.factory, w.classes, target.0) == Some(run.invoked.value.controller)
      && (target.1.Some? ==> run.invoked.value.action == ActionMethodName(target.1.value))
  {
    var attrs := MatchAttributes(r.routes[name], name, params);
    var split := MatchedTarget(r.routes[name], name, params);
    ActionMethodNameTruthy(if split.1.Some? then split.1.value else "");
    var explicit := if split.1.Some? then Some(ActionMethodName(split.1.value)) else None;
    Load(r, w, req.(attributes := req.attributes + attrs), split.0, explicit, trace)
  }
}
