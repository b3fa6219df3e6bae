/**
 * What `Router::route` promises, stated over the pipeline model: who answers a
 * request when a stage short-circuits, which status each failure maps to, and
 * the exact events dispatched for the site root.
 */
module RouteProperties {
  import opened Wrappers
  import opened Php
  import opened Http
  import opened Runtime
  import opened Events
  import opened Controllers
  import opened Routing
  import opened Pipeline

  /** `router.request` dispatched on the incoming request neither throws nor answers. */
  predicate RequestPasses(r: Router, w: World, req: Request) {
    var d := DispatchEvent(r, w.listen, RequestName, RequestEvent(req, None));
    d.thrown.None? && d.answer.None?
  }

  /**
   * A `router.request` listener that sets a response answers the request: the
   * controller factory is never consulted and no action runs.
   */
  lemma RequestListenerAnswers(r: Router, w: World, req: Request, resp: Response)
    requires WellFormed(r) && (w.matched.Found? ==> w.matched.route in r.routes)
    requires "controller" !in req.attributes
    requires w.listen(RequestName, RequestEvent(req, None)) == Respond(resp)
    ensures !Route(r, w, req).factoryUsed && Route(r, w, req).invoked.None?
    ensures Route(r, w, req).outcome.Success? ==> Route(r, w, req).outcome.value == resp
  {
    RequestDispatchAnswers(r, w, req, resp);
  }

  /** The request listener's response is what the `router.request` dispatch answers. */
  lemma RequestDispatchAnswers(r: Router, w: World, req: Request, resp: Response)
    requires "controller" !in req.attributes
    requires w.listen(RequestName, RequestEvent(req, None)) == Respond(resp)
    ensures DispatchEvent(r, w.listen, RequestName, RequestEvent(req, None))
         == Dispatched(RequestEvent(req, Some(resp)), [RequestName], None, Some(resp))
  {
    var names := EventNames(RequestName, req);
    assert names == [RequestName];
    assert FireAll(w.listen, names, RequestEvent(req, None)) == Fired(RequestEvent(req, Some(resp)), names, None) by {
      assert names[1..] == [];
    }
  }

  /**
   * Replacing the response on `router.before_response_sent` changes nothing: the
   * response sent is still the one the request listener chose.
   */
  lemma BeforeSendReplacementIgnored(r: Router, w: World, req: Request, resp: Response, other: Response)
    requires WellFormed(r) && (w.matched.Found? ==> w.matched.route in r.routes)
    requires "controller" !in req.attributes
    requires w.listen(RequestName, RequestEvent(req, None)) == Respond(resp)
    requires w.listen(BeforeSendName, BeforeSendEvent(req, Some(resp))) == Respond(other)
    requires w.listen(ResponseSentName, NewAfterSendEvent(req, resp)) == Silent
    ensures Route(r, w, req).outcome == Success(resp)
  {
    RequestDispatchAnswers(r, w, req, resp);
    assert EventNames(ResponseSentName, req) == [ResponseSentName];
    FireAllQuiet(w.listen, [ResponseSentName], NewAfterSendEvent(req, resp));
  }

  /** A route that matches the path but not the method is answered with 405, bypassing any error handler. */
  lemma MethodNotAllowedIs405(r: Router, w: World, req: Request)
    requires WellFormed(r) && w.matched == MethodNotAllowed
    requires RequestPasses(r, w, req)
    ensures !Route(r, w, req).factoryUsed && Route(r, w, req).invoked.None?
    ensures Route(r, w, req).outcome.Success? ==>
      Route(r, w, req).outcome.value == Response("Invalid http method", 405)
  {
  }

  /** When no namespace has the controller the URL names, the answer is the 404 error. */
  lemma MissingControllerIs404(r: Router, w: World, req: Request)
    requires WellFormed(r) && w.matched == NotFound
    requires RequestPasses(r, w, req)
    requires GetController(r.factory, w.classes, ControllerName(req.pathInfo, req.baseUrl)).None?
    ensures Route(r, w, req).invoked.None?
    ensures var page := HandleError(r, "Unable to load " + ControllerName(req.pathInfo, req.baseUrl) + "Controller.", 404);
      Route(r, w, req).outcome.Success? ==> page == Success(Route(r, w, req).outcome.value)
    ensures var page := HandleError(r, "Unable to load " + ControllerName(req.pathInfo, req.baseUrl) + "Controller.", 404);
      page.Failure? ==> Route(r, w, req).outcome == Failure(page.error)
  {
  }

  /** A non-public action method is a 500, decided before `router.before_action` is dispatched. */
  lemma NonPublicActionIs500(r: Router, w: World, c: Controller, m: string, req: Request)
    requires w.classes.methodOf(c.cls, m).Some? && !w.classes.methodOf(c.cls, m).value.isPublic
    ensures InvokeAction(r, w, c, m, req).trace == [] && InvokeAction(r, w, c, m, req).invoked.None?
    ensures r.errorHandler.None? ==>
      InvokeAction(r, w, c, m, req).outcome == Success(Response("Internal Server Error", 500))
  {
  }

  /** The names one dispatch fans out to after the first are all longer than the first. */
  lemma FanOutNamesLonger(name: string, req: Request)
    ensures forall i :: 1 <= i < |EventNames(name, req)| ==> |EventNames(name, req)[i]| > |name|
  {
  }

  /**
   * A `router.before_action` listener that sets a response answers in the action's
   * place: the action is not called.
   */
  lemma BeforeActionAnswers(r: Router, w: World, c: Controller, m: string, req: Request, x: Response)
    requires w.classes.methodOf(c.cls, m).Some? && w.classes.methodOf(c.cls, m).value.isPublic
    requires w.listen(BeforeActionName, BeforeActionEvent(req, c, m, None)) == Respond(x)
    requires forall n :: n != BeforeActionName ==> w.listen(n, BeforeActionEvent(req, c, m, Some(x))) == Silent
    ensures InvokeAction(r, w, c, m, req).outcome == Success(x)
    ensures InvokeAction(r, w, c, m, req).invoked.None?
  {
    var names := EventNames(BeforeActionName, req);
    FanOutNamesLonger(BeforeActionName, req);
    FireAllQuiet(w.listen, names[1..], BeforeActionEvent(req, c, m, Some(x)));
  }

  /**
   * A required parameter the request does not carry is a 400, and the action is
   * not called.
   */
  lemma MissingParameterIs400(r: Router, w: World, c: Controller, m: string, req: Request, i: nat)
    requires w.classes.methodOf(c.cls, m).Some? && w.classes.methodOf(c.cls, m).value.isPublic
    requires var d := DispatchEvent(r, w.listen, BeforeActionName, BeforeActionEvent(req, c, m, None));
             d.thrown.None? && d.answer.None?
    requires var ps := w.classes.methodOf(c.cls, m).value.params;
             i < |ps| && req.Get(ps[i].name).None? && ps[i].default.None?
    ensures InvokeAction(r, w, c, m, req).invoked.None?
    ensures var missing := BindParams(w.classes.methodOf(c.cls, m).value.params, req);
      missing.Failure? && InvokeAction(r, w, c, m, req).outcome
                          == HandleError(r, "Missing required parameter '" + missing.error + "'", 400)
    ensures r.errorHandler.None? ==> InvokeAction(r, w, c, m, req).outcome == Success(Response("Bad Request", 400))
  {
    assert BindParams(w.classes.methodOf(c.cls, m).value.params, req).Failure?;
  }

  /** Without an error handler, an exception thrown by the action escapes `route`. */
  lemma ActionExceptionEscapes(r: Router, w: World, c: Controller, m: string, req: Request,
                               args: seq<string>, x: Exception, out: string)
    requires r.errorHandler.None?
    requires w.classes.methodOf(c.cls, m).Some? && w.classes.methodOf(c.cls, m).value.isPublic
    requires var d := DispatchEvent(r, w.listen, BeforeActionName, BeforeActionEvent(req, c, m, None));
             d.thrown.None? && d.answer.None?
    requires BindParams(w.classes.methodOf(c.cls, m).value.params, req) == Success(args)
    requires w.invoke(c, m, args) == Threw(x, out)
    ensures InvokeAction(r, w, c, m, req).outcome == Failure(x)
    ensures InvokeAction(r, w, c, m, req).invoked == Some(Invocation(c, m, args))
  {
  }

  /**
   * An error handler catches an action's `\Exception`: its response stands in for
   * the action's, and the after-action listeners see that response.
   */
  lemma HandledExceptionBecomesResponse(r: Router, w: World, c: Controller, m: string, req: Request,
                                        args: seq<string>, x: Exception, out: string, resp: Response)
    requires r.errorHandler.Some? && !IsError(x)
    requires r.errorHandler.value.handleException(x) == Success(Some(resp))
    requires w.classes.methodOf(c.cls, m).Some? && w.classes.methodOf(c.cls, m).value.isPublic
    requires var d := DispatchEvent(r, w.listen, BeforeActionName, BeforeActionEvent(req, c, m, None));
             d.thrown.None? && d.answer.None?
    requires BindParams(w.classes.methodOf(c.cls, m).value.params, req) == Success(args)
    requires w.invoke(c, m, args) == Threw(x, out)
    requires forall n :: w.listen(n, AfterActionEvent(req, Some(resp))) == Silent
    ensures InvokeAction(r, w, c, m, req).outcome == Success(resp)
    ensures InvokeAction(r, w, c, m, req).invoked == Some(Invocation(c, m, args))
  {
    QuietDispatch(r, w.listen, AfterActionName, AfterActionEvent(req, Some(resp)));
  }

  /**
   * An error handler that throws from `handleException` (rethrowing the action's
   * exception, say) lets that exception escape; the after-action event is not dispatched.
   */
  lemma HandlerThrowEscapes(r: Router, w: World, c: Controller, m: string, req: Request,
                            args: seq<string>, x: Exception, out: string, y: Exception)
    requires r.errorHandler.Some? && !IsError(x)
    requires r.errorHandler.value.handleException(x) == Failure(y)
    requires w.classes.methodOf(c.cls, m).Some? && w.classes.methodOf(c.cls, m).value.isPublic
    requires var d := DispatchEvent(r, w.listen, BeforeActionName, BeforeActionEvent(req, c, m, None));
             d.thrown.None? && d.answer.None?
    requires BindParams(w.classes.methodOf(c.cls, m).value.params, req) == Success(args)
    requires w.invoke(c, m, args) == Threw(x, out)
    ensures InvokeAction(r, w, c, m, req).outcome == Failure(y)
    ensures InvokeAction(r, w, c, m, req).trace
         == DispatchEvent(r, w.listen, BeforeActionName, BeforeActionEvent(req, c, m, None)).trace
  {
  }

  /**
   * A `TypeError` thrown by the action is an `\Error`: it escapes `route` even
   * when an error handler is installed, whatever that handler would answer.
   */
  lemma ActionTypeErrorEscapesHandler(r: Router, w: World, c: Controller, m: string, req: Request,
                                      args: seq<string>, msg: string, out: string)
    requires r.errorHandler.Some?
    requires w.classes.methodOf(c.cls, m).Some? && w.classes.methodOf(c.cls, m).value.isPublic
    requires var d := DispatchEvent(r, w.listen, BeforeActionName, BeforeActionEvent(req, c, m, None));
             d.thrown.None? && d.answer.None?
    requires BindParams(w.classes.methodOf(c.cls, m).value.params, req) == Success(args)
    requires w.invoke(c, m, args) == Threw(TypeError(msg), out)
    ensures InvokeAction(r, w, c, m, req).outcome == Failure(TypeError(msg))
    ensures InvokeAction(r, w, c, m, req).invoked == Some(Invocation(c, m, args))
  {
  }

  /**
   * An action that returns something other than a response is answered with a 200
   * response whose body is what the action printed.
   */
  lemma ActionResultBecomesResponse(r: Router, w: World, c: Controller, m: string, req: Request,
                                    args: seq<string>, out: string)
    requires w.classes.methodOf(c.cls, m).Some? && w.classes.methodOf(c.cls, m).value.isPublic
    requires var d := DispatchEvent(r, w.listen, BeforeActionName, BeforeActionEvent(req, c, m, None));
             d.thrown.None? && d.answer.None?
    requires BindParams(w.classes.methodOf(c.cls, m).value.params, req) == Success(args)
    requires w.invoke(c, m, args).Returned? && w.invoke(c, m, args).result.None?
    requires w.invoke(c, m, args).output == out
    requires forall n :: w.listen(n, AfterActionEvent(req, Some(Response(out, 200)))) == Silent
    ensures InvokeAction(r, w, c, m, req).outcome == Success(Response(out, 200))
  {
    QuietDispatch(r, w.listen, AfterActionName, AfterActionEvent(req, Some(Response(out, 200))));
  }

  /**
   * A `router.after_action` listener that sets a response replaces the action's
   * response, although `router.after_action` never answers a dispatch.
   */
  lemma AfterActionReplaces(r: Router, w: World, c: Controller, m: string, req: Request,
                            args: seq<string>, resp: Response, y: Response)
    requires w.classes.methodOf(c.cls, m).Some? && w.classes.methodOf(c.cls, m).value.isPublic
    requires var d := DispatchEvent(r, w.listen, BeforeActionName, BeforeActionEvent(req, c, m, None));
             d.thrown.None? && d.answer.None?
    requires BindParams(w.classes.methodOf(c.cls, m).value.params, req) == Success(args)
    requires w.invoke(c, m, args).Returned? && w.invoke(c, m, args).result == Some(resp)
    requires w.listen(AfterActionName, AfterActionEvent(req, Some(resp))) == Respond(y)
    requires forall n :: n != AfterActionName ==> w.listen(n, AfterActionEvent(req, Some(y))) == Silent
    ensures InvokeAction(r, w, c, m, req).outcome == Success(y)
    ensures DispatchEvent(r, w.listen, AfterActionName, AfterActionEvent(req, Some(resp))).answer.None?
  {
    var names := EventNames(AfterActionName, req);
    FanOutNamesLonger(AfterActionName, req);
    FireAllQuiet(w.listen, names[1..], AfterActionEvent(req, Some(y)));
  }

  /** No listener does anything, on any event. */
  ghost predicate NoListeners(w: World) {
    forall n, e :: w.listen(n, e) == Silent
  }

  /** The site root selects the `index` action, stored as the `action` attribute. */
  lemma RootSelectsIndex(classes: Classes, c: Controller, req: Request)
    requires req.pathInfo == "/"
    ensures MatchAction(classes, c, req).1 == req.SetAttribute("action", "index")
    ensures MatchAction(classes, c, req).0.Some? <==> classes.methodOf(c.cls, "indexAction").Some?
    ensures MatchAction(classes, c, req).0.Some? ==> MatchAction(classes, c, req).0.value == "indexAction"
  {
    var path := req.pathInfo;
    assert LastIndexOf(path, '/') == Some(0);
    assert path[1..] == "";
    assert "index" + "Action" == "indexAction";
  }

  /** On a request whose controller is `Index` and whose action is `index`, every dispatch fans out to three names. */
  lemma IndexFanOut(name: string, req2: Request)
    requires req2.attributes == map["controller" := "Index", "action" := "index"]
    ensures EventNames(name, req2) == [name, name + ".Index", name + ".Index.index"]
  {
    assert name + "." + "Index" == name + ".Index";
    assert name + "." + "Index" + "." + "index" == name + ".Index.index";
  }

  /** With no listeners, sending `resp` fires the plain before-send name and the three after-send names. */
  lemma RootSendsQuietly(r: Router, w: World, req2: Request, resp: Response)
    requires NoListeners(w)
    requires req2.attributes == map["controller" := "Index", "action" := "index"]
    ensures SendResponse(r, w.listen, req2, resp) == Sent(None,
      [BeforeSendName, ResponseSentName, ResponseSentName + ".Index", ResponseSentName + ".Index.index"])
  {
    QuietDispatch(r, w.listen, ResponseSentName, NewAfterSendEvent(req2, resp));
    assert w.listen(BeforeSendName, BeforeSendEvent(req2, Some(resp))) == Silent;
    IndexFanOut(ResponseSentName, req2);
  }

  /** With no listeners, `indexAction` runs with no arguments and its output becomes a 200 response. */
  lemma RootInvokesIndex(r: Router, w: World, req2: Request, c: Controller, out: string)
    requires NoListeners(w)
    requires req2.attributes == map["controller" := "Index", "action" := "index"]
    requires w.classes.methodOf(c.cls, "indexAction") == Some(MethodInfo(true, []))
    requires w.invoke(c, "indexAction", []) == Returned(None, out)
    ensures InvokeAction(r, w, c, "indexAction", req2) == Invoked(
      Success(Response(out, 200)),
      [BeforeActionName, BeforeActionName + ".Index", BeforeActionName + ".Index.index",
       AfterActionName, AfterActionName + ".Index", AfterActionName + ".Index.index"],
      Some(Invocation(c, "indexAction", [])))
  {
    QuietDispatch(r, w.listen, BeforeActionName, BeforeActionEvent(req2, c, "indexAction", None));
    assert BindParams([], req2) == Success([]);
    QuietDispatch(r, w.listen, AfterActionName, AfterActionEvent(req2, Some(Response(out, 200))));
    IndexFanOut(BeforeActionName, req2);
    IndexFanOut(AfterActionName, req2);
  }

  /** With no listeners and no routes, the site root is handed to `IndexController` with no action chosen yet. */
  lemma RootLoadsIndex(r: Router, w: World, req: Request)
    requires WellFormed(r) && w.matched == NotFound && NoListeners(w)
    requires req.pathInfo == "/" && req.baseUrl == "" && req.attributes == map[]
    ensures Route(r, w, req) == Load(r, w, req, "Index", None, [RequestName])
  {
    RootPathsNameIndex();
    QuietDispatch(r, w.listen, RequestName, RequestEvent(req, None));
  }

  /** The names fired before sending, for the site root served by `indexAction`. */
  const RootActionTrace := [
    RequestName,
    ControllerLoadedName, ControllerLoadedName + ".Index",
    BeforeActionName, BeforeActionName + ".Index", BeforeActionName + ".Index.index",
    AfterActionName, AfterActionName + ".Index", AfterActionName + ".Index.index"]

  /** The request name, the two loading names and the six action names make up the root trace. */
  lemma RootTraceJoins(loaded: seq<string>, acted: seq<string>)
    requires loaded == [ControllerLoadedName, ControllerLoadedName + ".Index"]
    requires acted == [BeforeActionName, BeforeActionName + ".Index", BeforeActionName + ".Index.index",
                       AfterActionName, AfterActionName + ".Index", AfterActionName + ".Index.index"]
    ensures [RequestName] + loaded + acted == RootActionTrace
  {
  }

  /** At the site root, `IndexController` is loaded quietly under two names and `indexAction` is chosen. */
  lemma RootLoadsQuietly(r: Router, w: World, req: Request, c: Controller)
    requires NoListeners(w)
    requires req.pathInfo == "/" && req.attributes == map[]
    requires w.classes.methodOf(c.cls, "indexAction") == Some(MethodInfo(true, []))
    ensures var req1 := req.SetAttribute("controller", "Index");
      && DispatchEvent(r, w.listen, ControllerLoadedName, NewControllerLoadedEvent(req1, c))
         == Dispatched(NewControllerLoadedEvent(req1, c), [ControllerLoadedName, ControllerLoadedName + ".Index"], None, None)
      && MatchAction(w.classes, c, req1) == (Some("indexAction"), req1.SetAttribute("action", "index"))
    ensures req.SetAttribute("controller", "Index").SetAttribute("action", "index").attributes
         == map["controller" := "Index", "action" := "index"]
  {
    var req1 := req.SetAttribute("controller", "Index");
    var req2 := req1.SetAttribute("action", "index");
    assert req2.attributes == map["controller" := "Index", "action" := "index"];
    QuietDispatch(r, w.listen, ControllerLoadedName, NewControllerLoadedEvent(req1, c));
    assert EventNames(ControllerLoadedName, req1) == [ControllerLoadedName, ControllerLoadedName + ".Index"] by {
      assert ControllerLoadedName + "." + "Index" == ControllerLoadedName + ".Index";
    }
    RootSelectsIndex(w.classes, c, req1);
  }

  /** `IndexController` is loaded quietly, `indexAction` is chosen and run, and its response goes to be sent. */
  lemma RootRunsIndex(r: Router, w: World, req: Request, c: Controller, out: string)
    requires NoListeners(w)
    requires req.pathInfo == "/" && req.attributes == map[]
    requires GetController(r.factory, w.classes, "Index") == Some(c)
    requires w.classes.methodOf(c.cls, "indexAction") == Some(MethodInfo(true, []))
    requires w.invoke(c, "indexAction", []) == Returned(None, out)
    ensures Load(r, w, req, "Index", None, [RequestName]) ==
      Finish(r, w, req.SetAttribute("controller", "Index").SetAttribute("action", "index"),
             Response(out, 200), RootActionTrace, true, Some(Invocation(c, "indexAction", [])))
  {
    var req1 := req.SetAttribute("controller", "Index");
    var req2 := req1.SetAttribute("action", "index");
    RootLoadsQuietly(r, w, req, c);
    var loaded := DispatchEvent(r, w.listen, ControllerLoadedName, NewControllerLoadedEvent(req1, c));
    RootInvokesIndex(r, w, req2, c, out);
    var inv := InvokeAction(r, w, c, "indexAction", req2);
    RootTraceJoins(loaded.trace, inv.trace);
  }

  /**
   * With no routes and no listeners, a request for `/` served by `IndexController`
   * dispatches thirteen events: one `router.request`; `router.controller_loaded`
   * for two names; `router.before_action` and `router.after_action` for three
   * each; the plain `router.before_response_sent`; `router.response_sent` for three.
   */
  lemma RootDispatchesThirteenEvents(r: Router, w: World, req: Request, c: Controller, out: string)
    requires WellFormed(r) && w.matched == NotFound && NoListeners(w)
    requires req.pathInfo == "/" && req.baseUrl == "" && req.attributes == map[]
    requires GetController(r.factory, w.classes, "Index") == Some(c)
    requires w.classes.methodOf(c.cls, "indexAction") == Some(MethodInfo(true, []))
    requires w.invoke(c, "indexAction", []) == Returned(None, out)
    ensures Route(r, w, req).outcome == Success(Response(out, 200))
    ensures Route(r, w, req).invoked == Some(Invocation(c, "indexAction", []))
    ensures Route(r, w, req).trace == RootActionTrace +
      [BeforeSendName, ResponseSentName, ResponseSentName + ".Index", ResponseSentName + ".Index.index"]
    ensures |Route(r, w, req).trace| == 13
  {
    RootLoadsIndex(r, w, req);
    RootRunsIndex(r, w, req, c, out);
    var req2 := req.SetAttribute("controller", "Index").SetAttribute("action", "index");
    assert req2.attributes == map["controller" := "Index", "action" := "index"];
    RootSendsQuietly(r, w, req2, Response(out, 200));
  }

  /**
   * When the URL names an action the controller lacks, the answer is the 404
   * error and no action runs.
   */
  lemma MissingUrlActionIs404(r: Router, w: World, req: Request, name: string, trace: seq<string>, c: Controller)
    requires GetController(r.factory, w.classes, name) == Some(c)
    requires var d := DispatchEvent(r, w.listen, ControllerLoadedName,
                                    NewControllerLoadedEvent(req.SetAttribute("controller", name), c));
             d.thrown.None? && d.answer.None?
    requires MatchAction(w.classes, c, req.SetAttribute("controller", name)).0.None?
    ensures Load(r, w, req, name, None, trace).invoked.None?
    ensures r.errorHandler.None? && Load(r, w, req, name, None, trace).outcome.Success? ==>
      Load(r, w, req, name, None, trace).outcome.value == Response("Not Found", 404)
  {
  }

  /** A route filed as `controller::action` and matched without parameters targets that pair. */
  lemma RouteTargetRoundTrip(route: RouteDef, name: string, ctl: string, a: string)
    requires ControllerKey in route.defaults
    requires route.defaults[ControllerKey] == ControllerDefault(ctl, Some(a))
    requires ':' !in ctl && ':' !in a && Truthy(a)
    ensures MatchAttributes(route, name, map[])[ControllerKey] == ControllerDefault(ctl, Some(a))
    ensures MatchedTarget(route, name, map[]) == (ctl, Some(a))
  {
    ControllerDefaultRoundTrip(ctl, a);
  }

  /**
   * A route's own action method is never checked before the call: for a route
   * filed as `controller::action` whose method the controller lacks, reflection's
   * exception escapes `route` instead of a 404 being answered.
   */
  lemma ExplicitActionNotChecked(r: Router, w: World, req: Request, name: string, ctl: string, a: string, c: Controller)
    requires WellFormed(r) && NoListeners(w)
    requires w.matched == Found(name, map[]) && name in r.routes
    requires r.routes[name].defaults[ControllerKey] == ControllerDefault(ctl, Some(a))
    requires ':' !in ctl && ':' !in a && Truthy(a)
    requires GetController(r.factory, w.classes, ctl) == Some(c)
    requires w.classes.methodOf(c.cls, ActionMethodName(a)).None?
    ensures Route(r, w, req).outcome ==
      Failure(ReflectionException("Method " + c.cls + "::" + ActionMethodName(a) + "() does not exist"))
    ensures Route(r, w, req).invoked.None?
  {
    QuietDispatch(r, w.listen, RequestName, RequestEvent(req, None));
    var attrs := MatchAttributes(r.routes[name], name, map[]);
    RouteTargetRoundTrip(r.routes[name], name, ctl, a);
    ActionMethodNameTruthy(a);
    var d := DispatchEvent(r, w.listen, RequestName, RequestEvent(req, None));
    LoadMissingAction(r, w, req.(attributes := req.attributes + attrs), ctl, ActionMethodName(a), c, d.trace);
  }

  /** A named action the loaded controller lacks ends in reflection's exception, with nothing invoked. */
  lemma LoadMissingAction(r: Router, w: World, req: Request, ctl: string, m: string, c: Controller, trace: seq<string>)
    requires NoListeners(w) && Truthy(m)
    requires GetController(r.factory, w.classes, ctl) == Some(c)
    requires w.classes.methodOf(c.cls, m).None?
    ensures Load(r, w, req, ctl, Some(m), trace).outcome ==
      Failure(ReflectionException("Method " + c.cls + "::" + m + "() does not exist"))
    ensures Load(r, w, req, ctl, Some(m), trace).invoked.None?
  {
    var req1 := req.SetAttribute("controller", ctl);
    QuietDispatch(r, w.listen, ControllerLoadedName, NewControllerLoadedEvent(req1, c));
  }
}
