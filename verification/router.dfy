/**
 * The router's own bookkeeping: the route table that `addRoute`, `addRoutes` and
 * `addCustomRoute` fill, the registry of annotation handlers, the optional error
 * handler, and the reading of a matched `Controller::action` default.
 */
module Routing {
  import opened Wrappers
  import opened Php
  import opened Http
  import opened Controllers
  import Annotations

  /** The HTTP methods of a route: one method, or a list of them. */
  datatype Methods = OneMethod(name: string) | MethodList(names: seq<string>)

  /** A route as the matcher sees it: its path pattern, its defaults and its methods. */
  datatype RouteDef = RouteDef(path: string, defaults: map<string, string>, methods: Methods)

  /** What an error handler does when the router asks it. */
  datatype ErrorHandler = ErrorHandler(
    /**
     * `displayErrorPage($code, $message)`: the page, or the exception that escaped,
     * including the `TypeError` of `handleError(): Response` when it returns no response
     */
    displayErrorPage: (int, string) -> Result<Response, Exception>,
    /** `handleException($e)`: a response or anything else (`None`), or the exception it threw or rethrew */
    handleException: Exception -> Result<Option<Response>, Exception>,
    /** whether the implementation declares `handleException(\Throwable $e)` */
    takesThrowable: bool)

  datatype Router = Router(
    factory: ControllerFactory,
    errorHandler: Option<ErrorHandler>,
    handlers: map<string, Annotations.AnnotationHandler>,
    routes: map<string, RouteDef>)

  const ControllerKey := "_controller"
  const BadRouteShape := "Each route must be: path, method(s), controller, [action]"
  const NoController := "You must specify a _controller"

  /** A router as `Router::create` leaves it: no routes, no handlers, no error handler. */
  function NewRouter(factory: ControllerFactory): (r: Router)
    ensures r.routes == map[] && r.handlers == map[] && r.errorHandler.None?
    ensures WellFormed(r)
  {
    Router(factory, None, map[], map[])
  }

  /** Every route names the controller that serves it. */
  ghost predicate WellFormed(r: Router) {
    forall k :: k in r.routes ==> ControllerKey in r.routes[k].defaults
  }

  function SetErrorHandler(r: Router, h: ErrorHandler): (s: Router)
    ensures s.errorHandler == Some(h)
    ensures s.(errorHandler := r.errorHandler) == r
  {
    r.(errorHandler := Some(h))
  }

  // ---------------------------------------------------------------------------
  // Registering routes
  // ---------------------------------------------------------------------------

  /** The name under which `addRoute` files a route: the path, a colon, the method(s) joined by `|`. */
  function RouteKey(path: string, methods: Methods): string {
    path + ":" + (match methods case OneMethod(m) => m case MethodList(ms) => Implode("|", ms))
  }

  /** The `_controller` default: the controller, with `::action` appended when the action reads as true. */
  function ControllerDefault(controller: string, action: Option<string>): string {
    if action.Some? && Truthy(action.value) then controller + "::" + action.value else controller
  }

  /**
   * `addRoute`: files a route under `path:methods` whose `_controller` default is
   * `controller`, or `controller::action` when an action is given; a route already
   * filed under that key is replaced, every other route is kept.
   */
  function AddRoute(r: Router, path: string, methods: Methods, controller: string, action: Option<string>)
    : (s: Router)
    ensures RouteKey(path, methods) in s.routes
    ensures s.routes[RouteKey(path, methods)].path == path
    ensures s.routes[RouteKey(path, methods)].methods == methods
    ensures s.routes[RouteKey(path, methods)].defaults == map[ControllerKey := ControllerDefault(controller, action)]
    ensures forall k :: k != RouteKey(path, methods) ==> (k in s.routes <==> k in r.routes)
    ensures forall k :: k != RouteKey(path, methods) && k in r.routes ==> s.routes[k] == r.routes[k]
    ensures s.(routes := r.routes) == r
  {
    var route := RouteDef(path, map[ControllerKey := ControllerDefault(controller, action)], methods);
    r.(routes := r.routes[RouteKey(path, methods) := route])
  }

  lemma AddRouteKeepsWellFormed(r: Router, path: string, methods: Methods, controller: string, action: Option<string>)
    requires WellFormed(r)
    ensures WellFormed(AddRoute(r, path, methods, controller, action))
  {
  }

  /** One argument of an `addRoutes` entry, as PHP would see its type. */
  datatype Arg = StrArg(s: string) | ListArg(items: seq<string>) | NullArg

  /** The methods an entry's second element gives its route; a null casts to the empty list. */
  function EntryMethods(a: Arg): Methods {
    match a
    case StrArg(m) => OneMethod(m)
    case ListArg(ms) => MethodList(ms)
    case NullArg => MethodList([])
  }

  /** The key `addRoute` files an entry under, once its path is known to be a string. */
  function EntryKey(entry: seq<Arg>): string
    requires |entry| >= 2 && entry[0].StrArg?
  {
    RouteKey(entry[0].s, EntryMethods(entry[1]))
  }

  /**
   * One `addRoutes` entry passed to `addRoute`: the path and the controller must be
   * strings and the action a string or null. The methods are untyped there: a null
   * is cast by the Symfony 4 `Route` to the empty list, which admits every method,
   * and the route is filed under `path:`.
   */
  function AddEntry(r: Router, entry: seq<Arg>): (res: Result<Router, Exception>)
    requires 3 <= |entry| <= 4
    ensures res.Success? <==>
      && entry[0].StrArg? && entry[2].StrArg?
      && (|entry| == 4 ==> !entry[3].ListArg?)
    ensures res.Success? && entry[1].NullArg? ==>
      && entry[0].s + ":" in res.value.routes
      && res.value.routes[entry[0].s + ":"].methods == MethodList([])
    ensures res.Success? ==> EntryKey(entry) in res.value.routes && r.routes.Keys <= res.value.routes.Keys
    ensures res.Success? ==> WellFormed(r) ==> WellFormed(res.value)
  {
    if !entry[0].StrArg? then Failure(TypeError("path"))
    else if !entry[2].StrArg? then Failure(TypeError("controller"))
    else if |entry| == 4 && entry[3].ListArg? then Failure(TypeError("action"))
    else
      var methods := EntryMethods(entry[1]);
      var action := if |entry| == 4 && entry[3].StrArg? then Some(entry[3].s) else None;
      assert RouteKey(entry[0].s, MethodList([])) == entry[0].s + ":";
      Success(AddRoute(r, entry[0].s, methods, entry[2].s, action))
  }

  /**
   * `addRoutes`: adds the entries in order. An entry with fewer than three or more
   * than four elements throws; entries before it stay added.
   */
  function AddRoutes(r: Router, entries: seq<seq<Arg>>): (eff: Effect<Router>)
    ensures eff.thrown.None? ==> forall i :: 0 <= i < |entries| ==> 3 <= |entries[i]| <= 4
    ensures eff.thrown.None? ==> r.routes.Keys <= eff.after.routes.Keys
    ensures eff.thrown.None? ==> forall i :: 0 <= i < |entries| ==>
      entries[i][0].StrArg? && EntryKey(entries[i]) in eff.after.routes
    ensures WellFormed(r) ==> WellFormed(eff.after)
    ensures eff.after.(routes := r.routes) == r
    decreases |entries|
  {
    if entries == [] then Effect(r, None)
    else if |entries[0]| < 3 || |entries[0]| > 4 then Effect(r, Some(InvalidArgumentException(BadRouteShape)))
    else match AddEntry(r, entries[0])
      case Failure(x) => Effect(r, Some(x))
      case Success(s) =>
        var rest := AddRoutes(s, entries[1..]);
        assert forall i :: 1 <= i < |entries| ==> entries[i] == entries[1..][i - 1];
        rest
  }

  /** Adding two batches one after the other is adding their concatenation, unless the first throws. */
  lemma {:induction false} AddRoutesConcat(r: Router, a: seq<seq<Arg>>, b: seq<seq<Arg>>)
    ensures AddRoutes(r, a + b) ==
      if AddRoutes(r, a).thrown.None? then AddRoutes(AddRoutes(r, a).after, b) else AddRoutes(r, a)
    decreases |a|
  {
    if a == [] {
      assert a + b == b;
    } else {
      assert (a + b)[0] == a[0];
      assert (a + b)[1..] == a[1..] + b;
      if 3 <= |a[0]| <= 4 && AddEntry(r, a[0]).Success? {
        AddRoutesConcat(AddEntry(r, a[0]).value, a[1..], b);
      }
    }
  }

  /**
   * An entry of the wrong size throws `InvalidArgumentException`, and the routes of
   * the entries before it remain added.
   */
  lemma BadEntryKeepsEarlier(r: Router, good: seq<seq<Arg>>, bad: seq<Arg>, rest: seq<seq<Arg>>)
    requires AddRoutes(r, good).thrown.None?
    requires |bad| < 3 || |bad| > 4
    ensures AddRoutes(r, good + [bad] + rest).thrown == Some(InvalidArgumentException(BadRouteShape))
    ensures AddRoutes(r, good + [bad] + rest).after == AddRoutes(r, good).after
  {
    assert good + [bad] + rest == good + ([bad] + rest);
    AddRoutesConcat(r, good, [bad] + rest);
  }

  /**
   * `addCustomRoute`: a route whose `_controller` default is missing or reads as
   * false is refused; otherwise it is filed under the given name.
   */
  function AddCustomRoute(r: Router, name: string, route: RouteDef): (eff: Effect<Router>)
    ensures eff.thrown.Some? <==> ControllerKey !in route.defaults || !Truthy(route.defaults[ControllerKey])
    ensures eff.thrown.Some? ==> eff.thrown == Some(InvalidArgumentException(NoController)) && eff.after == r
    ensures eff.thrown.None? ==> eff.after.routes == r.routes[name := route]
    ensures eff.after.(routes := r.routes) == r
    ensures WellFormed(r) ==> WellFormed(eff.after)
  {
    if ControllerKey !in route.defaults || !Truthy(route.defaults[ControllerKey]) then
      Effect(r, Some(InvalidArgumentException(NoController)))
    else Effect(r.(routes := r.routes[name := route]), None)
  }

  // ---------------------------------------------------------------------------
  // Annotation handlers
  // ---------------------------------------------------------------------------

  /** `addAnnotationHandler`: a second handler under a registered name is refused. */
  function AddAnnotationHandler(r: Router, h: Annotations.AnnotationHandler): (eff: Effect<Router>)
    ensures eff.thrown.Some? <==> Annotations.GetName(h) in r.handlers
    ensures eff.thrown.Some? ==>
      eff.after == r && eff.thrown == Some(InvalidArgumentException(Annotations.GetName(h) + " is already registered"))
    ensures eff.thrown.None? ==> eff.after.handlers == r.handlers[Annotations.GetName(h) := h]
    ensures eff.after.(handlers := r.handlers) == r
  {
    var name := Annotations.GetName(h);
    if name in r.handlers then Effect(r, Some(InvalidArgumentException(name + " is already registered")))
    else Effect(r.(handlers := r.handlers[name := h]), None)
  }

  /** `removeAnnotationHandler`: removing a name that is not registered is refused. */
  function RemoveAnnotationHandler(r: Router, name: string): (eff: Effect<Router>)
    ensures eff.thrown.Some? <==> name !in r.handlers
    ensures eff.thrown.Some? ==>
      eff.after == r && eff.thrown == Some(InvalidArgumentException(name + " is not registered"))
    ensures eff.thrown.None? ==> eff.after.handlers == r.handlers - {name}
    ensures eff.after.(handlers := r.handlers) == r
  {
    if name !in r.handlers then Effect(r, Some(InvalidArgumentException(name + " is not registered")))
    else Effect(r.(handlers := r.handlers - {name}), None)
  }

  /** Registering a handler under a fresh name and removing it again restores the registry. */
  lemma AddThenRemoveRestores(r: Router, h: Annotations.AnnotationHandler)
    requires Annotations.GetName(h) !in r.handlers
    ensures AddAnnotationHandler(r, h).thrown.None?
    ensures RemoveAnnotationHandler(AddAnnotationHandler(r, h).after, Annotations.GetName(h))
         == Effect(r, None)
  {
    var name := Annotations.GetName(h);
    assert r.handlers[name := h] - {name} == r.handlers;
  }

  /** Registering the same handler twice throws on the second call. */
  lemma DuplicateRegistrationThrows(r: Router, h: Annotations.AnnotationHandler)
    ensures AddAnnotationHandler(AddAnnotationHandler(r, h).after, h).thrown.Some?
  {
  }

  // ---------------------------------------------------------------------------
  // Reading a matched `_controller`
  // ---------------------------------------------------------------------------

  /** A text without `:` holds no `::`. */
  lemma NoColonNoSeparator(t: string)
    requires ':' !in t
    ensures forall j: nat :: !OccursAt(t, "::", j)
  {
    forall j: nat
      ensures !OccursAt(t, "::", j)
    {
      if j + 2 <= |t| {
        assert t[j..j + 2][0] == t[j];
      }
    }
  }

  /**
   * `list($controller, $action) = explode('::', $c)` when `$c` holds `::`: the text
   * before the first `::`, and the text between it and the next `::` (or the end).
   * A `_controller` without `::` names only the controller.
   */
  function SplitController(s: string): (r: (string, Option<string>))
    ensures r.1.None? <==> !Contains(s, "::")
    ensures r.1.Some? ==> OccursAt(s, "::", |r.0|) && s[..|r.0|] == r.0
    ensures r.1.Some? ==> forall j: nat :: j < |r.0| ==> !OccursAt(s, "::", j)
    ensures r.1.Some? ==> !Contains(r.1.value, "::")
    ensures r.1.None? ==> r.0 == s
    ensures r.1.Some? ==>
      var rest := s[|r.0| + 2..];
      && |r.1.value| <= |rest| && rest[..|r.1.value|] == r.1.value
      && (|r.1.value| == |rest| || OccursAt(rest, "::", |r.1.value|))
      && forall j: nat :: j < |r.1.value| ==> !OccursAt(rest, "::", j)
  {
    match IndexOf(s, "::")
    case None => (s, None)
    case Some(i) =>
      var rest := s[i + 2..];
      match IndexOf(rest, "::")
      case None => (s[..i], Some(rest))
      case Some(j) =>
        var action := rest[..j];
        assert !Contains(action, "::") by {
          forall k: nat
            ensures !OccursAt(action, "::", k)
          {
            PrefixOccurrence(rest, "::", j, k);
          }
        }
        (s[..i], Some(action))
  }

  /** The action method a matched action names: `Action` is appended unless it already occurs anywhere. */
  function ActionMethodName(action: string): (m: string)
    ensures Contains(m, "Action")
    ensures Contains(action, "Action") ==> m == action
    ensures !Contains(action, "Action") ==> m == action + "Action"
  {
    if Contains(action, "Action") then action
    else
      var m := action + "Action";
      assert OccursAt(m, "Action", |action|) by {
        assert m[|action|..|action| + 6] == "Action";
      }
      m
  }

  /** Naming the action method twice gives the same name as once. */
  lemma ActionMethodNameIdempotent(action: string)
    ensures ActionMethodName(ActionMethodName(action)) == ActionMethodName(action)
  {
  }

  /** An action method name is never a string PHP reads as false. */
  lemma ActionMethodNameTruthy(action: string)
    ensures Truthy(ActionMethodName(action))
  {
    var m := ActionMethodName(action);
    var i := IndexOf(m, "Action").value;
    assert |m| >= 6;
  }

  /**
   * What `addRoute` stores, `route` reads back: for a controller and a true-reading
   * action free of `:`, splitting `controller::action` yields both again.
   */
  lemma {:induction false} ControllerDefaultRoundTrip(controller: string, action: string)
    requires ':' !in controller && ':' !in action && Truthy(action)
    ensures SplitController(ControllerDefault(controller, Some(action))) == (controller, Some(action))
  {
    var s := controller + "::" + action;
    assert ControllerDefault(controller, Some(action)) == s;
    assert OccursAt(s, "::", |controller|) by {
      assert s[|controller|..|controller| + 2] == "::";
    }
    forall j: nat | j < |controller|
      ensures !OccursAt(s, "::", j)
    {
      if j + 2 <= |s| {
        assert s[j..j + 2][0] == s[j] == controller[j];
      }
    }
    assert IndexOf(s, "::") == Some(|controller|);
    assert s[|controller| + 2..] == action;
    NoColonNoSeparator(action);
    assert IndexOf(action, "::").None?;
    assert s[..|controller|] == controller;
  }

  /** A `_controller` without an action names only the controller, whatever the action argument was. */
  lemma ControllerOnlyRoundTrip(controller: string, action: Option<string>)
    requires ':' !in controller
    requires action.None? || !Truthy(action.value)
    ensures SplitController(ControllerDefault(controller, action)) == (controller, None)
  {
    NoColonNoSeparator(controller);
  }
}
