/**
 * Annotation handlers: listeners on the controller-loaded and before-action events
 * that read one docblock annotation of the controller class or of the action method
 * and may answer the request in place of the action. Two handlers ship: `httpMethod`
 * restricts the allowed HTTP methods, `secure` redirects plain HTTP to HTTPS.
 */
module Annotations {
  import opened Wrappers
  import Php
  import opened Http
  import opened Runtime
  import opened Events

  /** What the annotation reader yields for one key. */
  datatype AnnotationValue =
    | Absent
      /** a bare `@name`, or an explicit boolean */
    | Flag(flag: bool)
    | Text(text: string)
    | List(items: seq<string>)

  /** PHP's boolean reading of an annotation value. */
  predicate IsTruthy(v: AnnotationValue) {
    match v
    case Absent => false
    case Flag(b) => b
    case Text(s) => Php.Truthy(s)
    case List(xs) => xs != []
  }

  /** The annotations of one class or method, by name; a missing name reads as `Absent`. */
  function Lookup(annotations: map<string, AnnotationValue>, name: string): AnnotationValue {
    if name in annotations then annotations[name] else Absent
  }

  /** The annotations the reader finds on classes and on methods. */
  datatype AnnotationReader = AnnotationReader(
    classAnnotations: string -> map<string, AnnotationValue>,
    methodAnnotations: (string, string) -> map<string, AnnotationValue>)

  datatype HandlerKind = HttpMethodKind | SecureKind

  /** A handler and the annotation name it reacts to. */
  datatype AnnotationHandler = AnnotationHandler(kind: HandlerKind, annotation: string)

  const NoAnnotation := "You must specify an annotation to handle"
  const NoHttpMethod := "You must specify which HTTP method(s) you require."
  const InvalidHttpMethod := "Invalid http method"

  /** The annotation name each shipped handler declares. */
  function DeclaredAnnotation(kind: HandlerKind): string {
    match kind
    case HttpMethodKind => "httpMethod"
    case SecureKind => "secure"
  }

  /**
   * The handler constructor: a handler whose annotation name reads as false is
   * refused with a `LogicException`.
   */
  function NewAnnotationHandler(kind: HandlerKind, annotation: string): (r: Result<AnnotationHandler, Exception>)
    ensures r.Failure? <==> (annotation == "" || annotation == "0")
    ensures r.Failure? ==> r.error == LogicException(NoAnnotation)
    ensures r.Success? ==> GetName(r.value) == annotation && r.value.kind == kind
  {
    if !Php.Truthy(annotation) then Failure(LogicException(NoAnnotation))
    else Success(AnnotationHandler(kind, annotation))
  }

  /** Both shipped handlers construct. */
  lemma ShippedHandlersConstruct(kind: HandlerKind)
    ensures NewAnnotationHandler(kind, DeclaredAnnotation(kind)).Success?
  {
  }

  function GetName(h: AnnotationHandler): string {
    h.annotation
  }

  /** The events every annotation handler subscribes to, with the method that handles each. */
  function SubscribedEvents(): (m: map<string, string>)
    ensures m.Keys == {"router.controller_loaded", "router.before_action"}
    ensures m["router.controller_loaded"] == "handleControllerAnnotations"
    ensures m["router.before_action"] == "handleActionAnnotations"
  {
    map["router.controller_loaded" := "handleControllerAnnotations",
        "router.before_action" := "handleActionAnnotations"]
  }

  // ---------------------------------------------------------------------------
  // The two shipped handlers
  // ---------------------------------------------------------------------------

  /** The HTTP methods an `httpMethod` value allows: a string is a one-element list; all upper-cased. */
  function AllowedMethods(value: AnnotationValue): (ms: seq<string>)
    requires value.Text? || value.List?
  {
    Php.UpperAll(if value.Text? then [value.text] else value.items)
  }

  /**
   * The `httpMethod` handler: a value that reads as false changes nothing; a bare
   * flag is refused; otherwise a request whose method is not among the allowed ones
   * is answered with 400.
   */
  function CheckHttpMethod(value: AnnotationValue, e: RouterEvent): (eff: Effect<RouterEvent>)
    ensures !IsTruthy(value) ==> eff == Effect(e, None)
    ensures IsTruthy(value) && value.Flag? ==> eff == Effect(e, Some(InvalidArgumentException(NoHttpMethod)))
    ensures IsTruthy(value) && (value.Text? || value.List?) && e.request.httpMethod in AllowedMethods(value)
            ==> eff == Effect(e, None)
    ensures IsTruthy(value) && (value.Text? || value.List?) && e.request.httpMethod !in AllowedMethods(value)
            && !e.AfterSendEvent?
            ==> eff.thrown.None? && eff.after.request == e.request
                && eff.after.response == Some(Response(InvalidHttpMethod, 400))
  {
    if !IsTruthy(value) then Effect(e, None)
    else if value.Flag? then Effect(e, Some(InvalidArgumentException(NoHttpMethod)))
    else if e.request.httpMethod in AllowedMethods(value) then Effect(e, None)
    else SetResponse(e, Response(InvalidHttpMethod, 400))
  }

  /**
   * A single string and the one-element list holding it act alike, provided the
   * string reads as true (a list holding "" or "0" is itself true, the string is not).
   */
  lemma TextIsSingletonList(s: string, e: RouterEvent)
    requires Php.Truthy(s)
    ensures CheckHttpMethod(Text(s), e) == CheckHttpMethod(List([s]), e)
  {
  }

  /** Listing `post` lets a POST request through and turns a GET request away. */
  lemma LowerCaseListingAdmits(e: RouterEvent)
    requires !e.AfterSendEvent?
    ensures e.request.httpMethod == "POST" ==> CheckHttpMethod(Text("post"), e) == Effect(e, None)
    ensures e.request.httpMethod == "GET" ==>
      CheckHttpMethod(Text("post"), e).after.response == Some(Response(InvalidHttpMethod, 400))
  {
    assert Php.UpperAll(["post"]) == ["POST"] by {
      assert Php.ToUpper("post") == "POST";
    }
  }

  /**
   * The `secure` handler: on a plain-HTTP request with a value that reads as true,
   * answers with a 301 redirect to the HTTPS form of the URL; otherwise changes nothing.
   */
  function CheckSecure(value: AnnotationValue, e: RouterEvent): (eff: Effect<RouterEvent>)
    ensures e.request.isSecure || !IsTruthy(value) ==> eff == Effect(e, None)
    ensures !e.request.isSecure && IsTruthy(value) && !e.AfterSendEvent? ==>
      && eff.thrown.None?
      && eff.after.request == e.request
      && eff.after.response == Some(RedirectResponse(SecureUrl(e.request), 301))
  {
    if !e.request.isSecure && IsTruthy(value) then
      SetResponse(e, RedirectResponse(SecureUrl(e.request), 301))
    else Effect(e, None)
  }

  /** The response a handler of kind `kind` answers a request with. */
  function Refusal(kind: HandlerKind, req: Request): Response {
    match kind
    case HttpMethodKind => Response(InvalidHttpMethod, 400)
    case SecureKind => RedirectResponse(SecureUrl(req), 301)
  }

  /**
   * `handleAnnotation`, by handler: a value that reads as false changes nothing, and
   * otherwise the handler touches only the event's response, setting its refusal.
   */
  function HandleAnnotation(h: AnnotationHandler, value: AnnotationValue, e: RouterEvent): (eff: Effect<RouterEvent>)
    ensures !IsTruthy(value) ==> eff == Effect(e, None)
    ensures eff.after.(response := e.response) == e
    ensures eff.after.response != e.response ==> eff.after.response == Some(Refusal(h.kind, e.request))
  {
    match h.kind
    case HttpMethodKind => CheckHttpMethod(value, e)
    case SecureKind => CheckSecure(value, e)
  }

  // ---------------------------------------------------------------------------
  // Where the value is read from
  // ---------------------------------------------------------------------------

  /** `handleControllerAnnotations`: the handler's annotation on the controller class. */
  function HandleControllerAnnotations(h: AnnotationHandler, reader: AnnotationReader, e: RouterEvent)
    : (eff: Effect<RouterEvent>)
    requires e.ControllerLoadedEvent?
    ensures h.annotation !in reader.classAnnotations(e.controller.cls) ==> eff == Effect(e, None)
    ensures eff.after.ControllerLoadedEvent? && eff.after.controller == e.controller && eff.after.request == e.request
    ensures eff.after.response != e.response ==> eff.after.response == Some(Refusal(h.kind, e.request))
  {
    HandleAnnotation(h, Lookup(reader.classAnnotations(e.controller.cls), h.annotation), e)
  }

  /** `handleActionAnnotations`: the handler's annotation on the action method. */
  function HandleActionAnnotations(h: AnnotationHandler, reader: AnnotationReader, e: RouterEvent)
    : (eff: Effect<RouterEvent>)
    requires e.BeforeActionEvent?
    ensures h.annotation !in reader.methodAnnotations(e.controller.cls, e.action) ==> eff == Effect(e, None)
    ensures eff.after.BeforeActionEvent? && eff.after.action == e.action && eff.after.request == e.request
    ensures eff.after.response != e.response ==> eff.after.response == Some(Refusal(h.kind, e.request))
  {
    HandleAnnotation(h, Lookup(reader.methodAnnotations(e.controller.cls, e.action), h.annotation), e)
  }

  /**
   * The controller-loaded handling reads only the class-level annotation under the
   * handler's name: two readers that agree there give the same outcome.
   */
  lemma ControllerHandlingReadsClassLevel(
    h: AnnotationHandler, r1: AnnotationReader, r2: AnnotationReader, e: RouterEvent)
    requires e.ControllerLoadedEvent?
    requires Lookup(r1.classAnnotations(e.controller.cls), h.annotation)
          == Lookup(r2.classAnnotations(e.controller.cls), h.annotation)
    ensures HandleControllerAnnotations(h, r1, e) == HandleControllerAnnotations(h, r2, e)
  {
  }

  /**
   * The before-action handling reads only the method-level annotation under the
   * handler's name: two readers that agree there give the same outcome.
   */
  lemma ActionHandlingReadsMethodLevel(
    h: AnnotationHandler, r1: AnnotationReader, r2: AnnotationReader, e: RouterEvent)
    requires e.BeforeActionEvent?
    requires Lookup(r1.methodAnnotations(e.controller.cls, e.action), h.annotation)
          == Lookup(r2.methodAnnotations(e.controller.cls, e.action), h.annotation)
    ensures HandleActionAnnotations(h, r1, e) == HandleActionAnnotations(h, r2, e)
  {
  }

  /** A class annotated `@httpMethod post` turns a GET request away once its controller is loaded. */
  lemma ClassLevelRestriction(reader: AnnotationReader, e: RouterEvent)
    requires e.ControllerLoadedEvent? && e.request.httpMethod == "GET"
    requires reader.classAnnotations(e.controller.cls) == map["httpMethod" := Text("post")]
    ensures HandleControllerAnnotations(AnnotationHandler(HttpMethodKind, "httpMethod"), reader, e).after.response
         == Some(Response(InvalidHttpMethod, 400))
  {
    LowerCaseListingAdmits(e);
  }
}
