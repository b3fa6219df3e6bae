/**
 * Attribute handlers, the PHP-8 successor of the annotation handlers: a routing
 * attribute on a controller class or action method is handed to the handler for
 * its class, which may return a response that ends routing.
 */
module Attributes {
  import opened Wrappers
  import Php
  import opened Http
  import Events
  import Annotations

  /** The two routing attributes; `HttpMethod` keeps its normalised method list. */
  datatype RoutingAttribute =
    | HttpMethodAttribute(methods: seq<string>)
    | SecureAttribute

  const HttpMethodClass := "Croute\\Attributes\\HttpMethod"
  const SecureClass := "Croute\\Attributes\\Secure"

  /** The fully qualified class name of an attribute. */
  function ClassOf(a: RoutingAttribute): string {
    match a
    case HttpMethodAttribute(_) => HttpMethodClass
    case SecureAttribute => SecureClass
  }

  /**
   * `new HttpMethod($method, ...$moreMethods)`: at least one method, and the stored
   * list is every argument upper-cased, in argument order.
   */
  function NewHttpMethod(first: string, more: seq<string>): (a: RoutingAttribute)
    ensures a.HttpMethodAttribute?
    ensures |a.methods| == 1 + |more|
    ensures a.methods[0] == Php.ToUpper(first)
    ensures forall i :: 0 <= i < |more| ==> a.methods[i + 1] == Php.ToUpper(more[i])
    ensures Php.UpperAll(a.methods) == a.methods
  {
    Php.UpperAllIdempotent([first] + more);
    HttpMethodAttribute(Php.UpperAll([first] + more))
  }

  datatype AttributeHandler = HttpMethodHandler | SecureHandler

  /**
   * `getAttributeClass`: the class of attribute a handler is registered for, which
   * is the class of exactly the attributes of the handler's own kind.
   */
  function AttributeClass(h: AttributeHandler): (c: string)
    ensures forall a :: ClassOf(a) == c <==> (h.HttpMethodHandler? <==> a.HttpMethodAttribute?)
  {
    assert HttpMethodClass[19] != SecureClass[19];
    match h
    case HttpMethodHandler => HttpMethodClass
    case SecureHandler => SecureClass
  }

  /**
   * `handleRequest`. The method handler answers 405 to a request whose method is
   * not literally in the stored list; the secure handler answers a plain-HTTP
   * request with a 301 redirect to its HTTPS form. `None` lets routing continue.
   */
  function HandleRequest(h: AttributeHandler, a: RoutingAttribute, req: Request): (r: Option<Response>)
    requires h.HttpMethodHandler? ==> a.HttpMethodAttribute?
    ensures h.HttpMethodHandler? ==> (r.Some? <==> req.httpMethod !in a.methods)
    ensures h.HttpMethodHandler? && r.Some? ==> r.value == Response("Invalid http method", 405)
    ensures h.SecureHandler? ==> (r.Some? <==> !req.isSecure)
    ensures h.SecureHandler? && r.Some? ==> r.value == RedirectResponse(SecureUrl(req), 301)
  {
    match h
    case HttpMethodHandler =>
      if req.httpMethod !in a.methods then Some(Response("Invalid http method", 405)) else None
    case SecureHandler =>
      if !req.isSecure then Some(RedirectResponse(SecureUrl(req), 301)) else None
  }

  /** `handleController`: the reflected controller class plays no part. */
  function HandleController(h: AttributeHandler, a: RoutingAttribute, req: Request, controllerClass: string)
    : (r: Option<Response>)
    requires h.HttpMethodHandler? ==> a.HttpMethodAttribute?
    ensures r == HandleRequest(h, a, req)
    ensures r.Some? <==> (if h.HttpMethodHandler? then req.httpMethod !in a.methods else !req.isSecure)
    ensures r.Some? ==>
      r.value == (if h.HttpMethodHandler? then Response("Invalid http method", 405) else RedirectResponse(SecureUrl(req), 301))
  {
    HandleRequest(h, a, req)
  }

  /** `handleAction`: the reflected action method plays no part. */
  function HandleAction(h: AttributeHandler, a: RoutingAttribute, req: Request, controllerClass: string, actionMethod: string)
    : (r: Option<Response>)
    requires h.HttpMethodHandler? ==> a.HttpMethodAttribute?
    ensures r == HandleRequest(h, a, req)
    ensures r.Some? <==> (if h.HttpMethodHandler? then req.httpMethod !in a.methods else !req.isSecure)
    ensures r.Some? ==>
      r.value == (if h.HttpMethodHandler? then Response("Invalid http method", 405) else RedirectResponse(SecureUrl(req), 301))
  {
    HandleRequest(h, a, req)
  }

  /**
   * The same attribute on a controller or on an action gives the same answer, and
   * which class or method carries it never matters.
   */
  lemma ControllerAndActionAgree(
    h: AttributeHandler, a: RoutingAttribute, req: Request, c1: string, c2: string, m: string)
    requires h.HttpMethodHandler? ==> a.HttpMethodAttribute?
    ensures HandleController(h, a, req, c1) == HandleController(h, a, req, c2)
    ensures HandleController(h, a, req, c1) == HandleAction(h, a, req, c2, m)
  {
  }

  /**
   * Membership is exact: `#[HttpMethod('post')]` admits a POST request, while a
   * GET request is turned away with 405.
   */
  lemma MethodMatchIsExact(req: Request)
    ensures req.httpMethod == "POST" ==> HandleRequest(HttpMethodHandler, NewHttpMethod("post", []), req).None?
    ensures req.httpMethod == "GET" ==>
      HandleRequest(HttpMethodHandler, NewHttpMethod("post", []), req) == Some(Response("Invalid http method", 405))
  {
    var a := NewHttpMethod("post", []);
    assert a.methods[0] == Php.ToUpper("post") == "POST";
    assert a.methods == ["POST"];
  }

  /**
   * The two generations of method restriction turn away the same requests; they
   * differ only in the status: 400 for the annotation, 405 for the attribute.
   */
  lemma MethodGuardsAgree(first: string, more: seq<string>, e: Events.RouterEvent)
    requires !e.AfterSendEvent?
    ensures var listed := Annotations.CheckHttpMethod(Annotations.List([first] + more), e);
            var attr := HandleRequest(HttpMethodHandler, NewHttpMethod(first, more), e.request);
            && (attr.None? ==> listed == Effect(e, None))
            && (attr.Some? ==> listed.after.response == Some(Response("Invalid http method", 400))
                               && attr.value == Response("Invalid http method", 405))
  {
    var allowed := Annotations.AllowedMethods(Annotations.List([first] + more));
    assert allowed == NewHttpMethod(first, more).methods;
  }

  /** Both generations of the HTTPS guard redirect a plain-HTTP request to the same URL with 301. */
  lemma SecureGuardsAgree(e: Events.RouterEvent)
    requires !e.AfterSendEvent? && !e.request.isSecure
    ensures HandleRequest(SecureHandler, SecureAttribute, e.request) == Some(RedirectResponse(SecureUrl(e.request), 301))
    ensures Annotations.CheckSecure(Annotations.Flag(true), e).after.response
         == HandleRequest(SecureHandler, SecureAttribute, e.request)
  {
  }
}
