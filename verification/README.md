# croute routing core in Dafny

This project models the core of croute, a PHP router built on Symfony's HttpFoundation, Routing and EventDispatcher components. In croute, an incoming request is routed in one of two ways:

- It matches a registered route, whose `_controller` default names a controller and, optionally, an action.
- It falls back to the naming convention: the path `/a/b/c` selects controller `A\B` and action `c`, which is invoked as method `cAction`.

At every stage the router dispatches named events: request, controller loaded, before action, after action, before send and response sent. Every event but before send goes through the router's own dispatch, which also fires the suffixed name `.<controller>` once the request's `controller` attribute is set, and `.<controller>.<action>` once its `action` attribute is set too; before send is dispatched once, under its plain name. A listener may answer the request in place of the action. Annotation handlers are such listeners: they subscribe to controller loaded and before action, and restrict the allowed HTTP methods or redirect plain HTTP to HTTPS. Attribute handlers do the same job from PHP 8 attributes; the router never calls them, so they are modelled as a separate mechanism, on their own.

The model is pure and functional:

- **Php** states the PHP semantics the code relies on:
  - string truthiness (`""` and `"0"` are false);
  - ASCII `strtoupper`;
  - `strrpos` / `strpos`;
  - `str_replace`.
- **Http** holds requests, responses, the exceptions that can escape, `Request::get`, and the HTTPS rewrite.
- **Events** holds the router events and `setResponse`.
- **Controllers** holds the default controller factory: name derivation and namespace search.
- **Annotations** and **Attributes** hold the two generations of request guards.
- **Routing** holds the router's registries: routes, annotation handlers and the error handler.
- **Pipeline** models `route` itself, as one function from a router, a request and a *world* to a run. The run records:
  - the outcome: a response, or an exception that escapes;
  - the sequence of event names dispatched;
  - whether the controller factory was consulted;
  - which action was invoked, with which arguments.
- **RouteProperties** proves end-to-end facts about whole runs.

A world stands for everything the router cannot see:

- the URL matcher's answer;
- the listeners, one reaction per event name;
- the class and method tables, standing in for reflection;
- the actions themselves, as a function from controller, method and arguments to a returned response or a thrown exception, together with the output the action printed.

Where the code and its tests disagree, the model follows the code:

- A request for the site root `/` dispatches 13 events under the code. test/RouterTest.php:134-135 expects 12. `RouteProperties.RootDispatchesThirteenEvents` proves 13: nine names around the action, one before-send name, and three response-sent names.
- The annotation `httpMethod` guard answers 400 (src/Annotation/HttpMethod.php:29). The attribute guard answers 405 (src/Attributes/HttpMethodHandler.php:18).

## Model

| member | source | states |
|---|---|---|
| Php.ToUpper | src/Annotation/HttpMethod.php:27 | upper-casing keeps the length and maps each character independently, changing only ASCII lower-case letters |
| Php.ToUpperIdempotent | src/Annotation/HttpMethod.php:27 | upper-casing an already upper-cased method name changes nothing |
| Php.UpperAllIdempotent | src/Annotation/HttpMethod.php:27 | upper-casing every entry of a method list twice equals doing it once |
| Php.LastIndexOf | src/ControllerFactory.php:37 | the result is the position of the last occurrence of the character, and it is absent exactly when the character does not occur |
| Php.LastIndexOfIs | src/Router.php:259 | a character with no later occurrence is exactly the position `strrpos` reports |
| Php.IndexOf | src/Router.php:197-198 | the result is the first occurrence of the separator, and it is absent exactly when the separator occurs nowhere |
| Php.ReplaceAll | src/Annotation/Secure.php:21 | replacing an empty pattern changes nothing, and a replacement at least as long as the pattern never shortens the subject |
| Php.ReplaceAllAbsent | src/ControllerFactory.php:40 | replacing a pattern that never occurs leaves the subject unchanged |
| Php.ReplaceAllFirst | src/Annotation/Secure.php:21 | the first occurrence of a non-empty pattern is replaced, the text before it is kept, and the rest is rewritten the same way, so with `ReplaceAllAbsent` every occurrence is replaced left to right without overlap |
| Http.Request.Get | src/Router.php:296 | a request parameter is looked up in route attributes first, then the query string, then the body; it is missing only when all three lack it |
| Http.Request.SetAttribute | src/Router.php:204 | setting an attribute changes only that attribute |
| Http.HttpsRewriteRoundTrip | src/Annotation/Secure.php:21 | turning every `http` into `https` and back restores the URL, so the redirect target determines the original URL |
| Http.RewriteOnce | src/Attributes/SecureHandler.php:22 | a single `http` between two stretches without an `h` becomes `https`, the rest kept |
| Http.HttpbinRewrite | src/Attributes/SecureHandler.php:22 | every `http` in the host is rewritten, not only the scheme: `http://httpbin.org` becomes `https://httpsbin.org` |
| Events.NewControllerLoadedEvent | src/Event/ControllerLoadedEvent.php:17-21 | the event hands back the request and controller it was built with, and it starts without a response |
| Events.NewAfterSendEvent | src/Event/AfterSendEvent.php:13-17 | the event carries the request and the response already sent |
| Events.SetResponse | src/Event/RouterEvent.php:41-44 | setting a response throws exactly on the after-send event, where the event stays unchanged; on any other event only the response changes |
| Events.SetResponseLastWriteWins | src/Event/RouterEvent.php:41-44 | of two responses set in turn, the second one wins |
| Events.SetController | src/Event/ControllerLoadedEvent.php:34-37 | replacing the controller keeps the request and the response |
| Controllers.FlipSlashes | src/ControllerFactory.php:40 | every `/` becomes `\` and every other character stays in place, so the length is kept |
| Controllers.CapitalizeAt | src/ControllerFactory.php:41-48 | each character at the start or right after a `\` is upper-cased (only ASCII lower-case letters change), and every other character is kept |
| Controllers.Sanitize | src/ControllerFactory.php:40 | the sanitized path keeps only letters, digits and `/`, and is never longer than the input |
| Controllers.SanitizeKeepsAllowed | src/ControllerFactory.php:40 | a path made only of allowed characters is unchanged by sanitizing |
| Controllers.SanitizeIdempotent | src/ControllerFactory.php:40 | sanitizing twice equals sanitizing once |
| Controllers.SanitizeConcat | src/ControllerFactory.php:40 | sanitizing works character by character: it distributes over concatenation |
| Controllers.FlipSlashesConcat | src/ControllerFactory.php:40 | turning `/` into `\` distributes over concatenation |
| Controllers.CapitalizeConcat | src/ControllerFactory.php:41-48 | capitalizing segments distributes over concatenation when the second part starts a new segment |
| Controllers.CapitalizeInsideSegment | src/ControllerFactory.php:41-48 | text without a namespace separator, inside a segment, is left alone by capitalizing |
| Controllers.ControllerName | src/ControllerFactory.php:34-53 | a derived name holds only letters, digits and `\`; a path with no `/` past its first character names `Index` |
| Controllers.ControllerNameFromSegment | src/ControllerFactory.php:37-48 | when the path's last `/` is at k, the name comes from exactly the characters of base URL plus path between index 1 and that `/` |
| Controllers.RootPathsNameIndex | src/ControllerFactory.php:50-51 | `/` and `/asdf` both select controller `Index` |
| Controllers.SanitizeKeepsOut | src/ControllerFactory.php:40 | sanitizing never introduces a character the path lacked |
| Controllers.NestedName | src/ControllerFactory.php:34-53 | for every path `/a/b/tail` with no `/` inside `a`, `b` or `tail`, the name is `a` and `b` each sanitized and capitalized, joined by `\` |
| Controllers.NamespacedName | src/ControllerFactory.php:34-53 | `/myNamespace/named/` selects controller `MyNamespace\Named` |
| Controllers.SanitizedName | src/ControllerFactory.php:34-53 | punctuation inside the segment is dropped: `/nam..\..ed/` selects controller `Named` |
| Controllers.CreateController | src/ControllerFactory.php:121-133 | the container's instance is used when the container has the class; otherwise a new instance with the configured dependencies, kept only when it is a controller |
| Controllers.FindController | src/ControllerFactory.php:60-83 | every controller found is the one built from a class that exists |
| Controllers.GetController | src/ControllerFactory.php:60-83 | the controller returned, if any, comes from an existing class |
| Controllers.SetNamespaces | src/ControllerFactory.php:88-91 | afterwards the namespaces are exactly the list given, and the rest of the configuration is unchanged |
| Controllers.SetDependencies | src/ControllerFactory.php:96-99 | afterwards the dependencies are exactly the list given, and the rest of the configuration is unchanged |
| Controllers.FirstNamespaceWins | src/ControllerFactory.php:64-65 | a controller named directly in the first namespace is the one returned |
| Controllers.IndexFallback | src/ControllerFactory.php:66-75 | a namespace lacking `NameController` but holding `Name\IndexController` yields that index controller |
| Controllers.NoClassNoController | src/ControllerFactory.php:60-83 | with no existing class, no controller is found |
| Controllers.FindControllerSkips | src/ControllerFactory.php:62-80 | namespaces yielding no controller are skipped in order, the search going on under the name accumulated so far |
| Controllers.FirstYieldingNamespaceWins | src/ControllerFactory.php:62-80 | the controller returned is the one the first yielding namespace gives, under the name accumulated up to it |
| Controllers.NoYieldNoController | src/ControllerFactory.php:60-83 | when no namespace yields a controller, none is returned |
| Controllers.AccumulatedNameMissesLaterNamespace | src/ControllerFactory.php:66-75 | the fallback name carries over to later namespaces, so `B\FooController` is missed when namespace `A` comes first |
| Annotations.NewAnnotationHandler | src/Annotation/AnnotationHandler.php:23-34 | construction fails exactly when the annotation name reads as false, with the stated LogicException; otherwise `getName` returns the name |
| Annotations.ShippedHandlersConstruct | src/Annotation/HttpMethod.php:14 | the `httpMethod` and `secure` handlers both construct |
| Annotations.SubscribedEvents | src/Annotation/AnnotationHandler.php:54-60 | a handler listens to exactly controller-loaded and before-action, each with its handling method |
| Annotations.CheckHttpMethod | src/Annotation/HttpMethod.php:16-32 | a false value changes nothing; a bare flag throws InvalidArgumentException; a listed method passes; an unlisted one is answered 400 with the request kept |
| Annotations.TextIsSingletonList | src/Annotation/HttpMethod.php:23-25 | a true string value acts as the one-element list holding it |
| Annotations.LowerCaseListingAdmits | src/Annotation/HttpMethod.php:27-30 | listing `post` admits POST and answers GET with 400 |
| Annotations.CheckSecure | src/Annotation/Secure.php:17-24 | a plain-HTTP request under a true value is redirected with 301 to its HTTPS URL; a secure request or a false value changes nothing |
| Annotations.HandleAnnotation | src/Annotation/AnnotationHandler.php:52 | a value reading as false changes nothing; otherwise only the event's response can change, and only to the handler's refusal (400 for `httpMethod`, a 301 HTTPS redirect for `secure`) |
| Annotations.HandleControllerAnnotations | src/Annotation/AnnotationHandler.php:36-40 | a class without the handler's annotation is left alone; the event keeps its request and controller, and a changed response is the handler's refusal |
| Annotations.HandleActionAnnotations | src/Annotation/AnnotationHandler.php:42-46 | an action method without the handler's annotation is left alone; the event keeps its request and action, and a changed response is the handler's refusal |
| Annotations.ControllerHandlingReadsClassLevel | src/Annotation/AnnotationHandler.php:36-40 | controller-loaded handling depends only on the class annotation under the handler's name |
| Annotations.ActionHandlingReadsMethodLevel | src/Annotation/AnnotationHandler.php:42-46 | before-action handling depends only on the action method's annotation under the handler's name |
| Annotations.ClassLevelRestriction | src/Annotation/AnnotationHandler.php:36-40 | a class annotated `@httpMethod post` turns GET away with 400 once its controller is loaded |
| Attributes.NewHttpMethod | src/Attributes/HttpMethod.php:16-20 | the attribute holds one upper-cased method per argument, in argument order, and is already normalised |
| Attributes.AttributeClass | src/Attributes/HttpMethodHandler.php:10-13 | a handler's attribute class is the class of exactly the attributes of the handler's own kind |
| Attributes.HandleRequest | src/Attributes/HttpMethodHandler.php:15-21 | the method handler answers 405 exactly when the request method is not listed; the secure handler answers a 301 redirect exactly when the request is plain HTTP |
| Attributes.HandleController | src/Attributes/BasicAttributeHandler.php:13-16 | on a controller, the method handler answers 405 exactly when the request method is not listed and the secure handler a 301 HTTPS redirect exactly when the request is plain HTTP; the class plays no part |
| Attributes.HandleAction | src/Attributes/BasicAttributeHandler.php:18-21 | on an action, the same answers as on a controller; the method plays no part |
| Attributes.ControllerAndActionAgree | src/Attributes/BasicAttributeHandler.php:13-21 | an attribute gives the same answer on any controller and on any action |
| Attributes.MethodMatchIsExact | src/Attributes/HttpMethod.php:19 | `#[HttpMethod('post')]` admits a POST request and answers a GET request with 405 |
| Attributes.MethodGuardsAgree | src/Annotation/HttpMethod.php:28-30 | the annotation guard and the attribute guard turn away the same requests, with 400 and 405 respectively |
| Attributes.SecureGuardsAgree | src/Attributes/SecureHandler.php:19-26 | the annotation and attribute HTTPS guards redirect to the same URL with 301 |
| Routing.NewRouter | src/Router.php:58-63 | a new router has no routes, no handlers and no error handler |
| Routing.SetErrorHandler | src/Router.php:336-340 | only the error handler changes |
| Routing.AddRoute | src/Router.php:81-93 | the route is stored under `path:methods` with its path, methods and a `_controller` of `controller::action` when the action is true; every other route is kept |
| Routing.AddRouteKeepsWellFormed | src/Router.php:86 | every route added this way carries a `_controller` |
| Routing.AddEntry | src/Router.php:109 | an entry is accepted exactly when its path and controller are strings and its action is not an array; an accepted entry is filed under its `path:methods` key and every earlier key stays; null methods are accepted and give a route for every method, filed under `path:` |
| Routing.AddRoutes | src/Router.php:102-111 | a successful batch had only entries of three or four arguments, keeps every route name already filed and files every entry under its `path:methods` key (a later entry may replace an earlier one's route, not its key); routes stay well formed; nothing but the routes changes |
| Routing.AddRoutesConcat | src/Router.php:104-110 | adding two batches in turn equals adding their concatenation, stopping at the first exception |
| Routing.BadEntryKeepsEarlier | src/Router.php:105-108 | an entry of the wrong size throws InvalidArgumentException and keeps the routes added before it |
| Routing.AddCustomRoute | src/Router.php:127-135 | a route whose `_controller` is missing or false is refused with InvalidArgumentException and nothing changes; otherwise it is stored under its name |
| Routing.AddAnnotationHandler | src/Router.php:142-151 | registration fails exactly when the name is taken; otherwise the handler is stored under its name |
| Routing.RemoveAnnotationHandler | src/Router.php:158-168 | removal fails exactly when the name is not registered; otherwise only that name is removed |
| Routing.AddThenRemoveRestores | src/Router.php:142-168 | registering and then removing a new handler restores the router |
| Routing.DuplicateRegistrationThrows | src/Router.php:144-146 | registering the same handler twice throws |
| Routing.SplitController | src/Router.php:197-198 | with no `::` the controller is the whole string and there is no action; otherwise the controller is the text before the first `::` and the action is the text after it up to the next `::` or the end, as `list(...) = explode('::', ...)` keeps only the first two pieces |
| Routing.ActionMethodName | src/Router.php:199-201 | the method name always contains `Action`; a name without it is extended by the `Action` suffix |
| Routing.ActionMethodNameIdempotent | src/Router.php:199-201 | completing a method name twice equals completing it once |
| Routing.ControllerDefaultRoundTrip | src/Router.php:83-85 | a controller and a true action stored as a route default are split back into the same pair |
| Routing.ControllerOnlyRoundTrip | src/Router.php:83-85 | a controller stored without an action is read back without one |
| Pipeline.React | src/Event/RouterEvent.php:41-44 | a listener's reaction never changes the request and never clears a response |
| Pipeline.EventNames | src/Router.php:359-368 | the event fans out to itself, then `.controller` when the controller attribute is set, then `.controller.action` when the action is also set |
| Pipeline.FireAll | src/Router.php:359-368 | dispatch stops at the first exception; the names dispatched form a prefix of the fan-out |
| Pipeline.DispatchEvent | src/Router.php:356-385 | the names dispatched are the fan-out's, stopping at the first exception; without an error handler, an exception escapes; with one, an `\Error` it does not declare it takes escapes as a TypeError, an exception the handler throws (or rethrows) escapes, a handler answering nothing swallows the exception and leaves the event as the listeners left it, and a handler's response becomes the event's response, except on an after-send event, where setting it throws BadMethodCallException; an answer is the event's response, and after-action and response-sent never answer |
| Pipeline.QuietDispatch | src/Router.php:356-385 | with no listener reacting, dispatch fires the whole fan-out and answers nothing |
| Pipeline.ResponseSentCannotBeReplaced | src/Event/AfterSendEvent.php:23-26 | a response set on the response-sent event ends in BadMethodCallException: with no error handler, or with one that answers that exception with a response (a handler answering nothing swallows it) |
| Pipeline.HandleError | src/Router.php:392-401 | without an error handler the error page is the standard status text with the code; otherwise it is the handler's page, and a handler that throws or returns no response makes it fail |
| Pipeline.MatchAction | src/Router.php:256-270 | the `action` attribute is set to a true value, and an action method is found exactly when `<action>Action` exists |
| Pipeline.ActionFromLastSegment | src/Router.php:258-262 | the action is the path's last segment, or `index` when that segment reads as false |
| Pipeline.BindParams | src/Router.php:294-305 | binding succeeds exactly when every parameter has a request value or a default, with values in parameter order; on failure it names the first parameter missing both |
| Pipeline.InvokeAction | src/Router.php:279-330 | an action is invoked only on its own controller, only when it is public, and only with the arguments bound from the request; a missing method throws ReflectionException; an action's exception escapes when there is no error handler or when it is an `\Error`, and an exception the handler throws for it escapes in its place |
| Pipeline.SendResponse | src/Router.php:408-415 | sending dispatches before-send once and then a prefix of the response-sent fan-out, the whole fan-out when there is no error handler and nothing escapes |
| Pipeline.Finish | src/Router.php:238 | the response sent is the response routed, and the trace only grows |
| Pipeline.Load | src/Router.php:212-236 | the controller invoked is the factory's for the name, even when a listener swapped it; an action named by the route is the one invoked; a missing controller without an error handler gives 404 Not Found |
| Pipeline.MatchAttributes | src/Router.php:203-205 | the request gains exactly the route defaults, the path parameters and `_route`: `_route` is the route's name, a path parameter overrides a default of the same key, and every other default is kept |
| Pipeline.Route | src/Router.php:182-239 | every run starts with the request event; an action runs only after the factory was consulted; without a route match, it runs on the controller named by the path; on a route match, on the controller named by the route's `_controller`, and an action the route names is the one invoked, completed by `Action` |
| Pipeline.LoadMatched | src/Router.php:195-205 | a matched route consults the factory and keeps the trace so far; the controller invoked is the factory's for the controller part of `_controller`, and the action invoked is the action part completed by `Action` |
| RouteProperties.RequestListenerAnswers | src/Router.php:184-188 | a response from a request listener is sent without consulting the factory |
| RouteProperties.BeforeSendReplacementIgnored | src/Router.php:410 | a response set on the before-send event is not the one returned |
| RouteProperties.MethodNotAllowedIs405 | src/Router.php:208-209 | a method mismatch is answered 405 "Invalid http method" without loading a controller |
| RouteProperties.MissingControllerIs404 | src/Router.php:215-216 | a path naming no controller is answered with the 404 error page; when producing that page fails, its exception escapes |
| RouteProperties.NonPublicActionIs500 | src/Router.php:283-286 | a non-public action is not invoked and is answered 500 |
| RouteProperties.BeforeActionAnswers | src/Router.php:288-292 | a before-action listener's response is returned and the action is not invoked |
| RouteProperties.MissingParameterIs400 | src/Router.php:297-302 | a required parameter missing from the request is answered with the 400 error page naming the first missing parameter (plain 400 Bad Request without an error handler), and the action is not invoked |
| RouteProperties.ActionExceptionEscapes | src/Router.php:311-317 | without an error handler, an action's exception escapes routing |
| RouteProperties.HandledExceptionBecomesResponse | src/Router.php:311-313 | with an error handler installed, an action's `\Exception` is answered by the handler's response |
| RouteProperties.HandlerThrowEscapes | src/Router.php:309-313 | an error handler that throws from `handleException` lets that exception escape the action call, before the after-action event |
| RouteProperties.ActionTypeErrorEscapesHandler | src/Router.php:309-318 | a TypeError thrown by the action escapes even when an error handler is installed |
| RouteProperties.ActionResultBecomesResponse | src/Router.php:320-322 | an action returning no response is answered with its printed output and status 200 |
| RouteProperties.AfterActionReplaces | src/Router.php:326-329 | a response set by an after-action listener replaces the action's response |
| RouteProperties.RootSelectsIndex | src/Router.php:258-262 | the site root selects action `index` |
| RouteProperties.RootDispatchesThirteenEvents | src/Router.php:182-239 | the site root with no listeners answers the index action's output with 200, invoking `indexAction` once, after exactly 13 named dispatches in order |
| RouteProperties.MissingUrlActionIs404 | src/Router.php:229-232 | a path whose action method is missing is answered 404 and nothing is invoked |
| RouteProperties.ExplicitActionNotChecked | src/Router.php:197-201 | an action named by a route is not checked to exist, so a missing one escapes as ReflectionException |

## Left out

- Symfony's UrlMatcher, RouteCollection and RequestContext are left out. The matcher's answer is part of the world: found with parameters, not found, or method not allowed. Routes form a map keyed by name, so registration order and Symfony's precedence among matching routes are not modelled.
- The EventDispatcher internals are left out. Listener priorities, stopping propagation and several listeners on one name are not modelled. A listener is one reaction per event name: stay silent, set a response, throw, or swap the controller. Listeners that modify the request are not modelled.
- `Response::prepare` and `Response::send`, output buffering and headers are not modelled. An action's printed output is part of its outcome.
- Reflection, `class_exists`, `method_exists` and `newInstanceArgs` are left out. They are stood in for by the class and method tables, including `method_exists`'s case-insensitivity. Constructor exceptions are not modelled.
- The PSR-11 container is a map from class name to controller, so a container returning a non-controller is not modelled.
- The Minime annotation reader is a table of parsed values. Integer and float annotation values are not modelled.
- `in_array` is modelled as exact membership, so loose comparison of numeric strings is not modelled.
- Parameter defaults, route defaults and the values the URL matcher returns are strings. Null or non-string values are not modelled: a null route default (Symfony's optional placeholder) would become a null request attribute, which shadows the query and the body in `Request::get`, so the parameter binding would treat it as missing. Variadic parameters are not modelled.
- Attributes.HandleRequest: the method handler is called only with an `HttpMethod` attribute, as `getAttributeClass` pairs them; handing it another attribute, whose missing `methods` makes `in_array` fail, is not modelled.
- `Request::getMethod` upper-cases the method; the model's `httpMethod` is any string, and the lemmas about methods use upper-case ones.
- Routing.AddEntry: the TypeErrors PHP raises for badly typed entries keep no message. Named keys in the argument array are not modelled.
- `Controller::setRequest`, `getControllerFactory`, `getUrlMatcher` and the getters of the controller factory are plain accessors and have no member.
- src/Controller.php, src/AnnotationHandler.php, SendResponseException and the interfaces are not part of this model.
- Pipeline.SendResponse: the full response-sent fan-out is stated only when there is no error handler and nothing escapes; with an error handler, a throwing listener stops the fan-out part way and only the prefix is stated.
- Attributes.MethodGuardsAgree: the equality in one direction is stated only when the attribute admits the request. Otherwise it states both statuses: the annotation guard still replaces a response already on the event.
- Exceptions form a closed set. `TypeError` stands for PHP's `\Error` and every other case for an `\Exception`; the action's `catch (\Exception)` lets only the former through, while the dispatcher's `catch (\Throwable)` catches both but can hand an `\Error` only to an error handler that widens `handleException`'s parameter to `\Throwable` (the handler's `takesThrowable` flag); any other handler makes the call itself fail with a TypeError, which escapes. The message of that TypeError is a fixed string rather than PHP's, which names the implementing class.
- Routing.AddEntry: the routes are Symfony 4 routes, whose constructor casts null methods to an empty list; later Symfony versions reject null methods with a TypeError, which is not modelled.
- Routing.AddAnnotationHandler: registering and removing a handler changes the router's registry only. Its subscription to the event dispatcher is not modelled: the listeners are part of the world, so a registered handler does not by itself change what the listeners do. Listeners that change a response in place, rather than set a new one, are not expressible.
- Routing.RemoveAnnotationHandler: likewise, removal changes the registry only; the unsubscription from the event dispatcher is not modelled.
