/**
 * The slice of the HTTP message model (requests, responses, status texts) and of
 * PHP's exception hierarchy that the router reads and produces.
 */
module Http {
  import opened Wrappers
  import opened Php

  /** The exceptions the router throws or lets through. */
  datatype Exception =
    | InvalidArgumentException(message: string)
    | LogicException(message: string)
    | BadMethodCallException(message: string)
    | ReflectionException(message: string)
    | TypeError(message: string)
      /** Raised by code outside the router: a listener, an action, a handler. */
    | ApplicationException(tag: string)

  /**
   * Whether PHP throws it as an `\Error` rather than an `\Exception`: a
   * `catch (\Exception $e)` lets it through, a `catch (\Throwable $e)` does not.
   */
  predicate IsError(x: Exception) {
    x.TypeError?
  }

  /**
   * The state of an object after a call on it that may throw: the object as the
   * call left it, and the exception that escaped, if any.
   */
  datatype Effect<+T> = Effect(after: T, thrown: Option<Exception>)

  /** A response: a plain one with a body, or a redirect to a target URL. */
  datatype Response =
    | Response(content: string, status: int)
    | RedirectResponse(targetUrl: string, status: int)

  /**
   * The parts of an incoming request the router reads. `attributes`, `query` and
   * `body` are the three parameter bags, searched in that order by `Get`.
   */
  datatype Request = Request(
    httpMethod: string,
    pathInfo: string,
    baseUrl: string,
    schemeAndHttpHost: string,
    requestUri: string,
    isSecure: bool,
    attributes: map<string, string>,
    query: map<string, string>,
    body: map<string, string>)
  {
    /** A request parameter: routing attributes first, then the query string, then the body. */
    function Get(key: string): (v: Option<string>)
      ensures key in attributes ==> v == Some(attributes[key])
      ensures key !in attributes && key in query ==> v == Some(query[key])
      ensures key !in attributes && key !in query && key in body ==> v == Some(body[key])
      ensures v.None? <==> key !in attributes && key !in query && key !in body
    {
      if key in attributes then Some(attributes[key])
      else if key in query then Some(query[key])
      else if key in body then Some(body[key])
      else None
    }

    function SetAttribute(key: string, value: string): (r: Request)
      ensures r.attributes == attributes[key := value]
      ensures r.(attributes := attributes) == this
    {
      this.(attributes := attributes[key := value])
    }
  }

  /** The reason phrases of the status codes the router answers with. */
  function StatusText(code: int): string {
    match code
    case 301 => "Moved Permanently"
    case 400 => "Bad Request"
    case 404 => "Not Found"
    case 405 => "Method Not Allowed"
    case 500 => "Internal Server Error"
    case _ => ""
  }

  /**
   * The HTTPS form of the request's URL, as both secure-redirect handlers build it:
   * every `http` in the scheme-and-host is replaced by `https`, then the request URI
   * is appended unchanged.
   */
  function SecureUrl(req: Request): string {
    ReplaceAll("http", "https", req.schemeAndHttpHost) + req.requestUri
  }

  /** A subject that does not start with `h` keeps its first character and rewrites its tail. */
  lemma RewriteStep(t: string)
    requires ReplaceAll("http", "https", t) != []
    ensures t != []
    ensures ReplaceAll("http", "https", t)[0] == t[0]
    ensures t[0] != 'h' ==> ReplaceAll("http", "https", t) == [t[0]] + ReplaceAll("http", "https", t[1..])
  {
  }

  /**
   * A subject that does not start with `http` is not rewritten into one that starts
   * with `https`: its first four characters come through unchanged.
   */
  lemma HeadNotHttps(s: string)
    requires |s| >= 4 && s[..4] != "http"
    ensures !(|ReplaceAll("http", "https", s)| >= 5 && ReplaceAll("http", "https", s)[..5] == "https")
  {
    var out := ReplaceAll("http", "https", s);
    var t1 := ReplaceAll("http", "https", s[1..]);
    assert out == [s[0]] + t1;
    RewriteStep(s[1..]);
    if |out| >= 5 {
      if s[0] != 'h' {
        assert out[..5][0] != "https"[0];
      } else if s[1] != 't' {
        assert out[..5][1] == t1[0] == s[1];
      } else {
        var t2 := ReplaceAll("http", "https", s[2..]);
        assert s[1..][1..] == s[2..];
        assert t1 == [s[1]] + t2;
        RewriteStep(s[2..]);
        if s[2] != 't' {
          assert out[..5][2] == t2[0] == s[2];
        } else {
          var t3 := ReplaceAll("http", "https", s[3..]);
          assert s[2..][1..] == s[3..];
          assert t2 == [s[2]] + t3;
          RewriteStep(s[3..]);
          assert s[..4] == [s[0], s[1], s[2], s[3]];
          assert s[3] != 'p';
          assert out[..5][3] == t3[0] == s[3];
        }
      }
    }
  }

  /** Text with no `h` in it holds no `http` and is left as it is. */
  lemma NoHUntouched(s: string)
    requires 'h' !in s
    ensures ReplaceAll("http", "https", s) == s
  {
    forall j: nat
      ensures !OccursAt(s, "http", j)
    {
      if j + 4 <= |s| {
        assert s[j..j + 4][0] == s[j];
      }
    }
    ReplaceAllAbsent("http", "https", s);
  }

  /** One `http` between two stretches of text without an `h` becomes one `https`. */
  lemma RewriteOnce(pre: string, post: string)
    requires 'h' !in pre && 'h' !in post
    ensures ReplaceAll("http", "https", pre + "http" + post) == pre + "https" + post
  {
    var s := pre + "http" + post;
    assert OccursAt(s, "http", |pre|) by {
      assert s[|pre|..|pre| + 4] == "http";
    }
    forall j: nat | j < |pre|
      ensures !OccursAt(s, "http", j)
    {
      assert s[j..j + 4][0] == s[j] == pre[j];
    }
    ReplaceAllFirst("http", "https", s, |pre|);
    assert s[..|pre|] == pre;
    assert s[|pre| + 4..] == post;
    NoHUntouched(post);
  }

  /** A leading `http` and one more further on are both rewritten. */
  lemma RewriteTwice(mid: string, post: string)
    requires 'h' !in mid && 'h' !in post
    ensures ReplaceAll("http", "https", "http" + mid + "http" + post) == "https" + mid + "https" + post
  {
    var s := "http" + mid + "http" + post;
    assert OccursAt(s, "http", 0) by {
      assert s[..4] == "http";
    }
    assert s[4..] == mid + "http" + post;
    ReplaceAllAtStart("http", "https", s);
    RewriteOnce(mid, post);
  }

  /** How `http://httpbin.org` and its HTTPS form split around their two `http`s. */
  lemma HttpbinParts(s: string)
    requires s == "http://httpbin.org"
    ensures s == "http" + "://" + "http" + "bin.org"
    ensures "https" + "://" + "https" + "bin.org" == "https://httpsbin.org"
    ensures 'h' !in "://" && 'h' !in "bin.org"
  {
  }

  /**
   * Every `http` is rewritten, not only the scheme: `http://httpbin.org` becomes
   * `https://httpsbin.org`.
   */
  lemma HttpbinRewrite(s: string)
    requires s == "http://httpbin.org"
    ensures ReplaceAll("http", "https", s) == "https://httpsbin.org"
  {
    HttpbinParts(s);
    RewriteTwice("://", "bin.org");
  }

  /**
   * Rewriting `http` to `https` loses nothing: rewriting `https` back to `http`
   * restores the original text, whatever it held.
   */
  lemma {:induction false} HttpsRewriteRoundTrip(s: string)
    ensures ReplaceAll("https", "http", ReplaceAll("http", "https", s)) == s
    decreases |s|
  {
    if |s| < 4 {
      assert ReplaceAll("http", "https", s) == s;
      assert ReplaceAll("https", "http", s) == s;
    } else if s[..4] == "http" {
      var rest := ReplaceAll("http", "https", s[4..]);
      assert ReplaceAll("http", "https", s) == "https" + rest;
      assert ("https" + rest)[..5] == "https";
      assert ("https" + rest)[5..] == rest;
      HttpsRewriteRoundTrip(s[4..]);
    } else {
      var rest := ReplaceAll("http", "https", s[1..]);
      var out := [s[0]] + rest;
      assert ReplaceAll("http", "https", s) == out;
      HeadNotHttps(s);
      assert out[1..] == rest;
      HttpsRewriteRoundTrip(s[1..]);
    }
  }
}
