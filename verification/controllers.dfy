/**
 * The default controller factory: it derives a controller name from the URL path by
 * convention and searches the configured namespaces for a matching controller class.
 */
module Controllers {
  import opened Wrappers
  import opened Php
  import opened Runtime

  /**
   * The factory's configuration. `container` is the optional dependency-injection
   * container, seen as the classes it has and the instance it returns for each.
   */
  datatype ControllerFactory = ControllerFactory(
    namespaces: seq<string>,
    dependencies: seq<string>,
    container: Option<map<string, Controller>>)

  // ---------------------------------------------------------------------------
  // Controller names from paths
  // ---------------------------------------------------------------------------

  /** The characters the sanitizer keeps: ASCII letters, digits and `/`. */
  predicate IsPathNameChar(c: char) {
    IsLower(c) || IsUpper(c) || IsDigit(c) || c == '/'
  }

  /** The characters a controller name can hold: ASCII letters, digits and `\`. */
  predicate IsClassNameChar(c: char) {
    IsLower(c) || IsUpper(c) || IsDigit(c) || c == '\\'
  }

  /** Drops every character outside `[A-Za-z0-9/]`, keeping the rest in order. */
  function Sanitize(s: string): (r: string)
    ensures |r| <= |s|
    ensures forall i :: 0 <= i < |r| ==> IsPathNameChar(r[i])
  {
    if s == [] then []
    else (if IsPathNameChar(s[0]) then [s[0]] else []) + Sanitize(s[1..])
  }

  /** A string made only of kept characters passes through the sanitizer unchanged. */
  lemma {:induction false} SanitizeKeepsAllowed(s: string)
    requires forall i :: 0 <= i < |s| ==> IsPathNameChar(s[i])
    ensures Sanitize(s) == s
  {
    if s != [] {
      SanitizeKeepsAllowed(s[1..]);
    }
  }

  /** Sanitizing twice is sanitizing once. */
  lemma SanitizeIdempotent(s: string)
    ensures Sanitize(Sanitize(s)) == Sanitize(s)
  {
    SanitizeKeepsAllowed(Sanitize(s));
  }

  /** The sanitizer works character by character: it distributes over concatenation. */
  lemma {:induction false} SanitizeConcat(a: string, b: string)
    ensures Sanitize(a + b) == Sanitize(a) + Sanitize(b)
  {
    if a != [] {
      assert (a + b)[1..] == a[1..] + b;
      SanitizeConcat(a[1..], b);
    } else {
      assert a + b == b;
    }
  }

  /** Turns every `/` into `\`, leaving every other character in place. */
  function FlipSlashes(s: string): (r: string)
    ensures |r| == |s|
    ensures forall i :: 0 <= i < |s| ==> r[i] == (if s[i] == '/' then '\\' else s[i])
  {
    if s == [] then [] else [if s[0] == '/' then '\\' else s[0]] + FlipSlashes(s[1..])
  }

  /** Flipping works character by character: it distributes over concatenation. */
  lemma {:induction false} FlipSlashesConcat(a: string, b: string)
    ensures FlipSlashes(a + b) == FlipSlashes(a) + FlipSlashes(b)
  {
    if a != [] {
      assert (a + b)[1..] == a[1..] + b;
      FlipSlashesConcat(a[1..], b);
    } else {
      assert a + b == b;
    }
  }

  /** Whether position `i` starts a name segment: the very start, or right after a `\`. */
  predicate StartsSegment(s: string, i: nat, atStart: bool)
    requires i < |s|
  {
    if i == 0 then atStart else s[i - 1] == '\\'
  }

  /**
   * Upper-cases a lower-case ASCII letter at the start of the string (when
   * `atStart`) and after each `\`; every other character keeps its case.
   */
  function Capitalize(s: string, atStart: bool): (r: string)
    ensures |r| == |s|
  {
    if s == [] then []
    else [if atStart then UpperChar(s[0]) else s[0]] + Capitalize(s[1..], s[0] == '\\')
  }

  /**
   * Capitalizing changes exactly the characters that start a segment, and those
   * only by upper-casing them.
   */
  lemma {:induction false} CapitalizeAt(s: string, atStart: bool)
    ensures forall i :: 0 <= i < |s| ==>
      Capitalize(s, atStart)[i] == (if StartsSegment(s, i, atStart) then UpperChar(s[i]) else s[i])
  {
    if s != [] {
      var t := s[1..];
      CapitalizeAt(t, s[0] == '\\');
      forall i | 0 < i < |s|
        ensures Capitalize(s, atStart)[i] == (if StartsSegment(s, i, atStart) then UpperChar(s[i]) else s[i])
      {
        assert t[i - 1] == s[i];
        assert StartsSegment(s, i, atStart) == StartsSegment(t, i - 1, s[0] == '\\') by {
          if i > 1 { assert t[i - 2] == s[i - 1]; }
        }
      }
    }
  }

  /**
   * Capitalizing a concatenation capitalizes each part, the second one starting a
   * segment exactly when the first part ends with `\\` (or is empty and the whole did).
   */
  lemma {:induction false} CapitalizeConcat(a: string, b: string, atStart: bool)
    ensures Capitalize(a + b, atStart)
         == Capitalize(a, atStart) + Capitalize(b, if a == [] then atStart else a[|a| - 1] == '\\')
  {
    if a != [] {
      assert (a + b)[1..] == a[1..] + b;
      CapitalizeConcat(a[1..], b, a[0] == '\\');
      if |a| > 1 {
        assert a[1..][|a| - 2] == a[|a| - 1];
      }
    } else {
      assert a + b == b;
    }
  }

  /** Away from a segment start and without a `\\` before its last character, nothing changes. */
  lemma {:induction false} CapitalizeInsideSegment(s: string)
    requires forall i :: 0 <= i < |s| - 1 ==> s[i] != '\\'
    ensures Capitalize(s, false) == s
  {
    if s != [] {
      CapitalizeInsideSegment(s[1..]);
    }
  }

  /** `pathInfo` has a `/` after its first character, and its last `/` is at `k`. */
  predicate LastSlashAt(pathInfo: string, k: nat) {
    && 0 < k < |pathInfo|
    && pathInfo[k] == '/'
    && forall j :: k < j < |pathInfo| ==> pathInfo[j] != '/'
  }

  /**
   * The segment of `baseUrl + pathInfo` the controller name is read from: after
   * the first character, up to the last `/`.
   */
  function NameSource(pathInfo: string, baseUrl: string): (raw: string)
    requires LastIndexOf(pathInfo, '/').Some? && LastIndexOf(pathInfo, '/').value > 0
  {
    var path := baseUrl + pathInfo;
    var k := LastIndexOf(pathInfo, '/').value;
    assert path[|baseUrl| + k] == '/';
    var last := LastIndexOf(path, '/').value;
    path[1..last]
  }

  /**
   * `getControllerName`: `Index` when the path info has no `/` past its first
   * character; otherwise the text of base URL plus path info strictly between its
   * first character and its last `/`, sanitized, with `/` turned into `\` and each
   * segment capitalized.
   */
  function ControllerName(pathInfo: string, baseUrl: string): (name: string)
    ensures forall i :: 0 <= i < |name| ==> IsClassNameChar(name[i])
    ensures (forall i :: 0 < i < |pathInfo| ==> pathInfo[i] != '/') ==> name == "Index"
  {
    match LastIndexOf(pathInfo, '/')
    case None => "Index"
    case Some(k) =>
      if k == 0 then "Index"
      else
        var flipped := FlipSlashes(Sanitize(NameSource(pathInfo, baseUrl)));
        assert forall i :: 0 <= i < |flipped| ==> IsClassNameChar(flipped[i]);
        CapitalizeAt(flipped, true);
        Capitalize(flipped, true)
  }

  /**
   * With the last `/` of the path info at `k > 0`, the name is built from exactly
   * the characters of `baseUrl + pathInfo` between index 1 and that `/`.
   */
  lemma ControllerNameFromSegment(pathInfo: string, baseUrl: string, k: nat)
    requires LastSlashAt(pathInfo, k)
    ensures ControllerName(pathInfo, baseUrl)
         == Capitalize(FlipSlashes(Sanitize((baseUrl + pathInfo)[1..|baseUrl| + k])), true)
  {
    LastIndexOfIs(pathInfo, '/', k);
    NameSourceIs(pathInfo, baseUrl, k);
  }

  /** With the last `/` of the path info at `k > 0`, the name's source ends at that `/`. */
  lemma NameSourceIs(pathInfo: string, baseUrl: string, k: nat)
    requires LastSlashAt(pathInfo, k) && LastIndexOf(pathInfo, '/') == Some(k)
    ensures NameSource(pathInfo, baseUrl) == (baseUrl + pathInfo)[1..|baseUrl| + k]
  {
    var path := baseUrl + pathInfo;
    assert path[|baseUrl| + k] == '/';
    assert forall j :: |baseUrl| + k < j < |path| ==> path[j] == pathInfo[j - |baseUrl|];
    LastIndexOfIs(path, '/', |baseUrl| + k);
  }

  // ---------------------------------------------------------------------------
  // Controller lookup
  // ---------------------------------------------------------------------------

  /** The class a namespace and a controller name designate. */
  function ClassName(ns: string, name: string): string {
    ns + "\\" + name + "Controller"
  }

  /**
   * `createController`: the container's instance when the container has the class;
   * otherwise a new instance built with the configured dependencies, kept only if
   * it is a controller.
   */
  function CreateController(f: ControllerFactory, classes: Classes, cls: string): (c: Option<Controller>)
    ensures f.container.Some? && cls in f.container.value ==> c == Some(f.container.value[cls])
    ensures !(f.container.Some? && cls in f.container.value) ==>
      c == (if classes.isController(cls) then Some(Controller(cls, f.dependencies)) else None)
  {
    if f.container.Some? && cls in f.container.value then Some(f.container.value[cls])
    else if classes.isController(cls) then Some(Controller(cls, f.dependencies))
    else None
  }

  /**
   * What one namespace yields for `name`: the controller for `NameController` when
   * that class exists; otherwise the one for `Name\IndexController`, when that exists.
   */
  function NamespaceResult(f: ControllerFactory, classes: Classes, ns: string, name: string): Option<Controller> {
    if classes.classExists(ClassName(ns, name)) then CreateController(f, classes, ClassName(ns, name))
    else if classes.classExists(ClassName(ns, name + "\\Index")) then
      CreateController(f, classes, ClassName(ns, name + "\\Index"))
    else None
  }

  /**
   * The name the search carries on to the next namespace: unchanged when
   * `NameController` existed in `ns`, otherwise extended by `\Index`.
   */
  function NextName(classes: Classes, ns: string, name: string): string {
    if classes.classExists(ClassName(ns, name)) then name else name + "\\Index"
  }

  /**
   * The namespace search from `namespaces` on, with `name` the controller name as
   * the search has left it. When a namespace lacks `Name` it tries `Name\Index`, and
   * that longer name is the one later namespaces are searched under.
   */
  function FindController(f: ControllerFactory, classes: Classes, namespaces: seq<string>, name: string)
    : (c: Option<Controller>)
    ensures c.Some? ==> exists cls :: classes.classExists(cls) && CreateController(f, classes, cls) == c
    decreases |namespaces|
  {
    if namespaces == [] then None
    else
      var c := NamespaceResult(f, classes, namespaces[0], name);
      if c.Some? then c else FindController(f, classes, namespaces[1..], NextName(classes, namespaces[0], name))
  }

  /** The name the search has reached after the first `k` namespaces. */
  function NameAfter(classes: Classes, namespaces: seq<string>, k: nat, name: string): string
    requires k <= |namespaces|
  {
    if k == 0 then name else NextName(classes, namespaces[k - 1], NameAfter(classes, namespaces, k - 1, name))
  }

  /**
   * Namespaces that yield nothing are skipped, in order: after `k` of them the
   * search goes on in the rest under the name accumulated so far.
   */
  lemma {:induction false} FindControllerSkips(
    f: ControllerFactory, classes: Classes, namespaces: seq<string>, k: nat, name: string)
    requires k <= |namespaces|
    requires forall i :: 0 <= i < k ==>
      NamespaceResult(f, classes, namespaces[i], NameAfter(classes, namespaces, i, name)).None?
    ensures FindController(f, classes, namespaces, name)
         == FindController(f, classes, namespaces[k..], NameAfter(classes, namespaces, k, name))
  {
    if k > 0 {
      FindControllerSkips(f, classes, namespaces, k - 1, name);
      var rest := namespaces[k - 1..];
      assert rest[0] == namespaces[k - 1] && rest[1..] == namespaces[k..];
    } else {
      assert namespaces[0..] == namespaces;
    }
  }

  /**
   * The search returns what the first namespace that yields anything yields: when
   * the first `k` namespaces yield nothing and namespace `k` yields `c`, the result is `c`.
   */
  lemma FirstYieldingNamespaceWins(
    f: ControllerFactory, classes: Classes, namespaces: seq<string>, k: nat, name: string)
    requires k < |namespaces|
    requires forall i :: 0 <= i < k ==>
      NamespaceResult(f, classes, namespaces[i], NameAfter(classes, namespaces, i, name)).None?
    requires NamespaceResult(f, classes, namespaces[k], NameAfter(classes, namespaces, k, name)).Some?
    ensures FindController(f, classes, namespaces, name)
         == NamespaceResult(f, classes, namespaces[k], NameAfter(classes, namespaces, k, name))
  {
    FindControllerSkips(f, classes, namespaces, k, name);
    assert namespaces[k..][0] == namespaces[k];
  }

  /** When no namespace yields anything, there is no controller. */
  lemma NoYieldNoController(f: ControllerFactory, classes: Classes, namespaces: seq<string>, name: string)
    requires forall i :: 0 <= i < |namespaces| ==>
      NamespaceResult(f, classes, namespaces[i], NameAfter(classes, namespaces, i, name)).None?
    ensures FindController(f, classes, namespaces, name).None?
  {
    FindControllerSkips(f, classes, namespaces, |namespaces|, name);
    assert namespaces[|namespaces|..] == [];
  }

  /** `getController`: the first controller the namespace search produces, if any. */
  function GetController(f: ControllerFactory, classes: Classes, name: string): (c: Option<Controller>)
    ensures c.Some? ==> exists cls :: classes.classExists(cls) && CreateController(f, classes, cls) == c
  {
    FindController(f, classes, f.namespaces, name)
  }

  /** `setNamespaces`: `getNamespaces` afterwards returns exactly the list set. */
  function SetNamespaces(f: ControllerFactory, namespaces: seq<string>): (g: ControllerFactory)
    ensures g.namespaces == namespaces
    ensures g.dependencies == f.dependencies && g.container == f.container
  {
    f.(namespaces := namespaces)
  }

  /** `setDependencies`: `getDependencies` afterwards returns exactly the list set. */
  function SetDependencies(f: ControllerFactory, dependencies: seq<string>): (g: ControllerFactory)
    ensures g.dependencies == dependencies
    ensures g.namespaces == f.namespaces && g.container == f.container
  {
    f.(dependencies := dependencies)
  }

  // ---------------------------------------------------------------------------
  // Properties of the search
  // ---------------------------------------------------------------------------

  /** When the first namespace holds a controller under the name itself, that one is returned. */
  lemma FirstNamespaceWins(f: ControllerFactory, classes: Classes, name: string)
    requires f.namespaces != []
    requires classes.classExists(ClassName(f.namespaces[0], name))
    requires CreateController(f, classes, ClassName(f.namespaces[0], name)).Some?
    ensures GetController(f, classes, name) == CreateController(f, classes, ClassName(f.namespaces[0], name))
  {
  }

  /**
   * When a namespace lacks `NameController` but has `Name\IndexController`, that
   * index controller is returned.
   */
  lemma IndexFallback(f: ControllerFactory, classes: Classes, name: string)
    requires f.namespaces != []
    requires !classes.classExists(ClassName(f.namespaces[0], name))
    requires classes.classExists(ClassName(f.namespaces[0], name + "\\Index"))
    requires CreateController(f, classes, ClassName(f.namespaces[0], name + "\\Index")).Some?
    ensures GetController(f, classes, name)
         == CreateController(f, classes, ClassName(f.namespaces[0], name + "\\Index"))
  {
  }

  /** Without any existing class there is no controller. */
  lemma {:induction false} NoClassNoController(
    f: ControllerFactory, classes: Classes, namespaces: seq<string>, name: string)
    requires forall cls :: !classes.classExists(cls)
    ensures FindController(f, classes, namespaces, name).None?
    decreases |namespaces|
  {
    if namespaces != [] {
      NoClassNoController(f, classes, namespaces[1..], name + "\\Index");
    }
  }

  /** Classes where only `B\\FooController` exists, and it is a controller. */
  const FooOnlyInB := Classes(cls => cls == "B\\FooController", cls => true, (cls, m) => None)

  /** A factory searching namespace `A`, then `B`. */
  const AThenB := ControllerFactory(["A", "B"], [], None)

  /** Namespace `A` yields nothing for `Foo`, and `B` is then searched under `Foo\\Index`. */
  lemma MissInA()
    ensures FindController(AThenB, FooOnlyInB, ["A", "B"], "Foo")
         == FindController(AThenB, FooOnlyInB, ["B"], "Foo\\Index")
  {
    assert ClassName("A", "Foo")[0] == 'A' != "B\\FooController"[0];
    assert ClassName("A", "Foo\\Index")[0] == 'A';
    assert ["A", "B"][1..] == ["B"];
  }

  /** Under `Foo\\Index`, namespace `B` yields nothing. */
  lemma MissInB()
    ensures FindController(AThenB, FooOnlyInB, ["B"], "Foo\\Index").None?
  {
    assert |ClassName("B", "Foo\\Index")| != |"B\\FooController"|;
    assert |ClassName("B", "Foo\\Index\\Index")| != |"B\\FooController"|;
    assert ["B"][1..] == [];
  }

  /**
   * The name accumulates: with namespaces `A` and `B`, where only `B\\FooController`
   * exists and is a controller, looking up `Foo` finds nothing, because `A` lacked
   * `Foo` and `B` is then searched under `Foo\\Index`.
   */
  lemma AccumulatedNameMissesLaterNamespace()
    ensures FooOnlyInB.classExists(ClassName("B", "Foo"))
    ensures CreateController(AThenB, FooOnlyInB, ClassName("B", "Foo")).Some?
    ensures GetController(AThenB, FooOnlyInB, "Foo").None?
  {
    MissInA();
    MissInB();
  }

  /** `/` and `/asdf` have no `/` past the first character: both name `Index`. */
  lemma RootPathsNameIndex()
    ensures ControllerName("/", "") == "Index"
    ensures ControllerName("/asdf", "") == "Index"
  {
  }

  /** A string made only of dropped characters sanitizes to nothing. */
  lemma {:induction false} SanitizeDropsAll(s: string)
    requires forall i :: 0 <= i < |s| ==> !IsPathNameChar(s[i])
    ensures Sanitize(s) == []
  {
    if s != [] {
      SanitizeDropsAll(s[1..]);
    }
  }

  // ---------------------------------------------------------------------------
  // Names of nested paths, and the factory's own examples
  // ---------------------------------------------------------------------------

  /** A character the input lacks is not in the sanitized output either. */
  lemma {:induction false} SanitizeKeepsOut(s: string, c: char)
    requires c !in s
    ensures c !in Sanitize(s)
  {
    if s != [] {
      SanitizeKeepsOut(s[1..], c);
    }
  }

  /** A text without `/` is left alone by the slash flip. */
  lemma FlipSlashesNoSlash(s: string)
    requires '/' !in s
    ensures FlipSlashes(s) == s
  {
  }

  /** A `\` followed by a segment: the `\` stays and the segment is capitalized as a fresh one. */
  lemma CapitalizeAfterSeparator(b: string, atStart: bool)
    ensures Capitalize("\\" + b, atStart) == "\\" + Capitalize(b, true)
  {
    assert ("\\" + b)[1..] == b;
  }

  /** In `/head/tail` with no `/` in `tail`, the last `/` is the one after `head`. */
  lemma SlashSplit(head: string, tail: string)
    requires '/' !in tail
    ensures LastSlashAt("/" + head + "/" + tail, |head| + 1)
    ensures ("/" + head + "/" + tail)[1..|head| + 1] == head
  {
    var u := "/" + head;
    var p, k := u + "/" + tail, |head| + 1;
    assert p[k] == '/';
    forall j | k < j < |p|
      ensures p[j] != '/'
    {
      assert p[j] == tail[j - k - 1];
    }
    assert p[..k] == u && u[1..] == head;
    assert p[1..k] == p[..k][1..];
  }

  /** With no base URL, the name is read from the path info between index 1 and its last `/`. */
  lemma ControllerNameNoBase(pathInfo: string, k: nat)
    requires LastSlashAt(pathInfo, k)
    ensures ControllerName(pathInfo, "") == Capitalize(FlipSlashes(Sanitize(pathInfo[1..k])), true)
  {
    EmptyBase(pathInfo);
    ControllerNameFromSegment(pathInfo, "", k);
  }

  /** An empty base URL adds nothing to the path. */
  lemma EmptyBase(pathInfo: string)
    ensures "" + pathInfo == pathInfo
  {
  }

  /** A two-directory path is the path of its joined directories. */
  lemma Regroup(a: string, b: string, tail: string)
    ensures "/" + a + "/" + b + "/" + tail == "/" + (a + "/" + b) + "/" + tail
  {
  }

  /** The name of `/head/tail`, with no `/` in `tail`, is read from `head`. */
  lemma HeadSegment(head: string, tail: string)
    requires '/' !in tail
    ensures ControllerName("/" + head + "/" + tail, "") == Capitalize(FlipSlashes(Sanitize(head)), true)
  {
    SlashSplit(head, tail);
    ControllerNameNoBase("/" + head + "/" + tail, |head| + 1);
  }

  /** The segment a two-directory path `/a/b/tail` is named from is `a/b`. */
  lemma NestedSegment(a: string, b: string, tail: string)
    requires '/' !in tail
    ensures ControllerName("/" + a + "/" + b + "/" + tail, "")
         == Capitalize(FlipSlashes(Sanitize(a + "/" + b)), true)
  {
    Regroup(a, b, tail);
    HeadSegment(a + "/" + b, tail);
  }

  /** A leading `/` survives sanitizing. */
  lemma SanitizeSlash(b: string)
    ensures Sanitize("/" + b) == "/" + Sanitize(b)
  {
    assert ("/" + b)[0] == '/' && ("/" + b)[1..] == b;
  }

  /** Sanitizing `a/b` sanitizes each side and keeps the `/`. */
  lemma SanitizeAroundSlash(a: string, b: string)
    ensures Sanitize(a + "/" + b) == Sanitize(a) + "/" + Sanitize(b)
  {
    assert a + "/" + b == a + ("/" + b);
    SanitizeConcat(a, "/" + b);
    SanitizeSlash(b);
  }

  /** Flipping `x/y`, with no other `/`, gives `x\y`. */
  lemma FlipAroundSlash(x: string, y: string)
    requires '/' !in x && '/' !in y
    ensures FlipSlashes(x + "/" + y) == x + "\\" + y
  {
    var s, t := x + "/" + y, x + "\\" + y;
    var r := FlipSlashes(s);
    forall i | 0 <= i < |s|
      ensures r[i] == t[i]
    {
      if i < |x| {
        assert s[i] == x[i] && t[i] == x[i];
      } else if i > |x| {
        assert s[i] == y[i - |x| - 1] && t[i] == y[i - |x| - 1];
      }
    }
  }

  /** Capitalizing `x\y` capitalizes `y` as a fresh segment. */
  lemma CapitalizeAroundSeparator(x: string, y: string)
    ensures Capitalize(x + "\\" + y, true) == Capitalize(x, true) + "\\" + Capitalize(y, true)
  {
    var sy := "\\" + y;
    SeparatorAssoc(x, y);
    CapitalizeConcat(x, sy, true);
    CapitalizeAfterSeparator(y, if x == [] then true else x[|x| - 1] == '\\');
    SeparatorAssoc(Capitalize(x, true), Capitalize(y, true));
  }

  /** Joining by `\\` does not depend on grouping. */
  lemma SeparatorAssoc(x: string, y: string)
    ensures x + "\\" + y == x + ("\\" + y)
  {
  }

  /** The spelling of a segment `a/b`: each side sanitized and capitalized, joined by `\\`. */
  lemma TwoSegmentSpelling(a: string, b: string)
    requires '/' !in a && '/' !in b
    ensures Capitalize(FlipSlashes(Sanitize(a + "/" + b)), true)
         == Capitalize(Sanitize(a), true) + "\\" + Capitalize(Sanitize(b), true)
  {
    SanitizeAroundSlash(a, b);
    SanitizeKeepsOut(a, '/');
    SanitizeKeepsOut(b, '/');
    FlipAroundSlash(Sanitize(a), Sanitize(b));
    CapitalizeAroundSeparator(Sanitize(a), Sanitize(b));
  }

  /**
   * The name of a path with two directory segments `a` and `b`: each segment is
   * sanitized and capitalized on its own, and they are joined by `\\`.
   */
  lemma NestedName(a: string, b: string, tail: string)
    requires '/' !in a && '/' !in b && '/' !in tail
    ensures ControllerName("/" + a + "/" + b + "/" + tail, "")
         == Capitalize(Sanitize(a), true) + "\\" + Capitalize(Sanitize(b), true)
  {
    NestedSegment(a, b, tail);
    TwoSegmentSpelling(a, b);
  }

  /** Step of the `/nam..\\..ed/` example: the dots and the backslash are dropped. */
  lemma SanitizeDotted(x: string)
    requires x == "nam..\\..ed"
    ensures Sanitize(x) == "named"
  {
    var a, b, c := x[..3], x[3..8], x[8..];
    assert x == a + b + c;
    SanitizeConcat(a + b, c);
    SanitizeConcat(a, b);
    SanitizeKeepsAllowed(a);
    SanitizeKeepsAllowed(c);
    SanitizeDropsAll(b);
  }

  /** A single segment: only its first letter is capitalized. */
  lemma CapitalizeWord(w: string)
    requires w != [] && forall i :: 0 <= i < |w| ==> w[i] != '\\'
    ensures Capitalize(w, true) == [UpperChar(w[0])] + w[1..]
  {
    CapitalizeInsideSegment(w[1..]);
  }

  /** Step of the `/nam..\\..ed/` example: `named` is capitalized to `Named`. */
  lemma CapitalizeNamed(n: string)
    requires n == "named"
    ensures Capitalize(FlipSlashes(n), true) == "Named"
  {
    FlipSlashesNoSlash(n);
    CapitalizeWord(n);
  }

  /** Punctuation is dropped from the segment: `/nam..\\..ed/` names `Named`. */
  lemma SanitizedName(p: string)
    requires p == "/nam..\\..ed/"
    ensures ControllerName(p, "") == "Named"
  {
    DottedSource(p);
    var raw := p[1..11];
    SanitizeDotted(raw);
    CapitalizeNamed(Sanitize(raw));
  }

  /** Step of the `/nam..\\..ed/` example: the segment the name is read from. */
  lemma DottedSource(p: string)
    requires p == "/nam..\\..ed/"
    ensures ControllerName(p, "") == Capitalize(FlipSlashes(Sanitize(p[1..11])), true)
  {
    ControllerNameFromSegment(p, "", 11);
    assert "" + p == p;
  }

  /** A segment of letters only is named by itself with its first letter upper-cased. */
  lemma WordName(w: string)
    requires w != [] && forall i :: 0 <= i < |w| ==> IsLower(w[i]) || IsUpper(w[i])
    ensures Capitalize(Sanitize(w), true) == [UpperChar(w[0])] + w[1..]
  {
    SanitizeKeepsAllowed(w);
    CapitalizeWord(w);
  }

  /** Step of the `/myNamespace/named/` example: the segment the name is read from. */
  lemma NestedSource(p: string)
    requires p == "/myNamespace/named/"
    ensures ControllerName(p, "") == Capitalize(FlipSlashes(Sanitize(p[1..18])), true)
  {
    ControllerNameFromSegment(p, "", 18);
    assert "" + p == p;
  }

  /** Step of the `/myNamespace/named/` example: the segments are spelled `MyNamespace` and `Named`. */
  lemma NestedWords(a: string, b: string)
    requires a == "myNamespace" && b == "named"
    ensures Capitalize(Sanitize(a), true) == "MyNamespace"
    ensures Capitalize(Sanitize(b), true) == "Named"
  {
    assert a[0] == 'm' && UpperChar('m') == 'M';
    WordName(a);
    assert b[0] == 'n' && UpperChar('n') == 'N';
    WordName(b);
  }

  /** Step of the `/myNamespace/named/` example: the segment is `myNamespace`, `/`, `named`. */
  lemma NestedParts(raw: string)
    requires raw == "myNamespace/named"
    ensures raw == raw[..11] + "/" + raw[12..]
    ensures raw[..11] == "myNamespace" && raw[12..] == "named"
  {
  }

  /** Step of the `/myNamespace/named/` example: the two segments are spelled apart. */
  lemma NestedSpelling(raw: string)
    requires raw == "myNamespace/named"
    ensures Capitalize(FlipSlashes(Sanitize(raw)), true) == "MyNamespace\\Named"
  {
    NestedParts(raw);
    var a, b := raw[..11], raw[12..];
    TwoSegmentSpelling(a, b);
    NestedWords(a, b);
  }

  /** Nested segments become a namespaced name: `/myNamespace/named/` names `MyNamespace\\Named`. */
  lemma NamespacedName(p: string)
    requires p == "/myNamespace/named/"
    ensures ControllerName(p, "") == "MyNamespace\\Named"
  {
    NestedSource(p);
    NestedSpelling(p[1..18]);
  }
}
