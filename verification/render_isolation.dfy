/** The render isolator middleware (getRenderIsolator): for a request routed to
    a hosted application, view names are resolved in that application's own
    views directory. */
module RenderIsolation {
  import opened Wrappers
  import opened Settings

  const Separator: char := '/'

  /** Path joining, as the concatenation of the segments with one separator
      between neighbours (no normalisation of `.`, `..`, repeated separators
      or zero-length segments). */
  function Join(segments: seq<string>): string
  {
    if |segments| == 0 then ""
    else if |segments| == 1 then segments[0]
    else segments[0] + [Separator] + Join(segments[1..])
  }

  /** Where a hosted application's view is looked up. */
  function ViewPath(appsPath: string, appName: string, viewName: string): string
  {
    Join([appsPath, appName, "views", viewName])
  }

  /** The render operation of the response after the middleware has run: the
      original one, or one that redirects view names into an application's
      views directory before calling the original. */
  datatype Render = Unchanged | Isolated(appsPath: string, appName: string)

  /** What the underlying render of the response receives. */
  datatype RenderCall<O> = RenderCall(viewPath: string, options: O)

  /** The effect of the middleware on one request: the render operation it
      leaves on the response and how many times it calls `next`. */
  datatype IsolatorStep = IsolatorStep(render: Render, nextCalls: nat)

  /** Rendering `viewName` with `options` through `render`. */
  function Delegate<O>(render: Render, viewName: string, options: O): RenderCall<O>
  {
    match render
    case Unchanged => RenderCall(viewName, options)
    case Isolated(appsPath, appName) => RenderCall(ViewPath(appsPath, appName, viewName), options)
  }

  /** The middleware built for `appsPath`, run on a request whose annotation
      (`__modenaApp`) is `annotation`. */
  function RenderIsolator(appsPath: string, annotation: Option<AppRecord>): (step: IsolatorStep)
    ensures step.nextCalls == 1
    ensures step.render.Unchanged? <==> annotation.None?
  {
    match annotation
    case None => IsolatorStep(Unchanged, 1)
    case Some(app) => IsolatorStep(Isolated(appsPath, app.name), 1)
  }

  /** The view path is `<appsPath>/<name>/views/<viewName>`. */
  lemma ViewPathForm(appsPath: string, appName: string, viewName: string)
    ensures ViewPath(appsPath, appName, viewName)
         == appsPath + "/" + appName + "/views/" + viewName
  {
    var segments := [appsPath, appName, "views", viewName];
    assert segments[1..][1..][1..] == [viewName];
    assert Join(segments[1..][1..]) == "views" + "/" + viewName;
    assert Join(segments[1..]) == appName + "/" + ("views" + "/" + viewName);
  }

  /** What the underlying render receives after the middleware ran: the view
      path inside the annotated application's views directory with the same
      options, or exactly the call made when there is no annotation. */
  lemma RenderIsolatorDelegates<O>(appsPath: string, annotation: Option<AppRecord>, viewName: string, options: O)
    ensures Delegate(RenderIsolator(appsPath, annotation).render, viewName, options)
         == match annotation
            case None => RenderCall(viewName, options)
            case Some(app) => RenderCall(appsPath + "/" + app.name + "/views/" + viewName, options)
  {
    if annotation.Some? {
      ViewPathForm(appsPath, annotation.value.name, viewName);
    }
  }

  lemma SeparatorAfter(a: string, x: string)
    ensures (a + [Separator] + x)[|a|] == Separator
  {
  }

  /** Two separator-free strings followed by a separator cannot be told apart
      only if they are equal. */
  lemma SeparatedPrefix(a: string, b: string, x: string, y: string)
    requires Separator !in a && Separator !in b
    requires a + [Separator] + x == b + [Separator] + y
    ensures a == b
  {
    var s := a + [Separator] + x;
    if |a| < |b| {
      SeparatorAfter(a, x);
      assert false;
    } else if |b| < |a| {
      SeparatorAfter(b, y);
      assert false;
    } else {
      assert a == s[..|a|];
      assert b == s[..|b|];
    }
  }

  /** A path segment that joining with normalisation keeps as it is: not
      empty, no separator, and neither `.` nor `..`. */
  predicate PlainSegment(s: string)
  {
    s != "" && Separator !in s && s != "." && s != ".."
  }

  /** Isolation: applications with different names never have a view resolved
      to the same path, when the names and the view names are plain segments
      (on such segments concatenation and normalising joins agree). */
  lemma IsolationSeparatesApps(appsPath: string, name1: string, name2: string, view1: string, view2: string)
    requires PlainSegment(name1) && PlainSegment(name2)
    requires PlainSegment(view1) && PlainSegment(view2)
    requires name1 != name2
    ensures ViewPath(appsPath, name1, view1) != ViewPath(appsPath, name2, view2)
  {
    ViewPathForm(appsPath, name1, view1);
    ViewPathForm(appsPath, name2, view2);
    var prefix := appsPath + "/";
    var rest1 := name1 + [Separator] + ("views/" + view1);
    var rest2 := name2 + [Separator] + ("views/" + view2);
    assert ViewPath(appsPath, name1, view1) == prefix + rest1;
    assert ViewPath(appsPath, name2, view2) == prefix + rest2;
    if prefix + rest1 == prefix + rest2 {
      assert rest1 == (prefix + rest1)[|prefix|..];
      assert rest2 == (prefix + rest2)[|prefix|..];
      SeparatedPrefix(name1, name2, "views/" + view1, "views/" + view2);
      assert false;
    }
  }
}

module RenderIsolationExamples {
  import opened Wrappers
  import opened Settings
  import opened RenderIsolation

  /** A request for application "foo" rendering "index" under "/apps". */
  lemma FooIndexUnderApps(app: AppRecord, options: int)
    requires app.name == "foo"
    ensures Delegate(RenderIsolator("/apps", Some(app)).render, "index", options)
         == RenderCall("/apps/foo/views/index", options)
  {
    RenderIsolatorDelegates("/apps", Some(app), "index", options);
  }
}
