/** The application shell: the document title derived from the current
    pathname, and the guard in front of the signed-in pages. The router's
    pathname always starts with "/"; the capitalisation helper is a
    parameter. */
module AppRoutes {
  import opened Wrappers
  import opened Strings

  const AppName := "BitMind"
  const TitleSeparator := " | "

  /** Route names with a fixed title. */
  const RouteTitles: map<string, string> := map[
    "signin" := "Sign In",
    "forgot-password" := "Forgot Password",
    "terms" := "Terms of Service",
    "privacy" := "Privacy Policy"
  ]

  predicate RouterPath(pathname: string) {
    |pathname| >= 1 && pathname[0] == '/'
  }

  /** `pathname.split("/")[1]`: the first path segment. */
  function RouteName(pathname: string): (r: string)
    requires RouterPath(pathname)
    ensures '/' !in r
    ensures r == TakeUntil(pathname[1..], '/')
  {
    SecondPiece(pathname, '/');
    assert TakeUntil(pathname, '/') == "";
    Field(pathname, "/", 1).value
  }

  /** The title the shell gives the document for `pathname`. */
  function Title(pathname: string, capitalize: string -> string): (r: string)
    requires RouterPath(pathname)
    ensures AppName <= r
    ensures pathname != "/" && pathname != "/embed" && RouteName(pathname) in RouteTitles ==>
      r == AppName + TitleSeparator + RouteTitles[RouteName(pathname)]
    ensures pathname != "/" && pathname != "/embed" && RouteName(pathname) !in RouteTitles ==>
      r == AppName + TitleSeparator + capitalize(RouteName(pathname))
  {
    if pathname == "/" || pathname == "/embed" then AppName
    else
      var routeName := RouteName(pathname);
      AppName + TitleSeparator + (if routeName in RouteTitles then RouteTitles[routeName] else capitalize(routeName))
  }

  /** Only the landing page and the bare embed page are titled with the
      application name alone; every other title names the page after it. */
  lemma TitleShape(pathname: string, capitalize: string -> string)
    requires RouterPath(pathname)
    ensures Title(pathname, capitalize) == AppName <==> pathname == "/" || pathname == "/embed"
    ensures pathname != "/" && pathname != "/embed" ==>
      Title(pathname, capitalize)[..|AppName + TitleSeparator|] == AppName + TitleSeparator
  {
    var r := Title(pathname, capitalize);
    if pathname != "/" && pathname != "/embed" {
      assert |r| > |AppName|;
    }
  }

  /** The title depends on the first segment only: a page and its sub-pages
      share it, provided the page itself is not one of the two bare titles. */
  lemma {:induction false} TitleFirstSegment(name: string, rest: string, capitalize: string -> string)
    requires '/' !in name
    requires name != "" && name != "embed"
    ensures Title("/" + name + "/" + rest, capitalize) == Title("/" + name, capitalize)
  {
    var sub := "/" + name + "/" + rest;
    var page := "/" + name;
    assert sub[1..] == name + "/" + rest;
    assert page[1..] == name;
    TakeUntilAbsent(name, '/');
    TakeUntilAt(sub[1..], '/', |name|);
    assert sub[1..][..|name|] == name;
    assert sub != "/" && sub != "/embed" by {
      assert |sub| > |page| >= 2;
      assert sub[|page|] == '/';
    }
  }

  /** Embed sub-pages are not excluded: "/embed/..." is titled after the
      route "embed". */
  lemma EmbedSubpageTitle(rest: string, capitalize: string -> string)
    ensures Title("/embed/" + rest, capitalize) == AppName + TitleSeparator + capitalize("embed")
  {
    var p := "/embed/" + rest;
    assert p[1..] == "embed" + "/" + rest;
    assert p[1..][5] == '/';
    TakeUntilAt(p[1..], '/', 5);
    assert p[1..][..5] == "embed";
    assert |p| > |"/embed"|;
    assert "embed" !in RouteTitles;
  }

  /** The pages with a fixed title get it. */
  lemma FixedTitles(name: string, capitalize: string -> string)
    requires name in RouteTitles
    ensures Title("/" + name, capitalize) == AppName + TitleSeparator + RouteTitles[name]
  {
    var p := "/" + name;
    assert p[1..] == name;
    assert '/' !in name;
    TakeUntilAbsent(name, '/');
  }

  datatype Guarded = RedirectTo(path: string) | RenderChildren

  /** `ProtectedRoute`: without a signed-in user, go to the sign-in page. */
  function ProtectedRoute(sessionUser: Option<string>): (r: Guarded)
    ensures r.RedirectTo? <==> sessionUser.None?
    ensures r.RedirectTo? ==> r.path == "/signin"
  {
    if sessionUser.None? then RedirectTo("/signin") else RenderChildren
  }

  /** The sign-in page the guard redirects to is itself not guarded and has
      its fixed title. */
  lemma RedirectTargetTitled(capitalize: string -> string)
    ensures Title(ProtectedRoute(None).path, capitalize) == AppName + TitleSeparator + RouteTitles["signin"]
  {
    assert ProtectedRoute(None).path == "/" + "signin";
    FixedTitles("signin", capitalize);
  }
}
