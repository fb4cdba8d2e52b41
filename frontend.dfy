/**
 * Serving the built single-page frontend: where the build directory is,
 * which routes are registered (in which order), and what a request gets.
 * Requests are taken to be GETs; the domain API router is a collaborator
 * whose only visible behaviour is whether it has a route for a path. The
 * application object starts out with FastAPI's documentation routes.
 */
module Frontend {
  import opened Wrappers
  import opened PyStr

  /** A filesystem path as the code builds it: from a string, or by `/`. */
  datatype Path = Raw(text: string) | Child(parent: Path, name: string)

  /** The build directory: FRONTEND_DIST_DIR when it is set and non-empty,
      otherwise `<project root>/app/frontend/dist`. */
  function DistDir(distDirEnv: Option<string>, projectRoot: Path): (d: Path)
    ensures distDirEnv.Some? && distDirEnv.value != "" ==> d == Raw(distDirEnv.value)
    ensures distDirEnv.None? || distDirEnv.value == "" ==>
              d == Child(Child(Child(projectRoot, "app"), "frontend"), "dist")
  {
    if distDirEnv.Some? && distDirEnv.value != "" then Raw(distDirEnv.value)
    else Child(Child(Child(projectRoot, "app"), "frontend"), "dist")
  }

  function IndexFile(dist: Path): Path { Child(dist, "index.html") }

  function AssetsDir(dist: Path): Path { Child(dist, "assets") }

  const ApiPrefix := "/api"
  const AssetsPrefix := "/assets"

  /** The paths FastAPI's constructor registers by default: the OpenAPI
      schema, Swagger UI with its OAuth2 redirect page, and ReDoc. */
  const DocsPaths: set<string> := {"/openapi.json", "/docs", "/docs/oauth2-redirect", "/redoc"}

  /** A registered route. */
  datatype Route =
    | DocsRoutes                             // FastAPI's own documentation routes
    | ApiRouter(prefix: string)              // the domain routes, under /api
    | StaticMount(prefix: string, dir: Path) // /assets, served from a directory
    | IndexRoot(dist: Path)                  // GET /
    | SpaCatchAll(dist: Path)                // GET /{full_path:path}

  /** What a request ends in. */
  datatype Outcome =
    | Documentation     // the OpenAPI schema or a documentation page
    | ApiHandled        // a domain route answered
    | Asset(file: Path) // a file from the assets directory
    | Index(file: Path) // the SPA entry document
    | NotFound          // an explicit 404 from the SPA fallback
    | NoRoute           // no registered route matched

  /** The routes in registration order: FastAPI's documentation routes and
      the API router always, in that order; then, exactly when the build
      directory exists, the assets mount, `/` and the catch-all, each serving
      from that directory. */
  function RouteTable(dist: Path, distExists: bool): (t: seq<Route>)
    ensures |t| == if distExists then 5 else 2
    ensures t[0] == DocsRoutes && t[1] == ApiRouter(ApiPrefix)
    ensures distExists ==> t[2] == StaticMount(AssetsPrefix, AssetsDir(dist))
                           && t[3] == IndexRoot(dist) && t[4] == SpaCatchAll(dist)
  {
    [DocsRoutes, ApiRouter(ApiPrefix)] + if distExists then StaticRoutes(dist) else []
  }

  /** The routes registered only when the build directory exists. */
  function StaticRoutes(dist: Path): seq<Route>
  {
    [StaticMount(AssetsPrefix, AssetsDir(dist)), IndexRoot(dist), SpaCatchAll(dist)]
  }

  /** `serve_index_root`: the entry document of the build directory. */
  function ServeIndexRoot(dist: Path): (r: Outcome)
    ensures r.Index? && r.file == IndexFile(dist)
  {
    Index(IndexFile(dist))
  }

  /** `spa_fallback`: an explicit 404 exactly when the path (given without its
      leading `/`) starts with the literal `api/`; the entry document otherwise. */
  function SpaFallback(fullPath: string, dist: Path): (r: Outcome)
    ensures r == NotFound <==> StartsWith(fullPath, "api/")
    ensures r != NotFound ==> r == ServeIndexRoot(dist)
  {
    if StartsWith(fullPath, "api/") then NotFound else Index(IndexFile(dist))
  }

  /** What one route does with a request path, or None if it does not match.
      `apiMatched` says whether the domain router has a route for the path;
      every domain route lives under the router's prefix. */
  function Respond(route: Route, path: string, apiMatched: bool): (r: Option<Outcome>)
    ensures r.Some? ==> r.value != NoRoute
  {
    match route
    case DocsRoutes => if path in DocsPaths then Some(Documentation) else None
    case ApiRouter(prefix) => if apiMatched && StartsWith(path, prefix) then Some(ApiHandled) else None
    case StaticMount(prefix, dir) =>
      if StartsWith(path, prefix + "/") then Some(Asset(Child(dir, path[|prefix| + 1..]))) else None
    case IndexRoot(dist) => if path == "/" then Some(ServeIndexRoot(dist)) else None
    case SpaCatchAll(dist) => if StartsWith(path, "/") then Some(SpaFallback(path[1..], dist)) else None
  }

  /** The first registered route that matches answers the request. */
  function Dispatch(table: seq<Route>, path: string, apiMatched: bool): (r: Outcome)
    ensures r == NoRoute <==> forall i :: 0 <= i < |table| ==> Respond(table[i], path, apiMatched).None?
  {
    if table == [] then NoRoute
    else
      match Respond(table[0], path, apiMatched)
      case Some(o) => o
      case None =>
        assert forall i :: 1 <= i < |table| ==> table[i] == table[1..][i - 1];
        Dispatch(table[1..], path, apiMatched)
  }

  /** Dispatch picks the earliest matching route: the outcome is that route's
      answer, and every route registered before it declined. */
  lemma {:induction false} DispatchFirstMatch(table: seq<Route>, path: string, apiMatched: bool)
    requires Dispatch(table, path, apiMatched) != NoRoute
    ensures exists i :: 0 <= i < |table|
              && Respond(table[i], path, apiMatched) == Some(Dispatch(table, path, apiMatched))
              && forall j :: 0 <= j < i ==> Respond(table[j], path, apiMatched).None?
  {
    if Respond(table[0], path, apiMatched).None? {
      var rest := table[1..];
      DispatchFirstMatch(rest, path, apiMatched);
      var i :| 0 <= i < |rest|
               && Respond(rest[i], path, apiMatched) == Some(Dispatch(rest, path, apiMatched))
               && forall j :: 0 <= j < i ==> Respond(rest[j], path, apiMatched).None?;
      assert table[i + 1] == rest[i];
      assert forall j :: 1 <= j < i + 1 ==> table[j] == rest[j - 1];
    } else {
      assert Respond(table[0], path, apiMatched) == Some(Dispatch(table, path, apiMatched));
    }
  }

  /** The complete request outcome with the registered routes. FastAPI's
      documentation paths always answer; a domain route under `/api` answers
      next; without a build directory nothing else does; with one,
      `/assets/...` is a file, an unmatched `/api/...` is a 404, and every
      other path gets the entry document. */
  lemma RequestOutcome(dist: Path, distExists: bool, path: string, apiMatched: bool)
    ensures var r := Dispatch(RouteTable(dist, distExists), path, apiMatched);
      var api := apiMatched && StartsWith(path, "/api");
      && (r == Documentation <==> path in DocsPaths)
      && (r == ApiHandled <==> api)
      && (r.Asset? <==> !api && distExists && StartsWith(path, "/assets/"))
      && (r.Asset? ==> r.file == Child(AssetsDir(dist), path[|"/assets/"|..]))
      && (r == NotFound <==> !api && distExists && StartsWith(path, "/api/"))
      && (r.Index? <==> !api && distExists && StartsWith(path, "/") && path !in DocsPaths
                        && !StartsWith(path, "/assets/") && !StartsWith(path, "/api/"))
      && (r.Index? ==> r.file == IndexFile(dist))
      && (r == NoRoute <==> path !in DocsPaths && !api && (!distExists || !StartsWith(path, "/")))
  {
    LeadingRoutes(dist, distExists, path, apiMatched);
    StaticRoutesOutcome(dist, path, apiMatched);
    DocsPathsOutsidePrefixes(path);
  }

  /** The two routes registered first settle documentation paths and domain
      routes; any other request goes on to the static routes, if any. */
  lemma LeadingRoutes(dist: Path, distExists: bool, path: string, apiMatched: bool)
    ensures var r := Dispatch(RouteTable(dist, distExists), path, apiMatched);
      && (path in DocsPaths ==> r == Documentation)
      && (path !in DocsPaths && apiMatched && StartsWith(path, ApiPrefix) ==> r == ApiHandled)
      && (path !in DocsPaths && !(apiMatched && StartsWith(path, ApiPrefix)) ==>
            r == if distExists then Dispatch(StaticRoutes(dist), path, apiMatched) else NoRoute)
  {
    var t := RouteTable(dist, distExists);
    assert t[1..][1..] == if distExists then StaticRoutes(dist) else [];
  }

  /** What the assets mount, `/` and the catch-all make of a request. */
  lemma StaticRoutesOutcome(dist: Path, path: string, apiMatched: bool)
    ensures var r := Dispatch(StaticRoutes(dist), path, apiMatched);
      && (r.Asset? <==> StartsWith(path, "/assets/"))
      && (r.Asset? ==> r.file == Child(AssetsDir(dist), path[|"/assets/"|..]))
      && (r == NotFound <==> StartsWith(path, "/api/"))
      && (r.Index? <==> StartsWith(path, "/") && !StartsWith(path, "/assets/") && !StartsWith(path, "/api/"))
      && (r.Index? ==> r.file == IndexFile(dist))
      && (r == NoRoute <==> !StartsWith(path, "/"))
  {
    var mount, root, spa := StaticMount(AssetsPrefix, AssetsDir(dist)), IndexRoot(dist), SpaCatchAll(dist);
    assert StaticRoutes(dist)[1..] == [root, spa];
    assert [root, spa][1..] == [spa];
    assert AssetsPrefix + "/" == "/assets/";
    var r := Dispatch(StaticRoutes(dist), path, apiMatched);
    if StartsWith(path, "/assets/") {
      assert path[..|"/assets/"|][2] == 's';
      CharDiffers(path, "/api/", 2);
      assert r == Asset(Child(AssetsDir(dist), path[|AssetsPrefix| + 1..]));
    } else {
      assert r == Dispatch([root, spa], path, apiMatched);
      if path == "/" {
        assert r == Index(IndexFile(dist));
      } else {
        assert r == Dispatch([spa], path, apiMatched);
        if StartsWith(path, "/") {
          assert r == SpaFallback(path[1..], dist);
          StartsWithTail(path, '/', "api/");
        }
      }
    }
  }

  /** A path that differs from a prefix at some position does not start with it. */
  lemma CharDiffers(path: string, prefix: string, k: nat)
    requires k < |path| && k < |prefix| && path[k] != prefix[k]
    ensures !StartsWith(path, prefix)
  {
    if |prefix| <= |path| {
      assert path[..|prefix|][k] == path[k];
    }
  }

  /** None of FastAPI's documentation paths lies under `/api` or `/assets/`,
      and each starts with `/`. */
  lemma DocsPathsOutsidePrefixes(path: string)
    ensures path in DocsPaths ==>
              StartsWith(path, "/") && !StartsWith(path, "/api") && !StartsWith(path, "/assets/")
  {
    if path in DocsPaths {
      assert |path| >= 2 && path[0] == '/' && path[1] in {'o', 'd', 'r'};
      CharDiffers(path, "/api", 1);
      CharDiffers(path, "/assets/", 1);
      assert path[..1] == "/";
    }
  }

  /** Without a build directory only FastAPI's documentation routes and the
      API router are registered: a request gets documentation, a domain
      route, or nothing. */
  lemma NoBuildNoStaticRoutes(dist: Path, path: string, apiMatched: bool)
    ensures RouteTable(dist, false) == [DocsRoutes, ApiRouter(ApiPrefix)]
    ensures Dispatch(RouteTable(dist, false), path, apiMatched) in {Documentation, ApiHandled, NoRoute}
  {
  }

  /** The prefix check is literal: `api` and `apiary/x` fall back to the entry
      document, `api/x` does not. */
  lemma ApiPrefixIsLiteral(dist: Path)
    ensures SpaFallback("api", dist) == Index(IndexFile(dist))
    ensures SpaFallback("apiary/x", dist) == Index(IndexFile(dist))
    ensures SpaFallback("api/x", dist) == NotFound
  {
    assert "apiary/x"[..4] == "apia";
    assert "api/x"[..4] == "api/";
  }
}
