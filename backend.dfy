/**
 * The application object the module builds at import time: the CORS policy
 * it installs and the routes it registers, in order.
 */
module Backend {
  import opened Wrappers
  import opened Config
  import opened Cors
  import opened Frontend

  /** The CORS middleware's configuration: the computed origins, credentials
      allowed, every method and header allowed. */
  datatype CorsPolicy = CorsPolicy(
    allowOrigins: set<string>,
    allowCredentials: bool,
    allowMethods: seq<string>,
    allowHeaders: seq<string>
  )

  /** The web application: its middleware and its route list, both filled in
      step by step while the module loads. */
  class App {
    var cors: Option<CorsPolicy>
    var routes: seq<Route>

    /** `FastAPI(...)`: no middleware yet, and FastAPI's own documentation
        routes already registered. */
    constructor ()
      ensures cors == None && routes == [DocsRoutes]
    {
      cors := None;
      routes := [DocsRoutes];
    }

    /** `add_middleware(CORSMiddleware, ...)`. */
    method AddCors(policy: CorsPolicy)
      modifies this
      ensures cors == Some(policy) && routes == old(routes)
    {
      cors := Some(policy);
    }

    /** `include_router`, `mount` and `get`: the route goes after every route
        registered before it. */
    method AddRoute(route: Route)
      modifies this
      ensures routes == old(routes) + [route] && cors == old(cors)
    {
      routes := routes + [route];
    }
  }

  /** The module-level setup. `distDirEnv` is FRONTEND_DIST_DIR as read from
      the environment, `projectRoot` the repository root and `distExists`
      whether the chosen build directory exists on disk. The application
      lists exactly the computed origins in `allow_origins` and holds exactly the route table,
      in registration order. */
  method ComposeApp(settings: Settings, distDirEnv: Option<string>, projectRoot: Path, distExists: bool)
    returns (app: App)
    ensures fresh(app)
    ensures app.cors == Some(CorsPolicy(AllowedOrigins(settings), true, ["*"], ["*"]))
    ensures app.routes == RouteTable(DistDir(distDirEnv, projectRoot), distExists)
  {
    app := new App();
    var origins := ComputeAllowedOrigins(settings);
    app.AddCors(CorsPolicy(origins, true, ["*"], ["*"]));
    app.AddRoute(ApiRouter(ApiPrefix));
    var dist := DistDir(distDirEnv, projectRoot);
    if distExists {
      app.AddRoute(StaticMount(AssetsPrefix, AssetsDir(dist)));
      app.AddRoute(IndexRoot(dist));
      app.AddRoute(SpaCatchAll(dist));
      assert app.routes == [DocsRoutes, ApiRouter(ApiPrefix)] + StaticRoutes(dist);
    } else {
      assert app.routes == [DocsRoutes, ApiRouter(ApiPrefix)] + [];
    }
  }
}
