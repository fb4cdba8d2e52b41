# AI Hedge Fund backend bootstrap, modelled in Dafny

This project models the decision logic in the backend's entry module,
`app/backend/main.py`. That module builds the web application when it is imported.
The model covers three parts of it:

- **CORS origins.** The module starts from four loopback origins on the Vite port 5173:
  `http` and `https`, each with `localhost` and `127.0.0.1`. It adds every non-empty,
  whitespace-stripped piece of the comma-separated `FRONTEND_ORIGIN` setting. It adds
  `PUBLIC_URL` with all trailing `/` removed. Unset or empty settings are skipped,
  following Python truthiness. The result is their union (module `Cors`). An imperative
  method builds the set step by step, as the module does. It is proved equal to a
  set-valued specification, and the properties are lemmas about that specification.
  Below, a string is *admitted* when it is listed in `allow_origins`.
- **Serving the built frontend.** The build directory is `FRONTEND_DIST_DIR` if that is
  set and non-empty. Otherwise it is `<project root>/app/frontend/dist`. Routes are
  registered in order. `FastAPI(...)` itself registers the documentation routes
  (`/openapi.json`, `/docs`, `/docs/oauth2-redirect`, `/redoc`). The domain API router
  under `/api` always comes next. The `/assets` mount, `GET /` and the catch-all
  `GET /{full_path:path}` follow only if the build directory exists. The catch-all answers 404 exactly when `full_path` starts
  with the literal `api/`. Otherwise it serves `index.html` (module `Frontend`). A
  request is dispatched to the first route that matches.
- **Startup check.** Given the Ollama status record, the model finds which of four
  branches the startup check takes (module `Startup`).

Python's `str.split`, `str.strip`, `str.rstrip` and `str.startswith` are modelled with
Python's semantics in module `PyStr`. `strip()` removes exactly the characters for
which `str.isspace()` holds. Module `Config` holds the settings record and its
defaults. Module `Backend` models the application object. Its methods install the
CORS policy and append routes. `ComposeApp` runs the module-level setup.

Some consequences of the code that are easy to miss:

- A piece of `FRONTEND_ORIGIN` keeps a trailing `/`. Only whitespace is stripped from
  it (`Cors.SingleListedOrigin`).
- A `PUBLIC_URL` made only of slashes adds the empty string to `allow_origins`
  (`Cors.SlashesOnlyPublicUrlAdmitsEmpty`).
- `PUBLIC_URL` is not whitespace-trimmed. Its slashes are removed only when they are
  its last characters.
- `rstrip("/")` removes every trailing slash, not just one.

## Model

| member | source | states |
|---|---|---|
| `Cors.ComputeAllowedOrigins` | app/backend/main.py:29-48 | the set built step by step (empty set, update with the stripped non-empty FRONTEND_ORIGIN pieces, add the stripped PUBLIC_URL, union with the defaults) equals the specification `AllowedOrigins` |
| `Cors.AllowedOrigins` | app/backend/main.py:36-48 | the four defaults are always in `allow_origins`, whatever the settings |
| `Cors.AllowedOriginsMembers` | app/backend/main.py:29-48 | a string is in `allow_origins` iff it is one of the four defaults, or the non-empty stripped form of a comma-separated FRONTEND_ORIGIN piece (setting truthy), or PUBLIC_URL with trailing slashes removed (setting truthy) |
| `Cors.NoOverridesGiveDefaults` | app/backend/main.py:38-48 | with FRONTEND_ORIGIN and PUBLIC_URL unset or empty, `allow_origins` holds exactly the four defaults |
| `Cors.FrontendOriginsAreClean` | app/backend/main.py:38-43 | every origin taken from FRONTEND_ORIGIN is non-empty, equal to its own strip, starts and ends with non-whitespace and contains no comma |
| `Cors.BlankPieceAddsNothing` | app/backend/main.py:39-43 | a whitespace-only (or empty) piece between commas adds nothing: `x, ,y` and `x,,y` admit what `x,y` admits |
| `Cors.TrailingCommaAddsNothing` | app/backend/main.py:39-43 | a trailing comma adds nothing |
| `Cors.SingleListedOrigin` | app/backend/main.py:39-43 | a comma-free origin without surrounding whitespace is admitted verbatim, trailing `/` included |
| `Cors.TwoPaddedOrigins` | app/backend/main.py:38-48 | `" a , b "` yields exactly the defaults plus `a` and `b` |
| `Cors.PublicUrlAdmitted` | app/backend/main.py:45-46 | a truthy PUBLIC_URL is admitted as a prefix of itself that does not end in `/`, and only slashes were cut off |
| `Cors.PublicUrlTrailingSlash` | app/backend/main.py:45-46 | PUBLIC_URL `https://x.com/` admits `https://x.com` and not `https://x.com/` |
| `Cors.SlashesOnlyPublicUrlAdmitsEmpty` | app/backend/main.py:45-46 | any non-empty PUBLIC_URL made only of slashes puts the empty string in `allow_origins` |
| `Config.Truthy` | app/backend/main.py:38-64 | an optional setting is truthy unless it is unset or the empty string |
| `PyStr.Split` | app/backend/main.py:41 | `str.split(",")` yields at least one piece, and no piece contains the separator |
| `PyStr.JoinSplit` | app/backend/main.py:41 | joining the pieces of a split with the separator gives back the text |
| `PyStr.SplitJoin` | app/backend/main.py:41 | splitting a join of separator-free pieces gives back the pieces |
| `PyStr.SplitAtSeparator` | app/backend/main.py:41 | splitting `x + sep + y` gives the pieces of `x` followed by the pieces of `y` |
| `PyStr.NoSeparatorIsOnePiece` | app/backend/main.py:41 | text without the separator is one piece |
| `PyStr.LStrip` | app/backend/main.py:40-42 | the result is a suffix of the input, everything cut off is whitespace, and it does not start with whitespace |
| `PyStr.RStrip` | app/backend/main.py:40-42 | the result is a prefix of the input, everything cut off is whitespace, and it does not end with whitespace |
| `PyStr.Strip` | app/backend/main.py:40-42 | `str.strip()` is empty exactly for whitespace-only input, and otherwise starts and ends with non-whitespace |
| `PyStr.StripDecomposes` | app/backend/main.py:40 | the input is whitespace + `strip()` + whitespace |
| `PyStr.StripIdempotent` | app/backend/main.py:40 | stripping twice is stripping once |
| `PyStr.StripSpacePadding` | app/backend/main.py:40 | one space on each side of a word is stripped off |
| `PyStr.RStripChar` | app/backend/main.py:46 | `rstrip("/")` is a prefix of the input, everything cut off is `/`, and the result does not end in `/` |
| `PyStr.RStripCharAll` | app/backend/main.py:46 | `rstrip("/")` of a string made only of `/` is empty |
| `PyStr.StartsWithIsPrefix` | app/backend/main.py:77 | `s.startswith(p)` holds iff `s` is `p` followed by some text |
| `Frontend.DistDir` | app/backend/main.py:62-64 | the build directory is FRONTEND_DIST_DIR when set and non-empty, otherwise `<root>/app/frontend/dist` |
| `Frontend.RouteTable` | app/backend/main.py:20-75 | the documentation routes, then the API router under `/api`; then, iff the build directory exists, the `/assets` mount on `<dist>/assets`, `GET /` and the catch-all, both on `<dist>` |
| `Frontend.ServeIndexRoot` | app/backend/main.py:70-72 | `GET /` answers with `index.html` of the build directory |
| `Frontend.SpaFallback` | app/backend/main.py:75-80 | the catch-all answers 404 iff the path starts with `api/`, and otherwise answers exactly what `GET /` answers |
| `Frontend.Respond` | app/backend/main.py:20-80 | a registered route either declines a path or answers with a real outcome, never "no route"; the API router answers only paths under its prefix |
| `Frontend.Dispatch` | app/backend/main.py:59-80 | no route answers iff every registered route declines the path |
| `Frontend.DispatchFirstMatch` | app/backend/main.py:59-80 | the answer is that of a registered route that matches, and every route registered before it declined |
| `Frontend.RequestOutcome` | app/backend/main.py:20-80 | with the registered routes: a documentation path gets documentation; a path under `/api` that the API router matches is a domain answer; otherwise, without a build directory nothing answers; with one, `/assets/...` is a file of the assets directory, an unmatched `/api/...` is a 404, every other path starting with `/` gets `index.html`, and a path not starting with `/` is unrouted |
| `Frontend.LeadingRoutes` | app/backend/main.py:20-59 | the documentation routes and the API router settle their own paths first; every other request goes on to the static routes, or is unrouted when there are none |
| `Frontend.StaticRoutesOutcome` | app/backend/main.py:66-80 | the `/assets` mount, `GET /` and the catch-all give a file for `/assets/...`, a 404 for `/api/...`, `index.html` for any other path starting with `/`, and nothing otherwise |
| `Frontend.DocsPathsOutsidePrefixes` | app/backend/main.py:20-77 | every documentation path starts with `/` and lies neither under `/api` nor under `/assets/`, so the catch-all never shadows it |
| `Frontend.NoBuildNoStaticRoutes` | app/backend/main.py:20-80 | without a build directory only the documentation routes and the API router are registered, and a request gets documentation, a domain answer, or no route |
| `Frontend.ApiPrefixIsLiteral` | app/backend/main.py:77-80 | `api` and `apiary/x` fall back to `index.html`, `api/x` is a 404 |
| `Startup.Classify` | app/backend/main.py:89-101 | exactly one of four findings, each iff its condition on installed / running / models; running findings carry the server URL, the with-models finding carries the model list |
| `Startup.ModelsReportedOnlyWhenRunning` | app/backend/main.py:89-95 | models are reported iff the service is installed, running and has models, and then they are the downloaded ones |
| `Startup.UntakenBranchesIgnored` | app/backend/main.py:89-101 | not installed: running flag, URL and models are irrelevant; installed and not running: URL and models are irrelevant |
| `Backend.App.constructor` | app/backend/main.py:20 | a new application has no CORS policy and holds only FastAPI's documentation routes |
| `Backend.App.AddCors` | app/backend/main.py:50-56 | installs the CORS policy, routes unchanged |
| `Backend.App.AddRoute` | app/backend/main.py:59-75 | appends a route after all earlier ones, CORS policy unchanged |
| `Backend.ComposeApp` | app/backend/main.py:20-80 | the application's `allow_origins` is `AllowedOrigins(settings)`, with credentials, all methods and all headers allowed, and it holds exactly the route table in registration order |

## Left out

- Settings resolution in `app/backend/config.py` is not modelled. That covers
  environment versus `.env` precedence, case-insensitive names, extra keys and the
  `lru_cache` singleton. The model takes the resolved `Settings` record as input.
  `Config.DefaultSettings` records the field defaults.
- `app/backend/database/connection.py` is not part of this model. It holds the
  SQLAlchemy engine and session lifecycle. `Base.metadata.create_all` is left out too:
  it is database I/O.
- The model leaves out FastAPI and Starlette internals. Reading files, emitting
  headers, CORS preflight handling and the matching engine are library behaviour. The
  model keeps only the registration order and the matching each route declares:
  - the mount matches paths that start with `/assets/`;
  - `GET /` matches `/`;
  - the catch-all matches any path that starts with `/`.
- Only GET requests are modelled. Other HTTP methods, Starlette's slash redirects and
  the failure at startup when `<dist>/assets` is missing are not.
- `Cors.AllowedOriginsMembers`: the model treats `allow_origins` as a set of strings. It
  does not model that Starlette reads a `"*"` entry as "allow any origin", so a
  FRONTEND_ORIGIN piece `*` opens CORS to every origin.
- `Frontend.Respond`: the documentation routes are modelled only by the four paths they
  match. What they serve is FastAPI behaviour.
- `Frontend.Respond`: the domain API router is an opaque collaborator. It is modelled
  only by whether it has a route for the path (`apiMatched`).
- I/O becomes parameters:
  - `os.getenv("FRONTEND_DIST_DIR")` is `distDirEnv`;
  - `dist_dir.exists()` is `distExists`;
  - `Path(__file__).resolve().parents[2]` is `projectRoot`.
- Paths are kept as they are built, from a string or by `/`. `pathlib` normalisation
  is not modelled.
- The Ollama status query, its `await`, the exception handler and all logging are not
  modelled. Only the branch choice is.
- `list(...)` at `main.py:48` is modelled as a set. The list's order has no meaning.
- `app/frontend/vite.config.ts` is not part of this model. It is build-tool
  configuration with no logic.
