/**
 * The backend's settings record. Where each value comes from (process
 * environment, a `.env` file, case-insensitive names) is resolved before this
 * model starts; only the resolved record and its field defaults appear here.
 */
module Config {
  import opened Wrappers

  datatype Settings = Settings(
    frontendOrigin: Option<string>,   // FRONTEND_ORIGIN: comma-separated origins
    publicUrl: Option<string>,        // PUBLIC_URL
    backendHost: string,              // BACKEND_HOST
    backendPort: int,                 // BACKEND_PORT
    frontendHost: string,             // FRONTEND_HOST
    frontendPort: int,                // FRONTEND_PORT
    databaseUrl: Option<string>       // DATABASE_URL
  )

  /** The record obtained when no variable is set: every optional field unset,
      hosts on all interfaces, backend on port 8000, frontend on 5173. */
  const DefaultSettings: Settings :=
    Settings(None, None, "0.0.0.0", 8000, "0.0.0.0", 5173, None)

  /** Python truthiness of an optional string: the only falsy values are an
      unset setting and the empty string. */
  predicate Truthy(o: Option<string>): (b: bool)
    ensures b <==> o != None && o != Some("")
  {
    o.Some? && o.value != ""
  }
}
