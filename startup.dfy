/**
 * The startup check of the local Ollama service: which of four situations
 * the status report describes. Querying the service, the exception handler
 * and the log lines themselves are outside this model.
 */
module Startup {

  /** The status record the Ollama service client returns. */
  datatype OllamaStatus = OllamaStatus(
    installed: bool,
    running: bool,
    serverUrl: string,
    availableModels: seq<string>
  )

  /** The situation the startup check reports. Only a running server's
      address is reported, and the model list only when it is non-empty. */
  datatype Finding =
    | RunningWithModels(serverUrl: string, models: seq<string>)
    | RunningWithoutModels(serverUrl: string)
    | InstalledNotRunning
    | NotInstalled

  /** The branch `startup_event` takes for a status record. */
  function Classify(status: OllamaStatus): (f: Finding)
    ensures f.NotInstalled? <==> !status.installed
    ensures f.InstalledNotRunning? <==> status.installed && !status.running
    ensures f.RunningWithoutModels? <==>
              status.installed && status.running && status.availableModels == []
    ensures f.RunningWithModels? <==>
              status.installed && status.running && status.availableModels != []
    ensures f.RunningWithModels? || f.RunningWithoutModels? ==> f.serverUrl == status.serverUrl
    ensures f.RunningWithModels? ==> f.models == status.availableModels
  {
    if status.installed then
      if status.running then
        if status.availableModels != [] then RunningWithModels(status.serverUrl, status.availableModels)
        else RunningWithoutModels(status.serverUrl)
      else InstalledNotRunning
    else NotInstalled
  }

  /** The models a finding lists: those of a running server that has some,
      none otherwise. */
  function ReportedModels(f: Finding): seq<string>
  {
    if f.RunningWithModels? then f.models else []
  }

  /** Models are reported only for an installed, running server, and then
      they are exactly the downloaded ones. */
  lemma ModelsReportedOnlyWhenRunning(status: OllamaStatus)
    ensures ReportedModels(Classify(status)) != [] <==>
              status.installed && status.running && status.availableModels != []
    ensures ReportedModels(Classify(status)) != [] ==>
              ReportedModels(Classify(status)) == status.availableModels
  {
  }

  /** Fields behind a branch that is not taken do not matter: when the
      service is not installed, the running flag, address and models are
      ignored; when it is not running, the address and models are ignored. */
  lemma UntakenBranchesIgnored(status: OllamaStatus, other: OllamaStatus)
    ensures !status.installed && !other.installed ==> Classify(status) == Classify(other)
    ensures status.installed && !status.running && other.installed && !other.running ==>
              Classify(status) == Classify(other)
  {
  }
}
