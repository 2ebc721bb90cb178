/** The mesh control-plane API as the collector calls it. */
module Kiali {
  import opened Json

  /**
    `call_kiali_api(host, endpoint)` with the host fixed: the decoded JSON body
    for an endpoint path, or FetchError when the request or the decoding fails.
   */
  type Api = string -> Outcome<Value>

  const NAMESPACES_ENDPOINT: string := "/namespaces"

  function AppsEndpoint(ns: string): string {
    "/namespaces/" + ns + "/apps"
  }

  function HealthEndpoint(ns: string, app: string): string {
    "/namespaces/" + ns + "/apps/" + app + "/health"
  }

  function GraphEndpoint(ns: string, app: string): string {
    "/namespaces/" + ns + "/applications/" + app + "/graph?graphType=app"
  }
}
