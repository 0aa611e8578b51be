# Kubernetes resource API — Dafny model

A model of the decision-making core of `infra-monitoring-backend`. This is a read-only HTTP
facade that lists a cluster's namespaces, Deployments, CronJobs and StatefulSets and
republishes them as flat JSON records wrapped in `{<kind>: [...], "count": n}` envelopes.

The repository contains two complete copies of the server, and both are modelled:

- **the layered variant** (`client/`, `handlers/`). The client turns each list call's items
  into records, including a list of image names per workload. `KubernetesHandler` shapes the
  HTTP response through `writeJSONResponse` and `writeErrorResponse`.
- **the binary's own copy** (`main.go`). It has its own `KubernetesClient` and `APIServer`.
  Its records carry no image lists. Its handlers write responses inline and only log a failure
  to encode the success body.

Modules:

- `Strings`: Go's `strings.Split`/`strings.Join` on a one-character separator, and the facts
  that they are inverses.
- `Images`: `GetContainersImage`, proved to coincide with a declarative definition ("the text
  after the last `/` in the part before the first `@`", `Images.ImageNameCharacterized`).
- `Cluster`: the control-plane objects and list calls. `Models`: the records and envelopes.
- `Client`: the layered translations.
- `Http`: a handler's effect, written as a sequence of events (header set, log line,
  `WriteHeader`, encode attempt). The projections `Statuses`, `Bodies`, `Logs` and `Headers` pick
  out the statuses written, the bodies encoded, the lines logged and the headers set.
- `Messages`: the fixed codes and texts.
- `Handlers`: the layered handlers. `MainProgram`: the `main.go` copy, plus lemmas that compare
  it with the layered variant.

Inputs from outside the program are parameters:

- A list call is a `Listing` value: a cause on failure, otherwise the items in control-plane
  order. The `ControlPlane` gives one listing per namespace argument.
- Timestamp rendering is a `Formatter`.
- Whether the JSON encoder fails on a body, and with what text, is an `Encoder`.

Two points of the code's behaviour that the model keeps exactly:

- After a 200, `main.go` only logs a failure to encode the body (main.go:282-285). The layered
  `writeJSONResponse` (handlers/kubernetes.go:126-131) also logs it, then attempts a 500
  `encoding_error` body.
- A never-scheduled CronJob's `lastRun` is `""`, which `omitempty` drops from the JSON.

## Model

| member | source | states |
|---|---|---|
| Strings.Split | client/kubernetes.go:83 | splitting always yields at least one piece, so indexing `len-1` is safe, and no piece contains the separator |
| Strings.JoinSplit | client/kubernetes.go:83 | joining the pieces of a split with the separator gives back the original string |
| Strings.SplitJoin | client/kubernetes.go:83 | splitting a join of one or more separator-free pieces gives back exactly those pieces (the inverse direction) |
| Strings.FirstPiece | client/kubernetes.go:83 | piece `[0]` is the prefix before the first separator, or the whole string when there is none |
| Strings.LastPiece | client/kubernetes.go:83-85 | piece `[len-1]` is the suffix after the last separator, or the whole string when there is none |
| Seqs.Map | client/kubernetes.go:81-87 | the range-and-append loop: one output per element, in element order |
| Images.ImageName | client/kubernetes.go:83-85 | an extracted name contains neither `/` nor `@` and is never longer than the image reference |
| Images.ImageNameCharacterized | client/kubernetes.go:83-85 | a name is what the code extracts if and only if it is the text after the last `/` in the part of the reference before its first `@` |
| Images.ImageNameOfBareName | client/kubernetes.go:83-85 | a reference with neither `/` nor `@` is its own name |
| Images.ImageNameIdempotent | client/kubernetes.go:83 | extracting from an already extracted name returns it unchanged |
| Images.ImageNameOfQualifiedReference | client/kubernetes.go:83-85 | for every `host/team/app@digest` whose segments are free of `/` and `@`, the name is `app` |
| Images.ImageNameDropsRegistryAndDigest | client/kubernetes.go:83-85 | `registry.example.com/team/app@sha256:abcd` yields `app` |
| Images.ImageNameKeepsTag | client/kubernetes.go:83-85 | `app:v1.2` yields `app:v1.2` (the tag is not stripped) and `app` yields `app` |
| Images.ImageNameEmptyCases | client/kubernetes.go:83-85 | the empty reference and `x/` both yield `""` |
| Images.GetContainersImage | client/kubernetes.go:80-88 | exactly one name per container, in container order, each satisfying the reference definition and free of `/` and `@` |
| Client.Translate | client/kubernetes.go:61-77 | a failed list call gives an error made of the context and the cause, and no records; a successful one gives one record per item, in order |
| Client.ToNamespace | client/kubernetes.go:68-73 | name and labels copied, status is the phase, age is the rendered creation time |
| Client.ToDeployment | client/kubernetes.go:99-108 | name, namespace and labels copied; replicas is the value `spec.replicas` points to (which must be set); ready and available copied; image names per the reference definition |
| Client.ToCronJob | client/kubernetes.go:124-138 | suspend is true exactly when the suspend pointer is set and true; active is the number of active references; lastRun is `""` without a last schedule time and the rendered time otherwise; image names per the reference definition |
| Client.ToStatefulSet | client/kubernetes.go:155-162 | name, namespace and labels copied; replicas dereferenced from a set `spec.replicas`; ready copied; image names per the reference definition |
| Client.LastRunEmptyIffNeverScheduled | client/kubernetes.go:124-127 | when rendering never yields `""`, lastRun is empty if and only if the job has never been scheduled |
| Client.GetNamespaces | client/kubernetes.go:60-78 | fails exactly when the list call fails, with the namespaces context and the cause; otherwise one record per item, in order |
| Client.GetDeployments | client/kubernetes.go:91-113 | fails exactly when the list call fails, with the deployments context and the cause; otherwise one record per item, in order |
| Client.GetCronJobs | client/kubernetes.go:116-144 | fails exactly when the list call fails, with the cronjobs context and the cause; otherwise one record per item, in order |
| Client.GetStatefulSets | client/kubernetes.go:147-168 | fails exactly when the list call fails, with the statefulsets context and the cause; otherwise one record per item, in order |
| Http.QueryGet | handlers/kubernetes.go:49 | the `namespace` value is the parameter's first value, or `""` (all namespaces) when it is absent or empty |
| Handlers.WriteErrorResponse | handlers/kubernetes.go:114-123 | writes exactly one status and exactly one body, `{error: code, message}`, and sets no header; a log line appears if and only if that body fails to encode, and it is then the single line "error-response encoding" prefix plus the encoder's error |
| Handlers.WriteJsonResponse | handlers/kubernetes.go:126-132 | writes the status and the data and sets no header; if the data fails to encode, the failure is logged and then status 500 and an `encoding_error` body follow |
| Handlers.Respond | handlers/kubernetes.go:26-41 | the content type is set first and is the only header set; on a client error, one 500 with the fixed message and the error only in the log; on success, 200 and the envelope, and if that fails to encode, the JSON-encoding log line with the encoder's error, then 500 and the `encoding_error` body |
| Handlers.GetNamespaces | handlers/kubernetes.go:25-42 | no namespace filter; the JSON content type is the only header; on failure, 500 with `internal_server_error` and the namespaces message, the cause only logged; on success, 200 and an envelope whose count equals its number of records, which equals the number of listed items |
| Handlers.GetDeployments | handlers/kubernetes.go:45-65 | the query's `namespace` goes to the list call unchanged; the JSON content type is the only header; on failure, 500 with `internal_server_error` and the deployments message; on success, 200 and an envelope whose count equals its record count and the listed item count |
| Handlers.GetCronJobs | handlers/kubernetes.go:68-88 | the query's `namespace` goes to the list call unchanged; the JSON content type is the only header; on failure, 500 with `internal_server_error` and the cronjobs message; on success, 200 and an envelope whose count equals its record count and the listed item count |
| Handlers.GetStatefulSets | handlers/kubernetes.go:91-111 | the query's `namespace` goes to the list call unchanged; the JSON content type is the only header; on failure, 500 with `internal_server_error` and the statefulsets message; on success, 200 and an envelope whose count equals its record count and the listed item count |
| MainProgram.GetNamespaces | main.go:132-150 | the binary's namespace listing is the layered client's, result for result |
| MainProgram.ToDeployment | main.go:161-169 | the layered Deployment translation without an image list |
| MainProgram.ToCronJob | main.go:185-199 | the same suspend, active and last-run rules as the layered client, without an image list |
| MainProgram.ToStatefulSet | main.go:215-222 | the layered StatefulSet translation without an image list |
| MainProgram.GetDeployments | main.go:153-174 | fails exactly when the list call fails, with the cause; otherwise one record per item, in order |
| MainProgram.GetCronJobs | main.go:177-204 | fails exactly when the list call fails, with the cause; otherwise one record per item, in order |
| MainProgram.GetStatefulSets | main.go:207-227 | fails exactly when the list call fails, with the cause; otherwise one record per item, in order |
| MainProgram.Respond | main.go:263-285 | the content type is the only header; on a client error, one 500 with the fixed message and exactly one log line holding the error; on success, exactly one status (200) and one body, and a failure to encode only adds one log line, the JSON-encoding prefix plus the encoder's error |
| MainProgram.HandleNamespaces | main.go:262-286 | the content type is the only header; on failure, 500 with `internal_server_error` and the namespaces message; on success, only 200 and an envelope whose count equals its record count and the listed item count, even when encoding fails |
| MainProgram.HandleDeployments | main.go:289-319 | the `if namespace == ""` branch is a no-op, so the query value goes to the list call unchanged; the JSON content type is the only header; the failure and success shapes of the binary |
| MainProgram.HandleCronJobs | main.go:322-352 | the query value goes to the list call unchanged; the JSON content type is the only header; the failure and success shapes of the binary |
| MainProgram.HandleStatefulSets | main.go:355-385 | the query value goes to the list call unchanged; the JSON content type is the only header; the failure and success shapes of the binary |
| MainProgram.DeploymentsTranslationMatchesLayered | main.go:153-174 | the binary's Deployment listing fails exactly when the layered one does, with the same error, and otherwise returns the layered records with the image lists removed |
| MainProgram.CronJobsTranslationMatchesLayered | main.go:177-204 | the binary's CronJob listing fails exactly when the layered one does, with the same error, and otherwise returns the layered records with the image lists removed |
| MainProgram.StatefulSetsTranslationMatchesLayered | main.go:207-227 | the binary's StatefulSet listing fails exactly when the layered one does, with the same error, and otherwise returns the layered records with the image lists removed |
| MainProgram.RespondAlike | main.go:263-285 | when nothing fails to encode and both outcomes fail alike or succeed with matching envelopes, the binary's inline response and the layered writers produce the same statuses, and the binary's bodies are the layered ones without image lists |
| MainProgram.NamespacesServedAlike | main.go:262-286 | when no body fails to encode, both variants write the same statuses and the same namespace bodies |
| MainProgram.DeploymentsServedAlike | main.go:289-319 | when no body fails to encode, both variants write the same statuses, and the binary's bodies are the layered ones without image lists |
| MainProgram.CronJobsServedAlike | main.go:322-352 | when no body fails to encode, both variants write the same statuses, and the binary's bodies are the layered ones without image lists |
| MainProgram.StatefulSetsServedAlike | main.go:355-385 | when no body fails to encode, both variants write the same statuses, and the binary's bodies are the layered ones without image lists |

## Left out

- Credential and configuration resolution (`NewKubernetesClient` in client/kubernetes.go and
  main.go): it is environment variables, a home-directory lookup and client-go calls.
- The clientset list calls, `context` and the Kubernetes API types: they are foreign library
  calls. Each list call is a `Listing` input. The objects keep only the fields the code reads,
  with the nested template paths flattened into `containers`.
- Timestamp formatting with the layout "2006-01-02 15:04:05" is an abstract `Formatter`.
- Client.LastRunEmptyIffNeverScheduled: it assumes the `Formatter` never returns `""`. That is
  true of Go's rendering with this layout, but the model does not encode the layout itself.
- JSON encoding is an abstract `Encoder`. An empty Go slice is nil and encodes as `null`, not
  `[]`, and the `omitempty` fields are dropped from the output. The model does not tell nil from
  empty, because the encoding itself is not modelled.
- `http.ResponseWriter` semantics: the model records each `WriteHeader` call. It does not say
  what a client receives after a second call. In Go the first status stands, so the layered
  fallback's 500 never reaches the client.
- Query-string parsing (`r.URL.Query()`): the handlers start from the parsed `url.Values`.
- A nil `spec.replicas` makes the source panic. The model instead requires that every listed
  Deployment and StatefulSet has it set.
- Routing, listening and the port default (server/server.go, main.go:236-259, 423-453): these
  are bootstrap I/O.
- handlers/health.go and main.go's `healthCheck`/`rootHandler` write constant payloads.
  handlers/utils.go repeats the two writers as free functions that the list handlers never call.
- models/kubernetes.go and models/responses.go are mirrored as datatypes and have no behaviour.
  `HealthResponse` and `RootResponse` belong to the left-out health handlers.
- Logging is modelled only as the lines written, not as output.
- Concurrent request handling: the program has no concurrency logic of its own.
