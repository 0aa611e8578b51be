/** The layered variant's list handlers (`KubernetesHandler`) and its two response writers. */
module Handlers {
  import opened Wrappers
  import opened Cluster
  import opened Models
  import opened Http
  import opened Messages
  import Client

  /** The value handed to the JSON encoder: one of the four envelopes, or an error body. */
  datatype Payload =
    | NamespaceList(namespaces: Envelope<Namespace>)
    | DeploymentList(deployments: Envelope<Deployment>)
    | CronJobList(cronjobs: Envelope<CronJob>)
    | StatefulSetList(statefulsets: Envelope<StatefulSet>)
    | ErrorBody(failure: ErrorResponse)

  /** `writeErrorResponse`: writes `status`, then the error body; a failure to encode that
      body is only logged. */
  function WriteErrorResponse(status: int, code: string, message: string, enc: Encoder<Payload>): (t: Trace<Payload>)
    ensures Statuses(t) == [status]
    ensures Headers(t) == []
    ensures Bodies(t) == [ErrorBody(ErrorResponse(code, message))]
    ensures Logs(t) == [] <==> enc(ErrorBody(ErrorResponse(code, message))).None?
    ensures enc(ErrorBody(ErrorResponse(code, message))).Some? ==>
              Logs(t) == [ErrorEncodingLog + enc(ErrorBody(ErrorResponse(code, message))).value]
  {
    var body := ErrorBody(ErrorResponse(code, message));
    var failure: Trace<Payload> := match enc(body)
      case None => []
      case Some(e) => (SingleProjections<Payload>(Log(ErrorEncodingLog + e)); [Log(ErrorEncodingLog + e)]);
    WrittenProjections(status, body);
    ProjectionsAppend([WriteHeader(status), Encode(body)], failure);
    [WriteHeader(status), Encode(body)] + failure
  }

  /** `writeJSONResponse`: writes `status`, then `data`; when `data` cannot be encoded it
      logs the failure and falls back to an `encoding_error` body with status 500. */
  function WriteJsonResponse(status: int, data: Payload, enc: Encoder<Payload>): (t: Trace<Payload>)
    ensures Headers(t) == []
    ensures enc(data).None? ==> Statuses(t) == [status] && Bodies(t) == [data] && Logs(t) == []
    ensures enc(data).Some? ==>
              && Statuses(t) == [status, StatusInternalServerError]
              && Bodies(t) == [data, ErrorBody(ErrorResponse(EncodingError, EncodingFailed))]
              && |Logs(t)| > 0 && Logs(t)[0] == JsonEncodingLog + enc(data).value
  {
    var written: Trace<Payload> := [WriteHeader(status), Encode(data)];
    WrittenProjections(status, data);
    match enc(data)
    case None => written
    case Some(e) =>
      var fallback := WriteErrorResponse(StatusInternalServerError, EncodingError, EncodingFailed, enc);
      FallbackProjections(written, JsonEncodingLog + e, fallback);
      written + ([Log(JsonEncodingLog + e)] + fallback)
  }

  /** A successful list request: 200 and `data`; when `data` cannot be encoded, the fallback
      status and body follow. */
  predicate Delivered(t: Trace<Payload>, data: Payload, enc: Encoder<Payload>) {
    && (enc(data).None? ==> Statuses(t) == [StatusOK] && Bodies(t) == [data] && Logs(t) == [])
    && (enc(data).Some? ==>
          && Statuses(t) == [StatusOK, StatusInternalServerError]
          && Bodies(t) == [data, ErrorBody(ErrorResponse(EncodingError, EncodingFailed))]
          && |Logs(t)| > 0 && Logs(t)[0] == JsonEncodingLog + enc(data).value)
  }

  /** The response shaping shared by the four handlers: on failure, log and answer with the
      kind's fixed message; on success, answer with the records and their count. */
  function Respond<R>(outcome: Result<seq<R>, Client.ClientError>, logPrefix: string, unavailable: string,
                      wrap: Envelope<R> -> Payload, enc: Encoder<Payload>): (t: Trace<Payload>)
    ensures DeclaredJson(t)
    ensures outcome.Failure? ==>
              && RespondedUnavailable(t, ErrorBody(ErrorResponse(InternalServerError, unavailable)))
              && |Logs(t)| > 0 && Logs(t)[0] == logPrefix + outcome.error.message
    ensures outcome.Success? ==> Delivered(t, wrap(Envelope(outcome.value, |outcome.value|)), enc)
  {
    var rest: Trace<Payload> := match outcome
      case Failure(e) => (
        var written := WriteErrorResponse(StatusInternalServerError, InternalServerError, unavailable, enc);
        ProjectionsAppend([Log(logPrefix + e.message)], written);
        [Log(logPrefix + e.message)] + written)
      case Success(records) =>
        WriteJsonResponse(StatusOK, wrap(Envelope(records, |records|)), enc);
    SingleProjections<Payload>(SetHeader(ContentTypeHeader, JsonMediaType));
    ProjectionsAppend([SetHeader(ContentTypeHeader, JsonMediaType)], rest);
    [SetHeader(ContentTypeHeader, JsonMediaType)] + rest
  }

  /** `GET /api/v1/namespaces`: takes no namespace filter. */
  function GetNamespaces(plane: ControlPlane, format: Formatter, enc: Encoder<Payload>): (t: Trace<Payload>)
    ensures DeclaredJson(t)
    ensures match plane.namespaces
      case Failure(cause) =>
        && RespondedUnavailable(t, ErrorBody(ErrorResponse(InternalServerError, NamespacesUnavailable)))
        && |Logs(t)| > 0 && Logs(t)[0] == NamespacesLog + (Client.NamespacesListFailed + cause)
      case Success(items) =>
        && |Bodies(t)| > 0 && Bodies(t)[0].NamespaceList?
        && Bodies(t)[0].namespaces.items == Client.GetNamespaces(plane.namespaces, format).value
        && Bodies(t)[0].namespaces.count == |Bodies(t)[0].namespaces.items| == |items|
        && Delivered(t, Bodies(t)[0], enc)
  {
    Respond(Client.GetNamespaces(plane.namespaces, format), NamespacesLog, NamespacesUnavailable,
            (e: Envelope<Namespace>) => NamespaceList(e), enc)
  }

  /** `GET /api/v1/deployments`: the `namespace` query value goes to the list call unchanged. */
  function GetDeployments(plane: ControlPlane, query: Query, format: Formatter, enc: Encoder<Payload>): (t: Trace<Payload>)
    requires DeploymentReplicasSet(plane.deployments(QueryGet(query, NamespaceParam)))
    ensures DeclaredJson(t)
    ensures var listing := plane.deployments(QueryGet(query, NamespaceParam));
      match listing
      case Failure(cause) =>
        && RespondedUnavailable(t, ErrorBody(ErrorResponse(InternalServerError, DeploymentsUnavailable)))
        && |Logs(t)| > 0 && Logs(t)[0] == DeploymentsLog + (Client.DeploymentsListFailed + cause)
      case Success(items) =>
        && |Bodies(t)| > 0 && Bodies(t)[0].DeploymentList?
        && Bodies(t)[0].deployments.items == Client.GetDeployments(listing, format).value
        && Bodies(t)[0].deployments.count == |Bodies(t)[0].deployments.items| == |items|
        && Delivered(t, Bodies(t)[0], enc)
  {
    var listing := plane.deployments(QueryGet(query, NamespaceParam));
    Respond(Client.GetDeployments(listing, format), DeploymentsLog, DeploymentsUnavailable,
            (e: Envelope<Deployment>) => DeploymentList(e), enc)
  }

  /** `GET /api/v1/cronjobs`: the `namespace` query value goes to the list call unchanged. */
  function GetCronJobs(plane: ControlPlane, query: Query, format: Formatter, enc: Encoder<Payload>): (t: Trace<Payload>)
    ensures DeclaredJson(t)
    ensures var listing := plane.cronJobs(QueryGet(query, NamespaceParam));
      match listing
      case Failure(cause) =>
        && RespondedUnavailable(t, ErrorBody(ErrorResponse(InternalServerError, CronJobsUnavailable)))
        && |Logs(t)| > 0 && Logs(t)[0] == CronJobsLog + (Client.CronJobsListFailed + cause)
      case Success(items) =>
        && |Bodies(t)| > 0 && Bodies(t)[0].CronJobList?
        && Bodies(t)[0].cronjobs.items == Client.GetCronJobs(listing, format).value
        && Bodies(t)[0].cronjobs.count == |Bodies(t)[0].cronjobs.items| == |items|
        && Delivered(t, Bodies(t)[0], enc)
  {
    var listing := plane.cronJobs(QueryGet(query, NamespaceParam));
    Respond(Client.GetCronJobs(listing, format), CronJobsLog, CronJobsUnavailable,
            (e: Envelope<CronJob>) => CronJobList(e), enc)
  }

  /** `GET /api/v1/statefulsets`: the `namespace` query value goes to the list call unchanged. */
  function GetStatefulSets(plane: ControlPlane, query: Query, format: Formatter, enc: Encoder<Payload>): (t: Trace<Payload>)
    requires StatefulSetReplicasSet(plane.statefulSets(QueryGet(query, NamespaceParam)))
    ensures DeclaredJson(t)
    ensures var listing := plane.statefulSets(QueryGet(query, NamespaceParam));
      match listing
      case Failure(cause) =>
        && RespondedUnavailable(t, ErrorBody(ErrorResponse(InternalServerError, StatefulSetsUnavailable)))
        && |Logs(t)| > 0 && Logs(t)[0] == StatefulSetsLog + (Client.StatefulSetsListFailed + cause)
      case Success(items) =>
        && |Bodies(t)| > 0 && Bodies(t)[0].StatefulSetList?
        && Bodies(t)[0].statefulsets.items == Client.GetStatefulSets(listing, format).value
        && Bodies(t)[0].statefulsets.count == |Bodies(t)[0].statefulsets.items| == |items|
        && Delivered(t, Bodies(t)[0], enc)
  {
    var listing := plane.statefulSets(QueryGet(query, NamespaceParam));
    Respond(Client.GetStatefulSets(listing, format), StatefulSetsLog, StatefulSetsUnavailable,
            (e: Envelope<StatefulSet>) => StatefulSetList(e), enc)
  }
}
