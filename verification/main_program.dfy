/** The binary's own entry point (`main.go`): a second, self-contained copy of the client and
    the handlers. Its records carry no image lists, and its handlers never fall back to an
    error body when the success body cannot be encoded. */
module MainProgram {
  import opened Wrappers
  import opened Cluster
  import Models
  import opened Http
  import opened Messages
  import Client
  import Handlers
  import Seqs

  datatype Deployment = Deployment(
    name: string,
    namespace: string,
    replicas: int32,
    ready: int32,
    available: int32,
    labels: Labels,
    age: string)

  datatype CronJob = CronJob(
    name: string,
    namespace: string,
    schedule: string,
    suspend: bool,
    active: nat,
    lastRun: string,
    labels: Labels,
    age: string)

  datatype StatefulSet = StatefulSet(
    name: string,
    namespace: string,
    replicas: int32,
    ready: int32,
    labels: Labels,
    age: string)

  datatype Payload =
    | NamespaceList(namespaces: Models.Envelope<Models.Namespace>)
    | DeploymentList(deployments: Models.Envelope<Deployment>)
    | CronJobList(cronjobs: Models.Envelope<CronJob>)
    | StatefulSetList(statefulsets: Models.Envelope<StatefulSet>)
    | ErrorBody(failure: Models.ErrorResponse)

  /** `KubernetesClient.GetNamespaces` is the layered client's, line for line. */
  function GetNamespaces(listing: Listing<NamespaceObject>, format: Formatter): (r: Result<seq<Models.Namespace>, Client.ClientError>)
    ensures r == Client.GetNamespaces(listing, format)
  {
    Client.Translate(listing, Client.NamespacesListFailed, (ns: NamespaceObject) => Client.ToNamespace(ns, format))
  }

  function ToDeployment(d: DeploymentObject, format: Formatter): (r: Deployment)
    requires d.specReplicas.Some?
    ensures r.name == d.name && r.namespace == d.namespace && r.labels == d.labels
    ensures Some(r.replicas) == d.specReplicas
    ensures r.ready == d.readyReplicas && r.available == d.availableReplicas
    ensures r.age == format(d.creationTimestamp)
  {
    Deployment(d.name, d.namespace, d.specReplicas.value, d.readyReplicas, d.availableReplicas,
               d.labels, format(d.creationTimestamp))
  }

  function ToCronJob(cj: CronJobObject, format: Formatter): (r: CronJob)
    ensures r.name == cj.name && r.namespace == cj.namespace && r.labels == cj.labels
    ensures r.schedule == cj.schedule
    ensures r.suspend <==> cj.suspend == Some(true)
    ensures r.active == |cj.active|
    ensures cj.lastScheduleTime.None? ==> r.lastRun == ""
    ensures cj.lastScheduleTime.Some? ==> r.lastRun == format(cj.lastScheduleTime.value)
    ensures r.age == format(cj.creationTimestamp)
  {
    var suspend := match cj.suspend case None => false case Some(b) => b;
    var lastRun := match cj.lastScheduleTime case None => "" case Some(t) => format(t);
    CronJob(cj.name, cj.namespace, cj.schedule, suspend, |cj.active|, lastRun,
            cj.labels, format(cj.creationTimestamp))
  }

  function ToStatefulSet(s: StatefulSetObject, format: Formatter): (r: StatefulSet)
    requires s.specReplicas.Some?
    ensures r.name == s.name && r.namespace == s.namespace && r.labels == s.labels
    ensures Some(r.replicas) == s.specReplicas
    ensures r.ready == s.readyReplicas
    ensures r.age == format(s.creationTimestamp)
  {
    StatefulSet(s.name, s.namespace, s.specReplicas.value, s.readyReplicas,
                s.labels, format(s.creationTimestamp))
  }

  function GetDeployments(listing: Listing<DeploymentObject>, format: Formatter): (r: Result<seq<Deployment>, Client.ClientError>)
    requires DeploymentReplicasSet(listing)
    ensures r.Success? <==> listing.Success?
    ensures listing.Failure? ==> r.error == Client.ClientError(Client.DeploymentsListFailed + listing.error)
    ensures listing.Success? ==> |r.value| == |listing.value|
    ensures listing.Success? ==> forall i :: 0 <= i < |listing.value| ==> r.value[i] == ToDeployment(listing.value[i], format)
  {
    Client.Translate(listing, Client.DeploymentsListFailed,
                     (d: DeploymentObject) requires d.specReplicas.Some? => ToDeployment(d, format))
  }

  function GetCronJobs(listing: Listing<CronJobObject>, format: Formatter): (r: Result<seq<CronJob>, Client.ClientError>)
    ensures r.Success? <==> listing.Success?
    ensures listing.Failure? ==> r.error == Client.ClientError(Client.CronJobsListFailed + listing.error)
    ensures listing.Success? ==> |r.value| == |listing.value|
    ensures listing.Success? ==> forall i :: 0 <= i < |listing.value| ==> r.value[i] == ToCronJob(listing.value[i], format)
  {
    Client.Translate(listing, Client.CronJobsListFailed, (cj: CronJobObject) => ToCronJob(cj, format))
  }

  function GetStatefulSets(listing: Listing<StatefulSetObject>, format: Formatter): (r: Result<seq<StatefulSet>, Client.ClientError>)
    requires StatefulSetReplicasSet(listing)
    ensures r.Success? <==> listing.Success?
    ensures listing.Failure? ==> r.error == Client.ClientError(Client.StatefulSetsListFailed + listing.error)
    ensures listing.Success? ==> |r.value| == |listing.value|
    ensures listing.Success? ==> forall i :: 0 <= i < |listing.value| ==> r.value[i] == ToStatefulSet(listing.value[i], format)
  {
    Client.Translate(listing, Client.StatefulSetsListFailed,
                     (s: StatefulSetObject) requires s.specReplicas.Some? => ToStatefulSet(s, format))
  }

  /** A successful list request: 200 and `data` and nothing else is written, even when `data`
      cannot be encoded; such a failure only reaches the log. */
  predicate Sent(t: Trace<Payload>, data: Payload, enc: Encoder<Payload>) {
    && Statuses(t) == [StatusOK]
    && Bodies(t) == [data]
    && (enc(data).None? ==> Logs(t) == [])
    && (enc(data).Some? ==> Logs(t) == [JsonEncodingLog + enc(data).value])
  }

  /** The response shaping shared by the four `APIServer.get*` handlers. */
  function Respond<R>(outcome: Result<seq<R>, Client.ClientError>, logPrefix: string, unavailable: string,
                      wrap: Models.Envelope<R> -> Payload, enc: Encoder<Payload>): (t: Trace<Payload>)
    ensures DeclaredJson(t)
    ensures outcome.Failure? ==>
              && RespondedUnavailable(t, ErrorBody(Models.ErrorResponse(InternalServerError, unavailable)))
              && Logs(t) == [logPrefix + outcome.error.message]
    ensures outcome.Success? ==> Sent(t, wrap(Models.Envelope(outcome.value, |outcome.value|)), enc)
  {
    var rest: Trace<Payload> := match outcome
      case Failure(e) => (
        var written: Trace<Payload> :=
          [WriteHeader(StatusInternalServerError), Encode(ErrorBody(Models.ErrorResponse(InternalServerError, unavailable)))];
        WrittenProjections(StatusInternalServerError, ErrorBody(Models.ErrorResponse(InternalServerError, unavailable)));
        SingleProjections<Payload>(Log(logPrefix + e.message));
        ProjectionsAppend([Log(logPrefix + e.message)], written);
        [Log(logPrefix + e.message)] + written)
      case Success(records) => (
        var data := wrap(Models.Envelope(records, |records|));
        var failure: Trace<Payload> := match enc(data) case None => [] case Some(e) => [Log(JsonEncodingLog + e)];
        WrittenProjections(StatusOK, data);
        ProjectionsAppend([WriteHeader(StatusOK), Encode(data)], failure);
        [WriteHeader(StatusOK), Encode(data)] + failure);
    SingleProjections<Payload>(SetHeader(ContentTypeHeader, JsonMediaType));
    ProjectionsAppend([SetHeader(ContentTypeHeader, JsonMediaType)], rest);
    [SetHeader(ContentTypeHeader, JsonMediaType)] + rest
  }

  /** `APIServer.getNamespaces`: takes no namespace filter. */
  function HandleNamespaces(plane: ControlPlane, format: Formatter, enc: Encoder<Payload>): (t: Trace<Payload>)
    ensures DeclaredJson(t)
    ensures match plane.namespaces
      case Failure(cause) =>
        && RespondedUnavailable(t, ErrorBody(Models.ErrorResponse(InternalServerError, NamespacesUnavailable)))
        && Logs(t) == [NamespacesLog + (Client.NamespacesListFailed + cause)]
      case Success(items) =>
        && |Bodies(t)| > 0 && Bodies(t)[0].NamespaceList?
        && Bodies(t)[0].namespaces.items == GetNamespaces(plane.namespaces, format).value
        && Bodies(t)[0].namespaces.count == |Bodies(t)[0].namespaces.items| == |items|
        && Sent(t, Bodies(t)[0], enc)
  {
    Respond(GetNamespaces(plane.namespaces, format), NamespacesLog, NamespacesUnavailable,
            (e: Models.Envelope<Models.Namespace>) => NamespaceList(e), enc)
  }

  /** `APIServer.getDeployments`: its `if namespace == ""` reassignment changes nothing, so the
      query value goes to the list call unchanged. */
  function HandleDeployments(plane: ControlPlane, query: Query, format: Formatter, enc: Encoder<Payload>): (t: Trace<Payload>)
    requires DeploymentReplicasSet(plane.deployments(QueryGet(query, NamespaceParam)))
    ensures DeclaredJson(t)
    ensures var listing := plane.deployments(QueryGet(query, NamespaceParam));
      match listing
      case Failure(cause) =>
        && RespondedUnavailable(t, ErrorBody(Models.ErrorResponse(InternalServerError, DeploymentsUnavailable)))
        && Logs(t) == [DeploymentsLog + (Client.DeploymentsListFailed + cause)]
      case Success(items) =>
        && |Bodies(t)| > 0 && Bodies(t)[0].DeploymentList?
        && Bodies(t)[0].deployments.items == GetDeployments(listing, format).value
        && Bodies(t)[0].deployments.count == |Bodies(t)[0].deployments.items| == |items|
        && Sent(t, Bodies(t)[0], enc)
  {
    var namespace := QueryGet(query, NamespaceParam);
    var namespace := if namespace == "" then "" else namespace;
    Respond(GetDeployments(plane.deployments(namespace), format), DeploymentsLog, DeploymentsUnavailable,
            (e: Models.Envelope<Deployment>) => DeploymentList(e), enc)
  }

  /** `APIServer.getCronJobs`: the query value goes to the list call unchanged. */
  function HandleCronJobs(plane: ControlPlane, query: Query, format: Formatter, enc: Encoder<Payload>): (t: Trace<Payload>)
    ensures DeclaredJson(t)
    ensures var listing := plane.cronJobs(QueryGet(query, NamespaceParam));
      match listing
      case Failure(cause) =>
        && RespondedUnavailable(t, ErrorBody(Models.ErrorResponse(InternalServerError, CronJobsUnavailable)))
        && Logs(t) == [CronJobsLog + (Client.CronJobsListFailed + cause)]
      case Success(items) =>
        && |Bodies(t)| > 0 && Bodies(t)[0].CronJobList?
        && Bodies(t)[0].cronjobs.items == GetCronJobs(listing, format).value
        && Bodies(t)[0].cronjobs.count == |Bodies(t)[0].cronjobs.items| == |items|
        && Sent(t, Bodies(t)[0], enc)
  {
    var namespace := QueryGet(query, NamespaceParam);
    var namespace := if namespace == "" then "" else namespace;
    Respond(GetCronJobs(plane.cronJobs(namespace), format), CronJobsLog, CronJobsUnavailable,
            (e: Models.Envelope<CronJob>) => CronJobList(e), enc)
  }

  /** `APIServer.getStatefulSets`: the query value goes to the list call unchanged. */
  function HandleStatefulSets(plane: ControlPlane, query: Query, format: Formatter, enc: Encoder<Payload>): (t: Trace<Payload>)
    requires StatefulSetReplicasSet(plane.statefulSets(QueryGet(query, NamespaceParam)))
    ensures DeclaredJson(t)
    ensures var listing := plane.statefulSets(QueryGet(query, NamespaceParam));
      match listing
      case Failure(cause) =>
        && RespondedUnavailable(t, ErrorBody(Models.ErrorResponse(InternalServerError, StatefulSetsUnavailable)))
        && Logs(t) == [StatefulSetsLog + (Client.StatefulSetsListFailed + cause)]
      case Success(items) =>
        && |Bodies(t)| > 0 && Bodies(t)[0].StatefulSetList?
        && Bodies(t)[0].statefulsets.items == GetStatefulSets(listing, format).value
        && Bodies(t)[0].statefulsets.count == |Bodies(t)[0].statefulsets.items| == |items|
        && Sent(t, Bodies(t)[0], enc)
  {
    var namespace := QueryGet(query, NamespaceParam);
    var namespace := if namespace == "" then "" else namespace;
    Respond(GetStatefulSets(plane.statefulSets(namespace), format), StatefulSetsLog, StatefulSetsUnavailable,
            (e: Models.Envelope<StatefulSet>) => StatefulSetList(e), enc)
  }

  // Correspondence with the layered variant.

  function DropImagesDeployment(d: Models.Deployment): Deployment {
    Deployment(d.name, d.namespace, d.replicas, d.ready, d.available, d.labels, d.age)
  }

  function DropImagesCronJob(cj: Models.CronJob): CronJob {
    CronJob(cj.name, cj.namespace, cj.schedule, cj.suspend, cj.active, cj.lastRun, cj.labels, cj.age)
  }

  function DropImagesStatefulSet(s: Models.StatefulSet): StatefulSet {
    StatefulSet(s.name, s.namespace, s.replicas, s.ready, s.labels, s.age)
  }

  /** The body the binary sends in place of the layered variant's: the same envelope with the
      image lists removed. */
  function DropImages(p: Handlers.Payload): Payload {
    match p
    case NamespaceList(e) => NamespaceList(e)
    case DeploymentList(e) => DeploymentList(Models.Envelope(Seqs.Map(DropImagesDeployment, e.items), e.count))
    case CronJobList(e) => CronJobList(Models.Envelope(Seqs.Map(DropImagesCronJob, e.items), e.count))
    case StatefulSetList(e) => StatefulSetList(Models.Envelope(Seqs.Map(DropImagesStatefulSet, e.items), e.count))
    case ErrorBody(f) => ErrorBody(f)
  }

  /** The binary's Deployments listing fails exactly when the layered client's does, with the same
      error, and otherwise returns the layered records with their image lists removed. */
  lemma DeploymentsTranslationMatchesLayered(listing: Listing<DeploymentObject>, format: Formatter)
    requires DeploymentReplicasSet(listing)
    ensures GetDeployments(listing, format).Success? <==> Client.GetDeployments(listing, format).Success?
    ensures listing.Failure? ==> GetDeployments(listing, format).error == Client.GetDeployments(listing, format).error
    ensures listing.Success? ==>
              GetDeployments(listing, format).value == Seqs.Map(DropImagesDeployment, Client.GetDeployments(listing, format).value)
  {
  }

  /** The binary's CronJobs listing fails exactly when the layered client's does, with the same
      error, and otherwise returns the layered records with their image lists removed. */
  lemma CronJobsTranslationMatchesLayered(listing: Listing<CronJobObject>, format: Formatter)
    ensures GetCronJobs(listing, format).Success? <==> Client.GetCronJobs(listing, format).Success?
    ensures listing.Failure? ==> GetCronJobs(listing, format).error == Client.GetCronJobs(listing, format).error
    ensures listing.Success? ==>
              GetCronJobs(listing, format).value == Seqs.Map(DropImagesCronJob, Client.GetCronJobs(listing, format).value)
  {
  }

  /** The binary's StatefulSets listing fails exactly when the layered client's does, with the same
      error, and otherwise returns the layered records with their image lists removed. */
  lemma StatefulSetsTranslationMatchesLayered(listing: Listing<StatefulSetObject>, format: Formatter)
    requires StatefulSetReplicasSet(listing)
    ensures GetStatefulSets(listing, format).Success? <==> Client.GetStatefulSets(listing, format).Success?
    ensures listing.Failure? ==> GetStatefulSets(listing, format).error == Client.GetStatefulSets(listing, format).error
    ensures listing.Success? ==>
              GetStatefulSets(listing, format).value == Seqs.Map(DropImagesStatefulSet, Client.GetStatefulSets(listing, format).value)
  {
  }

  /** The two `Respond`s agree when nothing fails to encode and the outcomes correspond: both
      fail with the same error, or both succeed and the binary's envelope is the layered one
      without image lists. */
  lemma RespondAlike<R, S>(layeredOutcome: Result<seq<R>, Client.ClientError>,
                           binaryOutcome: Result<seq<S>, Client.ClientError>,
                           logPrefix: string, unavailable: string,
                           wrapLayered: Models.Envelope<R> -> Handlers.Payload,
                           wrapBinary: Models.Envelope<S> -> Payload,
                           layered: Encoder<Handlers.Payload>, binary: Encoder<Payload>)
    requires layeredOutcome.Success? <==> binaryOutcome.Success?
    requires layeredOutcome.Success? ==>
               DropImages(wrapLayered(Models.Envelope(layeredOutcome.value, |layeredOutcome.value|)))
                 == wrapBinary(Models.Envelope(binaryOutcome.value, |binaryOutcome.value|))
    requires forall p :: layered(p).None?
    requires forall p :: binary(p).None?
    ensures Statuses(Respond(binaryOutcome, logPrefix, unavailable, wrapBinary, binary))
         == Statuses(Handlers.Respond(layeredOutcome, logPrefix, unavailable, wrapLayered, layered))
    ensures Bodies(Respond(binaryOutcome, logPrefix, unavailable, wrapBinary, binary))
         == Seqs.Map(DropImages, Bodies(Handlers.Respond(layeredOutcome, logPrefix, unavailable, wrapLayered, layered)))
  {
    var layeredTrace := Handlers.Respond(layeredOutcome, logPrefix, unavailable, wrapLayered, layered);
    var binaryTrace := Respond(binaryOutcome, logPrefix, unavailable, wrapBinary, binary);
    if layeredOutcome.Success? {
      var data := wrapLayered(Models.Envelope(layeredOutcome.value, |layeredOutcome.value|));
      var sent := wrapBinary(Models.Envelope(binaryOutcome.value, |binaryOutcome.value|));
      assert layered(data).None?;
      assert Statuses(layeredTrace) == [StatusOK] && Bodies(layeredTrace) == [data];
      assert Statuses(binaryTrace) == [StatusOK] && Bodies(binaryTrace) == [sent];
      assert Seqs.Map(DropImages, [data]) == [DropImages(data)];
    } else {
      var errorBody := Models.ErrorResponse(InternalServerError, unavailable);
      assert Bodies(layeredTrace) == [Handlers.ErrorBody(errorBody)];
      assert Bodies(binaryTrace) == [ErrorBody(errorBody)];
      assert Seqs.Map(DropImages, [Handlers.ErrorBody(errorBody)]) == [ErrorBody(errorBody)];
    }
  }

  /** When no body ever fails to encode, both variants answer a namespace listing identically. */
  lemma NamespacesServedAlike(plane: ControlPlane, format: Formatter,
                              layered: Encoder<Handlers.Payload>, binary: Encoder<Payload>)
    requires forall p :: layered(p).None?
    requires forall p :: binary(p).None?
    ensures Statuses(HandleNamespaces(plane, format, binary))
         == Statuses(Handlers.GetNamespaces(plane, format, layered))
    ensures Bodies(HandleNamespaces(plane, format, binary))
         == Seqs.Map(DropImages, Bodies(Handlers.GetNamespaces(plane, format, layered)))
  {
    var outcome := Client.GetNamespaces(plane.namespaces, format);
    RespondAlike(outcome, outcome, NamespacesLog, NamespacesUnavailable,
                 (e: Models.Envelope<Models.Namespace>) => Handlers.NamespaceList(e),
                 (e: Models.Envelope<Models.Namespace>) => NamespaceList(e), layered, binary);
  }

  /** When no body ever fails to encode, both variants write the same statuses for a Deployments
      listing, and the binary's bodies are the layered ones without image lists. */
  lemma DeploymentsServedAlike(plane: ControlPlane, query: Query, format: Formatter,
                       layered: Encoder<Handlers.Payload>, binary: Encoder<Payload>)
    requires DeploymentReplicasSet(plane.deployments(QueryGet(query, NamespaceParam)))
    requires forall p :: layered(p).None?
    requires forall p :: binary(p).None?
    ensures Statuses(HandleDeployments(plane, query, format, binary))
         == Statuses(Handlers.GetDeployments(plane, query, format, layered))
    ensures Bodies(HandleDeployments(plane, query, format, binary))
         == Seqs.Map(DropImages, Bodies(Handlers.GetDeployments(plane, query, format, layered)))
  {
    var listing := plane.deployments(QueryGet(query, NamespaceParam));
    DeploymentsTranslationMatchesLayered(listing, format);
    RespondAlike(Client.GetDeployments(listing, format), GetDeployments(listing, format), DeploymentsLog, DeploymentsUnavailable,
                 (e: Models.Envelope<Models.Deployment>) => Handlers.DeploymentList(e),
                 (e: Models.Envelope<Deployment>) => DeploymentList(e), layered, binary);
  }

  /** When no body ever fails to encode, both variants write the same statuses for a CronJobs
      listing, and the binary's bodies are the layered ones without image lists. */
  lemma CronJobsServedAlike(plane: ControlPlane, query: Query, format: Formatter,
                       layered: Encoder<Handlers.Payload>, binary: Encoder<Payload>)
    requires forall p :: layered(p).None?
    requires forall p :: binary(p).None?
    ensures Statuses(HandleCronJobs(plane, query, format, binary))
         == Statuses(Handlers.GetCronJobs(plane, query, format, layered))
    ensures Bodies(HandleCronJobs(plane, query, format, binary))
         == Seqs.Map(DropImages, Bodies(Handlers.GetCronJobs(plane, query, format, layered)))
  {
    var listing := plane.cronJobs(QueryGet(query, NamespaceParam));
    CronJobsTranslationMatchesLayered(listing, format);
    RespondAlike(Client.GetCronJobs(listing, format), GetCronJobs(listing, format), CronJobsLog, CronJobsUnavailable,
                 (e: Models.Envelope<Models.CronJob>) => Handlers.CronJobList(e),
                 (e: Models.Envelope<CronJob>) => CronJobList(e), layered, binary);
  }

  /** When no body ever fails to encode, both variants write the same statuses for a StatefulSets
      listing, and the binary's bodies are the layered ones without image lists. */
  lemma StatefulSetsServedAlike(plane: ControlPlane, query: Query, format: Formatter,
                       layered: Encoder<Handlers.Payload>, binary: Encoder<Payload>)
    requires StatefulSetReplicasSet(plane.statefulSets(QueryGet(query, NamespaceParam)))
    requires forall p :: layered(p).None?
    requires forall p :: binary(p).None?
    ensures Statuses(HandleStatefulSets(plane, query, format, binary))
         == Statuses(Handlers.GetStatefulSets(plane, query, format, layered))
    ensures Bodies(HandleStatefulSets(plane, query, format, binary))
         == Seqs.Map(DropImages, Bodies(Handlers.GetStatefulSets(plane, query, format, layered)))
  {
    var listing := plane.statefulSets(QueryGet(query, NamespaceParam));
    StatefulSetsTranslationMatchesLayered(listing, format);
    RespondAlike(Client.GetStatefulSets(listing, format), GetStatefulSets(listing, format), StatefulSetsLog, StatefulSetsUnavailable,
                 (e: Models.Envelope<Models.StatefulSet>) => Handlers.StatefulSetList(e),
                 (e: Models.Envelope<StatefulSet>) => StatefulSetList(e), layered, binary);
  }
}
