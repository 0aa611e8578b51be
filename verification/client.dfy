/** The layered client: translation of each list call's items into flat records. */
module Client {
  import opened Wrappers
  import opened Cluster
  import opened Models
  import Images
  import Seqs

  /** The client's error: the failure's context followed by the list call's cause. */
  datatype ClientError = ClientError(message: string)

  const NamespacesListFailed: string := "erreur lors de la récupération des namespaces: "
  const DeploymentsListFailed: string := "erreur lors de la récupération des déploiements: "
  const CronJobsListFailed: string := "erreur lors de la récupération des cronjobs: "
  const StatefulSetsListFailed: string := "erreur lors de la récupération des statefulsets: "

  /** A failed list call becomes an error carrying its cause and no records; a successful one
      becomes one record per item, in the control plane's order. */
  function Translate<T, R>(listing: Listing<T>, context: string, f: T --> R): (r: Result<seq<R>, ClientError>)
    requires listing.Success? ==> forall i :: 0 <= i < |listing.value| ==> f.requires(listing.value[i])
    ensures r.Success? <==> listing.Success?
    ensures listing.Failure? ==> r.error == ClientError(context + listing.error)
    ensures listing.Success? ==> |r.value| == |listing.value|
    ensures listing.Success? ==> forall i :: 0 <= i < |listing.value| ==> r.value[i] == f(listing.value[i])
  {
    match listing
    case Failure(cause) => Failure(ClientError(context + cause))
    case Success(items) => Success(Seqs.Map(f, items))
  }

  function ToNamespace(ns: NamespaceObject, format: Formatter): (r: Namespace)
    ensures r.name == ns.name && r.labels == ns.labels
    ensures r.status == ns.phase
    ensures r.age == format(ns.creationTimestamp)
  {
    Namespace(ns.name, ns.phase, ns.labels, format(ns.creationTimestamp))
  }

  /** The replica count is read through `spec.replicas`, which must be set. */
  function ToDeployment(d: DeploymentObject, format: Formatter): (r: Deployment)
    requires d.specReplicas.Some?
    ensures r.name == d.name && r.namespace == d.namespace && r.labels == d.labels
    ensures Some(r.replicas) == d.specReplicas
    ensures r.ready == d.readyReplicas && r.available == d.availableReplicas
    ensures r.age == format(d.creationTimestamp)
    ensures |r.images| == |d.containers|
    ensures forall k :: 0 <= k < |d.containers| ==> Images.IsImageName(d.containers[k].image, r.images[k])
  {
    Deployment(d.name, d.namespace, d.specReplicas.value, d.readyReplicas, d.availableReplicas,
               d.labels, format(d.creationTimestamp), Images.GetContainersImage(d.containers))
  }

  /** A nil `suspend` reads as not suspended; `lastRun` is "" until the job first fires. */
  function ToCronJob(cj: CronJobObject, format: Formatter): (r: CronJob)
    ensures r.name == cj.name && r.namespace == cj.namespace && r.labels == cj.labels
    ensures r.schedule == cj.schedule
    ensures r.suspend <==> cj.suspend == Some(true)
    ensures r.active == |cj.active|
    ensures cj.lastScheduleTime.None? ==> r.lastRun == ""
    ensures cj.lastScheduleTime.Some? ==> r.lastRun == format(cj.lastScheduleTime.value)
    ensures r.age == format(cj.creationTimestamp)
    ensures |r.images| == |cj.containers|
    ensures forall k :: 0 <= k < |cj.containers| ==> Images.IsImageName(cj.containers[k].image, r.images[k])
  {
    var suspend := match cj.suspend case None => false case Some(b) => b;
    var lastRun := match cj.lastScheduleTime case None => "" case Some(t) => format(t);
    CronJob(cj.name, cj.namespace, cj.schedule, suspend, |cj.active|, lastRun,
            cj.labels, format(cj.creationTimestamp), Images.GetContainersImage(cj.containers))
  }

  /** The replica count is read through `spec.replicas`, which must be set. */
  function ToStatefulSet(s: StatefulSetObject, format: Formatter): (r: StatefulSet)
    requires s.specReplicas.Some?
    ensures r.name == s.name && r.namespace == s.namespace && r.labels == s.labels
    ensures Some(r.replicas) == s.specReplicas
    ensures r.ready == s.readyReplicas
    ensures r.age == format(s.creationTimestamp)
    ensures |r.images| == |s.containers|
    ensures forall k :: 0 <= k < |s.containers| ==> Images.IsImageName(s.containers[k].image, r.images[k])
  {
    StatefulSet(s.name, s.namespace, s.specReplicas.value, s.readyReplicas,
                s.labels, format(s.creationTimestamp), Images.GetContainersImage(s.containers))
  }

  function GetNamespaces(listing: Listing<NamespaceObject>, format: Formatter): (r: Result<seq<Namespace>, ClientError>)
    ensures r.Success? <==> listing.Success?
    ensures listing.Failure? ==> r.error == ClientError(NamespacesListFailed + listing.error)
    ensures listing.Success? ==> |r.value| == |listing.value|
    ensures listing.Success? ==> forall i :: 0 <= i < |listing.value| ==> r.value[i] == ToNamespace(listing.value[i], format)
  {
    Translate(listing, NamespacesListFailed, (ns: NamespaceObject) => ToNamespace(ns, format))
  }

  function GetDeployments(listing: Listing<DeploymentObject>, format: Formatter): (r: Result<seq<Deployment>, ClientError>)
    requires DeploymentReplicasSet(listing)
    ensures r.Success? <==> listing.Success?
    ensures listing.Failure? ==> r.error == ClientError(DeploymentsListFailed + listing.error)
    ensures listing.Success? ==> |r.value| == |listing.value|
    ensures listing.Success? ==> forall i :: 0 <= i < |listing.value| ==> r.value[i] == ToDeployment(listing.value[i], format)
  {
    Translate(listing, DeploymentsListFailed,
              (d: DeploymentObject) requires d.specReplicas.Some? => ToDeployment(d, format))
  }

  function GetCronJobs(listing: Listing<CronJobObject>, format: Formatter): (r: Result<seq<CronJob>, ClientError>)
    ensures r.Success? <==> listing.Success?
    ensures listing.Failure? ==> r.error == ClientError(CronJobsListFailed + listing.error)
    ensures listing.Success? ==> |r.value| == |listing.value|
    ensures listing.Success? ==> forall i :: 0 <= i < |listing.value| ==> r.value[i] == ToCronJob(listing.value[i], format)
  {
    Translate(listing, CronJobsListFailed, (cj: CronJobObject) => ToCronJob(cj, format))
  }

  function GetStatefulSets(listing: Listing<StatefulSetObject>, format: Formatter): (r: Result<seq<StatefulSet>, ClientError>)
    requires StatefulSetReplicasSet(listing)
    ensures r.Success? <==> listing.Success?
    ensures listing.Failure? ==> r.error == ClientError(StatefulSetsListFailed + listing.error)
    ensures listing.Success? ==> |r.value| == |listing.value|
    ensures listing.Success? ==> forall i :: 0 <= i < |listing.value| ==> r.value[i] == ToStatefulSet(listing.value[i], format)
  {
    Translate(listing, StatefulSetsListFailed,
              (s: StatefulSetObject) requires s.specReplicas.Some? => ToStatefulSet(s, format))
  }

  /** The rendering of a real instant is never empty, so an empty `lastRun` means exactly
      that the job has never been scheduled. */
  lemma LastRunEmptyIffNeverScheduled(cj: CronJobObject, format: Formatter)
    requires forall t :: format(t) != ""
    ensures ToCronJob(cj, format).lastRun == "" <==> cj.lastScheduleTime.None?
  {
  }
}
