/** The control-plane objects the client reads, reduced to the fields it uses, and the
    list calls themselves as plain values: a list call either fails with a cause or
    yields the items in the order the control plane returned them. */
module Cluster {
  import opened Wrappers

  /** Go's `int32`, the type of the replica counts. */
  newtype int32 = x: int | -0x8000_0000 <= x < 0x8000_0000

  /** A label map, copied verbatim from object to record. */
  type Labels = map<string, string>

  /** An instant; how it is rendered is the Formatter's business. */
  datatype Time = Time(unixNanos: int)

  /** Rendering of an instant with the layout "2006-01-02 15:04:05"; left abstract. */
  type Formatter = Time -> string

  /** The text of the error a failed list call returns. */
  type Cause = string

  /** The outcome of one list call. */
  type Listing<T> = Result<seq<T>, Cause>

  datatype Container = Container(name: string, image: string)

  /** An entry of a CronJob's `status.active`. */
  datatype ObjectReference = ObjectReference(kind: string, namespace: string, name: string)

  datatype NamespaceObject = NamespaceObject(
    name: string,
    labels: Labels,
    creationTimestamp: Time,
    phase: string)

  /** `specReplicas` is the `*int32` at `spec.replicas`; `containers` those of the pod template. */
  datatype DeploymentObject = DeploymentObject(
    name: string,
    namespace: string,
    labels: Labels,
    creationTimestamp: Time,
    specReplicas: Option<int32>,
    containers: seq<Container>,
    readyReplicas: int32,
    availableReplicas: int32)

  /** `suspend` is the `*bool` at `spec.suspend`; `containers` those of the job template's pod
      template; `lastScheduleTime` is nil until the job first fires. */
  datatype CronJobObject = CronJobObject(
    name: string,
    namespace: string,
    labels: Labels,
    creationTimestamp: Time,
    schedule: string,
    suspend: Option<bool>,
    containers: seq<Container>,
    active: seq<ObjectReference>,
    lastScheduleTime: Option<Time>)

  datatype StatefulSetObject = StatefulSetObject(
    name: string,
    namespace: string,
    labels: Labels,
    creationTimestamp: Time,
    specReplicas: Option<int32>,
    containers: seq<Container>,
    readyReplicas: int32)

  /** The four list calls the client makes. Namespaces are cluster-scoped; the others take a
      namespace, where "" means every namespace. */
  datatype ControlPlane = ControlPlane(
    namespaces: Listing<NamespaceObject>,
    deployments: string -> Listing<DeploymentObject>,
    cronJobs: string -> Listing<CronJobObject>,
    statefulSets: string -> Listing<StatefulSetObject>)

  /** Every listed Deployment has `spec.replicas` set, so the client's dereference is safe. */
  predicate DeploymentReplicasSet(listing: Listing<DeploymentObject>) {
    listing.Success? ==> forall i :: 0 <= i < |listing.value| ==> listing.value[i].specReplicas.Some?
  }

  /** Every listed StatefulSet has `spec.replicas` set, so the client's dereference is safe. */
  predicate StatefulSetReplicasSet(listing: Listing<StatefulSetObject>) {
    listing.Success? ==> forall i :: 0 <= i < |listing.value| ==> listing.value[i].specReplicas.Some?
  }
}
