/** The flat records the layered variant publishes and the envelopes around them. */
module Models {
  import opened Cluster

  datatype Namespace = Namespace(name: string, status: string, labels: Labels, age: string)

  datatype Deployment = Deployment(
    name: string,
    namespace: string,
    replicas: int32,
    ready: int32,
    available: int32,
    labels: Labels,
    age: string,
    images: seq<string>)

  /** `lastRun` is "" (omitted from the JSON) when the job has never been scheduled. */
  datatype CronJob = CronJob(
    name: string,
    namespace: string,
    schedule: string,
    suspend: bool,
    active: nat,
    lastRun: string,
    labels: Labels,
    age: string,
    images: seq<string>)

  /** Like a Deployment, but without an available count. */
  datatype StatefulSet = StatefulSet(
    name: string,
    namespace: string,
    replicas: int32,
    ready: int32,
    labels: Labels,
    age: string,
    images: seq<string>)

  /** A list response: the records and their count, e.g. `{"deployments": [...], "count": n}`. */
  datatype Envelope<R> = Envelope(items: seq<R>, count: int)

  /** The body of every error response: `{"error": code, "message": text}`. */
  datatype ErrorResponse = ErrorResponse(error: string, message: string)
}
