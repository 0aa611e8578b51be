/** The fixed texts both server variants write to responses and to the log. */
module Messages {

  /** Error code of every failed list request. */
  const InternalServerError: string := "internal_server_error"

  /** Error code of the layered variant's fallback when a success body cannot be encoded. */
  const EncodingError: string := "encoding_error"
  const EncodingFailed: string := "Erreur lors de l'encodage de la réponse"

  /** The resource-specific messages of a failed list request. */
  const NamespacesUnavailable: string := "Impossible de récupérer les namespaces"
  const DeploymentsUnavailable: string := "Impossible de récupérer les déploiements"
  const CronJobsUnavailable: string := "Impossible de récupérer les cronjobs"
  const StatefulSetsUnavailable: string := "Impossible de récupérer les statefulsets"

  /** Log prefixes, each followed by the error text. */
  const NamespacesLog: string := "Erreur lors de la récupération des namespaces: "
  const DeploymentsLog: string := "Erreur lors de la récupération des déploiements: "
  const CronJobsLog: string := "Erreur lors de la récupération des cronjobs: "
  const StatefulSetsLog: string := "Erreur lors de la récupération des statefulsets: "
  const JsonEncodingLog: string := "Erreur lors de l'encodage JSON: "
  const ErrorEncodingLog: string := "Erreur lors de l'encodage de la réponse d'erreur: "

  /** The query parameter that filters by namespace. */
  const NamespaceParam: string := "namespace"
}
