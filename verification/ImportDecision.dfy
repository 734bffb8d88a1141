/** Whether a CAPI cluster is to be imported: `util.ShouldImport` and `util.ShouldAutoImport`. */
module ImportDecision {
  import opened OwnerLabels
  import opened Wrappers

  const IMPORT_LABEL := "cluster-api.cattle.io/rancher-auto-import"
  const IMPORTED := "imported"

  /** Go's `strconv.ParseBool`. */
  function ParseBool(s: string): Option<bool> {
    if s in ["1", "t", "T", "true", "TRUE", "True"] then Some(true)
    else if s in ["0", "f", "F", "false", "FALSE", "False"] then Some(false)
    else None
  }

  /** None without the label; a value that is not a boolean counts as false. */
  function ShouldImport(labels: Labels): Option<bool> {
    if IMPORT_LABEL !in labels then None
    else Some(ParseBool(labels[IMPORT_LABEL]) == Some(true))
  }

  /** The part of the decision that needs only the cluster. */
  datatype Verdict = Import | DoNotImport | AskNamespace

  function ClusterVerdict(labels: Labels, annotations: Labels): Verdict {
    match ShouldImport(labels)
    case Some(true) => if IMPORTED in annotations then AskNamespace else Import
    case Some(false) => DoNotImport
    case None => AskNamespace
  }

  function NamespaceVerdict(labels: Labels): bool {
    ShouldImport(labels) == Some(true)
  }
}
