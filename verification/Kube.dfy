/** Vocabulary shared by every model: object names and optional values. */
module Kube {
  type Name = string

  datatype Option<+T> = None | Some(value: T)

  /** What the reconciler sees when it reads the HubConfig named "cluster". */
  datatype Mode = SecretMode | MceMode | OtherMode

  datatype HubView = Missing | Terminating | Active(mode: Mode)

  /** spec.credentialSource; the CRD admits exactly one of the two. */
  datatype Source = FromSecret(name: string, namespace: string) | FromMce(cluster: Name)

  /** credentialSourceMatchesMode */
  predicate SourceMatches(source: Source, mode: Mode) {
    match mode
    case SecretMode => source.FromSecret?
    case MceMode => source.FromMce?
    case OtherMode => false
  }
}
