/** The two hub-side Secrets a spoke owns: their names, contents and owner references. */
module Credential {
  import opened Kube

  const STANDING_PREFIX := "spoke-kubeconfig-"
  const ADAPTER_PREFIX := "spoke-alert-credential-"

  function StandingName(spoke: Name): string {
    STANDING_PREFIX + spoke
  }

  function AdapterName(spoke: Name): string {
    ADAPTER_PREFIX + spoke
  }

  /** A Secret of the operator namespace, identified by the role its name gives it. */
  datatype SecretId = StandingOf(spoke: Name) | AdapterOf(spoke: Name)

  function SecretName(id: SecretId): string {
    match id
    case StandingOf(spoke) => StandingName(spoke)
    case AdapterOf(spoke) => AdapterName(spoke)
  }

  /** No two spokes, and no two roles, share a Secret name: identities stand for names. */
  lemma SecretNamesDistinct(a: SecretId, b: SecretId)
    ensures SecretName(a) == SecretName(b) <==> a == b
  {
    if a.StandingOf? && b.StandingOf? {
      assert SecretName(a)[|STANDING_PREFIX|..] == a.spoke;
      assert SecretName(b)[|STANDING_PREFIX|..] == b.spoke;
    } else if a.AdapterOf? && b.AdapterOf? {
      assert SecretName(a)[|ADAPTER_PREFIX|..] == a.spoke;
      assert SecretName(b)[|ADAPTER_PREFIX|..] == b.spoke;
    } else {
      assert SecretName(a)[6] == (if a.StandingOf? then 'k' else 'a');
      assert SecretName(b)[6] == (if b.StandingOf? then 'k' else 'a');
    }
  }

  datatype RestConfig =
    RestConfig(host: string, token: string, ca: string, insecure: bool, cert: string, key: string)

  /** A standing kubeconfig; writing and parsing it are taken to be each other's inverse. */
  datatype Kubeconfig =
    Kubeconfig(server: string, token: string, ca: string, insecure: bool, cert: string, key: string)

  /** buildKubeconfigAPI */
  function BuildKubeconfig(cfg: RestConfig, serverOverride: string): Kubeconfig {
    Kubeconfig(
      if serverOverride == "" then cfg.host else serverOverride,
      cfg.token, cfg.ca, cfg.insecure, cfg.cert,
      if cfg.cert == "" then "" else cfg.key)
  }

  datatype Key = KubeconfigKey | UrlKey | TokenKey | ExpiryKey | CaKey | OtherKey(name: string)

  /** Secret bytes, already read: plain text, a parseable kubeconfig, or a parseable instant. */
  datatype Blob = Text(text: string) | Config(config: Kubeconfig) | Instant(at: int)

  datatype OwnerRef = OwnerRef(uid: nat, name: Name)

  datatype Secret = Secret(owners: seq<OwnerRef>, data: map<Key, Blob>)

  /** Reading an absent key of a Go map of byte slices yields no bytes. */
  function Lookup(data: map<Key, Blob>, k: Key): Blob {
    if k in data then data[k] else Text("")
  }

  function BuildStanding(owner: OwnerRef, config: Kubeconfig): Secret {
    Secret([owner], map[KubeconfigKey := Config(config)])
  }

  function BuildAdapter(owner: OwnerRef, url: string, token: string, expiry: int, ca: string): Secret {
    var data := map[UrlKey := Text(url), TokenKey := Text(token), ExpiryKey := Instant(expiry)];
    Secret([owner], if ca == "" then data else data[CaKey := Text(ca)])
  }

  const STANDING_KEYS: set<Key> := {KubeconfigKey}
  const ADAPTER_KEYS: set<Key> := {UrlKey, TokenKey, ExpiryKey, CaKey}

  /** No update is needed: the compared keys and the owner references match. */
  predicate UpToDate(existing: Secret, want: Secret, keys: set<Key>) {
    existing.owners == want.owners && forall k :: k in keys ==> Lookup(existing.data, k) == Lookup(want.data, k)
  }
}
