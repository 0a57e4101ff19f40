/** The root CA secret, the eight secrets signed by it and the service-account
    signing key (pkg/controllers/kubeservice/pki, etcd/reconcile.go, kas/certs.go,
    kas/kubeconfig.go, kcm/certs.go).

    Cryptography is symbolic: a certificate is a term that records who signed what,
    every generated key has its own nonce, and the CA hash is an arbitrary function
    of the two stored CA values. */
module Pki {
  import opened Base
  import opened ServiceIP

  datatype ExtKeyUsage = ServerAuth | ClientAuth

  datatype CertCfg = CertCfg(
    commonName: string, organization: seq<string>, organizationalUnit: seq<string>,
    extKeyUsages: seq<ExtKeyUsage>, certSign: bool, validityYears: nat,
    dnsNames: seq<string>, ipAddresses: seq<seq<Octet>>, isCA: bool)

  /** The contents of a data key. */
  datatype Bytes =
    | Empty
    | SelfSigned(cfg: CertCfg, nonce: nat)
    | Signed(issuerCrt: Bytes, issuerKey: Bytes, cfg: CertCfg, nonce: nat)
    | PrivateKey(nonce: nat)
    | PublicKey(nonce: nat)
    | Kubeconfig(url: string, crt: Bytes, key: Bytes, ca: Bytes)
    | Undecodable(id: nat)

  datatype SecretType = Unset | OpaqueType | TLSType

  /** The data keys the operator reads or writes; Secrets gives their names. */
  datatype DataKey =
    | CaCrt | CaKey
    | EtcdClientCrt | EtcdClientKey | EtcdClientCa
    | ServerCrt | ServerKey | ServerCa
    | PeerCrt | PeerKey | PeerCa
    | TlsCrt | TlsKey
    | KubeconfigKey
    | ServiceAccountKey | ServiceAccountPub
    | OtherKey(name: string)

  /** CaHash is the annotation hypershiftlite.openshift.io/ca-hash. */
  datatype AnnotationKey = CaHash | OtherAnnotation(name: string)

  datatype SecretValue = SecretValue(
    kind: SecretType, data: map<DataKey, Bytes>, annotations: map<AnnotationKey, string>)

  const EMPTY_SECRET := SecretValue(Unset, map[], map[])

  datatype Leaf =
    | EtcdClient | EtcdServer | EtcdPeer
    | APIServerCert | AggregatorCert | ServiceKubeconfig | LocalhostKubeconfig
    | ClusterSigner

  /** The hash of the two CA values, and the certificate and URL each leaf asks for. */
  datatype Config = Config(
    hash: (Bytes, Bytes) -> string, rootCfg: CertCfg, certCfg: Leaf -> CertCfg, url: Leaf -> string)

  // ----- pki/util.go -----

  function DataOf(s: SecretValue, key: DataKey): Bytes {
    if key in s.data then s.data[key] else Empty
  }

  datatype CAPair = CAPair(crt: Bytes, key: Bytes)

  function PairOf(ca: SecretValue): CAPair {
    CAPair(DataOf(ca, CaCrt), DataOf(ca, CaKey))
  }

  predicate HasKeys(s: SecretValue, keys: seq<DataKey>) {
    forall i :: 0 <= i < |keys| ==> keys[i] in s.data
  }

  predicate ValidCA(ca: SecretValue) {
    CaCrt in ca.data && CaKey in ca.data
  }

  function HashOf(c: Config, pair: CAPair): string {
    c.hash(pair.crt, pair.key)
  }

  predicate HasCAHash(c: Config, s: SecretValue, ca: SecretValue) {
    CaHash in s.annotations && s.annotations[CaHash] == HashOf(c, PairOf(ca))
  }

  predicate SignedSecretUpToDate(c: Config, s: SecretValue, ca: SecretValue, keys: seq<DataKey>) {
    HasKeys(s, keys) && HasCAHash(c, s, ca)
  }

  /** Signing under the pair works: both parts decode, and the key is the one the
      certificate was made for, which crypto/x509 checks. */
  predicate CanSign(pair: CAPair) {
    (pair.crt.SelfSigned? || pair.crt.Signed?) && pair.key == PrivateKey(pair.crt.nonce)
  }

  // ----- the eight signed secrets -----

  function LeafType(leaf: Leaf): SecretType {
    if leaf.APIServerCert? || leaf.AggregatorCert? then TLSType else OpaqueType
  }

  function ExpectedKeys(leaf: Leaf): seq<DataKey> {
    match leaf
    case EtcdClient => [EtcdClientCrt, EtcdClientKey, EtcdClientCa]
    case EtcdServer => [ServerCrt, ServerKey, ServerCa]
    case EtcdPeer => [PeerCrt, PeerKey, PeerCa]
    case APIServerCert => [TlsCrt, TlsKey]
    case AggregatorCert => [TlsCrt, TlsKey]
    case ServiceKubeconfig => [KubeconfigKey]
    case LocalhostKubeconfig => [KubeconfigKey]
    case ClusterSigner => [CaCrt, CaKey]
  }

  /** Certificate, key and, if there is a third key, the CA certificate. */
  function CertData(keys: seq<DataKey>, crt: Bytes, key: Bytes, ca: Bytes): map<DataKey, Bytes>
    requires |keys| >= 2
  {
    if |keys| == 2 then map[keys[0] := crt, keys[1] := key]
    else map[keys[0] := crt, keys[1] := key, keys[2] := ca]
  }

  /** The data keys a leaf gets when it is signed by the pair with fresh material. */
  function Payload(c: Config, leaf: Leaf, pair: CAPair, nonce: nat): map<DataKey, Bytes> {
    var crt, key := Signed(pair.crt, pair.key, c.certCfg(leaf), nonce), PrivateKey(nonce);
    if leaf.ServiceKubeconfig? || leaf.LocalhostKubeconfig? then
      map[KubeconfigKey := Kubeconfig(c.url(leaf), crt, key, pair.crt)]
    else CertData(ExpectedKeys(leaf), crt, key, pair.crt)
  }

  predicate LeafUpToDate(c: Config, leaf: Leaf, s: SecretValue, ca: SecretValue) {
    SignedSecretUpToDate(c, s, ca, ExpectedKeys(leaf))
  }

  /** What reconciling a leaf leaves behind, or nothing when it fails. */
  function ReconcileLeaf(c: Config, leaf: Leaf, s: SecretValue, ca: SecretValue, nonce: nat, generated: bool)
    : Option<SecretValue>
  {
    if !ValidCA(ca) then None
    else
      var typed := s.(kind := LeafType(leaf));
      if LeafUpToDate(c, leaf, s, ca) then Some(typed)
      else if !CanSign(PairOf(ca)) || !generated then None
      else
        Some(typed.(data := s.data + Payload(c, leaf, PairOf(ca), nonce),
                    annotations := s.annotations[CaHash := HashOf(c, PairOf(ca))]))
  }

  // ----- the two unsigned secrets -----

  function RootPair(c: Config, nonce: nat): CAPair {
    CAPair(SelfSigned(c.rootCfg, nonce), PrivateKey(nonce))
  }

  function ReconcileRoot(c: Config, s: SecretValue, nonce: nat, generated: bool): Option<SecretValue> {
    var typed := s.(kind := OpaqueType);
    if CaKey in s.data then Some(typed)
    else if !generated then None
    else Some(typed.(data := s.data[CaCrt := RootPair(c, nonce).crt][CaKey := RootPair(c, nonce).key]))
  }

  function ReconcileSigningKey(s: SecretValue, nonce: nat, generated: bool): Option<SecretValue> {
    var typed := s.(kind := OpaqueType);
    if ServiceAccountKey in s.data && ServiceAccountPub in s.data then Some(typed)
    else if !generated then None
    else Some(typed.(data := s.data[ServiceAccountKey := PrivateKey(nonce)][ServiceAccountPub := PublicKey(nonce)]))
  }

  // ----- what the functions guarantee -----

  /** The payload fills exactly the expected keys. */
  lemma PayloadKeys(c: Config, leaf: Leaf, pair: CAPair, nonce: nat)
    ensures forall k :: k in Payload(c, leaf, pair, nonce) <==> k in ExpectedKeys(leaf)
  {
    var keys := ExpectedKeys(leaf);
    assert forall k :: k in keys <==> exists i :: 0 <= i < |keys| && keys[i] == k;
  }

  /** The key has this value; a secret that is not whole may lack the key. */
  predicate Has(s: SecretValue, key: DataKey, value: Bytes, whole: bool) {
    if key in s.data then s.data[key] == value else !whole
  }

  /** Reconciling the root CA succeeds with a valid CA exactly when the secret began
      with ca.crt or without ca.key: a lone ca.key is never repaired.  A missing ca.key is
      replaced together with the certificate, by a self-signed pair; all else stays. */
  lemma RootCAValidity(c: Config, s: SecretValue, nonce: nat, generated: bool)
    requires ReconcileRoot(c, s, nonce, generated).Some?
    ensures var r := ReconcileRoot(c, s, nonce, generated).value;
            && (ValidCA(r) <==> CaCrt in s.data || CaKey !in s.data) && (CaKey in s.data ==> r.data == s.data)
            && (CaKey !in s.data ==> generated && Has(r, CaCrt, SelfSigned(c.rootCfg, nonce), true) &&
                                     Has(r, CaKey, PrivateKey(nonce), true))
            && r.kind == OpaqueType && r.annotations == s.annotations
            && (forall k :: k != CaCrt && k != CaKey ==> (k in r.data <==> k in s.data))
            && (forall k :: k != CaCrt && k != CaKey && k in s.data ==> r.data[k] == s.data[k])
  {
  }

  /** Reconciling the service-account key leaves both halves: those there were, or two of one
      generated key when either was missing; all else stays. */
  lemma SigningKeyCompleted(s: SecretValue, nonce: nat, generated: bool)
    requires ReconcileSigningKey(s, nonce, generated).Some?
    ensures var r := ReconcileSigningKey(s, nonce, generated).value;
            && ServiceAccountKey in r.data && ServiceAccountPub in r.data
            && (ServiceAccountKey in s.data && ServiceAccountPub in s.data ==> r.data == s.data)
            && (ServiceAccountKey !in s.data || ServiceAccountPub !in s.data ==>
                  generated && r.data[ServiceAccountKey] == PrivateKey(nonce) &&
                  r.data[ServiceAccountPub] == PublicKey(nonce))
            && r.kind == OpaqueType && r.annotations == s.annotations
            && (forall k :: k != ServiceAccountKey && k != ServiceAccountPub ==> (k in r.data <==> k in s.data))
            && (forall k :: k != ServiceAccountKey && k != ServiceAccountPub && k in s.data ==> r.data[k] == s.data[k])
  {
  }

  /** The secret's keys are from one signing by the pair: a certificate with the leaf's
      settings, issued under the pair's certificate and key, the private key made for it,
      and the pair's certificate.  A kubeconfig has all three and the leaf's URL under its
      one key. */
  predicate FromSigning(c: Config, leaf: Leaf, s: SecretValue, pair: CAPair, nonce: nat, whole: bool) {
    var crt, key := Signed(pair.crt, pair.key, c.certCfg(leaf), nonce), PrivateKey(nonce);
    match leaf
    case EtcdClient =>
      Has(s, EtcdClientCrt, crt, whole) && Has(s, EtcdClientKey, key, whole) && Has(s, EtcdClientCa, pair.crt, whole)
    case EtcdServer => Has(s, ServerCrt, crt, whole) && Has(s, ServerKey, key, whole) &&
      Has(s, ServerCa, pair.crt, whole)
    case EtcdPeer => Has(s, PeerCrt, crt, whole) && Has(s, PeerKey, key, whole) && Has(s, PeerCa, pair.crt, whole)
    case APIServerCert => Has(s, TlsCrt, crt, whole) && Has(s, TlsKey, key, whole)
    case AggregatorCert => Has(s, TlsCrt, crt, whole) && Has(s, TlsKey, key, whole)
    case ServiceKubeconfig => Has(s, KubeconfigKey, Kubeconfig(c.url(leaf), crt, key, pair.crt), whole)
    case LocalhostKubeconfig => Has(s, KubeconfigKey, Kubeconfig(c.url(leaf), crt, key, pair.crt), whole)
    case ClusterSigner => Has(s, CaCrt, crt, whole) && Has(s, CaKey, key, whole)
  }

  /** The keys of a leaf, by name. */
  predicate Complete(leaf: Leaf, s: SecretValue) {
    match leaf
    case EtcdClient => EtcdClientCrt in s.data && EtcdClientKey in s.data && EtcdClientCa in s.data
    case EtcdServer => ServerCrt in s.data && ServerKey in s.data && ServerCa in s.data
    case EtcdPeer => PeerCrt in s.data && PeerKey in s.data && PeerCa in s.data
    case APIServerCert => TlsCrt in s.data && TlsKey in s.data
    case AggregatorCert => TlsCrt in s.data && TlsKey in s.data
    case ServiceKubeconfig => KubeconfigKey in s.data
    case LocalhostKubeconfig => KubeconfigKey in s.data
    case ClusterSigner => CaCrt in s.data && CaKey in s.data
  }

  lemma KeysNamed(s: SecretValue, keys: seq<DataKey>)
    ensures HasKeys(s, keys) <==> forall k :: k in keys ==> k in s.data
  {
  }

  /** A leaf is up to date if and only if it has all its keys and is annotated with the hash
      of the CA's two values as they are now. */
  lemma UpToDateExactly(c: Config, leaf: Leaf, s: SecretValue, ca: SecretValue)
    requires CaCrt in ca.data && CaKey in ca.data
    ensures LeafUpToDate(c, leaf, s, ca) <==>
            Complete(leaf, s) && CaHash in s.annotations &&
            s.annotations[CaHash] == c.hash(ca.data[CaCrt], ca.data[CaKey])
  {
    KeysNamed(s, ExpectedKeys(leaf));
  }

  /** The secret was signed by the pair: its annotation is the pair's hash and every key of
      the leaf it still has is from one signing by that pair. */
  ghost predicate IssuedBy(c: Config, leaf: Leaf, s: SecretValue, pair: CAPair) {
    CaHash in s.annotations && s.annotations[CaHash] == c.hash(pair.crt, pair.key) &&
    exists nonce :: FromSigning(c, leaf, s, pair, nonce, false)
  }

  /** A secret that holds the payload of a signing holds that signing. */
  lemma PayloadIsSigning(c: Config, leaf: Leaf, s: SecretValue, pair: CAPair, nonce: nat)
    requires forall k :: k in Payload(c, leaf, pair, nonce) ==>
               k in s.data && s.data[k] == Payload(c, leaf, pair, nonce)[k]
    ensures FromSigning(c, leaf, s, pair, nonce, true)
  {
  }

  /** A leaf is signed only by a CA key that belongs to the CA certificate.  Signing stores
      one whole signing by the CA's own two values, under the type of the leaf, and
      annotates their hash; all else in the secret stays. */
  lemma LeafSigned(c: Config, leaf: Leaf, s: SecretValue, ca: SecretValue, nonce: nat, generated: bool)
    requires ReconcileLeaf(c, leaf, s, ca, nonce, generated).Some? && !LeafUpToDate(c, leaf, s, ca)
    ensures CaCrt in ca.data && CaKey in ca.data && generated
    ensures (ca.data[CaCrt].SelfSigned? || ca.data[CaCrt].Signed?) && ca.data[CaKey] == PrivateKey(ca.data[CaCrt].nonce)
    ensures var r := ReconcileLeaf(c, leaf, s, ca, nonce, generated).value;
            && FromSigning(c, leaf, r, CAPair(ca.data[CaCrt], ca.data[CaKey]), nonce, true)
            && r.kind == (if leaf.APIServerCert? || leaf.AggregatorCert? then TLSType else OpaqueType)
            && r.annotations == s.annotations[CaHash := c.hash(ca.data[CaCrt], ca.data[CaKey])]
            && (forall k :: k in s.data && k !in ExpectedKeys(leaf) ==> k in r.data && r.data[k] == s.data[k])
  {
    PayloadKeys(c, leaf, PairOf(ca), nonce);
    PayloadIsSigning(c, leaf, ReconcileLeaf(c, leaf, s, ca, nonce, generated).value, PairOf(ca), nonce);
  }

  /** A successful reconcile leaves the leaf up to date; it either kept data and
      annotations or signed with the given CA. */
  lemma ReconcileLeafResult(c: Config, leaf: Leaf, s: SecretValue, ca: SecretValue, nonce: nat, generated: bool)
    requires ReconcileLeaf(c, leaf, s, ca, nonce, generated).Some?
    ensures var r := ReconcileLeaf(c, leaf, s, ca, nonce, generated).value;
            && ValidCA(ca) && LeafUpToDate(c, leaf, r, ca)
            && (LeafUpToDate(c, leaf, s, ca) ==> r.data == s.data && r.annotations == s.annotations)
            && (!LeafUpToDate(c, leaf, s, ca) ==> IssuedBy(c, leaf, r, PairOf(ca)))
  {
    var r := ReconcileLeaf(c, leaf, s, ca, nonce, generated).value;
    if !LeafUpToDate(c, leaf, s, ca) {
      LeafSigned(c, leaf, s, ca, nonce, generated);
      UpToDateExactly(c, leaf, r, ca);
      assert FromSigning(c, leaf, r, PairOf(ca), nonce, false);
    }
  }

  /** Reconciling a leaf that is up to date a second time changes nothing. */
  lemma ReconcileLeafFixpoint(c: Config, leaf: Leaf, s: SecretValue, ca: SecretValue, nonce: nat, generated: bool)
    requires ValidCA(ca) && LeafUpToDate(c, leaf, s, ca) && s.kind == LeafType(leaf)
    ensures ReconcileLeaf(c, leaf, s, ca, nonce, generated) == Some(s)
  {
  }
}
