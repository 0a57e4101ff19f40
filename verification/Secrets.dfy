/** The fixed settings of the operator, and the reconcile functions of the secrets as
    the source performs them: on a secret in memory. */
module Secrets {
  import opened ServiceIP
  import opened Pki

  // ----- names and certificate settings -----

  function KeyName(k: DataKey): string {
    match k
    case CaCrt => "ca.crt"
    case CaKey => "ca.key"
    case EtcdClientCrt => "etcd-client.crt"
    case EtcdClientKey => "etcd-client.key"
    case EtcdClientCa => "etcd-client-ca.crt"
    case ServerCrt => "server.crt"
    case ServerKey => "server.key"
    case ServerCa => "server-ca.crt"
    case PeerCrt => "peer.crt"
    case PeerKey => "peer.key"
    case PeerCa => "peer-ca.crt"
    case TlsCrt => "tls.crt"
    case TlsKey => "tls.key"
    case KubeconfigKey => "kubeconfig"
    case ServiceAccountKey => "service-account.key"
    case ServiceAccountPub => "service-account.pub"
    case OtherKey(name) => name
  }

  /** Different keys have different names, so a map by key is a map by name. */
  lemma KeyNamesDistinct(a: DataKey, b: DataKey)
    requires !a.OtherKey? && !b.OtherKey? && KeyName(a) == KeyName(b)
    ensures a == b
  {
  }

  const KUBE_APISERVER := "kube-apiserver"
  const SERVICE_NETWORK: seq<Octet> := [172, 30, 0, 0]
  const SERVICE_PREFIX: nat := 16
  const LOOPBACK: seq<Octet> := [127, 0, 0, 1]

  function PlainCfg(commonName: string, organization: string, usages: seq<ExtKeyUsage>, dnsNames: seq<string>)
    : CertCfg
  {
    CertCfg(commonName, [organization], [], usages, false, 1, dnsNames, [], false)
  }

  function LeafCfg(namespace: string, leaf: Leaf): CertCfg {
    match leaf
    case EtcdClient => PlainCfg("etcd-client", "kubernetes", [ClientAuth], [])
    case EtcdServer =>
      PlainCfg("etcd-server", "kubernetes", [ServerAuth, ClientAuth],
               ["*.etcd." + namespace + ".svc", "etcd-client." + namespace + ".svc",
                "*.etcd." + namespace + ".svc.cluster.local", "etcd-client." + namespace + ".svc.cluster.local",
                "etcd", "etcd-client", "localhost"])
    case EtcdPeer =>
      PlainCfg("etcd-peer", "kubernetes", [ServerAuth, ClientAuth],
               ["*.etcd." + namespace + ".svc", "*.etcd." + namespace + ".svc.cluster.local"])
    case APIServerCert =>
      PlainCfg("kubernetes", "kubernetes", [ServerAuth],
               ["localhost", "kubernetes", "kubernetes.default.svc", "kubernetes.default.svc.cluster.local",
                KUBE_APISERVER, KUBE_APISERVER + "." + namespace + ".svc",
                KUBE_APISERVER + "." + namespace + ".svc.cluster.local"])
        .(ipAddresses := [LOOPBACK, Successor(SERVICE_NETWORK)])
    case AggregatorCert => PlainCfg("system:openshift-aggregator", "kubernetes", [ServerAuth, ClientAuth], [])
    case ServiceKubeconfig => PlainCfg("system:admin", "system:masters", [ClientAuth], [])
    case LocalhostKubeconfig => PlainCfg("system:admin", "system:masters", [ClientAuth], [])
    case ClusterSigner =>
      CertCfg("cluster-signer", ["openshift"], [], [ServerAuth, ClientAuth], true, 10, [], [], true)
  }

  /** The API server's certificate is for the loopback address and for the first address of
      the service network, 172.30.0.1. */
  lemma ServerAddresses(namespace: string)
    ensures LeafCfg(namespace, APIServerCert).ipAddresses == [[127, 0, 0, 1], [172, 30, 0, 1]]
    ensures InNetwork([172, 30, 0, 0], 16, [172, 30, 0, 1])
  {
    var network: seq<Octet> := [172, 30, 0, 0];
    assert Masked(network, 16) by {
      assert forall i :: 0 <= i < 4 ==> HostPart(network[i], 16, i) == 0;
    }
    assert network[..3] + [network[3] + 1] == [172, 30, 0, 1];
    FirstAddressInRange(network, 16);
  }

  const ROOT_CFG := CertCfg("root-ca", [], ["openshift"], [], true, 10, [], [], true)

  function ServerURL(leaf: Leaf): string {
    if leaf.ServiceKubeconfig? then "https://" + KUBE_APISERVER + ":6443" else "https://localhost:6443"
  }

  /** Each kubeconfig addresses the API server by a name its certificate is for: inside the
      cluster that of the service, else localhost. */
  lemma KubeconfigsReachServer(namespace: string)
    ensures ServerURL(ServiceKubeconfig) == "https://" + "kube-apiserver" + ":6443"
    ensures ServerURL(LocalhostKubeconfig) == "https://" + "localhost" + ":6443"
    ensures "kube-apiserver" in LeafCfg(namespace, APIServerCert).dnsNames
    ensures "localhost" in LeafCfg(namespace, APIServerCert).dnsNames
  {
    var names := LeafCfg(namespace, APIServerCert).dnsNames;
    assert names[0] == "localhost" && names[4] == "kube-apiserver";
  }

  /** Only the cluster signer may sign.  The API server's certificate is good for a server
      only, the etcd client's and the kubeconfigs' for a client only, the others for both. */
  lemma UsagesFit(namespace: string, leaf: Leaf)
    ensures var cfg := LeafCfg(namespace, leaf);
            && (cfg.isCA <==> leaf == ClusterSigner) && (cfg.certSign <==> leaf == ClusterSigner)
            && (ClientAuth in cfg.extKeyUsages <==> leaf != APIServerCert)
            && (ServerAuth in cfg.extKeyUsages <==>
                  leaf != EtcdClient && leaf != ServiceKubeconfig && leaf != LocalhostKubeconfig)
  {
  }

  /** The configuration is the one the source fixes, for some namespace and hash. */
  ghost predicate StandardConfig(c: Config, namespace: string) {
    c.rootCfg == ROOT_CFG &&
    forall leaf :: c.certCfg(leaf) == LeafCfg(namespace, leaf) && c.url(leaf) == ServerURL(leaf)
  }

  // ----- a secret in memory -----

  lemma TwoKeys(s: SecretValue, a: DataKey, b: DataKey)
    ensures HasKeys(s, [a, b]) <==> a in s.data && b in s.data
  {
    var keys := [a, b];
    assert keys[0] == a && keys[1] == b;
  }

  lemma StoredOneByOne(data: map<DataKey, Bytes>, k0: DataKey, b0: Bytes, k1: DataKey, b1: Bytes)
    ensures data[k0 := b0][k1 := b1] == data + map[k0 := b0, k1 := b1]
  {
  }

  lemma StoredThird(data: map<DataKey, Bytes>, k0: DataKey, b0: Bytes, k1: DataKey, b1: Bytes, k2: DataKey, b2: Bytes)
    ensures (data + map[k0 := b0, k1 := b1])[k2 := b2] == data + map[k0 := b0, k1 := b1, k2 := b2]
  {
  }

  class Secret {
    var kind: SecretType
    var data: map<DataKey, Bytes>
    var annotations: map<AnnotationKey, string>

    constructor (s: SecretValue)
      ensures Value() == s
    {
      kind, data, annotations := s.kind, s.data, s.annotations;
    }

    function Value(): SecretValue
      reads this
    {
      SecretValue(kind, data, annotations)
    }

    /** util.go hasKeys. */
    method CheckKeys(keys: seq<DataKey>) returns (ok: bool)
      ensures ok == HasKeys(Value(), keys)
    {
      var i := 0;
      while i < |keys|
        invariant 0 <= i <= |keys|
        invariant forall j :: 0 <= j < i ==> keys[j] in data
      {
        if keys[i] !in data {
          return false;
        }
        i := i + 1;
      }
      return true;
    }

    /** util.go AnnotateWithCA. */
    method AnnotateWithCA(c: Config, ca: SecretValue)
      modifies this`annotations
      ensures annotations == old(annotations)[CaHash := HashOf(c, PairOf(ca))]
    {
      annotations := annotations[CaHash := c.hash(DataOf(ca, CaCrt), DataOf(ca, CaKey))];
    }

    /** util.go SignedSecretUpToDate and hasCAHash. */
    method UpToDate(c: Config, ca: SecretValue, keys: seq<DataKey>) returns (ok: bool)
      ensures ok == SignedSecretUpToDate(c, Value(), ca, keys)
    {
      ok := CheckKeys(keys);
      if ok {
        ok := CaHash in annotations && annotations[CaHash] == c.hash(DataOf(ca, CaCrt), DataOf(ca, CaKey));
      }
    }

    /** pki/reconcile.go ReconcileRootCA.  The key list it checks names ca.key twice. */
    method ReconcileRootCA(c: Config, nonce: nat, generated: bool) returns (ok: bool)
      requires c.rootCfg == ROOT_CFG
      modifies this
      ensures ok == ReconcileRoot(c, old(Value()), nonce, generated).Some?
      ensures ok ==> Value() == ReconcileRoot(c, old(Value()), nonce, generated).value
    {
      kind := OpaqueType;
      TwoKeys(Value(), CaKey, CaKey);
      ok := CheckKeys([CaKey, CaKey]);
      if !ok {
        if !generated {
          return false;
        }
        data := data[CaCrt := SelfSigned(ROOT_CFG, nonce)];
        data := data[CaKey := PrivateKey(nonce)];
        return true;
      }
    }

    /** kas/certs.go ReconcileServiceAccountSigningKeySecret. */
    method ReconcileServiceAccountSigningKey(nonce: nat, generated: bool) returns (ok: bool)
      modifies this
      ensures ok == ReconcileSigningKey(old(Value()), nonce, generated).Some?
      ensures ok ==> Value() == ReconcileSigningKey(old(Value()), nonce, generated).value
    {
      kind := OpaqueType;
      TwoKeys(Value(), ServiceAccountKey, ServiceAccountPub);
      ok := CheckKeys([ServiceAccountKey, ServiceAccountPub]);
      if !ok {
        if !generated {
          return false;
        }
        data := data[ServiceAccountKey := PrivateKey(nonce)];
        data := data[ServiceAccountPub := PublicKey(nonce)];
        return true;
      }
    }

    method StoreCert(keys: seq<DataKey>, crt: Bytes, key: Bytes, ca: Bytes)
      requires 2 <= |keys|
      modifies this`data
      ensures data == old(data) + CertData(keys, crt, key, ca)
    {
      StoredOneByOne(data, keys[0], crt, keys[1], key);
      data := data[keys[0] := crt];
      data := data[keys[1] := key];
      if |keys| > 2 {
        StoredThird(old(data), keys[0], crt, keys[1], key, keys[2], ca);
        data := data[keys[2] := ca];
      }
    }

    /** The shape the six certificate secrets share: refuse an invalid CA, set the
        type, and sign only when the secret is not up to date. */
    method ReconcileCertSecret(c: Config, leaf: Leaf, ca: SecretValue, kind': SecretType, keys: seq<DataKey>,
                               cfg: CertCfg, nonce: nat, generated: bool)
      returns (ok: bool)
      requires cfg == c.certCfg(leaf) && keys == ExpectedKeys(leaf) && |keys| > 1 && kind' == LeafType(leaf)
      modifies this
      ensures ok == ReconcileLeaf(c, leaf, old(Value()), ca, nonce, generated).Some?
      ensures ok ==> Value() == ReconcileLeaf(c, leaf, old(Value()), ca, nonce, generated).value
    {
      if CaCrt !in ca.data || CaKey !in ca.data {
        return false;
      }
      kind := kind';
      ok := UpToDate(c, ca, keys);
      if !ok {
        var pair := PairOf(ca);
        if !CanSign(pair) || !generated {
          return false;
        }
        StoreCert(keys, Signed(pair.crt, pair.key, cfg, nonce), PrivateKey(nonce), pair.crt);
        AnnotateWithCA(c, ca);
        return true;
      }
    }

    /** kas/kubeconfig.go reconcileSystemAdminKubeconfig. */
    method ReconcileSystemAdminKubeconfig(c: Config, leaf: Leaf, ca: SecretValue, url: string,
                                          nonce: nat, generated: bool)
      returns (ok: bool)
      requires leaf.ServiceKubeconfig? || leaf.LocalhostKubeconfig?
      requires url == c.url(leaf) && c.certCfg(leaf) == PlainCfg("system:admin", "system:masters", [ClientAuth], [])
      modifies this
      ensures ok == ReconcileLeaf(c, leaf, old(Value()), ca, nonce, generated).Some?
      ensures ok ==> Value() == ReconcileLeaf(c, leaf, old(Value()), ca, nonce, generated).value
    {
      if CaCrt !in ca.data || CaKey !in ca.data {
        return false;
      }
      kind := OpaqueType;
      ok := UpToDate(c, ca, [KubeconfigKey]);
      if ok {
        return;
      }
      var pair := PairOf(ca);
      if !CanSign(pair) || !generated {
        return false;
      }
      var cfg := PlainCfg("system:admin", "system:masters", [ClientAuth], []);
      var crt, key := Signed(pair.crt, pair.key, cfg, nonce), PrivateKey(nonce);
      ghost var payload := Payload(c, leaf, pair, nonce);
      assert payload == map[KubeconfigKey := Kubeconfig(url, crt, key, pair.crt)];
      data := data[KubeconfigKey := Kubeconfig(url, crt, key, pair.crt)];
      assert data == old(data) + payload;
      AnnotateWithCA(c, ca);
      return true;
    }

    /** kas/certs.go ReconcileServerCertSecret: the certificate also names the first
        address of the service network. */
    method ReconcileServerCertSecret(c: Config, namespace: string, ca: SecretValue, nonce: nat, generated: bool)
      returns (ok: bool)
      requires c.certCfg(APIServerCert) == LeafCfg(namespace, APIServerCert)
      modifies this
      ensures ok == ReconcileLeaf(c, APIServerCert, old(Value()), ca, nonce, generated).Some?
      ensures ok ==> Value() == ReconcileLeaf(c, APIServerCert, old(Value()), ca, nonce, generated).value
    {
      var network := new Octet[4];
      forall i | 0 <= i < 4 {
        network[i] := SERVICE_NETWORK[i];
      }
      assert network[..] == SERVICE_NETWORK;
      var first := FirstIP(network, SERVICE_PREFIX);
      var names := ["localhost", "kubernetes", "kubernetes.default.svc", "kubernetes.default.svc.cluster.local",
                    KUBE_APISERVER, KUBE_APISERVER + "." + namespace + ".svc",
                    KUBE_APISERVER + "." + namespace + ".svc.cluster.local"];
      var cfg := PlainCfg("kubernetes", "kubernetes", [ServerAuth], names).(ipAddresses := [LOOPBACK, first[..]]);
      ok := ReconcileCertSecret(c, APIServerCert, ca, TLSType, [TlsCrt, TlsKey], cfg, nonce, generated);
    }

    /** The reconcile function of each signed secret, with its own type, keys and
        certificate settings. */
    method ReconcileSigned(c: Config, namespace: string, leaf: Leaf, ca: SecretValue, nonce: nat, generated: bool)
      returns (ok: bool)
      requires StandardConfig(c, namespace)
      modifies this
      ensures ok == ReconcileLeaf(c, leaf, old(Value()), ca, nonce, generated).Some?
      ensures ok ==> Value() == ReconcileLeaf(c, leaf, old(Value()), ca, nonce, generated).value
    {
      var cfg := LeafCfg(namespace, leaf);
      assert c.certCfg(leaf) == cfg && c.url(leaf) == ServerURL(leaf);
      match leaf {
        case EtcdClient =>
          ok := ReconcileCertSecret(c, leaf, ca, OpaqueType, [EtcdClientCrt, EtcdClientKey, EtcdClientCa], cfg,
                                    nonce, generated);
        case EtcdServer =>
          ok := ReconcileCertSecret(c, leaf, ca, OpaqueType, [ServerCrt, ServerKey, ServerCa], cfg, nonce, generated);
        case EtcdPeer =>
          ok := ReconcileCertSecret(c, leaf, ca, OpaqueType, [PeerCrt, PeerKey, PeerCa], cfg, nonce, generated);
        case APIServerCert =>
          ok := ReconcileServerCertSecret(c, namespace, ca, nonce, generated);
        case AggregatorCert =>
          ok := ReconcileCertSecret(c, leaf, ca, TLSType, [TlsCrt, TlsKey], cfg, nonce, generated);
        case ServiceKubeconfig =>
          ok := ReconcileSystemAdminKubeconfig(c, leaf, ca, "https://" + KUBE_APISERVER + ":6443", nonce, generated);
        case LocalhostKubeconfig =>
          ok := ReconcileSystemAdminKubeconfig(c, leaf, ca, "https://localhost:6443", nonce, generated);
        case ClusterSigner =>
          ok := ReconcileCertSecret(c, leaf, ca, OpaqueType, [CaCrt, CaKey], cfg, nonce, generated);
      }
    }
  }
}
