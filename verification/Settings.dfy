/** The fixed names, texts and images of the operator
    (pkg/controllers/kubeservice: reconciler.go and the manifests and status files). */
module Settings {
  import opened OwnerRefs
  import opened Pki
  import opened World
  import Secrets
  import Strings = Text

  datatype Key = Key(kind: string, name: string)

  /** The kind and name under which each object is stored. */
  function KeyOf(id: Id): Key {
    match id
    case RootCA => Key("Secret", "root-ca")
    case LeafSecret(EtcdClient) => Key("Secret", "etcd-client-tls")
    case LeafSecret(EtcdServer) => Key("Secret", "etcd-server-tls")
    case LeafSecret(EtcdPeer) => Key("Secret", "etcd-peer-tls")
    case Manifest(EtcdOperatorServiceAccount) => Key("ServiceAccount", "etcd-operator")
    case Manifest(EtcdOperatorRole) => Key("Role", "etcd-operator")
    case Manifest(EtcdOperatorRoleBinding) => Key("RoleBinding", "etcd-operator")
    case Deployment(EtcdOperator) => Key("Deployment", "etcd-operator")
    case EtcdCluster => Key("EtcdCluster", "etcd")
    case Manifest(APIServerService) => Key("Service", "kube-apiserver")
    case LeafSecret(APIServerCert) => Key("Secret", "kas-server-crt")
    case LeafSecret(AggregatorCert) => Key("Secret", "kas-aggregator-crt")
    case SigningKey => Key("Secret", "kas-sa-key")
    case LeafSecret(ServiceKubeconfig) => Key("Secret", "kubeconfig")
    case LeafSecret(LocalhostKubeconfig) => Key("Secret", "localhost-kubeconfig")
    case Manifest(AuditConfig) => Key("ConfigMap", "kas-audit-config")
    case Manifest(APIServerConfig) => Key("ConfigMap", "kas-config")
    case Manifest(OAuthMetadata) => Key("ConfigMap", "oauth-metadata")
    case Deployment(KubeAPIServer) => Key("Deployment", "kube-apiserver")
    case LeafSecret(ClusterSigner) => Key("Secret", "cluster-signer")
    case Manifest(ControllerManagerConfig) => Key("ConfigMap", "kcm-config")
    case Deployment(KubeControllerManager) => Key("Deployment", "kube-controller-manager")
  }

  /** The store has one place per (kind, name): the keys of different objects differ. */
  lemma KeysDistinct(a: Id, b: Id)
    requires KeyOf(a) == KeyOf(b)
    ensures a == b
  {
  }

  function ServiceOwner(name: string, uid: nat): OwnerReference {
    OwnerReference("hypershiftlite.openshift.io/v1alpha1", "KubernetesService", name, uid, true)
  }

  /** The reference every object gets has a parseable API version. */
  lemma ServiceOwnerParseable(name: string, uid: nat)
    ensures Parseable(ServiceOwner(name, uid))
  {
    var group, version := "hypershiftlite.openshift.io", "v1alpha1";
    assert ServiceOwner(name, uid).apiVersion == group + ['/'] + version;
    Strings.CutAt(group, version, '/');
  }

  function TextOf(n: Notice): NoticeText {
    match n
    case EtcdRunning => NoticeText("EtcdRunning", "Etcd cluster is running and available")
    case EtcdBootFailed => NoticeText("EtcdFailed", "Etcd cluster failed to bootstrap within timeout, recreating")
    case EtcdQuorumFailed => NoticeText("EtcdFailed", "Etcd has failed to achieve quorum after bootstrap, recreating")
    case EtcdScalingUp => NoticeText("ScalingUp", "Etcd cluster is scaling up")
    case APIServerRunning => NoticeText("KASRunning", "Kube APIServer is running and available")
    case APIServerScalingUp => NoticeText("KASScalingUp", "Kube APIServer is not yet ready")
    case ControllerManagerRunning => NoticeText("KCMRunning", "Kube controller manager is running and available")
    case ControllerManagerScalingUp => NoticeText("KCMScalingUp", "Kube controller manager is not yet ready")
    case ServiceRunning => NoticeText("Running", "Kubernetes service is up and running")
    case ServiceNotAvailable => NoticeText("NotAvailable", "Kubernetes service is not yet available")
  }

  const ETCD_VERSION := "3.4.9"
  const ETCD_OPERATOR_IMAGE := "quay.io/coreos/etcd-operator:v0.9.4"

  function ImageOf(images: Images, name: string): string {
    if name in images then images[name] else ""
  }

  function DeploymentImages(name: DeploymentName, images: Images): seq<string> {
    match name
    case EtcdOperator => [ETCD_OPERATOR_IMAGE]
    case KubeAPIServer =>
      [ImageOf(images, "cluster-config-operator"), ImageOf(images, "cli"), ImageOf(images, "hyperkube")]
    case KubeControllerManager => [ImageOf(images, "hyperkube")]
  }

  /** The settings are those of the source, for some namespace and service. */
  ghost predicate Standard(p: Params, namespace: string, serviceName: string, serviceUID: nat) {
    Secrets.StandardConfig(p.config, namespace) &&
    p.owner == ServiceOwner(serviceName, serviceUID) &&
    p.etcdVersion == ETCD_VERSION &&
    (forall n :: p.texts(n) == TextOf(n)) &&
    (forall name, images :: p.deploymentImages(name, images) == DeploymentImages(name, images))
  }
}
