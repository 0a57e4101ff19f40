/** The namespace as the operator and its environment see it: the stored objects,
    the status of the KubernetesService, one clock, and the API calls with their
    fates.  Every call has a global number, which also serves as nonce, uid and
    resource version of whatever the call produces. */
module World {
  import opened Base
  import opened Conditions
  import E = EtcdConditions
  import opened OwnerRefs
  import opened Pki

  // ----- the 22 objects of the bring-up -----

  datatype DeploymentName = EtcdOperator | KubeAPIServer | KubeControllerManager

  datatype ManifestName =
    | EtcdOperatorServiceAccount | EtcdOperatorRole | EtcdOperatorRoleBinding
    | APIServerService | AuditConfig | APIServerConfig | OAuthMetadata
    | ControllerManagerConfig

  datatype Id =
    | RootCA
    | LeafSecret(leaf: Leaf)
    | SigningKey
    | Manifest(manifest: ManifestName)
    | Deployment(name: DeploymentName)
    | EtcdCluster

  const ETCD_OBJECTS: seq<Id> := [
    LeafSecret(EtcdClient), LeafSecret(EtcdServer), LeafSecret(EtcdPeer),
    Manifest(EtcdOperatorServiceAccount), Manifest(EtcdOperatorRole), Manifest(EtcdOperatorRoleBinding),
    Deployment(EtcdOperator), EtcdCluster]

  const API_SERVER_OBJECTS: seq<Id> := [
    Manifest(APIServerService), LeafSecret(APIServerCert), LeafSecret(AggregatorCert), SigningKey,
    LeafSecret(ServiceKubeconfig), LeafSecret(LocalhostKubeconfig), Manifest(AuditConfig),
    Manifest(APIServerConfig), Manifest(OAuthMetadata), Deployment(KubeAPIServer)]

  const CONTROLLER_MANAGER_OBJECTS: seq<Id> := [
    LeafSecret(ClusterSigner), Manifest(ControllerManagerConfig), Deployment(KubeControllerManager)]

  // ----- stored objects -----

  datatype Meta = Meta(uid: nat, created: Time, rev: nat, deletedAt: Option<Time>, owners: seq<OwnerReference>)

  datatype Spec =
    | SecretSpec(secret: SecretValue)
    | EtcdSpec(size: int, version: string)
    | DeploymentSpec(images: seq<string>, replicas: nat)
    | ManifestSpec(manifest: ManifestName)

  datatype DeploymentConditionType = DeploymentAvailable | OtherDeploymentCondition(name: string)

  datatype DeploymentCondition = DeploymentCondition(kind: DeploymentConditionType, status: ConditionStatus)

  /** What other controllers report; the operator never writes it. */
  datatype Status =
    | NoStatus
    | EtcdStatus(conditions: seq<E.ClusterCondition>, ready: seq<string>)
    | DeploymentStatus(deploymentConditions: seq<DeploymentCondition>, availableReplicas: int)

  datatype Object = Object(meta: Meta, spec: Spec, status: Status)

  /** The part of an object that the operator writes. */
  datatype Content = Content(owners: seq<OwnerReference>, spec: Spec)

  function ContentOf(o: Object): Content {
    Content(o.meta.owners, o.spec)
  }

  function SecretOf(o: Object): SecretValue {
    if o.spec.SecretSpec? then o.spec.secret else EMPTY_SECRET
  }

  type Images = map<string, string>

  datatype World = World(
    objects: map<Id, Object>,
    live: bool,
    conditions: seq<Condition>,
    clock: Time,
    calls: nat,
    releaseImage: string,
    cache: map<string, Images>)

  // ----- API calls -----

  /** A call is carried out, refused, or carried out with its reply lost. */
  datatype Fate = Done | Refused | Lost

  /** What the operator's status texts report. */
  datatype Notice =
    | EtcdRunning | EtcdBootFailed | EtcdQuorumFailed | EtcdScalingUp
    | APIServerRunning | APIServerScalingUp
    | ControllerManagerRunning | ControllerManagerScalingUp
    | ServiceRunning | ServiceNotAvailable

  datatype NoticeText = NoticeText(reason: string, message: string)

  datatype ContainerState = Waiting | Running | Terminated

  datatype Pod = Pod(containers: seq<ContainerState>)

  predicate HasTerminated(pods: seq<Pod>) {
    exists i, j :: 0 <= i < |pods| && 0 <= j < |pods[i].containers| && pods[i].containers[j].Terminated?
  }

  /** The operator's fixed settings, and the outside world's answers to its calls. */
  datatype Params = Params(
    config: Config,
    owner: OwnerReference,
    texts: Notice -> NoticeText,
    etcdVersion: string,
    deploymentImages: (DeploymentName, Images) -> seq<string>,
    fate: nat -> Fate,
    delay: nat -> nat,
    stamp: Time -> Time,
    listedPods: nat -> seq<Pod>,
    lookup: string -> Option<Images>)

  /** One call passes: the counter moves on and so does the clock. */
  function Tick(p: Params, w: World): World {
    w.(calls := w.calls + 1, clock := w.clock + p.delay(w.calls))
  }

  predicate Answered(p: Params, w: World) {
    p.fate(w.calls) == Done
  }

  datatype Progress = Progress(world: World, ok: bool)

  /** A write: its effect is there unless the call was refused, its success is
      known only if the reply arrived. */
  function Applied(p: Params, w: World, effect: World): Progress {
    Progress(if p.fate(w.calls).Refused? then Tick(p, w) else effect, Answered(p, w))
  }

  function UpdateStatus(p: Params, w: World, cs: seq<Condition>): Progress {
    Applied(p, w, Tick(p, w).(conditions := cs))
  }

  const SECOND: nat := 1_000_000_000

  /** The beginning of the second in which a moment falls; the clock runs in nanoseconds. */
  function Whole(t: Time): Time {
    t - t % SECOND
  }

  /** The API server stamps creations with whole seconds. */
  ghost predicate WholeSeconds(p: Params) {
    forall t: Time :: p.stamp(t) == Whole(t)
  }

  /** Store content under an id: create the object or update it, keeping its status. */
  function Put(p: Params, w: World, id: Id, c: Content): World {
    var t := Tick(p, w);
    var o :=
      if id in w.objects then
        w.objects[id].(meta := w.objects[id].meta.(rev := w.calls, owners := c.owners), spec := c.spec)
      else Object(Meta(w.calls, p.stamp(t.clock), w.calls, None, c.owners), c.spec, NoStatus);
    t.(objects := w.objects[id := o])
  }

  function MarkDeleted(p: Params, w: World, id: Id): World
    requires id in w.objects
  {
    var t := Tick(p, w);
    var o := w.objects[id];
    t.(objects := w.objects[id := o.(meta := o.meta.(deletedAt := Some(t.clock)))])
  }

  // ----- the mutate functions -----

  const ETCD_CLUSTER_SIZE: nat := 1

  /** The secret a secret object gets, given the current root CA. */
  function MutateSecret(p: Params, id: Id, s: SecretValue, ca: SecretValue, nonce: nat, generated: bool)
    : Option<SecretValue>
    requires id.RootCA? || id.LeafSecret? || id.SigningKey?
  {
    match id
    case RootCA => ReconcileRoot(p.config, s, nonce, generated)
    case LeafSecret(leaf) => ReconcileLeaf(p.config, leaf, s, ca, nonce, generated)
    case SigningKey => ReconcileSigningKey(s, nonce, generated)
  }

  function MutateSpec(p: Params, id: Id, prior: Option<Object>, ca: SecretValue, images: Images,
                      nonce: nat, generated: bool)
    : Option<Spec>
  {
    match id
    case Manifest(m) => Some(ManifestSpec(m))
    case Deployment(name) => Some(DeploymentSpec(p.deploymentImages(name, images), 1))
    case EtcdCluster => Some(EtcdSpec(ETCD_CLUSTER_SIZE, p.etcdVersion))
    case _ =>
      match MutateSecret(p, id, if prior.Some? then SecretOf(prior.value) else EMPTY_SECRET, ca, nonce, generated)
      case None => None
      case Some(s) => Some(SecretSpec(s))
  }

  /** Owner reference first, then the object's own reconcile function. */
  function Mutate(p: Params, id: Id, prior: Option<Object>, ca: SecretValue, images: Images,
                  nonce: nat, generated: bool)
    : Option<Content>
  {
    var owners := Upsert(if prior.Some? then prior.value.meta.owners else [], p.owner);
    match MutateSpec(p, id, prior, ca, images, nonce, generated)
    case None => None
    case Some(spec) => Some(Content(owners, spec))
  }

  function Current(w: World, id: Id): Option<Object> {
    if id in w.objects then Some(w.objects[id]) else None
  }

  /** The root CA secret as stored. */
  function CAOf(w: World): SecretValue {
    if RootCA in w.objects then SecretOf(w.objects[RootCA]) else EMPTY_SECRET
  }

  // ----- the order of the bring-up -----

  const BRING_UP: seq<Id> := [RootCA] + ETCD_OBJECTS + API_SERVER_OBJECTS + CONTROLLER_MANAGER_OBJECTS

  /** The position of an object in the bring-up. */
  function Rank(id: Id): (r: nat)
    ensures r < 22
  {
    match id
    case RootCA => 0
    case LeafSecret(EtcdClient) => 1
    case LeafSecret(EtcdServer) => 2
    case LeafSecret(EtcdPeer) => 3
    case Manifest(EtcdOperatorServiceAccount) => 4
    case Manifest(EtcdOperatorRole) => 5
    case Manifest(EtcdOperatorRoleBinding) => 6
    case Deployment(EtcdOperator) => 7
    case EtcdCluster => 8
    case Manifest(APIServerService) => 9
    case LeafSecret(APIServerCert) => 10
    case LeafSecret(AggregatorCert) => 11
    case SigningKey => 12
    case LeafSecret(ServiceKubeconfig) => 13
    case LeafSecret(LocalhostKubeconfig) => 14
    case Manifest(AuditConfig) => 15
    case Manifest(APIServerConfig) => 16
    case Manifest(OAuthMetadata) => 17
    case Deployment(KubeAPIServer) => 18
    case LeafSecret(ClusterSigner) => 19
    case Manifest(ControllerManagerConfig) => 20
    case Deployment(KubeControllerManager) => 21
  }

  /** The ranks number the 22 objects of the bring-up, each exactly once. */
  lemma RanksNumber()
    ensures |BRING_UP| == 22
    ensures forall i :: 0 <= i < 22 ==> Rank(BRING_UP[i]) == i
    ensures forall id :: BRING_UP[Rank(id)] == id
  {
  }

  /** Each section is a range of ranks. */
  lemma SectionRanks(id: Id)
    ensures id in ETCD_OBJECTS <==> 1 <= Rank(id) < FIRST_API_SERVER
    ensures id in API_SERVER_OBJECTS <==> FIRST_API_SERVER <= Rank(id) < FIRST_CONTROLLER_MANAGER
    ensures id in CONTROLLER_MANAGER_OBJECTS <==> FIRST_CONTROLLER_MANAGER <= Rank(id)
  {
    var k := Rank(id);
    RanksNumber();
    if k >= 19 {
      assert CONTROLLER_MANAGER_OBJECTS[k - 19] == id;
    } else if k >= 9 {
      assert API_SERVER_OBJECTS[k - 9] == id;
    } else if k >= 1 {
      assert ETCD_OBJECTS[k - 1] == id;
    }
  }

  const FIRST_API_SERVER: nat := 9
  const FIRST_CONTROLLER_MANAGER: nat := 19
}
