/** One reconcile pass as a function of the world
    (pkg/controllers/kubeservice/reconciler.go, etcd/status.go, kas/status.go,
    kcm/status.go).  The methods that perform it step by step are in Reconciler. */
module Pass {
  import opened Base
  import opened Conditions
  import E = EtcdConditions
  import opened Pki
  import opened World

  // ----- status phase -----

  /** Either the pass has ended, or it goes on with the conditions held in memory. */
  datatype Phase = Stop(world: World) | Proceed(world: World, conditions: seq<Condition>)

  const BOOTSTRAP_TIMEOUT: nat := 5 * 60 * SECOND

  function EtcdConditions(o: Object): seq<E.ClusterCondition> {
    if o.status.EtcdStatus? then o.status.conditions else []
  }

  function ReadyMembers(o: Object): nat {
    if o.status.EtcdStatus? then |o.status.ready| else 0
  }

  function ClusterSize(o: Object): int {
    if o.spec.EtcdSpec? then o.spec.size else 0
  }

  predicate EtcdReportsAvailable(o: Object) {
    var c := E.Lookup(EtcdConditions(o), E.Available);
    c.Some? && c.value.content.status == E.ConditionTrue
  }

  function DeploymentConditionStatus(cs: seq<DeploymentCondition>, t: DeploymentConditionType)
    : Option<ConditionStatus>
  {
    if cs == [] then None else if cs[0].kind == t then Some(cs[0].status) else DeploymentConditionStatus(cs[1..], t)
  }

  predicate DeploymentReportsAvailable(o: Object) {
    o.status.DeploymentStatus? &&
    DeploymentConditionStatus(o.status.deploymentConditions, DeploymentAvailable) == Some(ConditionTrue) &&
    o.status.availableReplicas > 0
  }

  function NoticeStatus(n: Notice): ConditionStatus {
    if n.EtcdRunning? || n.APIServerRunning? || n.ControllerManagerRunning? || n.ServiceRunning? then ConditionTrue
    else ConditionFalse
  }

  /** The call that records a notice under a condition type now. */
  function Report(p: Params, w: World, t: ConditionType, n: Notice): Call {
    Call(t, NoticeStatus(n), p.texts(n).reason, p.texts(n).message, w.clock)
  }

  predicate BootstrapTimedOut(w: World, o: Object) {
    ReadyMembers(o) == 0 && w.clock - o.meta.created > BOOTSTRAP_TIMEOUT
  }

  predicate LacksQuorum(o: Object) {
    ClusterSize(o) > 1 && ReadyMembers(o) <= 1
  }

  /** The verdicts after which the cluster is deleted. */
  predicate IsFailure(n: Notice) {
    n.EtcdBootFailed? || n.EtcdQuorumFailed?
  }

  /** Record the verdict on the cluster, store it, and delete a failed cluster. */
  function ApplyVerdict(p: Params, w: World, cs: seq<Condition>, n: Notice): Phase {
    var cs' := Set(cs, Report(p, w, EtcdAvailable, n));
    var u := UpdateStatus(p, w, cs');
    if !u.ok then Stop(u.world)
    else if IsFailure(n) && EtcdCluster in u.world.objects then
      Stop(Applied(p, u.world, MarkDeleted(p, u.world, EtcdCluster)).world)
    else Proceed(u.world, cs')
  }

  /** Only for a cluster without quorum are the pods listed, by one more call. */
  predicate ListsPods(w: World, o: Object) {
    !EtcdReportsAvailable(o) && !BootstrapTimedOut(w, o) && LacksQuorum(o)
  }

  /** The switch of etcd/status.go: what to report, unless the pods cannot be listed. */
  function EtcdVerdict(p: Params, w: World, o: Object): Option<Notice> {
    if EtcdReportsAvailable(o) then Some(EtcdRunning)
    else if BootstrapTimedOut(w, o) then Some(EtcdBootFailed)
    else if !LacksQuorum(o) then Some(EtcdScalingUp)
    else if !Answered(p, w) then None
    else if HasTerminated(p.listedPods(w.calls)) then Some(EtcdQuorumFailed)
    else Some(EtcdScalingUp)
  }

  function AfterListing(p: Params, w: World, o: Object): World {
    if ListsPods(w, o) then Tick(p, w) else w
  }

  /** etcd/status.go ReconcileEtcdClusterStatus. */
  function EtcdClusterStatus(p: Params, w: World, cs: seq<Condition>, o: Object): Phase {
    match EtcdVerdict(p, w, o)
    case None => Stop(AfterListing(p, w, o))
    case Some(n) => ApplyVerdict(p, AfterListing(p, w, o), cs, n)
  }

  function EtcdPhase(p: Params, w: World, cs: seq<Condition>): Phase {
    var t := Tick(p, w);
    if !Answered(p, w) then Stop(t)
    else if EtcdCluster !in w.objects then Proceed(t, cs)
    else if w.objects[EtcdCluster].meta.deletedAt.Some? then Stop(t)
    else EtcdClusterStatus(p, t, cs, w.objects[EtcdCluster])
  }

  function DeploymentNotice(name: DeploymentName, available: bool): Notice {
    if name.KubeControllerManager? then if available then ControllerManagerRunning else ControllerManagerScalingUp
    else if available then APIServerRunning else APIServerScalingUp
  }

  /** The API-server and controller-manager status steps.  A failed status write
      ends the pass only in the controller-manager step: the API-server step logs
      it and goes on with the condition set in memory. */
  function DeploymentPhase(p: Params, w: World, cs: seq<Condition>, name: DeploymentName, t: ConditionType): Phase {
    var got := Tick(p, w);
    if !Answered(p, w) then Stop(got)
    else if Deployment(name) !in w.objects then Proceed(got, cs)
    else if w.objects[Deployment(name)].meta.deletedAt.Some? then Stop(got)
    else
      var n := DeploymentNotice(name, DeploymentReportsAvailable(w.objects[Deployment(name)]));
      var cs' := Set(cs, Report(p, got, t, n));
      var u := UpdateStatus(p, got, cs');
      if !u.ok && name.KubeControllerManager? then Stop(u.world) else Proceed(u.world, cs')
  }

  predicate AllThreeTrue(cs: seq<Condition>) {
    IsTrue(cs, EtcdAvailable) && IsTrue(cs, KubeAPIServerAvailable) && IsTrue(cs, KubeControllerManagerAvailable)
  }

  function AggregateNotice(cs: seq<Condition>): Notice {
    if AllThreeTrue(cs) then ServiceRunning else ServiceNotAvailable
  }

  function AggregatePhase(p: Params, w: World, cs: seq<Condition>): Phase {
    var cs' := Set(cs, Report(p, w, Available, AggregateNotice(cs)));
    var u := UpdateStatus(p, w, cs');
    if u.ok then Proceed(u.world, cs') else Stop(u.world)
  }

  function AfterControllerManagerStatus(p: Params, r: Phase): Phase {
    if r.Stop? then r else AggregatePhase(p, r.world, r.conditions)
  }

  function AfterAPIServerStatus(p: Params, r: Phase): Phase {
    if r.Stop? then r
    else
      AfterControllerManagerStatus(p,
        DeploymentPhase(p, r.world, r.conditions, KubeControllerManager, KubeControllerManagerAvailable))
  }

  function AfterEtcdStatus(p: Params, r: Phase): Phase {
    if r.Stop? then r
    else AfterAPIServerStatus(p, DeploymentPhase(p, r.world, r.conditions, KubeAPIServer, KubeAPIServerAvailable))
  }

  /** Everything up to and including the aggregate status write. */
  function StatusPhase(p: Params, w: World, cs: seq<Condition>): Phase {
    AfterEtcdStatus(p, EtcdPhase(p, w, cs))
  }

  // ----- bring-up phase -----

  /** Write what the mutate function produced, unless nothing changed. */
  function WriteChanged(p: Params, w: World, id: Id, desired: Option<Content>): Progress {
    match desired
    case None => Progress(w, false)
    case Some(c) =>
      if id in w.objects && ContentOf(w.objects[id]) == c then Progress(w, true)
      else Applied(p, w, Put(p, w, id, c))
  }

  /** controllerutil.CreateOrUpdate: get, mutate, then write only what changed. */
  function CreateOrUpdate(p: Params, w: World, id: Id, ca: SecretValue, images: Images): Progress {
    var got := Tick(p, w);
    if !Answered(p, w) then Progress(got, false)
    else
      WriteChanged(p, Tick(p, got), id, Mutate(p, id, Current(w, id), ca, images, got.calls, Answered(p, got)))
  }

  /** A read of the object, then CreateOrUpdate. */
  function Ensure(p: Params, w: World, id: Id, ca: SecretValue, images: Images): Progress {
    if !Answered(p, w) then Progress(Tick(p, w), false) else CreateOrUpdate(p, Tick(p, w), id, ca, images)
  }

  function EnsureAll(p: Params, w: World, ids: seq<Id>, ca: SecretValue, images: Images): Progress
    decreases |ids|
  {
    if ids == [] then Progress(w, true)
    else
      var first := Ensure(p, w, ids[0], ca, images);
      if first.ok then EnsureAll(p, first.world, ids[1..], ca, images) else first
  }

  /** One of the three bring-up functions: read the root CA, then each object in turn. */
  function Section(p: Params, w: World, ids: seq<Id>, images: Images): Progress {
    var t := Tick(p, w);
    if !Answered(p, w) || RootCA !in w.objects then Progress(t, false)
    else EnsureAll(p, t, ids, CAOf(w), images)
  }

  datatype Release = Release(world: World, images: Option<Images>)

  /** reconciler.go getReleaseImage. */
  function ReleaseImage(p: Params, w: World): Release {
    if w.releaseImage in w.cache then Release(w, Some(w.cache[w.releaseImage]))
    else
      var t := Tick(p, w);
      var found := p.lookup(w.releaseImage);
      if Answered(p, w) && found.Some? then
        Release(t.(cache := w.cache[w.releaseImage := found.value]), found)
      else Release(t, None)
  }

  datatype Outcome = Inactive | Early | Failed | AwaitEtcd | AwaitAPIServer | Completed

  datatype PassResult = PassResult(world: World, outcome: Outcome)

  function AfterAPIServer(p: Params, kas: Progress, cs: seq<Condition>, images: Images): PassResult {
    if !kas.ok then PassResult(kas.world, Failed)
    else if !IsTrue(cs, KubeAPIServerAvailable) then PassResult(kas.world, AwaitAPIServer)
    else
      var kcm := Section(p, kas.world, CONTROLLER_MANAGER_OBJECTS, images);
      PassResult(kcm.world, if kcm.ok then Completed else Failed)
  }

  function AfterRelease(p: Params, release: Release, cs: seq<Condition>): PassResult {
    if release.images.None? then PassResult(release.world, Failed)
    else
      AfterAPIServer(p, Section(p, release.world, API_SERVER_OBJECTS, release.images.value), cs, release.images.value)
  }

  function AfterEtcd(p: Params, etcd: Progress, cs: seq<Condition>): PassResult {
    if !etcd.ok then PassResult(etcd.world, Failed)
    else if !IsTrue(cs, EtcdAvailable) then PassResult(etcd.world, AwaitEtcd)
    else AfterRelease(p, ReleaseImage(p, etcd.world), cs)
  }

  function AfterRoot(p: Params, root: Progress, cs: seq<Condition>): PassResult {
    if !root.ok then PassResult(root.world, Failed)
    else AfterEtcd(p, Section(p, root.world, ETCD_OBJECTS, map[]), cs)
  }

  /** From the root CA on, with the conditions held in memory. */
  function AfterStatus(p: Params, r: Phase): PassResult {
    if r.Stop? then PassResult(r.world, Early)
    else AfterRoot(p, CreateOrUpdate(p, r.world, RootCA, EMPTY_SECRET, map[]), r.conditions)
  }

  /** reconciler.go Reconcile. */
  function Reconcile(p: Params, w: World): PassResult {
    if !Answered(p, w) || !w.live then PassResult(Tick(p, w), Inactive)
    else AfterStatus(p, StatusPhase(p, Tick(p, w), w.conditions))
  }
}
