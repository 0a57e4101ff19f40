/** The reconciler as the source performs it: an object that calls the API server,
    edits a condition list and secrets in memory, and returns early at the first
    failure.  Each method is proved to do what its function in Pass says
    (pkg/controllers/kubeservice/reconciler.go, etcd/status.go, kas/status.go,
    kcm/status.go). */
module Reconciler {
  import opened Base
  import C = Conditions
  import E = EtcdConditions
  import opened OwnerRefs
  import opened Pki
  import opened World
  import opened Settings
  import P = Pass
  import Secrets

  datatype GetReply = Found(found: Object) | NotFound | GetFailed

  class KubernetesServiceReconciler {
    const p: Params
    const namespace: string
    const serviceName: string
    const serviceUID: nat

    // the namespace behind the embedded client
    var objects: map<Id, Object>
    var live: bool
    var conditions: seq<C.Condition>
    var clock: C.Time
    var calls: nat
    var releaseImage: string

    // the operator's own memory
    var releaseInfoCache: map<string, Images>

    constructor (p: Params, namespace: string, serviceName: string, serviceUID: nat, w: World)
      ensures this.p == p && this.namespace == namespace
      ensures this.serviceName == serviceName && this.serviceUID == serviceUID
      ensures State() == w
    {
      this.p, this.namespace, this.serviceName, this.serviceUID := p, namespace, serviceName, serviceUID;
      objects, live, conditions, clock := w.objects, w.live, w.conditions, w.clock;
      calls, releaseImage, releaseInfoCache := w.calls, w.releaseImage, w.cache;
    }

    function State(): World
      reads this
    {
      World(objects, live, conditions, clock, calls, releaseImage, releaseInfoCache)
    }

    ghost predicate Standardized() {
      Standard(p, namespace, serviceName, serviceUID)
    }

    // ----- API calls -----

    method Call() returns (fate: Fate)
      modifies this`clock, this`calls
      ensures State() == Tick(p, old(State())) && fate == p.fate(old(calls))
    {
      fate := p.fate(calls);
      clock := clock + p.delay(calls);
      calls := calls + 1;
    }

    method Get(id: Id) returns (reply: GetReply)
      modifies this`clock, this`calls
      ensures State() == Tick(p, old(State()))
      ensures reply == if !Answered(p, old(State())) then GetFailed
                       else if id in old(objects) then Found(old(objects)[id]) else NotFound
    {
      var fate := Call();
      if fate != Done {
        return GetFailed;
      }
      return if id in objects then Found(objects[id]) else NotFound;
    }

    method StatusUpdate(cs: seq<C.Condition>) returns (ok: bool)
      modifies this`clock, this`calls, this`conditions
      ensures Progress(State(), ok) == UpdateStatus(p, old(State()), cs)
    {
      var fate := Call();
      if fate != Refused {
        conditions := cs;
      }
      ok := fate == Done;
    }

    method Write(id: Id, c: Content) returns (ok: bool)
      modifies this`clock, this`calls, this`objects
      ensures Progress(State(), ok) == Applied(p, old(State()), Put(p, old(State()), id, c))
    {
      var number := calls;
      var fate := Call();
      if fate != Refused {
        if id in objects {
          var o := objects[id];
          objects := objects[id := o.(meta := o.meta.(rev := number, owners := c.owners), spec := c.spec)];
        } else {
          objects := objects[id := Object(Meta(number, p.stamp(clock), number, None, c.owners), c.spec, NoStatus)];
        }
      }
      ok := fate == Done;
    }

    method Delete(id: Id) returns (ok: bool)
      requires id in objects
      modifies this`clock, this`calls, this`objects
      ensures Progress(State(), ok) == Applied(p, old(State()), MarkDeleted(p, old(State()), id))
    {
      var fate := Call();
      if fate != Refused {
        var o := objects[id];
        objects := objects[id := o.(meta := o.meta.(deletedAt := Some(clock)))];
      }
      ok := fate == Done;
    }

    // ----- mutate functions -----

    /** ensureKSOwnerRef on the references of an object read from the server. */
    method EnsureKSOwnerRef(owners: seq<OwnerReference>) returns (out: seq<OwnerReference>)
      requires Standardized()
      ensures out == Upsert(owners, p.owner)
    {
      var ref := OwnerReference("hypershiftlite.openshift.io/v1alpha1", "KubernetesService",
                                serviceName, serviceUID, true);
      var refs := new OwnerReference[|owners|](i requires 0 <= i < |owners| => owners[i]);
      assert refs[..] == owners;
      var updated := EnsureOwnerRef(refs, ref);
      out := updated[..];
    }

    method MutateSecretObject(id: Id, s: SecretValue, ca: SecretValue, nonce: nat, generated: bool)
      returns (r: Option<SecretValue>)
      requires Standardized() && (id.RootCA? || id.LeafSecret? || id.SigningKey?)
      ensures r == MutateSecret(p, id, s, ca, nonce, generated)
    {
      var secret := new Secrets.Secret(s);
      var ok: bool;
      match id {
        case RootCA => ok := secret.ReconcileRootCA(p.config, nonce, generated);
        case LeafSecret(leaf) => ok := secret.ReconcileSigned(p.config, namespace, leaf, ca, nonce, generated);
        case SigningKey => ok := secret.ReconcileServiceAccountSigningKey(nonce, generated);
      }
      return if ok then Some(secret.Value()) else None;
    }

    method MutateObject(id: Id, prior: Option<Object>, ca: SecretValue, images: Images, nonce: nat, generated: bool)
      returns (r: Option<Content>)
      requires Standardized()
      ensures r == Mutate(p, id, prior, ca, images, nonce, generated)
    {
      var owners := EnsureKSOwnerRef(if prior.Some? then prior.value.meta.owners else []);
      var spec: Spec;
      match id {
        case Manifest(m) => spec := ManifestSpec(m);
        case Deployment(name) => spec := DeploymentSpec(DeploymentImages(name, images), 1);
        case EtcdCluster => spec := EtcdSpec(1, "3.4.9");
        case _ =>
          var s := if prior.Some? then SecretOf(prior.value) else EMPTY_SECRET;
          var secret := MutateSecretObject(id, s, ca, nonce, generated);
          if secret.None? {
            return None;
          }
          spec := SecretSpec(secret.value);
      }
      return Some(Content(owners, spec));
    }

    /** The end of CreateOrUpdate: nothing is written when mutating failed or changed nothing. */
    method WriteChanged(id: Id, prior: Option<Object>, desired: Option<Content>) returns (ok: bool)
      requires prior == Current(State(), id)
      modifies this`clock, this`calls, this`objects
      ensures Progress(State(), ok) == P.WriteChanged(p, old(State()), id, desired)
    {
      if desired.None? {
        return false;
      }
      if prior.Some? && ContentOf(prior.value) == desired.value {
        return true;
      }
      ok := Write(id, desired.value);
    }

    /** controllerutil.CreateOrUpdate. */
    method CreateOrUpdate(id: Id, ca: SecretValue, images: Images) returns (ok: bool)
      requires Standardized()
      modifies this`clock, this`calls, this`objects
      ensures Progress(State(), ok) == P.CreateOrUpdate(p, old(State()), id, ca, images)
    {
      var reply := Get(id);
      if reply.GetFailed? {
        return false;
      }
      var prior := if reply.Found? then Some(reply.found) else None;
      var nonce := calls;
      var fate := Call();
      var desired := MutateObject(id, prior, ca, images, nonce, fate == Done);
      ok := WriteChanged(id, prior, desired);
    }

    /** A read, for some objects of the wrong object, then CreateOrUpdate. */
    method EnsureObject(probe: Id, id: Id, ca: SecretValue, images: Images) returns (ok: bool)
      requires Standardized()
      modifies this`clock, this`calls, this`objects
      ensures Progress(State(), ok) == P.Ensure(p, old(State()), id, ca, images)
    {
      var reply := Get(probe);
      if reply.GetFailed? {
        return false;
      }
      ok := CreateOrUpdate(id, ca, images);
    }

    // ----- the three bring-up functions -----

    /** One object of a section: what remains is the rest of the section. */
    static lemma Unfold(p: Params, w: World, ids: seq<Id>, k: nat, ca: SecretValue, images: Images)
      requires k < |ids|
      ensures P.EnsureAll(p, w, ids[k..], ca, images) ==
              var first := P.Ensure(p, w, ids[k], ca, images);
              if first.ok then P.EnsureAll(p, first.world, ids[k + 1..], ca, images) else first
    {
      assert ids[k..][1..] == ids[k + 1..];
    }

    method GetRootCA() returns (ca: Option<SecretValue>)
      modifies this`clock, this`calls
      ensures State() == Tick(p, old(State()))
      ensures ca == if Answered(p, old(State())) && RootCA in old(objects) then Some(CAOf(old(State()))) else None
    {
      var reply := Get(RootCA);
      return if reply.Found? then Some(SecretOf(reply.found)) else None;
    }

    /** reconcileEtcd.  Before the server and the peer secret the source reads the
        client secret again. */
    method ReconcileEtcd() returns (ok: bool)
      requires Standardized()
      modifies this`clock, this`calls, this`objects
      ensures Progress(State(), ok) == P.Section(p, old(State()), ETCD_OBJECTS, map[])
    {
      ghost var ids := ETCD_OBJECTS;
      var root := GetRootCA();
      if root.None? {
        return false;
      }
      var ca := root.value;
      assert ids[0..] == ids && ids[8..] == [];
      Unfold(p, State(), ids, 0, ca, map[]);
      ok := EnsureObject(LeafSecret(EtcdClient), LeafSecret(EtcdClient), ca, map[]);
      if !ok { return; }
      Unfold(p, State(), ids, 1, ca, map[]);
      ok := EnsureObject(LeafSecret(EtcdClient), LeafSecret(EtcdServer), ca, map[]);
      if !ok { return; }
      Unfold(p, State(), ids, 2, ca, map[]);
      ok := EnsureObject(LeafSecret(EtcdClient), LeafSecret(EtcdPeer), ca, map[]);
      if !ok { return; }
      Unfold(p, State(), ids, 3, ca, map[]);
      ok := EnsureObject(Manifest(EtcdOperatorServiceAccount), Manifest(EtcdOperatorServiceAccount), ca, map[]);
      if !ok { return; }
      Unfold(p, State(), ids, 4, ca, map[]);
      ok := EnsureObject(Manifest(EtcdOperatorRole), Manifest(EtcdOperatorRole), ca, map[]);
      if !ok { return; }
      Unfold(p, State(), ids, 5, ca, map[]);
      ok := EnsureObject(Manifest(EtcdOperatorRoleBinding), Manifest(EtcdOperatorRoleBinding), ca, map[]);
      if !ok { return; }
      Unfold(p, State(), ids, 6, ca, map[]);
      ok := EnsureObject(Deployment(EtcdOperator), Deployment(EtcdOperator), ca, map[]);
      if !ok { return; }
      Unfold(p, State(), ids, 7, ca, map[]);
      ok := EnsureObject(EtcdCluster, EtcdCluster, ca, map[]);
    }

    /** reconcileKubeAPIServer. */
    method ReconcileKubeAPIServer(images: Images) returns (ok: bool)
      requires Standardized()
      modifies this`clock, this`calls, this`objects
      ensures Progress(State(), ok) == P.Section(p, old(State()), API_SERVER_OBJECTS, images)
    {
      ghost var ids := API_SERVER_OBJECTS;
      var root := GetRootCA();
      if root.None? {
        return false;
      }
      var ca := root.value;
      assert ids[0..] == ids && ids[10..] == [];
      Unfold(p, State(), ids, 0, ca, images);
      ok := EnsureObject(Manifest(APIServerService), Manifest(APIServerService), ca, images);
      if !ok { return; }
      Unfold(p, State(), ids, 1, ca, images);
      ok := EnsureObject(LeafSecret(APIServerCert), LeafSecret(APIServerCert), ca, images);
      if !ok { return; }
      Unfold(p, State(), ids, 2, ca, images);
      ok := EnsureObject(LeafSecret(AggregatorCert), LeafSecret(AggregatorCert), ca, images);
      if !ok { return; }
      Unfold(p, State(), ids, 3, ca, images);
      ok := EnsureObject(SigningKey, SigningKey, ca, images);
      if !ok { return; }
      Unfold(p, State(), ids, 4, ca, images);
      ok := EnsureObject(LeafSecret(ServiceKubeconfig), LeafSecret(ServiceKubeconfig), ca, images);
      if !ok { return; }
      Unfold(p, State(), ids, 5, ca, images);
      ok := EnsureObject(LeafSecret(LocalhostKubeconfig), LeafSecret(LocalhostKubeconfig), ca, images);
      if !ok { return; }
      Unfold(p, State(), ids, 6, ca, images);
      ok := EnsureObject(Manifest(AuditConfig), Manifest(AuditConfig), ca, images);
      if !ok { return; }
      Unfold(p, State(), ids, 7, ca, images);
      ok := EnsureObject(Manifest(APIServerConfig), Manifest(APIServerConfig), ca, images);
      if !ok { return; }
      Unfold(p, State(), ids, 8, ca, images);
      ok := EnsureObject(Manifest(OAuthMetadata), Manifest(OAuthMetadata), ca, images);
      if !ok { return; }
      Unfold(p, State(), ids, 9, ca, images);
      ok := EnsureObject(Deployment(KubeAPIServer), Deployment(KubeAPIServer), ca, images);
    }

    /** reconcileKubeControllerManager. */
    method ReconcileKubeControllerManager(images: Images) returns (ok: bool)
      requires Standardized()
      modifies this`clock, this`calls, this`objects
      ensures Progress(State(), ok) == P.Section(p, old(State()), CONTROLLER_MANAGER_OBJECTS, images)
    {
      ghost var ids := CONTROLLER_MANAGER_OBJECTS;
      var root := GetRootCA();
      if root.None? {
        return false;
      }
      var ca := root.value;
      assert ids[0..] == ids && ids[3..] == [];
      Unfold(p, State(), ids, 0, ca, images);
      ok := EnsureObject(LeafSecret(ClusterSigner), LeafSecret(ClusterSigner), ca, images);
      if !ok { return; }
      Unfold(p, State(), ids, 1, ca, images);
      ok := EnsureObject(Manifest(ControllerManagerConfig), Manifest(ControllerManagerConfig), ca, images);
      if !ok { return; }
      Unfold(p, State(), ids, 2, ca, images);
      ok := EnsureObject(Deployment(KubeControllerManager), Deployment(KubeControllerManager), ca, images);
    }

    // ----- status steps -----

    /** etcdClusterConditionByType. */
    method EtcdConditionByType(cs: seq<E.ClusterCondition>, t: E.ConditionType) returns (c: Option<E.ClusterCondition>)
      ensures c == E.Lookup(cs, t)
    {
      var i := 0;
      while i < |cs|
        invariant 0 <= i <= |cs|
        invariant E.Lookup(cs, t) == E.Lookup(cs[i..], t)
      {
        if cs[i].kind == t {
          return Some(cs[i]);
        }
        i := i + 1;
      }
      return None;
    }

    /** ks DeploymentConditionByType, as far as its status is used. */
    method DeploymentConditionByType(cs: seq<DeploymentCondition>, t: DeploymentConditionType)
      returns (status: Option<C.ConditionStatus>)
      ensures status == P.DeploymentConditionStatus(cs, t)
    {
      var i := 0;
      while i < |cs|
        invariant 0 <= i <= |cs|
        invariant P.DeploymentConditionStatus(cs, t) == P.DeploymentConditionStatus(cs[i..], t)
      {
        if cs[i].kind == t {
          return Some(cs[i].status);
        }
        i := i + 1;
      }
      return None;
    }

    /** etcdClusterHasTerminatedPods, given the pods that carry the cluster's label. */
    method EtcdClusterHasTerminatedPods(pods: seq<Pod>) returns (r: bool)
      ensures r == HasTerminated(pods)
    {
      for i := 0 to |pods|
        invariant !HasTerminated(pods[..i])
      {
        var containers := pods[i].containers;
        for j := 0 to |containers|
          invariant forall k :: 0 <= k < j ==> !containers[k].Terminated?
        {
          if containers[j].Terminated? {
            return true;
          }
        }
      }
      assert pods[..|pods|] == pods;
      return false;
    }

    /** SetConditionByType, now, with the texts of a notice. */
    method Announce(list: C.ConditionList, t: C.ConditionType, status: C.ConditionStatus,
                    reason: string, message: string, ghost n: Notice)
      requires Standardized()
      requires status == P.NoticeStatus(n) && NoticeText(reason, message) == TextOf(n)
      modifies list
      ensures list.items == C.Set(old(list.items), P.Report(p, State(), t, n))
    {
      assert p.texts(n) == TextOf(n);
      list.SetConditionByType(t, status, reason, message, clock);
    }

    /** The switch of ReconcileEtcdClusterStatus: the condition it sets in memory and
        whether the cluster is to be deleted; listing the pods may fail. */
    method JudgeCluster(list: C.ConditionList, cluster: Object) returns (ok: bool, shouldDelete: bool, ghost n: Notice)
      requires Standardized()
      modifies this`clock, this`calls, list
      ensures State() == P.AfterListing(p, old(State()), cluster)
      ensures P.EtcdVerdict(p, old(State()), cluster) == if ok then Some(n) else None
      ensures ok ==> list.items == C.Set(old(list.items), P.Report(p, State(), C.EtcdAvailable, n))
      ensures ok ==> shouldDelete == (n.EtcdBootFailed? || n.EtcdQuorumFailed?)
    {
      var available := EtcdConditionByType(P.EtcdConditions(cluster), E.Available);
      var status, reason, message := C.ConditionFalse, "ScalingUp", "Etcd cluster is scaling up";
      ok, shouldDelete, n := true, false, EtcdScalingUp;
      if available.Some? && available.value.content.status == E.ConditionTrue {
        n, status := EtcdRunning, C.ConditionTrue;
        reason, message := "EtcdRunning", "Etcd cluster is running and available";
      } else if P.ReadyMembers(cluster) == 0 && clock - cluster.meta.created > P.BOOTSTRAP_TIMEOUT {
        n, shouldDelete := EtcdBootFailed, true;
        reason, message := "EtcdFailed", "Etcd cluster failed to bootstrap within timeout, recreating";
      } else if P.ClusterSize(cluster) > 1 && P.ReadyMembers(cluster) <= 1 {
        var number := calls;
        var fate := Call();
        if fate != Done {
          return false, false, n;
        }
        var hasTerminatedPods := EtcdClusterHasTerminatedPods(p.listedPods(number));
        if hasTerminatedPods {
          n, shouldDelete := EtcdQuorumFailed, true;
          reason, message := "EtcdFailed", "Etcd has failed to achieve quorum after bootstrap, recreating";
        }
      }
      Announce(list, C.EtcdAvailable, status, reason, message, n);
    }

    /** etcd/status.go ReconcileEtcdClusterStatus, for an existing cluster. */
    method ReconcileEtcdClusterStatus(list: C.ConditionList, cluster: Object) returns (proceed: bool)
      requires Standardized() && EtcdCluster in objects
      modifies this`clock, this`calls, this`objects, this`conditions, list
      ensures P.EtcdClusterStatus(p, old(State()), old(list.items), cluster) ==
              if proceed then P.Proceed(State(), list.items) else P.Stop(State())
    {
      var ok, shouldDelete;
      ghost var n;
      ok, shouldDelete, n := JudgeCluster(list, cluster);
      if !ok {
        return false;
      }
      ok := StatusUpdate(list.items);
      if !ok {
        return false;
      }
      if shouldDelete {
        var _ := Delete(EtcdCluster);
        return false;
      }
      return true;
    }

    method EtcdStatusStep(list: C.ConditionList) returns (proceed: bool)
      requires Standardized()
      modifies this`clock, this`calls, this`objects, this`conditions, list
      ensures P.EtcdPhase(p, old(State()), old(list.items)) ==
              if proceed then P.Proceed(State(), list.items) else P.Stop(State())
    {
      var reply := Get(EtcdCluster);
      match reply {
        case GetFailed => return false;
        case NotFound => return true;
        case Found(cluster) =>
          if cluster.meta.deletedAt.Some? {
            return false;
          }
          proceed := ReconcileEtcdClusterStatus(list, cluster);
      }
    }

    method IsAvailable(deployment: Object) returns (available: bool)
      ensures available == P.DeploymentReportsAvailable(deployment)
    {
      if !deployment.status.DeploymentStatus? {
        return false;
      }
      var status := DeploymentConditionByType(deployment.status.deploymentConditions, DeploymentAvailable);
      available := status == Some(C.ConditionTrue) && deployment.status.availableReplicas > 0;
    }

    /** The API-server status step: a failed status write is only logged. */
    method APIServerStatusStep(list: C.ConditionList) returns (proceed: bool)
      requires Standardized()
      modifies this`clock, this`calls, this`conditions, list
      ensures P.DeploymentPhase(p, old(State()), old(list.items), KubeAPIServer, C.KubeAPIServerAvailable) ==
              if proceed then P.Proceed(State(), list.items) else P.Stop(State())
    {
      var reply := Get(Deployment(KubeAPIServer));
      match reply {
        case GetFailed => return false;
        case NotFound => return true;
        case Found(deployment) =>
          if deployment.meta.deletedAt.Some? {
            return false;
          }
          var available := IsAvailable(deployment);
          if available {
            Announce(list, C.KubeAPIServerAvailable, C.ConditionTrue, "KASRunning",
                 "Kube APIServer is running and available", APIServerRunning);
          } else {
            Announce(list, C.KubeAPIServerAvailable, C.ConditionFalse, "KASScalingUp",
                 "Kube APIServer is not yet ready", APIServerScalingUp);
          }
          var _ := StatusUpdate(list.items);
          return true;
      }
    }

    /** The controller-manager status step. */
    method ControllerManagerStatusStep(list: C.ConditionList) returns (proceed: bool)
      requires Standardized()
      modifies this`clock, this`calls, this`conditions, list
      ensures P.DeploymentPhase(p, old(State()), old(list.items),
                                KubeControllerManager, C.KubeControllerManagerAvailable) ==
              if proceed then P.Proceed(State(), list.items) else P.Stop(State())
    {
      var reply := Get(Deployment(KubeControllerManager));
      match reply {
        case GetFailed => return false;
        case NotFound => return true;
        case Found(deployment) =>
          if deployment.meta.deletedAt.Some? {
            return false;
          }
          var available := IsAvailable(deployment);
          if available {
            Announce(list, C.KubeControllerManagerAvailable, C.ConditionTrue, "KCMRunning",
                 "Kube controller manager is running and available", ControllerManagerRunning);
          } else {
            Announce(list, C.KubeControllerManagerAvailable, C.ConditionFalse, "KCMScalingUp",
                 "Kube controller manager is not yet ready", ControllerManagerScalingUp);
          }
          proceed := StatusUpdate(list.items);
      }
    }

    method ReadsTrue(list: C.ConditionList, t: C.ConditionType) returns (r: bool)
      ensures r == C.IsTrue(list.items, t)
    {
      var i := list.GetConditionByType(t);
      r := i != -1 && list.items[i].status == C.ConditionTrue;
    }

    /** The aggregate condition, set in memory. */
    method SetAggregate(list: C.ConditionList)
      requires Standardized()
      modifies list
      ensures list.items ==
              C.Set(old(list.items), P.Report(p, State(), C.Available, P.AggregateNotice(old(list.items))))
    {
      var etcd := ReadsTrue(list, C.EtcdAvailable);
      var kas := ReadsTrue(list, C.KubeAPIServerAvailable);
      var kcm := ReadsTrue(list, C.KubeControllerManagerAvailable);
      if etcd && kas && kcm {
        Announce(list, C.Available, C.ConditionTrue, "Running", "Kubernetes service is up and running", ServiceRunning);
      } else {
        Announce(list, C.Available, C.ConditionFalse,
                 "NotAvailable", "Kubernetes service is not yet available", ServiceNotAvailable);
      }
    }

    method AggregateStep(list: C.ConditionList) returns (proceed: bool)
      requires Standardized()
      modifies this`clock, this`calls, this`conditions, list
      ensures P.AggregatePhase(p, old(State()), old(list.items)) ==
              if proceed then P.Proceed(State(), list.items) else P.Stop(State())
    {
      SetAggregate(list);
      proceed := StatusUpdate(list.items);
    }

    // ----- the pass -----

    /** getReleaseImage. */
    method GetReleaseImage() returns (images: Option<Images>)
      modifies this`clock, this`calls, this`releaseInfoCache
      ensures P.Release(State(), images) == P.ReleaseImage(p, old(State()))
    {
      if releaseImage in releaseInfoCache {
        return Some(releaseInfoCache[releaseImage]);
      }
      var fate := Call();
      var found := p.lookup(releaseImage);
      if fate != Done || found.None? {
        return None;
      }
      releaseInfoCache := releaseInfoCache[releaseImage := found.value];
      return found;
    }

    method StatusSteps(list: C.ConditionList) returns (proceed: bool)
      requires Standardized()
      modifies this`clock, this`calls, this`objects, this`conditions, list
      ensures P.StatusPhase(p, old(State()), old(list.items)) ==
              if proceed then P.Proceed(State(), list.items) else P.Stop(State())
    {
      proceed := EtcdStatusStep(list);
      if !proceed {
        return;
      }
      proceed := APIServerStatusStep(list);
      if !proceed {
        return;
      }
      proceed := ControllerManagerStatusStep(list);
      if !proceed {
        return;
      }
      proceed := AggregateStep(list);
    }

    method BringUpSteps(list: C.ConditionList) returns (outcome: P.Outcome)
      requires Standardized()
      modifies this`clock, this`calls, this`objects, this`releaseInfoCache
      ensures P.PassResult(State(), outcome) == P.AfterStatus(p, P.Proceed(old(State()), list.items))
    {
      var ok := CreateOrUpdate(RootCA, EMPTY_SECRET, map[]);
      if !ok {
        return P.Failed;
      }
      ok := ReconcileEtcd();
      if !ok {
        return P.Failed;
      }
      var open := ReadsTrue(list, C.EtcdAvailable);
      if !open {
        return P.AwaitEtcd;
      }
      var images := GetReleaseImage();
      if images.None? {
        return P.Failed;
      }
      ok := ReconcileKubeAPIServer(images.value);
      if !ok {
        return P.Failed;
      }
      open := ReadsTrue(list, C.KubeAPIServerAvailable);
      if !open {
        return P.AwaitAPIServer;
      }
      ok := ReconcileKubeControllerManager(images.value);
      return if ok then P.Completed else P.Failed;
    }

    /** reconciler.go Reconcile. */
    method Reconcile() returns (outcome: P.Outcome)
      requires Standardized()
      modifies this
      ensures P.PassResult(State(), outcome) == P.Reconcile(p, old(State()))
    {
      var fate := Call();
      if fate != Done || !live {
        return P.Inactive;
      }
      var list := new C.ConditionList(conditions);
      var proceed := StatusSteps(list);
      if !proceed {
        return P.Early;
      }
      outcome := BringUpSteps(list);
    }
  }
}
