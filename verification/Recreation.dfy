/** The operator deletes an etcd cluster only when its bootstrap timed out, at most
    once per incarnation, and never twice within the timeout. */
module Recreation {
  import opened Base
  import opened Conditions
  import opened Pki
  import opened World
  import opened Pass
  import opened Reports
  import opened Steps
  import opened Runs

  predicate Exists(w: World) {
    EtcdCluster in w.objects
  }

  function Uid(w: World): nat
    requires Exists(w)
  {
    w.objects[EtcdCluster].meta.uid
  }

  function Created(w: World): Time
    requires Exists(w)
  {
    w.objects[EtcdCluster].meta.created
  }

  function DeletedAt(w: World): Option<Time>
    requires Exists(w)
  {
    w.objects[EtcdCluster].meta.deletedAt
  }

  /** One incarnation being deleted since a moment. */
  datatype Deletion = Deletion(uid: nat, at: Time)

  function Condemned(w: World): Option<Deletion> {
    if Exists(w) && DeletedAt(w).Some? then Some(Deletion(Uid(w), DeletedAt(w).value)) else None
  }

  /** The cluster has the size the operator writes and is not from the future. */
  ghost predicate Sound(w: World) {
    Exists(w) ==> ClusterSize(w.objects[EtcdCluster]) <= 1 && Uid(w) < w.calls && Created(w) <= w.clock
  }

  lemma WholeMonotone(a: Time, b: Time)
    requires a <= b
    ensures Whole(a) <= Whole(b) <= b
  {
  }

  /** How w' may follow w within a pass: clock and calls go on, the incarnation is the
      same or new, and a new deletion comes after the timeout. */
  ghost predicate Follows(w: World, w': World) {
    Sound(w') && w.calls <= w'.calls && w.clock <= w'.clock &&
    (Exists(w') ==>
      (Exists(w) && Uid(w') == Uid(w) && Created(w') == Created(w) &&
       (DeletedAt(w).Some? ==> DeletedAt(w') == DeletedAt(w))) ||
      (Uid(w') >= w.calls && Created(w') >= Whole(w.clock))) &&
    (Condemned(w').Some? && Condemned(w') != Condemned(w) ==> Condemned(w').value.at - Created(w') > BOOTSTRAP_TIMEOUT)
  }

  lemma FollowsStep(p: Params, w: World, x: World, s: Step)
    requires WholeSeconds(p) && Follows(w, x) && Permitted(p, x, s)
    ensures Follows(w, Effect(p, x, s))
  {
    var y := Effect(p, x, s);
    match s {
      case DeleteCluster =>
        assert !LacksQuorum(x.objects[EtcdCluster]);
      case PutObject(id, c, images, generated) =>
        if id == EtcdCluster {
          assert y.objects[id].spec == EtcdSpec(ETCD_CLUSTER_SIZE, p.etcdVersion);
          WholeMonotone(w.clock, y.clock);
        } else {
          assert Exists(y) ==> Exists(x) && y.objects[EtcdCluster] == x.objects[EtcdCluster];
        }
      case _ => assert y.objects == x.objects;
    }
  }

  lemma FollowsPass(p: Params, w: World)
    requires WholeSeconds(p) && Sound(w)
    ensures Follows(w, Reconcile(p, w).world)
  {
    var P := x => Follows(w, x);
    forall x, s | P(x) && Permitted(p, x, s) ensures P(Effect(p, x, s)) {
      FollowsStep(p, w, x, s);
    }
    PassPreserves(p, P, w);
  }

  lemma SoundEnvironment(p: Params, w: World, a: Action)
    requires Sound(w) && !a.RunPass?
    ensures Sound(Next(p, w, a))
    ensures w.calls <= Next(p, w, a).calls && w.clock <= Next(p, w, a).clock
    ensures var w' := Next(p, w, a);
            Exists(w') ==> Exists(w) && Uid(w') == Uid(w) && Created(w') == Created(w) &&
                           (DeletedAt(w).Some? ==> DeletedAt(w') == DeletedAt(w))
  {
    var w' := Next(p, w, a);
    assert Exists(w') ==> Exists(w);
    if Exists(w') {
      var o, o' := w.objects[EtcdCluster], w'.objects[EtcdCluster];
      assert o'.meta == o.meta || (a.BeginDeletion? && o.meta.deletedAt.None?);
      assert ClusterSize(o') == ClusterSize(o);
    }
  }

  /** The pass at step i puts a deletion mark that was not there before. */
  predicate OperatorDeletes(ws: seq<World>, acts: seq<Action>, i: nat)
    requires |ws| == |acts| + 1 && i < |acts|
  {
    acts[i].RunPass? && Condemned(ws[i + 1]).Some? && Condemned(ws[i + 1]) != Condemned(ws[i])
  }

  /** After a deletion the cluster is gone, is that condemned incarnation, or is a
      later one. */
  ghost predicate After(d: Deletion, w: World) {
    d.uid < w.calls && d.at <= w.clock &&
    (Exists(w) ==> Condemned(w) == Some(d) || (Uid(w) > d.uid && Created(w) >= Whole(d.at)))
  }

  lemma {:induction false} SoundRun(p: Params, ws: seq<World>, acts: seq<Action>, i: nat)
    requires WholeSeconds(p) && IsRun(p, ws, acts) && Sound(ws[0]) && i < |ws|
    ensures Sound(ws[i])
  {
    if i > 0 {
      SoundRun(p, ws, acts, i - 1);
      if acts[i - 1].RunPass? {
        FollowsPass(p, ws[i - 1]);
      } else {
        SoundEnvironment(p, ws[i - 1], acts[i - 1]);
      }
    }
  }

  lemma AfterStep(p: Params, w: World, a: Action, d: Deletion)
    requires WholeSeconds(p) && Sound(w) && After(d, w)
    ensures After(d, Next(p, w, a))
  {
    if a.RunPass? {
      FollowsPass(p, w);
      WholeMonotone(d.at, w.clock);
    } else {
      SoundEnvironment(p, w, a);
    }
  }

  lemma {:induction false} AfterRun(p: Params, ws: seq<World>, acts: seq<Action>, i: nat, j: nat, d: Deletion)
    requires WholeSeconds(p) && IsRun(p, ws, acts) && Sound(ws[0]) && i <= j < |ws| && After(d, ws[i])
    ensures After(d, ws[j])
  {
    if i < j {
      AfterRun(p, ws, acts, i, j - 1, d);
      SoundRun(p, ws, acts, j - 1);
      AfterStep(p, ws[j - 1], acts[j - 1], d);
    }
  }

  lemma DeletionSound(w: World)
    requires Sound(w) && Condemned(w).Some? && Condemned(w).value.at <= w.clock
    ensures After(Condemned(w).value, w)
  {
  }

  /** A deletion mark is never in the future. */
  ghost predicate MarkPast(w: World) {
    Exists(w) && DeletedAt(w).Some? ==> DeletedAt(w).value <= w.clock
  }

  lemma MarkPastRun(p: Params, ws: seq<World>, acts: seq<Action>, i: nat)
    requires IsRun(p, ws, acts) && MarkPast(ws[0]) && i < |ws|
    ensures MarkPast(ws[i])
  {
    forall w, s | MarkPast(w) && Permitted(p, w, s) ensures MarkPast(Effect(p, w, s)) {
    }
    forall w: World, a: Action | MarkPast(w) && !a.RunPass? ensures MarkPast(Next(p, w, a)) {
    }
    RunPreserves(p, MarkPast, ws, acts, true, i);
  }

  /** In every run two operator deletions hit different incarnations, and the later one
      comes more than five minutes after the whole second in which the earlier one fell.
      The run may start with a cluster, if that has at most one member and no stamp in the
      future; outside deletions and failing or half-answered calls may occur anywhere. */
  lemma BoundedRecreation(p: Params, ws: seq<World>, acts: seq<Action>, i: nat, j: nat)
    requires WholeSeconds(p) && IsRun(p, ws, acts) && Sound(ws[0]) && MarkPast(ws[0]) && i < j < |acts|
    requires OperatorDeletes(ws, acts, i) && OperatorDeletes(ws, acts, j)
    ensures Condemned(ws[i + 1]).value.uid != Condemned(ws[j + 1]).value.uid
    ensures Condemned(ws[j + 1]).value.at - Whole(Condemned(ws[i + 1]).value.at) > BOOTSTRAP_TIMEOUT
  {
    var d := Condemned(ws[i + 1]).value;
    SoundRun(p, ws, acts, i + 1);
    MarkPastRun(p, ws, acts, i + 1);
    DeletionSound(ws[i + 1]);
    AfterRun(p, ws, acts, i + 1, j, d);
    SoundRun(p, ws, acts, j);
    WholeMonotone(d.at, ws[j].clock);
    FollowsPass(p, ws[j]);
  }

  // ----- exactly when a pass deletes -----

  lemma WriteChangedMark(p: Params, w: World, id: Id, desired: Option<Content>)
    ensures Condemned(WriteChanged(p, w, id, desired).world) == Condemned(w)
  {
  }

  lemma CreateOrUpdateMark(p: Params, w: World, id: Id, ca: SecretValue, images: Images)
    ensures Condemned(CreateOrUpdate(p, w, id, ca, images).world) == Condemned(w)
  {
    var got := Tick(p, w);
    WriteChangedMark(p, Tick(p, got), id, Mutate(p, id, Current(w, id), ca, images, got.calls, Answered(p, got)));
  }

  lemma {:induction false} EnsureAllMark(p: Params, w: World, ids: seq<Id>, ca: SecretValue, images: Images)
    ensures Condemned(EnsureAll(p, w, ids, ca, images).world) == Condemned(w)
    decreases |ids|
  {
    if ids != [] {
      CreateOrUpdateMark(p, Tick(p, w), ids[0], ca, images);
      EnsureAllMark(p, Ensure(p, w, ids[0], ca, images).world, ids[1..], ca, images);
    }
  }

  lemma SectionMark(p: Params, w: World, ids: seq<Id>, images: Images)
    ensures Condemned(Section(p, w, ids, images).world) == Condemned(w)
  {
    EnsureAllMark(p, Tick(p, w), ids, CAOf(w), images);
  }

  lemma AfterReleaseMark(p: Params, release: Release, cs: seq<Condition>)
    ensures Condemned(AfterRelease(p, release, cs).world) == Condemned(release.world)
  {
    if release.images.Some? {
      var kas := Section(p, release.world, API_SERVER_OBJECTS, release.images.value);
      SectionMark(p, release.world, API_SERVER_OBJECTS, release.images.value);
      SectionMark(p, kas.world, CONTROLLER_MANAGER_OBJECTS, release.images.value);
    }
  }

  lemma ReleaseMark(p: Params, w: World)
    ensures Condemned(ReleaseImage(p, w).world) == Condemned(w)
  {
  }

  lemma AfterEtcdMark(p: Params, etcd: Progress, cs: seq<Condition>)
    ensures Condemned(AfterEtcd(p, etcd, cs).world) == Condemned(etcd.world)
  {
    ReleaseMark(p, etcd.world);
    AfterReleaseMark(p, ReleaseImage(p, etcd.world), cs);
  }

  lemma AfterRootMark(p: Params, root: Progress, cs: seq<Condition>)
    ensures Condemned(AfterRoot(p, root, cs).world) == Condemned(root.world)
  {
    SectionMark(p, root.world, ETCD_OBJECTS, map[]);
    AfterEtcdMark(p, Section(p, root.world, ETCD_OBJECTS, map[]), cs);
  }

  /** The bring-up phase marks nothing. */
  lemma AfterStatusMark(p: Params, r: Phase)
    ensures Condemned(AfterStatus(p, r).world) == Condemned(r.world)
  {
    if r.Proceed? {
      CreateOrUpdateMark(p, r.world, RootCA, EMPTY_SECRET, map[]);
      AfterRootMark(p, CreateOrUpdate(p, r.world, RootCA, EMPTY_SECRET, map[]), r.conditions);
    }
  }

  lemma DeploymentMark(p: Params, w: World, cs: seq<Condition>, name: DeploymentName, t: ConditionType)
    ensures DeploymentPhase(p, w, cs, name, t).world.objects == w.objects
  {
  }

  /** Nor do the later status steps. */
  lemma AfterEtcdStatusMark(p: Params, r: Phase)
    ensures Condemned(AfterEtcdStatus(p, r).world) == Condemned(r.world)
  {
    if r.Proceed? {
      var kas := DeploymentPhase(p, r.world, r.conditions, KubeAPIServer, KubeAPIServerAvailable);
      DeploymentMark(p, r.world, r.conditions, KubeAPIServer, KubeAPIServerAvailable);
      if kas.Proceed? {
        DeploymentMark(p, kas.world, kas.conditions, KubeControllerManager, KubeControllerManagerAvailable);
      }
    }
  }

  /** The verdict is a failure, its status write is acknowledged and the delete call
      is not refused. */
  predicate CarriesOut(p: Params, w: World, o: Object) {
    var s := AfterListing(p, w, o);
    EtcdVerdict(p, w, o).Some? && IsFailure(EtcdVerdict(p, w, o).value) &&
    Answered(p, s) && !p.fate(s.calls + 1).Refused?
  }

  lemma VerdictMark(p: Params, w: World, cs: seq<Condition>, n: Notice)
    requires Exists(w) && DeletedAt(w).None?
    ensures Condemned(ApplyVerdict(p, w, cs, n).world).Some? <==>
            IsFailure(n) && Answered(p, w) && !p.fate(w.calls + 1).Refused?
  {
  }

  lemma EtcdPhaseMark(p: Params, w: World, cs: seq<Condition>)
    ensures Condemned(EtcdPhase(p, w, cs).world) != Condemned(w) <==>
            Answered(p, w) && Exists(w) && DeletedAt(w).None? && CarriesOut(p, Tick(p, w), w.objects[EtcdCluster])
  {
    var t := Tick(p, w);
    if Answered(p, w) && Exists(w) && DeletedAt(w).None? {
      var o := w.objects[EtcdCluster];
      if EtcdVerdict(p, t, o).Some? {
        VerdictMark(p, AfterListing(p, t, o), cs, EtcdVerdict(p, t, o).value);
      }
    }
  }

  /** A pass puts a mark exactly when it reads an unmarked cluster and carries out a
      verdict of failure. */
  lemma PassCarriesOut(p: Params, w: World)
    ensures Condemned(Reconcile(p, w).world) != Condemned(w) <==>
            w.live && Answered(p, w) && Answered(p, Tick(p, w)) && Exists(w) && DeletedAt(w).None? &&
            CarriesOut(p, Tick(p, Tick(p, w)), w.objects[EtcdCluster])
  {
    if Answered(p, w) && w.live {
      var got := Tick(p, w);
      EtcdPhaseMark(p, got, w.conditions);
      AfterEtcdStatusMark(p, EtcdPhase(p, got, w.conditions));
      AfterStatusMark(p, StatusPhase(p, got, w.conditions));
    }
  }

  // ----- the same, said of the stored fields -----

  /** No member is ready, and the stamp is more than five minutes old. */
  predicate BootTooLong(o: Object, now: Time) {
    (o.status.EtcdStatus? ==> o.status.ready == []) && now - o.meta.created > 300_000_000_000
  }

  /** More than one member is wanted, and at most one is ready. */
  predicate MembersMissing(o: Object) {
    o.spec.EtcdSpec? && o.spec.size > 1 && (o.status.EtcdStatus? ==> |o.status.ready| <= 1)
  }

  /** The calls of the pass from call n on let the deletion happen: the status write is
      acknowledged, the delete call is not refused. */
  predicate WrittenAndDeleted(p: Params, n: nat) {
    p.fate(n) == Done && p.fate(n + 1) != Refused
  }

  /** Some container of the listed pods has terminated. */
  ghost predicate SomeTerminated(pods: seq<Pod>) {
    exists pod, c :: pod in pods && c in pod.containers && c == Terminated
  }

  lemma TerminatedMeans(pods: seq<Pod>)
    ensures HasTerminated(pods) <==> SomeTerminated(pods)
  {
    if SomeTerminated(pods) {
      var pod, c :| pod in pods && c in pod.containers && c == Terminated;
      var i :| 0 <= i < |pods| && pods[i] == pod;
      var j :| 0 <= j < |pod.containers| && pod.containers[j] == c;
      assert pods[i].containers[j].Terminated?;
    }
    if HasTerminated(pods) {
      var i, j :| 0 <= i < |pods| && 0 <= j < |pods[i].containers| && pods[i].containers[j].Terminated?;
      assert pods[i] in pods && pods[i].containers[j] in pods[i].containers;
    }
  }

  /** From call n on, at a moment, the pass condemns the cluster it has read: never one that
      says Available True; else one whose boot takes too long; else one whose members are
      missing, if the listed pods show a terminated container. */
  ghost predicate Condemns(p: Params, o: Object, n: nat, now: Time) {
    !EtcdSaysTrue(o) &&
    if BootTooLong(o, now) then WrittenAndDeleted(p, n)
    else MembersMissing(o) && p.fate(n) == Done && SomeTerminated(p.listedPods(n)) && WrittenAndDeleted(p, n + 1)
  }

  lemma CondemnsExactly(p: Params, w: World, o: Object)
    ensures CarriesOut(p, w, o) <==> Condemns(p, o, w.calls, w.clock)
  {
    EtcdSaysExactly(o);
    TerminatedMeans(p.listedPods(w.calls));
  }

  lemma CondemnsLater(p: Params, w: World, o: Object)
    ensures CarriesOut(p, Tick(p, Tick(p, w)), o) <==>
            Condemns(p, o, w.calls + 2, w.clock + p.delay(w.calls) + p.delay(w.calls + 1))
  {
    var t := Tick(p, Tick(p, w));
    assert t.calls == w.calls + 2 && t.clock == w.clock + p.delay(w.calls) + p.delay(w.calls + 1);
    CondemnsExactly(p, t, o);
  }

  lemma DecidedByFields(p: Params, w: World, marks: bool)
    requires marks <==>
             w.live && Answered(p, w) && Answered(p, Tick(p, w)) && Exists(w) && DeletedAt(w).None? &&
             CarriesOut(p, Tick(p, Tick(p, w)), w.objects[EtcdCluster])
    ensures marks <==>
            w.live && p.fate(w.calls) == Done && p.fate(w.calls + 1) == Done &&
            EtcdCluster in w.objects && w.objects[EtcdCluster].meta.deletedAt.None? &&
            Condemns(p, w.objects[EtcdCluster], w.calls + 2, w.clock + p.delay(w.calls) + p.delay(w.calls + 1))
  {
    if EtcdCluster in w.objects {
      CondemnsLater(p, w, w.objects[EtcdCluster]);
    }
  }

  /** A pass marks the EtcdCluster for deletion if and only if the service is live and read,
      the cluster is read and not marked yet, and the pass condemns it: its third call and
      later ones are those of the status step. */
  lemma PassDeletesExactly(p: Params, w: World)
    ensures Condemned(Reconcile(p, w).world) != Condemned(w) <==>
            w.live && p.fate(w.calls) == Done && p.fate(w.calls + 1) == Done &&
            EtcdCluster in w.objects && w.objects[EtcdCluster].meta.deletedAt.None? &&
            Condemns(p, w.objects[EtcdCluster], w.calls + 2, w.clock + p.delay(w.calls) + p.delay(w.calls + 1))
  {
    PassCarriesOut(p, w);
    DecidedByFields(p, w, Condemned(Reconcile(p, w).world) != Condemned(w));
  }

  /** A cluster of the operator's size with a ready member is spared by every pass, however
      old it is and whatever the calls do. */
  lemma ReadyMemberSpared(p: Params, w: World)
    requires EtcdCluster in w.objects && w.objects[EtcdCluster].status.EtcdStatus?
    requires w.objects[EtcdCluster].status.ready != []
    requires w.objects[EtcdCluster].spec.EtcdSpec? && w.objects[EtcdCluster].spec.size <= 1
    ensures Condemned(Reconcile(p, w).world) == Condemned(w)
  {
    PassDeletesExactly(p, w);
  }

  /** So is one that says Available True. */
  lemma AvailableSpared(p: Params, w: World)
    requires EtcdCluster in w.objects && EtcdSaysTrue(w.objects[EtcdCluster])
    ensures Condemned(Reconcile(p, w).world) == Condemned(w)
  {
    PassDeletesExactly(p, w);
  }

  // ----- what a deleting pass leaves -----

  /** The pass changed two things: the cluster's deletion mark, put at its end, and the etcd
      condition, now False with the texts of a notice. */
  ghost predicate DeletedOnly(p: Params, w: World, w': World, n: Notice) {
    EtcdCluster in w.objects &&
    var o := w.objects[EtcdCluster];
    && w' == w.(objects := w.objects[EtcdCluster := o.(meta := o.meta.(deletedAt := Some(w'.clock)))],
                conditions := w'.conditions, clock := w'.clock, calls := w'.calls)
    && Recorded(p, w.conditions, w'.conditions, EtcdAvailable, false, EtcdRunning, n, w.clock, w'.clock)
    && OnlyType(w.conditions, w'.conditions, EtcdAvailable)
  }

  lemma FailureDeletesOnly(p: Params, w: World, n: Notice)
    requires Exists(w) && IsFailure(n) && Answered(p, w) && !p.fate(w.calls + 1).Refused?
    ensures var r := ApplyVerdict(p, w, w.conditions, n); r.Stop? && DeletedOnly(p, w, r.world, n)
  {
    var r := ApplyVerdict(p, w, w.conditions, n);
    ReportRecords(p, w, w.conditions, EtcdAvailable, false, EtcdRunning, n);
    StillRecorded(p, w.conditions, w.conditions, r.world.conditions, r.world.conditions, EtcdAvailable, false,
                  EtcdRunning, n, w.clock, w.clock, w.clock, r.world.clock);
  }

  lemma DeletedOnlyEarlier(p: Params, w: World, x: World, w': World, n: Notice)
    requires DeletedOnly(p, x, w', n) && x == w.(calls := x.calls, clock := x.clock) && w.clock <= x.clock
    ensures DeletedOnly(p, w, w', n)
  {
    StillRecorded(p, w.conditions, w.conditions, w'.conditions, w'.conditions, EtcdAvailable, false,
                  EtcdRunning, n, x.clock, w'.clock, w.clock, w'.clock);
  }

  /** The verdict's notice for a cluster that is to be deleted. */
  lemma FailureNotice(p: Params, w: World, o: Object)
    requires CarriesOut(p, w, o)
    ensures EtcdVerdict(p, w, o) == Some(if BootTooLong(o, w.clock) then EtcdBootFailed else EtcdQuorumFailed)
  {
  }

  lemma EtcdPhaseDeletesOnly(p: Params, w: World)
    requires Answered(p, w) && Exists(w) && DeletedAt(w).None? && CarriesOut(p, Tick(p, w), w.objects[EtcdCluster])
    ensures var r := EtcdPhase(p, w, w.conditions);
            var late := BootTooLong(w.objects[EtcdCluster], w.clock + p.delay(w.calls));
            r.Stop? && DeletedOnly(p, w, r.world, if late then EtcdBootFailed else EtcdQuorumFailed)
  {
    var t, o := Tick(p, w), w.objects[EtcdCluster];
    FailureNotice(p, t, o);
    var n, x := EtcdVerdict(p, t, o).value, AfterListing(p, t, o);
    FailureDeletesOnly(p, x, n);
    DeletedOnlyEarlier(p, w, x, ApplyVerdict(p, x, w.conditions, n).world, n);
  }

  lemma CarriedOutEnds(p: Params, w: World)
    requires Answered(p, w) && Answered(p, Tick(p, w)) && Exists(w) && DeletedAt(w).None?
    requires CarriesOut(p, Tick(p, Tick(p, w)), w.objects[EtcdCluster])
    ensures var r := EtcdPhase(p, Tick(p, w), w.conditions);
            var late := BootTooLong(w.objects[EtcdCluster], w.clock + p.delay(w.calls) + p.delay(w.calls + 1));
            r.Stop? && DeletedOnly(p, w, r.world, if late then EtcdBootFailed else EtcdQuorumFailed)
  {
    var t := Tick(p, w);
    var r := EtcdPhase(p, t, w.conditions);
    var late := BootTooLong(w.objects[EtcdCluster], t.clock + p.delay(t.calls));
    EtcdPhaseDeletesOnly(p, t);
    DeletedOnlyEarlier(p, w, t, r.world, if late then EtcdBootFailed else EtcdQuorumFailed);
  }

  lemma StoppedEarly(p: Params, w: World)
    requires Answered(p, w) && w.live && EtcdPhase(p, Tick(p, w), w.conditions).Stop?
    ensures Reconcile(p, w) == PassResult(EtcdPhase(p, Tick(p, w), w.conditions).world, Early)
  {
  }

  /** A pass that marks the cluster ends there.  It has reported why, and changed nothing else:
      not the other objects and conditions, nor anything else in the cluster. */
  lemma DeletingPassEnds(p: Params, w: World)
    requires Condemned(Reconcile(p, w).world) != Condemned(w)
    ensures EtcdCluster in w.objects && Reconcile(p, w).outcome == Early
    ensures var now := w.clock + p.delay(w.calls) + p.delay(w.calls + 1);
            var n := if BootTooLong(w.objects[EtcdCluster], now) then EtcdBootFailed else EtcdQuorumFailed;
            DeletedOnly(p, w, Reconcile(p, w).world, n)
  {
    PassCarriesOut(p, w);
    CarriedOutEnds(p, w);
    StoppedEarly(p, w);
  }

  /** The etcd step goes on, after it has read an unmarked cluster, unless the cluster is to be
      deleted, its pods cannot be listed or the status write is not acknowledged. */
  ghost predicate GoesOn(p: Params, o: Object, n: nat, now: Time) {
    o.meta.deletedAt.None? &&
    if EtcdSaysTrue(o) then p.fate(n) == Done
    else
      !BootTooLong(o, now) && p.fate(n) == Done &&
      (MembersMissing(o) ==> !SomeTerminated(p.listedPods(n)) && p.fate(n + 1) == Done)
  }

  lemma EtcdStepGoesOn(p: Params, w: World, cs: seq<Condition>)
    ensures EtcdPhase(p, w, cs).Proceed? <==>
            p.fate(w.calls) == Done &&
            (EtcdCluster in w.objects ==>
               GoesOn(p, w.objects[EtcdCluster], w.calls + 1, w.clock + p.delay(w.calls)))
  {
    if EtcdCluster in w.objects {
      EtcdSaysExactly(w.objects[EtcdCluster]);
      TerminatedMeans(p.listedPods(w.calls + 1));
    }
  }

  // ----- when the gap is five minutes -----

  lemma VerdictMarksFound(p: Params, w: World, cs: seq<Condition>, n: Notice)
    requires Exists(w) && DeletedAt(w).None? && Condemned(ApplyVerdict(p, w, cs, n).world).Some?
    ensures var d := Condemned(ApplyVerdict(p, w, cs, n).world).value; d.uid == Uid(w) && d.at >= w.clock
  {
  }

  lemma EtcdPhaseMarksFound(p: Params, w: World, cs: seq<Condition>)
    requires Exists(w) && DeletedAt(w).None? && ClusterSize(w.objects[EtcdCluster]) <= 1
    requires Condemned(EtcdPhase(p, w, cs).world).Some?
    ensures var d := Condemned(EtcdPhase(p, w, cs).world).value;
            d.uid == Uid(w) && d.at - Created(w) > BOOTSTRAP_TIMEOUT
  {
    var t, o := Tick(p, w), w.objects[EtcdCluster];
    EtcdPhaseMark(p, w, cs);
    assert BootstrapTimedOut(t, o) && AfterListing(p, t, o) == t;
    VerdictMarksFound(p, t, cs, EtcdBootFailed);
  }

  /** A pass that marks a cluster of the operator's size marks the incarnation it found,
      more than the timeout after that incarnation's stamp. */
  lemma PassMarksFound(p: Params, w: World)
    requires Condemned(Reconcile(p, w).world) != Condemned(w)
    requires Exists(w) ==> ClusterSize(w.objects[EtcdCluster]) <= 1
    ensures Exists(w) && DeletedAt(w).None? && Condemned(Reconcile(p, w).world).Some?
    ensures var d := Condemned(Reconcile(p, w).world).value;
            d.uid == Uid(w) && d.at - Created(w) > BOOTSTRAP_TIMEOUT
  {
    var got := Tick(p, w);
    PassCarriesOut(p, w);
    EtcdPhaseMark(p, got, w.conditions);
    AfterEtcdStatusMark(p, EtcdPhase(p, got, w.conditions));
    AfterStatusMark(p, StatusPhase(p, got, w.conditions));
    EtcdPhaseMarksFound(p, got, w.conditions);
  }

  /** In every run the gap is more than five minutes whenever the cluster deleted later
      bears a stamp no earlier than the moment of the earlier deletion. */
  lemma GapKept(p: Params, ws: seq<World>, acts: seq<Action>, i: nat, j: nat)
    requires WholeSeconds(p) && IsRun(p, ws, acts) && Sound(ws[0]) && MarkPast(ws[0]) && i < j < |acts|
    requires OperatorDeletes(ws, acts, i) && OperatorDeletes(ws, acts, j)
    requires Exists(ws[j]) ==> Created(ws[j]) >= Condemned(ws[i + 1]).value.at
    ensures Condemned(ws[j + 1]).value.at - Condemned(ws[i + 1]).value.at > BOOTSTRAP_TIMEOUT
  {
    SoundRun(p, ws, acts, j);
    PassMarksFound(p, ws[j]);
  }
}
