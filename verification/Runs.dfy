/** Runs of the namespace: operator passes interleaved with the environment. */
module Runs {
  import opened Base
  import opened Conditions
  import E = EtcdConditions
  import opened OwnerRefs
  import opened Pki
  import opened World
  import opened Pass
  import opened Reports
  import opened Steps

  datatype Action =
    | RunPass
    | Advance(delta: nat)
    | ReportEtcd(etcdConditions: seq<E.ClusterCondition>, ready: seq<string>)
    | ReportDeployment(name: DeploymentName, conditions: seq<DeploymentCondition>, availableReplicas: int)
    | FinishDeletion(id: Id)
    | Retire
    | Restart
    | SetReleaseImage(image: string)
    | BeginDeletion(id: Id)
    | OutsideDelete(id: Id)
    | OutsideStrip(id: Id, keys: set<DataKey>)

  /** Somebody other than the operator deletes or edits one of its objects. */
  predicate Outside(a: Action) {
    a.BeginDeletion? || a.OutsideDelete? || a.OutsideStrip?
  }

  function WithStatus(w: World, id: Id, s: Status): World {
    if id in w.objects then w.(objects := w.objects[id := w.objects[id].(status := s)]) else w
  }

  function Without(w: World, id: Id): World {
    w.(objects := map b | b in w.objects && b != id :: w.objects[b])
  }

  function Stripped(s: SecretValue, keys: set<DataKey>): SecretValue {
    s.(data := map k | k in s.data && k !in keys :: s.data[k])
  }

  function Next(p: Params, w: World, a: Action): World {
    match a
    case RunPass => Reconcile(p, w).world
    case Advance(d) => w.(clock := w.clock + d)
    case ReportEtcd(cs, ready) => WithStatus(w, EtcdCluster, EtcdStatus(cs, ready))
    case ReportDeployment(name, cs, n) => WithStatus(w, Deployment(name), DeploymentStatus(cs, n))
    case FinishDeletion(id) => if id in w.objects && w.objects[id].meta.deletedAt.Some? then Without(w, id) else w
    case Retire => w.(live := false)
    case Restart => w.(cache := map[])
    case SetReleaseImage(image) => w.(releaseImage := image)
    case BeginDeletion(id) =>
      if id in w.objects && w.objects[id].meta.deletedAt.None? then
        w.(objects := w.objects[id := w.objects[id].(meta := w.objects[id].meta.(deletedAt := Some(w.clock)))])
      else w
    case OutsideDelete(id) => Without(w, id)
    case OutsideStrip(id, keys) =>
      if id in w.objects && w.objects[id].spec.SecretSpec? then
        w.(objects := w.objects[id := w.objects[id].(spec := SecretSpec(Stripped(w.objects[id].spec.secret, keys)))])
      else w
  }

  predicate IsRun(p: Params, ws: seq<World>, acts: seq<Action>) {
    |ws| == |acts| + 1 && forall i :: 0 <= i < |acts| ==> ws[i + 1] == Next(p, ws[i], acts[i])
  }

  predicate Quiet(acts: seq<Action>) {
    forall i :: 0 <= i < |acts| ==> !Outside(acts[i])
  }

  /** An empty namespace with a service that has no conditions yet. */
  predicate EmptyNamespace(w: World) {
    w.objects == map[] && w.conditions == [] && w.cache == map[]
  }

  // ----- invariants -----

  /** The environment keeps the property; outside edits only if they are included. */
  ghost predicate Tolerates(p: Params, P: World -> bool, outside: bool) {
    forall w: World, a: Action :: P(w) && !a.RunPass? && (outside || !Outside(a)) ==> P(Next(p, w, a))
  }

  /** A property that every permitted step and every environment action keeps holds
      throughout every run that starts with it. */
  lemma {:induction false} RunPreserves(p: Params, P: World -> bool, ws: seq<World>, acts: seq<Action>,
                                        outside: bool, i: nat)
    requires IsRun(p, ws, acts) && (outside || Quiet(acts)) && i < |ws|
    requires P(ws[0]) && Closed(p, P) && Tolerates(p, P, outside)
    ensures P(ws[i])
  {
    if i > 0 {
      RunPreserves(p, P, ws, acts, outside, i - 1);
      if acts[i - 1].RunPass? {
        PassPreserves(p, P, ws[i - 1]);
      }
    }
  }

  // ----- at most one owner reference per object, in every run -----

  ghost predicate OwnersUnique(w: World) {
    forall id :: id in w.objects ==> Unique(w.objects[id].meta.owners)
  }

  lemma OwnersStep(p: Params, w: World, s: Step)
    requires OwnersUnique(w) && Permitted(p, w, s)
    ensures OwnersUnique(Effect(p, w, s))
  {
    if s.PutObject? {
      UpsertUnique(if s.id in w.objects then w.objects[s.id].meta.owners else [], p.owner);
    }
  }

  /** Owner references stay unique per group, kind and name across all passes. */
  lemma OwnersStayUnique(p: Params, ws: seq<World>, acts: seq<Action>, i: nat)
    requires IsRun(p, ws, acts) && i < |ws| && OwnersUnique(ws[0])
    ensures OwnersUnique(ws[i])
  {
    forall w, s | OwnersUnique(w) && Permitted(p, w, s) ensures OwnersUnique(Effect(p, w, s)) {
      OwnersStep(p, w, s);
    }
    RunPreserves(p, OwnersUnique, ws, acts, true, i);
  }

  function OwnersOf(w: World, id: Id): seq<OwnerReference> {
    if id in w.objects then w.objects[id].meta.owners else []
  }

  /** References to other objects than the service stay where they are. */
  ghost predicate KeepsOwners(p: Params, w: World, w': World) {
    forall id, r :: r in OwnersOf(w, id) && !SameObject(r, p.owner) ==> r in OwnersOf(w', id)
  }

  lemma UpsertKeepsOther(refs: seq<OwnerReference>, ref: OwnerReference, r: OwnerReference)
    requires r in refs && !SameObject(r, ref)
    ensures r in Upsert(refs, ref)
  {
    var k :| 0 <= k < |refs| && refs[k] == r;
    UpsertKeeps(refs, ref);
    assert Upsert(refs, ref)[k] == r;
  }

  lemma OwnersAfterStep(p: Params, w: World, s: Step, id: Id)
    requires Permitted(p, w, s)
    ensures OwnersOf(Effect(p, w, s), id) == OwnersOf(w, id) ||
            OwnersOf(Effect(p, w, s), id) == Upsert(OwnersOf(w, id), p.owner)
  {
  }

  lemma KeepsOwnersStep(p: Params, w: World, x: World, s: Step)
    requires KeepsOwners(p, w, x) && Permitted(p, x, s)
    ensures KeepsOwners(p, w, Effect(p, x, s))
  {
    var x' := Effect(p, x, s);
    forall id ensures OwnersOf(x', id) == OwnersOf(x, id) || OwnersOf(x', id) == Upsert(OwnersOf(x, id), p.owner) {
      OwnersAfterStep(p, x, s, id);
    }
    OwnersUpserted(p, w, x, x');
  }

  lemma OwnersUpserted(p: Params, w: World, x: World, x': World)
    requires KeepsOwners(p, w, x)
    requires forall id :: OwnersOf(x', id) == OwnersOf(x, id) || OwnersOf(x', id) == Upsert(OwnersOf(x, id), p.owner)
    ensures KeepsOwners(p, w, x')
  {
    forall id, r | r in OwnersOf(w, id) && !SameObject(r, p.owner) ensures r in OwnersOf(x', id) {
      UpsertKeepsOther(OwnersOf(x, id), p.owner, r);
    }
  }

  /** No pass, wherever it is cut short, takes away a reference to another owner. */
  lemma PassKeepsOwners(p: Params, w: World)
    ensures KeepsOwners(p, w, Reconcile(p, w).world)
  {
    var P := x => KeepsOwners(p, w, x);
    forall x, s | P(x) && Permitted(p, x, s) ensures P(Effect(p, x, s)) {
      KeepsOwnersStep(p, w, x, s);
    }
    PassPreserves(p, P, w);
  }

  // ----- at most one condition per type, and the aggregate -----

  /** In every run the stored status has at most one condition per type. */
  lemma ConditionsStayDistinct(p: Params, ws: seq<World>, acts: seq<Action>, i: nat)
    requires IsRun(p, ws, acts) && i < |ws| && Distinct(ws[0].conditions)
    ensures Distinct(ws[i].conditions)
  {
    RunPreserves(p, (w: World) => Distinct(w.conditions), ws, acts, true, i);
  }

  /** A pass that gets past its aggregate write ends with Available stored, and
      stored True exactly when the three component conditions are stored True,
      whatever happens in the rest of the pass. */
  lemma AggregateTruth(p: Params, w: World)
    requires !Reconcile(p, w).outcome.Inactive? && !Reconcile(p, w).outcome.Early?
    ensures var cs := Reconcile(p, w).world.conditions;
            && Lookup(cs, Available).Some?
            && (FirstHas(cs, Available, ConditionTrue) <==>
                FirstHas(cs, EtcdAvailable, ConditionTrue) && FirstHas(cs, KubeAPIServerAvailable, ConditionTrue) &&
                FirstHas(cs, KubeControllerManagerAvailable, ConditionTrue))
  {
    var r := StatusPhase(p, Tick(p, w), w.conditions);
    var always := (x: World) => true;
    StatusPhasePreserves(p, always, Tick(p, w), w.conditions);
    AfterStatusPreserves(p, always, r);
    AggregateLast(p, EtcdPhase(p, Tick(p, w), w.conditions));
    TruthsMean(r.conditions);
  }

  lemma TruthsMean(cs: seq<Condition>)
    ensures forall t :: IsTrue(cs, t) <==> FirstHas(cs, t, ConditionTrue)
  {
    forall t ensures IsTrue(cs, t) <==> FirstHas(cs, t, ConditionTrue) {
      IsTrueExactly(cs, t);
    }
  }

  ghost predicate AggregateRight(r: Phase) {
    r.Proceed? ==>
      Lookup(r.conditions, Available).Some? && (IsTrue(r.conditions, Available) <==> AllThreeTrue(r.conditions))
  }

  lemma AggregateSet(p: Params, r: Phase)
    ensures AggregateRight(AfterControllerManagerStatus(p, r))
  {
    if r.Proceed? {
      SetKeeps(r.conditions, Report(p, r.world, Available, AggregateNotice(r.conditions)));
    }
  }

  lemma AggregateLast(p: Params, r: Phase)
    ensures AggregateRight(AfterEtcdStatus(p, r))
  {
    if r.Proceed? {
      var r' := DeploymentPhase(p, r.world, r.conditions, KubeAPIServer, KubeAPIServerAvailable);
      if r'.Proceed? {
        AggregateSet(p,
          DeploymentPhase(p, r'.world, r'.conditions, KubeControllerManager, KubeControllerManagerAvailable));
      }
    }
  }

  // ----- the component conditions -----

  /** What a component condition must say after the status phase: what its object
      reports now or, if the object is missing, what the condition said before. */
  predicate Reflects(objects: map<Id, Object>, before: seq<Condition>, after: seq<Condition>, t: ConditionType) {
    match t
    case EtcdAvailable =>
      IsTrue(after, t) <==>
      if EtcdCluster in objects then EtcdReportsAvailable(objects[EtcdCluster]) else IsTrue(before, t)
    case KubeAPIServerAvailable => DeploymentReflected(objects, before, after, t, KubeAPIServer)
    case KubeControllerManagerAvailable => DeploymentReflected(objects, before, after, t, KubeControllerManager)
    case _ => true
  }

  predicate DeploymentReflected(objects: map<Id, Object>, before: seq<Condition>, after: seq<Condition>,
                                t: ConditionType, name: DeploymentName)
  {
    IsTrue(after, t) <==>
    if Deployment(name) in objects then DeploymentReportsAvailable(objects[Deployment(name)]) else IsTrue(before, t)
  }

  /** Only the condition of one type may differ. */
  ghost predicate OnlyType(before: seq<Condition>, after: seq<Condition>, t: ConditionType) {
    forall u :: u != t ==> Lookup(after, u) == Lookup(before, u)
  }

  lemma VerdictReflects(p: Params, w: World, cs: seq<Condition>, n: Notice)
    ensures var r := ApplyVerdict(p, w, cs, n);
            r.Proceed? ==> r.world.objects == w.objects && OnlyType(cs, r.conditions, EtcdAvailable) &&
                           (IsTrue(r.conditions, EtcdAvailable) <==> NoticeStatus(n) == ConditionTrue)
  {
    SetKeeps(cs, Report(p, w, EtcdAvailable, n));
  }

  lemma EtcdReflects(p: Params, w: World, cs: seq<Condition>)
    ensures var r := EtcdPhase(p, w, cs);
            r.Proceed? ==> r.world.objects == w.objects && OnlyType(cs, r.conditions, EtcdAvailable) &&
                           Reflects(w.objects, cs, r.conditions, EtcdAvailable)
  {
    var t := Tick(p, w);
    if EtcdCluster in w.objects && EtcdVerdict(p, t, w.objects[EtcdCluster]).Some? {
      var o := w.objects[EtcdCluster];
      VerdictReflects(p, AfterListing(p, t, o), cs, EtcdVerdict(p, t, o).value);
    }
  }

  lemma DeploymentReflects(p: Params, w: World, cs: seq<Condition>, name: DeploymentName, t: ConditionType)
    ensures var r := DeploymentPhase(p, w, cs, name, t);
            r.Proceed? ==> r.world.objects == w.objects && OnlyType(cs, r.conditions, t) &&
                           DeploymentReflected(w.objects, cs, r.conditions, t, name)
  {
    if Deployment(name) in w.objects {
      var n := DeploymentNotice(name, DeploymentReportsAvailable(w.objects[Deployment(name)]));
      SetKeeps(cs, Report(p, Tick(p, w), t, n));
    }
  }

  lemma AggregateReflects(p: Params, w: World, cs: seq<Condition>)
    ensures var r := AggregatePhase(p, w, cs); r.Proceed? ==> OnlyType(cs, r.conditions, Available)
  {
    SetKeeps(cs, Report(p, w, Available, AggregateNotice(cs)));
  }

  /** Each of the four steps leaves the other conditions alone. */
  lemma ChainReflects(objects: map<Id, Object>, cs0: seq<Condition>, cs1: seq<Condition>, cs2: seq<Condition>,
                      cs3: seq<Condition>, cs4: seq<Condition>, t: ConditionType)
    requires OnlyType(cs0, cs1, EtcdAvailable) && Reflects(objects, cs0, cs1, EtcdAvailable)
    requires OnlyType(cs1, cs2, KubeAPIServerAvailable)
    requires DeploymentReflected(objects, cs1, cs2, KubeAPIServerAvailable, KubeAPIServer)
    requires OnlyType(cs2, cs3, KubeControllerManagerAvailable)
    requires DeploymentReflected(objects, cs2, cs3, KubeControllerManagerAvailable, KubeControllerManager)
    requires OnlyType(cs3, cs4, Available)
    ensures Reflects(objects, cs0, cs4, t)
  {
  }

  lemma StatusSteps(p: Params, w: World, cs: seq<Condition>)
    requires StatusPhase(p, w, cs).Proceed?
    ensures var etcd := EtcdPhase(p, w, cs);
            etcd.Proceed? &&
            var kas := DeploymentPhase(p, etcd.world, etcd.conditions, KubeAPIServer, KubeAPIServerAvailable);
            kas.Proceed? &&
            var t := KubeControllerManagerAvailable;
            var kcm := DeploymentPhase(p, kas.world, kas.conditions, KubeControllerManager, t);
            kcm.Proceed? && StatusPhase(p, w, cs) == AggregatePhase(p, kcm.world, kcm.conditions)
  {
  }

  lemma PhasesReflect(p: Params, w: World, cs: seq<Condition>, t: ConditionType)
    requires StatusPhase(p, w, cs).Proceed?
    ensures Reflects(w.objects, cs, StatusPhase(p, w, cs).conditions, t)
  {
    StatusSteps(p, w, cs);
    var etcd := EtcdPhase(p, w, cs);
    var kas := DeploymentPhase(p, etcd.world, etcd.conditions, KubeAPIServer, KubeAPIServerAvailable);
    var kcm := DeploymentPhase(p, kas.world, kas.conditions, KubeControllerManager, KubeControllerManagerAvailable);
    EtcdReflects(p, w, cs);
    DeploymentReflects(p, etcd.world, etcd.conditions, KubeAPIServer, KubeAPIServerAvailable);
    DeploymentReflects(p, kas.world, kas.conditions, KubeControllerManager, KubeControllerManagerAvailable);
    AggregateReflects(p, kcm.world, kcm.conditions);
    ChainReflects(w.objects, cs, etcd.conditions, kas.conditions, kcm.conditions, StatusPhase(p, w, cs).conditions, t);
  }

  // ----- what exactly is stored, and when -----

  /** The entry of a type after a pass that lasted from lo to hi: status and texts say
      whether something holds; the transition time is old if the status is, and falls into
      the pass if the status is new. */
  ghost predicate Recorded(p: Params, before: seq<Condition>, after: seq<Condition>, t: ConditionType, holds: bool,
                           yes: Notice, no: Notice, lo: Time, hi: Time)
  {
    var text := p.texts(if holds then yes else no);
    Lookup(after, t).Some? &&
    var old', new' := Lookup(before, t), Lookup(after, t).value;
    new'.kind == t && new'.status == (if holds then ConditionTrue else ConditionFalse) &&
    new'.reason == text.reason && new'.message == text.message &&
    if old'.Some? && old'.value.status == new'.status then new'.lastTransitionTime == old'.value.lastTransitionTime
    else lo <= new'.lastTransitionTime <= hi
  }

  /** An entry that other steps leave alone stays recorded in a longer pass. */
  lemma StillRecorded(p: Params, cs0: seq<Condition>, before: seq<Condition>, after: seq<Condition>,
                      cs1: seq<Condition>,
                      t: ConditionType, holds: bool, yes: Notice, no: Notice, lo: Time, hi: Time, lo': Time, hi': Time)
    requires Recorded(p, before, after, t, holds, yes, no, lo, hi) && lo' <= lo && hi <= hi'
    requires Lookup(before, t) == Lookup(cs0, t) && Lookup(cs1, t) == Lookup(after, t)
    ensures Recorded(p, cs0, cs1, t, holds, yes, no, lo', hi')
  {
  }

  lemma ReportRecords(p: Params, w: World, cs: seq<Condition>, t: ConditionType, holds: bool, yes: Notice, no: Notice)
    requires NoticeStatus(yes) == ConditionTrue && NoticeStatus(no) == ConditionFalse
    ensures var cs' := Set(cs, Report(p, w, t, if holds then yes else no));
            Recorded(p, cs, cs', t, holds, yes, no, w.clock, w.clock) && OnlyType(cs, cs', t)
  {
    SetKeeps(cs, Report(p, w, t, if holds then yes else no));
  }

  lemma VerdictRecords(p: Params, w: World, cs: seq<Condition>, holds: bool)
    ensures var r := ApplyVerdict(p, w, cs, if holds then EtcdRunning else EtcdScalingUp);
            r.world.clock >= w.clock && r.world.objects == w.objects &&
            (r.Proceed? ==>
               Recorded(p, cs, r.conditions, EtcdAvailable, holds, EtcdRunning, EtcdScalingUp, w.clock, w.clock) &&
               OnlyType(cs, r.conditions, EtcdAvailable))
  {
    ReportRecords(p, w, cs, EtcdAvailable, holds, EtcdRunning, EtcdScalingUp);
  }

  /** What the etcd step leaves, unless it ends the pass. */
  ghost predicate EtcdRecorded(p: Params, w: World, cs: seq<Condition>, r: Phase) {
    r.Proceed? ==>
      r.world.clock >= w.clock && r.world.objects == w.objects && OnlyType(cs, r.conditions, EtcdAvailable) &&
      if EtcdCluster in w.objects then
        Recorded(p, cs, r.conditions, EtcdAvailable, EtcdSaysTrue(w.objects[EtcdCluster]), EtcdRunning, EtcdScalingUp,
                 w.clock, r.world.clock)
      else r.conditions == cs
  }

  lemma EtcdRecords(p: Params, w: World, cs: seq<Condition>)
    ensures EtcdRecorded(p, w, cs, EtcdPhase(p, w, cs))
  {
    var t, r := Tick(p, w), EtcdPhase(p, w, cs);
    if r.Proceed? && EtcdCluster in w.objects {
      var o := w.objects[EtcdCluster];
      var holds, listed := EtcdReportsAvailable(o), AfterListing(p, t, o);
      EtcdSaysExactly(o);
      assert r == ApplyVerdict(p, listed, cs, EtcdVerdict(p, t, o).value);
      assert EtcdVerdict(p, t, o).value == if holds then EtcdRunning else EtcdScalingUp;
      VerdictRecords(p, listed, cs, holds);
      StillRecorded(p, cs, cs, r.conditions, r.conditions, EtcdAvailable, holds, EtcdRunning, EtcdScalingUp,
                    listed.clock, listed.clock, w.clock, r.world.clock);
    }
  }

  /** What a deployment step leaves, unless it ends the pass. */
  ghost predicate DeploymentRecorded(p: Params, w: World, cs: seq<Condition>, r: Phase, name: DeploymentName,
                                     t: ConditionType, yes: Notice, no: Notice)
  {
    r.Proceed? ==>
      r.world.clock >= w.clock && r.world.objects == w.objects && OnlyType(cs, r.conditions, t) &&
      if Deployment(name) in w.objects then
        Recorded(p, cs, r.conditions, t, DeploymentSaysTrue(w.objects[Deployment(name)]), yes, no, w.clock,
          r.world.clock)
      else r.conditions == cs
  }

  lemma DeploymentRecords(p: Params, w: World, cs: seq<Condition>, name: DeploymentName, t: ConditionType,
                          yes: Notice, no: Notice)
    requires yes == DeploymentNotice(name, true) && no == DeploymentNotice(name, false)
    ensures DeploymentRecorded(p, w, cs, DeploymentPhase(p, w, cs, name, t), name, t, yes, no)
  {
    var got, r := Tick(p, w), DeploymentPhase(p, w, cs, name, t);
    if r.Proceed? && Deployment(name) in w.objects {
      var o := w.objects[Deployment(name)];
      var holds := DeploymentReportsAvailable(o);
      DeploymentSaysExactly(o);
      ReportRecords(p, got, cs, t, holds, yes, no);
      StillRecorded(p, cs, cs, r.conditions, r.conditions, t, holds, yes, no, got.clock, got.clock, w.clock,
        r.world.clock);
    }
  }

  /** What the aggregate step leaves: True when the list it finds has all three True. */
  ghost predicate AggregateRecorded(p: Params, w: World, cs: seq<Condition>, r: Phase) {
    r.Proceed? ==>
      r.world.clock >= w.clock && OnlyType(cs, r.conditions, Available) &&
      Recorded(p, cs, r.conditions, Available,
               FirstHas(cs, EtcdAvailable, ConditionTrue) && FirstHas(cs, KubeAPIServerAvailable, ConditionTrue) &&
               FirstHas(cs, KubeControllerManagerAvailable, ConditionTrue),
               ServiceRunning, ServiceNotAvailable, w.clock, r.world.clock)
  }

  lemma AggregateRecords(p: Params, w: World, cs: seq<Condition>)
    ensures AggregateRecorded(p, w, cs, AggregatePhase(p, w, cs))
  {
    var r := AggregatePhase(p, w, cs);
    TruthsMean(cs);
    ReportRecords(p, w, cs, Available, AllThreeTrue(cs), ServiceRunning, ServiceNotAvailable);
    if r.Proceed? {
      StillRecorded(p, cs, cs, r.conditions, r.conditions, Available, AllThreeTrue(cs), ServiceRunning,
                    ServiceNotAvailable, w.clock, w.clock, w.clock, r.world.clock);
    }
  }

  /** The entry of a component after the whole pass: recorded as its object reports, or as
      it was if there is no object. */
  ghost predicate ComponentRecorded(p: Params, w: World, after: seq<Condition>, hi: Time, t: ConditionType,
                                    exists': bool,
                                    says: bool, yes: Notice, no: Notice)
  {
    if exists' then Recorded(p, w.conditions, after, t, says, yes, no, w.clock, hi)
    else Lookup(after, t) == Lookup(w.conditions, t)
  }

  ghost predicate AllRecorded(p: Params, w: World, after: seq<Condition>, hi: Time) {
    var etcd, kas, kcm := EtcdCluster, Deployment(KubeAPIServer), Deployment(KubeControllerManager);
    && ComponentRecorded(p, w, after, hi, EtcdAvailable, etcd in w.objects,
                         etcd in w.objects && EtcdSaysTrue(w.objects[etcd]), EtcdRunning, EtcdScalingUp)
    && ComponentRecorded(p, w, after, hi, KubeAPIServerAvailable, kas in w.objects,
                         kas in w.objects && DeploymentSaysTrue(w.objects[kas]), APIServerRunning, APIServerScalingUp)
    && ComponentRecorded(p, w, after, hi, KubeControllerManagerAvailable, kcm in w.objects,
                         kcm in w.objects && DeploymentSaysTrue(w.objects[kcm]),
                         ControllerManagerRunning, ControllerManagerScalingUp)
    && Recorded(p, w.conditions, after, Available,
                FirstHas(after, EtcdAvailable, ConditionTrue) &&
                  FirstHas(after, KubeAPIServerAvailable, ConditionTrue) &&
                FirstHas(after, KubeControllerManagerAvailable, ConditionTrue),
                ServiceRunning, ServiceNotAvailable, w.clock, hi)
    && forall t: ConditionType :: t.OtherType? ==> Lookup(after, t) == Lookup(w.conditions, t)
  }

  /** A type whose entry is the same reads the same. */
  lemma SameTruth(cs: seq<Condition>, cs': seq<Condition>, t: ConditionType)
    requires Lookup(cs, t) == Lookup(cs', t)
    ensures FirstHas(cs, t, ConditionTrue) <==> FirstHas(cs', t, ConditionTrue)
  {
    IsTrueExactly(cs, t);
    IsTrueExactly(cs', t);
  }

  lemma ComponentStays(p: Params, w: World, at: World, before: seq<Condition>, r: Phase, after: seq<Condition>,
                       hi: Time,
                       t: ConditionType, exists': bool, says: bool, yes: Notice, no: Notice)
    requires r.Proceed? && w.clock <= at.clock && r.world.clock <= hi
    requires Lookup(before, t) == Lookup(w.conditions, t) && Lookup(after, t) == Lookup(r.conditions, t)
    requires if exists' then Recorded(p, before, r.conditions, t, says, yes, no, at.clock, r.world.clock)
             else r.conditions == before
    ensures ComponentRecorded(p, w, after, hi, t, exists', says, yes, no)
  {
    if exists' {
      StillRecorded(p, w.conditions, before, r.conditions, after, t, says, yes, no,
                    at.clock, r.world.clock, w.clock, hi);
    }
  }

  lemma AggregateStays(p: Params, w: World, kcm: Phase, all: Phase)
    requires kcm.Proceed? && all.Proceed? && AggregateRecorded(p, kcm.world, kcm.conditions, all)
    requires w.clock <= kcm.world.clock && Lookup(kcm.conditions, Available) == Lookup(w.conditions, Available)
    ensures Recorded(p, w.conditions, all.conditions, Available,
                     FirstHas(all.conditions, EtcdAvailable, ConditionTrue) &&
                     FirstHas(all.conditions, KubeAPIServerAvailable, ConditionTrue) &&
                     FirstHas(all.conditions, KubeControllerManagerAvailable, ConditionTrue),
                     ServiceRunning, ServiceNotAvailable, w.clock, all.world.clock)
  {
    SameTruth(kcm.conditions, all.conditions, EtcdAvailable);
    SameTruth(kcm.conditions, all.conditions, KubeAPIServerAvailable);
    SameTruth(kcm.conditions, all.conditions, KubeControllerManagerAvailable);
  }

  /** The four steps together. */
  lemma StepsRecord(p: Params, w: World, etcd: Phase, kas: Phase, kcm: Phase, all: Phase)
    requires etcd.Proceed? && kas.Proceed? && kcm.Proceed? && all.Proceed?
    requires EtcdRecorded(p, w, w.conditions, etcd)
    requires DeploymentRecorded(p, etcd.world, etcd.conditions, kas, KubeAPIServer, KubeAPIServerAvailable,
                                APIServerRunning, APIServerScalingUp)
    requires DeploymentRecorded(p, kas.world, kas.conditions, kcm, KubeControllerManager,
             KubeControllerManagerAvailable,
                                ControllerManagerRunning, ControllerManagerScalingUp)
    requires AggregateRecorded(p, kcm.world, kcm.conditions, all)
    ensures AllRecorded(p, w, all.conditions, all.world.clock)
  {
    var e, a, c, hi := EtcdCluster, Deployment(KubeAPIServer), Deployment(KubeControllerManager), all.world.clock;
    ComponentStays(p, w, w, w.conditions, etcd, all.conditions, hi, EtcdAvailable, e in w.objects,
                   e in w.objects && EtcdSaysTrue(w.objects[e]), EtcdRunning, EtcdScalingUp);
    ComponentStays(p, w, etcd.world, etcd.conditions, kas, all.conditions, hi, KubeAPIServerAvailable, a in w.objects,
                   a in w.objects && DeploymentSaysTrue(w.objects[a]), APIServerRunning, APIServerScalingUp);
    ComponentStays(p, w, kas.world, kas.conditions, kcm, all.conditions, hi, KubeControllerManagerAvailable,
                   c in w.objects, c in w.objects && DeploymentSaysTrue(w.objects[c]),
                   ControllerManagerRunning, ControllerManagerScalingUp);
    AggregateStays(p, w, kcm, all);
  }

  lemma PhaseRecords(p: Params, w: World)
    requires StatusPhase(p, w, w.conditions).Proceed?
    ensures var r := StatusPhase(p, w, w.conditions); AllRecorded(p, w, r.conditions, r.world.clock)
  {
    StatusSteps(p, w, w.conditions);
    var etcd := EtcdPhase(p, w, w.conditions);
    var kas := DeploymentPhase(p, etcd.world, etcd.conditions, KubeAPIServer, KubeAPIServerAvailable);
    var kcm := DeploymentPhase(p, kas.world, kas.conditions, KubeControllerManager, KubeControllerManagerAvailable);
    EtcdRecords(p, w, w.conditions);
    DeploymentRecords(p, etcd.world, etcd.conditions, KubeAPIServer, KubeAPIServerAvailable,
                      APIServerRunning, APIServerScalingUp);
    DeploymentRecords(p, kas.world, kas.conditions, KubeControllerManager, KubeControllerManagerAvailable,
                      ControllerManagerRunning, ControllerManagerScalingUp);
    AggregateRecords(p, kcm.world, kcm.conditions);
    StepsRecord(p, w, etcd, kas, kcm, StatusPhase(p, w, w.conditions));
  }

  lemma RecordedLonger(p: Params, w: World, w': World, after: seq<Condition>, hi: Time, hi': Time)
    requires AllRecorded(p, w', after, hi) && w'.objects == w.objects && w'.conditions == w.conditions
    requires w.clock <= w'.clock && hi <= hi'
    ensures AllRecorded(p, w, after, hi')
  {
  }

  lemma ClockGoesOn(p: Params, r: Phase)
    requires r.Proceed? && r.world.conditions == r.conditions
    ensures AfterStatus(p, r).world.clock >= r.world.clock && AfterStatus(p, r).world.conditions == r.conditions
  {
    AfterStatusPreserves(p, (x: World) => x.clock >= r.world.clock, r);
  }

  /** A pass that gets past its aggregate write leaves each component condition as the
      component's object, found by the pass, reports it: status, texts and transition time.
      For a missing object the entry is as it was.  Available says whether all three are
      True.  Nothing else in the list changes. */
  lemma ConditionsReflectReports(p: Params, w: World)
    requires !Reconcile(p, w).outcome.Inactive? && !Reconcile(p, w).outcome.Early?
    ensures AllRecorded(p, w, Reconcile(p, w).world.conditions, Reconcile(p, w).world.clock)
  {
    var t := Tick(p, w);
    var r := StatusPhase(p, t, w.conditions);
    StatusPhasePreserves(p, (x: World) => true, t, w.conditions);
    ClockGoesOn(p, r);
    PhaseRecords(p, t);
    RecordedLonger(p, w, t, r.conditions, r.world.clock, Reconcile(p, w).world.clock);
  }

  // ----- when a status step ends the pass -----

  /** Each step ends the pass if its read is not answered or its object is being deleted.
      The controller-manager and aggregate steps also end it if their status write is not
      acknowledged; the API-server step goes on. */
  lemma StatusStepsEnd(p: Params, w: World, cs: seq<Condition>)
    ensures var id := Deployment(KubeAPIServer);
            DeploymentPhase(p, w, cs, KubeAPIServer, KubeAPIServerAvailable).Proceed? <==>
            p.fate(w.calls) == Done && (id in w.objects ==> w.objects[id].meta.deletedAt.None?)
    ensures var id := Deployment(KubeControllerManager);
            DeploymentPhase(p, w, cs, KubeControllerManager, KubeControllerManagerAvailable).Proceed? <==>
            p.fate(w.calls) == Done &&
            (id in w.objects ==> w.objects[id].meta.deletedAt.None? && p.fate(w.calls + 1) == Done)
    ensures AggregatePhase(p, w, cs).Proceed? <==> p.fate(w.calls) == Done
    ensures p.fate(w.calls) != Done ==> EtcdPhase(p, w, cs) == Stop(Tick(p, w))
    ensures EtcdCluster in w.objects && w.objects[EtcdCluster].meta.deletedAt.Some? ==>
              EtcdPhase(p, w, cs) == Stop(Tick(p, w))
  {
  }

  // ----- the release cache -----

  ghost predicate CacheTruthful(p: Params, w: World) {
    forall image :: image in w.cache ==> p.lookup(image) == Some(w.cache[image])
  }

  lemma CacheStep(p: Params, w: World, s: Step)
    requires CacheTruthful(p, w) && Permitted(p, w, s)
    ensures CacheTruthful(p, Effect(p, w, s))
  {
  }

  lemma CacheEnvironment(p: Params, w: World, a: Action)
    requires CacheTruthful(p, w) && !a.RunPass?
    ensures CacheTruthful(p, Next(p, w, a))
  {
    assert Next(p, w, a).cache == w.cache || Next(p, w, a).cache == map[];
  }

  /** In every run, every cached release is what an uncached lookup would find; no
      failure is ever cached. */
  lemma CacheStaysTruthful(p: Params, ws: seq<World>, acts: seq<Action>, i: nat)
    requires IsRun(p, ws, acts) && i < |ws| && CacheTruthful(p, ws[0])
    ensures CacheTruthful(p, ws[i])
  {
    var P := (w: World) => CacheTruthful(p, w);
    forall w, s | P(w) && Permitted(p, w, s) ensures P(Effect(p, w, s)) {
      CacheStep(p, w, s);
    }
    forall w: World, a: Action | P(w) && !a.RunPass? ensures P(Next(p, w, a)) {
      CacheEnvironment(p, w, a);
    }
    RunPreserves(p, P, ws, acts, true, i);
  }

  /** With a truthful cache an answer is the uncached lookup's answer.  A cached spec is
      answered without a call; otherwise one call is made, whose success is stored under
      the spec beside the entries there were, and whose failure is not. */
  lemma CacheAnswers(p: Params, w: World)
    requires CacheTruthful(p, w)
    ensures var r, image := ReleaseImage(p, w), w.releaseImage;
            && (r.images.Some? ==> r.images == p.lookup(image))
            && (r.images.Some? <==> image in w.cache || (p.fate(w.calls) == Done && p.lookup(image).Some?))
            && (image in w.cache ==> r.world == w)
            && (image !in w.cache ==> r.world.calls == w.calls + 1)
            && (r.images.Some? ==> image in r.world.cache && r.world.cache[image] == r.images.value)
            && (r.images.None? ==> r.world.cache == w.cache)
            && (forall other :: other != image ==> (other in r.world.cache <==> other in w.cache))
            && (forall other :: other != image && other in w.cache ==> r.world.cache[other] == w.cache[other])
            && CacheTruthful(p, r.world)
  {
  }
}
