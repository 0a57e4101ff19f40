/** What the operator may do to the world in one API call.  Every pass, wherever it
    is cut short, is a sequence of such steps, so a property every step keeps is
    kept by every pass. */
module Steps {
  import opened Base
  import opened Conditions
  import opened Pki
  import opened World
  import opened Pass

  datatype Step =
    | OnlyCall
    | WriteStatus(conditions: seq<Condition>)
    | PutObject(id: Id, content: Content, images: Images, generated: bool)
    | DeleteCluster
    | FillCache(found: Images)

  function Effect(p: Params, w: World, s: Step): World {
    match s
    case OnlyCall => Tick(p, w)
    case WriteStatus(cs) => Tick(p, w).(conditions := cs)
    case PutObject(id, c, _, _) => Put(p, w, id, c)
    case DeleteCluster => if EtcdCluster in w.objects then MarkDeleted(p, w, EtcdCluster) else Tick(p, w)
    case FillCache(found) => Tick(p, w).(cache := w.cache[w.releaseImage := found])
  }

  predicate EtcdUp(w: World) {
    EtcdCluster in w.objects && EtcdReportsAvailable(w.objects[EtcdCluster])
  }

  predicate APIServerUp(w: World) {
    Deployment(KubeAPIServer) in w.objects && DeploymentReportsAvailable(w.objects[Deployment(KubeAPIServer)])
  }

  /** A condition list the operator may store: True for etcd or the API server only
      if it already was or is being reported now, and no new duplicate types. */
  ghost predicate Justified(w: World, cs: seq<Condition>) {
    (IsTrue(cs, EtcdAvailable) ==> IsTrue(w.conditions, EtcdAvailable) || EtcdUp(w)) &&
    (IsTrue(cs, KubeAPIServerAvailable) ==> IsTrue(w.conditions, KubeAPIServerAvailable) || APIServerUp(w)) &&
    (Distinct(w.conditions) ==> Distinct(cs))
  }

  /** The conditions that gate an object are stored as True. */
  predicate GateOpen(w: World, id: Id) {
    (Rank(id) >= FIRST_API_SERVER ==> IsTrue(w.conditions, EtcdAvailable)) &&
    (Rank(id) >= FIRST_CONTROLLER_MANAGER ==> IsTrue(w.conditions, KubeAPIServerAvailable))
  }

  /** Everything that comes before an object exists. */
  ghost predicate PrefixExists(w: World, rank: nat) {
    forall b :: Rank(b) < rank ==> b in w.objects
  }

  ghost predicate Permitted(p: Params, w: World, s: Step) {
    match s
    case OnlyCall => true
    case WriteStatus(cs) => Justified(w, cs)
    case PutObject(id, c, images, generated) =>
      w.calls > 0 && Mutate(p, id, Current(w, id), CAOf(w), images, w.calls - 1, generated) == Some(c) &&
      (id in w.objects ==> ContentOf(w.objects[id]) != c) && GateOpen(w, id) && PrefixExists(w, Rank(id))
    case DeleteCluster =>
      EtcdCluster in w.objects &&
      var o := w.objects[EtcdCluster];
      o.meta.deletedAt.None? && !EtcdReportsAvailable(o) && (BootstrapTimedOut(w, o) || LacksQuorum(o))
    case FillCache(found) => p.lookup(w.releaseImage) == Some(found)
  }

  predicate IsSecret(id: Id) {
    id.RootCA? || id.LeafSecret? || id.SigningKey?
  }

  function SecretAt(w: World, id: Id): SecretValue {
    if id in w.objects then SecretOf(w.objects[id]) else EMPTY_SECRET
  }

  /** For a secret the mutate function runs the secret's reconcile function. */
  lemma MutatedSecret(p: Params, id: Id, prior: Option<Object>, ca: SecretValue, images: Images, nonce: nat,
                      generated: bool, c: Content)
    requires IsSecret(id) && Mutate(p, id, prior, ca, images, nonce, generated) == Some(c)
    ensures c.spec.SecretSpec?
    ensures var s := if prior.Some? then SecretOf(prior.value) else EMPTY_SECRET;
            MutateSecret(p, id, s, ca, nonce, generated) == Some(c.spec.secret)
  {
  }

  lemma PutEffect(p: Params, w: World, id: Id, c: Content)
    ensures var w' := Put(p, w, id, c);
            w'.objects.Keys == w.objects.Keys + {id} && w'.objects[id].spec == c.spec &&
            forall b :: b in w.objects && b != id ==> w'.objects[b] == w.objects[b]
  {
  }

  /** A permitted write of a secret stores what its reconcile function returns and
      touches no other object. */
  lemma PutSecretEffect(p: Params, w: World, s: Step)
    requires s.PutObject? && IsSecret(s.id) && Permitted(p, w, s)
    ensures MutateSecret(p, s.id, SecretAt(w, s.id), CAOf(w), w.calls - 1, s.generated)
            == Some(SecretAt(Effect(p, w, s), s.id))
    ensures Effect(p, w, s).objects.Keys == w.objects.Keys + {s.id}
    ensures forall b :: b in w.objects && b != s.id ==> Effect(p, w, s).objects[b] == w.objects[b]
  {
    MutatedSecret(p, s.id, Current(w, s.id), CAOf(w), s.images, w.calls - 1, s.generated, s.content);
    PutEffect(p, w, s.id, s.content);
  }

  ghost predicate Closed(p: Params, P: World -> bool) {
    forall w, s :: P(w) && Permitted(p, w, s) ==> P(Effect(p, w, s))
  }

  lemma Take(p: Params, P: World -> bool, w: World, s: Step)
    requires Closed(p, P) && P(w) && Permitted(p, w, s)
    ensures P(Effect(p, w, s))
  {
  }

  lemma AppliedPreserves(p: Params, P: World -> bool, w: World, s: Step)
    requires Closed(p, P) && P(w) && Permitted(p, w, s)
    ensures P(Applied(p, w, Effect(p, w, s)).world)
  {
    Take(p, P, w, s);
    Take(p, P, w, OnlyCall);
  }

  // ----- status phase -----

  lemma SetJustified(w: World, cs: seq<Condition>, c: Call)
    requires Justified(w, cs)
    requires c.status == ConditionTrue && c.kind == EtcdAvailable ==> EtcdUp(w)
    requires c.status == ConditionTrue && c.kind == KubeAPIServerAvailable ==> APIServerUp(w)
    ensures Justified(w, Set(cs, c))
  {
    SetKeeps(cs, c);
  }

  lemma StatusPreserves(p: Params, P: World -> bool, w: World, cs: seq<Condition>)
    requires Closed(p, P) && P(w) && Justified(w, cs)
    ensures var u := UpdateStatus(p, w, cs);
            P(u.world) && Justified(u.world, cs) && u.world.objects == w.objects && u.world.clock >= w.clock &&
            (u.ok ==> u.world.conditions == cs)
  {
    AppliedPreserves(p, P, w, WriteStatus(cs));
  }

  lemma VerdictPreserves(p: Params, P: World -> bool, w: World, cs: seq<Condition>, n: Notice)
    requires Closed(p, P) && P(w) && Justified(w, cs)
    requires NoticeStatus(n) == ConditionTrue ==> EtcdUp(w)
    requires IsFailure(n) ==> Permitted(p, w, DeleteCluster)
    ensures var r := ApplyVerdict(p, w, cs, n);
            P(r.world) && (r.Proceed? ==> Justified(r.world, r.conditions) && r.world.objects == w.objects)
  {
    var c := Report(p, w, EtcdAvailable, n);
    SetJustified(w, cs, c);
    StatusPreserves(p, P, w, Set(cs, c));
    var u := UpdateStatus(p, w, Set(cs, c));
    if u.ok && IsFailure(n) {
      AppliedPreserves(p, P, u.world, DeleteCluster);
    }
  }

  lemma EtcdStatusPreserves(p: Params, P: World -> bool, w: World, cs: seq<Condition>)
    requires Closed(p, P) && P(w) && Justified(w, cs)
    requires EtcdCluster in w.objects && w.objects[EtcdCluster].meta.deletedAt.None?
    ensures var r := EtcdClusterStatus(p, w, cs, w.objects[EtcdCluster]);
            P(r.world) && (r.Proceed? ==> Justified(r.world, r.conditions) && r.world.objects == w.objects)
  {
    var o := w.objects[EtcdCluster];
    Take(p, P, w, OnlyCall);
    if EtcdVerdict(p, w, o).Some? {
      VerdictPreserves(p, P, AfterListing(p, w, o), cs, EtcdVerdict(p, w, o).value);
    }
  }

  lemma EtcdPhasePreserves(p: Params, P: World -> bool, w: World, cs: seq<Condition>)
    requires Closed(p, P) && P(w) && Justified(w, cs)
    ensures var r := EtcdPhase(p, w, cs);
            P(r.world) && (r.Proceed? ==> Justified(r.world, r.conditions) && r.world.objects == w.objects)
  {
    var t := Tick(p, w);
    Take(p, P, w, OnlyCall);
    if EtcdCluster in w.objects && w.objects[EtcdCluster].meta.deletedAt.None? {
      EtcdStatusPreserves(p, P, t, cs);
    }
  }

  /** A status write whose failure may be ignored. */
  lemma WritePreserves(p: Params, P: World -> bool, w: World, cs: seq<Condition>, c: Call)
    requires Closed(p, P) && P(w) && Justified(w, cs)
    requires c.status == ConditionTrue ==>
               c.kind != EtcdAvailable && (c.kind == KubeAPIServerAvailable ==> APIServerUp(w))
    ensures var u := UpdateStatus(p, w, Set(cs, c));
            P(u.world) && Justified(u.world, Set(cs, c)) && u.world.objects == w.objects
  {
    SetJustified(w, cs, c);
    StatusPreserves(p, P, w, Set(cs, c));
  }

  lemma DeploymentPhasePreserves(p: Params, P: World -> bool, w: World, cs: seq<Condition>,
                                 name: DeploymentName, t: ConditionType)
    requires Closed(p, P) && P(w) && Justified(w, cs)
    requires t == KubeControllerManagerAvailable || (t == KubeAPIServerAvailable && name == KubeAPIServer)
    ensures var r := DeploymentPhase(p, w, cs, name, t);
            P(r.world) && (r.Proceed? ==> Justified(r.world, r.conditions) && r.world.objects == w.objects)
  {
    Take(p, P, w, OnlyCall);
    if Deployment(name) in w.objects {
      var got := Tick(p, w);
      var c := Report(p, got, t, DeploymentNotice(name, DeploymentReportsAvailable(w.objects[Deployment(name)])));
      assert c.kind == t && (c.status == ConditionTrue && t == KubeAPIServerAvailable ==> APIServerUp(got));
      WritePreserves(p, P, got, cs, c);
    }
  }

  lemma AggregatePreserves(p: Params, P: World -> bool, w: World, cs: seq<Condition>)
    requires Closed(p, P) && P(w) && Justified(w, cs)
    ensures var r := AggregatePhase(p, w, cs);
            P(r.world) && (r.Proceed? ==> r.world.conditions == r.conditions && r.world.objects == w.objects)
  {
    var c := Report(p, w, Available, AggregateNotice(cs));
    SetJustified(w, cs, c);
    StatusPreserves(p, P, w, Set(cs, c));
  }

  /** The worlds a status step may hand on: the property holds and the conditions in
      memory are justified. */
  ghost predicate Sane(P: World -> bool, r: Phase, objects: map<Id, Object>) {
    P(r.world) && (r.Proceed? ==> Justified(r.world, r.conditions) && r.world.objects == objects)
  }

  /** At the end the conditions in memory are the stored ones. */
  ghost predicate Stored(P: World -> bool, r: Phase, objects: map<Id, Object>) {
    P(r.world) && (r.Proceed? ==> r.world.conditions == r.conditions && r.world.objects == objects)
  }

  lemma AfterControllerManagerStatusPreserves(p: Params, P: World -> bool, r: Phase, objects: map<Id, Object>)
    requires Closed(p, P) && Sane(P, r, objects)
    ensures Stored(P, AfterControllerManagerStatus(p, r), objects)
  {
    if r.Proceed? {
      AggregatePreserves(p, P, r.world, r.conditions);
    }
  }

  lemma AfterAPIServerStatusPreserves(p: Params, P: World -> bool, r: Phase, objects: map<Id, Object>)
    requires Closed(p, P) && Sane(P, r, objects)
    ensures Stored(P, AfterAPIServerStatus(p, r), objects)
  {
    if r.Proceed? {
      DeploymentPhasePreserves(p, P, r.world, r.conditions, KubeControllerManager, KubeControllerManagerAvailable);
      AfterControllerManagerStatusPreserves(p, P,
        DeploymentPhase(p, r.world, r.conditions, KubeControllerManager, KubeControllerManagerAvailable), objects);
    }
  }

  lemma AfterEtcdStatusPreserves(p: Params, P: World -> bool, r: Phase, objects: map<Id, Object>)
    requires Closed(p, P) && Sane(P, r, objects)
    ensures Stored(P, AfterEtcdStatus(p, r), objects)
  {
    if r.Proceed? {
      DeploymentPhasePreserves(p, P, r.world, r.conditions, KubeAPIServer, KubeAPIServerAvailable);
      AfterAPIServerStatusPreserves(p, P,
        DeploymentPhase(p, r.world, r.conditions, KubeAPIServer, KubeAPIServerAvailable), objects);
    }
  }

  lemma StatusPhasePreserves(p: Params, P: World -> bool, w: World, cs: seq<Condition>)
    requires Closed(p, P) && P(w) && Justified(w, cs)
    ensures Stored(P, StatusPhase(p, w, cs), w.objects)
  {
    EtcdPhasePreserves(p, P, w, cs);
    AfterEtcdStatusPreserves(p, P, EtcdPhase(p, w, cs), w.objects);
  }

  // ----- bring-up phase -----

  lemma RankInjective(a: Id, b: Id)
    requires Rank(a) == Rank(b)
    ensures a == b
  {
    RanksNumber();
  }

  predicate SameRelease(w: World, w': World) {
    w'.releaseImage == w.releaseImage && w'.cache == w.cache
  }

  /** What an object step leaves in place. */
  ghost predicate Kept(w: World, w': World, id: Id) {
    w'.conditions == w.conditions && SameRelease(w, w') && w.objects.Keys <= w'.objects.Keys <= w.objects.Keys + {id} &&
    (forall b :: b != id && b in w.objects ==> w'.objects[b] == w.objects[b])
  }

  lemma WriteChangedKeeps(p: Params, w: World, id: Id, desired: Option<Content>)
    ensures var r := WriteChanged(p, w, id, desired); Kept(w, r.world, id) && (r.ok ==> id in r.world.objects)
  {
  }

  lemma CreateOrUpdateKeeps(p: Params, w: World, id: Id, ca: SecretValue, images: Images)
    ensures var r := CreateOrUpdate(p, w, id, ca, images); Kept(w, r.world, id) && (r.ok ==> id in r.world.objects)
  {
    var got := Tick(p, w);
    var desired := Mutate(p, id, Current(w, id), ca, images, got.calls, Answered(p, got));
    WriteChangedKeeps(p, Tick(p, got), id, desired);
  }

  /** Either nothing is written, or the write is a permitted step. */
  lemma WriteChangedPreserves(p: Params, P: World -> bool, w: World, id: Id, desired: Option<Content>,
                              images: Images, generated: bool)
    requires Closed(p, P) && P(w)
    requires desired.Some? && (id in w.objects ==> ContentOf(w.objects[id]) != desired.value) ==>
             Permitted(p, w, PutObject(id, desired.value, images, generated))
    ensures P(WriteChanged(p, w, id, desired).world)
  {
    if desired.Some? && (id in w.objects ==> ContentOf(w.objects[id]) != desired.value) {
      AppliedPreserves(p, P, w, PutObject(id, desired.value, images, generated));
    }
  }

  /** The root CA is made without looking at any CA. */
  lemma RootNeedsNoCA(p: Params, prior: Option<Object>, ca: SecretValue, images: Images, nonce: nat, generated: bool)
    ensures Mutate(p, RootCA, prior, ca, images, nonce, generated)
            == Mutate(p, RootCA, prior, EMPTY_SECRET, images, nonce, generated)
  {
  }

  /** What the mutate function saw is still so when its result is written. */
  lemma MutatedPreserves(p: Params, P: World -> bool, w: World, id: Id, prior: Option<Object>, ca: SecretValue,
                         images: Images, nonce: nat, generated: bool)
    requires Closed(p, P) && P(w) && GateOpen(w, id) && PrefixExists(w, Rank(id))
    requires prior == Current(w, id) && ca == CAOf(w) && nonce + 1 == w.calls
    ensures P(WriteChanged(p, w, id, Mutate(p, id, prior, ca, images, nonce, generated)).world)
  {
    WriteChangedPreserves(p, P, w, id, Mutate(p, id, prior, ca, images, nonce, generated), images, generated);
  }

  lemma TwoCalls(p: Params, w: World, id: Id)
    requires GateOpen(w, id) && PrefixExists(w, Rank(id))
    ensures var m := Tick(p, Tick(p, w));
            GateOpen(m, id) && PrefixExists(m, Rank(id)) && Current(w, id) == Current(m, id) && CAOf(m) == CAOf(w) &&
            Tick(p, w).calls + 1 == m.calls
  {
  }

  lemma CreateOrUpdatePreserves(p: Params, P: World -> bool, w: World, id: Id, ca: SecretValue, images: Images)
    requires Closed(p, P) && P(w) && ca == CAOf(w)
    requires GateOpen(w, id) && PrefixExists(w, Rank(id))
    ensures P(CreateOrUpdate(p, w, id, ca, images).world)
  {
    var got := Tick(p, w);
    Take(p, P, w, OnlyCall);
    Take(p, P, got, OnlyCall);
    if Answered(p, w) {
      TwoCalls(p, w, id);
      MutatedPreserves(p, P, Tick(p, got), id, Current(w, id), ca, images, got.calls, Answered(p, got));
    }
  }

  lemma RootPreserves(p: Params, P: World -> bool, w: World)
    requires Closed(p, P) && P(w)
    ensures P(CreateOrUpdate(p, w, RootCA, EMPTY_SECRET, map[]).world)
  {
    var got := Tick(p, w);
    RootNeedsNoCA(p, Current(w, RootCA), CAOf(w), map[], got.calls, Answered(p, got));
    CreateOrUpdatePreserves(p, P, w, RootCA, CAOf(w), map[]);
  }

  lemma EnsurePreserves(p: Params, P: World -> bool, w: World, id: Id, ca: SecretValue, images: Images)
    requires Closed(p, P) && P(w) && id != RootCA && ca == CAOf(w) && GateOpen(w, id) && PrefixExists(w, Rank(id))
    ensures var r := Ensure(p, w, id, ca, images);
            P(r.world) && Kept(w, r.world, id) && (r.ok ==> id in r.world.objects)
  {
    Take(p, P, w, OnlyCall);
    if Answered(p, w) {
      CreateOrUpdatePreserves(p, P, Tick(p, w), id, ca, images);
      CreateOrUpdateKeeps(p, Tick(p, w), id, ca, images);
    }
  }

  /** A run of consecutive objects of the bring-up, after the root CA. */
  ghost predicate Consecutive(ids: seq<Id>, from: nat) {
    from > 0 && forall i :: 0 <= i < |ids| ==> Rank(ids[i]) == from + i
  }

  lemma {:induction false} EnsureAllPreserves(p: Params, P: World -> bool, w: World, ids: seq<Id>, from: nat,
                                              ca: SecretValue, images: Images)
    requires Closed(p, P) && P(w) && Consecutive(ids, from) && RootCA in w.objects && ca == CAOf(w)
    requires PrefixExists(w, from) && forall i :: 0 <= i < |ids| ==> GateOpen(w, ids[i])
    ensures var r := EnsureAll(p, w, ids, ca, images);
            P(r.world) && r.world.conditions == w.conditions && w.objects.Keys <= r.world.objects.Keys &&
            (r.ok ==> PrefixExists(r.world, from + |ids|))
    decreases |ids|
  {
    if ids != [] {
      var first := Ensure(p, w, ids[0], ca, images);
      EnsurePreserves(p, P, w, ids[0], ca, images);
      if first.ok {
        forall b | Rank(b) < from + 1 ensures b in first.world.objects {
          if Rank(b) == from {
            RankInjective(b, ids[0]);
          }
        }
        EnsureAllPreserves(p, P, first.world, ids[1..], from + 1, ca, images);
      }
    }
  }

  lemma SectionPreserves(p: Params, P: World -> bool, w: World, ids: seq<Id>, from: nat, images: Images)
    requires Closed(p, P) && P(w) && Consecutive(ids, from)
    requires PrefixExists(w, from) && forall i :: 0 <= i < |ids| ==> GateOpen(w, ids[i])
    ensures var r := Section(p, w, ids, images);
            P(r.world) && r.world.conditions == w.conditions && w.objects.Keys <= r.world.objects.Keys &&
            (r.ok ==> PrefixExists(r.world, from + |ids|))
  {
    Take(p, P, w, OnlyCall);
    if Answered(p, w) && RootCA in w.objects {
      EnsureAllPreserves(p, P, Tick(p, w), ids, from, CAOf(w), images);
    }
  }

  lemma ReleasePreserves(p: Params, P: World -> bool, w: World)
    requires Closed(p, P) && P(w)
    ensures var r := ReleaseImage(p, w);
            P(r.world) && r.world.conditions == w.conditions && r.world.objects == w.objects
  {
    Take(p, P, w, OnlyCall);
    if p.lookup(w.releaseImage).Some? {
      Take(p, P, w, FillCache(p.lookup(w.releaseImage).value));
    }
  }

  lemma SectionsConsecutive()
    ensures Consecutive(ETCD_OBJECTS, 1) && Consecutive(API_SERVER_OBJECTS, 9)
    ensures Consecutive(CONTROLLER_MANAGER_OBJECTS, 19)
    ensures |ETCD_OBJECTS| == 8 && |API_SERVER_OBJECTS| == 10 && |CONTROLLER_MANAGER_OBJECTS| == 3
  {
  }

  /** What a bring-up step hands on. */
  ghost predicate Reached(P: World -> bool, r: Progress, cs: seq<Condition>, rank: nat) {
    P(r.world) && r.world.conditions == cs && (r.ok ==> PrefixExists(r.world, rank))
  }

  /** How a pass ends: the conditions stay, and a completed one leaves all objects. */
  ghost predicate Ended(P: World -> bool, r: PassResult, cs: seq<Condition>) {
    P(r.world) && r.world.conditions == cs && (r.outcome == Completed ==> PrefixExists(r.world, |BRING_UP|))
  }

  lemma AfterAPIServerPreserves(p: Params, P: World -> bool, kas: Progress, cs: seq<Condition>, images: Images)
    requires Closed(p, P) && Reached(P, kas, cs, FIRST_CONTROLLER_MANAGER) && IsTrue(cs, EtcdAvailable)
    ensures Ended(P, AfterAPIServer(p, kas, cs, images), cs)
  {
    SectionsConsecutive();
    if kas.ok && IsTrue(cs, KubeAPIServerAvailable) {
      SectionPreserves(p, P, kas.world, CONTROLLER_MANAGER_OBJECTS, 19, images);
    }
  }

  lemma AfterReleasePreserves(p: Params, P: World -> bool, release: Release, cs: seq<Condition>)
    requires Closed(p, P) && P(release.world) && release.world.conditions == cs
    requires PrefixExists(release.world, FIRST_API_SERVER) && IsTrue(cs, EtcdAvailable)
    ensures Ended(P, AfterRelease(p, release, cs), cs)
  {
    SectionsConsecutive();
    if release.images.Some? {
      SectionPreserves(p, P, release.world, API_SERVER_OBJECTS, 9, release.images.value);
      AfterAPIServerPreserves(p, P, Section(p, release.world, API_SERVER_OBJECTS, release.images.value), cs,
                              release.images.value);
    }
  }

  lemma AfterEtcdPreserves(p: Params, P: World -> bool, etcd: Progress, cs: seq<Condition>)
    requires Closed(p, P) && Reached(P, etcd, cs, FIRST_API_SERVER)
    ensures Ended(P, AfterEtcd(p, etcd, cs), cs)
  {
    if etcd.ok && IsTrue(cs, EtcdAvailable) {
      ReleasePreserves(p, P, etcd.world);
      AfterReleasePreserves(p, P, ReleaseImage(p, etcd.world), cs);
    }
  }

  lemma AfterRootPreserves(p: Params, P: World -> bool, root: Progress, cs: seq<Condition>)
    requires Closed(p, P) && Reached(P, root, cs, 1)
    ensures Ended(P, AfterRoot(p, root, cs), cs)
  {
    SectionsConsecutive();
    if root.ok {
      SectionPreserves(p, P, root.world, ETCD_OBJECTS, 1, map[]);
      AfterEtcdPreserves(p, P, Section(p, root.world, ETCD_OBJECTS, map[]), cs);
    }
  }

  lemma RootReached(p: Params, P: World -> bool, w: World)
    requires Closed(p, P) && P(w)
    ensures Reached(P, CreateOrUpdate(p, w, RootCA, EMPTY_SECRET, map[]), w.conditions, 1)
  {
    RootPreserves(p, P, w);
    CreateOrUpdateKeeps(p, w, RootCA, EMPTY_SECRET, map[]);
    forall b | Rank(b) < 1 ensures b == RootCA {
      RankInjective(b, RootCA);
    }
  }

  lemma AfterStatusPreserves(p: Params, P: World -> bool, r: Phase)
    requires Closed(p, P) && Stored(P, r, r.world.objects)
    ensures P(AfterStatus(p, r).world)
    ensures r.Proceed? ==> Ended(P, AfterStatus(p, r), r.conditions)
  {
    if r.Proceed? {
      RootReached(p, P, r.world);
      AfterRootPreserves(p, P, CreateOrUpdate(p, r.world, RootCA, EMPTY_SECRET, map[]), r.conditions);
    }
  }

  /** Every property that each permitted step keeps is kept by a whole pass,
      wherever it is cut short. */
  lemma PassPreserves(p: Params, P: World -> bool, w: World)
    requires Closed(p, P) && P(w)
    ensures P(Reconcile(p, w).world)
  {
    Take(p, P, w, OnlyCall);
    if Answered(p, w) && w.live {
      StatusPhasePreserves(p, P, Tick(p, w), w.conditions);
      AfterStatusPreserves(p, P, StatusPhase(p, Tick(p, w), w.conditions));
    }
  }

  // ----- what a pass leaves alone -----

  /** Every object is still there with its uid, its stamp and what others reported of it;
      only the EtcdCluster may be newly marked; new objects are unmarked but for it, and
      nothing has been reported of them. */
  ghost predicate KeepsIdentity(w: World, w': World) {
    && w'.live == w.live && w'.releaseImage == w.releaseImage
    && (forall id :: id in w.objects ==>
          && id in w'.objects
          && w'.objects[id].meta.uid == w.objects[id].meta.uid
          && w'.objects[id].meta.created == w.objects[id].meta.created
          && w'.objects[id].status == w.objects[id].status
          && (id != EtcdCluster ==> w'.objects[id].meta.deletedAt == w.objects[id].meta.deletedAt))
    && (forall id :: id in w'.objects && id !in w.objects ==>
          w'.objects[id].status == NoStatus && (id != EtcdCluster ==> w'.objects[id].meta.deletedAt.None?))
  }

  lemma KeepsIdentityStep(p: Params, w: World, x: World, s: Step)
    requires KeepsIdentity(w, x) && Permitted(p, x, s)
    ensures KeepsIdentity(w, Effect(p, x, s))
  {
  }

  /** No pass, wherever it is cut short, removes or replaces an object or touches what
      other controllers report. */
  lemma PassKeepsIdentity(p: Params, w: World)
    ensures KeepsIdentity(w, Reconcile(p, w).world)
  {
    var P := x => KeepsIdentity(w, x);
    forall x, s | P(x) && Permitted(p, x, s) ensures P(Effect(p, x, s)) {
      KeepsIdentityStep(p, w, x, s);
    }
    PassPreserves(p, P, w);
  }
}
