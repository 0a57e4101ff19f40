/** Runs in which the operator does less than it seems to promise: a root CA that is
    never repaired, and a cluster deleted twice within five minutes. */
module Limits {
  import opened Base
  import opened Conditions
  import opened Pki
  import opened World
  import opened Pass
  import opened Steps
  import opened Runs
  import opened Certificates
  import opened Rotation
  import opened Recreation

  // ----- a pass that finds no cluster -----

  /** The root CA is valid and can sign. */
  predicate RootUsable(w: World) {
    RootValid(w) && CanSign(PairOf(CAOf(w)))
  }

  /** A usable root CA stays usable within a pass. */
  lemma RootUsableStep(p: Params, w: World, s: Step)
    requires RootUsable(w) && Permitted(p, w, s)
    ensures RootUsable(Effect(p, w, s))
  {
    if s.PutObject? && s.id == RootCA {
      PutSecretEffect(p, w, s);
      RootCAValidity(p.config, SecretAt(w, RootCA), w.calls - 1, s.generated);
    }
  }

  /** A usable root CA and everything up to and including the EtcdCluster. */
  ghost predicate EtcdBroughtUp(w: World) {
    RootUsable(w) && PrefixExists(w, FIRST_API_SERVER)
  }

  lemma EtcdBroughtUpClosed(p: Params)
    ensures Closed(p, RootUsable) && Closed(p, EtcdBroughtUp)
  {
    forall w, s | RootUsable(w) && Permitted(p, w, s) ensures RootUsable(Effect(p, w, s)) {
      RootUsableStep(p, w, s);
    }
    forall w, s | EtcdBroughtUp(w) && Permitted(p, w, s) ensures EtcdBroughtUp(Effect(p, w, s)) {
      RootUsableStep(p, w, s);
    }
  }

  lemma SectionBringsUp(p: Params, w: World)
    requires AllAnswered(p, w.calls) && RootUsable(w) && PrefixExists(w, 1)
    ensures Reached(EtcdBroughtUp, Section(p, w, ETCD_OBJECTS, map[]), w.conditions, FIRST_API_SERVER)
  {
    SectionsConsecutive();
    EtcdBroughtUpClosed(p);
    SectionPreserves(p, RootUsable, w, ETCD_OBJECTS, 1, map[]);
    SectionSucceeds(p, w, ETCD_OBJECTS, 1, map[]);
    assert AllSignable(p, w, ETCD_OBJECTS, CAOf(w));
  }

  lemma BroughtUpFromRoot(p: Params, root: Progress, cs: seq<Condition>)
    requires root.ok && AllAnswered(p, root.world.calls) && RootUsable(root.world)
    requires PrefixExists(root.world, 1) && root.world.conditions == cs
    ensures EtcdBroughtUp(AfterRoot(p, root, cs).world)
  {
    SectionBringsUp(p, root.world);
    EtcdBroughtUpClosed(p);
    AfterEtcdPreserves(p, EtcdBroughtUp, Section(p, root.world, ETCD_OBJECTS, map[]), cs);
  }

  predicate DeploymentsUnmarked(w: World) {
    Unmarked(w, Deployment(KubeAPIServer)) && Unmarked(w, Deployment(KubeControllerManager))
  }

  /** The service is live, there is no cluster, no deployment is being deleted, and a root
      CA that has ca.key is usable. */
  predicate LacksCluster(w: World) {
    w.live && !Exists(w) && DeploymentsUnmarked(w) && (CaKey in CAOf(w).data ==> RootUsable(w))
  }

  lemma RootMadeUsable(p: Params, w: World)
    requires AllAnswered(p, w.calls) && (CaKey in CAOf(w).data ==> RootUsable(w))
    ensures var root := CreateOrUpdate(p, w, RootCA, EMPTY_SECRET, map[]);
            root.ok && root.world.calls >= w.calls && RootUsable(root.world)
  {
    RootSucceeds(p, w);
  }

  /** With every call answered, a pass over such a store, the empty namespace for one,
      leaves a usable root CA and all etcd objects. */
  lemma BringsUpEtcd(p: Params, w: World)
    requires AllAnswered(p, w.calls) && LacksCluster(w)
    ensures EtcdBroughtUp(Reconcile(p, w).world)
  {
    var t := Tick(p, w);
    var s := StatusPhase(p, t, w.conditions);
    assert Answered(p, w);
    StatusProceeds(p, t, w.conditions);
    StatusPhaseKeeps(p, t, w.conditions);
    StatusPhasePreserves(p, (x: World) => true, t, w.conditions);
    assert CAOf(s.world) == CAOf(w);
    RootMadeUsable(p, s.world);
    RootReached(p, (x: World) => true, s.world);
    BroughtUpFromRoot(p, CreateOrUpdate(p, s.world, RootCA, EMPTY_SECRET, map[]), s.conditions);
  }

  // ----- a root CA that is never repaired -----

  /** The root CA secret has ca.key and no ca.crt. */
  predicate LoneKey(w: World) {
    RootCA in w.objects && CaKey in CAOf(w).data && CaCrt !in CAOf(w).data
  }

  lemma StripLeavesLoneKey(p: Params, w: World)
    requires RootValid(w) && Unmarked(w, RootCA)
    ensures var w' := Next(p, w, OutsideStrip(RootCA, {CaCrt})); LoneKey(w') && Unmarked(w', RootCA)
  {
  }

  lemma FirstPassRoot(p: Params, w: World)
    requires AllAnswered(p, w.calls) && w.live && EmptyNamespace(w)
    ensures RootValid(Next(p, w, RunPass)) && Unmarked(Next(p, w, RunPass), RootCA)
  {
    BringsUpEtcd(p, w);
    KeptAction(p, w, RunPass);
  }

  /** A run leads there: the first pass over an empty namespace, after which somebody
      strips ca.crt from the root CA. */
  lemma LoneKeyReachable(p: Params, w: World) returns (ws: seq<World>)
    requires EmptyNamespace(w) && w.live && AllAnswered(p, w.calls)
    ensures IsRun(p, ws, [RunPass, OutsideStrip(RootCA, {CaCrt})])
    ensures |ws| == 3 && ws[0] == w && RootValid(ws[1]) && LoneKey(ws[2]) && Unmarked(ws[2], RootCA)
  {
    var strip := OutsideStrip(RootCA, {CaCrt});
    var first := Next(p, w, RunPass);
    FirstPassRoot(p, w);
    StripLeavesLoneKey(p, first);
    ws := [w, first, Next(p, first, strip)];
    TwoSteps(p, ws[0], ws[1], ws[2], RunPass, strip);
  }

  lemma TwoSteps(p: Params, w0: World, w1: World, w2: World, a: Action, b: Action)
    requires w1 == Next(p, w0, a) && w2 == Next(p, w1, b)
    ensures IsRun(p, [w0, w1, w2], [a, b])
  {
  }

  /** How w' may follow a world with a lone ca.key: the root CA's data stays, and every
      leaf was there before, unchanged. */
  ghost predicate Stuck(w: World, w': World) {
    LoneKey(w') && Unmarked(w', RootCA) && CAOf(w').data == CAOf(w).data &&
    forall leaf :: LeafSecret(leaf) in w'.objects ==>
      LeafSecret(leaf) in w.objects && w'.objects[LeafSecret(leaf)] == w.objects[LeafSecret(leaf)]
  }

  lemma StuckStep(p: Params, w: World, x: World, s: Step)
    requires Stuck(w, x) && Permitted(p, x, s)
    ensures Stuck(w, Effect(p, x, s))
  {
    var y := Effect(p, x, s);
    if s.PutObject? && IsSecret(s.id) {
      PutSecretEffect(p, x, s);
      assert !s.id.LeafSecret?;
    } else {
      OtherStep(p, x, s);
    }
    assert forall leaf :: LeafSecret(leaf) in y.objects ==>
             LeafSecret(leaf) in x.objects && y.objects[LeafSecret(leaf)] == x.objects[LeafSecret(leaf)];
  }

  lemma StuckEnvironment(p: Params, w: World, x: World, a: Action)
    requires Stuck(w, x) && !a.RunPass? && !Outside(a)
    ensures Stuck(w, Next(p, x, a))
  {
    var y := Next(p, x, a);
    assert RootCA in y.objects && y.objects[RootCA] == x.objects[RootCA];
    forall leaf | LeafSecret(leaf) in y.objects
      ensures LeafSecret(leaf) in x.objects && y.objects[LeafSecret(leaf)] == x.objects[LeafSecret(leaf)]
    {
    }
  }

  /** Under a lone ca.key the etcd section fails at its first object. */
  lemma SectionRefused(p: Params, w: World, images: Images)
    requires LoneKey(w)
    ensures !Section(p, w, ETCD_OBJECTS, images).ok
  {
    var t := Tick(p, w);
    assert ETCD_OBJECTS[0] == LeafSecret(EtcdClient);
    LeafRefused(p, t, EtcdClient, CAOf(w), images);
  }

  lemma LeafRefused(p: Params, w: World, leaf: Leaf, ca: SecretValue, images: Images)
    requires !ValidCA(ca)
    ensures !Ensure(p, w, LeafSecret(leaf), ca, images).ok
  {
    var t := Tick(p, w);
    var got := Tick(p, t);
    assert Mutate(p, LeafSecret(leaf), Current(t, LeafSecret(leaf)), ca, images, got.calls, Answered(p, got)).None?;
  }

  lemma NotCompleted(p: Params, w: World)
    requires LoneKey(w)
    ensures Reconcile(p, w).outcome != Completed
  {
    var s := StatusPhase(p, Tick(p, w), w.conditions);
    StatusPhaseKeeps(p, Tick(p, w), w.conditions);
    if s.Proceed? {
      var root := CreateOrUpdate(p, s.world, RootCA, EMPTY_SECRET, map[]);
      if root.ok {
        WrittenContent(p, s.world, RootCA, EMPTY_SECRET, map[]);
        assert LoneKey(root.world);
        SectionRefused(p, root.world, map[]);
      }
    }
  }

  /** In every run without outside edits that starts with a lone ca.key, calls failing
      anywhere: the root CA's data stays as it is, no leaf is created or rewritten, and no
      pass completes. */
  lemma NeverRepaired(p: Params, ws: seq<World>, acts: seq<Action>, i: nat)
    requires IsRun(p, ws, acts) && Quiet(acts) && i < |ws| && LoneKey(ws[0]) && Unmarked(ws[0], RootCA)
    ensures RootCA in ws[i].objects && CAOf(ws[i]).data == CAOf(ws[0]).data
    ensures forall leaf :: LeafSecret(leaf) in ws[i].objects ==>
              LeafSecret(leaf) in ws[0].objects && ws[i].objects[LeafSecret(leaf)] == ws[0].objects[LeafSecret(leaf)]
    ensures Reconcile(p, ws[i]).outcome != Completed
  {
    var P := x => Stuck(ws[0], x);
    forall x, s | P(x) && Permitted(p, x, s) ensures P(Effect(p, x, s)) {
      StuckStep(p, ws[0], x, s);
    }
    forall x: World, a: Action | P(x) && !a.RunPass? && !Outside(a) ensures P(Next(p, x, a)) {
      StuckEnvironment(p, ws[0], x, a);
    }
    RunPreserves(p, P, ws, acts, false, i);
    NotCompleted(p, ws[i]);
  }

  // ----- two deletions within five minutes -----

  /** Every call is answered at once. */
  ghost predicate Instant(p: Params) {
    WholeSeconds(p) && forall n :: p.fate(n) == Done && p.delay(n) == 0
  }

  /** A cluster with no ready member, stamped with a given second. */
  ghost predicate Unready(w: World, created: Time) {
    Exists(w) && Created(w) == created && DeletedAt(w).None? && ReadyMembers(w.objects[EtcdCluster]) == 0 &&
    !EtcdReportsAvailable(w.objects[EtcdCluster]) && ClusterSize(w.objects[EtcdCluster]) <= 1
  }

  /** A pass that finds an unready cluster past its timeout deletes it and does nothing
      else to the objects. */
  lemma DeletingPass(p: Params, w: World, created: Time)
    requires Instant(p) && w.live && Unready(w, created) && w.clock - created > BOOTSTRAP_TIMEOUT
    ensures var o := w.objects[EtcdCluster];
            var w' := Reconcile(p, w).world;
            w'.objects == w.objects[EtcdCluster := o.(meta := o.meta.(deletedAt := Some(w.clock)))] &&
            w'.clock == w.clock && w'.live
  {
    var t := Tick(p, Tick(p, w));
    var o := w.objects[EtcdCluster];
    assert Answered(p, w) && Answered(p, Tick(p, w)) && t.clock == w.clock;
    assert EtcdVerdict(p, t, o) == Some(EtcdBootFailed) && AfterListing(p, t, o) == t;
    var cs := Set(w.conditions, Report(p, t, EtcdAvailable, EtcdBootFailed));
    assert UpdateStatus(p, t, cs) == Progress(Tick(p, t).(conditions := cs), true);
    assert EtcdPhase(p, Tick(p, w), w.conditions) ==
           Stop(MarkDeleted(p, Tick(p, t).(conditions := cs), EtcdCluster));
  }

  /** At this moment a cluster, if there is one, is new. */
  ghost predicate New(w: World, now: Time) {
    w.live && w.clock == now && DeploymentsUnmarked(w) && (Exists(w) ==> Unready(w, Whole(now)))
  }

  lemma NewStep(p: Params, w: World, s: Step, now: Time)
    requires Instant(p) && New(w, now) && Permitted(p, w, s)
    ensures New(Effect(p, w, s), now)
  {
  }

  lemma NewPass(p: Params, w: World, now: Time)
    requires Instant(p) && New(w, now)
    ensures New(Reconcile(p, w).world, now)
  {
    var P := x => New(x, now);
    forall x, s | P(x) && Permitted(p, x, s) ensures P(Effect(p, x, s)) {
      NewStep(p, x, s, now);
    }
    PassPreserves(p, P, w);
  }

  /** Etcd is brought up under a usable root CA, and its cluster does not get ready. */
  ghost predicate Hanging(w: World, created: Time) {
    w.live && Unready(w, created) && RootUsable(w) && DeploymentsUnmarked(w)
  }

  lemma Newborn(w: World, now: Time)
    requires EtcdBroughtUp(w) && New(w, now)
    ensures Hanging(w, Whole(now)) && w.clock == now
  {
    assert Rank(EtcdCluster) < FIRST_API_SERVER;
  }

  lemma CreatingPass(p: Params, w: World)
    requires Instant(p) && LacksCluster(w)
    ensures var w' := Next(p, w, RunPass); Hanging(w', Whole(w.clock)) && w'.clock == w.clock
  {
    BringsUpEtcd(p, w);
    NewPass(p, w, w.clock);
    Newborn(Reconcile(p, w).world, w.clock);
  }

  lemma DeletedAndGone(p: Params, w: World, created: Time)
    requires Instant(p) && Hanging(w, created) && w.clock - created > BOOTSTRAP_TIMEOUT
    ensures var w1 := Next(p, w, RunPass);
            var w2 := Next(p, w1, FinishDeletion(EtcdCluster));
            Condemned(w1) == Some(Deletion(Uid(w), w.clock)) && LacksCluster(w2) && w2.clock == w.clock
  {
    DeletingPass(p, w, created);
    var w2 := Next(p, Next(p, w, RunPass), FinishDeletion(EtcdCluster));
    assert forall id :: id != EtcdCluster ==> Current(w2, id) == Current(w, id);
    assert Current(w2, RootCA) == Current(w, RootCA);
  }

  /** Deleted, gone and created again, all at one moment. */
  lemma Recreated(p: Params, w: World, created: Time)
    requires Instant(p) && Hanging(w, created) && w.clock - created > BOOTSTRAP_TIMEOUT
    ensures var w1 := Next(p, w, RunPass);
            var w3 := Next(p, Next(p, w1, FinishDeletion(EtcdCluster)), RunPass);
            Condemned(w1) == Some(Deletion(Uid(w), w.clock)) &&
            w3.live && w3.clock == w.clock && Unready(w3, Whole(w.clock))
  {
    DeletedAndGone(p, w, created);
    CreatingPass(p, Next(p, Next(p, w, RunPass), FinishDeletion(EtcdCluster)));
  }

  /** Deleted after a wait. */
  lemma DeletedAfterWait(p: Params, w: World, created: Time, wait: nat)
    requires Instant(p) && w.live && Unready(w, created) && w.clock + wait - created > BOOTSTRAP_TIMEOUT
    ensures var w' := Next(p, w, Advance(wait));
            Condemned(w').None? && Condemned(Next(p, w', RunPass)) == Some(Deletion(Uid(w), w.clock + wait))
  {
    DeletingPass(p, Next(p, w, Advance(wait)), created);
  }

  /** A run of five actions. */
  lemma FiveSteps(p: Params, ws: seq<World>, acts: seq<Action>)
    requires |ws| == 6 && |acts| == 5 && ws[1] == Next(p, ws[0], acts[0]) && ws[2] == Next(p, ws[1], acts[1])
    requires ws[3] == Next(p, ws[2], acts[2]) && ws[4] == Next(p, ws[3], acts[3]) && ws[5] == Next(p, ws[4], acts[4])
    ensures IsRun(p, ws, acts)
  {
  }

  /** Two deletions by the operator and nothing from outside. */
  ghost predicate TwoDeletions(p: Params, ws: seq<World>, acts: seq<Action>, i: nat, j: nat, gap: int) {
    IsRun(p, ws, acts) && Quiet(acts) && i < j < |acts| && OperatorDeletes(ws, acts, i) &&
    OperatorDeletes(ws, acts, j) && Condemned(ws[j + 1]).value.at - Condemned(ws[i + 1]).value.at == gap
  }

  /** The stamp of a cluster created 300.9 seconds after a whole second. */
  lemma LateStamp(created: Time)
    requires Whole(created) == created
    ensures Whole(created + 300_900_000_000) == created + 300_000_000_000
  {
  }

  lemma TwoDeletionsOf(p: Params, ws: seq<World>, acts: seq<Action>, w1: World, w4: World, w5: World, gap: int)
    requires IsRun(p, ws, acts) && Quiet(acts) && |acts| == 5 && acts[0].RunPass? && acts[4].RunPass?
    requires ws[1] == w1 && ws[4] == w4 && ws[5] == w5
    requires Condemned(ws[0]).None? && Condemned(w1).Some? && Condemned(w4).None? && Condemned(w5).Some?
    requires Condemned(w5).value.at - Condemned(w1).value.at == gap
    ensures TwoDeletions(p, ws, acts, 0, 4, gap)
  {
  }

  /** A cluster deleted late in a second and created anew in the same second, whose
      beginning is its stamp. */
  lemma DeletedTwice(p: Params, w: World, created: Time) returns (ws: seq<World>, acts: seq<Action>)
    requires Instant(p) && Hanging(w, created) && w.clock == created + 300_900_000_000 && Whole(created) == created
    ensures TwoDeletions(p, ws, acts, 0, 4, 299_200_000_000) && ws[0] == w
  {
    acts := [RunPass, FinishDeletion(EtcdCluster), RunPass, Advance(299_200_000_000), RunPass];
    LateStamp(created);
    Recreated(p, w, created);
    var w1 := Next(p, w, acts[0]);
    var w2 := Next(p, w1, acts[1]);
    var w3 := Next(p, w2, acts[2]);
    var w4 := Next(p, w3, acts[3]);
    var w5 := Next(p, w4, acts[4]);
    DeletedAfterWait(p, w3, Whole(w.clock), 299_200_000_000);
    ws := [w, w1, w2, w3, w4, w5];
    FiveSteps(p, ws, acts);
    TwoDeletionsOf(p, ws, acts, w1, w4, w5, 299_200_000_000);
  }

  lemma RunBefore(p: Params, w: World, a: Action, ws: seq<World>, acts: seq<Action>)
    requires IsRun(p, ws, acts) && Quiet(acts) && ws[0] == Next(p, w, a) && !Outside(a)
    ensures IsRun(p, [w] + ws, [a] + acts) && Quiet([a] + acts)
  {
    var ws', acts' := [w] + ws, [a] + acts;
    forall k | 0 <= k < |acts'| ensures ws'[k + 1] == Next(p, ws'[k], acts'[k]) {
      if k > 0 {
        assert ws[k] == Next(p, ws[k - 1], acts[k - 1]);
      }
    }
  }

  lemma DeletionBefore(w: World, a: Action, ws: seq<World>, acts: seq<Action>, i: nat)
    requires |ws| == |acts| + 1 && i < |acts|
    ensures ([w] + ws)[i + 2] == ws[i + 1]
    ensures OperatorDeletes([w] + ws, [a] + acts, i + 1) <==> OperatorDeletes(ws, acts, i)
  {
  }

  /** The same two deletions, one action later. */
  lemma OneBefore(p: Params, w: World, a: Action, ws: seq<World>, acts: seq<Action>, i: nat, j: nat, gap: int)
    requires TwoDeletions(p, ws, acts, i, j, gap) && ws[0] == Next(p, w, a) && !Outside(a)
    ensures TwoDeletions(p, [w] + ws, [a] + acts, i + 1, j + 1, gap)
  {
    RunBefore(p, w, a, ws, acts);
    DeletionBefore(w, a, ws, acts, i);
    DeletionBefore(w, a, ws, acts, j);
  }

  lemma Waited(p: Params, w: World, created: Time, wait: nat)
    requires Hanging(w, created)
    ensures var w' := Next(p, w, Advance(wait)); Hanging(w', created) && w'.clock == w.clock + wait
  {
  }

  /** From an empty namespace, two operator deletions less than five minutes apart. */
  lemma FiveMinutesMissed(p: Params, w: World) returns (ws: seq<World>, acts: seq<Action>)
    requires Instant(p) && EmptyNamespace(w) && w.live && Whole(w.clock) == w.clock
    ensures TwoDeletions(p, ws, acts, 2, 6, 299_200_000_000) && ws[0] == w && 299_200_000_000 < BOOTSTRAP_TIMEOUT
  {
    var first := Next(p, w, RunPass);
    var late := Next(p, first, Advance(300_900_000_000));
    CreatingPass(p, w);
    Waited(p, first, w.clock, 300_900_000_000);
    ws, acts := DeletedTwice(p, late, w.clock);
    OneBefore(p, first, Advance(300_900_000_000), ws, acts, 0, 4, 299_200_000_000);
    OneBefore(p, w, RunPass, [first] + ws, [Advance(300_900_000_000)] + acts, 1, 5, 299_200_000_000);
    ws, acts := [w] + ([first] + ws), [RunPass] + ([Advance(300_900_000_000)] + acts);
  }

  // ----- exactly when five minutes are kept -----

  function AfterWait(p: Params, w: World, wait: nat): World {
    Next(p, Next(p, w, Advance(wait)), RunPass)
  }

  lemma WaitKeepsGap(p: Params, w: World, c: Time, d: Time, wait: nat)
    requires Unready(w, c) && c >= d && Condemned(AfterWait(p, w, wait)).Some?
    ensures Condemned(AfterWait(p, w, wait)).value.at - d > BOOTSTRAP_TIMEOUT
  {
    PassMarksFound(p, Next(p, w, Advance(wait)));
  }

  /** After a deletion at d, with the cluster created anew and not getting ready: however
      long the next pass waits, if it deletes, it does so more than five minutes after d;
      and this is so if and only if the new cluster's stamp is not before d. */
  lemma GapExactly(p: Params, w: World, c: Time, d: Time)
    requires Instant(p) && w.live && Unready(w, c) && d <= w.clock <= d + BOOTSTRAP_TIMEOUT
    ensures c >= d <==>
            forall wait: nat :: Condemned(AfterWait(p, w, wait)).Some? ==>
              Condemned(AfterWait(p, w, wait)).value.at - d > BOOTSTRAP_TIMEOUT
  {
    if c >= d {
      forall wait: nat | Condemned(AfterWait(p, w, wait)).Some?
        ensures Condemned(AfterWait(p, w, wait)).value.at - d > BOOTSTRAP_TIMEOUT
      {
        WaitKeepsGap(p, w, c, d, wait);
      }
    } else {
      var wait := d + BOOTSTRAP_TIMEOUT - w.clock;
      DeletedAfterWait(p, w, c, wait);
      assert Condemned(AfterWait(p, w, wait)).value.at - d == BOOTSTRAP_TIMEOUT;
    }
  }
}
