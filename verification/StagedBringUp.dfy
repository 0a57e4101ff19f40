/** Staged bring-up over whole runs. */
module StagedBringUp {
  import opened Base
  import opened Conditions
  import opened World
  import opened Pass
  import opened Reports
  import opened Steps
  import opened Runs

  /** Everything before an existing object exists, except the EtcdCluster, which the
      operator may itself delete. */
  ghost predicate DownwardClosed(w: World) {
    forall a, b :: a in w.objects && Rank(b) < Rank(a) && b != EtcdCluster ==> b in w.objects
  }

  /** The stages reached so far are backed by what has been reported so far. */
  ghost predicate Staged(w: World, etcdSeen: bool, apiSeen: bool) {
    && DownwardClosed(w)
    && (forall id :: id in w.objects && id != EtcdCluster ==> w.objects[id].meta.deletedAt.None?)
    && (EtcdUp(w) || IsTrue(w.conditions, EtcdAvailable) ==> etcdSeen)
    && (APIServerUp(w) || IsTrue(w.conditions, KubeAPIServerAvailable) ==> apiSeen)
    && (forall id :: id in w.objects && Rank(id) >= FIRST_API_SERVER ==> etcdSeen)
    && (forall id :: id in w.objects && Rank(id) >= FIRST_CONTROLLER_MANAGER ==> apiSeen)
  }

  lemma PutStaged(p: Params, w: World, s: Step, etcdSeen: bool, apiSeen: bool)
    requires s.PutObject? && Staged(w, etcdSeen, apiSeen) && Permitted(p, w, s)
    ensures Staged(Effect(p, w, s), etcdSeen, apiSeen)
  {
    var w' := Effect(p, w, s);
    assert w'.objects.Keys == w.objects.Keys + {s.id};
    forall a, b | a in w'.objects && Rank(b) < Rank(a) && b != EtcdCluster ensures b in w'.objects {
      if a != s.id {
        assert a in w.objects;
      }
    }
  }

  lemma StagedStep(p: Params, w: World, s: Step, etcdSeen: bool, apiSeen: bool)
    requires Staged(w, etcdSeen, apiSeen) && Permitted(p, w, s)
    ensures Staged(Effect(p, w, s), etcdSeen, apiSeen)
  {
    if s.PutObject? {
      PutStaged(p, w, s, etcdSeen, apiSeen);
    } else if s.DeleteCluster? {
      assert Effect(p, w, s).objects.Keys == w.objects.Keys;
    }
  }

  /** Reports, clock and operator memory change no object's existence or deletion. */
  lemma SameObjectsStaged(w: World, w': World, etcdSeen: bool, apiSeen: bool)
    requires Staged(w, etcdSeen, apiSeen) && w'.objects.Keys == w.objects.Keys && w'.conditions == w.conditions
    requires forall id :: id in w.objects ==> w'.objects[id].meta == w.objects[id].meta
    ensures Staged(w', etcdSeen || EtcdUp(w'), apiSeen || APIServerUp(w'))
  {
  }

  lemma ReportsOnly(p: Params, w: World, a: Action)
    requires !a.RunPass? && !Outside(a) && !a.FinishDeletion?
    ensures var w' := Next(p, w, a);
            w'.objects.Keys == w.objects.Keys && w'.conditions == w.conditions &&
            forall id :: id in w.objects ==> w'.objects[id].meta == w.objects[id].meta
  {
  }

  /** The only object whose deletion can finish is the EtcdCluster. */
  lemma FinishedStaged(w: World, id: Id, etcdSeen: bool, apiSeen: bool)
    requires Staged(w, etcdSeen, apiSeen) && id in w.objects && w.objects[id].meta.deletedAt.Some?
    ensures Staged(Without(w, id), etcdSeen, apiSeen)
  {
    assert id == EtcdCluster;
    assert Without(w, id).objects.Keys == w.objects.Keys - {EtcdCluster};
  }

  lemma StagedEnvironment(p: Params, w: World, a: Action, etcdSeen: bool, apiSeen: bool)
    requires Staged(w, etcdSeen, apiSeen) && !a.RunPass? && !Outside(a)
    ensures Staged(Next(p, w, a), etcdSeen || EtcdUp(Next(p, w, a)), apiSeen || APIServerUp(Next(p, w, a)))
  {
    var w' := Next(p, w, a);
    if a.FinishDeletion? {
      if a.id in w.objects && w.objects[a.id].meta.deletedAt.Some? {
        FinishedStaged(w, a.id, etcdSeen, apiSeen);
      }
      StagedWeaken(w', etcdSeen, apiSeen, etcdSeen || EtcdUp(w'), apiSeen || APIServerUp(w'));
    } else {
      ReportsOnly(p, w, a);
      SameObjectsStaged(w, w', etcdSeen, apiSeen);
    }
  }

  lemma StagedPass(p: Params, w: World, etcdSeen: bool, apiSeen: bool)
    requires Staged(w, etcdSeen, apiSeen)
    ensures Staged(Reconcile(p, w).world, etcdSeen, apiSeen)
  {
    var P := x => Staged(x, etcdSeen, apiSeen);
    forall x, s | P(x) && Permitted(p, x, s) ensures P(Effect(p, x, s)) {
      StagedStep(p, x, s, etcdSeen, apiSeen);
    }
    PassPreserves(p, P, w);
  }

  ghost predicate SeenEtcd(ws: seq<World>, i: nat)
    requires i < |ws|
  {
    exists j :: 0 <= j <= i && EtcdUp(ws[j])
  }

  ghost predicate SeenAPIServer(ws: seq<World>, i: nat)
    requires i < |ws|
  {
    exists j :: 0 <= j <= i && APIServerUp(ws[j])
  }

  lemma StagedWeaken(w: World, e: bool, a: bool, e': bool, a': bool)
    requires Staged(w, e, a) && (e ==> e') && (a ==> a')
    ensures Staged(w, e', a')
  {
  }

  lemma {:induction false} StagedRun(p: Params, ws: seq<World>, acts: seq<Action>, i: nat)
    requires IsRun(p, ws, acts) && Quiet(acts) && EmptyNamespace(ws[0]) && i < |ws|
    ensures Staged(ws[i], SeenEtcd(ws, i), SeenAPIServer(ws, i))
  {
    if i > 0 {
      StagedRun(p, ws, acts, i - 1);
      var e, a := SeenEtcd(ws, i - 1), SeenAPIServer(ws, i - 1);
      if acts[i - 1].RunPass? {
        StagedPass(p, ws[i - 1], e, a);
        StagedWeaken(ws[i], e, a, SeenEtcd(ws, i), SeenAPIServer(ws, i));
      } else {
        StagedEnvironment(p, ws[i - 1], acts[i - 1], e, a);
        StagedWeaken(ws[i], e || EtcdUp(ws[i]), a || APIServerUp(ws[i]), SeenEtcd(ws, i), SeenAPIServer(ws, i));
      }
    }
  }

  /** From an empty namespace, with calls failing anywhere: the objects are downward
      closed in the bring-up order except for the EtcdCluster; an API-server object
      exists only after the EtcdCluster reported Available True, and a
      controller-manager object only after the API-server deployment reported
      Available True with an available replica. */
  lemma BringUpIsStaged(p: Params, ws: seq<World>, acts: seq<Action>, i: nat, id: Id)
    requires IsRun(p, ws, acts) && Quiet(acts) && EmptyNamespace(ws[0]) && i < |ws| && id in ws[i].objects
    ensures forall b :: Rank(b) < Rank(id) && b != EtcdCluster ==> b in ws[i].objects
    ensures id in API_SERVER_OBJECTS || id in CONTROLLER_MANAGER_OBJECTS ==>
              exists j :: 0 <= j <= i && EtcdCluster in ws[j].objects && EtcdSaysTrue(ws[j].objects[EtcdCluster])
    ensures id in CONTROLLER_MANAGER_OBJECTS ==>
              exists j :: 0 <= j <= i && Deployment(KubeAPIServer) in ws[j].objects &&
                          DeploymentSaysTrue(ws[j].objects[Deployment(KubeAPIServer)])
  {
    StagedRun(p, ws, acts, i);
    SectionRanks(id);
    if id in API_SERVER_OBJECTS || id in CONTROLLER_MANAGER_OBJECTS {
      var j :| 0 <= j <= i && EtcdUp(ws[j]);
      EtcdSaysExactly(ws[j].objects[EtcdCluster]);
    }
    if id in CONTROLLER_MANAGER_OBJECTS {
      var j :| 0 <= j <= i && APIServerUp(ws[j]);
      DeploymentSaysExactly(ws[j].objects[Deployment(KubeAPIServer)]);
    }
  }
}
