/** What other controllers report of an object, said of the stored condition entries. */
module Reports {
  import opened Base
  import opened Conditions
  import E = EtcdConditions
  import opened World
  import opened Pass

  /** The first Available condition of the EtcdCluster has status True. */
  ghost predicate EtcdSaysTrue(o: Object) {
    o.status.EtcdStatus? &&
    exists i :: 0 <= i < |o.status.conditions| && o.status.conditions[i].kind == E.Available &&
      o.status.conditions[i].content.status == E.ConditionTrue &&
      forall j :: 0 <= j < i ==> o.status.conditions[j].kind != E.Available
  }

  /** The first Available condition of the deployment has status True, and at least one
      replica is available. */
  ghost predicate DeploymentSaysTrue(o: Object) {
    o.status.DeploymentStatus? && o.status.availableReplicas > 0 &&
    exists i :: 0 <= i < |o.status.deploymentConditions| &&
      o.status.deploymentConditions[i] == DeploymentCondition(DeploymentAvailable, ConditionTrue) &&
      forall j :: 0 <= j < i ==> o.status.deploymentConditions[j].kind != DeploymentAvailable
  }

  /** The first entry of the type, if there is one. */
  predicate FirstDeploymentEntry(cs: seq<DeploymentCondition>, i: nat, t: DeploymentConditionType) {
    i < |cs| && cs[i].kind == t && forall j :: 0 <= j < i ==> cs[j].kind != t
  }

  lemma {:induction false} StatusIsFirst(cs: seq<DeploymentCondition>, t: DeploymentConditionType,
                                         status: ConditionStatus)
    ensures DeploymentConditionStatus(cs, t) == Some(status) <==>
            exists i: nat :: FirstDeploymentEntry(cs, i, t) && cs[i].status == status
  {
    if cs == [] {
    } else if cs[0].kind == t {
      assert FirstDeploymentEntry(cs, 0, t);
    } else {
      StatusIsFirst(cs[1..], t, status);
      if i: nat :| FirstDeploymentEntry(cs[1..], i, t) && cs[1..][i].status == status {
        assert FirstDeploymentEntry(cs, i + 1, t) && cs[i + 1].status == status;
      }
      if i: nat :| FirstDeploymentEntry(cs, i, t) && cs[i].status == status {
        assert FirstDeploymentEntry(cs[1..], i - 1, t) && cs[1..][i - 1].status == status;
      }
    }
  }

  lemma DeploymentSaysExactly(o: Object)
    ensures DeploymentReportsAvailable(o) <==> DeploymentSaysTrue(o)
  {
    if o.status.DeploymentStatus? {
      var cs := o.status.deploymentConditions;
      StatusIsFirst(cs, DeploymentAvailable, ConditionTrue);
      if i: nat :| FirstDeploymentEntry(cs, i, DeploymentAvailable) && cs[i].status == ConditionTrue {
        assert cs[i] == DeploymentCondition(DeploymentAvailable, ConditionTrue);
      }
      if DeploymentSaysTrue(o) {
        var i :| 0 <= i < |cs| && cs[i] == DeploymentCondition(DeploymentAvailable, ConditionTrue) &&
          forall j :: 0 <= j < i ==> cs[j].kind != DeploymentAvailable;
        assert FirstDeploymentEntry(cs, i, DeploymentAvailable);
      }
    }
  }

  lemma EtcdSaysExactly(o: Object)
    ensures EtcdReportsAvailable(o) <==> EtcdSaysTrue(o)
  {
    if o.status.EtcdStatus? {
      var cs := o.status.conditions;
      var i := E.IndexOf(cs, E.Available);
      E.LookupIsIndexed(cs, E.Available);
      E.IndexIs(cs, E.Available, i);
      if i >= 0 {
        assert cs[i].kind == E.Available;
      }
    }
  }
}
