/** What a completed pass leaves in the objects that are not secrets, and whose objects
    they are. */
module Contents {
  import opened Base
  import opened Conditions
  import opened OwnerRefs
  import opened Pki
  import opened World
  import opened Settings
  import opened Pass
  import opened Steps
  import opened Rotation

  /** The object refers to its owner and, unless it is a secret, has the wanted spec. */
  ghost predicate Made(p: Params, w: World, images: Images, id: Id) {
    id in w.objects && p.owner in w.objects[id].meta.owners &&
    (!IsSecret(id) ==> MutateSpec(p, id, None, EMPTY_SECRET, images, 0, true) == Some(w.objects[id].spec))
  }

  lemma WrittenMade(p: Params, w: World, id: Id, ca: SecretValue, images: Images)
    requires CreateOrUpdate(p, w, id, ca, images).ok
    ensures Made(p, CreateOrUpdate(p, w, id, ca, images).world, images, id)
  {
    WrittenContent(p, w, id, ca, images);
    UpsertKeeps(if id in w.objects then w.objects[id].meta.owners else [], p.owner);
  }

  lemma {:induction false} EnsureAllMakes(p: Params, w: World, ids: seq<Id>, from: nat, ca: SecretValue, images: Images,
                                          id: Id)
    requires Consecutive(ids, from) && id in ids && EnsureAll(p, w, ids, ca, images).ok
    ensures Made(p, EnsureAll(p, w, ids, ca, images).world, images, id)
    decreases |ids|
  {
    var first := Ensure(p, w, ids[0], ca, images);
    if id == ids[0] {
      WrittenMade(p, Tick(p, w), id, ca, images);
      assert forall i :: 0 <= i < |ids[1..]| ==> Rank(ids[1..][i]) == from + 1 + i;
      assert id !in ids[1..];
      EnsureAllKeeps(p, first.world, ids[1..], ca, images, id);
    } else {
      EnsureAllMakes(p, first.world, ids[1..], from + 1, ca, images, id);
    }
  }

  /** The section's objects are made; all others are as before. */
  ghost predicate SectionMade(p: Params, w: World, r: World, ids: seq<Id>, images: Images) {
    (forall b :: b !in ids ==> Current(r, b) == Current(w, b)) && (forall id :: id in ids ==> Made(p, r, images, id))
  }

  lemma SectionMakes(p: Params, w: World, ids: seq<Id>, from: nat, images: Images)
    requires Consecutive(ids, from) && Section(p, w, ids, images).ok
    ensures SectionMade(p, w, Section(p, w, ids, images).world, ids, images)
  {
    var t := Tick(p, w);
    forall b | b !in ids ensures Current(EnsureAll(p, t, ids, CAOf(w), images).world, b) == Current(w, b) {
      EnsureAllKeeps(p, t, ids, CAOf(w), images, b);
    }
    forall id | id in ids ensures Made(p, EnsureAll(p, t, ids, CAOf(w), images).world, images, id) {
      EnsureAllMakes(p, t, ids, from, CAOf(w), images, id);
    }
  }

  /** The images an object is made with: the etcd objects need no release. */
  function ImagesFor(id: Id, images: Images): Images {
    if Rank(id) < FIRST_API_SERVER then map[] else images
  }

  ghost predicate AllMade(p: Params, w: World, images: Images) {
    forall id :: Made(p, w, ImagesFor(id, images), id)
  }

  lemma SameMade(p: Params, w: World, w': World, images: Images, id: Id)
    requires Made(p, w, images, id) && Current(w', id) == Current(w, id)
    ensures Made(p, w', images, id)
  {
  }

  lemma ThreeSectionsMake(p: Params, root: World, etcd: World, kas: World, kcm: World, images: Images)
    requires Made(p, root, map[], RootCA) && SectionMade(p, root, etcd, ETCD_OBJECTS, map[])
    requires SectionMade(p, etcd, kas, API_SERVER_OBJECTS, images)
    requires SectionMade(p, kas, kcm, CONTROLLER_MANAGER_OBJECTS, images)
    ensures AllMade(p, kcm, images)
  {
    forall id ensures Made(p, kcm, ImagesFor(id, images), id) {
      SectionRanks(id);
      RanksNumber();
      if id in CONTROLLER_MANAGER_OBJECTS {
      } else if id in API_SERVER_OBJECTS {
        SameMade(p, kas, kcm, images, id);
      } else if id in ETCD_OBJECTS {
        SameMade(p, etcd, kas, map[], id);
        SameMade(p, kas, kcm, map[], id);
      } else {
        assert Rank(id) == 0 && id == BRING_UP[0] == RootCA;
        SameMade(p, root, etcd, map[], id);
        SameMade(p, etcd, kas, map[], id);
        SameMade(p, kas, kcm, map[], id);
      }
    }
  }

  /** The images of the release: cached, or else looked up. */
  predicate IsRelease(p: Params, w: World, images: Images) {
    if w.releaseImage in w.cache then images == w.cache[w.releaseImage] else p.lookup(w.releaseImage) == Some(images)
  }

  lemma SameObjectsMade(p: Params, w: World, w': World, r: World, ids: seq<Id>, images: Images)
    requires w'.objects == w.objects && SectionMade(p, w', r, ids, images)
    ensures SectionMade(p, w, r, ids, images)
  {
    assert forall b :: Current(w', b) == Current(w, b);
  }

  lemma AfterAPIServerMakes(p: Params, root: World, etcd: World, kas: Progress, cs: seq<Condition>, images: Images)
    requires AfterAPIServer(p, kas, cs, images).outcome == Completed
    requires Made(p, root, map[], RootCA) && SectionMade(p, root, etcd, ETCD_OBJECTS, map[])
    requires SectionMade(p, etcd, kas.world, API_SERVER_OBJECTS, images)
    ensures AllMade(p, AfterAPIServer(p, kas, cs, images).world, images)
  {
    SectionsConsecutive();
    SectionMakes(p, kas.world, CONTROLLER_MANAGER_OBJECTS, 19, images);
    ThreeSectionsMake(p, root, etcd, kas.world, Section(p, kas.world, CONTROLLER_MANAGER_OBJECTS, images).world,
      images);
  }

  lemma AfterReleaseMakes(p: Params, root: World, etcd: World, release: Release, cs: seq<Condition>)
    requires AfterRelease(p, release, cs).outcome == Completed && release.world.objects == etcd.objects
    requires Made(p, root, map[], RootCA) && SectionMade(p, root, etcd, ETCD_OBJECTS, map[])
    ensures release.images.Some? && AllMade(p, AfterRelease(p, release, cs).world, release.images.value)
  {
    var images := release.images.value;
    var kas := Section(p, release.world, API_SERVER_OBJECTS, images);
    SectionsConsecutive();
    SectionMakes(p, release.world, API_SERVER_OBJECTS, 9, images);
    SameObjectsMade(p, etcd, release.world, kas.world, API_SERVER_OBJECTS, images);
    AfterAPIServerMakes(p, root, etcd, kas, cs, images);
  }

  lemma ReleaseIsRelease(p: Params, w: World)
    ensures var r := ReleaseImage(p, w); r.world.objects == w.objects && (r.images.Some? ==>
            IsRelease(p, w, r.images.value))
  {
  }

  lemma AfterEtcdMakes(p: Params, root: World, etcd: Progress, cs: seq<Condition>)
    requires AfterEtcd(p, etcd, cs).outcome == Completed
    requires Made(p, root, map[], RootCA) && SectionMade(p, root, etcd.world, ETCD_OBJECTS, map[])
    ensures exists images :: IsRelease(p, etcd.world, images) && AllMade(p, AfterEtcd(p, etcd, cs).world, images)
  {
    var release := ReleaseImage(p, etcd.world);
    ReleaseIsRelease(p, etcd.world);
    AfterReleaseMakes(p, root, etcd.world, release, cs);
    assert IsRelease(p, etcd.world, release.images.value);
  }

  lemma AfterRootMakes(p: Params, root: Progress, cs: seq<Condition>)
    requires AfterRoot(p, root, cs).outcome == Completed && Made(p, root.world, map[], RootCA)
    ensures exists images :: IsRelease(p, root.world, images) && AllMade(p, AfterRoot(p, root, cs).world, images)
  {
    var etcd := Section(p, root.world, ETCD_OBJECTS, map[]);
    SectionsConsecutive();
    SectionMakes(p, root.world, ETCD_OBJECTS, 1, map[]);
    SectionKeepsRelease(p, root.world, ETCD_OBJECTS, map[]);
    AfterEtcdMakes(p, root.world, etcd, cs);
    var images :| IsRelease(p, etcd.world, images) && AllMade(p, AfterEtcd(p, etcd, cs).world, images);
    assert IsRelease(p, root.world, images);
  }

  lemma {:induction false} EnsureAllKeepsRelease(p: Params, w: World, ids: seq<Id>, ca: SecretValue, images: Images)
    ensures SameRelease(w, EnsureAll(p, w, ids, ca, images).world)
    decreases |ids|
  {
    if ids != [] {
      EnsureKeeps(p, w, ids[0], ca, images);
      EnsureAllKeepsRelease(p, Ensure(p, w, ids[0], ca, images).world, ids[1..], ca, images);
    }
  }

  lemma SectionKeepsRelease(p: Params, w: World, ids: seq<Id>, images: Images)
    ensures SameRelease(w, Section(p, w, ids, images).world)
  {
    EnsureAllKeepsRelease(p, Tick(p, w), ids, CAOf(w), images);
  }

  lemma CompletedPassMakes(p: Params, w: World)
    requires Reconcile(p, w).outcome == Completed
    ensures exists images :: IsRelease(p, w, images) && AllMade(p, Reconcile(p, w).world, images)
  {
    var s := StatusPhase(p, Tick(p, w), w.conditions);
    var root := CreateOrUpdate(p, s.world, RootCA, EMPTY_SECRET, map[]);
    StatusKeepsRelease(p, Tick(p, w), w.conditions);
    CreateOrUpdateKeeps(p, s.world, RootCA, EMPTY_SECRET, map[]);
    WrittenMade(p, s.world, RootCA, EMPTY_SECRET, map[]);
    AfterRootMakes(p, root, s.conditions);
  }

  // ----- the contents in full -----

  function Image(images: Images, name: string): string {
    if name in images then images[name] else ""
  }

  /** The specs of the objects that are not secrets. */
  ghost predicate StandardSpecs(w: World, images: Images) {
    (forall id :: id in w.objects) &&
    w.objects[EtcdCluster].spec == EtcdSpec(1, "3.4.9") &&
    w.objects[Deployment(EtcdOperator)].spec == DeploymentSpec(["quay.io/coreos/etcd-operator:v0.9.4"], 1) &&
    w.objects[Deployment(KubeAPIServer)].spec ==
      DeploymentSpec([Image(images, "cluster-config-operator"), Image(images, "cli"), Image(images, "hyperkube")], 1) &&
    w.objects[Deployment(KubeControllerManager)].spec == DeploymentSpec([Image(images, "hyperkube")], 1) &&
    forall m :: w.objects[Manifest(m)].spec == ManifestSpec(m)
  }

  lemma MadeStandard(p: Params, w: World, images: Images, namespace: string, service: string, uid: nat)
    requires Standard(p, namespace, service, uid) && AllMade(p, w, images)
    ensures StandardSpecs(w, images)
  {
    forall id ensures id in w.objects {
      assert Made(p, w, ImagesFor(id, images), id);
    }
    assert Made(p, w, ImagesFor(EtcdCluster, images), EtcdCluster);
    forall name ensures w.objects[Deployment(name)].spec == DeploymentSpec(DeploymentImages(name, images), 1) {
      assert Made(p, w, ImagesFor(Deployment(name), images), Deployment(name));
    }
    forall m ensures w.objects[Manifest(m)].spec == ManifestSpec(m) {
      assert Made(p, w, ImagesFor(Manifest(m), images), Manifest(m));
    }
  }

  /** A pass that completes leaves all 22 objects with a reference to the service, an etcd
      cluster of one member in the operator's version, three deployments of one replica
      with the images of the release, and the fixed manifests. */
  lemma CompletedPassContents(p: Params, w: World, namespace: string, service: string, uid: nat)
    requires Standard(p, namespace, service, uid) && Reconcile(p, w).outcome == Completed
    ensures exists images :: IsRelease(p, w, images) && StandardSpecs(Reconcile(p, w).world, images)
    ensures var owner := OwnerReference("hypershiftlite.openshift.io/v1alpha1", "KubernetesService", service, uid,
            true);
            forall id :: id in Reconcile(p, w).world.objects && owner in Reconcile(p, w).world.objects[id].meta.owners
  {
    CompletedPassMakes(p, w);
    var images :| IsRelease(p, w, images) && AllMade(p, Reconcile(p, w).world, images);
    MadeStandard(p, Reconcile(p, w).world, images, namespace, service, uid);
    forall id
      ensures id in Reconcile(p, w).world.objects && p.owner in Reconcile(p, w).world.objects[id].meta.owners
    {
      assert Made(p, Reconcile(p, w).world, ImagesFor(id, images), id);
    }
  }
}
