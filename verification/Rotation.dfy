/** Certificate rotation: when a pass completes, that it then leaves every secret up
    to date, and that nothing is written to any secret afterwards. */
module Rotation {
  import opened Base
  import opened Conditions
  import opened OwnerRefs
  import opened Pki
  import opened World
  import opened Pass
  import opened Reports
  import opened Steps
  import opened Runs
  import opened Certificates

  // ----- a completed pass leaves fixpoints -----

  /** Reconciling the object again changes nothing, whatever the nonce and images. */
  ghost predicate Fixed(p: Params, id: Id, o: Object, ca: SecretValue) {
    forall images, nonce, generated :: Mutate(p, id, Some(o), ca, images, nonce, generated) == Some(ContentOf(o))
  }

  lemma MutateSecretFixed(p: Params, id: Id, s: SecretValue, ca: SecretValue,
                          nonce: nat, generated: bool, nonce': nat, generated': bool)
    requires IsSecret(id) && MutateSecret(p, id, s, ca, nonce, generated).Some?
    ensures var r := MutateSecret(p, id, s, ca, nonce, generated).value;
            MutateSecret(p, id, r, ca, nonce', generated') == Some(r)
  {
    if id.LeafSecret? {
      ReconcileLeafResult(p.config, id.leaf, s, ca, nonce, generated);
      var r := ReconcileLeaf(p.config, id.leaf, s, ca, nonce, generated).value;
      ReconcileLeafFixpoint(p.config, id.leaf, r, ca, nonce', generated');
    }
  }

  lemma WrittenFixed(p: Params, id: Id, prior: Option<Object>, ca: SecretValue, images: Images,
                     nonce: nat, generated: bool, o: Object)
    requires IsSecret(id) && Parseable(p.owner)
    requires Mutate(p, id, prior, ca, images, nonce, generated) == Some(ContentOf(o))
    ensures Fixed(p, id, o, ca)
  {
    var refs := if prior.Some? then prior.value.meta.owners else [];
    var s := if prior.Some? then SecretOf(prior.value) else EMPTY_SECRET;
    UpsertIdempotent(refs, p.owner);
    forall images', nonce', generated'
      ensures Mutate(p, id, Some(o), ca, images', nonce', generated') == Some(ContentOf(o))
    {
      MutateSecretFixed(p, id, s, ca, nonce, generated, nonce', generated');
    }
  }

  /** A successful CreateOrUpdate leaves the object with the mutated content. */
  lemma WrittenContent(p: Params, w: World, id: Id, ca: SecretValue, images: Images)
    requires CreateOrUpdate(p, w, id, ca, images).ok
    ensures var r := CreateOrUpdate(p, w, id, ca, images);
            id in r.world.objects &&
            Mutate(p, id, Current(w, id), ca, images, w.calls + 1, Answered(p, Tick(p, w)))
              == Some(ContentOf(r.world.objects[id]))
  {
  }

  lemma EnsureFixes(p: Params, w: World, id: Id, ca: SecretValue, images: Images)
    requires IsSecret(id) && Parseable(p.owner) && Ensure(p, w, id, ca, images).ok
    ensures var r := Ensure(p, w, id, ca, images); id in r.world.objects && Fixed(p, id, r.world.objects[id], ca)
  {
    var t := Tick(p, w);
    WrittenContent(p, t, id, ca, images);
    WrittenFixed(p, id, Current(t, id), ca, images, t.calls + 1, Answered(p, Tick(p, t)),
                 Ensure(p, w, id, ca, images).world.objects[id]);
  }

  lemma EnsureKeeps(p: Params, w: World, id: Id, ca: SecretValue, images: Images)
    ensures Kept(w, Ensure(p, w, id, ca, images).world, id)
  {
    CreateOrUpdateKeeps(p, Tick(p, w), id, ca, images);
  }

  /** Objects outside a section are not touched by it. */
  lemma {:induction false} EnsureAllKeeps(p: Params, w: World, ids: seq<Id>, ca: SecretValue, images: Images, b: Id)
    requires b !in ids
    ensures Current(EnsureAll(p, w, ids, ca, images).world, b) == Current(w, b)
    decreases |ids|
  {
    if ids != [] {
      EnsureKeeps(p, w, ids[0], ca, images);
      var first := Ensure(p, w, ids[0], ca, images);
      if first.ok {
        EnsureAllKeeps(p, first.world, ids[1..], ca, images, b);
      }
    }
  }

  lemma {:induction false} EnsureAllFixes(p: Params, w: World, ids: seq<Id>, from: nat, ca: SecretValue,
                                          images: Images, id: Id)
    requires Consecutive(ids, from) && id in ids && IsSecret(id) && Parseable(p.owner)
    requires EnsureAll(p, w, ids, ca, images).ok
    ensures var r := EnsureAll(p, w, ids, ca, images); id in r.world.objects && Fixed(p, id, r.world.objects[id], ca)
    decreases |ids|
  {
    var first := Ensure(p, w, ids[0], ca, images);
    if id == ids[0] {
      EnsureFixes(p, w, id, ca, images);
      assert forall i :: 0 <= i < |ids[1..]| ==> Rank(ids[1..][i]) == from + 1 + i;
      assert id !in ids[1..];
      EnsureAllKeeps(p, first.world, ids[1..], ca, images, id);
    } else {
      EnsureAllFixes(p, first.world, ids[1..], from + 1, ca, images, id);
    }
  }

  /** The section's secrets are fixed against the root CA it read; all other objects,
      the root CA among them, are as before. */
  ghost predicate SectionDone(p: Params, w: World, r: World, ids: seq<Id>) {
    && RootCA in w.objects && RootCA !in ids
    && (forall b :: b in w.objects && b !in ids ==> b in r.objects && r.objects[b] == w.objects[b])
    && (forall id :: id in ids && IsSecret(id) ==> id in r.objects && Fixed(p, id, r.objects[id], CAOf(w)))
  }

  lemma SectionFixes(p: Params, w: World, ids: seq<Id>, from: nat, images: Images)
    requires Consecutive(ids, from) && Parseable(p.owner) && Section(p, w, ids, images).ok
    ensures SectionDone(p, w, Section(p, w, ids, images).world, ids)
  {
    var t := Tick(p, w);
    forall b | b in w.objects && b !in ids
      ensures b in EnsureAll(p, t, ids, CAOf(w), images).world.objects
      ensures EnsureAll(p, t, ids, CAOf(w), images).world.objects[b] == w.objects[b]
    {
      EnsureAllKeeps(p, t, ids, CAOf(w), images, b);
    }
    forall id | id in ids && IsSecret(id)
      ensures id in EnsureAll(p, t, ids, CAOf(w), images).world.objects
      ensures Fixed(p, id, EnsureAll(p, t, ids, CAOf(w), images).world.objects[id], CAOf(w))
    {
      EnsureAllFixes(p, t, ids, from, CAOf(w), images, id);
    }
  }

  /** All ten secrets exist and are fixpoints against the stored root CA. */
  ghost predicate AllFixed(p: Params, w: World) {
    forall id :: IsSecret(id) ==> id in w.objects && Fixed(p, id, w.objects[id], CAOf(w))
  }

  lemma SecretSection(id: Id)
    requires IsSecret(id)
    ensures id == RootCA || id in ETCD_OBJECTS || id in API_SERVER_OBJECTS || id in CONTROLLER_MANAGER_OBJECTS
    ensures !(id in ETCD_OBJECTS && id in API_SERVER_OBJECTS)
    ensures !(id in ETCD_OBJECTS && id in CONTROLLER_MANAGER_OBJECTS)
    ensures !(id in API_SERVER_OBJECTS && id in CONTROLLER_MANAGER_OBJECTS)
    ensures RootCA !in ETCD_OBJECTS && RootCA !in API_SERVER_OBJECTS && RootCA !in CONTROLLER_MANAGER_OBJECTS
  {
    SectionRanks(id);
    SectionRanks(RootCA);
  }

  lemma RootFixes(p: Params, w: World)
    requires Parseable(p.owner) && CreateOrUpdate(p, w, RootCA, EMPTY_SECRET, map[]).ok
    ensures var r := CreateOrUpdate(p, w, RootCA, EMPTY_SECRET, map[]).world;
            RootCA in r.objects && Fixed(p, RootCA, r.objects[RootCA], CAOf(r))
  {
    var r := CreateOrUpdate(p, w, RootCA, EMPTY_SECRET, map[]).world;
    WrittenContent(p, w, RootCA, EMPTY_SECRET, map[]);
    WrittenFixed(p, RootCA, Current(w, RootCA), EMPTY_SECRET, map[],
                 w.calls + 1, Answered(p, Tick(p, w)), r.objects[RootCA]);
    forall images, nonce, generated
      ensures Mutate(p, RootCA, Some(r.objects[RootCA]), CAOf(r), images, nonce, generated)
              == Some(ContentOf(r.objects[RootCA]))
    {
      RootNeedsNoCA(p, Some(r.objects[RootCA]), CAOf(r), images, nonce, generated);
    }
  }

  /** The secrets fixed so far stay fixed through the next section. */
  lemma ThreeSectionsFix(p: Params, root: World, etcd: World, kas: World, kcm: World)
    requires RootCA in root.objects && Fixed(p, RootCA, root.objects[RootCA], CAOf(root))
    requires SectionDone(p, root, etcd, ETCD_OBJECTS) && SectionDone(p, etcd, kas, API_SERVER_OBJECTS)
    requires SectionDone(p, kas, kcm, CONTROLLER_MANAGER_OBJECTS)
    ensures AllFixed(p, kcm)
  {
    assert CAOf(etcd) == CAOf(root) && CAOf(kas) == CAOf(root) && CAOf(kcm) == CAOf(root);
    forall id | IsSecret(id) ensures id in kcm.objects && Fixed(p, id, kcm.objects[id], CAOf(kcm)) {
      SecretSection(id);
      if id in ETCD_OBJECTS {
        assert kas.objects[id] == etcd.objects[id] && kcm.objects[id] == etcd.objects[id];
      } else if id in API_SERVER_OBJECTS {
        assert kcm.objects[id] == kas.objects[id];
      } else if id == RootCA {
        assert kcm.objects[id] == root.objects[id];
      }
    }
  }

  lemma SameObjectsDone(p: Params, w: World, w': World, r: World, ids: seq<Id>)
    requires w'.objects == w.objects && SectionDone(p, w', r, ids)
    ensures SectionDone(p, w, r, ids)
  {
    assert CAOf(w) == CAOf(w');
  }

  lemma AfterAPIServerFixes(p: Params, root: World, etcd: World, kas: Progress, cs: seq<Condition>, images: Images)
    requires Parseable(p.owner) && AfterAPIServer(p, kas, cs, images).outcome == Completed
    requires RootCA in root.objects && Fixed(p, RootCA, root.objects[RootCA], CAOf(root))
    requires SectionDone(p, root, etcd, ETCD_OBJECTS) && SectionDone(p, etcd, kas.world, API_SERVER_OBJECTS)
    ensures AllFixed(p, AfterAPIServer(p, kas, cs, images).world)
  {
    SectionsConsecutive();
    SectionFixes(p, kas.world, CONTROLLER_MANAGER_OBJECTS, 19, images);
    ThreeSectionsFix(p, root, etcd, kas.world, Section(p, kas.world, CONTROLLER_MANAGER_OBJECTS, images).world);
  }

  lemma AfterReleaseFixes(p: Params, root: World, etcd: World, release: Release, cs: seq<Condition>)
    requires Parseable(p.owner) && AfterRelease(p, release, cs).outcome == Completed
    requires release.world.objects == etcd.objects
    requires RootCA in root.objects && Fixed(p, RootCA, root.objects[RootCA], CAOf(root))
    requires SectionDone(p, root, etcd, ETCD_OBJECTS)
    ensures AllFixed(p, AfterRelease(p, release, cs).world)
  {
    var kas := Section(p, release.world, API_SERVER_OBJECTS, release.images.value);
    SectionsConsecutive();
    SectionFixes(p, release.world, API_SERVER_OBJECTS, 9, release.images.value);
    SameObjectsDone(p, etcd, release.world, kas.world, API_SERVER_OBJECTS);
    AfterAPIServerFixes(p, root, etcd, kas, cs, release.images.value);
  }

  /** The release is cached or can be looked up. */
  predicate ReleaseKnown(p: Params, w: World) {
    w.releaseImage in w.cache || p.lookup(w.releaseImage).Some?
  }

  lemma ReleaseKeepsObjects(p: Params, w: World)
    ensures ReleaseImage(p, w).world.objects == w.objects && ReleaseImage(p, w).world.calls >= w.calls
    ensures AllAnswered(p, w.calls) ==> (ReleaseImage(p, w).images.Some? <==> ReleaseKnown(p, w))
  {
  }

  lemma AfterRootFixes(p: Params, root: Progress, cs: seq<Condition>)
    requires Parseable(p.owner) && AfterRoot(p, root, cs).outcome == Completed
    requires RootCA in root.world.objects && Fixed(p, RootCA, root.world.objects[RootCA], CAOf(root.world))
    ensures AllFixed(p, AfterRoot(p, root, cs).world)
  {
    var etcd := Section(p, root.world, ETCD_OBJECTS, map[]);
    SectionsConsecutive();
    SectionFixes(p, root.world, ETCD_OBJECTS, 1, map[]);
    ReleaseKeepsObjects(p, etcd.world);
    AfterReleaseFixes(p, root.world, etcd.world, ReleaseImage(p, etcd.world), cs);
  }

  lemma AfterStatusFixes(p: Params, r: Phase)
    requires Parseable(p.owner) && AfterStatus(p, r).outcome == Completed
    ensures AllFixed(p, AfterStatus(p, r).world)
  {
    RootFixes(p, r.world);
    AfterRootFixes(p, CreateOrUpdate(p, r.world, RootCA, EMPTY_SECRET, map[]), r.conditions);
  }

  lemma FixedUpToDate(p: Params, w: World, leaf: Leaf)
    requires AllFixed(p, w)
    ensures RootValid(w) && LeafUpToDate(p.config, leaf, SecretAt(w, LeafSecret(leaf)), CAOf(w))
  {
    assert IsSecret(LeafSecret(leaf)) && IsSecret(RootCA);
    var s := SecretAt(w, LeafSecret(leaf));
    assert Mutate(p, LeafSecret(leaf), Some(w.objects[LeafSecret(leaf)]), CAOf(w), map[], 0, true)
        == Some(ContentOf(w.objects[LeafSecret(leaf)]));
    assert ReconcileLeaf(p.config, leaf, s, CAOf(w), 0, true).Some?;
    ReconcileLeafResult(p.config, leaf, s, CAOf(w), 0, true);
  }

  lemma AllUpToDate(p: Params, w: World)
    requires AllFixed(p, w)
    ensures RootValid(w) && forall leaf :: LeafUpToDate(p.config, leaf, SecretAt(w, LeafSecret(leaf)), CAOf(w))
  {
    FixedUpToDate(p, w, EtcdClient);
    forall leaf ensures LeafUpToDate(p.config, leaf, SecretAt(w, LeafSecret(leaf)), CAOf(w)) {
      FixedUpToDate(p, w, leaf);
    }
  }

  lemma FixedSigningKey(p: Params, w: World)
    requires AllFixed(p, w)
    ensures ServiceAccountKey in SecretAt(w, SigningKey).data && ServiceAccountPub in SecretAt(w, SigningKey).data
  {
    assert IsSecret(SigningKey);
    var s := SecretAt(w, SigningKey);
    assert Mutate(p, SigningKey, Some(w.objects[SigningKey]), CAOf(w), map[], 0, true)
        == Some(ContentOf(w.objects[SigningKey]));
    assert ReconcileSigningKey(s, 0, true) == Some(s);
    SigningKeyCompleted(s, 0, true);
  }

  /** From any store whatever, a pass that completes leaves a valid root CA, all eight
      signed secrets up to date against it and both halves of the service-account key. */
  lemma CompletedPassRotates(p: Params, w: World)
    requires Parseable(p.owner) && Reconcile(p, w).outcome == Completed
    ensures AllFixed(p, Reconcile(p, w).world) && RootValid(Reconcile(p, w).world)
    ensures var w' := Reconcile(p, w).world;
            && (forall leaf :: LeafUpToDate(p.config, leaf, SecretAt(w', LeafSecret(leaf)), CAOf(w')))
            && ServiceAccountKey in SecretAt(w', SigningKey).data && ServiceAccountPub in SecretAt(w', SigningKey).data
  {
    AfterStatusFixes(p, StatusPhase(p, Tick(p, w), w.conditions));
    var w' := Reconcile(p, w).world;
    assert AllFixed(p, w');
    AllUpToDate(p, w');
    FixedSigningKey(p, w');
  }

  /** A pass that completes leaves all 22 objects of the bring-up in place. */
  lemma CompletedPassBringsUpAll(p: Params, w: World)
    requires Reconcile(p, w).outcome == Completed
    ensures forall id :: id in BRING_UP && id in Reconcile(p, w).world.objects
  {
    var always := (x: World) => true;
    var s := StatusPhase(p, Tick(p, w), w.conditions);
    StatusPhasePreserves(p, always, Tick(p, w), w.conditions);
    AfterStatusPreserves(p, always, s);
    assert PrefixExists(AfterStatus(p, s).world, |BRING_UP|);
    forall id ensures id in BRING_UP && Rank(id) < |BRING_UP| {
      RanksNumber();
      assert BRING_UP[Rank(id)] == id;
    }
  }

  // ----- the settled namespace -----

  /** The secrets of w are in w' with not even a revision more. */
  ghost predicate Unwritten(w: World, w': World) {
    forall id :: IsSecret(id) ==> id in w'.objects && id in w.objects && w'.objects[id] == w.objects[id]
  }

  /** In a settled namespace no permitted step writes a secret. */
  lemma NoSecretWrite(p: Params, w: World, x: World, s: Step)
    requires AllFixed(p, w) && Unwritten(w, x) && s.PutObject? && IsSecret(s.id)
    ensures !Permitted(p, x, s)
  {
    assert IsSecret(RootCA);
    assert CAOf(x) == CAOf(w) && Current(x, s.id) == Some(w.objects[s.id]);
    assert Fixed(p, s.id, w.objects[s.id], CAOf(w));
  }

  lemma UnwrittenStep(p: Params, w: World, x: World, s: Step)
    requires AllFixed(p, w) && Unwritten(w, x) && Permitted(p, x, s)
    ensures Unwritten(w, Effect(p, x, s))
  {
    if s.PutObject? && IsSecret(s.id) {
      NoSecretWrite(p, w, x, s);
    }
  }

  lemma UnwrittenPass(p: Params, w: World, x: World)
    requires AllFixed(p, w) && Unwritten(w, x)
    ensures Unwritten(w, Reconcile(p, x).world)
  {
    var P := y => Unwritten(w, y);
    forall y, s | P(y) && Permitted(p, y, s) ensures P(Effect(p, y, s)) {
      UnwrittenStep(p, w, y, s);
    }
    PassPreserves(p, P, x);
  }

  lemma UnwrittenEnvironment(p: Params, w: World, x: World, a: Action)
    requires Unwritten(w, x) && !a.RunPass? && !Outside(a)
    requires forall id :: IsSecret(id) && id in w.objects ==> w.objects[id].meta.deletedAt.None?
    ensures Unwritten(w, Next(p, x, a))
  {
  }

  /** After a completed pass, no later pass of any run without outside edits, failing or
      not, writes any secret: root CA, leaves and signing key keep even their revision. */
  lemma {:induction false} SettledForever(p: Params, ws: seq<World>, acts: seq<Action>, i: nat)
    requires IsRun(p, ws, acts) && Quiet(acts) && i < |ws| && AllFixed(p, ws[0])
    requires forall id :: IsSecret(id) && id in ws[0].objects ==> ws[0].objects[id].meta.deletedAt.None?
    ensures Unwritten(ws[0], ws[i])
  {
    if i > 0 {
      SettledForever(p, ws, acts, i - 1);
      if acts[i - 1].RunPass? {
        UnwrittenPass(p, ws[0], ws[i - 1]);
      } else {
        UnwrittenEnvironment(p, ws[0], ws[i - 1], acts[i - 1]);
      }
    }
  }

  // ----- when a pass completes -----

  ghost predicate AllAnswered(p: Params, from: nat) {
    forall n :: n >= from ==> p.fate(n) == Done
  }

  /** The leaf can be reconciled: the CA has both keys, and can sign unless the leaf is
      up to date already. */
  predicate Signable(p: Params, w: World, id: Id, ca: SecretValue) {
    id.LeafSecret? ==> ValidCA(ca) && (LeafUpToDate(p.config, id.leaf, SecretAt(w, id), ca) || CanSign(PairOf(ca)))
  }

  lemma MutationSucceeds(p: Params, w: World, id: Id, ca: SecretValue, images: Images, nonce: nat)
    ensures Mutate(p, id, Current(w, id), ca, images, nonce, true).Some? <==> Signable(p, w, id, ca)
  {
  }

  /** When every call is answered, a write or the lack of one succeeds. */
  lemma WriteSucceeds(p: Params, w: World, id: Id, desired: Option<Content>)
    requires AllAnswered(p, w.calls)
    ensures WriteChanged(p, w, id, desired).ok <==> desired.Some?
    ensures WriteChanged(p, w, id, desired).world.calls >= w.calls
  {
    assert Answered(p, w);
  }

  lemma EnsureSucceeds(p: Params, w: World, id: Id, ca: SecretValue, images: Images)
    requires AllAnswered(p, w.calls)
    ensures Ensure(p, w, id, ca, images).ok <==> Signable(p, w, id, ca)
    ensures Ensure(p, w, id, ca, images).world.calls >= w.calls
  {
    var t := Tick(p, w);
    var got := Tick(p, t);
    assert Answered(p, w) && Answered(p, t) && Answered(p, got);
    MutationSucceeds(p, t, id, ca, images, got.calls);
    WriteSucceeds(p, Tick(p, got), id, Mutate(p, id, Current(t, id), ca, images, got.calls, true));
    assert Signable(p, t, id, ca) <==> Signable(p, w, id, ca);
  }

  ghost predicate AllSignable(p: Params, w: World, ids: seq<Id>, ca: SecretValue) {
    forall i :: 0 <= i < |ids| ==> Signable(p, w, ids[i], ca)
  }

  /** Writing the first object leaves the secrets of the others as they were. */
  lemma FirstKeepsRest(p: Params, w: World, ids: seq<Id>, from: nat, ca: SecretValue, images: Images)
    requires Consecutive(ids, from) && ids != []
    ensures var w' := Ensure(p, w, ids[0], ca, images).world;
            forall i :: 0 < i < |ids| ==> SecretAt(w', ids[i]) == SecretAt(w, ids[i])
  {
    EnsureKeeps(p, w, ids[0], ca, images);
    forall i | 0 < i < |ids| ensures ids[i] != ids[0] {
      assert Rank(ids[i]) != Rank(ids[0]);
    }
  }

  /** With every call answered, a sequence of objects succeeds exactly when each was
      signable to begin with. */
  lemma {:induction false} EnsureAllSucceeds(p: Params, w: World, ids: seq<Id>, from: nat, ca: SecretValue,
                                             images: Images)
    requires AllAnswered(p, w.calls) && Consecutive(ids, from)
    ensures EnsureAll(p, w, ids, ca, images).ok <==> AllSignable(p, w, ids, ca)
    ensures EnsureAll(p, w, ids, ca, images).world.calls >= w.calls
    ensures SameRelease(w, EnsureAll(p, w, ids, ca, images).world)
    decreases |ids|
  {
    if ids != [] {
      var first := Ensure(p, w, ids[0], ca, images);
      EnsureSucceeds(p, w, ids[0], ca, images);
      EnsureKeeps(p, w, ids[0], ca, images);
      FirstKeepsRest(p, w, ids, from, ca, images);
      if first.ok {
        EnsureAllSucceeds(p, first.world, ids[1..], from + 1, ca, images);
        TailSignable(p, w, first.world, ids, ca);
      }
    }
  }

  lemma TailSignable(p: Params, w: World, w': World, ids: seq<Id>, ca: SecretValue)
    requires ids != [] && Signable(p, w, ids[0], ca)
    requires forall i :: 0 < i < |ids| ==> SecretAt(w', ids[i]) == SecretAt(w, ids[i])
    ensures AllSignable(p, w, ids, ca) <==> AllSignable(p, w', ids[1..], ca)
  {
    if AllSignable(p, w', ids[1..], ca) {
      forall i | 0 <= i < |ids| ensures Signable(p, w, ids[i], ca) {
        if i > 0 {
          assert Signable(p, w', ids[1..][i - 1], ca);
        }
      }
    }
  }

  lemma SectionSucceeds(p: Params, w: World, ids: seq<Id>, from: nat, images: Images)
    requires AllAnswered(p, w.calls) && Consecutive(ids, from) && RootCA in w.objects
    ensures var r := Section(p, w, ids, images);
            (r.ok <==> AllSignable(p, w, ids, CAOf(w))) && r.world.calls >= w.calls &&
            RootCA in r.world.objects && SameRelease(w, r.world) &&
            forall b :: b !in ids ==> SecretAt(r.world, b) == SecretAt(w, b)
  {
    var t := Tick(p, w);
    assert Answered(p, w);
    EnsureAllSucceeds(p, t, ids, from, CAOf(w), images);
    assert AllSignable(p, t, ids, CAOf(w)) <==> AllSignable(p, w, ids, CAOf(w));
    forall b | b !in ids ensures SecretAt(EnsureAll(p, t, ids, CAOf(w), images).world, b) == SecretAt(w, b) {
      EnsureAllKeeps(p, t, ids, CAOf(w), images, b);
    }
    assert Rank(RootCA) == 0 && RootCA !in ids;
    EnsureAllKeeps(p, t, ids, CAOf(w), images, RootCA);
  }

  /** The stored root CA can serve the leaves: it will be generated anew, or has both
      keys and either can sign or is not needed because every leaf is up to date. */
  ghost predicate RootServes(p: Params, w: World) {
    var ca := CAOf(w);
    CaKey !in ca.data ||
    (CaCrt in ca.data &&
     (CanSign(PairOf(ca)) || forall leaf :: LeafUpToDate(p.config, leaf, SecretAt(w, LeafSecret(leaf)), ca)))
  }

  /** In every run from a store without a root CA, outside edits included, the root CA
      fails to serve exactly when ca.key is stored without ca.crt. */
  lemma ServesInRuns(p: Params, ws: seq<World>, acts: seq<Action>, i: nat)
    requires IsRun(p, ws, acts) && i < |ws| && RootCA !in ws[0].objects
    ensures RootServes(p, ws[i]) <==> !(CaKey in CAOf(ws[i]).data && CaCrt !in CAOf(ws[i]).data)
  {
    if RootValid(ws[i]) {
      RootIsOneGeneration(p, ws, acts, i);
    }
  }

  /** What the root CA step leaves when every call is answered. */
  ghost predicate RootStep(w: World, r: Progress) {
    r.ok && r.world.calls >= w.calls && RootCA in r.world.objects && SameRelease(w, r.world) &&
    (forall b :: b != RootCA ==> SecretAt(r.world, b) == SecretAt(w, b)) &&
    (CaKey in CAOf(w).data ==> CAOf(r.world).data == CAOf(w).data) &&
    (CaKey !in CAOf(w).data ==> ValidCA(CAOf(r.world)) && CanSign(PairOf(CAOf(r.world))))
  }

  /** The root CA step succeeds. */
  lemma RootAnswered(p: Params, w: World)
    requires AllAnswered(p, w.calls)
    ensures var r := CreateOrUpdate(p, w, RootCA, EMPTY_SECRET, map[]); r.ok && r.world.calls >= w.calls
  {
    var got := Tick(p, w);
    assert Answered(p, w) && Answered(p, got);
    MutationSucceeds(p, w, RootCA, EMPTY_SECRET, map[], got.calls);
    WriteSucceeds(p, Tick(p, got), RootCA, Mutate(p, RootCA, Current(w, RootCA), EMPTY_SECRET, map[], got.calls, true));
  }

  lemma RootContent(p: Params, w: World, r: World, nonce: nat)
    requires RootCA in r.objects
    requires Mutate(p, RootCA, Current(w, RootCA), EMPTY_SECRET, map[], nonce, true)
          == Some(ContentOf(r.objects[RootCA]))
    ensures CaKey in CAOf(w).data ==> CAOf(r).data == CAOf(w).data
    ensures CaKey !in CAOf(w).data ==> ValidCA(CAOf(r)) && CanSign(PairOf(CAOf(r)))
  {
    RootCAValidity(p.config, CAOf(w), nonce, true);
  }

  lemma RootSucceeds(p: Params, w: World)
    requires AllAnswered(p, w.calls)
    ensures RootStep(w, CreateOrUpdate(p, w, RootCA, EMPTY_SECRET, map[]))
  {
    RootAnswered(p, w);
    CreateOrUpdateKeeps(p, w, RootCA, EMPTY_SECRET, map[]);
    WrittenContent(p, w, RootCA, EMPTY_SECRET, map[]);
    RootContent(p, w, CreateOrUpdate(p, w, RootCA, EMPTY_SECRET, map[]).world, w.calls + 1);
  }

  /** A leaf's chances depend on its secret and the CA's data only. */
  lemma SignableAgain(p: Params, w: World, w': World, ids: seq<Id>, ca: SecretValue, ca': SecretValue)
    requires ca'.data == ca.data && forall i :: 0 <= i < |ids| ==> SecretAt(w', ids[i]) == SecretAt(w, ids[i])
    ensures AllSignable(p, w, ids, ca) <==> AllSignable(p, w', ids, ca')
  {
  }

  lemma ServesExactly(p: Params, w: World, ca: SecretValue)
    requires CaKey in CAOf(w).data ==> ca.data == CAOf(w).data
    requires CaKey !in CAOf(w).data ==> ValidCA(ca) && CanSign(PairOf(ca))
    ensures RootServes(p, w) <==>
            AllSignable(p, w, ETCD_OBJECTS, ca) && AllSignable(p, w, API_SERVER_OBJECTS, ca) &&
            AllSignable(p, w, CONTROLLER_MANAGER_OBJECTS, ca)
  {
    if RootServes(p, w) {
      forall id: Id ensures Signable(p, w, id, ca) {
      }
    } else {
      assert !CanSign(PairOf(ca)) || !ValidCA(ca);
      var leaf :| !ValidCA(ca) || !LeafUpToDate(p.config, leaf, SecretAt(w, LeafSecret(leaf)), ca);
      var id := LeafSecret(leaf);
      assert !Signable(p, w, id, ca);
      SecretSection(id);
    }
  }

  lemma SectionsApart()
    ensures forall id :: id in API_SERVER_OBJECTS ==> id !in ETCD_OBJECTS && id != RootCA
    ensures forall id :: id in CONTROLLER_MANAGER_OBJECTS ==>
              id !in ETCD_OBJECTS && id !in API_SERVER_OBJECTS && id != RootCA
    ensures forall id :: id in ETCD_OBJECTS ==> id != RootCA
    ensures RootCA !in ETCD_OBJECTS && RootCA !in API_SERVER_OBJECTS
  {
    forall id ensures id in ETCD_OBJECTS <==> 1 <= Rank(id) < 9
              ensures id in API_SERVER_OBJECTS <==> 9 <= Rank(id) < 19
              ensures id in CONTROLLER_MANAGER_OBJECTS <==> 19 <= Rank(id)
    {
      SectionRanks(id);
    }
  }

  lemma AfterAPIServerCompletes(p: Params, kas: Progress, cs: seq<Condition>, images: Images)
    requires AllAnswered(p, kas.world.calls) && RootCA in kas.world.objects
    ensures AfterAPIServer(p, kas, cs, images).outcome == Completed <==>
            kas.ok && IsTrue(cs, KubeAPIServerAvailable) &&
            AllSignable(p, kas.world, CONTROLLER_MANAGER_OBJECTS, CAOf(kas.world))
  {
    SectionsConsecutive();
    SectionSucceeds(p, kas.world, CONTROLLER_MANAGER_OBJECTS, 19, images);
  }

  lemma AfterReleaseCompletes(p: Params, release: Release, cs: seq<Condition>)
    requires AllAnswered(p, release.world.calls) && RootCA in release.world.objects
    ensures AfterRelease(p, release, cs).outcome == Completed <==>
            release.images.Some? && IsTrue(cs, KubeAPIServerAvailable) &&
            AllSignable(p, release.world, API_SERVER_OBJECTS, CAOf(release.world)) &&
            AllSignable(p, release.world, CONTROLLER_MANAGER_OBJECTS, CAOf(release.world))
  {
    if release.images.Some? {
      var w := release.world;
      var kas := Section(p, w, API_SERVER_OBJECTS, release.images.value);
      SectionsConsecutive();
      SectionsApart();
      SectionSucceeds(p, w, API_SERVER_OBJECTS, 9, release.images.value);
      assert SecretAt(kas.world, RootCA) == SecretAt(w, RootCA);
      SignableAgain(p, w, kas.world, CONTROLLER_MANAGER_OBJECTS, CAOf(w), CAOf(kas.world));
      AfterAPIServerCompletes(p, kas, cs, release.images.value);
    }
  }

  /** Both gates are open in memory and the release is known. */
  predicate GatesOpen(p: Params, w: World, cs: seq<Condition>) {
    IsTrue(cs, EtcdAvailable) && IsTrue(cs, KubeAPIServerAvailable) && ReleaseKnown(p, w)
  }

  lemma AfterEtcdCompletes(p: Params, etcd: Progress, cs: seq<Condition>)
    requires AllAnswered(p, etcd.world.calls) && RootCA in etcd.world.objects
    ensures AfterEtcd(p, etcd, cs).outcome == Completed <==>
            etcd.ok && GatesOpen(p, etcd.world, cs) &&
            AllSignable(p, etcd.world, API_SERVER_OBJECTS, CAOf(etcd.world)) &&
            AllSignable(p, etcd.world, CONTROLLER_MANAGER_OBJECTS, CAOf(etcd.world))
  {
    if etcd.ok {
      var w, release := etcd.world, ReleaseImage(p, etcd.world);
      ReleaseKeepsObjects(p, w);
      assert CAOf(release.world) == CAOf(w);
      SignableAgain(p, w, release.world, API_SERVER_OBJECTS, CAOf(w), CAOf(w));
      SignableAgain(p, w, release.world, CONTROLLER_MANAGER_OBJECTS, CAOf(w), CAOf(w));
      AfterReleaseCompletes(p, release, cs);
    }
  }

  ghost predicate SectionsSignable(p: Params, w: World) {
    AllSignable(p, w, ETCD_OBJECTS, CAOf(w)) && AllSignable(p, w, API_SERVER_OBJECTS, CAOf(w)) &&
    AllSignable(p, w, CONTROLLER_MANAGER_OBJECTS, CAOf(w))
  }

  lemma AfterRootCompletes(p: Params, root: Progress, cs: seq<Condition>)
    requires AllAnswered(p, root.world.calls) && root.ok && RootCA in root.world.objects
    ensures AfterRoot(p, root, cs).outcome == Completed <==>
            GatesOpen(p, root.world, cs) && SectionsSignable(p, root.world)
  {
    var w, etcd := root.world, Section(p, root.world, ETCD_OBJECTS, map[]);
    SectionsConsecutive();
    SectionsApart();
    SectionSucceeds(p, w, ETCD_OBJECTS, 1, map[]);
    assert SecretAt(etcd.world, RootCA) == SecretAt(w, RootCA);
    SignableAgain(p, w, etcd.world, API_SERVER_OBJECTS, CAOf(w), CAOf(etcd.world));
    SignableAgain(p, w, etcd.world, CONTROLLER_MANAGER_OBJECTS, CAOf(w), CAOf(etcd.world));
    AfterEtcdCompletes(p, etcd, cs);
  }

  /** After the root CA step all sections are signable exactly when the root CA served. */
  lemma RootStepServes(p: Params, w: World, root: Progress)
    requires RootStep(w, root)
    ensures SectionsSignable(p, root.world) <==> RootServes(p, w)
  {
    var ca := CAOf(root.world);
    SectionsApart();
    SignableAgain(p, w, root.world, ETCD_OBJECTS, ca, ca);
    SignableAgain(p, w, root.world, API_SERVER_OBJECTS, ca, ca);
    SignableAgain(p, w, root.world, CONTROLLER_MANAGER_OBJECTS, ca, ca);
    ServesExactly(p, w, ca);
  }

  lemma AfterStatusCompletes(p: Params, r: Phase)
    requires r.Proceed? && AllAnswered(p, r.world.calls)
    ensures AfterStatus(p, r).outcome == Completed <==> GatesOpen(p, r.world, r.conditions) && RootServes(p, r.world)
  {
    RootSucceeds(p, r.world);
    RootStepServes(p, r.world, CreateOrUpdate(p, r.world, RootCA, EMPTY_SECRET, map[]));
    AfterRootCompletes(p, CreateOrUpdate(p, r.world, RootCA, EMPTY_SECRET, map[]), r.conditions);
  }

  lemma ServesAgain(p: Params, w: World, w': World)
    requires w'.objects == w.objects && SameRelease(w, w')
    ensures RootServes(p, w') <==> RootServes(p, w)
    ensures ReleaseKnown(p, w') <==> ReleaseKnown(p, w)
  {
    assert CAOf(w') == CAOf(w) && forall id :: SecretAt(w', id) == SecretAt(w, id);
  }

  // ----- the status phase, when every call is answered -----

  predicate Unmarked(w: World, id: Id) {
    id in w.objects ==> w.objects[id].meta.deletedAt.None?
  }

  /** The verdict on the cluster, if there is one, is not a failure. */
  predicate NotFailed(p: Params, w: World) {
    EtcdCluster in w.objects ==>
      var verdict := EtcdVerdict(p, Tick(p, w), w.objects[EtcdCluster]);
      verdict.Some? && !IsFailure(verdict.value)
  }

  lemma EtcdProceeds(p: Params, w: World, cs: seq<Condition>)
    requires AllAnswered(p, w.calls)
    ensures var r := EtcdPhase(p, w, cs);
            r.Proceed? <==> Unmarked(w, EtcdCluster) && NotFailed(p, w)
    ensures EtcdPhase(p, w, cs).world.calls >= w.calls
  {
    var t := Tick(p, w);
    assert Answered(p, w) && Answered(p, t) && Answered(p, Tick(p, t));
  }

  lemma DeploymentProceeds(p: Params, w: World, cs: seq<Condition>, name: DeploymentName, t: ConditionType)
    requires AllAnswered(p, w.calls)
    ensures var r := DeploymentPhase(p, w, cs, name, t);
            (r.Proceed? <==> Unmarked(w, Deployment(name))) && r.world.calls >= w.calls
  {
    assert Answered(p, w) && Answered(p, Tick(p, w));
  }

  /** The phase goes through exactly when nothing it looks at is being deleted and the
      cluster, if there is one, is not judged failed. */
  lemma StatusProceeds(p: Params, w: World, cs: seq<Condition>)
    requires AllAnswered(p, w.calls)
    ensures StatusPhase(p, w, cs).Proceed? <==>
            Unmarked(w, EtcdCluster) && Unmarked(w, Deployment(KubeAPIServer)) &&
            Unmarked(w, Deployment(KubeControllerManager)) &&
            NotFailed(p, w)
  {
    var etcd := EtcdPhase(p, w, cs);
    EtcdProceeds(p, w, cs);
    EtcdReflects(p, w, cs);
    if etcd.Proceed? {
      var kas := DeploymentPhase(p, etcd.world, etcd.conditions, KubeAPIServer, KubeAPIServerAvailable);
      DeploymentProceeds(p, etcd.world, etcd.conditions, KubeAPIServer, KubeAPIServerAvailable);
      DeploymentReflects(p, etcd.world, etcd.conditions, KubeAPIServer, KubeAPIServerAvailable);
      if kas.Proceed? {
        var t := KubeControllerManagerAvailable;
        var kcm := DeploymentPhase(p, kas.world, kas.conditions, KubeControllerManager, t);
        DeploymentProceeds(p, kas.world, kas.conditions, KubeControllerManager, t);
        DeploymentReflects(p, kas.world, kas.conditions, KubeControllerManager, t);
        assert Answered(p, kcm.world);
      }
    }
  }

  /** A gate is open for the next pass: the object reports availability or, if it does
      not exist, its condition is still True. */
  ghost predicate EtcdGate(w: World) {
    if EtcdCluster in w.objects then EtcdSaysTrue(w.objects[EtcdCluster])
    else FirstHas(w.conditions, EtcdAvailable, ConditionTrue)
  }

  ghost predicate APIServerGate(w: World) {
    var id := Deployment(KubeAPIServer);
    if id in w.objects then DeploymentSaysTrue(w.objects[id])
    else FirstHas(w.conditions, KubeAPIServerAvailable, ConditionTrue)
  }

  lemma GatesRead(w: World)
    ensures EtcdGate(w) <==>
            if EtcdCluster in w.objects then EtcdReportsAvailable(w.objects[EtcdCluster])
            else IsTrue(w.conditions, EtcdAvailable)
    ensures APIServerGate(w) <==>
            if Deployment(KubeAPIServer) in w.objects then
              DeploymentReportsAvailable(w.objects[Deployment(KubeAPIServer)])
            else IsTrue(w.conditions, KubeAPIServerAvailable)
  {
    IsTrueExactly(w.conditions, EtcdAvailable);
    IsTrueExactly(w.conditions, KubeAPIServerAvailable);
    if EtcdCluster in w.objects {
      EtcdSaysExactly(w.objects[EtcdCluster]);
    }
    if Deployment(KubeAPIServer) in w.objects {
      DeploymentSaysExactly(w.objects[Deployment(KubeAPIServer)]);
    }
  }

  /** A pass gets past its status phase with both gates open. */
  lemma GatesExactly(p: Params, w: World)
    requires AllAnswered(p, w.calls)
    ensures var s := StatusPhase(p, w, w.conditions);
            s.Proceed? && IsTrue(s.conditions, EtcdAvailable) && IsTrue(s.conditions, KubeAPIServerAvailable) <==>
            Unmarked(w, EtcdCluster) && Unmarked(w, Deployment(KubeAPIServer)) &&
            Unmarked(w, Deployment(KubeControllerManager)) && EtcdGate(w) && APIServerGate(w)
  {
    StatusProceeds(p, w, w.conditions);
    GatesRead(w);
    if StatusPhase(p, w, w.conditions).Proceed? {
      PhasesReflect(p, w, w.conditions, EtcdAvailable);
      PhasesReflect(p, w, w.conditions, KubeAPIServerAvailable);
    }
  }

  /** When every call is answered, a pass completes if and only if, in the store it
      starts from: the service is live, neither the EtcdCluster nor the two deployments
      are being deleted, both gates are open, the release is known, and the root CA
      serves. */
  lemma PassCompletesExactly(p: Params, w: World)
    requires AllAnswered(p, w.calls)
    ensures Reconcile(p, w).outcome == Completed <==>
            w.live && Unmarked(w, EtcdCluster) && Unmarked(w, Deployment(KubeAPIServer)) &&
            Unmarked(w, Deployment(KubeControllerManager)) && EtcdGate(w) && APIServerGate(w) &&
            ReleaseKnown(p, w) && RootServes(p, w)
  {
    assert Answered(p, w);
    if w.live {
      var t := Tick(p, w);
      var s := StatusPhase(p, t, w.conditions);
      GatesExactly(p, t);
      if s.Proceed? {
        StatusPhaseKeeps(p, t, w.conditions);
        AfterStatusCompletes(p, s);
        ServesAgain(p, w, s.world);
      }
    }
  }

  /** In every run from an empty namespace without outside edits, a pass whose calls are
      all answered completes if and only if the service is live, the EtcdCluster is not
      being deleted, both gates are open and the release is known. */
  lemma PassCompletesInRuns(p: Params, ws: seq<World>, acts: seq<Action>, i: nat)
    requires IsRun(p, ws, acts) && Quiet(acts) && EmptyNamespace(ws[0]) && i < |ws| && AllAnswered(p, ws[i].calls)
    ensures Reconcile(p, ws[i]).outcome == Completed <==>
            ws[i].live && Unmarked(ws[i], EtcdCluster) && EtcdGate(ws[i]) && APIServerGate(ws[i]) &&
            ReleaseKnown(p, ws[i])
  {
    KeptRun(p, ws, acts, 0, i);
    ServesInRuns(p, ws, acts, i);
    PassCompletesExactly(p, ws[i]);
  }

  lemma DeploymentKeepsRelease(p: Params, w: World, cs: seq<Condition>, name: DeploymentName, t: ConditionType)
    ensures SameRelease(w, DeploymentPhase(p, w, cs, name, t).world)
  {
  }

  lemma VerdictKeepsRelease(p: Params, w: World, cs: seq<Condition>, n: Notice)
    ensures SameRelease(w, ApplyVerdict(p, w, cs, n).world)
  {
  }

  lemma EtcdKeepsRelease(p: Params, w: World, cs: seq<Condition>)
    ensures SameRelease(w, EtcdPhase(p, w, cs).world)
  {
    var t := Tick(p, w);
    if EtcdCluster in w.objects && EtcdVerdict(p, t, w.objects[EtcdCluster]).Some? {
      var o := w.objects[EtcdCluster];
      VerdictKeepsRelease(p, AfterListing(p, t, o), cs, EtcdVerdict(p, t, o).value);
    }
  }

  lemma StatusKeepsRelease(p: Params, w: World, cs: seq<Condition>)
    ensures SameRelease(w, StatusPhase(p, w, cs).world)
  {
    var etcd := EtcdPhase(p, w, cs);
    EtcdKeepsRelease(p, w, cs);
    if etcd.Proceed? {
      var kas := DeploymentPhase(p, etcd.world, etcd.conditions, KubeAPIServer, KubeAPIServerAvailable);
      DeploymentKeepsRelease(p, etcd.world, etcd.conditions, KubeAPIServer, KubeAPIServerAvailable);
      if kas.Proceed? {
        DeploymentKeepsRelease(p, kas.world, kas.conditions, KubeControllerManager, KubeControllerManagerAvailable);
      }
    }
  }

  /** The status phase only makes calls and writes conditions. */
  lemma StatusPhaseKeeps(p: Params, w: World, cs: seq<Condition>)
    requires Justified(w, cs)
    ensures var r := StatusPhase(p, w, cs);
            r.Proceed? ==> r.world.objects == w.objects && r.world.calls >= w.calls && SameRelease(w, r.world)
  {
    StatusKeepsRelease(p, w, cs);
    StatusPhasePreserves(p, (x: World) => x.calls >= w.calls, w, cs);
  }
}
