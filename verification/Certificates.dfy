/** The certificate protocol over whole runs: annotations never lie, and without
    outside edits nothing once written ever changes. */
module Certificates {
  import opened Base
  import opened Pki
  import opened World
  import opened Pass
  import opened Steps
  import opened Runs

  function Data(w: World, id: Id): map<DataKey, Bytes> {
    SecretAt(w, id).data
  }

  predicate RootValid(w: World) {
    RootCA in w.objects && ValidCA(CAOf(w))
  }

  // ----- honest annotations -----

  /** An annotated leaf was signed by one of the given pairs, the annotation being
      that pair's hash. */
  ghost predicate HonestLeaf(c: Config, leaf: Leaf, s: SecretValue, issuers: iset<CAPair>) {
    CaHash in s.annotations ==> exists pair :: pair in issuers && IssuedBy(c, leaf, s, pair)
  }

  ghost predicate Honest(p: Params, w: World, issuers: iset<CAPair>) {
    forall leaf :: LeafSecret(leaf) in w.objects ==> HonestLeaf(p.config, leaf, SecretAt(w, LeafSecret(leaf)), issuers)
  }

  /** Within a pass, a leaf was signed by an earlier pair or by the present root CA. */
  ghost predicate HonestNow(c: Config, leaf: Leaf, s: SecretValue, issuers: iset<CAPair>, root: Option<CAPair>) {
    HonestLeaf(c, leaf, s, issuers) || (root.Some? && IssuedBy(c, leaf, s, root.value))
  }

  function RootNow(w: World): Option<CAPair> {
    if RootValid(w) then Some(PairOf(CAOf(w))) else None
  }

  ghost predicate HonestSoFar(p: Params, w: World, issuers: iset<CAPair>) {
    forall leaf :: LeafSecret(leaf) in w.objects ==>
      HonestNow(p.config, leaf, SecretAt(w, LeafSecret(leaf)), issuers, RootNow(w))
  }

  lemma KeptIssued(c: Config, leaf: Leaf, s: SecretValue, s': SecretValue, issuers: iset<CAPair>)
    requires HonestLeaf(c, leaf, s, issuers) && s'.data == s.data && s'.annotations == s.annotations
    ensures HonestLeaf(c, leaf, s', issuers)
  {
    if CaHash in s.annotations {
      var pair :| pair in issuers && IssuedBy(c, leaf, s, pair);
      SameIssued(c, leaf, s, s', pair);
    }
  }

  lemma SameIssued(c: Config, leaf: Leaf, s: SecretValue, s': SecretValue, pair: CAPair)
    requires IssuedBy(c, leaf, s, pair) && s'.annotations == s.annotations
    requires forall k :: k in s'.data ==> k in s.data && s'.data[k] == s.data[k]
    ensures IssuedBy(c, leaf, s', pair)
  {
    var nonce :| FromSigning(c, leaf, s, pair, nonce, false);
    assert FromSigning(c, leaf, s', pair, nonce, false);
  }

  /** A reconciled leaf was signed by the present CA, or keeps what it had. */
  lemma ReconciledHonest(c: Config, leaf: Leaf, s: SecretValue, ca: SecretValue, nonce: nat, generated: bool,
                         issuers: iset<CAPair>, known: bool)
    requires ReconcileLeaf(c, leaf, s, ca, nonce, generated).Some?
    requires known ==> HonestNow(c, leaf, s, issuers, Some(PairOf(ca)))
    requires !known ==> s == EMPTY_SECRET
    ensures HonestNow(c, leaf, ReconcileLeaf(c, leaf, s, ca, nonce, generated).value, issuers, Some(PairOf(ca)))
  {
    var r := ReconcileLeaf(c, leaf, s, ca, nonce, generated).value;
    ReconcileLeafResult(c, leaf, s, ca, nonce, generated);
    if LeafUpToDate(c, leaf, s, ca) {
      assert known;
      if HonestLeaf(c, leaf, s, issuers) {
        KeptIssued(c, leaf, s, r, issuers);
      } else {
        SameIssued(c, leaf, s, r, PairOf(ca));
      }
    }
  }

  /** Only one leaf's secret differs, and that one is honest. */
  lemma OneLeafHonest(p: Params, w: World, w': World, leaf: Leaf, issuers: iset<CAPair>)
    requires HonestSoFar(p, w, issuers) && RootNow(w') == RootNow(w)
    requires w'.objects.Keys == w.objects.Keys + {LeafSecret(leaf)}
    requires forall b :: b in w.objects && b != LeafSecret(leaf) ==> w'.objects[b] == w.objects[b]
    requires HonestNow(p.config, leaf, SecretAt(w', LeafSecret(leaf)), issuers, RootNow(w'))
    ensures HonestSoFar(p, w', issuers)
  {
    forall l | LeafSecret(l) in w'.objects
      ensures HonestNow(p.config, l, SecretAt(w', LeafSecret(l)), issuers, RootNow(w'))
    {
      if l != leaf {
        assert LeafSecret(l) in w.objects;
      }
    }
  }

  /** A leaf is written only under a valid root CA, which stays as it is. */
  lemma PutLeafRoot(p: Params, w: World, s: Step)
    requires s.PutObject? && s.id.LeafSecret? && Permitted(p, w, s)
    ensures RootNow(Effect(p, w, s)) == RootNow(w) == Some(PairOf(CAOf(w)))
  {
    PutSecretEffect(p, w, s);
    assert RootCA in w.objects;
  }

  /** One leaf was written, under a valid root CA that stays as it is. */
  ghost predicate LeafChange(p: Params, w: World, w': World, leaf: Leaf, nonce: nat, generated: bool) {
    && RootNow(w') == RootNow(w) == Some(PairOf(CAOf(w)))
    && w'.objects.Keys == w.objects.Keys + {LeafSecret(leaf)}
    && (forall b :: b in w.objects && b != LeafSecret(leaf) ==> w'.objects[b] == w.objects[b])
    && ReconcileLeaf(p.config, leaf, SecretAt(w, LeafSecret(leaf)), CAOf(w), nonce, generated)
       == Some(SecretAt(w', LeafSecret(leaf)))
  }

  lemma LeafWritten(p: Params, w: World, w': World, leaf: Leaf, nonce: nat, generated: bool, issuers: iset<CAPair>)
    requires HonestSoFar(p, w, issuers) && LeafChange(p, w, w', leaf, nonce, generated)
    ensures HonestSoFar(p, w', issuers)
  {
    var id := LeafSecret(leaf);
    ReconciledHonest(p.config, leaf, SecretAt(w, id), CAOf(w), nonce, generated, issuers, id in w.objects);
    OneLeafHonest(p, w, w', leaf, issuers);
  }

  lemma PutLeafEffect(p: Params, w: World, s: Step)
    requires s.PutObject? && s.id.LeafSecret? && Permitted(p, w, s)
    ensures LeafChange(p, w, Effect(p, w, s), s.id.leaf, w.calls - 1, s.generated)
  {
    PutSecretEffect(p, w, s);
    PutLeafRoot(p, w, s);
  }

  /** The root CA was written. */
  ghost predicate RootChange(p: Params, w: World, w': World, nonce: nat, generated: bool) {
    && w'.objects.Keys == w.objects.Keys + {RootCA}
    && (forall b :: b in w.objects && b != RootCA ==> w'.objects[b] == w.objects[b])
    && ReconcileRoot(p.config, CAOf(w), nonce, generated) == Some(CAOf(w'))
  }

  lemma PutRootEffect(p: Params, w: World, s: Step)
    requires s.PutObject? && s.id == RootCA && Permitted(p, w, s)
    ensures RootChange(p, w, Effect(p, w, s), w.calls - 1, s.generated)
  {
    PutSecretEffect(p, w, s);
  }

  /** Writing the root CA leaves the pair of a valid root CA as it was. */
  lemma RootWritten(p: Params, w: World, w': World, nonce: nat, generated: bool, issuers: iset<CAPair>)
    requires HonestSoFar(p, w, issuers) && RootChange(p, w, w', nonce, generated)
    ensures HonestSoFar(p, w', issuers)
  {
    RootCAValidity(p.config, CAOf(w), nonce, generated);
    assert RootNow(w).Some? ==> RootNow(w') == RootNow(w);
    forall l | LeafSecret(l) in w'.objects
      ensures HonestNow(p.config, l, SecretAt(w', LeafSecret(l)), issuers, RootNow(w'))
    {
      assert LeafSecret(l) in w.objects;
    }
  }

  /** The root CA and the leaves are as they were. */
  ghost predicate SameCertificates(w: World, w': World) {
    forall id: Id :: id.RootCA? || id.LeafSecret? ==>
      (id in w'.objects <==> id in w.objects) && SecretAt(w', id) == SecretAt(w, id)
  }

  /** All other steps leave the root CA and the leaves alone. */
  lemma OtherStep(p: Params, w: World, s: Step)
    requires s.PutObject? ==> !s.id.LeafSecret? && !s.id.RootCA?
    ensures SameCertificates(w, Effect(p, w, s))
  {
  }

  lemma SameCertificatesHonest(p: Params, w: World, w': World, issuers: iset<CAPair>)
    requires HonestSoFar(p, w, issuers) && SameCertificates(w, w')
    ensures HonestSoFar(p, w', issuers)
  {
    assert RootCA.RootCA? && RootNow(w') == RootNow(w);
    forall l | LeafSecret(l) in w'.objects
      ensures HonestNow(p.config, l, SecretAt(w', LeafSecret(l)), issuers, RootNow(w'))
    {
      assert LeafSecret(l).LeafSecret?;
    }
  }

  /** For a property of the root CA and the leaves there are three kinds of steps. */
  lemma ClosedByKind(p: Params, P: World -> bool)
    requires forall w, w', leaf, nonce, g :: P(w) && LeafChange(p, w, w', leaf, nonce, g) ==> P(w')
    requires forall w, w', nonce, g :: P(w) && RootChange(p, w, w', nonce, g) ==> P(w')
    requires forall w, w' :: P(w) && SameCertificates(w, w') ==> P(w')
    ensures Closed(p, P)
  {
    forall w, s | P(w) && Permitted(p, w, s) ensures P(Effect(p, w, s)) {
      if s.PutObject? && s.id.LeafSecret? {
        PutLeafEffect(p, w, s);
      } else if s.PutObject? && s.id == RootCA {
        PutRootEffect(p, w, s);
      } else {
        OtherStep(p, w, s);
      }
    }
  }

  lemma HonestPass(p: Params, w: World, issuers: iset<CAPair>)
    requires Honest(p, w, issuers)
    ensures HonestSoFar(p, Reconcile(p, w).world, issuers)
  {
    var P := x => HonestSoFar(p, x, issuers);
    forall x, x', leaf, nonce, g | P(x) && LeafChange(p, x, x', leaf, nonce, g) ensures P(x') {
      LeafWritten(p, x, x', leaf, nonce, g, issuers);
    }
    forall x, x', nonce, g | P(x) && RootChange(p, x, x', nonce, g) ensures P(x') {
      RootWritten(p, x, x', nonce, g, issuers);
    }
    forall x, x' | P(x) && SameCertificates(x, x') ensures P(x') {
      SameCertificatesHonest(p, x, x', issuers);
    }
    ClosedByKind(p, P);
    PassPreserves(p, P, w);
  }

  /** Nothing in the environment but a strip edits a secret. */
  lemma OnlyStripsEdit(p: Params, w: World, a: Action, id: Id)
    requires !a.RunPass? && !a.OutsideStrip? && id in Next(p, w, a).objects
    ensures id in w.objects && SecretAt(Next(p, w, a), id) == SecretAt(w, id)
  {
  }

  lemma StripOnSecret(p: Params, w: World, stripped: Id, keys: set<DataKey>, id: Id)
    requires id in w.objects
    ensures var s := SecretAt(Next(p, w, OutsideStrip(stripped, keys)), id);
            s == SecretAt(w, id) || s == Stripped(SecretAt(w, id), keys)
  {
  }

  /** The environment only removes secrets, or data keys from them. */
  lemma EnvironmentOnSecret(p: Params, w: World, a: Action, id: Id)
    requires !a.RunPass? && id in Next(p, w, a).objects
    ensures id in w.objects
    ensures SecretAt(Next(p, w, a), id).annotations == SecretAt(w, id).annotations
    ensures forall k :: k in Data(Next(p, w, a), id) ==>
              k in Data(w, id) && Data(Next(p, w, a), id)[k] == Data(w, id)[k]
    ensures !Outside(a) ==> Data(Next(p, w, a), id) == Data(w, id)
  {
    if a.OutsideStrip? {
      StripOnSecret(p, w, a.id, a.keys, id);
    } else {
      OnlyStripsEdit(p, w, a, id);
    }
  }

  lemma HonestEnvironment(p: Params, w: World, a: Action, issuers: iset<CAPair>)
    requires Honest(p, w, issuers) && !a.RunPass?
    ensures Honest(p, Next(p, w, a), issuers)
  {
    var w' := Next(p, w, a);
    forall leaf | LeafSecret(leaf) in w'.objects
      ensures HonestLeaf(p.config, leaf, SecretAt(w', LeafSecret(leaf)), issuers)
    {
      var s, s' := SecretAt(w, LeafSecret(leaf)), SecretAt(w', LeafSecret(leaf));
      EnvironmentOnSecret(p, w, a, LeafSecret(leaf));
      assert HonestLeaf(p.config, leaf, s, issuers);
      if CaHash in s'.annotations {
        var pair :| pair in issuers && IssuedBy(p.config, leaf, s, pair);
        SameIssued(p.config, leaf, s, s', pair);
      }
    }
  }

  /** The valid root CA pairs stored at some point up to step i. */
  ghost function Issuers(ws: seq<World>, i: nat): iset<CAPair>
    requires i < |ws|
  {
    iset j | 0 <= j <= i && RootValid(ws[j]) :: PairOf(CAOf(ws[j]))
  }

  lemma HonestWeaken(p: Params, w: World, issuers: iset<CAPair>, issuers': iset<CAPair>)
    requires HonestSoFar(p, w, issuers) && issuers <= issuers' && (RootValid(w) ==> PairOf(CAOf(w)) in issuers')
    ensures Honest(p, w, issuers')
  {
  }

  lemma {:induction false} HonestRun(p: Params, ws: seq<World>, acts: seq<Action>, i: nat)
    requires IsRun(p, ws, acts) && i < |ws| && forall leaf :: LeafSecret(leaf) !in ws[0].objects
    ensures Honest(p, ws[i], Issuers(ws, i))
  {
    if i > 0 {
      HonestRun(p, ws, acts, i - 1);
      var before := Issuers(ws, i - 1);
      if acts[i - 1].RunPass? {
        HonestPass(p, ws[i - 1], before);
      } else {
        HonestEnvironment(p, ws[i - 1], acts[i - 1], before);
      }
      assert before <= Issuers(ws, i);
      HonestWeaken(p, ws[i], before, Issuers(ws, i));
    }
  }

  /** The annotation never lies: in every run, with passes cut short anywhere and any
      secret deleted or stripped from outside, a leaf annotated with a hash was signed
      by a root CA pair that was stored in the namespace and has that hash. */
  lemma HonestAnnotations(p: Params, ws: seq<World>, acts: seq<Action>, i: nat, leaf: Leaf)
    requires IsRun(p, ws, acts) && i < |ws| && forall l :: LeafSecret(l) !in ws[0].objects
    requires LeafSecret(leaf) in ws[i].objects && CaHash in SecretAt(ws[i], LeafSecret(leaf)).annotations
    ensures exists j :: 0 <= j <= i && RootValid(ws[j]) &&
                        IssuedBy(p.config, leaf, SecretAt(ws[i], LeafSecret(leaf)),
                                 CAPair(CAOf(ws[j]).data[CaCrt], CAOf(ws[j]).data[CaKey]))
  {
    HonestRun(p, ws, acts, i);
    var s := SecretAt(ws[i], LeafSecret(leaf));
    assert HonestLeaf(p.config, leaf, s, Issuers(ws, i));
    var pair :| pair in Issuers(ws, i) && IssuedBy(p.config, leaf, s, pair);
    var j :| 0 <= j <= i && RootValid(ws[j]) && pair == PairOf(CAOf(ws[j]));
  }

  /** The hash tells apart the root CA pairs that occur up to step i. */
  ghost predicate HashTellsApart(c: Config, ws: seq<World>, i: nat)
    requires i < |ws|
  {
    forall a, b ::
      a in Issuers(ws, i) && b in Issuers(ws, i) && c.hash(a.crt, a.key) == c.hash(b.crt, b.key) ==> a == b
  }

  /** An up-to-date secret that was signed by a pair holds one whole signing by it. */
  lemma IssuedUpToDate(c: Config, leaf: Leaf, s: SecretValue, ca: SecretValue)
    requires ValidCA(ca) && LeafUpToDate(c, leaf, s, ca) && IssuedBy(c, leaf, s, PairOf(ca))
    ensures exists nonce :: FromSigning(c, leaf, s, PairOf(ca), nonce, true)
  {
    var nonce :| FromSigning(c, leaf, s, PairOf(ca), nonce, false);
    UpToDateExactly(c, leaf, s, ca);
    assert FromSigning(c, leaf, s, PairOf(ca), nonce, true);
  }

  /** So a leaf judged up to date holds, under all its expected keys, one signing by
      the root CA stored now. */
  lemma UpToDateChainsToRoot(p: Params, ws: seq<World>, acts: seq<Action>, i: nat, leaf: Leaf)
    requires IsRun(p, ws, acts) && i < |ws| && forall l :: LeafSecret(l) !in ws[0].objects
    requires HashTellsApart(p.config, ws, i) && RootValid(ws[i]) && LeafSecret(leaf) in ws[i].objects
    requires LeafUpToDate(p.config, leaf, SecretAt(ws[i], LeafSecret(leaf)), CAOf(ws[i]))
    ensures var data := CAOf(ws[i]).data;
            var pair := CAPair(data[CaCrt], data[CaKey]);
            exists nonce :: FromSigning(p.config, leaf, SecretAt(ws[i], LeafSecret(leaf)), pair, nonce, true)
  {
    var s := SecretAt(ws[i], LeafSecret(leaf));
    HonestAnnotations(p, ws, acts, i, leaf);
    var j :| 0 <= j <= i && RootValid(ws[j]) && IssuedBy(p.config, leaf, s, PairOf(CAOf(ws[j])));
    assert PairOf(CAOf(ws[j])) in Issuers(ws, i) && PairOf(CAOf(ws[i])) in Issuers(ws, i);
    IssuedUpToDate(p.config, leaf, s, CAOf(ws[i]));
  }

  // ----- one generation -----

  /** The keys that a root CA secret has are those of one generated pair. */
  ghost predicate OneRoot(c: Config, s: SecretValue) {
    exists nonce: nat :: OfRoot(c, s, nonce)
  }

  predicate OfRoot(c: Config, s: SecretValue, nonce: nat) {
    (CaCrt in s.data ==> s.data[CaCrt] == RootPair(c, nonce).crt) &&
    (CaKey in s.data ==> s.data[CaKey] == RootPair(c, nonce).key)
  }

  /** The keys that a signing key secret has are the two halves of one generated key. */
  ghost predicate OneKey(s: SecretValue) {
    exists nonce: nat :: OfKey(s, nonce)
  }

  predicate OfKey(s: SecretValue, nonce: nat) {
    (ServiceAccountKey in s.data ==> s.data[ServiceAccountKey] == PrivateKey(nonce)) &&
    (ServiceAccountPub in s.data ==> s.data[ServiceAccountPub] == PublicKey(nonce))
  }

  ghost predicate OneGeneration(c: Config, id: Id, s: SecretValue) {
    match id
    case RootCA => OneRoot(c, s)
    case SigningKey => OneKey(s)
    case _ => true
  }

  lemma EmptyIsOne(c: Config, id: Id)
    ensures OneGeneration(c, id, EMPTY_SECRET)
  {
    assert OfRoot(c, EMPTY_SECRET, 0) && OfKey(EMPTY_SECRET, 0);
  }

  /** Reconciling either secret keeps its key or replaces all of it. */
  lemma ReconciledOne(p: Params, id: Id, s: SecretValue, ca: SecretValue, nonce: nat, generated: bool)
    requires IsSecret(id) && OneGeneration(p.config, id, s) && MutateSecret(p, id, s, ca, nonce, generated).Some?
    ensures OneGeneration(p.config, id, MutateSecret(p, id, s, ca, nonce, generated).value)
  {
    var r := MutateSecret(p, id, s, ca, nonce, generated).value;
    if id.RootCA? {
      var first: nat :| OfRoot(p.config, s, first);
      assert OfRoot(p.config, r, first) || OfRoot(p.config, r, nonce);
    } else if id.SigningKey? {
      var first: nat :| OfKey(s, first);
      assert OfKey(r, first) || OfKey(r, nonce);
    }
  }

  lemma StrippedOne(c: Config, id: Id, s: SecretValue, s': SecretValue)
    requires OneGeneration(c, id, s) && forall k :: k in s'.data ==> k in s.data && s'.data[k] == s.data[k]
    ensures OneGeneration(c, id, s')
  {
    if id.RootCA? {
      var nonce: nat :| OfRoot(c, s, nonce);
      assert OfRoot(c, s', nonce);
    } else if id.SigningKey? {
      var nonce: nat :| OfKey(s, nonce);
      assert OfKey(s', nonce);
    }
  }

  lemma OneGenerationStep(p: Params, w: World, s: Step, id: Id)
    requires OneGeneration(p.config, id, SecretAt(w, id)) && IsSecret(id) && Permitted(p, w, s)
    ensures OneGeneration(p.config, id, SecretAt(Effect(p, w, s), id))
  {
    if s.PutObject? && s.id == id {
      PutSecretEffect(p, w, s);
      ReconciledOne(p, id, SecretAt(w, id), CAOf(w), w.calls - 1, s.generated);
    } else {
      assert SecretAt(Effect(p, w, s), id) == SecretAt(w, id);
    }
  }

  lemma OneGenerationEnvironment(p: Params, w: World, a: Action, id: Id)
    requires OneGeneration(p.config, id, SecretAt(w, id)) && !a.RunPass?
    ensures OneGeneration(p.config, id, SecretAt(Next(p, w, a), id))
  {
    if id in Next(p, w, a).objects {
      EnvironmentOnSecret(p, w, a, id);
      StrippedOne(p.config, id, SecretAt(w, id), SecretAt(Next(p, w, a), id));
    } else {
      EmptyIsOne(p.config, id);
    }
  }

  lemma OneGenerationRun(p: Params, ws: seq<World>, acts: seq<Action>, i: nat, id: Id)
    requires IsRun(p, ws, acts) && i < |ws| && IsSecret(id) && OneGeneration(p.config, id, SecretAt(ws[0], id))
    ensures OneGeneration(p.config, id, SecretAt(ws[i], id))
  {
    var P := w => OneGeneration(p.config, id, SecretAt(w, id));
    forall w, s | P(w) && Permitted(p, w, s) ensures P(Effect(p, w, s)) {
      OneGenerationStep(p, w, s, id);
    }
    forall w: World, a: Action | P(w) && !a.RunPass? ensures P(Next(p, w, a)) {
      OneGenerationEnvironment(p, w, a, id);
    }
    RunPreserves(p, P, ws, acts, true, i);
  }

  /** In every run from a store without a root CA, with secrets deleted or stripped from
      outside at any point, a valid root CA is one generated pair, and it can sign. */
  lemma RootIsOneGeneration(p: Params, ws: seq<World>, acts: seq<Action>, i: nat)
    requires IsRun(p, ws, acts) && i < |ws| && RootCA !in ws[0].objects && RootValid(ws[i])
    ensures CanSign(PairOf(CAOf(ws[i]))) &&
            exists nonce: nat :: CAOf(ws[i]).data[CaCrt] == SelfSigned(p.config.rootCfg, nonce) &&
                                 CAOf(ws[i]).data[CaKey] == PrivateKey(nonce)
  {
    EmptyIsOne(p.config, RootCA);
    OneGenerationRun(p, ws, acts, i, RootCA);
    assert CAOf(ws[i]) == SecretAt(ws[i], RootCA);
    var nonce: nat :| OfRoot(p.config, CAOf(ws[i]), nonce);
    assert CAOf(ws[i]).data[CaKey] == PrivateKey(nonce);
  }

  /** Likewise a complete service-account key is the two halves of one generated key. */
  lemma SigningKeyIsOneGeneration(p: Params, ws: seq<World>, acts: seq<Action>, i: nat)
    requires IsRun(p, ws, acts) && i < |ws| && SigningKey !in ws[0].objects
    requires ServiceAccountKey in Data(ws[i], SigningKey) && ServiceAccountPub in Data(ws[i], SigningKey)
    ensures exists nonce: nat :: Data(ws[i], SigningKey)[ServiceAccountKey] == PrivateKey(nonce) &&
                                 Data(ws[i], SigningKey)[ServiceAccountPub] == PublicKey(nonce)
  {
    EmptyIsOne(p.config, SigningKey);
    OneGenerationRun(p, ws, acts, i, SigningKey);
    var nonce: nat :| OfKey(SecretAt(ws[i], SigningKey), nonce);
    assert Data(ws[i], SigningKey)[ServiceAccountKey] == PrivateKey(nonce);
  }

  // ----- stability without outside edits -----

  /** Root CA valid, every leaf up to date against it, the signing key complete, and
      nothing but the EtcdCluster ever being deleted. */
  ghost predicate WellKept(p: Params, w: World) {
    && (RootCA in w.objects ==> ValidCA(CAOf(w)))
    && (forall leaf :: LeafSecret(leaf) in w.objects ==>
          RootCA in w.objects && LeafUpToDate(p.config, leaf, SecretAt(w, LeafSecret(leaf)), CAOf(w)))
    && (SigningKey in w.objects ==>
          ServiceAccountKey in Data(w, SigningKey) && ServiceAccountPub in Data(w, SigningKey))
    && (forall id :: id in w.objects && id != EtcdCluster ==> w.objects[id].meta.deletedAt.None?)
  }

  /** Every secret of w is still there with the same data. */
  ghost predicate Retains(w: World, w': World) {
    forall id :: IsSecret(id) && id in w.objects ==> id in w'.objects && Data(w', id) == Data(w, id)
  }

  ghost predicate KeptFrom(p: Params, w: World, w': World) {
    WellKept(p, w') && Retains(w, w')
  }

  /** What reconciling a secret keeps and establishes. */
  ghost predicate SecretSound(p: Params, id: Id, s: SecretValue, ca: SecretValue) {
    match id
    case RootCA => ValidCA(s)
    case LeafSecret(leaf) => ValidCA(ca) && LeafUpToDate(p.config, leaf, s, ca)
    case SigningKey => ServiceAccountKey in s.data && ServiceAccountPub in s.data
    case _ => true
  }

  lemma MutateSecretSound(p: Params, id: Id, s: SecretValue, ca: SecretValue, nonce: nat, generated: bool)
    requires IsSecret(id) && MutateSecret(p, id, s, ca, nonce, generated).Some?
    requires s == EMPTY_SECRET || SecretSound(p, id, s, ca)
    ensures var r := MutateSecret(p, id, s, ca, nonce, generated).value;
            SecretSound(p, id, r, ca) && (SecretSound(p, id, s, ca) ==> r.data == s.data)
  {
    match id {
      case RootCA => RootCAValidity(p.config, s, nonce, generated);
      case LeafSecret(leaf) => ReconcileLeafResult(p.config, leaf, s, ca, nonce, generated);
      case SigningKey =>
    }
  }

  /** Up to date depends only on the CA's data. */
  lemma SameDataUpToDate(c: Config, leaf: Leaf, s: SecretValue, ca: SecretValue, ca': SecretValue)
    requires ca'.data == ca.data && LeafUpToDate(c, leaf, s, ca)
    ensures LeafUpToDate(c, leaf, s, ca')
  {
  }

  lemma StoredSound(p: Params, w: World, id: Id)
    requires WellKept(p, w) && IsSecret(id) && id in w.objects
    ensures SecretSound(p, id, SecretAt(w, id), CAOf(w))
  {
  }

  lemma OneSecretKept(p: Params, w: World, w': World, id: Id)
    requires WellKept(p, w) && IsSecret(id) && w'.objects.Keys == w.objects.Keys + {id}
    requires forall b :: b in w.objects && b != id ==> w'.objects[b] == w.objects[b]
    requires w'.objects[id].meta.deletedAt.None? && SecretSound(p, id, SecretAt(w', id), CAOf(w))
    requires id in w.objects ==> Data(w', id) == Data(w, id)
    requires id.LeafSecret? ==> RootCA in w.objects
    ensures KeptFrom(p, w, w')
  {
    forall leaf | LeafSecret(leaf) in w'.objects
      ensures RootCA in w'.objects && LeafUpToDate(p.config, leaf, SecretAt(w', LeafSecret(leaf)), CAOf(w'))
    {
      if LeafSecret(leaf) != id {
        assert LeafSecret(leaf) in w.objects;
      }
      SameDataUpToDate(p.config, leaf, SecretAt(w', LeafSecret(leaf)), CAOf(w), CAOf(w'));
    }
  }

  /** One secret was written as its reconcile function says, and nothing was marked. */
  ghost predicate SecretChange(p: Params, w: World, w': World, id: Id, nonce: nat, generated: bool) {
    && IsSecret(id) && w'.objects.Keys == w.objects.Keys + {id}
    && (forall b :: b in w.objects && b != id ==> w'.objects[b] == w.objects[b])
    && MutateSecret(p, id, SecretAt(w, id), CAOf(w), nonce, generated) == Some(SecretAt(w', id))
    && w'.objects[id].meta.deletedAt.None? && (id.LeafSecret? ==> RootCA in w.objects)
  }

  lemma SecretWritten(p: Params, w: World, w': World, id: Id, nonce: nat, generated: bool)
    requires WellKept(p, w) && SecretChange(p, w, w', id, nonce, generated)
    ensures KeptFrom(p, w, w')
  {
    if id in w.objects {
      StoredSound(p, w, id);
    }
    MutateSecretSound(p, id, SecretAt(w, id), CAOf(w), nonce, generated);
    OneSecretKept(p, w, w', id);
  }

  /** A permitted write of a secret finds the root CA and marks nothing deleted. */
  lemma PutPlace(p: Params, w: World, s: Step)
    requires s.PutObject? && IsSecret(s.id) && Permitted(p, w, s)
    requires s.id in w.objects ==> w.objects[s.id].meta.deletedAt.None?
    ensures Effect(p, w, s).objects[s.id].meta.deletedAt.None? && (s.id.LeafSecret? ==> RootCA in w.objects)
  {
  }

  lemma PutSecretChange(p: Params, w: World, s: Step)
    requires s.PutObject? && IsSecret(s.id) && Permitted(p, w, s)
    requires s.id in w.objects ==> w.objects[s.id].meta.deletedAt.None?
    ensures SecretChange(p, w, Effect(p, w, s), s.id, w.calls - 1, s.generated)
  {
    PutSecretEffect(p, w, s);
    PutPlace(p, w, s);
  }

  lemma PutSecretKept(p: Params, w: World, s: Step)
    requires s.PutObject? && IsSecret(s.id) && WellKept(p, w) && Permitted(p, w, s)
    ensures KeptFrom(p, w, Effect(p, w, s))
  {
    forall w', nonce: nat | SecretChange(p, w, w', s.id, nonce, s.generated) ensures KeptFrom(p, w, w') {
      SecretWritten(p, w, w', s.id, nonce, s.generated);
    }
    PutSecretChange(p, w, s);
  }

  lemma KeptStep(p: Params, w: World, s: Step)
    requires WellKept(p, w) && Permitted(p, w, s)
    ensures KeptFrom(p, w, Effect(p, w, s))
  {
    var w' := Effect(p, w, s);
    if s.PutObject? && IsSecret(s.id) {
      PutSecretKept(p, w, s);
    } else {
      assert forall id :: IsSecret(id) ==>
               (id in w'.objects <==> id in w.objects) && SecretAt(w', id) == SecretAt(w, id);
      SameSecretsKept(p, w, w');
    }
  }

  lemma SameSecretsKept(p: Params, w: World, w': World)
    requires WellKept(p, w)
    requires forall id :: IsSecret(id) ==>
               (id in w'.objects <==> id in w.objects) && SecretAt(w', id) == SecretAt(w, id)
    requires forall id :: id in w'.objects && id != EtcdCluster ==> w'.objects[id].meta.deletedAt.None?
    ensures KeptFrom(p, w, w')
  {
    assert IsSecret(RootCA) && IsSecret(SigningKey);
    assert CAOf(w') == CAOf(w);
    forall leaf | LeafSecret(leaf) in w'.objects
      ensures RootCA in w'.objects && LeafUpToDate(p.config, leaf, SecretAt(w', LeafSecret(leaf)), CAOf(w'))
    {
      assert IsSecret(LeafSecret(leaf));
    }
  }

  /** From inside the environment touches no object that is not being deleted, but for
      its reported status. */
  lemma EnvironmentOnUnmarked(p: Params, w: World, a: Action, id: Id)
    requires !a.RunPass? && !Outside(a) && (id in w.objects ==> w.objects[id].meta.deletedAt.None?)
    ensures var w' := Next(p, w, a);
            (id in w'.objects <==> id in w.objects) && SecretAt(w', id) == SecretAt(w, id) &&
            (id in w'.objects ==> w'.objects[id].meta.deletedAt.None?)
  {
  }

  lemma KeptEnvironment(p: Params, w: World, a: Action)
    requires WellKept(p, w) && !a.RunPass? && !Outside(a)
    ensures KeptFrom(p, w, Next(p, w, a))
  {
    var w' := Next(p, w, a);
    forall id | id != EtcdCluster
      ensures (id in w'.objects <==> id in w.objects) && SecretAt(w', id) == SecretAt(w, id)
      ensures id in w'.objects ==> w'.objects[id].meta.deletedAt.None?
    {
      EnvironmentOnUnmarked(p, w, a, id);
    }
    SameSecretsKept(p, w, w');
  }

  lemma KeptAction(p: Params, w: World, a: Action)
    requires WellKept(p, w) && !Outside(a)
    ensures KeptFrom(p, w, Next(p, w, a))
  {
    if a.RunPass? {
      var P := x => KeptFrom(p, w, x);
      forall x, s | P(x) && Permitted(p, x, s) ensures P(Effect(p, x, s)) {
        KeptStep(p, x, s);
      }
      PassPreserves(p, P, w);
    } else {
      KeptEnvironment(p, w, a);
    }
  }

  lemma {:induction false} KeptRun(p: Params, ws: seq<World>, acts: seq<Action>, i: nat, j: nat)
    requires IsRun(p, ws, acts) && Quiet(acts) && i <= j < |ws| && WellKept(p, ws[i])
    ensures KeptFrom(p, ws[i], ws[j])
  {
    if i < j {
      KeptRun(p, ws, acts, i, j - 1);
      KeptAction(p, ws[j - 1], acts[j - 1]);
    }
  }

  /** From an empty namespace and without outside edits: the stored root CA is always
      valid, every stored leaf is always up to date against it, and no secret's data
      ever changes or disappears once written. */
  lemma SecretsNeverChange(p: Params, ws: seq<World>, acts: seq<Action>, i: nat, j: nat)
    requires IsRun(p, ws, acts) && Quiet(acts) && EmptyNamespace(ws[0]) && i <= j < |ws|
    ensures RootCA in ws[i].objects ==> RootValid(ws[i])
    ensures forall leaf :: LeafSecret(leaf) in ws[i].objects ==>
              LeafUpToDate(p.config, leaf, SecretAt(ws[i], LeafSecret(leaf)), CAOf(ws[i]))
    ensures forall id :: IsSecret(id) && id in ws[i].objects ==>
              id in ws[j].objects && Data(ws[j], id) == Data(ws[i], id)
  {
    KeptRun(p, ws, acts, 0, i);
    KeptRun(p, ws, acts, i, j);
  }
}
