# hypershiftlite operator: verified model

hypershiftlite runs the control plane of a Kubernetes cluster inside a namespace of another one. Its
operator reconciles one `KubernetesService`: it watches etcd, the API server and the controller manager,
keeps a list of conditions, and brings up 22 objects in a fixed order behind two gates. This project
models that operator and its libraries in Dafny and proves what holds in every run.

## What is modelled

**The namespace and the operator.** `World` is the namespace: the stored objects by id, the service's
conditions, the release cache, one clock, and a count of API calls. Every call has a fate: done, refused,
or done with its reply lost. The number of a call serves as nonce, uid and revision of what it produces.
`Pass` gives a whole reconcile pass as a function of the world. `Reconciler` performs the same pass as the
source does: an object whose methods make one call after another, edit a condition list and secrets in
memory and return early. Each of its methods is proved equal to its function.

**Runs.** `Steps` describes what the operator may do in one call (`Permitted`) and proves that a pass, cut
short by any failing call, is made of such steps. `Runs` interleaves passes with the environment: other
controllers report etcd and deployment statuses, deletions finish, the clock advances, the operator
restarts, the release image changes, and, where a theorem allows it, outsiders delete objects or strip keys
from secrets. An invariant shown for every permitted step and every environment action holds in every run.
`StagedBringUp`, `Recreation`, `Certificates`, `Rotation` and `Contents` hold the theorems about runs and passes, and
`Limits` the runs and inputs on which a promise fails. They are stated on the stored fields: `Reports` says, entry by
entry, when a condition list reports availability, and `Pki.FromSigning` names each data key of each signed secret.

**Certificates.** `Pki` and `Secrets` model the root CA, the eight secrets signed by it and the
service-account key. Cryptography is symbolic: a certificate records who signed what, and the CA hash is an
arbitrary function of the two CA values. Only `Certificates.UpToDateChainsToRoot` assumes that this hash
tells apart the CA pairs that occur in the run; that assumption is one of its `requires` clauses.

**Libraries.** `VersionLabels`, `Semver` and `ComponentMerge` model the release-label parser, its two printers
and the merge over image tags; `ReleaseImages` the overlay of static images; `Conditions` and `EtcdConditions`
the two kinds of condition lists; `OwnerRefs` the upsert of owner references; `ServiceIP` the address
arithmetic behind the API server's certificate.

## Where the code does not do what it seems to promise

- `ReconcileRootCA` checks `ca.key` twice and never `ca.crt` (pkg/controllers/kubeservice/pki/reconcile.go:15).
  A secret with a lone `ca.key` is never repaired: `Limits.LoneKeyReachable` gives a run that leads there, and
  `Limits.NeverRepaired` shows that in every run from there without outside edits the secret's data stays, no leaf
  is created or rewritten, and no pass completes. `Pki.RootCAValidity` is the exact condition for one call,
  `Rotation.ServesInRuns` and `Rotation.PassCompletesExactly` those for a pass.
- `DisplayNameLabel` writes the separator before it looks at the name
  (pkg/releaseinfo/releaseinfo.go:266-271). Its output is refused by the parser as soon as one of several
  components has no display name: `VersionLabels.UnnamedComponentRefused` is such a map,
  `VersionLabels.LabelRoundTrip` the exact condition.
- An owner reference with an unparseable API version is appended again by every call
  (`OwnerRefs.UnparseableGrows`; exactly when: `OwnerRefs.UpsertIdempotent`). The operator's own reference is
  parseable (`Settings.ServiceOwnerParseable`).
- The five-minute bootstrap timeout (pkg/controllers/kubeservice/etcd/status.go:45) is measured from a creation stamp
  in whole seconds, so two deletions can be less than five minutes apart (`Limits.FiveMinutesMissed`). Five minutes are
  kept if and only if the recreated cluster's stamp is not before the moment of the earlier deletion
  (`Limits.GapExactly`; for every run, with failing and delayed calls: `Recreation.GapKept`). Without that condition
  the later deletion still comes more than five minutes after the beginning of the second of the earlier one
  (`Recreation.BoundedRecreation`).
- A failed status write ends the pass in the etcd, controller-manager and aggregate steps, but is only logged
  in the API-server step (pkg/controllers/kubeservice/reconciler.go:134-137).
- Before the etcd server and peer secrets the client secret is read again
  (pkg/controllers/kubeservice/reconciler.go:283, 295); the model makes the same read.
- A missing etcd cluster or deployment leaves its old condition in place; `Runs.ConditionsReflectReports` says
  exactly what each condition then means.

## Model

| member | source | states |
|---|---|---|
| `StagedBringUp.BringUpIsStaged` | pkg/controllers/kubeservice/reconciler.go:181-231 | in every run from an empty namespace the objects are downward closed in the bring-up order except for the EtcdCluster; API-server objects exist only if at an earlier point the first Available condition of the EtcdCluster was True, controller-manager objects only if that of the API-server deployment was and it had an available replica |
| `Recreation.BoundedRecreation` | pkg/controllers/kubeservice/etcd/status.go:40-72 | in every run, with creation stamps in whole seconds, two operator deletions of the EtcdCluster hit different incarnations, and the later one comes more than five minutes after the whole second in which the earlier one fell |
| `Recreation.PassMarksFound` | pkg/controllers/kubeservice/etcd/status.go:40-72 | a pass that marks a cluster of the operator's size marks the incarnation it found, more than the timeout after its stamp |
| `Recreation.GapKept` | pkg/controllers/kubeservice/etcd/status.go:40-72 | in every run two operator deletions are more than five minutes apart whenever the cluster deleted later bears a stamp no earlier than the moment of the earlier deletion |
| `Limits.GapExactly` | pkg/controllers/kubeservice/etcd/status.go:45-48 | with every call answered at once, for an unready cluster found within five minutes of a deletion: however long the next pass waits, it deletes only more than five minutes after that deletion, if and only if the cluster's stamp is not before the deletion |
| `Limits.FiveMinutesMissed` | pkg/controllers/kubeservice/etcd/status.go:45 | from an empty namespace, a run with two operator deletions 299.2 seconds apart: five minutes counted from the earlier deletion itself are not guaranteed |
| `Recreation.PassDeletesExactly` | pkg/controllers/kubeservice/etcd/status.go:40-72 | a pass marks the EtcdCluster for deletion if and only if the service is live, the cluster is read and unmarked, does not say Available True, and either no member is ready and its stamp is more than five minutes old, or more than one member is wanted, at most one is ready and the pods listed show a terminated container; the status write must be acknowledged and the delete call not refused, each call being named by its number |
| `Recreation.ReadyMemberSpared` | pkg/controllers/kubeservice/etcd/status.go:43-59 | a cluster of size at most one with a ready member is spared by every pass, whatever its age and its conditions and whatever the calls do |
| `Recreation.AvailableSpared` | pkg/controllers/kubeservice/etcd/status.go:40-42 | so is a cluster that says Available True |
| `Recreation.DeletingPassEnds` | pkg/controllers/kubeservice/etcd/status.go:45-74 | a pass that marks the cluster ends there: etcd is recorded False with the text of the failure that was found, the mark bears the moment of the delete call, and every other object, field, condition and cache entry is as before |
| `Recreation.EtcdStepGoesOn` | pkg/controllers/kubeservice/etcd/status.go:31-74 | the etcd step goes on if and only if its read is answered and the cluster is missing, or unmarked and not to be deleted, with its pods listed where that is needed and the status write acknowledged |
| `Certificates.HonestAnnotations` | pkg/controllers/kubeservice/pki/util.go:20-68 | in every run, with outside deletions and stripped keys, a leaf annotated with a hash bears the hash of two root CA values that were stored in the namespace, and whatever keys it still has are from one signing by that pair: certificate issued under that certificate and key with the leaf's settings, its private key, the CA certificate |
| `Certificates.UpToDateChainsToRoot` | pkg/controllers/kubeservice/pki/util.go:35-37 | if the hash tells the stored pairs apart, a leaf judged up to date holds, key by key, one signing by the two values of the root CA stored now |
| `Certificates.RootIsOneGeneration` | pkg/controllers/kubeservice/pki/reconcile.go:13-34 | in every run from a store without a root CA, outside deletions and strips included, a valid root CA is a self-signed certificate with the root settings and the private key of the same generation |
| `Certificates.SigningKeyIsOneGeneration` | pkg/controllers/kubeservice/kas/certs.go:98-118 | likewise a complete service-account key is the two halves of one generated key |
| `Certificates.SecretsNeverChange` | pkg/controllers/kubeservice/pki/reconcile.go:13-34 | from an empty namespace without outside edits the root CA is always valid, leaves are always up to date, and no secret's data ever changes or disappears |
| `Rotation.CompletedPassRotates` | pkg/controllers/kubeservice/reconciler.go:181-231 | from any store, a pass that completes leaves a valid root CA, all eight leaves up to date against it, both halves of the service-account key, and every secret a fixpoint of its reconcile function |
| `Rotation.SettledForever` | pkg/controllers/kubeservice/reconciler.go:181-231 | after that no pass of any run without outside edits writes any of the ten secrets: even their revisions stay |
| `Rotation.CompletedPassBringsUpAll` | pkg/controllers/kubeservice/reconciler.go:181-235 | a pass that completes leaves all 22 objects in place |
| `Contents.CompletedPassContents` | pkg/controllers/kubeservice/reconciler.go:263-534 | a completed pass leaves on all 22 objects the reference to the service, an etcd cluster of one member in version 3.4.9, deployments of one replica with the images the release has under their names, and the fixed manifests |
| `Rotation.PassCompletesExactly` | pkg/controllers/kubeservice/reconciler.go:76-235 | with every call answered a pass completes if and only if, in the store it starts from, the service is live, neither the EtcdCluster nor the two deployments are being deleted, the EtcdCluster's first Available condition is True, that of the API-server deployment is and it has an available replica (or the object is missing with its condition still True), the release is known, and the root CA is missing, lacks `ca.key`, or has both keys and can sign (or every leaf is up to date) |
| `Rotation.PassCompletesInRuns` | pkg/controllers/kubeservice/reconciler.go:76-235 | in every run from an empty namespace without outside edits, a pass whose calls are all answered completes if and only if the service is live, the EtcdCluster is not being deleted, both gates are open and the release is known |
| `Rotation.ServesInRuns` | pkg/controllers/kubeservice/pki/reconcile.go:13-34 | in every run from a store without a root CA, the last of these conditions fails exactly when `ca.key` is stored without `ca.crt` |
| `Limits.LoneKeyReachable` | pkg/controllers/kubeservice/pki/reconcile.go:15-32 | the first pass over an empty namespace, then `ca.crt` stripped from outside: a run to a lone, unmarked `ca.key`, where the next row starts |
| `Limits.NeverRepaired` | pkg/controllers/kubeservice/pki/reconcile.go:13-34 | in every run from there without outside edits, failing calls included, the root CA's data stays, no leaf is created or rewritten, and no pass completes |
| `Limits.BringsUpEtcd` | pkg/controllers/kubeservice/reconciler.go:76-202 | with every call answered, a pass that finds no EtcdCluster (as in an empty namespace), no deployment being deleted and no unusable root CA leaves a usable root CA and all eight etcd objects |
| `Steps.PassPreserves` | pkg/controllers/kubeservice/reconciler.go:76-235 | whatever every permitted step keeps is kept by a whole pass, wherever it is cut short |
| `Steps.PassKeepsIdentity` | pkg/controllers/kubeservice/reconciler.go:76-235 | no pass, wherever it is cut short, removes or replaces an object, marks one other than the EtcdCluster, or touches what other controllers report |
| `Steps.PutSecretEffect` | vendor/sigs.k8s.io/controller-runtime/pkg/controller/controllerutil/controllerutil.go:197-225 | a permitted write of a secret stores exactly what its reconcile function returned for the stored secret and the stored root CA, and touches nothing else |
| `Runs.RunPreserves` | pkg/controllers/kubeservice/reconciler.go:76-235 | an invariant of permitted steps and environment actions holds at every point of every run |
| `Runs.OwnersStayUnique` | pkg/controllers/kubeservice/reconciler.go:536-546 | in every run each object has at most one owner reference per group, kind and name |
| `Runs.PassKeepsOwners` | pkg/controllers/kubeservice/reconciler.go:548-556 | no pass takes away a reference to an owner other than the service |
| `Runs.ConditionsStayDistinct` | pkg/controllers/kubeservice/ks/status.go:11-39 | in every run the stored status has at most one condition per type |
| `Runs.AggregateTruth` | pkg/controllers/kubeservice/reconciler.go:160-179 | a pass that gets past its aggregate write ends with Available stored, True exactly when the first EtcdAvailable, the first KubeAPIServerAvailable and the first KubeControllerManagerAvailable conditions stored are all True, whatever happens later in the pass |
| `Runs.ConditionsReflectReports` | pkg/controllers/kubeservice/reconciler.go:96-159 | such a pass leaves for each component, if its object exists, status and texts as that object's own report says, with a new transition time exactly if the status is new, and the old entry otherwise; Available likewise for all three; no other type changes |
| `Runs.StatusStepsEnd` | pkg/controllers/kubeservice/reconciler.go:96-179 | which failed reads, deletions and failed writes end the pass in the deployment and aggregate steps, and that a failed read or a deletion ends it in the etcd step |
| `Reports.EtcdSaysExactly` | pkg/controllers/kubeservice/etcd/status.go:22-42 | a cluster counts as available if and only if some Available condition is True and no earlier one has that type |
| `Reports.DeploymentSaysExactly` | pkg/controllers/kubeservice/kas/status.go:21-27 | a deployment counts as available if and only if it has an available replica and some Available condition is True with no earlier one of that type |
| `Conditions.IsTrueExactly` | pkg/controllers/kubeservice/reconciler.go:163-170 | a condition is read as True if and only if the first entry of its type is |
| `Runs.CacheStaysTruthful` | pkg/controllers/kubeservice/reconciler.go:237-261 | in every run each cached release is what the uncached lookup finds; failures are never cached |
| `Runs.CacheAnswers` | pkg/controllers/kubeservice/reconciler.go:237-261 | an answer is the uncached lookup's answer; a cached spec costs no call and changes nothing; a successful lookup is stored under its spec beside the other entries, a failed one leaves the cache alone |
| `World.RanksNumber` | pkg/controllers/kubeservice/reconciler.go:263-534 | the ranks number the 22 objects of the bring-up, each once |
| `Settings.KeysDistinct` | pkg/controllers/kubeservice/reconciler.go:263-534 | no two of the 22 objects share kind and name |
| `Settings.ServiceOwnerParseable` | pkg/controllers/kubeservice/reconciler.go:536-546 | the operator's own owner reference has a parseable API version |
| `Reconciler.KubernetesServiceReconciler.Reconcile` | pkg/controllers/kubeservice/reconciler.go:76-235 | the imperative pass ends in the world and outcome of the pass function, about which the theorems above speak |
| `Reconciler.KubernetesServiceReconciler.StatusSteps` | pkg/controllers/kubeservice/reconciler.go:96-179 | the four status steps, each ending the pass where the source does |
| `Reconciler.KubernetesServiceReconciler.BringUpSteps` | pkg/controllers/kubeservice/reconciler.go:181-235 | root CA, etcd, gate, release image, API server, gate, controller manager, with an abort at the first failure |
| `Reconciler.KubernetesServiceReconciler.EtcdStatusStep` | pkg/controllers/kubeservice/reconciler.go:96-118 | a failed read or a cluster under deletion ends the pass, a missing cluster is passed over |
| `Reconciler.KubernetesServiceReconciler.JudgeCluster` | pkg/controllers/kubeservice/etcd/status.go:38-62 | the verdict on the cluster, the condition it sets in memory, and when the cluster is to be deleted |
| `Reconciler.KubernetesServiceReconciler.EtcdClusterHasTerminatedPods` | pkg/controllers/kubeservice/etcd/status.go:76-92 | true exactly when some container of some listed pod has terminated |
| `Reconciler.KubernetesServiceReconciler.ReconcileEtcdClusterStatus` | pkg/controllers/kubeservice/etcd/status.go:31-74 | status written before the deletion, and no deletion when that write fails |
| `Reconciler.KubernetesServiceReconciler.EtcdConditionByType` | pkg/controllers/kubeservice/etcd/status.go:22-29 | the first condition of the type, if any |
| `Reconciler.KubernetesServiceReconciler.DeploymentConditionByType` | pkg/controllers/kubeservice/ks/status.go:41-48 | the status of the first deployment condition of the type, if any |
| `Reconciler.KubernetesServiceReconciler.APIServerStatusStep` | pkg/controllers/kubeservice/kas/status.go:15-32 | True needs the Available condition and a replica; a failed write does not end the pass |
| `Reconciler.KubernetesServiceReconciler.ControllerManagerStatusStep` | pkg/controllers/kubeservice/kcm/status.go:15-32 | the same for the controller manager, but a failed write ends the pass |
| `Reconciler.KubernetesServiceReconciler.AggregateStep` | pkg/controllers/kubeservice/reconciler.go:160-179 | the aggregate condition from the three in memory, then its write |
| `Reconciler.KubernetesServiceReconciler.GetReleaseImage` | pkg/controllers/kubeservice/reconciler.go:237-261 | cache first, then one lookup, stored only if it succeeded |
| `Reconciler.KubernetesServiceReconciler.CreateOrUpdate` | vendor/sigs.k8s.io/controller-runtime/pkg/controller/controllerutil/controllerutil.go:197-225 | get, mutate, write only what changed, nothing when the mutate function fails |
| `Reconciler.KubernetesServiceReconciler.EnsureKSOwnerRef` | pkg/controllers/kubeservice/reconciler.go:536-546 | the object's references with the service's own upserted |
| `Reconciler.KubernetesServiceReconciler.MutateObject` | pkg/controllers/kubeservice/reconciler.go:263-534 | owner reference first, then each object's own reconcile function with its fixed settings |
| `Reconciler.KubernetesServiceReconciler.ReconcileEtcd` | pkg/controllers/kubeservice/reconciler.go:263-366 | the eight etcd objects in order under the root CA read at the start, stopping at the first failure |
| `Reconciler.KubernetesServiceReconciler.ReconcileKubeAPIServer` | pkg/controllers/kubeservice/reconciler.go:368-492 | the ten API-server objects likewise |
| `Reconciler.KubernetesServiceReconciler.ReconcileKubeControllerManager` | pkg/controllers/kubeservice/reconciler.go:494-534 | the three controller-manager objects likewise |
| `Pki.RootCAValidity` | pkg/controllers/kubeservice/pki/reconcile.go:13-34 | a successful root CA reconcile ends valid if and only if the secret began with `ca.crt` or without `ca.key`; it never changes the data of one that has `ca.key`, stores a self-signed pair of one generation otherwise, and leaves all other keys and the annotations alone |
| `Pki.SigningKeyCompleted` | pkg/controllers/kubeservice/kas/certs.go:98-118 | a successful reconcile of the service-account key leaves both halves: those there were, or two of one generated key when either was missing, and all else as it was |
| `Pki.PayloadKeys` | pkg/controllers/kubeservice/etcd/reconcile.go:182-208 | signing a leaf fills exactly the keys its up-to-date check expects |
| `Pki.LeafSigned` | pkg/controllers/kubeservice/pki/util.go:35-64 | a leaf that is not up to date is signed only by a CA key that belongs to the CA certificate; each of its keys, by name, then holds its part of one signing by the CA's two values with the leaf's settings, the hash of these values is annotated, the type is the leaf's, and all else stays |
| `Pki.UpToDateExactly` | pkg/controllers/kubeservice/pki/util.go:27-64 | a leaf is up to date if and only if it has all its keys, by name, and the annotation is the hash of the CA's certificate and key as they are now |
| `Pki.ReconcileLeafResult` | pkg/controllers/kubeservice/etcd/reconcile.go:182-279 | a successful leaf reconcile ends up to date; it kept data and annotations if the leaf was up to date, and otherwise left one signing by the given CA with the hash of its two values |
| `Pki.ReconcileLeafFixpoint` | pkg/controllers/kubeservice/pki/util.go:35-37 | a leaf that is up to date and has its type is left as it is |
| `Secrets.KeyNamesDistinct` | pkg/controllers/kubeservice/pki/util.go:14-18 | the data keys in use have distinct names |
| `Secrets.ServerAddresses` | pkg/controllers/kubeservice/kas/certs.go:31-48 | the API server's certificate is for 127.0.0.1 and 172.30.0.1, the first address of the service network |
| `Secrets.KubeconfigsReachServer` | pkg/controllers/kubeservice/kas/kubeconfig.go:15-27 | the host in each kubeconfig's URL is a name in the API server's certificate |
| `Secrets.UsagesFit` | pkg/controllers/kubeservice/kas/certs.go:50-54 | which of the eight leaves may sign, serve and act as a client |
| `Secrets.Secret.CheckKeys` | pkg/controllers/kubeservice/pki/util.go:82-89 | true exactly when all keys are present |
| `Secrets.Secret.AnnotateWithCA` | pkg/controllers/kubeservice/pki/util.go:20-25 | the hash annotation is set, all others stay |
| `Secrets.Secret.UpToDate` | pkg/controllers/kubeservice/pki/util.go:35-64 | all keys present and the annotation equal to the CA's hash |
| `Secrets.Secret.ReconcileRootCA` | pkg/controllers/kubeservice/pki/reconcile.go:13-34 | generation only when `ca.key` is missing; certificate and key of one generation |
| `Secrets.Secret.ReconcileServiceAccountSigningKey` | pkg/controllers/kubeservice/kas/certs.go:98-118 | a new key pair when either key is missing |
| `Secrets.Secret.ReconcileCertSecret` | pkg/controllers/kubeservice/etcd/reconcile.go:182-208 | invalid CA refused; type set; signed and annotated only when not up to date, and only by a CA key that belongs to its certificate |
| `Secrets.Secret.ReconcileServerCertSecret` | pkg/controllers/kubeservice/kas/certs.go:21-69 | the server certificate names localhost, the service names, the loopback address and the first service address |
| `Secrets.Secret.ReconcileSystemAdminKubeconfig` | pkg/controllers/kubeservice/kas/kubeconfig.go:29-58 | one kubeconfig entry from a fresh certificate, key and CA for the given URL |
| `Secrets.Secret.ReconcileSigned` | pkg/controllers/kubeservice/kcm/certs.go:19-45 | each of the eight leaves with its own type, keys and certificate settings |
| `VersionLabels.LabelRoundTrip` | pkg/releaseinfo/releaseinfo.go:145-275 | parsing both printed labels succeeds if and only if there is at most one component or every display name is non-empty, and then returns the map itself |
| `VersionLabels.UnnamedComponentRefused` | pkg/releaseinfo/releaseinfo.go:258-275 | a map of two components, one without a display name, that the parser can return and whose printed labels it refuses |
| `VersionLabels.ParserImage` | pkg/releaseinfo/releaseinfo.go:145-199 | the maps the parser can return are exactly those with allowed keys, plain versions and storable display names |
| `VersionLabels.AcceptedExactly` | pkg/releaseinfo/releaseinfo.go:145-199 | a label with its display names is accepted if and only if it is blank, or every display-name pair has an allowed key and display name and every version pair an allowed key and a semantic version, each pair split at its first equals sign |
| `VersionLabels.EntriesExactly` | pkg/releaseinfo/releaseinfo.go:145-199 | for each key the map has the version of the last pair with that key, up to its first plus sign, and the last display name given for the key; it has no other keys |
| `VersionLabels.VersionLabelNormalForm` | pkg/releaseinfo/releaseinfo.go:176-254 | printing a parse gives strictly key-sorted pairs without build metadata that reparse to the same versions; doing it again changes nothing |
| `VersionLabels.KeyPatternDecided` | pkg/releaseinfo/releaseinfo.go:201-204 | the allowed-key pattern as written is the direct test used by the parser |
| `VersionLabels.ParseComponentVersionsLabel` | pkg/releaseinfo/releaseinfo.go:145-199 | the loops of the parser compute the specified parse, errors included |
| `VersionLabels.OrderedKeys` | pkg/releaseinfo/releaseinfo.go:224-232 | the keys in strictly increasing order |
| `VersionLabels.PrintVersionLabel` | pkg/releaseinfo/releaseinfo.go:238-254 | the version pairs of the sorted keys joined by commas |
| `VersionLabels.PrintDisplayNameLabel` | pkg/releaseinfo/releaseinfo.go:256-275 | the display-name pairs joined by commas, with an empty pair for a missing name |
| `Semver.ParsePrint` | vendor/github.com/blang/semver/semver.go:227-314 | every valid version is read back from its printed form |
| `Semver.PrintParse` | vendor/github.com/blang/semver/semver.go:33-61 | whatever is accepted is the printed form of the valid version returned |
| `Semver.Accepts` | vendor/github.com/blang/semver/semver.go:227-357 | the accepted strings are exactly the printed forms of valid versions (items 2, 9 and 10 of Semantic Versioning 2.0.0, numbers within 64 bits) |
| `Semver.DropBuildPlain` | pkg/releaseinfo/releaseinfo.go:192-196 | dropping build metadata leaves a plain version, and changes no plain version |
| `Semver.DropBuildText` | pkg/releaseinfo/releaseinfo.go:188-196 | in print, the version without build metadata is the accepted text up to its first plus sign, prerelease included |
| `Semver.IdentifierCharsExactly` | vendor/github.com/blang/semver/semver.go:10-14 | the characters allowed in prerelease and build identifiers, listed |
| `ComponentMerge.ReadComponentVersions` | pkg/releaseinfo/releaseinfo.go:70-143 | the merge maps every component of every parsed tag to the least reported version and the least display name, and reports all parse errors and then all conflicts |
| `ComponentMerge.CollectTags` | pkg/releaseinfo/releaseinfo.go:74-98 | the collected sets are exactly what the tags report, for any map iteration order |
| `ComponentMerge.PickVersions` | pkg/releaseinfo/releaseinfo.go:100-120 | least version per component, conflicts where two or more were reported |
| `ComponentMerge.PickDisplayNames` | pkg/releaseinfo/releaseinfo.go:121-137 | least display name per component, conflicts added, versions untouched |
| `ComponentMerge.CleanExactlyWhenConsistent` | pkg/releaseinfo/releaseinfo.go:70-143 | no error if and only if no tag's annotations are refused by the parser and no two tags say different entries for a component |
| `ComponentMerge.ConflictsExact` | pkg/releaseinfo/releaseinfo.go:108-111 | a component is reported if and only if the annotations of the tags say two entries for it that differ in version or display name |
| `ComponentMerge.CleanMergeIsUnion` | pkg/releaseinfo/releaseinfo.go:100-137 | a clean merge has an entry for a component if and only if the annotations of some tag say that entry |
| `ComponentMerge.MergedIsLeast` | pkg/releaseinfo/releaseinfo.go:100-137 | with conflicts too, a merged component has the least of the versions and of the display names the tags say for it |
| `ComponentMerge.MergedUnique` | pkg/releaseinfo/releaseinfo.go:100-137 | what is reported determines the merged map |
| `ComponentMerge.MergeOrderIndependent` | pkg/releaseinfo/releaseinfo.go:70-143 | permuting the tags, conflicting or not, changes neither the merged map nor the conflict set |
| `ReleaseImages.ComponentImages` | pkg/releaseinfo/releaseinfo.go:33-39 | image by tag name, the last tag of a name winning |
| `ReleaseImages.StaticProviderDecorator.Lookup` | pkg/releaseinfo/static_provider.go:24-45 | the delegate's own object gets the static images appended in some order; failures and absent overrides change nothing |
| `ReleaseImages.OverlayImages` | pkg/releaseinfo/static_provider.go:35-43 | the component images are the delegate's, overridden by the static map, for any order |
| `ReleaseImages.RepeatedLookups` | pkg/releaseinfo/static_provider.go:24-45 | any number of lookups on a shared object gives the same images as one |
| `Conditions.ConditionList.GetConditionByType` | pkg/controllers/kubeservice/ks/status.go:32-39 | the first entry of the type, or none |
| `Conditions.ConditionList.SetConditionByType` | pkg/controllers/kubeservice/ks/status.go:11-30 | the list becomes the specified upsert of the old one |
| `Conditions.SetKeeps` | pkg/controllers/kubeservice/ks/status.go:11-30 | types stay distinct and in place, all other entries stay, the transition time changes only with the status |
| `Conditions.ApplyKeeps` | pkg/controllers/kubeservice/ks/status.go:11-39 | the same over any sequence of calls |
| `Conditions.ListRefinesHistory` | pkg/controllers/kubeservice/ks/status.go:11-39 | each entry holds its latest status, reason and message, and the time of the last call that created it or changed its status |
| `Conditions.LastTransitionUnique` | pkg/controllers/kubeservice/ks/status.go:23-25 | that call is unique, so the history fixes the timestamp |
| `EtcdConditions.ClusterStatus.GetClusterCondition` | thirdparty/etcd/v1beta2/status.go:182-189 | position of the first entry of the type, or -1 |
| `EtcdConditions.ClusterStatus.SetClusterCondition` | thirdparty/etcd/v1beta2/status.go:168-180 | replace or append, and nothing when status, reason and message are the same |
| `EtcdConditions.ClusterStatus.ClearCondition` | thirdparty/etcd/v1beta2/status.go:160-166 | the entry of the type is spliced out |
| `EtcdConditions.ClusterStatus.SetScalingUpCondition` | thirdparty/etcd/v1beta2/status.go:130-133 | one established condition, with its text |
| `EtcdConditions.ClusterStatus.SetScalingDownCondition` | thirdparty/etcd/v1beta2/status.go:135-138 | one established condition, with its text |
| `EtcdConditions.ClusterStatus.SetRecoveringCondition` | thirdparty/etcd/v1beta2/status.go:140-146 | Recovering established, then Available removed |
| `EtcdConditions.ClusterStatus.SetUpgradingCondition` | thirdparty/etcd/v1beta2/status.go:148-153 | one established condition naming the version |
| `EtcdConditions.ClusterStatus.SetReadyCondition` | thirdparty/etcd/v1beta2/status.go:155-158 | Available established |
| `EtcdConditions.ListRefinesHistory` | thirdparty/etcd/v1beta2/status.go:130-189 | from an empty list, a present entry carries the time of the change that first established its present status, reason and message; an absent type was last removed or never set |
| `EtcdConditions.RunDistinct` | thirdparty/etcd/v1beta2/status.go:130-189 | types stay distinct over any sequence of changes |
| `EtcdConditions.DistinctMeans` | thirdparty/etcd/v1beta2/status.go:182-189 | distinctness as used is that no two entries share a type |
| `EtcdConditions.ClearKeepsOrder` | thirdparty/etcd/v1beta2/status.go:160-166 | removal takes out its entry, keeps all others and the order of any two of them |
| `EtcdConditions.RunOpsHistory` | thirdparty/etcd/v1beta2/status.go:130-166 | running operations one by one is running the history of their changes |
| `EtcdConditions.AbsentUntilReady` | thirdparty/etcd/v1beta2/status.go:140-158 | Available stays absent from SetRecoveringCondition until SetReadyCondition |
| `OwnerRefs.SameObjectLaws` | pkg/controllers/kubeservice/reconciler.go:568-581 | symmetric and transitive, and reflexive exactly on parseable API versions |
| `OwnerRefs.SameObjectExactly` | pkg/controllers/kubeservice/reconciler.go:568-581 | two references are to the same object if and only if their API versions name one group, whatever the version, and kind and name are equal |
| `OwnerRefs.GroupMeans` | vendor/k8s.io/apimachinery/pkg/runtime/schema/group_version.go:211-227 | "group/version" names that group, and a text without a slash the core group |
| `OwnerRefs.ParseableExactly` | vendor/k8s.io/apimachinery/pkg/runtime/schema/group_version.go:211-227 | parseable means at most one slash |
| `OwnerRefs.IndexOwnerRef` | pkg/controllers/kubeservice/reconciler.go:558-566 | position of the first reference to the same object, or -1 |
| `OwnerRefs.EnsureOwnerRef` | pkg/controllers/kubeservice/reconciler.go:548-556 | the found slot is overwritten in the caller's slice, otherwise a longer slice is returned |
| `OwnerRefs.UpsertKeeps` | pkg/controllers/kubeservice/reconciler.go:548-556 | the reference is in the result; positions and all other entries stay |
| `OwnerRefs.UpsertIdempotent` | pkg/controllers/kubeservice/reconciler.go:548-556 | a second upsert changes nothing if and only if the reference is parseable |
| `OwnerRefs.UnparseableGrows` | pkg/controllers/kubeservice/reconciler.go:548-581 | with API version "a/b/c" the same reference is in the list twice after two calls |
| `OwnerRefs.UpsertUnique` | pkg/controllers/kubeservice/reconciler.go:548-556 | at most one reference per object stays so |
| `ServiceIP.SuccessorValue` | pkg/controllers/kubeservice/kas/certs.go:120-130 | read big-endian the successor is value plus one, and the highest address wraps to zero |
| `ServiceIP.AdvanceValue` | pkg/controllers/kubeservice/kas/certs.go:120-130 | k applications add k modulo 256 to the length |
| `ServiceIP.ValueInjective` | pkg/controllers/kubeservice/kas/certs.go:120-130 | length and value determine the address, so the two rows above fix every byte |
| `ServiceIP.NextIP` | pkg/controllers/kubeservice/kas/certs.go:120-130 | the carry loop computes the successor in a new array and leaves its argument alone |
| `ServiceIP.FirstAddressInRange` | pkg/controllers/kubeservice/kas/certs.go:132-134 | for a masked network, the first address lies in it if and only if the prefix leaves a host bit (prefix notation of section 3.1 of RFC 4632) |
| `ServiceIP.InNetworkExactly` | pkg/controllers/kubeservice/kas/certs.go:132-134 | an address lies in a network if and only if it has its length and its first bits, as a number, are the network's |
| `ServiceIP.FirstIP` | pkg/controllers/kubeservice/kas/certs.go:132-134 | the successor of the network address, in a new array |

## Left out

- Real cryptography and encodings (RSA, X.509, PEM, MD5, kubeconfig serialisation): terms and an arbitrary hash function; re-encoding a decoded CA certificate is taken to give the stored bytes; certificate expiry and key usages other than certificate signing are not represented.
- crypto/x509 is not part of this model: `CanSign` takes over its refusal of a CA key that does not belong to the CA certificate. Whether signing refuses depends on the Go release (the build uses golang-1.16, Dockerfile:1). By `Certificates.RootIsOneGeneration` this makes no difference to any pair that arises in a run from a store without a root CA.
- Creation stamps are whole seconds; deletion marks keep the exact moment, which nothing in the operator reads, and there is one monotone clock for the operator and the API server.
- Conditions.ConditionList.SetConditionByType: the time is passed in and not truncated to whole seconds.
- EtcdConditions.ClusterStatus.SetClusterCondition: the RFC 3339 time text is passed in; only its identity matters.
- Stale informer caches, concurrent passes, environment actions in the middle of a pass, resource-version conflicts other than as refused calls, and garbage collection after the service is deleted.
- Reconciler.KubernetesServiceReconciler.MutateObject: service account, role, role binding, service, config maps and the deployments' templates are one token each (deployments keep their images and replica count), because they are fixed manifests; fields defaulted by the API server are not modelled, so the fixpoint theorems speak of secrets only.
- Reconciler.KubernetesServiceReconciler.GetReleaseImage: the pod that reads the release image is an oracle depending on the pull spec alone; the mutex and the client construction are not modelled.
- Reconciler.KubernetesServiceReconciler.JudgeCluster: which pods carry the cluster's label is the API server's answer to one call (the source does not restrict the list to the namespace); of a pod only the states of its containers are modelled.
- Reconciler.KubernetesServiceReconciler.Reconcile: requeue delays, events, logging and error texts are not modelled; the outcome says how far the pass came.
- VersionLabels.ParseComponentVersionsLabel: error texts are abstracted to their kind and the offending text; strings are sequences of characters, so invalid UTF-8 is not modelled.
- ReleaseImages.ComponentImages: every tag has a `from` reference; a nil one makes the source panic.
- ReleaseImages.StaticProviderDecorator.Lookup: the lock is not modelled.
- Secrets.Secret.ReconcileServerCertSecret: the service CIDR is the operator's constant, so the error of parsing it does not occur.
- `ComponentVersions()`, `Version()`, the simple setters of the etcd status, `SetDefaults` and `Validate`: single-branch facts.
- Scheme registration, generated deep copies, CRDs, `main.go` and the command-line tools.
