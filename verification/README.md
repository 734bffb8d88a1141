# Verification of Rancher Turtles

A Dafny model of the reconcilers of Rancher Turtles, with proofs of what they keep over whole runs.
Turtles ties Cluster API (CAPI) clusters to Rancher clusters, translates cloud credentials, and
prepares CAPI providers. `dafny verify dfyconfig.toml` checks everything.

## What is modelled

**The API server** (`ApiServer`). Objects have a resource version, a UID, finalizers and a deletion
mark. A write with a stale version is refused. Deleting an object with finalizers only marks it, it
goes when its last finalizer goes, and a marked object accepts no new finalizer.

**The import protocol** (`ImportProtocol`, `ImportSticks`, `ImportProgress`, `ImportOutcome`,
`ImportReconciler`, `OwnerLabels`, `ImportDecision`). One worker per CAPI cluster sends one request at a time. Between
any two requests users, workers of other clusters, the cleanup reconciler and crashes may act, and a
request may be served, refused, or carried out with its answer lost. `ImportReconciler` is the
controller as it is written, over objects in memory; each of its passes is proved to be one whole
pass of the protocol. Un-import sticks only while the cleanup reconciler keeps off the cluster's
records; `CleanupBreaksSticking` gives the run that shows why. `ImportOutcome` says what an undisturbed pass
makes of clusters and records in terms of their labels, annotations and finalizers alone.

**The credential protocol** (`CredentialProtocol`, `CredentialOwnership`, `CredentialReconciler`).
The same, for Secrets and identities translated from a cloud credential and owned by UID.

**Two writers of one Secret** (`SecretSync`, `SecretSyncController`). A round reads twice and then
writes twice. When the Secret does not exist yet, the second writer's update carries no version and
replaces what the first has just created, while the round reports success (`RoundFromNothing`); the
next round repairs it. `SuccessSettlesExactly` says exactly when success means that all is written.

**The manifest rewrite** (`Manifest`, `WranglerPatcher`, `WranglerSpec`, `ManifestAlteration`) and
**the clean-up of a live cluster** (`CertManagerCleanup`). The rewrite is a function with a
declarative meaning; the passes that edit the objects in place are proved to compute it. The
meaning can fail when a namespace has a slash (`SlashesLoseServices`), and
`WrangleMeetsSpecExactly` says exactly when. The clean-up may fail at any
request, and rerunning it reaches the same cluster.

**The clusterctl configuration** (`Segments`, `ProviderConfig`) and **the version check** (`SemVer`,
`VersionCap`, `ProviderDefaults`). Built-in providers and images with the user's laid over them, the
lookup of a provider's version, and the cap that every reconcile applies.

**The import manifest** (`ImportManifest`) and **the collection of examples** (`ExampleCollection`).

Two comments in the repository say other than the code, and the model follows the code.
`internal/controllers/clusterctl/config.go:235-236` says that a version newer than the bound yields
false; the code yields true, and the caller then lowers the version to the bound.
`internal/sync/secret_mapper_sync.go:320-321` speaks of a server-side apply with a field owner of its
own; the code updates or creates, like the other synchronizer.

## Assumptions

- The same key is never reconciled by two workers at once.
- Gets and lists return the current state. The import reconciler lists through a cache in fact.
- Nobody but Turtles writes the turtles finalizers, the owner labels and the UID annotations.
- UIDs and resource versions are never reused.

## Model

| member | source | states |
|---|---|---|
| ImportProtocol.NoOrphanedImport | internal/controllers/import_controller.go:154-285 | No orphaned import: after any run of requests, crashes, conflicts, lost answers, user edits and deletions and cleanup steps, a Rancher Cluster that carries the three owner labels of a key and is not in deletion has its CAPI Cluster, and that cluster carries the turtles finalizer |
| ImportProtocol.AtMostOneRecord | internal/controllers/import_controller.go:208-324 | At most one Rancher Cluster, live or in deletion, ever carries a key's three owner labels, over every run and any number of keys |
| ImportProtocol.RunKeeps | internal/controllers/import_controller.go:136-285 | The invariant behind both theorems, which ties what each worker holds in memory to what the server stores, holds after every run |
| ImportProtocol.OwnStepKeeps | internal/controllers/import_controller.go:205-285 | Every single request of a worker, in each of its fates (served, refused, answer lost), keeps that worker's invariant |
| ImportProtocol.OtherStepRely | internal/controllers/import_controller.go:136-285 | A request of the worker for another key leaves a key's rely intact, so keys do not disturb each other |
| ImportProtocol.GiveUpKeeps | internal/controllers/import_controller.go:258-263 | A write that takes the turtles finalizer off the CAPI Cluster is safe, because no live record is left or the write is refused |
| ImportProtocol.CreateKeeps | internal/controllers/import_controller.go:335-345 | Creating the record keeps the invariant: the list found none, and the CAPI Cluster is still held |
| ImportSticks.UnimportSticks | internal/controllers/import_controller.go:474-499 | Un-import sticks: in every run in which no cleanup step takes the finalizer off a record of the key, between two creations of a record for the same CAPI Cluster (by UID) a user has cleared the imported annotation at a time when no record of it was live |
| ImportSticks.RunSticks | internal/controllers/import_controller.go:179-251 | The history invariant: once a record has been created and until a clearing, either a record exists, a worker is about to annotate, or the CAPI Cluster is annotated |
| ImportProgress.CleanupBreaksSticking | internal/controllers/cleanup_controller.go:60-74 | Why such steps are excluded there: from every initial state with an importable cluster, held or not, and for every unused record name, a run with one cleanup step and no user edit of the CAPI Cluster imports the same cluster twice |
| ImportProgress.NewClusterIsImported | internal/controllers/import_controller.go:154-345 | An undisturbed pass over an importable cluster takes hold of it and creates its record, and nothing else |
| ImportProgress.HeldClusterIsImported | internal/controllers/import_controller.go:287-345 | The same for a cluster that is held already, as after a crash between the two writes |
| ImportProgress.DeletedRecordIsReleased | internal/controllers/import_controller.go:235-251 | An undisturbed pass over the deletion of a record annotates the CAPI Cluster, gives up the hold on it and takes the turtles finalizer off the record |
| ImportProgress.DeletedClusterIsReleased | internal/controllers/import_controller.go:254-266 | An undisturbed pass over the deletion of a CAPI Cluster leaves no live record and no hold; the cluster is gone if the hold was its last finalizer |
| ImportOutcome.ImportedExactly | util/util.go:34-78 | Exactly when an undisturbed pass makes a record for a ready cluster without one: if the auto-import label of its own is one of 1, t, T, true, TRUE and True, or if it has no such label and its namespace has one with such a value; otherwise all records stay as they are, and either way the CAPI Cluster changes by the hold alone |
| ImportOutcome.AnnotatedMeanwhile | util/util.go:52-78 | If the cluster has been annotated as imported by the time of the decision, its own label no longer suffices and the namespace decides |
| ImportOutcome.ImportedIsLeft | internal/controllers/import_controller.go:179-182 | A cluster annotated as imported is left alone, alive or in deletion |
| ImportOutcome.NotReadyIsOnlyHeld | internal/controllers/import_controller.go:154-177 | A cluster whose control plane is not available is taken hold of, and no more |
| ImportOutcome.PropagatesExactly | internal/controllers/import_controller.go:544-549 | A label is propagated exactly if neither group name occurs anywhere in its key |
| ImportOutcome.NewRecordMeans | internal/controllers/import_controller.go:294-327 | A record that is made has the three owner labels and the propagatable labels of the CAPI Cluster with their values and no other, the turtles finalizer, and the opt-out annotations |
| ImportOutcome.RecordIsRefreshed | internal/controllers/import_controller.go:268-280 | An undisturbed pass over a live record brings its labels, finalizer and annotations up to date and keeps the rest of it and every other record; the CAPI Cluster loses the fleet finalizer if that addon is not in use, and nothing else |
| ImportOutcome.DeletedRecordMeans | internal/controllers/import_controller.go:474-499 | After a record in deletion: the CAPI Cluster is annotated as imported and loses the turtles finalizer, then the record does; nothing else changes on either |
| ImportOutcome.DeletedClusterMeans | internal/controllers/import_controller.go:254-266 | After a CAPI Cluster in deletion: records with its owner labels are deleted, others are not, and it loses the turtles finalizer |
| ImportOutcome.CleanupMeans | internal/controllers/cleanup_controller.go:60-74 | The cleanup reconciler takes the turtles finalizer off a record in deletion that nobody has changed since, and does nothing else |
| ImportReconciler.CAPIImportReconciler.Reconcile | internal/controllers/import_controller.go:136-203 | One pass, for every script of disturbances around its requests, is a run of the protocol that starts with the pass and takes it to its end without a crash |
| ImportReconciler.CAPIImportReconciler.ReconcileCluster | internal/controllers/import_controller.go:205-285 | From the list to the closing patch: the branch for a deleting record comes before the one for a deleting CAPI Cluster, and the closing patch is made against the copy the pass began with |
| ImportReconciler.CAPIImportReconciler.ReconcileDelete | internal/controllers/import_controller.go:474-499 | Annotation and finalizer go in one locked patch; the record's finalizer may be taken off only if that patch went through |
| ImportReconciler.CAPIImportReconciler.DeleteAllOf | internal/controllers/import_controller.go:501-514 | A collection delete that fails may have deleted some records; the CAPI Cluster is released only after one that succeeded |
| ImportReconciler.CAPIImportReconciler.ReconcileNormal | internal/controllers/import_controller.go:287-345 | With a record, patch it at most once; without one, decide anew and create it |
| ImportReconciler.CAPIImportReconciler.ShouldAutoImportUncached | internal/controllers/import_controller.go:415-431 | The decision is taken on a copy read anew, which replaces the one in memory; the namespace is asked only when the cluster leaves it open |
| ImportReconciler.CAPIImportReconciler.PassesAreSafe | internal/controllers/import_controller.go:136-285 | However many passes it has made, the reconciler's world has no orphaned and no second record |
| ImportReconciler.Passes | internal/controllers/import_controller.go:136-285 | A controller that starts in an initial state and makes any number of passes, whatever happens around its requests, leaves no orphaned record and no second one |
| ApiServer.GuardedSurvives | internal/controllers/import_controller.go:154-170 | An object under a finalizer survives every request that does not take that finalizer off, deletion included |
| ApiServer.DeletionMeans | internal/controllers/import_controller.go:501-514 | Deletion in two stages: an object without finalizers goes at once, any other is marked and keeps all else, and deleting again changes nothing |
| ApiServer.WriteToDeleting | internal/controllers/import_controller.go:154-170 | A locked write to an object in deletion goes through exactly if nobody has written since and it brings no new finalizer; the object is gone after it exactly if it leaves none |
| OwnerLabels.PropagateLabels | internal/controllers/import_controller.go:538-552 | The loop over the CAPI labels, in any order, computes the record's labels overlaid with those that may propagate |
| OwnerLabels.SelectorFindsExactlyItsOwn | internal/controllers/import_controller.go:208-327 | A record created for a key is selected by that key and by no other, and propagation never changes which key selects it |
| OwnerLabels.LabelsOverRuns | internal/controllers/import_controller.go:538-552 | Over any sequence of CAPI label edits and reconciles a record keeps its owner and every label key it ever had |
| OwnerLabels.ReconcileBringsLabelsUpToDate | internal/controllers/import_controller.go:538-552 | Right after a reconcile each CAPI label that may propagate is on the record with its current value, and every other label is what it was |
| CredentialProtocol.NoOrphanedCredential | internal/controllers/credentialtranslation_controller.go:134-244 | No orphaned credential: after any run, a translated Secret or identity that carries a source UID and is not in deletion has its source credential, of that UID and name and with the finalizer |
| CredentialProtocol.RunKeeps | internal/controllers/credentialtranslation_controller.go:134-244 | The invariant behind it, over copies held in memory, half-made translations and half-done cleanups |
| CredentialProtocol.OwnStepKeeps | internal/controllers/aws_translator.go:55-109 | Every single request of a translation or a cleanup keeps it, whatever becomes of the request |
| CredentialOwnership.ForeignObjectsUntouched | internal/controllers/helpers.go:434-458 | From any point of any run on, an object without a source UID stays exactly as it is until somebody other than the controller addresses it; objects created in mid-run are included |
| CredentialOwnership.CollisionCause | internal/controllers/helpers.go:434-446 | The ownership collision arises only against an object without a source UID, or against one of a deleted predecessor: in deletion, kept by finalizers of its own, with a UID that the credential of that name had earlier in the run and has no longer |
| CredentialOwnership.NoCollisionWithPredecessor | internal/controllers/aws_translator.go:75-190 | If translated objects have no finalizers, a credential deleted and recreated under the same name never collides with what its predecessor left |
| CredentialOwnership.TranslationCompletes | internal/controllers/credentialtranslation_controller.go:134-221 | An undisturbed pass over a credential with both keys, from whatever half-made state of its own, adds the finalizer if it is missing, leaves a Secret with the access key and the secret key of the credential and an identity that names that Secret and allows fleet-default, both annotated with the UID of the credential, keeps their labels, finalizers and other annotations, and leaves the credential pointing at the identity |
| CredentialOwnership.CleanupCompletes | internal/controllers/credentialtranslation_controller.go:225-244 | An undisturbed pass over a deleted credential deletes what was translated from it, and then takes off its own finalizer |
| CredentialOwnership.OthersAreLeft | internal/controllers/credentialtranslation_controller.go:142-167 | A credential of another driver, or whose provider is not ready, is left alone |
| CredentialOwnership.IncompleteIsNotTranslated | internal/controllers/aws_translator.go:55-61 | A credential that lacks a key is taken hold of and not translated |
| CredentialReconciler.RancherCredentialReconciler.Reconcile | internal/controllers/credentialtranslation_controller.go:134-175 | One pass, for every script of disturbances, is a run of the protocol that starts with the pass and takes it to its end without a crash |
| CredentialReconciler.RancherCredentialReconciler.ReconcileNormal | internal/controllers/credentialtranslation_controller.go:179-221 | The finalizer comes before the translation, and the identity reference after it |
| CredentialReconciler.RancherCredentialReconciler.ReconcileDelete | internal/controllers/credentialtranslation_controller.go:225-244 | The finalizer is taken off only after a cleanup that succeeded |
| CredentialReconciler.RancherCredentialReconciler.Translate | internal/controllers/aws_translator.go:55-72 | Secret before identity; a credential without both keys is not translated |
| CredentialReconciler.RancherCredentialReconciler.CreateOrUpdate | internal/controllers/aws_translator.go:137-190 | Get, check the owner, then create or update; a Secret without a difference is not written, an identity always is |
| CredentialReconciler.RancherCredentialReconciler.Cleanup | internal/controllers/aws_translator.go:75-109 | Identity before Secret; the first failure stops the cleanup |
| CredentialReconciler.RancherCredentialReconciler.PassesAreSafe | internal/controllers/credentialtranslation_controller.go:134-244 | However many passes it has made, each live translated object has its source, owned and with the finalizer |
| CredentialReconciler.Passes | internal/controllers/credentialtranslation_controller.go:134-244 | A controller that starts in an initial state and makes any number of passes, whatever happens around its requests, leaves every live translated object with its source |
| SecretSync.TwoRoundsConverge | internal/sync/interface.go:44-66 | From every writable Secret, none included, two writers that agree on shared keys settle after two rounds: the data is the old data overlaid with both, and no later round writes or fails |
| SecretSync.RoundFromExisting | internal/sync/core.go:48-76 | From an existing Secret exactly one of the two writes takes effect if the first has anything to write: the second then meets a conflict and the round fails |
| SecretSync.RoundFromNothing | internal/sync/client.go:40-61 | From no Secret both writes go through and the round succeeds, yet the second, which carries no version, has replaced the first one's data |
| SecretSync.SuccessSettlesExactly | internal/controllers/operator_reconciler.go:489-506 | With writers that agree, a round that reports success leaves a Secret with everything both want exactly when the Secret existed before, or the second writer wants all that the first does |
| SecretSync.QuietOnlyIfAgreed | internal/controllers/operator_reconciler.go:489-506 | A round without an error and without a write happens only if the two writers agree on shared keys and the Secret has everything both want |
| SecretSync.AgreementIsQuiet | internal/controllers/operator_reconciler.go:489-506 | And if they agree, there is a Secret from which a round is quiet |
| SecretSync.FaultsDoNotMatter | internal/sync/interface.go:55-66 | After any number of rounds in which either write may not reach the server, two undisturbed rounds reach the same data |
| SecretSync.LockedWrite | internal/sync/client.go:40-61 | One locked write: it stores the values over what was there, claims the Secret, and writes nothing exactly when all of that is there already |
| SecretSync.LockedWriteKeeps | internal/sync/core.go:61-105 | Such a write adds the finalizer, the owner and the values, and keeps every other key and finalizer |
| SecretSync.SourceMissingStopsTheRound | internal/controllers/operator_reconciler.go:498-500 | A round whose source credential is missing fails and writes nothing, variables included |
| SecretSync.VariablesAlone | internal/sync/interface.go:44-66 | A round without a credential to map lays the variables over the Secret and claims it |
| SecretSyncController.SyncSecrets | internal/controllers/operator_reconciler.go:489-506 | The round as written, over synchronizers that edit their destinations, is the specified round for every state of the server |
| SecretSyncController.SyncAll | internal/sync/interface.go:44-52 | Every synchronizer reads, even after one has failed; the result tells whether all found their source |
| SecretSyncController.ApplyList | internal/sync/interface.go:55-66 | Every synchronizer writes, in list order, even after one has failed |
| SecretSyncController.Synchronizer.Get | internal/sync/secret_mapper_sync.go:230-283 | A mapper whose source credential is missing does not read its destination |
| SecretSyncController.Synchronizer.Apply | internal/sync/core.go:61-105 | Finalizer and owner reference are set, then the destination is updated or created |
| SecretSyncController.Into | internal/sync/secret_mapper_sync.go:327-340 | Every target is written, by the last mapping onto it, even when its source is missing, and nothing else is: a raw one holds the source value, an encoded one its encoding, a template one the encoding of the rendered data; the result tells whether no source was missing |
| SecretSyncController.MappedKeys | internal/sync/secret_mapper_sync.go:121-184 | With distinct targets each target holds what its own mapping says, kind by kind: a missing source gives the empty text, or its encoding |
| SecretSyncController.ValuesMean | internal/sync/secret_mapper_sync.go:121-184 | The mapped data for any mappings, repeated targets included: of several mappings onto one target the last decides |
| WranglerSpec.WrangleMeetsSpec | internal/provider/wrangler.go:69-123 | The declarative meaning, for slash-free namespaces: the input in order minus Certificates and Issuers; no inject annotation is left; each Service called by an annotated webhook configuration carries the secretName of the certificate that the last such configuration cites; nothing else changes |
| WranglerSpec.WrangleMeetsSpecExactly | internal/provider/wrangler.go:69-123 | Exactly when the rewrite meets that meaning, for every manifest it accepts: for each called Service the last call with its namespace/name key is its own, or the manifest brings the right annotation already |
| WranglerSpec.MeaningDeterminesResult | internal/provider/wrangler.go:69-123 | The meaning leaves no choice: a manifest has at most one result that meets it |
| WranglerSpec.CalledServiceIsTold | internal/provider/wrangler.go:69-123 | On the objects themselves: a Service that a MutatingWebhookConfiguration or ValidatingWebhookConfiguration with the inject annotation calls leaves with the secretName of the last Certificate that the last such configuration cites, and is otherwise unchanged |
| WranglerSpec.IndexedMeans | internal/provider/rancher.go:26-48 | The cluster-indexed label goes onto a CRD with the value true, and onto nothing else |
| WranglerSpec.GivenExactly | internal/provider/wrangler.go:156-190 | With slashes too: the services map gives a service a secret exactly when the last call with its key is for that very service |
| WranglerSpec.RewriteExactly | internal/provider/wrangler.go:87-122 | The same for one object: exactly when it is rewritten as the meaning says |
| WranglerSpec.SlashesLoseServices | internal/provider/wrangler.go:156-190 | A manifest with a slash in a namespace for which the rewrite succeeds and the meaning fails: its Service is called by the annotated configuration and comes out without the annotation |
| WranglerSpec.SlashFreeNoClash | internal/provider/wrangler.go:192-242 | Slash-free namespaces exclude that |
| WranglerSpec.WrangleFailsExactly | internal/provider/wrangler.go:128-190 | The rewrite fails exactly if a Certificate has no usable secretName, an annotated object cites a certificate that is not in the manifest, or an annotated webhook configuration does not decode |
| WranglerSpec.WrangleErrorExplained | internal/provider/wrangler.go:128-190 | The error names a cause that the manifest has: a secretName that is missing or no text, a citation that no Certificate answers, or an annotated configuration that does not decode |
| WranglerSpec.WrangleIdempotent | internal/provider/wrangler.go:69-123 | Rewriting a rewritten manifest changes nothing |
| WranglerSpec.WrangleCommutesWithIndexing | internal/provider/rancher.go:26-48 | The rewrite and the cluster-indexed label may be applied in either order, errors included |
| WranglerSpec.CallsMeaning | internal/provider/wrangler.go:156-242 | A service is called exactly if some annotated configuration names it, and its last call carries the secret that the last of them cites |
| WranglerPatcher.CertificatesMeaning | internal/provider/wrangler.go:128-149 | The certificate map: it fails exactly on a Certificate without a usable name, and otherwise has the last Certificate of each key |
| ManifestAlteration.Wrangle | internal/provider/wrangler.go:69-123 | The passes over the objects in place compute the specified rewrite, and are all-or-nothing: on an error every object is as it was |
| ManifestAlteration.GetCertificates | internal/provider/wrangler.go:128-149 | The loop computes the certificate map or the first error |
| ManifestAlteration.GetServices | internal/provider/wrangler.go:156-190 | The loop computes the services map or the first error |
| ManifestAlteration.AddWebhookServices | internal/provider/wrangler.go:192-242 | One configuration's loop adds each service it calls, the later ones winning |
| ManifestAlteration.PatchService | internal/provider/wrangler.go:87-106 | The inner loop over the services map gives the same result in whatever order the map yields its entries |
| ManifestAlteration.Cleanup | internal/provider/wrangler.go:108-122 | The inject annotation goes from every object; Certificates and Issuers are filtered out in order |
| ManifestAlteration.AddClusterIndexedLabel | internal/provider/rancher.go:26-48 | Every CRD, and nothing else, gets the label, in place |
| Manifest.NameKeyInjective | internal/provider/wrangler.go:128-135 | The namespace/name key tells objects apart when namespaces have no slash |
| CertManagerCleanup.Provider.CleanupCertManagerResources | internal/provider/wrangler.go:247-378 | A pass over the live cluster that may fail at any request: it has dealt with exactly some selected objects, with all of them if it succeeds, and the condition is set exactly then; a converted provider is left alone |
| CertManagerCleanup.Provider.DeleteKind | internal/provider/wrangler.go:274-312 | Certificates or Issuers: those listed are deleted, up to the first failure |
| CertManagerCleanup.Provider.StripKind | internal/provider/wrangler.go:318-365 | CRDs and webhook configurations: the annotation goes from those listed, up to the first failure |
| CertManagerCleanup.Provider.RestartDeployments | internal/provider/wrangler.go:434-465 | Deployments: those listed are restarted, up to the first failure |
| CertManagerCleanup.SuccessMeans | internal/provider/wrangler.go:247-378 | Success means that no selected Certificate or Issuer remains except in deletion, no selected CRD or webhook configuration keeps the annotation, and unselected objects are unchanged |
| CertManagerCleanup.Convert | internal/provider/wrangler.go:247-495 | A pass for a provider told by namespace, type prefix and names: it sets the condition exactly on success; then every Certificate, Issuer and Deployment of the namespace and every CRD and webhook configuration whose provider label is the name, with or without the prefix, has been deleted, restarted or stripped; any other object is untouched, success or not |
| CertManagerCleanup.PassDealsWith | internal/provider/wrangler.go:247-495 | The same for each object of a pass that has reached only some of them |
| CertManagerCleanup.AfterKeepsSelection | internal/provider/wrangler.go:467-495 | No pass changes what is selected of the kinds it has not dealt with |
| CertManagerCleanup.Provider.constructor | internal/provider/wrangler.go:467-495 | A provider selects by its namespace and by its name, spec name first, with and without the prefix of its type |
| CertManagerCleanup.RerunReachesTheGoal | internal/provider/wrangler.go:247-378 | After any sequence of passes that failed half-way, a pass without failures reaches exactly the cluster that it would have reached without them |
| CertManagerCleanup.OnlyRestartTimesDiffer | internal/provider/wrangler.go:456-458 | Passes at different times reach clusters that differ in rollout times only |
| CertManagerCleanup.Reconciles | internal/provider/wrangler.go:247-378 | Passes repeated until one goes through: the condition is set exactly then, and the cluster is, rollout times aside, what one undisturbed pass leaves |
| ProviderConfig.MergeProviders | internal/controllers/clusterctl/config.go:134-154 | The index and the override loop compute the merge: built-ins in place, each replaced by the last override with its key if it is the last built-in with that key, then the overrides with new keys in order |
| ProviderConfig.MergedShape | internal/controllers/clusterctl/config.go:134-154 | The length is that of the built-ins plus the overrides with new keys; built-ins keep their order and keys |
| ProviderConfig.KeyIsInjective | internal/controllers/clusterctl/config.go:138-143 | The name-type key tells providers apart when types have no hyphen |
| ProviderConfig.Lookup | internal/controllers/clusterctl/config.go:212-220 | What a lookup after the merge finds, with duplicates and letter case allowed for, whenever equal keys mean the same provider |
| ProviderConfig.VersionAfterMerge | internal/controllers/clusterctl/config.go:134-233 | For hyphen-free built-in types without case-folded duplicates, and any overrides: a built-in provider has the version of the last override with its exact key, else its own; if that override's type has a hyphen, the lookup falls through to the overrides with new keys. Any other provider of a hyphen-free type has that of the first override; latest for an unknown one |
| ProviderConfig.BuiltInFoundExactly | internal/controllers/clusterctl/config.go:134-220 | For such built-ins and any overrides, the lookup of a built-in provider finds that provider's place exactly when the last override with its key, if there is one, has no hyphen in its type |
| ProviderConfig.EqualFoldExactly | internal/controllers/clusterctl/config.go:212-220 | Types are the same exactly if they have the same letters, upper or lower case |
| ProviderConfig.TypesAreToldApart | internal/controllers/clusterctl/config.go:212-220 | Of two providers of one name and different types each lookup finds its own, in any letter case; another name or type is unknown |
| ProviderConfig.HyphensMisdirect | internal/controllers/clusterctl/config.go:141-154 | An override of the provider cluster with the type api-CoreProvider makes the built-in core provider cluster-api unknown |
| ProviderConfig.MiscasedOverrideIsLost | internal/controllers/clusterctl/config.go:141-154 | An override whose type differs from the built-in's in letter case only is kept in the list, and every lookup of its provider, in any letter case, finds the built-in's place, where another entry stands, as long as no override of a type with a hyphen has taken that place |
| ProviderConfig.VersionOfUrl | internal/controllers/clusterctl/config.go:222-233 | The version is what stands between the last two slashes of the URL; latest without a slash |
| ProviderConfig.ExtractNamespaceDropsTheHost | internal/controllers/clusterctl/config.go:201-208 | The first path segment goes and the rest stays, for every repository; one without a slash stays whole |
| ProviderConfig.RehomedKeepsPathAndTag | internal/controllers/clusterctl/config.go:165-186 | Exactly one slash stands between registry and path, and the tag stays |
| ProviderConfig.Rehome | internal/controllers/clusterctl/config.go:165-186 | The loop over the image map, in any order, rehomes every built-in image when a registry is set |
| ProviderConfig.OverrideImages | internal/controllers/clusterctl/config.go:188-196 | The user's images go over that layer, the last of a name winning |
| ProviderConfig.LayersDetermineImages | internal/controllers/clusterctl/config.go:156-196 | The layers determine the image map, so the order of map iteration does not matter |
| ProviderConfig.ClusterConfig | internal/controllers/clusterctl/config.go:111-199 | The whole function: when and how it fails, and what it returns otherwise |
| Segments.JoinSplit | internal/controllers/clusterctl/config.go:201-208 | Joining what was split gives the text back |
| Segments.SplitJoin | internal/controllers/clusterctl/config.go:201-208 | Splitting what was joined gives the parts back, if they have no separator |
| SemVer.PrecedenceIsATotalPreorder | internal/controllers/clusterctl/config.go:263-264 | Precedence as section 11 of Semantic Versioning 2.0.0 defines it is reflexive, total and transitive |
| SemVer.PrecedenceOrder | internal/controllers/clusterctl/config.go:263-264 | Major, minor and patch decide in this order, and a pre-release is below its release |
| SemVer.SamePrecedenceMeans | internal/controllers/clusterctl/config.go:263-264 | Versions of the same precedence differ in build metadata only |
| SemVer.StandardExample | internal/controllers/clusterctl/config.go:263-264 | The chain of pre-releases given in section 11.4 of the standard is ascending |
| VersionCap.CapHolds | internal/provider/defaults.go:97-160 | A check that succeeds on a known provider with a bound that parses leaves the version empty, latest, or at most the bound; below the bound it changes only by automatic update |
| VersionCap.SettlesInTwo | internal/provider/defaults.go:97-160 | Repeated checks with the same configuration reach a fixed point of version and condition after at most two calls, for known and unknown providers, and none fails after one that succeeded |
| VersionCap.CheckFailsExactly | internal/controllers/clusterctl/config.go:237-265 | A check fails exactly when the bound does not parse, or the version asked for is compared with it and does not parse |
| VersionCap.LeadingVIsIgnored | internal/controllers/clusterctl/config.go:237-265 | A leading v, of the bound, the version or both, makes no difference: the bare texts are parsed and compared |
| VersionCap.NoVersionIsBelow | internal/controllers/clusterctl/config.go:239-255 | A provider without a version of its own has not reached a bound; without a bound every version has |
| VersionCap.CheckSays | internal/provider/defaults.go:97-160 | Status, reason and message of the condition and the version, for each of the four cases of a check |
| VersionCap.AutomaticUpdateFollows | internal/provider/defaults.go:97-160 | With automatic update and bounds that do not decrease, the version is the current bound after every check and never decreases |
| VersionCap.ManualVersionChangesOnce | internal/provider/defaults.go:97-160 | Without it, and with bounds that do not decrease, only the first check can change the version's precedence |
| VersionCap.ManualVersionIsTheLeast | internal/provider/defaults.go:97-160 | Without it, and with bounds in any order, the version is one of, and in precedence the least of, the version asked for and all bounds so far; an unset version stays unset, and no check fails |
| ProviderDefaults.CAPIProvider.SetLatestVersion | internal/provider/defaults.go:97-160 | The method on the provider is the specified check of the bound found by the lookup; on an error nothing changes |
| ProviderDefaults.CAPIProvider.SetDefaultProviderSpec | internal/provider/defaults.go:72-95 | References without a namespace and a missing configuration secret are completed; features are written over the user's variables |
| ProviderDefaults.CAPIProvider.SetProviderSpec | internal/provider/defaults.go:46-69 | Defaults, check, and then the provider's own variables, which are left out when the check fails |
| ProviderDefaults.VariablesLayer | internal/provider/defaults.go:162-177 | A user's variable stands unless a feature or the provider itself sets it, a variable nobody sets stays, and writing all layers again changes nothing |
| ProviderDefaults.FeaturesMean | internal/provider/defaults.go:168-177 | EXP_CLUSTER_RESOURCE_SET, CLUSTER_TOPOLOGY and EXP_MACHINE_POOL each say true or false as its own feature does, whatever the user sets, and features set nothing else |
| ProviderDefaults.SpecialVariablesMean | internal/provider/defaults.go:53-66 | Azure and GCP providers get their own variable, and no other provider gets one |
| ProviderDefaults.ReconcileFeatures | internal/provider/defaults.go:46-69 | After a reconcile that succeeds each of the three variables is true exactly if its feature is on |
| ProviderDefaults.ReconcileTwice | internal/provider/defaults.go:46-69 | The second of two reconciles with one configuration leaves version and variables as they are |
| ImportManifest.RemoteCluster.CreateImportManifest | internal/controllers/helpers.go:263-282 | At any failure the objects created are those of a prefix of the manifest's document and item order that were missing; success means all of them |
| ImportManifest.AppliedMeans | internal/controllers/helpers.go:369-386 | Existing objects are never changed, and what is new is exactly what was listed and missing, as its first item says |
| ImportManifest.ReachedOrder | internal/controllers/helpers.go:263-332 | The manifest order: documents in order, and the items of each in order |
| ImportManifest.RemoteCluster.CreateItems | internal/controllers/helpers.go:319-332 | One document: a prefix of its items, all of them on success |
| ImportManifest.RemoteCluster.CreateObject | internal/controllers/helpers.go:369-386 | An object that exists already is no error |
| ImportManifest.RemoteCluster.ValidateImportReadiness | internal/controllers/helpers.go:284-317 | Ready means that no cleanup job is at work, every document decodes, and no object of the manifest is in deletion; a wait has one of these causes; nothing is changed |
| ImportManifest.RemoteCluster.CheckDeletion | internal/controllers/helpers.go:349-367 | A missing object is ready; one in deletion is not |
| ImportManifest.RemoteCluster.Import | internal/controllers/import_controller.go:399-411 | Success right after a clean check means that every object of the manifest exists and none is in deletion |
| ImportManifest.ImportWithRetries | internal/controllers/helpers.go:263-282 | Retries converge: whatever attempts failed half-way, one that goes through leaves what an undisturbed first one would have left |
| ExampleCollection.WalkCollectsTheTree | examples/main.go:60-132 | The walk visits every directory of the tree exactly once; there is one entry per directory with YAML files exactly when no two share a key, and each then holds the files of its directory |
| ExampleCollection.WeightDrops | examples/main.go:64-82 | The total size of the subtrees on the stack goes down by one with every directory popped, so the walk ends on every tree |
| ExampleCollection.VisitsAll | examples/main.go:64-119 | Popping and pushing visits exactly the directories of the trees on the stack |
| ExampleCollection.AccumulatedMeans | examples/main.go:126-146 | Closed form of an entry: each file that is not empty once, in listing order, each after a separator, with one more separator in front for every file after the first that is not empty |
| ExampleCollection.KeysCollideExactly | examples/main.go:68-71 | Two directories share a key exactly when their trimmed paths differ only in slashes for dashes |
| ExampleCollection.Examples.CollectFiles | examples/main.go:104-132 | One directory: subdirectories go onto the stack, YAML files are joined under its key |
| ExampleCollection.Examples.Walk | examples/main.go:64-80 | The loop over the stack puts together what the directories contribute, in the order of the walk |
| ExampleCollection.Examples.Collect | examples/main.go:60-101 | Both trees are collected and the stack is empty again |
| ExampleCollection.JoinYamls | examples/main.go:135-146 | The loop joins every text that is not empty, each after a separator |
| ExampleCollection.YamlsFrom | examples/main.go:113-121 | Exactly the files whose names end in .yaml or .yml count, in listing order |
| ExampleCollection.SubdirsFrom | examples/main.go:111-117 | Exactly the directories are pushed, in listing order, each under its path |
| ExampleCollection.StitchedFrom | examples/main.go:135-146 | Joined texts are the separator line and the text, for each that is not empty |
| ExampleCollection.KeyMeans | examples/main.go:68-71 | The key is the path below the prefix with dashes for slashes |

## Left out

- CredentialReconciler.RancherCredentialReconciler.DeleteIfOwned: get, owner check and delete are one request here; an object replaced between the get and the delete is not considered.
- CredentialReconciler.RancherCredentialReconciler.Cleanup: built from that one request for each of the two objects.
- CredentialProtocol.UidText: UIDs are numbers with a unary text; only that different UIDs have different texts is used.
- ImportReconciler.CAPIImportReconciler.Reconcile: a crash in the middle of a pass is a step of the protocol only; the method always reaches its end.
- ImportReconciler.CAPIImportReconciler.ReconcileNormal: downstream work between the patch of the record and its end (registration manifest, fleet namespace, remote client) is one unknown outcome.
- ImportReconciler.CAPIImportReconciler.ShouldAutoImportUncached: a label value is read as a boolean by a table of the texts that Go accepts.
- SecretSyncController.Synchronizer.Get: the search for the source credential by reference or by annotations is reduced to whether it is found.
- SecretSyncController.Into: the table of mappings per provider is a parameter, and so are base64 and the template renderer.
- ProviderConfig.VersionAfterMerge: letter case is folded for ASCII letters only.
- ProviderConfig.ClusterConfig: decoding of the embedded YAML is a parameter.
- VersionCap.CapHolds: the parser of version texts is a parameter; ordering is that of the standard.
- ProviderDefaults.CAPIProvider.SetDefaultProviderSpec: writing to a nil variables map, which panics, is excluded by a precondition.
- CertManagerCleanup.Provider.CleanupCertManagerResources: nobody else acts on the cluster during a pass, and label values are taken to be valid selector values.
- ImportManifest.RemoteCluster.Import: nobody else acts on the downstream cluster between the check and the creation.
- ExampleCollection.Examples.Walk: a directory on the stack carries its listing; errors of the embedded file system do not occur.
- Stale caches, and the reconciler's watches, predicates, field indexes and requeue delays.
- Liveness of deletion, which depends on control-plane and provider readiness.
- `CleanupWranglerResources`, which deletes its own condition and then does not stop early.
- HTTP download, TLS settings, token resolution, remote client construction and `removeFleetNamespace`.
- YAML and JSON decoding, text templates, edit distance, logging, events and timestamps.
- Type and kind conversions, name suffixes, deep copies, API types and the UIPlugin controller, which would add easy members only.
