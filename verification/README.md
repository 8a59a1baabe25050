# A verified model of the replication pipeline and its control plane

The repository copies PostgreSQL tables to other systems and keeps them up to date from the
logical replication stream; an HTTP API stores pipelines and runs them on Kubernetes. This
project models the parts whose correctness does not show from reading one function, and
proves what they promise.

* **Hand-over of a table** (`ApplyStream`, `Handoff`, `HandoffNoLoss`, `HandoffLoss`,
  `HandoffExact`, `HandoffExactlyOnce`, `HandoffInOrder`, `HandoffProgress`). A table-sync worker
  copies a table and catches up with the stream; then the apply worker takes the table over. Every
  message, buffer flush, destination write, store write and phase change is a separate step, and
  workers or the whole process may stop between any two. The workers run concurrently, so the model
  is a step relation over values. Proved: exactly when a row can be lost, that an undisturbed run
  delivers every row exactly once and in commit order, that crashes and restarts repeat rows but
  never skip or reorder one, and exactly when the hand-over can still be completed.
* **Start-up** (`Startup`). Stored table states are brought in line with the publication;
  any call may fail and the start is then repeated.
* **Errors** (`ErrorTree`, `ErrorDisplay`, `PipelineWait`). Aggregated errors, their equality,
  hashing and rendering as a tree, and how waiting for a pipeline collects them.
* **Kubernetes objects** (`K8sNames`, `K8sResources`, `K8sGuarantees`, `K8sValues`). Names of the
  objects of a pipeline, the request sequences that reconcile and delete them, cut short anywhere,
  and what the pod then reads.
* **Deletion across databases** (`Deletion`, `TenantDeletion`, `SlotNames`). Commit orders of
  pipeline and tenant deletion, and which replication slots a deletion selects.
* **Smaller algorithms** (`TableNames`, `Retry`, `AtomicMax`, `Maintenance`, `Formatting`).

Where the code falls short of a promise the model keeps the code and states the exact condition:

* Completing catch-up sets `SyncDone` in memory before storing it. If the store write fails, the
  apply worker may mark the table ready on the unstored phase; a later rollback then skips rows
  (`HandoffLoss.UnstoredReadyLoses`, `HandoffLoss.LossIsReachable`). Without such a step no run
  loses a row (`HandoffNoLoss.NoLoss`), and after it a loss is possible exactly if some row is not
  yet at the destination (`HandoffExact.LossExactly`).
* A start interrupted between deleting a table's state and its slot leaves a slot that no later
  start removes (`Startup.SlotKeptIff`, `Startup.LeakIsPermanent`).
* Equal errors may hash differently, because equality ignores descriptions
  (`ErrorTree.EqualHashIffDescriptions`), although a hash map relies on the opposite.
* `kind` is not the first of `kinds` below an empty aggregate (`ErrorTree.KindIsFirstKind`).
* A rendered error can be read back exactly if no description holds a newline
  (`ErrorDisplay.DisplayReadable`, `ErrorDisplay.NewlineAmbiguous`).
* An Iceberg REST pod refers to secrets that are never created
  (`K8sGuarantees.ReconcileResolves`), and removing a ClickHouse password drops the secret before
  the pod that needs it is replaced (`K8sGuarantees.DeployedReferencesDuringReconcile`).
* A pipeline deletion that stops after the API commit leaves slots that neither a repetition nor
  the tenant's deletion removes (`Deletion.SlotsGoneIff`, `TenantDeletion.LeakedSlotsSurvive`).
* With the largest retry limit the saturating counter never exceeds it (`Retry.BoundedIff`).

Failures are modelled as a budget: an object holds the number of further calls that succeed, and
the first call beyond it fails without effect. Sets and maps that the code iterates in hash order
are iterated in an arbitrary order.

## Model

| member | source | states |
|---|---|---|
| HandoffNoLoss.NoLoss | crates/etl/src/replication/apply.rs:2591-2863 | From a new table, every run of any length, with crashes, worker failures, timed retries, restarts and keepalives anywhere, has at the destination every row before the hand-over position and before the position the apply worker would resume from, provided no step marks the table ready on an unstored `SyncDone` |
| HandoffNoLoss.StepInv | crates/etl/src/replication/apply.rs:888-966 | Each of the 27 steps keeps the invariant relating stored phases, the worker's stage, both streams, durable progress and destination contents |
| HandoffNoLoss.RunInv | crates/etl/src/replication/apply.rs:888-966 | The invariant holds after any run that meets the condition |
| HandoffProgress.CanFinishIff | crates/etl/src/replication/apply.rs:2591-3062 | From every state of every run that marks no unstored phase, for any snapshot position, the workers can go on without stop, crash or failure until the table is ready, every row is delivered and a restart would read nothing again, exactly unless the table is in error with no worker left to retry it |
| HandoffProgress.MarksReadyIff | crates/etl/src/replication/apply.rs:2756-2863 | With no worker running, the apply worker turns a stored `SyncDone` into `Ready` exactly if its flush position, or when idle its received position, has reached the hand-over position; otherwise the phase stays |
| HandoffProgress.AcknowledgedIsDurable | crates/etl/src/replication/apply.rs:1485-1532 | Acknowledging a batch that ends a commit moves the position to resume from to at least that commit's end, and never back |
| HandoffProgress.NextStep | crates/etl/src/replication/apply.rs:888-966 | With the apply worker running and the table not stuck, as long as the hand-over is not complete some undisturbed step is possible that brings it strictly nearer in a well-founded order |
| HandoffLoss.UnstoredReadyLoses | crates/etl/src/workers/table_sync.rs:129-165 | From any state where the store says `Ready` while the worker's `SyncDone` is unstored, any row not yet delivered can be lost by some continuation |
| HandoffLoss.LossIsReachable | crates/etl/src/replication/apply.rs:2783-2795 | A concrete run from a new table that loses the only row of the log |
| HandoffLoss.SkipAndRollBack | crates/etl/src/workers/table_sync.rs:394-534 | While the store says `Errored` over `Ready`, the apply worker can read and acknowledge past any row without writing it, and the retry then restores `Ready` |
| HandoffExactlyOnce.ExactlyOnce | crates/etl/src/replication/apply.rs:2432-2466 | In runs without failures the rows written since the copy are at all times, during catch-up and across the ownership switch, an initial piece of the rows committed since the snapshot, in commit order and once each; all of them once the apply worker is idle past the hand-over |
| HandoffExact.LossExactly | crates/etl/src/replication/apply.rs:2783-2795 | For every run from a new table up to and including its first marking of an unstored `SyncDone`: nothing is lost before, any other step loses nothing, and after the marking some continuation loses a row exactly if a row is not yet at the destination |
| HandoffExact.MarkingLosesIff | crates/etl/src/workers/table_sync.rs:129-165 | The same equivalence from any state that meets the invariant |
| HandoffInOrder.FirstDeliveriesInOrder | crates/etl/src/workers/apply.rs:357-468 | In every run with stops, crashes, restarts, failures and retries that marks no unstored phase, the rows since the snapshot, each taken where it was delivered first, are an initial piece of the log in commit order: replays repeat, and never skip or reorder |
| HandoffInOrder.StepOrdered | crates/etl/src/replication/apply.rs:888-966 | Each step keeps that a row is written, or queued behind others, only after every earlier row since the snapshot |
| HandoffExactlyOnce.StepOnce | crates/etl/src/replication/apply.rs:3122-3245 | Each step of such a run keeps the invariant that both workers' pending and written rows continue one another without gap or overlap |
| HandoffExactlyOnce.AllRowsOrdered | crates/etl/src/replication/stream.rs:173-288 | The reference sequence lists each row of a log range once, in commit order |
| ApplyStream.DeliverOk | crates/etl/src/replication/apply.rs:1920-1999 | Handling a message keeps the stream invariant: the received position separates read from unread transactions, and everything buffered or in flight was read and lies at or past the flush position |
| ApplyStream.TryFlushOk | crates/etl/src/replication/apply.rs:1628-1677 | Dispatching a batch, or pausing behind the one in flight, keeps the stream invariant and drops no pending event |
| ApplyStream.AckedOk | crates/etl/src/replication/apply.rs:1485-1532 | Acknowledging a batch moves flush position and durable progress up without passing any event that is still pending |
| ApplyStream.WrittenOk | crates/etl/src/replication/apply.rs:340-681 | A destination write takes exactly one event out of those pending and keeps the stream invariant |
| Startup.Database.InitializeTableStates | crates/etl/src/pipeline.rs:328-423 | On any exit the stored states and slots are those of an attempt that added and purged some tables in the code's order; all of them exactly if the publication is usable and the calls it takes all succeed; a missing publication and partitioned tables are reported exactly if found, and change nothing |
| Startup.Database.AddNewTables | crates/etl/src/pipeline.rs:389-396 | The first loop gives `Init` to exactly the published tables without a stored state, one call each, and succeeds exactly if those calls do |
| Startup.Database.PurgeRemovedTables | crates/etl/src/pipeline.rs:402-420 | The second loop deletes state and then slot of exactly the stored tables outside the publication, and succeeds exactly if two calls for each do |
| Startup.Database.CheckPublication | crates/etl/src/pipeline.rs:333-382 | A missing publication, or partitioned tables without publishing via the root, are the only configuration errors, each reported exactly if the calls that find it succeed |
| Startup.StartupConverges | crates/etl/src/pipeline.rs:385-420 | After any number of failed attempts a completed one leaves exactly the published tables, with their first phases or `Init`, and has dropped only slots of purged tables |
| Startup.LeakBound | crates/etl/src/pipeline.rs:410-418 | Each interrupted attempt leaves at most one slot without stored state |
| Startup.SlotKeptIff | crates/etl/src/pipeline.rs:402-420 | A completed attempt keeps a slot exactly if its table is published or had no stored state |
| Startup.LeakIsPermanent | crates/etl/src/pipeline.rs:402-420 | A slot left behind survives every later start, completed or not, until its table is published again |
| Startup.LeakExample | crates/etl/src/pipeline.rs:410-418 | A concrete interrupted start whose slot outlives every completed one |
| ErrorTree.CountIsKinds | crates/etl-replicator/src/sentry.rs:141-147 | The leaf count is the number of kinds |
| ErrorTree.KindIsFirstKind | crates/etl/src/error.rs:168-188 | `kind` is the first of `kinds` exactly unless the leftmost path ends in an empty aggregate and the first kind is not unknown |
| ErrorTree.KindIsNotFirstKind | crates/etl/src/error.rs:168-188 | A concrete error where the two differ |
| ErrorTree.AggregateKeepsKinds | crates/etl/src/error.rs:421-434 | Aggregating a vector keeps all kinds in order and builds no empty or one-element aggregate from a non-empty vector of such errors |
| ErrorTree.ProperReachesSingle | crates/etl/src/error.rs:421-434 | Trees built by aggregation of non-empty vectors reach a single error on the leftmost path |
| ErrorTree.EqualReflexive | crates/etl/src/error.rs:280-294 | Equality is reflexive |
| ErrorTree.EqualSymmetric | crates/etl/src/error.rs:280-294 | Equality is symmetric |
| ErrorTree.EqualTransitive | crates/etl/src/error.rs:280-294 | Equality is transitive |
| ErrorTree.Hasher.Feed | crates/etl/src/error.rs:308-328 | The recursive hashing feeds exactly the token stream of the tree |
| ErrorTree.HashDecodes | crates/etl/src/error.rs:308-328 | A decoder reads the tree back from the front of any longer stream, so the code is prefix-free |
| ErrorTree.HashExact | crates/etl/src/error.rs:296-328 | Two errors feed the hasher alike exactly if they agree on shape, kinds and descriptions |
| ErrorTree.SameHashEqual | crates/etl/src/error.rs:280-328 | Errors that feed the hasher alike are equal |
| ErrorTree.EqualHashIffDescriptions | crates/etl/src/error.rs:280-328 | Equal errors feed the hasher alike exactly if their leaves' descriptions agree |
| ErrorTree.EqualButHashedApart | crates/etl/src/error.rs:280-328 | A concrete pair of equal errors that hash differently |
| ErrorDisplay.Formatter.WriteErrorTree | crates/etl/src/error.rs:338-383 | The recursive writer, with its prefix and flags, appends exactly the lines of the tree |
| ErrorDisplay.Formatter.Format | crates/etl/src/error.rs:331-335 | Displaying an error appends the rendering from the root |
| ErrorDisplay.OneLine | crates/etl/src/error.rs:354-358 | A detail is printed without any newline |
| ErrorDisplay.LeafPrinted | crates/etl/src/error.rs:350-360 | An error is printed as kind, description and, unless blank, its detail: the lines, ended by newline or carriage return and newline, joined by single spaces, a last empty one dropped |
| ErrorDisplay.EveryDetail | crates/etl/src/error.rs:354-358 | Every detail is such a sequence of lines |
| ErrorDisplay.DisplayOneLineDetail | crates/etl/src/error.rs:331-360 | An error whose detail is one line is displayed with exactly that detail |
| ErrorDisplay.CountPrinted | crates/etl/src/error.rs:361-368 | The heading of an aggregate counts its errors, with the singular for one |
| ErrorDisplay.NothingDangles | crates/etl/src/error.rs:345-379 | Under every bar and tee of the drawing the next line has a bar, tee or corner in the same column |
| ErrorDisplay.DisplayReadable | crates/etl/src/error.rs:338-383 | A parser rebuilds the tree's shape and every leaf line from the text exactly if no description holds a newline, whatever the details contain |
| ErrorDisplay.TreeReadable | crates/etl/src/error.rs:338-383 | The parser works at any depth and stops exactly at the end of the tree |
| ErrorDisplay.OneLinePerNode | crates/etl/src/error.rs:338-383 | The text has one line per error and aggregate exactly if no description holds a newline |
| ErrorDisplay.NewlineAmbiguous | crates/etl/src/error.rs:338-383 | With a newline in a description two different trees print the same text, for any kind and texts |
| PipelineWait.Pool.WaitAll | crates/etl/src/workers/pool.rs:153-218 | Joins every worker, unlists exactly the runs that returned, and reports the aggregate of all failures and panics in order, or success if there were none |
| PipelineWait.PoolErrorsByIndex | crates/etl/src/workers/pool.rs:153-218 | The reported errors are, one for one, those of the runs that failed or panicked, a panic with its own kind and text |
| PipelineWait.BrokenAreAll | crates/etl/src/workers/pool.rs:153-218 | Those runs are listed once each, in join order, and none is missing |
| PipelineWait.Pipeline.Wait | crates/etl/src/pipeline.rs:213-283 | Waiting collects apply worker, workers, destination and monitor, sends shutdown if the apply worker failed, and does nothing before the start |
| PipelineWait.NothingSwallowed | crates/etl/src/pipeline.rs:222-280 | Success exactly if no component failed; otherwise the reported kinds are all components' kinds in order |
| PipelineWait.ReportIsProper | crates/etl/src/pipeline.rs:276-280 | The reported error nests no empty or one-element aggregate, so its kind is its first kind |
| K8sNames.PrefixCollision | crates/etl-api/src/k8s/core.rs:351-353 | For arbitrary tenant texts two prefixes coincide exactly if tenant and id agree, or the ids are opposite and the tenant of the positive one is the other tenant plus a dash |
| K8sNames.PrefixInjective | crates/etl-api/src/routes/mod.rs:35-52 | For validated tenants, which cannot end in a dash, the prefix determines tenant and id, negative ids included |
| K8sNames.SecretNameInjective | crates/etl-api/src/k8s/http.rs:741-759 | No two secrets of any two pipelines share a name |
| K8sNames.StatefulSetNameInjective | crates/etl-api/src/k8s/http.rs:769-775 | No two StatefulSets share a name, current or legacy |
| K8sNames.PodNameInjective | crates/etl-api/src/k8s/http.rs:777-783 | No two pods share a name |
| K8sNames.NamesDisjoint | crates/etl-api/src/k8s/http.rs:741-783 | No object of any kind has the same name in two pipelines |
| K8sNames.NamesDistinct | crates/etl-api/src/k8s/http.rs:741-798 | A pipeline's secret names differ, and so do its current and legacy set |
| K8sNames.SharedNameDiffers | crates/etl-api/src/k8s/http.rs:741-759 | A name without digits, such as a shared secret's, is no pipeline's |
| K8sNames.NamesAreLabels | crates/etl-api/src/k8s/http.rs:769-802 | App name, and set name plus a ten-character hash, are label values in the sense of section 2.1 of RFC 1123 for every validated tenant and 64-bit id |
| K8sNames.LabelBoundTight | crates/etl-api/src/k8s/http.rs:769-802 | The smallest 64-bit id reaches the length limit of 63 |
| K8sResources.Cluster.Reconcile | crates/etl-api/src/k8s/core.rs:102-182 | Issues the requests of a reconcile in order and stops at the first that fails |
| K8sResources.Cluster.CreateOrUpdateSecrets | crates/etl-api/src/k8s/core.rs:360-416 | Writes or drops the secrets built from the configuration, source password first |
| K8sResources.Cluster.Delete | crates/etl-api/src/k8s/core.rs:189-202 | Issues the requests of a delete in order and stops at the first that fails |
| K8sResources.CreateContainerEnvironment | crates/etl-api/src/k8s/http.rs:1039-1189 | The environment pushed variable by variable resolves in a cluster exactly if the source password and the destination type's secret are there with all keys |
| K8sResources.RefsAreRequired | crates/etl-api/src/k8s/http.rs:1108-1187 | The pod environment requires exactly the source password and the destination type's secret, with all its keys |
| K8sValues.PodReadsPassword | crates/etl-api/src/k8s/core.rs:360-416 | After a completed reconcile the pod reads the configured source password, or with Iceberg REST whatever was stored before |
| K8sValues.PodReadsBigQuery | crates/etl-api/src/k8s/core.rs:360-416 | A BigQuery pod reads the configured service account key |
| K8sValues.PodReadsIceberg | crates/etl-api/src/k8s/core.rs:360-416 | An Iceberg pod reads the configured token, key id and secret key, each under its own variable |
| K8sValues.PodReadsClickHouse | crates/etl-api/src/k8s/core.rs:360-416 | A ClickHouse pod reads the configured password, and has no such variable without one |
| K8sValues.PodReadsDucklake | crates/etl-api/src/k8s/core.rs:360-416 | A DuckLake pod reads both S3 credentials if both are configured, and otherwise neither, even an old one |
| K8sValues.PodReadsBase | crates/etl-api/src/k8s/http.rs:1039-1107 | The pod runs the configured image and reads its environment's name, version and log level, backtraces outside production, and the shared secrets outside development |
| K8sValues.PodReadsMaintenance | crates/etl-api/src/k8s/http.rs:1039-1189 | With Kubernetes maintenance the pod is told the name of a resource that exists, its namespace and both thresholds |
| K8sValues.PodReadsConfig | crates/etl-api/src/k8s/core.rs:423-444 | The config map that the pod mounts holds the replicator configuration in the file named after its environment, over an empty base file |
| K8sGuarantees.ReconcileResolves | crates/etl-api/src/k8s/core.rs:276-321 | After a completed reconcile from any cluster every required reference resolves, except for Iceberg REST, where it does exactly if it did before |
| K8sGuarantees.IcebergRestUnresolved | crates/etl-api/src/k8s/core.rs:276-321 | On a fresh cluster an Iceberg REST pod is left with unresolved references |
| K8sGuarantees.DeployedReferencesDuringReconcile | crates/etl-api/src/k8s/core.rs:113-179 | Wherever a reconcile stops, pods deployed from an earlier configuration keep their references, exactly unless the ClickHouse password was removed and its secret already dropped |
| K8sGuarantees.ClickHousePasswordStranded | crates/etl-api/src/k8s/core.rs:360-416 | A reconcile that removes the password and stops after two requests strands the running pod |
| K8sGuarantees.ReconcileDeploys | crates/etl-api/src/k8s/http.rs:579-637 | A completed reconcile leaves the current set with the new environment and no legacy set |
| K8sGuarantees.MaintenanceMatchesEnvironment | crates/etl-api/src/k8s/core.rs:462-489 | The maintenance resource exists exactly if the environment names it; its config map and source secret exist, its DuckLake secret exactly if both S3 credentials are given |
| K8sGuarantees.Isolation | crates/etl-api/src/k8s/http.rs:325-693 | No prefix of a pipeline's requests changes an object of a pipeline with other names |
| K8sGuarantees.DeleteLeavesNothing | crates/etl-api/src/k8s/core.rs:498-534 | A completed delete leaves no object of the pipeline, legacy set included, whatever was there |
| K8sGuarantees.DeleteAfterAnyHistory | crates/etl-api/src/k8s/core.rs:189-202 | After any history of interrupted reconciles and deletes a completed delete empties the pipeline, and later work for other pipelines does not fill it |
| K8sGuarantees.OthersLeaveAlone | crates/etl-api/src/k8s/core.rs:102-202 | A history of other pipelines, interrupted anywhere, leaves a pipeline's objects as they were |
| K8sGuarantees.SharedKept | crates/etl-api/src/k8s/http.rs:1308-1408 | Secrets shared by all pipelines are never changed |
| K8sGuarantees.ValidatedDelete | crates/etl-api/src/routes/mod.rs:35-52 | For the names validated tenants get: a completed delete empties the pipeline after any history, and other validated pipelines leave it empty |
| K8sGuarantees.ValidatedIsolation | crates/etl-api/src/k8s/core.rs:351-353 | No history of other validated pipelines, interrupted anywhere, changes a pipeline's objects |
| K8sGuarantees.ValidatedReconcile | crates/etl-api/src/k8s/core.rs:102-182 | For validated tenants a completed reconcile resolves every required reference, Iceberg REST as before |
| K8sGuarantees.SharedSecretsKept | crates/etl-api/src/k8s/http.rs:1308-1408 | The three shared secrets keep presence and content under any action of any pipeline |
| Deletion.Service.DeletePipeline | crates/etl-api/src/routes/pipelines.rs:752-818 | On any exit both databases are as after one of the steps API commit, source commit, slot deletion; while the row is there the source is untouched, slots go only after both commits, rows stay consistent, the combined route drops the destination exactly if unused, and other pipelines keep row, state and slots; it succeeds exactly if it is not refused and all its steps do; refusals change nothing and say why |
| Deletion.Service.Commit | crates/etl-api/src/routes/pipelines.rs:799-815 | The commits in order, as many as the available steps allow; success exactly if the last one is reached |
| Deletion.StageOrderly | crates/etl-api/src/routes/destinations_pipelines.rs:455-493 | Every stopping point keeps that order, the consistency of the rows and all other pipelines |
| Deletion.PrepareDeletion | crates/etl-api/src/routes/destinations_pipelines.rs:411-480 | When a deletion is refused and why, and the API transaction otherwise |
| Deletion.RowsConsistent | crates/etl-api/src/data/pipelines.rs:236-250 | Pipeline and replicator vanish together, and an unused destination goes only in the combined route |
| Deletion.SlotsGoneIff | crates/etl-api/src/routes/pipelines.rs:799-815 | Over any sequence of attempts the slots are gone exactly if the attempt that removed the row also reached them |
| Deletion.StateGoneIff | crates/etl-api/src/routes/pipelines.rs:799-815 | Over any sequence of attempts the pipeline's state is gone exactly if the attempt that removed the row reached the source and its commit |
| Deletion.RepeatedDeletionLeaks | crates/etl-api/src/routes/pipelines.rs:764-766 | A deletion cut short after the API commit and repeated leaves the slots |
| TenantDeletion.GroupBySource | crates/etl-api/src/routes/tenants.rs:321-324 | Every pipeline is put once into the group of its own source |
| TenantDeletion.Teardown.CleanSource | crates/etl-api/src/routes/tenants.rs:351-360 | One source: state of its pipelines and the installation in one commit, then each slot; it succeeds exactly if every step does, and on failure the database lies between untouched and cleaned |
| TenantDeletion.Teardown.CleanSources | crates/etl-api/src/routes/tenants.rs:330-361 | The loop cleans exactly the databases that answer and asks for each of their pipelines' slots once; it succeeds exactly if one step for each of those pipelines and databases does |
| TenantDeletion.Teardown.DeleteTenant | crates/etl-api/src/routes/tenants.rs:297-369 | Refused exactly if a replicator is active, completed exactly if otherwise every step succeeds; completed it leaves the cleaned databases and no rows; interrupted it leaves all rows and databases in between |
| TenantDeletion.TenantDeletionConverges | crates/etl-api/src/routes/tenants.rs:326-366 | However often it is interrupted, a deletion that completes with every source answering leaves exactly what one uninterrupted deletion leaves |
| TenantDeletion.NothingRemains | crates/etl-api/src/routes/tenants.rs:330-366 | Then no row, state or slot of any of the tenant's pipelines is left |
| TenantDeletion.SlotsRemovedIff | crates/etl-api/src/data/pipelines.rs:272-292 | A pipeline's slots are removed exactly from its own source's database, if that is listed and answers |
| TenantDeletion.ForeignPipelines | crates/etl-api/src/data/sources.rs:289-292 | A pipeline without a row here keeps its slots, and loses its state in a shared database exactly if the service owns the schema there |
| TenantDeletion.LeakedSlotsSurvive | crates/etl-api/src/routes/tenants.rs:311-366 | Slots left by an interrupted pipeline deletion survive the tenant's deletion |
| SlotNames.SlotRoundTrip | crates/etl-postgres/src/replication/slots.rs:70-136 | Every slot of 64-bit pipeline and 32-bit table ids has a valid name, and parsing it gives the slot back |
| SlotNames.LikePrefix | crates/etl-postgres/src/replication/slots.rs:138-147 | The escaped pattern matches exactly the names that start with the prefix |
| SlotNames.SelectsOwnSlots | crates/etl-postgres/src/replication/slots.rs:170-225 | The deletion query selects all slots of the pipeline and none of another |
| TableNames.EncodeRoundTrip | crates/etl-destinations/src/table_name.rs:15-59 | A name is accepted exactly if both components are non-empty without outer underscores, and then a decoder recovers it; the first component at fault decides the error |
| TableNames.EncodeInjective | crates/etl-destinations/src/table_name.rs:15-28 | Two accepted names never share a destination table |
| TableNames.SeparatorIsTheOddRun | crates/etl-destinations/src/table_name.rs:15-28 | The separator is the only run of underscores of odd length |
| TableNames.UncheckedCollision | crates/etl-destinations/src/table_name.rs:32-45 | Without the check, moving an underscore across the separator gives the same text |
| Retry.RetryWithBackoff | crates/etl-destinations/src/retry.rs:60-111 | Retry numbers, capped power-of-two delays, starting from the initial one, one sleep between attempts, and the outcome for every sequence of results |
| Retry.DelayStep | crates/etl-destinations/src/retry.rs:106-107 | Doubling with saturation and capping is the exact capped power |
| Retry.BoundedIff | crates/etl-destinations/src/retry.rs:85-94 | Attempts are bounded by the limit plus one exactly if the limit is below the largest counter value |
| Retry.UsesTheLimit | crates/etl-destinations/src/retry.rs:85-94 | An operation that always fails is attempted exactly limit plus one times |
| Retry.DelaysGrow | crates/etl-destinations/src/retry.rs:82-107 | Delays never shrink and never exceed the maximum |
| AtomicMax.MaximumReached | crates/etl-benchmarks/src/common.rs:873-882 | Under any interleaving, with spurious failures and loads of any earlier value, the value stays between start and largest candidate, and is the largest once all calls returned |
| AtomicMax.AlwaysCompletes | crates/etl-benchmarks/src/common.rs:873-882 | Whatever has happened so far, all calls can still return, and then the value is the largest of all |
| AtomicMax.CanReturn | crates/etl-benchmarks/src/common.rs:873-882 | From any state a call returns if its thread alone takes steps, so none waits for another |
| AtomicMax.NeverDecreases | crates/etl-benchmarks/src/common.rs:873-882 | The value never decreases between any two points of a run, and no earlier value exceeds the current one |
| Maintenance.Store.RequestOperations | crates/etl-maintenance/src/coordination/postgres.rs:191-275 | A request that is not created changes nothing; a created one makes the pending operations the least set covering the old ones and the request, strictly more than before, with the newest time and thresholds; thresholds not given are kept |
| Maintenance.PendingIsUnion | crates/etl-maintenance/src/coordination.rs:80-97 | With nothing pending at first, the pending operations are the union of all requests so far |
| Maintenance.AtMostSixCreated | crates/etl-maintenance/src/coordination.rs:375-410 | Over any run at most six requests are created, and none on missing or running state, which does not change |
| Formatting.FormatInteger | crates/etl-benchmarks/src/common.rs:731-747 | The loop over digits gives groups of three from the right |
| Formatting.GroupedRoundTrip | crates/etl-benchmarks/src/common.rs:731-747 | Deleting the commas gives the digits back |
| Formatting.CommaPositions | crates/etl-benchmarks/src/common.rs:731-747 | There are (digits - 1) / 3 commas, exactly before every third digit from the right |
| Formatting.FormattedInjective | crates/etl-benchmarks/src/common.rs:731-747 | Different numbers are formatted differently |
| Formatting.TagOfPrinted | crates/etl-api/src/utils.rs:68-106 | For every reference with its separators outside its parts, parsing returns the tag, `latest` or `unavailable` as documented |
| Formatting.TagNeverEmpty | crates/etl-api/src/utils.rs:68-106 | The result is never empty, for any input |

## Left out

- Several tables in one stream: the hand-over model projects the log onto one table; schema and relation messages, schema cleanup and truncation are not modelled.
- Slot loss: a replication slot is assumed to survive; the paths for new and invalidated slots in crates/etl/src/workers/apply.rs are not modelled.
- ApplyStream, Handoff, AtomicMax: the workers' loops and in-place updates are steps over values, since the point is how concurrent workers interleave; a step is as large as the code makes visible to the others at once.
- PostgreSQL: commits are delivered in order from the start position on, keepalives report no position past the next commit; these are assumptions of the log model.
- HandoffInOrder.FirstDeliveriesInOrder: assumes that a new copy's snapshot contains every transaction already streamed to the apply worker, as PostgreSQL guarantees for a new slot.
- Destination writes: a write lands before its worker stops or not at all. A failure recorded over a stored `SyncDone` happens only while shutting down and is then not retried; undoing it by hand is not modelled.
- Manual rollback and reset of table states, skipping the copy by configuration, and throttling of status updates are not modelled.
- HandoffExactlyOnce.ExactlyOnce: for runs without failures only, because a crash or retry may deliver a row again; HandoffInOrder.FirstDeliveriesInOrder covers those runs.
- ErrorTree.Hasher.Feed: models calls on the hasher as tokens, not the bytes behind them.
- ErrorTree: source errors and backtraces are not modelled; ErrorKind is identified by its variant name.
- K8sResources: environment variables are an enumeration and object names a record, tied to the text of the names by K8sNames.NamesOf; manifests beyond references are not modelled.
- Kubernetes API conflicts, propagation delay and concurrent API requests for one pipeline are not modelled.
- Deletion.Service.DeletePipeline: reads before the first commit are not separate steps, since a failure there changes nothing.
- SlotNames.SelectsOwnSlots: the retry loop around the deletion query and the termination of connections are not modelled.
- Retry.RetryWithBackoff: attempts' results and shaped delays are given as a finite script, so a run that would go on forever is seen through all its finite beginnings.
- Maintenance.Store.RequestOperations: pause leases, run history and the Kubernetes store are not modelled.
- Fractional numbers of the benchmark report, HTTP routing, configuration conversion, encryption, SQL text, metrics and tracing are not modelled.
