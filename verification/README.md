# The Choerodon cluster agent, modelled and verified

The agent keeps a Kubernetes namespace equal to a Git repository, talks to the
DevOps platform over a websocket, and installs Helm releases on command. This
project models its protocols and algorithms in Dafny and proves what they
promise. `dafny verify dfyconfig.toml` checks everything.

## Reconciliation

`SyncRound` runs one round of `doSync`: load the repository, label and convert
what changed, compare with the exported objects, stage, sort and run the
commands, convert back, move the sync tag. Its `DoSync` is proved against
`Reconcile`, in which a round is a step on (revision of the sync tag, cluster).
Starting from any cluster, the cluster is in sync with the sync tag after every
step of every run, although a round applies only resources from changed files,
until a round has resource errors or cannot push the tag; changes by others to
unmanaged objects do no harm. Errors leave a debt: the tag
moves although resources failed (pkg/gitops/gitops_sync.go:226-238, 290-303),
or stays although some were applied, and later rounds diff against it.
`RestoredIff` says exactly which later round restores sync: one that pays the
debt, each owed resource having left the repository or being applied again.
`ErrorStaysMissing` and `UnpushedChangeStays` are runs in which none does.

The parts of a round have their own modules:

- `Labels`: labelling and the export filters agree, in both directions, and the
  filters are characterised by the marks on an object's own labels. Whatever a round
  deletes carries these marks (`SyncRound.DeletionIsSafe`).
- `ResourceKeys`, `Rekeying`, `Certificates`: the passes that rewrite
  certificates to secrets and back inside the maps they range over. The forward
  pass may be given one map under two names, as in an initial sync, and a range
  may or may not offer entries inserted meanwhile. The passes cancel on the key
  set exactly when no secret collides with a converted certificate.
- `ChangeSets`: staging, the dependency order, and batches with a fallback to
  single commands, with the effect on the cluster.
- `YamlSplitter`, `Exporter`, `ClusterExport`: the streaming document splitter,
  exporting to a stream and parsing it back, and how a sync learns from this what
  is in the cluster. The result does not depend on how the input is cut into reads. The round trip holds exactly when every document with its
  separator fits the scanner's buffer of one megabyte; a larger document is an
  error of the scan, which the sync reports before it applies anything.
- `EnvList`: removing an environment from a slice while ranging over it gives
  the list without it exactly when the namespace occurs once (or the list is
  empty); an absent namespace empties the list.

## Scheduling and life cycles

`Scheduler` is a state machine of the sync loop, the interval worker, the mirror
and their channels. `NothingLostIff` and `NeverIdleIff` say over all runs, with
any failures, exactly which steps lose an update and which leave the loop idle
for good; runs show each of them. In particular no update is lost if calls
succeed and the tag never returns to an older revision, and the loop never idles
while refreshes and revision look-ups succeed. Left to itself it catches up
within 19 steps.

`StopChannels` follows the channels of the sync loops through initialisation,
disconnects and removals of environments. An iteration of listenEnvs blocks
between registering a stop channel and starting its loop, and other steps may
come in between. In every run registered channels are open, and nothing is
closed or signalled twice. Exactly the steps that `Orphans` names leave a loop
that nothing can stop, and exactly those that `Doubles` names a namespace with
two loops; a run shows both. Run one after the other, the methods are safe.

## Messages

`ResponseQueue` shows delivery of response packets in order, without loss or
duplication, across reconnects, also of those produced during an outage.
`LogPipe` shows that the log debouncer and its frame cutter conserve bytes. `InstallChain` shows that a chain of Helm commands
ends with exactly one terminal response, with at most five retries over all its
stages together, and that exactly the upgrades and the chains that start within
the limit end at all; `ChainIsExplained` derives the commands and the last response
from the outcomes of Helm alone.
The text of the retry errors speaks of other numbers of attempts than the code
makes; the model follows the code.

## Smaller cores

`Registration` (API groups and versions), `NodeTotals` (requests and limits of
the pods of a node), `PolarisChecks`, `PolarisSummary` and `PolarisAudit` (which
checks run, and how their results are counted). Merging two summaries by category
visits a shared category twice (pkg/polaris/validator/summary.go:45-56); the model
says exactly when the merged numbers are nevertheless right.

## Conventions

An iteration over a Go map is a loop over an arbitrary enumeration of its keys,
of which nothing but completeness is known. External calls (git, kubectl, Helm,
the Kubernetes API, the websocket) are parameters that succeed or fail, and
decoding a YAML or JSON text is a parameter.

## Model

| member | source | states |
|---|---|---|
| `Reconcile.Merge` | pkg/kubernetes/resource/load.go:47-52 | the documents of a file join the map, whatever the range order, unless one ID is defined already |
| `Reconcile.Load` | pkg/kubernetes/resource/load.go:24-64 | succeeds if and only if every file parses and no ID is defined in two files; the result is exactly what the files define, each ID with its one source file |
| `Reconcile.LoadsPart` | pkg/kubernetes/resource/load.go:24-64 | loading some files of a loadable tree cannot fail and gives exactly the resources whose source file is among them |
| `Reconcile.RoundInSyncIff` | pkg/gitops/gitops_sync.go:315-348 | from any cluster, a round without errors ends in sync if and only if what it did not apply was there as wanted |
| `Reconcile.SyncableIff` | pkg/gitops/gitops_sync.go:315-348 | some cluster is in sync with a repository if and only if resources applied under one key agree |
| `Reconcile.InSyncIffPaid` | pkg/gitops/gitops_sync.go:176-198 | an incremental round without errors ends in sync if and only if every resource that the cluster owed to the old revision has left the repository or is applied again |
| `Reconcile.IncrementalRound` | pkg/gitops/gitops_sync.go:176-198 | from a cluster in sync with the old revision, applying only resources of changed files gives a cluster in sync with the new one |
| `Reconcile.FullRound` | pkg/gitops/gitops_sync.go:163-165 | the initial sync gives a cluster in sync from any cluster |
| `Reconcile.StepKeepsGood` | pkg/gitops/gitops_sync.go:100-313 | completed rounds, rounds that fail early and foreign changes keep a cluster in sync with the sync tag |
| `Reconcile.GoodIff` | pkg/gitops/gitops_sync.go:100-313 | a completed round leads to a cluster in sync if and only if it pays the debt; an early failure or a foreign change if and only if the cluster was in sync before |
| `Reconcile.StaysInSync` | pkg/gitops/gitops_sync.go:100-313 | in runs with any events, a cluster in sync stays in sync until a round has resource errors or cannot push the tag |
| `Reconcile.EveryRunInSync` | pkg/gitops/gitops_sync.go:100-313 | from any cluster without a sync tag, the cluster is in sync with the sync tag after every step, until a round has resource errors or cannot push the tag |
| `Reconcile.RestoredIff` | pkg/gitops/gitops_sync.go:226-238 | after such rounds, a later round without errors restores sync for as long as there are no new errors, if and only if it pays the debt |
| `Reconcile.ErrorStaysMissing` | pkg/gitops/gitops_sync.go:290-303 | a run of two rounds: the first has a resource error and moves the tag, the second completes, and the resource is missing |
| `Reconcile.UnpushedChangeStays` | pkg/gitops/gitops_sync.go:290-303 | a run of three rounds: a change is applied, the push of the tag fails, the change is taken back, and the next completed round leaves it in the cluster |
| `Reconcile.InSyncIsEquality` | pkg/gitops/gitops_sync.go:328-348 | in sync means that a managed object is in the cluster if and only if some resource is wanted as it |
| `SyncRound.LabelChanged` | pkg/gitops/gitops_sync.go:200-215 | every changed resource is labelled once, in place, in any range order |
| `SyncRound.PrepareDeletes` | pkg/gitops/gitops_sync.go:333-336 | a delete for exactly the exported objects that the repository does not have |
| `SyncRound.PrepareApplies` | pkg/gitops/gitops_sync.go:338-341 | an apply for every changed resource |
| `SyncRound.StagedDeletes` | pkg/kubernetes/kubernetes.go:148-185 | without parse errors the staged deletes have exactly the IDs of what is gone |
| `SyncRound.StagedApplies` | pkg/kubernetes/kubernetes.go:148-185 | without parse errors the staged applies are exactly the changed resources |
| `SyncRound.AppliedTable` | pkg/kubectl/kubectl.go:60-91 | what is applied is the changed map, key by key, in whatever order it is sent |
| `SyncRound.KeysAfterConversion` | pkg/gitops/gitops_sync.go:356-406 | after the forward pass the repository map has exactly the keys under which its resources are applied |
| `SyncRound.ReadyAfterConversion` | pkg/gitops/gitops_sync.go:356-406 | after it the changed map holds the final manifest of each changed resource that prevails under its final key: a converted certificate replaces a secret of the same name |
| `SyncRound.ConversionReady` | pkg/gitops/gitops_sync.go:356-406 | both of these, for separate maps and for the aliased map of an initial sync |
| `SyncRound.Sync` | pkg/gitops/gitops_sync.go:315-348 | exporting, comparing, staging, sorting and running commands without errors deletes what is gone, applies what changed and leaves the rest, even where a failed batch was partly carried out; with errors it removes only what is gone and writes only what changed; without an export it does nothing |
| `SyncRound.SyncWith` | pkg/gitops/gitops_sync.go:328-348 | the same with the exported IDs at hand |
| `SyncRound.ConvertSyncRestore` | pkg/gitops/gitops_sync.go:217-273 | the sync between the two passes is a round on the original resources; afterwards every look-up by ID hits, and the resource commits name changed resources with their source files, among them all that the map then holds |
| `SyncRound.ResourceCommits` | pkg/gitops/gitops_sync.go:258-273 | in any range order one commit for each entry, with its source file |
| `SyncRound.LoadChanged` | pkg/gitops/gitops_sync.go:158-198 | the changed map is the repository map itself in an initial sync, and otherwise its part from the changed files |
| `SyncRound.DoSync` | pkg/gitops/gitops_sync.go:100-313 | fails to load if and only if the tree does not load; a round that fails to load or to export changes nothing; the tag stays if and only if its push fails, and moves also when resources failed; in every outcome the round is a step of the reconciliation, a completed one if it was clean and the repository can be in sync |
| `SyncRound.LoadedRound` | pkg/gitops/gitops_sync.go:140-236 | the round from the loaded repository to the cluster, initial or incremental |
| `SyncRound.SyncIsBounded` | pkg/gitops/gitops_sync.go:315-348 | whatever fails to parse or run, a sync removes only managed objects that the repository no longer wants and writes only changed resources, as wanted |
| `SyncRound.CleanSyncIsRounded` | pkg/gitops/gitops_sync.go:315-348 | without errors it has done all of that |
| `SyncRound.DeletionIsSafe` | pkg/gitops/gitops_sync.go:319-347 | whatever a round deletes, with or without errors, is not wanted and carries the agent's own marks: a workload the WORKLOAD label of its kind; a config map, secret or claim a non-empty AGENT_VERSION and no RELEASE; a service or ingress NETWORK and no NO_DELETE; a claim this cluster's PVC label; a release in the agent's namespace this cluster's ID; never a converted TLS secret or the object named after the namespace |
| `SyncRound.GoneIsRemoved` | pkg/gitops/gitops_sync.go:315-348 | conversely a round without errors removes every object with the agent's own marks that is not wanted any more |
| `SyncRound.WhatIsApplied` | pkg/gitops/gitops_sync.go:315-348 | what is applied for a resource has its name and text and is filed under its own key: its labelled form, which the agent will recognise as its own exactly as the author could foresee, or the secret made from it, which it never will |
| `SyncRound.NoClashIff` | pkg/gitops/gitops_sync.go:372-389 | resources have different final keys if and only if no secret is named like a certificate that converts |
| `Labels.RepoObject.AddLabels` | pkg/kube/client.go:659-769 | the labels an object carries after the in-place switch over its kind |
| `Labels.LabelsWritten` | pkg/kube/client.go:659-769 | which labels an object of each kind has afterwards, and that all its other labels, its name and its text are as before |
| `Labels.LabelledIffManaged` | pkg/kubernetes/resourcekinds.go:55-477 | a labelled object is exported if and only if its kind is exported, its labels and the settings do not exclude it and it is not named after the namespace |
| `Labels.ManagedIff` | pkg/kubernetes/resourcekinds.go:55-477 | the export filters accept an object, whoever made it, if and only if its own labels and kind carry the agent's marks, which are listed kind by kind |
| `Labels.UnlabelledIsForeign` | pkg/kubernetes/resourcekinds.go:55-477 | an object without labels is never the agent's, except a certificate, or a release outside the agent's own namespace |
| `Labels.ConvertedSecretIsUnmanaged` | pkg/kube/client.go:582-656 | a secret made from a certificate is never exported, so never deleted by a sync |
| `Labels.SecretKeepsRest` | pkg/kube/client.go:582-656 | the secret keeps the certificate's name, text and other labels and gains the label that marks it as converted |
| `ResourceKeys.KeyIsInjective` | pkg/kubernetes/resource/resource.go:25-31 | two resources share a key only if their names and lower-cased kinds agree |
| `ResourceKeys.KeyIgnoresCase` | pkg/kubernetes/resource/resource.go:25-31 | two resources share a key if and only if their names agree and their kinds agree up to case |
| `ResourceKeys.ParseKeyOfKey` | pkg/gitops/gitops_sync.go:427-430 | the name is recovered from a key of a slash-free name |
| `Rekeying.KeysThereAndBack` | pkg/gitops/gitops_sync.go:356-425 | moving entries to new keys and back regains the key set if and only if no new key collides |
| `Rekeying.EntriesThereAndBack` | pkg/gitops/gitops_sync.go:356-425 | moved entries return, others stay as they were |
| `Certificates.ResourceMap.DeleteAll` | pkg/gitops/gitops_sync.go:396-405 | exactly the listed keys go |
| `Certificates.ConvertCertificateToSecret` | pkg/gitops/gitops_sync.go:356-406 | in any range order, with insertion while ranging and with aliased maps, exactly the convertible certificates are replaced by their secrets in both maps |
| `Certificates.SecretsAre` | pkg/gitops/gitops_sync.go:356-406 | exactly which secrets are made: one for each certificate of the repository whose newest version converts, with its name, source file and original key |
| `Certificates.ConvertSecretToCertificate` | pkg/gitops/gitops_sync.go:408-425 | in any range order, exactly the converted secrets are replaced by certificates under their original keys |
| `Certificates.ConvertedBetween` | pkg/gitops/gitops_sync.go:356-425 | between the passes the entries with an original key are exactly the converted ones |
| `Certificates.RoundTrip` | pkg/gitops/gitops_sync.go:217-273 | the reverse pass regains the key set if and only if nothing collided; other entries are untouched; every entry is then filed under its own ID |
| `Certificates.CollisionsAreSameNames` | pkg/gitops/gitops_sync.go:372-389 | the collisions are exactly the secrets with the name of a converted certificate |
| `ChangeSets.Stage` | pkg/kubernetes/kubernetes.go:148-185 | the loop stages each action as the staging function does |
| `ChangeSets.StagedOnce` | pkg/kubernetes/kubernetes.go:148-185 | each action is staged exactly once or reported exactly once, and reported only if it does not parse |
| `ChangeSets.StagedAre` | pkg/kubernetes/kubernetes.go:148-185 | an object is staged under a command if and only if an action asks for it and parses to it |
| `ChangeSets.ErrorsAre` | pkg/kubernetes/kubernetes.go:148-185 | a resource is reported if and only if an action asks for it and it does not parse |
| `ChangeSets.InOrderTransitive` | pkg/kubectl/kubectl.go:214-254 | the order by rank and name is transitive, also reversed |
| `ChangeSets.InOrderTotal` | pkg/kubectl/kubectl.go:214-254 | any two objects are ordered one way or the other |
| `ChangeSets.RanksAreLayers` | pkg/kubectl/kubectl.go:229-254 | ranks compare as the lists of kinds say: which kinds may stand before which |
| `ChangeSets.NotLessIsAscending` | pkg/kubectl/kubectl.go:214-227 | names compare as strings: by the first character that differs, a prefix before the longer |
| `ChangeSets.Sort` | pkg/kubectl/kubectl.go:83-89 | a sorted permutation of the list |
| `ChangeSets.Run` | pkg/kubectl/kubectl.go:61-81 | one batch, and after a failed batch one command per object; returns the objects whose own command failed |
| `ChangeSets.InvocationsAre` | pkg/kubectl/kubectl.go:61-81 | nothing for an empty list; otherwise the batch with the whole list, and if and only if it failed a command for each object in list order, all with the same verb |
| `ChangeSets.KubectlApply` | pkg/kubectl/kubectl.go:60-91 | no apply comes before a delete. Among the applies nothing but a namespace comes before a namespace, no config or storage kind or workload before a service, role or account, no workload before a config or storage kind, no other kind before any of these; within a layer names ascend character by character. Deletes run in the opposite order; errors of both are returned |
| `ChangeSets.ReportedIffFailed` | pkg/kubectl/kubectl.go:61-81 | an object is reported if and only if the batch and its own command failed |
| `ChangeSets.NoErrorsMeansDone` | pkg/kubectl/kubectl.go:61-81 | a list without errors was carried out in full, whatever part of a failed batch had been |
| `YamlSplitter.TokenIsStable` | pkg/kubernetes/resource/load.go:116-143 | a token returned on a prefix of the input is returned unchanged on every extension |
| `YamlSplitter.ScanReader` | pkg/kubernetes/resource/load.go:68-108 | tokens and overflow depend only on the concatenation of the reads, not on where they break |
| `YamlSplitter.Lossless` | pkg/kubernetes/resource/load.go:116-143 | the input is its tokens interleaved with separator lines; only an unterminated tail after a separator, or an overflow, is dropped |
| `YamlSplitter.DocumentsAre` | pkg/kubernetes/resource/load.go:116-143 | the documents exactly: the stream is cut at its separator lines; the scan fails if and only if the rest after the last cut fills the buffer, and otherwise the rest is dropped if and only if it is empty or an unterminated separator line, and is else the last document |
| `Exporter.AppendListing` | pkg/kubernetes/kubernetes.go:113-136 | writes the listed objects in order, without the one named after the namespace |
| `Exporter.Export` | pkg/kubernetes/kubernetes.go:113-136 | writes the objects of all kinds in any order of kinds, or fails with a failing listing |
| `Exporter.ParseMultidoc` | pkg/kubernetes/resource/load.go:68-108 | the parse of a reader is the parse of its text, however it is read |
| `Exporter.JoinedDocuments` | pkg/kubernetes/resource/load.go:116-143 | documents joined by separator lines split into exactly those documents, if and only if each fits the buffer |
| `Exporter.ExportIsJoined` | pkg/kubernetes/kubernetes.go:234-247 | the exported stream is its documents joined by separator lines, the first keeping its marker |
| `Exporter.ExportParseRoundTrip` | pkg/kubernetes/manifests.go:19-21 | parsing an export recovers exactly one resource per object under its kind/name key if and only if every document fits the buffer |
| `ClusterExport.GetResources` | pkg/kubernetes/resourcekinds.go:105-120 | the listing of a kind holds exactly the objects of that kind with the agent's own marks, apart from the one named after the namespace, once each, in any order |
| `ClusterExport.ExportCluster` | pkg/kubernetes/kubernetes.go:113-136 | the export of a cluster is the text of exactly its managed objects of the kinds that the API server knows, for any order of kinds; it fails if and only if the listing of such a kind fails |
| `ClusterExport.ReadCluster` | pkg/gitops/gitops_sync.go:315-328 | reading the export back gives exactly the IDs of the objects that carry the agent's own marks; for the order in which they were exported, it succeeds if and only if no listing fails and every document fits the buffer; in any order, it fails if the text of one object alone fills the buffer |
| `EnvList.AppendInPlace` | pkg/command/agent/agent_env.go:102 | the in-place append shifts the tail of the shared array and leaves its last element doubled |
| `EnvList.DeleteEnv` | pkg/command/agent/agent_env.go:97-106 | the list without the namespace if and only if it occurs exactly once or the list is empty; an absent namespace gives the empty list |
| `EnvList.AbsentNamespace` | pkg/command/agent/agent_env.go:97-106 | an absent namespace: the only environment is lost |
| `EnvList.RepeatedNamespace` | pkg/command/agent/agent_env.go:97-106 | a namespace listed twice: one of the two stays |
| `Scheduler.StepKeepsInvariant` | pkg/gitops/gitops_sync.go:41-98 | every step with successful calls and a tag that does not go back keeps the accounting of pending updates |
| `Scheduler.NoLostUpdate` | pkg/gitops/gitops_sync.go:41-98 | in every such run, once the loop waits and both channels are empty, the synced revision is the mirror's |
| `Scheduler.NothingLostIff` | pkg/gitops/gitops_sync.go:41-98 | over every run, with any failures and any movement of the tag: no quiet state is behind the mirror if and only if no step loses, that is, meets the last pending update with an unreadable revision, an unchanged head, or a failing clone or apply |
| `Scheduler.OwnStepsReduceWork` | pkg/gitops/gitops_sync.go:41-98 | every step of the loop by itself reduces a bound on its remaining steps |
| `Scheduler.OwnRunsAreShort` | pkg/gitops/gitops_sync.go:41-98 | at most 19 of them in a row |
| `Scheduler.StuckMeansSynced` | pkg/gitops/gitops_sync.go:41-98 | a loop that can take no step of its own has caught up |
| `Scheduler.CatchesUp` | pkg/gitops/gitops_sync.go:41-98 | a run of own steps that cannot go on has at most 19 steps and ends with the mirror's revision synced |
| `Scheduler.FetchArrives` | pkg/git/repo.go:309-322 | a successful fetch, by the timer or on becoming ready, brings the revision it found into the mirror and leaves a notice for the loop |
| `Scheduler.FetchedTagIsSynced` | pkg/gitops/gitops_sync.go:456-479 | after any successful fetch that finds a revision, in a run with successful calls and a tag that does not go back, the loop left to itself ends waiting with that revision synced, within 19 steps |
| `Scheduler.TimerFetches` | pkg/gitops/gitops_sync.go:51-56 | from a waiting loop with its timer running, the timer, the loop and the interval worker by themselves come to a fetch that brings the tag, wherever it is, into the mirror |
| `Scheduler.NeverIdle` | pkg/gitops/gitops_sync.go:35-98 | while refreshes and revisions succeed, something will make the loop run again, in every state of every run |
| `Scheduler.NeverIdleIff` | pkg/gitops/gitops_sync.go:35-98 | over every run: something will make the loop run again in every state if and only if no step stalls, that is, a failed refresh stops a running timer or a failed revision leaves it off, with nothing else pending |
| `Scheduler.ReturningTagIsLost` | pkg/gitops/gitops_sync.go:67-82 | a run with successful calls in which the tag returns to the head the loop remembers ends quiet and not in sync |
| `Scheduler.FailedSyncIsNotRetried` | pkg/gitops/gitops_sync.go:67-96 | a refresh without a new revision does not retry a failed sync |
| `Scheduler.FailedSyncIsLost` | pkg/gitops/gitops_sync.go:84-96 | runs that end in such a state, not in sync, after a failed clone or a failed apply |
| `Scheduler.FailedRevisionIsLost` | pkg/gitops/gitops_sync.go:61-64 | a run that ends quiet and not in sync because the revision could not be read once |
| `Scheduler.FailedRefreshCanIdle` | pkg/gitops/gitops_sync.go:464-475 | a run in which a failed refresh stops a running timer and leaves the loop idle |
| `Scheduler.FailedRevisionCanIdle` | pkg/gitops/gitops_sync.go:61-64 | a run in which a failed revision leaves the timer off and the loop idle |
| `StopChannels.EveryRunClosesOnce` | pkg/websocket/client.go:99-118 | in every state of every run of registrations, launches after blocking, initialisations, disconnects and removals, in any interleaving and without condition: each registered channel is open, none is closed twice and no repository is signalled twice |
| `StopChannels.EveryRunHasOneLoopIff` | pkg/gitops/gitops.go:66-93 | over every run: no namespace ever has two loops neither stopped nor signalled if and only if no step doubles one |
| `StopChannels.StepIffDoubles` | pkg/gitops/gitops.go:78-92 | a step makes a second loop if and only if it launches a blocked iteration that was not stopped beside an active one of its name |
| `StopChannels.EveryRunIsSafeIff` | pkg/gitops/gitops.go:59-95 | over every run, in any interleaving: each active goroutine holds the entry of its name, so that it can be stopped, in every state, if and only if no step orphans a goroutine |
| `StopChannels.StepIffOrphans` | pkg/gitops/gitops.go:66-93 | from a consistent state a step that orphans nothing leads to a consistent one, and one that does to an unsafe one: a blocked iteration launched after its namespace was removed, or a removal whose repo entry belongs to another iteration |
| `StopChannels.OvertakenIteration` | pkg/gitops/gitops.go:78 | a run in which a removal overtakes a blocked iteration: its loop is orphaned, still the only one, and listening again doubles it |
| `StopChannels.AtMostOneActive` | pkg/gitops/gitops.go:66-93 | in a safe state no name has two active goroutines |
| `StopChannels.Agent.ListenEnvs` | pkg/gitops/gitops.go:59-95 | starts the interval worker and the environments that are not registered |
| `StopChannels.Agent.WithStop` | pkg/gitops/gitops.go:53-57 | run without interruption: afterwards exactly the old and the listed names are registered, with one new goroutine for each new name, and the state is safe |
| `StopChannels.ActiveStays` | pkg/gitops/gitops.go:59-95 | listening again disturbs no active goroutine |
| `StopChannels.Agent.Disconnected` | pkg/websocket/client.go:99-118 | closes every registered channel once, in any range order, and leaves nothing registered or active; does nothing unless running and initialised; leaves nothing blocked if nothing was |
| `StopChannels.Agent.DeleteEnv` | pkg/command/agent/agent_env.go:108-111 | with no iteration blocked, exactly the goroutine of the namespace stops; fails without a registered repository |
| `ResponseQueue.FlushedKeepsAll` | pkg/websocket/client.go:202-212 | sending what was kept moves packets in order from kept to consumed, and keeps some exactly if a write failed |
| `ResponseQueue.FlushedByWrites` | pkg/websocket/client.go:202-212 | how far the kept packets are sent, from sizes and write results alone |
| `ResponseQueue.OccurredKeepsAll` | pkg/websocket/client.go:214-230 | a turn of the select loop adds what is produced at the end and keeps a packet only if its write failed |
| `ResponseQueue.ReconnectedKeepsAll` | pkg/websocket/client.go:87-126 | over any sequence of connections, dial and write failures, the packets consumed, kept and waiting are those of before and all that were produced, also during outages, once each and in order; at most one is kept |
| `ResponseQueue.GoodConnectionDrains` | pkg/websocket/client.go:128-231 | a connection without failures that receives often enough consumes everything that is there or arrived meanwhile |
| `ResponseQueue.DeliveryIsPrefix` | pkg/websocket/client.go:238-250 | what was delivered is a prefix of what is deliverable, the rest being what is pending |
| `ResponseQueue.SendableIsBelow` | pkg/websocket/client.go:238-250 | the deliverable packets stand at exactly the ascending places of those below the size limit |
| `ResponseQueue.AppClient.SendResponse` | pkg/websocket/client.go:238-250 | a packet below the size limit is consumed if and only if its write succeeds, and is then delivered; any other packet is consumed and never delivered |
| `ResponseQueue.AppClient.Flush` | pkg/websocket/client.go:202-212 | the kept packets are consumed in order up to the first one below the size limit whose write fails; the platform has received exactly the consumed packets below the limit, in order and as often as they were consumed |
| `ResponseQueue.AppClient.Receive` | pkg/websocket/client.go:222-230 | the oldest packet is consumed, or kept for the next connection if it is below the size limit and its write fails |
| `ResponseQueue.AppClient.Connect` | pkg/websocket/client.go:128-231 | the state and error after a connection, whatever happens in it and whatever arrives before, during and after it |
| `ResponseQueue.AppClient.Loop` | pkg/websocket/client.go:87-126 | conservation for the running client: the consumed packets below the size limit are delivered, in order and as often as they were consumed, and no others are |
| `LogPipe.FramesConserve` | pkg/util/pipe/pipes.go:277-301 | the frames concatenate to the message, whatever its length |
| `LogPipe.FrameSizes` | pkg/util/pipe/pipes.go:277-301 | no frame exceeds the limit, only the last may be short, and it is empty exactly for multiples of the limit |
| `LogPipe.CutAndWriteMessage` | pkg/util/pipe/pipes.go:277-301 | the index loop writes these frames, up to the first failed write |
| `LogPipe.ReceivedIsLines` | pkg/util/pipe/pipes.go:244-274 | what is received is the first bytes and then each line whole, in order |
| `LogPipe.LinesInOrder` | pkg/util/pipe/pipes.go:244-274 | these lines stand at exactly the ascending places of line events |
| `LogPipe.TrafficAntiShake` | pkg/util/pipe/pipes.go:244-274 | for any interleaving of lines, ticks and the done signal, frames written plus bytes held are the bytes received; what is held is what came since the last tick, and everything received before a tick is written unless a write failed |
| `LogPipe.PendingIsSinceTick` | pkg/util/pipe/pipes.go:244-274 | nothing received before a tick is still pending after it, and without a tick everything is |
| `InstallChain.OneInFlight` | pkg/command/helm/helm_job.go:15-163 | a handled command has a successor or gives a terminal response, never both and never neither |
| `InstallChain.ChainEndsOnce` | pkg/command/helm/helm.go:15-74 | against any behaviour of Helm a chain gives exactly one terminal response, as its last, after a bounded number of commands |
| `InstallChain.RetriesAreBounded` | pkg/command/helm/helm_job.go:48-74 | at most five retries in total, the counter being carried from stage to stage |
| `InstallChain.KeyIsKept` | pkg/controller/c7nhelmrelease/c7nhelmrelease_controller.go:171-197 | every command and response of a chain carries the key of its release |
| `InstallChain.StartedChain` | pkg/controller/c7nhelmrelease/c7nhelmrelease_controller.go:171-269 | every chain that the reconciler starts has at most eight commands, at most five retries among them, one terminal response, and the key of its release throughout |
| `InstallChain.ChainIsExplained` | pkg/command/helm/helm.go:15-74 | from the outcomes of Helm alone: which commands go on; that a retry is the same stage with the counter one higher and otherwise the next stage of the same chain follows; and that the last response is Installed if and only if the last command is an install that Helm did, Upgraded if and only if an upgrade that it did, and CrossUpgradeFailed if and only if the deletion for a cross upgrade failed |
| `InstallChain.StagesStayInKind` | pkg/command/helm/helm_job.go:15-163 | an installation never turns into an upgrade or the other way round |
| `InstallChain.SuccessIsReported` | pkg/command/helm/helm.go:15-74 | if Helm always succeeds, the platform is told so |
| `InstallChain.StartedChainIsExplained` | pkg/controller/c7nhelmrelease/c7nhelmrelease_controller.go:171-269 | the same for every chain that the reconciler starts |
| `InstallChain.EndsIffWithinLimit` | pkg/command/helm/helm.go:37-58 | a chain ends against every behaviour of Helm if and only if it upgrades or its counter starts within the limit |
| `InstallChain.Worker.Start` | pkg/controller/c7nhelmrelease/c7nhelmrelease_controller.go:216-269 | a new chain has one command in flight |
| `InstallChain.Worker.Dispatch` | pkg/agent/worker.go:110-170 | whichever command is handled next, each chain has one command in flight or one terminal response |
| `Registration.Manager.RegisterVersions` | certificate/apimachinery/registered/registered.go:93-97 | the versions are registered |
| `Registration.Manager.EnabledVersionsForGroup` | certificate/apimachinery/registered/registered.go:162-175 | the whole list of the group's metadata in its order; empty without metadata |
| `Registration.Manager.UnionedGroups` | certificate/apimachinery/registered/registered.go:239-248 | no enabled version lacks its group's metadata, and each group comes once |
| `Registration.Factory.Unprioritized` | certificate/apimachinery/announced/group_factory.go:138-149 | for any range order, the announced versions outside the preference, once each, and the preferred ones that are missing |
| `Registration.Factory.Register` | certificate/apimachinery/announced/group_factory.go:116-161 | succeeds if and only if the group is well announced; the list has each announced version once and begins with the preference order |
| `Registration.Factory.Enable` | certificate/apimachinery/announced/group_factory.go:193-241 | with the manager where the list is registered, the allowed versions are enabled and become the group's metadata in list order, and it fails exactly if the group has metadata; with another manager it fails and leaves an unregistered version enabled |
| `Registration.AllowedKeepsOrder` | certificate/apimachinery/announced/group_factory.go:193-241 | the allowed versions stand at ascending places in the list, exactly those of versions that are allowed |
| `Registration.PreferredComesFirst` | certificate/apimachinery/registered/registered.go:162-175 | so the first version of a group's metadata is the first in the preference order that is allowed |
| `Registration.Factory.RegisterAndEnable` | certificate/apimachinery/announced/group_factory.go:246-255 | succeeds if and only if the group is well announced and no metadata stands in its way; other groups stay as they were and the manager valid |
| `Registration.Registry.AnnounceGroupVersion` | certificate/apimachinery/announced/announced.go:56-63 | a version is announced once; a second announcement changes nothing |
| `Registration.Registry.AnnounceGroup` | certificate/apimachinery/announced/announced.go:66-73 | the same for the arguments of a group |
| `Registration.Registry.AnnouncePreconstructedFactory` | certificate/apimachinery/announced/announced.go:92-99 | the same for a whole factory, also for one that is announced again |
| `Registration.Registry.RegisterAndEnableAll` | certificate/apimachinery/announced/announced.go:78-88 | for any range order and any valid manager, succeeds if and only if every group is well announced and none has metadata in its way; then each group's metadata is exactly the allowed part of its finished list |
| `NodeTotals.ResourceList.Add` | pkg/metrics/node/node.go:195-209 | for any range order, the entries are added name by name |
| `NodeTotals.ResourceList.Raise` | pkg/metrics/node/node.go:213-233 | for any range order, the entries are raised to the larger quantity |
| `NodeTotals.MaxIsLargest` | pkg/metrics/node/node.go:213-233 | the maximum over init containers is the largest quantity among those that mention the name |
| `NodeTotals.PodRequestsAndLimits` | pkg/metrics/node/node.go:168-192 | for each name the larger of the sum over containers and the maximum over init containers, of those that mention it |
| `NodeTotals.PodNames` | pkg/metrics/node/node.go:168-192 | the pod requests exactly the names that some container or init container requests, and at least as much as any init container; the same for limits |
| `NodeTotals.EffectiveIsLeast` | pkg/metrics/node/node.go:168-192 | the effective quantity is attained and is the least that is not below the containers' sum nor below any init container's quantity |
| `NodeTotals.PodsTotalRequestsAndLimits` | pkg/metrics/node/node.go:134-167 | for each name the sum over the pods of these |
| `NodeTotals.SumIsAdditive` | pkg/metrics/node/node.go:195-209 | sums add up list by list, an absent name counting nothing |
| `NodeTotals.TotalsIgnoreOrder` | pkg/metrics/node/node.go:134-167 | the totals do not depend on the order of the pods |
| `PolarisChecks.ApplyChecks` | pkg/polaris/validator/schema.go:113-170 | fails if and only if a check not opted out of is unknown or applies and cannot be evaluated; otherwise records exactly the applying checks, with their verdict, category, message and a severity of warning or error |
| `PolarisChecks.AppliesIff` | pkg/polaris/validator/schema.go:77-107 | exactly which checks apply: configured with severity warning or error, not opted out of, not exempted by a rule for a prefix of the controller's name unless exemptions are disallowed, for the target at hand, and with filters that include and do not exclude the controller's kind and the sort of container; a custom check replaces a built-in one |
| `PolarisChecks.ExemptedIff` | pkg/polaris/config/exemptions.go:8-28 | a check is exempted if and only if one exemption names both the check and a prefix of the controller's name |
| `PolarisChecks.KindNames` | pkg/polaris/config/supportedcontrollers.go:37-143 | a string is read as a supported kind if and only if it is the printed name of the kind or its plural, in any case |
| `PolarisChecks.BuiltSetsArePartitioned` | pkg/polaris/validator/schema.go:77-107 | in such a set errors, warnings and successes are all the results, and the summary counts them |
| `PolarisChecks.PodAndContainerResultsAreDisjoint` | pkg/polaris/config/schema.go:147-150 | no check ID is in the results of a pod and of a container |
| `PolarisSummary.GetSummary` | pkg/polaris/validator/summary.go:60-66 | counts every result once under its status, in any range order |
| `PolarisSummary.TalliedAre` | pkg/polaris/validator/summary.go:31-66 | the three counters: successes, failures with severity warning, all other failures |
| `PolarisSummary.GetSummaryByCategory` | pkg/polaris/validator/summary.go:69-80 | counts every result once under its category and status, holds no empty category, and the categories together count every result |
| `PolarisSummary.CategoriesAre` | pkg/polaris/validator/summary.go:69-80 | a category is in the summary if and only if a result has it, and its three counters are the numbers of its successes, its failures with severity warning and its other failures |
| `PolarisSummary.GetSortedResults` | pkg/polaris/validator/summary.go:147-186 | errors, warnings, successes, each result once, as many as the summary says, except failed results of another severity, which the summary counts as errors and the list omits |
| `PolarisSummary.Summaries.AddSummary` | pkg/polaris/validator/summary.go:44-57 | for any range orders: a category of one map keeps its count, a shared one gets the other count twice |
| `PolarisSummary.SharedCategoryCountsTwice` | pkg/polaris/validator/summary.go:45-56 | one success each: the merged summary shows three |
| `PolarisSummary.MergeExactIff` | pkg/polaris/validator/summary.go:44-57 | merging a list of summaries: counts are never too small, and right for a category if and only if at most one of them has it |
| `PolarisSummary.MergedSummarises` | pkg/polaris/validator/summary.go:44-57 | the same for merging summaries that are merged themselves, to any depth |
| `PolarisSummary.TotalIsFlatIff` | pkg/polaris/validator/summary.go:44-57 | the categories of a merged summary together never count too little, and equal the flat total if and only if no category is shared |
| `PolarisAudit.PodSummaryByCategory` | pkg/polaris/validator/summary.go:92-98 | the pod's summary is merged from the exact summaries of its result sets; it counts no category too little, and right exactly those in at most one of the sets |
| `PolarisAudit.ControllerSummaryByCategory` | pkg/polaris/validator/summary.go:108-112 | the same for a controller |
| `PolarisAudit.AuditSummaryByCategory` | pkg/polaris/validator/summary.go:124-130 | the same for an audit |
| `PolarisAudit.AuditSetsAre` | pkg/polaris/validator/summary.go:92-130 | the sets that are summed up are those of every controller, its pod and the containers of the pod, and no others |
| `PolarisAudit.CategoryIsRightIff` | pkg/polaris/validator/summary.go:92-130 | for all three, the count of a category is never too small and right if and only if the category occurs in at most one of the result sets |
| `PolarisAudit.SharedCategoryIsWrong` | pkg/polaris/validator/summary.go:92-98 | two result sets with one result each of one category: the summary is never right |
| `PolarisAudit.PodSummary` | pkg/polaris/validator/summary.go:83-89 | the flat summary of a pod counts every result once |
| `PolarisAudit.ControllerSummary` | pkg/polaris/validator/summary.go:101-105 | the same for a controller |
| `PolarisAudit.AuditSummary` | pkg/polaris/validator/summary.go:115-121 | the same for an audit |
| `PolarisAudit.CategoriesMatchFlatIff` | pkg/polaris/validator/summary.go:83-130 | for all three, the categories together count at least what the flat summary does, and the same if and only if no category occurs in two result sets |

## Left out

- Resources are values in a map. `SetSourceKind` on an object shared by two maps is a replacement of both entries; an object held elsewhere is not modelled.
- Annotations, commit labels, template labels and the operate annotation of a release; no filter reads them. A resource whose labelling fails is logged and applied without labels; the model takes labelling to succeed.
- Decoding and encoding YAML and JSON, git, kubectl, Helm, the Kubernetes API and the websocket are parameters.
- ClusterExport.ReadCluster: the cluster holds no object of a kind that its API server does not know.
- Exporter.ParseMultidoc: one resource per document; the branch for lists of resources, which an export never contains, is not modelled.
- SyncRound.DoSync: rounds that fail in the clone or at a tag look-up have no effect and are the `Failed` event of `Reconcile`. The event log, file commits and the final refresh are not modelled. Names are taken to have no slash, as Kubernetes requires. A repository with a secret named like a certificate that converts cannot be in sync, unless both are the same object (`SyncRound.NoClashIff`, `Reconcile.SyncableIff`); its rounds are modelled too, with the certificate winning where both changed.
- Lower-casing and trimming text are modelled for ASCII, of which resource kinds consist.
- Reconcile.Load: no directory carries the suffix .yml, which the walk would try to read as a file.
- The certificate manager version and the settings do not change during a run.
- `Scanner` stops after a hundred empty reads; the model gives it all the reads it wants.
- Labels.ConvertedSecretIsUnmanaged: `ConvertCertificate` is a function of one manifest, not a loop writing a buffer.
- The handlers in `InstallChain` are functions from a decoded request to successor and response; decoding the re-queued request gives it back. `UpgradeAgent` retries without a limit and is not a chain in this sense.
- `StopChannels` makes a part of an iteration of `listenEnvs`, a disconnect and the channel part of `DeleteEnv` one step each; data races inside them are not modelled, nor is the time a stopped goroutine takes to notice.
- `Scheduler` does not bound the channel of the interval worker, which is shared by all namespaces and takes a hundred entries.
- ResponseQueue.AppClient.Connect: the response channel has no capacity limit and is never closed.
- `CopyToWebsocketForLog` around the debouncer, with its goroutines and closes, and `ReSync`.
- `Registration`: schemes, mappers and interfaces of a group, and the priorities of `RESTMapper`; adding interfaces for a listed version cannot fail.
- NodeTotals.PodsTotalRequestsAndLimits: copying a quantity can fail in principle and then fails the whole sum.
- `PolarisSummary`: scores and grouping by namespace; counters are unbounded.
- PolarisChecks.ApplyChecks: the schema engine is the map of verdicts, and both loops run over the sorted check IDs, an order that the result does not depend on.
- The plain watch controllers, Helm field mapping, option parsing, SSH keys and process startup.
