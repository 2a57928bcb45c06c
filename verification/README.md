# Reverse-proxy control agent: a verified model

The agent owns an nginx include directory. `POST /apply` changes one vhost,
`POST /sync-all` replaces the whole set. Each request renders, writes, tests, reloads, and
then either records a generation or rolls back; custom domains get a challenge vhost first
and are upgraded to HTTPS once certbot has issued. Five places have to agree: the files on
disk, the files nginx runs, the store in memory, the state file, and certbot's certificates
and lineages. Every call to the outside can fail, a failed reload may still have taken
effect, nginx loads the directory whenever it gets round to a signal - the agent's or the
renewal hook's - and the agent can crash between any two steps.

## How it is organised

- `Lifecycle` gives, as functions of the state before and of how the external calls turned
  out, the state and the reply after each request.
- `Host`, `Fsops`, `Nginx`, `State`, `Certbot`, `Manager` and `Server` are the program:
  classes with the source's fields, loops and early returns. `Host.World` is everything
  outside the agent, every outcome nondeterministic; its ghost `history` holds every state
  of the files, stores and certificates passed through, its ghost `faults` counts the calls
  that failed, and its ghost `signals` the reloads asked for, with the directory at each
  that was signalled. `Manager.Apply` and `Manager.SyncAll` are proved to end in a state and
  with a reply of `Lifecycle`, and to pass only through points of the request.
- `Scenes` relates what nginx runs and has been asked for before and after a stretch of
  work, and `Faults` counts how many calls must have failed for things to turn out as they
  did; `Manager` proves both of every reply.
- `Points` says which states those are - what an interrupted request may have changed so
  far - and that they are safe. `Trace` carries it along a history, one step at a time. A
  crash in `Runs` may happen at any point and nowhere else, and `Server.Serve` is proved to
  produce such runs.
- `Safety`, `Agreement`, `SyncAgreement`, `Convergence` and `Runs` prove what the requests
  mean: over one request with any outcome, and over whole runs with crashes. `Replies` reads
  codes, generations, errors and lists off the stores before and after. `Limits` has
  the promises that stop short, each with its exact condition and a concrete request.
- `Receipt` is the byte stream of the reload receipt, `Hostnames` and `Render` the names
  and the shapes of vhosts, `Reports` and `Sorting` the sorted lists of replies,
  `SourcePolicy` and `RateLimit` the two self-contained cores.

## What holds, and where it stops

- Certificate coverage, monotone generations and all-or-nothing hold for every outcome.
- `settleCert` takes a backup it could not read for a missing file, so undoing an upgrade
  can remove the vhost behind a 200. `Agreement.ApplyAgreement` and
  `SyncAgreement.SyncHeals` are exact about it; `Limits.LostBackupExample` is an instance.
- Errors of writing the state file are dropped, so a 200 is durable exactly when a write
  succeeded (`Runs.ApplySaved`, `Limits.UnstoredExample`).
- A request during which only one call fails, the reserved file being the agent's own, never
  ends in doubt: if it is refused nothing has changed, and a rollback is known to have
  succeeded (`Manager.FairApply`, `Manager.FairSync`).
- Snapshot generation zero means "never synced", so a negative one can follow it
  (`Runs.SnapshotRegression`, `Limits.NegativeSnapshotExample`), and a snapshot sent again
  after its 200 is sure to be refused if and only if its generation is positive
  (`Replies.SnapshotRefusedExactly`).
- A sync is guarded against strictly older generations only: at an equal one it renders
  again, even over a tombstone (`SyncAgreement.EqualGenerationRestores`).
- Repeated names are looked for among planned files only, so a name whose first entry was
  stale and not present may come again; its result is then wrong (`Limits.AppliedFlags`,
  `Limits.RepeatedNameExample`).
- What nginx runs after a refusal is the agent's business only while nobody else reloads.
  Apply writes the candidate (internal/manager/manager.go:120); installing the receipt
  fails with an I/O error (internal/nginx/proof.go:76-90); in between, the renewal hook
  (scripts/deploy.sh:69-77) has made nginx load the candidate. The file is put back, but
  the error is not that of an unconfirmed reload, so internal/manager/manager.go:321 asks
  for no second proof: the reply is a plain 422 and nginx runs the candidate.
  `Answers` and `SyncAnswers` in `Manager` say what is left: what nginx served, what is on
  disk or the candidate; and with a proof directory the candidate only if a reload was
  outstanding, others asked for one, or the reply is in doubt.
- PENDING survives a sync that keeps the newer state of an interrupted name
  (`Limits.PendingExactly`, `Limits.PendingExample`).
- A removed name stays removed if and only if the state file knows its generation
  (`Runs.RemovedExactly`). A tombstone that could not be written is covered if the file
  still has the name at that generation, as after a sync that pruned it; after an apply,
  whose generation is new, a restart has forgotten the removal
  (`Limits.ForgottenTombstoneExample`).
- A request cut off after its record was made is answered 409 when sent again, and what was
  left to do stays undone: a custom name keeps its challenge vhost with an empty or FAILED
  certificate state, a removed one its certbot lineage (`Convergence.RetryConverges`,
  `Convergence.RetryKeepsLineage`, `Limits.CutOffExample`, `Limits.OrphanLineageExample`). A
  snapshot that lists the custom name puts it right (`Convergence.SyncRepairs`); a lineage
  goes with the next, newer removal.

Where code and comments disagree the code is modelled: `restoreConfDir`
(internal/manager/fsops.go:98-107) is described as removing every file before rewriting
the backup, but writes first and removes what is left over; the package comment
(internal/manager/manager.go:5-18) has every request at or below the applied generation
rejected, but a sync renders an entry at exactly that generation again.

## Hypotheses

- Only the agent changes vhosts, the proof file, certificates and lineages; certbot's exit
  status zero means the certificate exists, as `Ensure` takes it to.
- Nonces never repeat, and the hash has no collisions: the digest is modelled as the stream
  hashed.
- One mutation runs at a time (the mutation lock); `/status` may read in between.
- nginx adopts the whole directory or keeps what it ran, answers the proof URI from the
  configuration it runs, and evaluates allow and deny rules by first match.

## Model

| member | source | states |
|---|---|---|
| `Manager.Manager.Apply` | internal/manager/manager.go:76-138 | the state and the reply of `Lifecycle.ApplyNext` for some outcome of the external calls; a reply other than 200 that reports no failed file rollback leaves files, both stores and certificates as they were; when no outside call fails and the reserved file is the agent's own, a valid request that is not stale is answered 200 and its name is exactly as it asks; no reload is asked for that nginx -t has not accepted; a quiet nginx in step with the directory stays in step unless the reply or the certificate state tells of a rollback in doubt; after a refusal nginx serves what it served, what is on disk or the candidate, and the candidate only if others asked for a reload or the rollback is in doubt; a verified 200 leaves nginx running exactly the directory unless an upgrade was taken back; every state passed through is a point of the request (a stale or invalid one passes through none), and what /status reports along the way never goes back; 409 if and only if the name is known at the request's generation or later, with that generation; a 200 with the generation the name has from then on, and the first reload signalled since the call began was for exactly the files it put there; it ends as it does only for as many failed calls as that takes, so one failed call leaves nothing in doubt and a refusal changes nothing; /status shows it as the last apply if nginx was asked |
| `Manager.Manager.SyncAll` | internal/manager/manager.go:197-311 | the same for a manifest and `Lifecycle.SyncNext`; when no outside call fails and the reserved file is the agent's own, a plan that stands is swapped in, stored, pruned and settled, and answered 200; after a verified 200 nginx runs exactly the directory, certificates issued included, unless an upgrade was taken back and none confirmed since; after a refusal it serves what it served or files of the swap, and those of the plan only if others asked for a reload or the rollback is in doubt; every state passed through is a point of the sync: on the way to the plan, or past it with only certificates handled; 409 if and only if a snapshot generation other than zero is stored and the request's is at most that, which the reply gives; the first reload signalled before a 200 was for exactly the planned files; one failed call leaves nothing in doubt |
| `Manager.Manager.TestAndReload` | internal/manager/manager.go:332-348 | a failed test asks for no reload; otherwise exactly one is asked for; success means it was signalled for exactly the directory, and in verified mode that nginx runs exactly what is on disk, the receipt it runs being the digest of exactly those vhosts; no reload is then left outstanding that was not before; it fails only when an outside call does or the reserved file is not the agent's own, which is then left as it is |
| `Manager.Manager.RestoreAfterFailure` | internal/manager/manager.go:317-329 | files that could not be put back are reported; an ambiguous reload is cleared only by proving the old configuration running again, which fails only if a call does; without one nginx is not asked |
| `Manager.Manager.CommitFile` | internal/manager/manager.go:99-103 | a candidate is confirmed by the one reload signalled for it, and running; or, after a failed call, its file is back as it was; or, after a second, the failure to put it back or to confirm that is reported; nginx serves what it served, the candidate, or what is back on disk |
| `Manager.Manager.TakeBack` | internal/manager/manager.go:99-103 | the file is what it was, or a call has failed and the failure is reported; nginx is asked again only after an ambiguous reload |
| `Manager.Manager.Serve` | internal/manager/manager.go:124-131 | a written vhost is kept exactly when its reload is confirmed or it cannot be taken back; in between nothing but that file moves |
| `Manager.Manager.Unserve` | internal/manager/manager.go:95-103 | the same for a removed vhost |
| `Manager.Manager.Change` | internal/manager/manager.go:88-138 | the same as `Apply` for a request known to be newer and valid |
| `Manager.Manager.ApplyAbsent` | internal/manager/manager.go:95-108 | the ABSENT half of `ApplyNext`; after a verified 200 nginx runs the directory, so the name is not served |
| `Manager.Manager.ApplyPresent` | internal/manager/manager.go:110-138 | the PRESENT half of `ApplyNext` |
| `Manager.Manager.SettleCert` | internal/manager/manager.go:142-168 | the state of `Lifecycle.SettleNext`, whatever certbot, the file system and nginx do; at every step the certificate may have come, the vhost been replaced or lost, and OK noted only with the HTTPS vhost in place |
| `Manager.Manager.Upgrade` | internal/manager/manager.go:157-166 | the challenge vhost is replaced only by a confirmed HTTPS vhost whose certificate exists; with an unreadable backup undoing removes the file |
| `Manager.Manager.PruneCert` | internal/manager/manager.go:170-194 | callable only for a name off disk, not present in the store and not in the configuration a verified nginx runs; afterwards no lineage is left or the name is FAILED |
| `Manager.Manager.PlanRoutes` | internal/manager/manager.go:212-264 | the planning loop computes `Lifecycle.PlanAll`; it fails only on an invalid entry or a duplicate name |
| `Manager.Manager.Swap` | internal/manager/manager.go:275-284 | the directory becomes the plan, confirmed, or is back to exactly the prior files, or the failure is reported; in between each file is the prior one or the planned one |
| `Manager.Manager.PruneCerts` | internal/manager/manager.go:287-289 | prunes in order, each name off disk and no longer running before its lineage goes |
| `Manager.Manager.SettleCerts` | internal/manager/manager.go:291-300 | settles in order; a directory nginx ran before it runs again after the last confirmed upgrade; a quiet nginx stays in step unless an upgrade with nothing confirmed after it left its rollback in doubt, lost its backup, or was taken back after another |
| `Manager.Manager.SettlePending` | internal/manager/manager.go:292-300 | one round: a name whose certificate paths do not resolve is skipped, any other is settled |
| `Manager.Manager.Accept` | internal/manager/manager.go:285-300 | the state after a confirmed swap: store replaced, then pruned, then settled |
| `Manager.Manager.Status` | internal/manager/manager.go:351-378 | lists every known name, and every name with a certificate state, once and sorted, with the last events, the health and the capability |
| `Safety.ApplyAllOrNothing` | internal/manager/manager.go:88-131 | a refused apply changes nothing, or only its own file when the reply says the file could not be put back |
| `Safety.SyncAllOrNothing` | internal/manager/manager.go:201-284 | a refused sync changes nothing; with a failed rollback each file is the prior one or the planned one and nothing else has changed |
| `Points.ApplyForward` | internal/manager/manager.go:76-138 | an apply, with any outcome, keeps every HTTPS vhost covered by its certificate and every known generation, in memory and on file |
| `Points.SyncForward` | internal/manager/manager.go:197-311 | the same for a sync |
| `Points.SettleMid` | internal/manager/manager.go:142-168 | settling a certificate, its rollback included, changes no more than a point may: its name's file and certificate, and its entry at the same generation |
| `Points.PruneMid` | internal/manager/manager.go:186-194 | so does a prune of a name whose vhost is gone |
| `Points.ApplyIsPoint` | internal/manager/manager.go:76-138 | an apply ends in one of its points |
| `Points.ApplyPointMid` | internal/manager/manager.go:76-138 | at every point of an apply - the file moved, then the record made with the file in place, then the certificate handled - only its own name has changed |
| `Points.SyncIsPoint` | internal/manager/manager.go:197-311 | a sync ends in one of its points |
| `Points.ApplyPointForward` | internal/manager/manager.go:76-138 | every point of an apply keeps HTTPS vhosts covered and sets neither store back |
| `Points.SyncPointForward` | internal/manager/manager.go:197-311 | so does every point of a sync |
| `Points.BeyondForward` | internal/manager/manager.go:285-300 | handling certificates, any number of them and cut off anywhere, keeps the same |
| `Points.SyncDeletesOnlyRetired` | internal/manager/manager.go:266-289 | when a sync deletes a lineage its vhost is off disk, its entry is not present and no planned name is meant; afterwards the lineage is gone or the state is FAILED |
| `Safety.ApplyDeletesOnlyRetired` | internal/manager/manager.go:95-108 | the same for a removal: the delete starts from the recorded tombstone with the vhost off disk |
| `Manager.FairApply` | internal/manager/manager.go:317-329 | an outcome that takes at most one failed call is never in doubt: nothing but clean rollbacks, and a refusal changes nothing |
| `Manager.FairSync` | internal/manager/manager.go:317-329 | the same for a sync, however many certificates it settles |
| `Manager.WaveringCosts` | internal/manager/manager.go:291-300 | it takes two failed calls for upgrades to leave nginx in doubt |
| `Scenes.LandFailed` | internal/manager/manager.go:317-348 | a candidate that failed its test or reload and was taken back: one failed call, or two if the way back failed; a quiet nginx runs what it ran or what is back on disk |
| `Scenes.ConfirmedTells` | internal/manager/manager.go:332-348 | what a confirmed reload and whatever followed it say of nginx |
| `Replies.ApplyReplies` | internal/manager/manager.go:80-138 | 409 if and only if the name is known at the request's generation or later, with that generation and nothing changed; 200 with the request's generation, which the entry has from then on, present unless removal was asked for; any other reply is a 422 with an error that leaves both stores, certificates and lineages alone |
| `Replies.ApplyErrors` | internal/manager/manager.go:84-131 | which error a refusal gives: that of the request, of a call before nginx, or how far nginx and the way back got; only a file that could not be put back is left changed |
| `Replies.CandidateMeans` | internal/manager/manager.go:95-120 | the files put before nginx: all there were, without the vhost of the name or with the one asked for, which is a challenge only for a custom name without a certificate |
| `Replies.ApplyLeaves` | internal/manager/manager.go:104-168 | the entry and the vhost an accepted apply leaves, and the certificate state: none for platform names, OK exactly if the certificate was there or was issued and the upgrade confirmed |
| `Replies.SyncReplies` | internal/manager/manager.go:201-311 | 409 if and only if the stored snapshot generation is not zero and the request's is at most that, with the stored one and nothing changed; 200 with the request's, which is then stored; any other reply is a 422 that leaves both stores, certificates and lineages alone |
| `Replies.SyncErrors` | internal/manager/manager.go:207-284 | which error a refusal gives, and whether the swap, its reload or the way back failed |
| `Replies.SyncResult` | internal/manager/manager.go:232-308 | the result of a manifest entry: applied at its generation, unless the name is known at a later one, which is then given |
| `Replies.SyncResults` | internal/manager/manager.go:302-308 | the results are sorted by name, each name once, and only names the manifest asks to be served |
| `Replies.SyncPruned` | internal/manager/manager.go:266-273 | the prune list is sorted, and holds exactly the names with a vhost on disk that the manifest neither asks for nor names at an older generation while they are present |
| `Replies.SyncServed` | internal/manager/manager.go:243-300 | the entry and the vhost an accepted sync leaves for a name whose manifest entry takes effect; its certificate is OK or FAILED, never PENDING |
| `Replies.SyncKept` | internal/manager/manager.go:229-242 | a name keeps an entry newer than its manifest entry, with its vhost; if that is gone the entry becomes a tombstone |
| `Replies.SyncDropped` | internal/state/state.go:108-126 | a name the manifest leaves out loses its vhost and keeps its generation as a tombstone, with no certificate state unless its certificate could not be deleted |
| `Replies.SyncStray` | internal/manager/manager.go:266-289 | so does a vhost without an entry, which gets one, at generation zero, only if its certificate could not be deleted |
| `Replies.PrunedEntry` | internal/manager/manager.go:186-194 | pruning any names changes an entry only to note that the certificate could not be deleted |
| `Replies.PointSnapshot` | internal/manager/manager.go:201-285 | no point of a request moves the snapshot generation, but to that of a snapshot that is not refused |
| `Replies.SnapshotStays` | internal/manager/manager.go:201-203 | over any run a positive snapshot generation never goes back, crashes included if the state file has it |
| `Replies.SnapshotRefusedAgain` | internal/manager/manager.go:201-203 | a snapshot with a positive generation sent again after its 200, whatever came in between, is answered 409 and changes nothing |
| `Replies.SnapshotRefusedExactly` | internal/manager/manager.go:201-203 | that is the exact condition: at zero or below some run without a crash makes it be taken over again |
| `SyncAgreement.PlanRefused` | internal/manager/manager.go:212-253 | a manifest is refused only for one of its entries, which the error is about: it cannot be planned on its own account, or an earlier entry has its name |
| `Runs.RunSafe` | internal/manager/manager.go:76-311 | over any run of requests with any outcomes, and crashes at any point of any of them, an HTTPS vhost has its certificate and the state file never regresses |
| `Runs.RunMonotone` | internal/state/state.go:95-126 | after any run without a crash no name is forgotten and no generation has gone back |
| `Runs.AcknowledgedApplySurvives` | internal/manager/manager.go:104-108 | a generation answered 200 whose record was written is still known after anything that follows, crashes included |
| `Runs.ApplySaved` | internal/manager/manager.go:128-137 | a restart right after a 200 knows the generation if and only if one of the ignored state file writes succeeded |
| `Runs.AcknowledgedSyncSurvives` | internal/manager/manager.go:285-310 | the same for every name in the results of an acknowledged sync, if any of its writes of the state file succeeded |
| `Runs.SyncSaved` | internal/manager/manager.go:285-300 | a restart right after a sync finds the replaced store, certificate states aside, if any of the ignored writes succeeded, and the old file otherwise |
| `Runs.SyncKnown` | internal/manager/manager.go:285-300 | so it knows the generation of an entry that took effect if and only if one did |
| `Runs.SnapshotRegression` | internal/manager/manager.go:201-203 | the snapshot generation goes back if and only if it was zero and the request is negative |
| `Runs.RemovedStaysRemoved` | internal/state/state.go:85-126 | over any run, crashes included, no request at or below the generation of a removed name (for a sync: below it) brings its vhost back, if the state file knows that generation, as a tombstone or otherwise; without that, until the first crash |
| `Runs.RemovedExactly` | internal/state/state.go:108-126 | that is the exact condition: if the state file does not know the generation, a crash and a request that is not newer bring the vhost back |
| `Runs.TombstoneStays` | internal/state/state.go:85-126 | and a tombstone in the state file stays one |
| `Runs.PointGone` | internal/manager/manager.go:76-311 | no point of a request that is not newer brings a removed vhost back or loses what either store knows of it |
| `Runs.RunAgrees` | internal/manager/manager.go:76-311 | over any run without lost backups, failed rollbacks or crashes, files, entries, requests and certificate states agree |
| `Agreement.ApplyAgreement` | internal/manager/manager.go:88-168 | an apply keeps "file exists iff present, and is a render of the request that set the entry, at its generation" if and only if no file rollback failed and no unreadable backup was taken for a missing file |
| `Agreement.ApplyTruth` | internal/manager/manager.go:128-168 | an apply that keeps that agreement leaves OK exactly for HTTPS and FAILED exactly for challenge vhosts if and only if no upgraded vhost got stuck |
| `Agreement.SettleAt` | internal/manager/manager.go:142-168 | what settling does to its own name, and that it touches no other |
| `Agreement.ServeAt` | internal/manager/manager.go:110-138 | what a confirmed PRESENT apply leaves for its name, and that it touches no other |
| `Agreement.RemoveAt` | internal/manager/manager.go:95-108 | what a confirmed ABSENT apply leaves for its name, and that it touches no other |
| `SyncAgreement.SyncHeals` | internal/manager/manager.go:212-300 | from any files and any store, an accepted sync re-establishes "file exists iff present" if and only if no backup was lost in settling |
| `SyncAgreement.DesiredOnly` | internal/manager/manager.go:212-264 | every planned file is a fresh render of a manifest entry or a newer vhost that was on disk |
| `SyncAgreement.DesiredAll` | internal/manager/manager.go:212-264 | and every such file is planned |
| `SyncAgreement.SyncAt` | internal/manager/manager.go:285-300 | every name after an accepted sync, settled or as planned |
| `SyncAgreement.SyncKeepsAgreement` | internal/manager/manager.go:212-300 | a sync keeps the agreement of files, entries and requests if and only if no backup was lost |
| `SyncAgreement.ResidueAgrees` | internal/manager/manager.go:275-284 | a sync that could not put the files back keeps the agreement if and only if the same names are left, each with a render of its last accepted request |
| `SyncAgreement.SyncTruth` | internal/manager/manager.go:254-300 | a sync keeps certificate states truthful if and only if no backup was lost and no upgrade got stuck |
| `SyncAgreement.EqualGenerationRestores` | internal/manager/manager.go:232-243 | an entry at exactly the stored generation, which an apply refuses, is served again by a sync, even over a tombstone |
| `SyncAgreement.PendingSettled` | internal/manager/manager.go:255-300 | a name PENDING after a sync was kept by the stale guard and PENDING before |
| `SyncAgreement.ResultsTellTheTruth` | internal/manager/manager.go:302-308 | for distinct names a result is applied exactly for entries the stale guard let through, and carries the generation in force |
| `Convergence.ApplyAllLatest` | internal/manager/manager.go:80-138 | after any sequence of valid applies whose calls succeed, each name is as the newest request for it asks, or untouched |
| `Convergence.DeliveryOrderIndependent` | internal/manager/manager.go:80-138 | any order and any repetition of the same requests gives the same files and entries |
| `Convergence.CleanSyncAt` | internal/manager/manager.go:212-300 | a sync of distinct names none of which is older than the store, all calls succeeding, gives each what its request asks |
| `Convergence.BatchRefinesSingles` | internal/manager/manager.go:212-300 | such a sync gives its names the files and entries that applying the routes one by one, in any order, gives |
| `Convergence.PlannedIff` | internal/manager/manager.go:212-264 | a manifest of distinct names is planned if and only if each of its entries can be |
| `Convergence.PlanOrderFree` | internal/manager/manager.go:212-273 | a permuted manifest is planned too, and the plan, the prune list and the results are the same |
| `Convergence.SyncDeterministic` | internal/manager/manager.go:197-311 | if a manifest of distinct names is accepted so is any permutation, and files, store, state file, certificates, lineages and reply are the same |
| `Convergence.PriorSplits` | internal/manager/manager.go:266-273 | the files there were split exactly into the kept and the pruned |
| `Convergence.RetryConverges` | internal/manager/manager.go:80-137 | a request cut off by a crash at any point and sent again: before its record reached the state file it gives the files and the entry the uncrashed request gives, and with an up-to-date state file the whole store; after, it is answered 409 and changes nothing, every other name being as without the crash, and its own exactly if its certificate state says that nothing was left to do |
| `Convergence.RetryKeepsLineage` | internal/manager/manager.go:80-106 | a removal sent again after its record was made leaves the lineage exactly if certbot had not dropped it |
| `Convergence.SyncRepairs` | internal/manager/manager.go:212-300 | from any such point a snapshot that lists the name leaves it as the request asks |
| `Limits.AppliedFlags` | internal/manager/manager.go:226-243 | a result says applied if and only if no entry of its name fell to the stale guard, so it is right if and only if the manifest does not hold both kinds of entry for the name |
| `Limits.PendingExactly` | internal/manager/manager.go:232-289 | a name is PENDING after a sync if and only if it was, only older entries of it were in the manifest, and no delete of its certificate failed |
| `Limits.PresentPending` | internal/manager/manager.go:232-264 | a present name is PENDING after a sync if and only if it was, and its newer state was kept with its vhost |
| `Limits.LostBackupExample` | internal/manager/manager.go:157-166 | a concrete apply answered 200 whose vhost is gone |
| `Limits.UnstoredExample` | internal/manager/manager.go:128-128 | a concrete generation answered 200 and forgotten by a restart |
| `Limits.ForgottenTombstoneExample` | internal/manager/manager.go:104-104 | a concrete removal answered 200 whose vhost an older request brings back after a restart |
| `Limits.CutOffExample` | internal/manager/manager.go:128-135 | a concrete custom name left with a challenge vhost and no certificate state, its retry answered 409 |
| `Limits.OrphanLineageExample` | internal/manager/manager.go:104-106 | a concrete removal whose lineage is left, its retry answered 409 |
| `Limits.NegativeSnapshotExample` | internal/manager/manager.go:201-203 | a concrete accepted snapshot that goes back |
| `Limits.RepeatedNameExample` | internal/manager/manager.go:226-243 | a concrete manifest whose served entry is reported as not applied |
| `Limits.PendingExample` | internal/manager/manager.go:232-243 | a concrete name a sync leaves PENDING |
| `Server.Server.Serve` | internal/server/server.go:33-80 | any number of requests: what happened is a run of `Runs`, its events those of the requests that got through, and each response the one to its request in the state and with the buckets the ones before it left; every state passed through is a point of one of its requests; of any two /status replies the later has every name of the earlier at no lower a generation; and nginx serves the directory as far as the replies tell: since the last confirmed change, whoever else reloads, if nothing was taken back since, and otherwise, if nobody else does, unless a rollback is in doubt |
| `Server.CaughtCrash` | internal/manager/manager.go:76-311 | the run up to any such state and a crash there is a legal run, so all that is said of crashes is said of the states the program passes through |
| `Server.Server.HandleApply` | internal/server/server.go:41-57 | an empty name is a bad request; a name over its rate is refused; neither touches anything else; any other request is an apply |
| `Server.Server.HandleSyncAll` | internal/server/server.go:59-71 | a source over its rate is refused and nothing is touched; any other request is a sync |
| `Server.Server.HandleStatus` | internal/server/server.go:73-79 | shows the store as it is |
| `Points.PlanNotOlder` | internal/manager/manager.go:232-243 | no planned entry is older than the stored one |
| `Points.MidTrans` | internal/manager/manager.go:76-138 | the points of the parts of a request are points of the whole |
| `Points.PutMid` | internal/manager/fsops.go:28-34 | writing a rendered vhost leads to a point |
| `Points.IssuedMid` | internal/certbot/certbot.go:103-126 | a certificate may come, one half before the other, at any time |
| `Points.DeletedMid` | internal/certbot/certbot.go:133-145 | it may go, or half go, once no vhost of its name is on disk |
| `Points.SwappingForward` | internal/manager/fsops.go:75-95 | any mixture of prior and planned files a swap passes through is safe |
| `Points.PrunedAbsent` | internal/manager/manager.go:266-289 | a name to prune has no planned file and is not present once the store is replaced |
| `Reports.ListPruned` | internal/manager/manager.go:266-273 | the prune list is the one sorted listing of the names dropped, whatever order the map is ranged in |
| `Reports.Results` | internal/manager/manager.go:302-308 | the results are one per planned name, sorted, whatever order the map is ranged in |
| `Reports.SortByName` | internal/manager/manager.go:308-308 | sorting by name any collection of the entries of a map gives the listing of its keys |
| `Reports.StatusLists` | internal/manager/manager.go:358-368 | the two lists of /status |
| `Reports.StatusShows` | internal/manager/manager.go:358-366 | of every known name the lists show whether it is present and at what generation, and its certificate state with the error if it has one; of no other name anything |
| `Reports.StatusOrder` | internal/manager/manager.go:367-368 | both are in name order, each name once |
| `Reports.StatusNeverRegresses` | internal/manager/manager.go:351-368 | a later observation has every name of an earlier one at no lower a generation |
| `Fsops.ReadFileMaybe` | internal/manager/fsops.go:15-24 | a missing file is not an error, an unreadable one is |
| `Fsops.WriteFile` | internal/manager/fsops.go:28-34 | a reader sees the old content or the new, and a failure changes no vhost |
| `Fsops.RestoreFile` | internal/manager/fsops.go:38-47 | the file is what the backup says, or nothing has changed |
| `Fsops.ReadConfDir` | internal/manager/fsops.go:54-71 | every vhost file and nothing else, or an error |
| `Fsops.WriteConfDir` | internal/manager/fsops.go:75-95 | on success the vhosts are exactly the desired ones; on failure, and at every moment, each is the prior one or the desired one; the proof file is not written |
| `Fsops.RemoveOthers` | internal/manager/fsops.go:82-94 | the second half: every vhost not desired is removed |
| `Fsops.RestoreConfDir` | internal/manager/fsops.go:101-107 | on success the vhosts are exactly the prior ones |
| `Nginx.ReceiptIdentifies` | internal/nginx/proof.go:85-102 | one receipt vouches for one set of vhosts, byte for byte |
| `Nginx.Exec.CheckProofOwner` | internal/nginx/proof.go:54-74 | the reserved file is missing or a receipt |
| `Nginx.Exec.HashDir` | internal/nginx/proof.go:81-96 | the loop over the listing hashes exactly the stream of the directory's vhosts |
| `Nginx.Exec.PrepareProof` | internal/nginx/proof.go:76-127 | installs a receipt for exactly what is on disk, under a nonce nginx cannot be running yet; any failure leaves nothing to reload by; a reserved file that is not the agent's is never overwritten |
| `Nginx.Exec.Test` | internal/nginx/nginx.go:59-70 | success means nginx -t accepted the directory with a fresh receipt in it |
| `Nginx.Exec.WaitForProof` | internal/nginx/proof.go:129-161 | called only after a reload was signalled; success means nginx runs the expected receipt, failure that the time was up with every question for that receipt unanswered |
| `Nginx.Exec.Poll` | internal/nginx/proof.go:142-155 | one question: answered with the expected receipt, which nginx then runs, or the installed receipt was asked for in vain |
| `Nginx.Exec.Reload` | internal/nginx/nginx.go:73-82 | in verified mode refused, and nginx not asked, without the receipt of a passed test; otherwise exactly one reload is asked for, and success means it was signalled for the directory on disk and, in verified mode, that nginx runs that |
| `Nginx.StreamOfListing` | internal/nginx/proof.go:81-96 | filtering the listing of the whole directory hashes the stream of the vhosts alone |
| `Receipt.DecodeEncode` | internal/nginx/proof.go:85-96 | the stream `name NUL length NUL bytes` decodes to the list of files it was made from, whatever the bytes |
| `Receipt.DecimalRoundTrip` | internal/nginx/proof.go:94-94 | the decimal length reads back |
| `Receipt.StreamExample` | internal/nginx/proof.go:94-95 | a concrete stream of two files |
| `Receipt.DecimalTen` | internal/nginx/proof.go:94-94 | and is decimal |
| `Receipt.DirStreamInjective` | internal/nginx/proof.go:85-96 | equal streams mean equal directories |
| `State.Store.Load` | internal/state/state.go:43-61 | the store is what the state file holds, empty without one; a file that cannot be read or parsed is an error and changes nothing |
| `State.Store.Record` | internal/state/state.go:88-93 | one entry changes, in memory at once and in the file if it could be written; the file is never anything but an old or the new store |
| `State.Store.SetCert` | internal/state/state.go:96-105 | only certificate fields change; an unknown name gets the zero entry |
| `State.Store.ReplaceAll` | internal/state/state.go:111-126 | the new entries, a tombstone at the old generation for every dropped name, and the new snapshot generation |
| `State.Store.Merge` | internal/state/state.go:114-122 | the two map loops compute that set |
| `Certbot.Provider.Ensure` | internal/certbot/certbot.go:103-126 | without an error the certificate exists; one that exists is left alone; in between at most the certificate and its lineage have come |
| `Certbot.Provider.Delete` | internal/certbot/certbot.go:133-145 | without an error no lineage is left; idempotent; an interrupted one may leave either half, and one that succeeds passes through such a state too |
| `Host.World.Elapse` | scripts/deploy.sh:69-77 | nginx loads the directory at any moment after a signal, its own or the renewal hook's, or refuses it |
| `Host.World.Signal` | internal/nginx/nginx.go:77-80 | counts the reload asked for, and what the directory was if it was signalled; a failed one may still have been |
| `Host.World.Pause` | internal/nginx/proof.go:156-160 | only who has had a reload signalled since the receipt was installed, and has asked for that receipt in vain, may wait; the time being up is a failure of the outside |
| `Host.World.Ask` | internal/nginx/proof.go:142-155 | the proof socket is answered from the configuration nginx runs, if at all |
| `Host.World.SaveState` | internal/state/state.go:139-157 | written aside and renamed: the file is the new store or the old one |
| `Hostnames.ValidFqdn` | internal/render/render.go:456-476 | the label loop accepts exactly `Hostname` |
| `Hostnames.HostnameGrammar` | internal/render/render.go:454-476 | which is exactly the letter-digit-hyphen grammar of section 2.1 of RFC 1123, dotted, up to 253 characters |
| `Hostnames.LetDigCodes` | internal/render/render.go:464-467 | letters and digits are those of ASCII |
| `Hostnames.ConfMeans` | internal/manager/fsops.go:49-51 | a file is included if and only if its name ends in .conf |
| `Hostnames.FileNames` | internal/render/render.go:262-263 | a file name determines its vhost, and is a route name unless it is the reserved one |
| `Hostnames.StemFileName` | internal/manager/manager.go:270-270 | trimming the suffix of a route name gives the name it is the file of |
| `Hostnames.ReservedNames` | internal/nginx/proof.go:20-22 | no hostname's file is the proof file or a temporary file, and neither of these is a route |
| `Hostnames.JoinSplit` | internal/render/render.go:460-460 | splitting at dots loses nothing |
| `Hostnames.SplitJoin` | internal/render/render.go:460-460 | and is the only way to read a name as labels |
| `Render.RenderCarries` | internal/render/render.go:304-363 | a render carries the route's name, generation, target and rules; with the pair configured for its root for a platform name, HTTPS with the live pair of its own name exactly for a custom name whose certificate is ready, and the challenge exactly for one whose is not |
| `Render.CertPathsMean` | internal/render/render.go:281-296 | the certificate pair of every route: that configured for the root after `wildcard:`, or fullchain.pem and privkey.pem under the name in the live directory for the one other certRef known; anything else is refused |
| `Render.RenderRefused` | internal/render/render.go:308-319 | a present route is not rendered exactly if it is invalid, with that error, or the listeners are |
| `Render.ValidMeans` | internal/render/render.go:424-452 | valid means a hostname and either a removal or a target in the network at a port from 1 to 65535, by default in 172.29.0.0/16; each error says which part fails |
| `Render.GuestNetwork` | internal/render/render.go:406-406 | the default network is the interval 172.29.0.0 to 172.29.255.255, also in IPv6 spelling |
| `Render.UnmapMeans` | internal/render/render.go:445-445 | an address in ::ffff:0:0/96 is taken for its last 32 bits |
| `Render.RenderedAccess` | internal/render/render.go:308-329 | the backend of a render admits exactly the sources its policy lists |
| `Render.TargetConfined` | internal/render/render.go:424-452 | a rendered target is inside the guest network |
| `SourcePolicy.Parse` | internal/sourcepolicy/policy.go:21-49 | no list, the first fault, or the sorted set of the prefixes: accepted if and only if at most 128, canonical and distinct |
| `SourcePolicy.OrderFree` | internal/sourcepolicy/policy.go:42-47 | a permutation of an accepted list is accepted and gives the same policy |
| `SourcePolicy.PrintParse` | internal/sourcepolicy/optional.go:63-75 | printing a policy and parsing it again gives the policy |
| `SourcePolicy.CanonicalInterval` | internal/sourcepolicy/policy.go:31-32 | a canonical prefix of n bits is the interval of 2 to the 128 - n or 32 - n addresses from its own (section 3.1 of RFC 4632) |
| `SourcePolicy.ContainsBits` | internal/render/source_policy.go:18-22 | a prefix contains the addresses of its family, of 128 or 32 bits, that agree with it in its first bits |
| `SourcePolicy.MaskedBits` | internal/sourcepolicy/policy.go:32-32 | masking keeps the first bits and clears all others |
| `SourcePolicy.CanonicalBits` | internal/sourcepolicy/policy.go:31-34 | canonical means no mapped IPv4 address and no bit set after the first ones |
| `SourcePolicy.LeadingBits` | internal/sourcepolicy/policy.go:31-32 | two numbers have the same quotient by a power of two if and only if they agree in the bits before it |
| `SourcePolicy.AcceptedMeans` | internal/sourcepolicy/policy.go:21-41 | a list is accepted if and only if it has at most 128 entries, each printed canonically, all different |
| `SourcePolicy.PolicyOrder` | internal/sourcepolicy/policy.go:42-47 | the policy holds exactly the listed prefixes, each once, IPv4 first, by address, then by length |
| `SourcePolicy.Optional.FromCIDRs` | internal/sourcepolicy/optional.go:18-22 | no list omits the policy, an empty one does not; a refused one leaves none and reports the fault of `Parse` |
| `SourcePolicy.Optional.UnmarshalJSON` | internal/sourcepolicy/optional.go:31-61 | accepts exactly an object with one `allowedCidrs` array that parses; anything else leaves the value alone; a list that does not parse gives the fault of `Parse` |
| `SourcePolicy.Optional.MarshalJSON` | internal/sourcepolicy/optional.go:63-75 | null for an omitted policy, an array, possibly empty, for an explicit one |
| `SourcePolicy.JsonRoundTrip` | internal/sourcepolicy/optional.go:31-75 | what is marshalled is unmarshalled to the same policy, as an object with the one field `allowedCidrs`; an omitted policy as null |
| `SourcePolicy.SourcePolicyDirectives` | internal/render/source_policy.go:13-25 | the loop emits an allow per prefix and a final deny, or nothing without a policy |
| `SourcePolicy.RulesMeanUnion` | internal/render/source_policy.go:13-25 | under first match the rules admit exactly the union of the prefixes, nobody for the empty list |
| `RateLimit.Limiter.NewLimiter` | internal/server/ratelimit.go:24-36 | no bucket yet, the rate of the setting |
| `RateLimit.PositiveLimits` | internal/server/ratelimit.go:24-29 | a positive setting gives a positive rate and a burst of at least one |
| `RateLimit.Bucket.Spend` | internal/server/ratelimit.go:51-60 | the bucket object steps as `Take`: refill, cap, spend |
| `RateLimit.Limiter.Allow` | internal/server/ratelimit.go:39-61 | one key steps, all others are untouched |
| `RateLimit.Conservation` | internal/server/ratelimit.go:51-60 | what a run of calls hands out was in the bucket or refilled |
| `RateLimit.WindowBound` | internal/server/ratelimit.go:39-61 | in every window of every run on a key at most burst plus perSec times the elapsed time are allowed |
| `RateLimit.SpacedCallGranted` | internal/server/ratelimit.go:51-60 | a call at least 1/perSec after the previous one is never refused |
| `RateLimit.BurstAttained` | internal/server/ratelimit.go:51-60 | a full burst at one instant is granted |
| `RateLimit.KeysIndependent` | internal/server/ratelimit.go:46-50 | the verdicts on a key are those of its own calls alone |
| `RateLimit.InterleavedBound` | internal/server/ratelimit.go:39-61 | so in any interleaving, of any contiguous run of calls on a key at most burst plus perSec times the elapsed time are granted |
| `RateLimit.InterleavedSpaced` | internal/server/ratelimit.go:39-61 | in any interleaving a call at least 1/perSec after the previous one on its key is never refused, nor is the first |
| `RateLimit.RefusedExactly` | internal/server/ratelimit.go:24-61 | in any interleaving a call is refused if and only if of the calls on its key, from some one of them up to it, more were granted than the setting less one and a sixtieth of it for each second since |
| `RateLimit.FirstCallsGranted` | internal/server/ratelimit.go:46-60 | as many first calls on a key as the setting says are granted, however close together |
| `RateLimit.WorstWindow` | internal/server/ratelimit.go:51-60 | the tokens at a call are the least that any stretch of calls up to it leaves of a full burst |
| `RateLimit.ZeroDisables` | internal/server/ratelimit.go:40-42 | a setting of zero or less allows everything |
| `Sorting.SortPermutation` | internal/sourcepolicy/policy.go:42-47 | a sort under a total order forgets the order of its input |
| `Sorting.SortIsListing` | internal/manager/manager.go:273-273 | sorting the names of a set, collected in any order, gives its one listing |
| `Sorting.StrLeqMeans` | internal/manager/manager.go:273-273 | strings are ordered by their first difference, a prefix first |

## Left out

- Clock values (AppliedAt, CertAt, event and start times) and the message texts of replies
  and events, which are modelled by their kind.
- The HTTP transport, authentication, body limits, JSON tokenising and environment
  configuration: the handlers start from a decoded request.
- Requests served at the same time: the mutation lock is taken as given, and of a /status in
  the middle of a mutation only what `history` shows is stated.
- Template text: a vhost is a structured value, and its bytes a stand-in. Metadata
  listeners, the ingress marker, PROXY protocol and site limits are a single
  accepted-or-refused flag (`validateMetadata`, `ValidateIngressMarker`).
- Text forms of IP addresses and prefixes: an address is a family and a number, a prefix
  also a length, and the canonical spelling a flag of the input.
- Subprocesses, timeouts, contexts and logs: each call is an outcome, and the time there is
  to wait for the receipt an arbitrary number of pauses.
- File modes, ownership, directories and symbolic links in the include directory, and the
  checks of `NewVerified` at start; a failing
  `stat` in `Exists` and `LineageExists`, which the code reads as "missing".
- What becomes of temporary files: nothing reads them, and the code does not look whether
  removing one worked.
- The empty state path of tests, under which nothing is written.
- The HTTPS listener's own certificates, and nginx semantics beyond the hypotheses above.
- Manager.Manager.TestAndReload: without a proof directory success only means that the test
  passed and the signal was sent, as in the code; nothing is claimed about what runs.
- RateLimit.Limiter.Allow: tokens and times are real numbers; floating-point rounding is not
  modelled.
