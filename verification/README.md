# gcx configuration and credentials

This project models the parts of gcx that keep a user's credentials and
configuration consistent, and proves what they promise.

- **Writing the configuration** (`Credentials`, `Persistence`, `Keychain`,
  `WriteConfig`, `StoreFaults`, `SecretLoad`, `WriteOutcome`, `WriteClone`). One write spans a YAML
  file replaced by rename and an OS keychain. The model lets every keychain and file
  operation fail, and lets the process die after any of them with either file image
  on disk. `World.trace` records each such state; the main theorem speaks about all
  of them. `WriteClone` proves on the object graph that the caller's configuration
  is not touched.
- **Refreshing the rotating token** (`TokenStates`, `RefreshTransport`,
  `SingleFlight`, `TokenFile`). The transport is modelled three times: as a class
  with a ledger of what it presented, as a transition system over all goroutine
  interleavings, and as processes that share one file under a lock. Replacement of
  refresh tokens is section 6 of RFC 6749.
- **Legacy migration and layering** (`ConfigTypes`, `LayerMerge`, `Migration`,
  `Minting`, `Conversion`, `LegacyMigration`, `SelfCheck`, `MigratedViews`,
  `LegacyLayers`, `LegacyPreflight`). Conversion preserves the meaning of each context, and
  commutes with layering, exactly under conditions on the minted entry names.
- **Cloud entries** (`Scopes`, `Numerals`, `CloudEntries`). Copy-on-write
  allocation, its isolation and the termination of its name searches.
- **Process overrides** (`ObjectGraph`, `EnvOverlay`, `RuntimeBindings`). Environment
  values stay inside the selected context, and loaded secrets do not follow a
  changed destination.
- **Smaller proofs**: lost updates (`LostUpdate`), reference encoding (`NulText`,
  `Base64`, `References`), log redaction (`Redaction`), editing by path (`Editor`).

Assumptions about the surroundings:

- A keychain read answers "not found" only for an absent account, and a successful
  read or delete tells the truth. A Set, and a Delete that fails, may have had any
  effect on their account, whatever they report. The program reads a fresh account
  back, but neither a restored one nor one whose Set was refused; `StoreFaults` gives
  the runs it cannot notice. What they cost is stated account by account and exactly:
  a restore that was lost by `Undamaged` (`WriteConfig.RestoredExactly`,
  `WriteConfig.ImageKeptExactly`), a refused Set that happened by `StoredAllTheSame`
  (`WriteConfig.WrittenExactly`).
- Rename is atomic. Before the directory barrier succeeds a crash may expose the
  old or the new file.
- Accounts name their binding and generation outright. `References` justifies this
  for the textual form, for a digest without collisions and NUL-free components.
- Revision hashes are injective. URL normalisation, entry naming by host and slug
  extraction are arbitrary functions (an entry name is never empty).
- Clocks, network answers, lock and file outcomes are arbitrary. `steady` in
  `WriteConfig` says that the random source and the preparation of files do not fail;
  `Smooth` says the same of the store and the disk.

Where the code and its documentation disagree, the model follows the code:

- Minted cloud names can collide, although each layer has its own suffix and a
  second candidate is tried. `Minting.CollisionExists` and `Minting.SuffixesCollide`
  give names, `Conversion.CollisionLosesAContext` and `LegacyLayers.SuffixesDoNotHelp`
  files, `Minting.FaithfulExactly` and `LegacyLayers.LayeringCommutes` the exact
  conditions on the names.
- A legacy context with an empty name cannot bind its stack; such a file is
  rejected by the self-check (`Conversion.UnnamedIsLost`, `SelfCheck.UnnamedIsRejected`).
- A new cloud entry can inherit a reference owned by another name
  (`CloudEntries.InheritsReference`, `CloudEntries.ReferenceIsInherited`).
- Text attached to a one-letter flag is logged when an equals sign follows it
  (`Redaction.TextBeforeEqualsShows`, `Redaction.SecretShows`).
- After a failed keychain cleanup the old file is put back because every restore was
  acknowledged; a restore that was lost all the same leaves it with a dead reference
  (`StoreFaults.LostRestore`, `WriteConfig.ImageKeptExactly`).

## Model

| member | source | states |
|---|---|---|
| `WriteConfig.WriteConfig` | internal/config/loader.go:708-868 | One write over both stores: a crash at any step exposes the old, the stale or the new document, and it loses a credential exactly when an old one is exposed and the store lost an acknowledged restore of an account which that document resolves; each error stands for one stated outcome; plaintext stays only for a stated cause; only the document the configuration came from is replaced; a field that cannot be written makes it fail before any store access; a configuration without secrets never opens the keychain; a write that meets no fault succeeds, unless four generations in a row are taken |
| `WriteConfig.InstallAndCommit` | internal/config/loader.go:833-868 | After the install attempt: unchanged old file with staged accounts withdrawn, or the new file with all staged accounts, or the old file back with each old entry intact exactly when its acknowledged restores were kept; nothing but old entries, staged ones and recorded strays is ever left |
| `WriteConfig.CommitOrRevert` | internal/config/loader.go:849-866 | A failed cleanup either keeps the new file and all its accounts, or puts the old file back with each old entry intact exactly when the store kept the restores of it that it acknowledged |
| `WriteConfig.RestoreContents` | internal/config/loader.go:870-896 | At each step of putting the old bytes back a crash costs the old document exactly the restores that the store lost, and the new one nothing; a failure leaves one of the two documents |
| `WriteConfig.ValidateSnapshot` | internal/config/loader.go:929-981 | A write proceeds only over the document that was loaded, with every recorded reference still in it |
| `WriteConfig.DoomedIsUnreferenced` | internal/config/keychain.go:1555-1672 | No deferred delete names an account the new file can resolve |
| `WriteConfig.NewImageSurvives` | internal/config/keychain.go:1498-1546 | Deleting any subset of the doomed accounts costs the new file no credential, so old references kept verbatim also survive |
| `WriteConfig.NewKeepsOld` | internal/config/keychain.go:1593-1672 | A reference carried into the new file resolves to the value it had before |
| `WriteConfig.PlanIsSound` | internal/config/keychain.go:1555-1672 | Reconciliation gives every field exactly its intended disk text, stages exactly the fields that need an account and dooms exactly the accounts that lost their last reference |
| `WriteConfig.WrittenExactly` | internal/config/keychain.go:1593-1672 | After a complete write the keychain is the old one minus the doomed accounts plus the staged ones exactly when every account that a refused store kept all the same was doomed too |
| `WriteConfig.RestoredExactly` | internal/config/keychain.go:1502-1518 | A commit reported as rolled back leaves each old entry what it was exactly when the store kept the restores of that entry which it acknowledged |
| `WriteConfig.ImageKeptExactly` | internal/config/loader.go:849-866 | An old document loses a credential exactly when the store lost a restore of an account that this document resolves, whatever else was lost |
| `WriteConfig.WriteFileOnly` | internal/config/loader.go:773-795 | A configuration without secrets, states and mutations is written by file events alone, with the same outcomes |
| `StoreFaults.LostRestore` | internal/config/keychain.go:1502-1518 | For every write: a lawful run in which a commit reports a complete rollback, the old file is put back and a credential it resolved is gone |
| `StoreFaults.RefusedButStored` | internal/config/keychain.go:1364-1375 | A lawful run in which a refused store leaves an account that no record withdraws |
| `WriteOutcome.RemovedExactly` | internal/config/keychain.go:1595-1670 | After a successful write the account recorded for a field as Backed, Unresolved or Preserved is gone when the field left the configuration, was cleared or was given a fresh account; every other account that was there stays, in particular those of missing and rejected references |
| `WriteOutcome.AbandonedFields` | internal/config/keychain.go:1595-1670 | The same, field by field |
| `WriteOutcome.DiskTextExactly` | internal/config/keychain.go:1606-1670 | An untouched field is written as the reference it was loaded from; a touched one as a reference to a fresh account of its own binding, or as the text in memory |
| `WriteOutcome.PlaintextHasACause` | internal/config/keychain.go:1348-1424 | A field stays in plaintext only when its own account found no keychain or lost what was acknowledged and was cleaned up; with a reference, only when the keychain is disabled; a locked keychain is never a reason |
| `WriteOutcome.ReturnedMeans` | internal/config/keychain.go:926-996 | After a write and a load, in terms of what loading recorded and the user did: touched secrets are back, cleared fields empty, references verbatim, untouched Backed values back |
| `Keychain.Reconcile` | internal/config/keychain.go:1555-1672 | An unwritable field stops the write before any store access; any other refusal undoes memory and withdraws the staged accounts; success leaves every field visited |
| `Keychain.View.RefusesExactly` | internal/config/keychain.go:1572-1586 | A field stops the write exactly when its binding is incomplete, an untouched Backed, Unresolved or Preserved credential changed its destination, or its reference is somebody else's |
| `Keychain.Transaction.StageBoundSet` | internal/config/keychain.go:1348-1424 | A new value goes to a fresh account and is read back; it is declined only for an unreachable keychain or a verified clean loss, and fails for a locked or unknown error; a refused store that happened all the same is a recorded stray of the model and unrecorded in the program |
| `Keychain.Transaction.StoreAndVerify` | internal/config/keychain.go:1364-1409 | The stored account is kept only when the read-back returns the value |
| `Keychain.Transaction.Rollback` | internal/config/keychain.go:1455-1470 | Every staged account is withdrawn, up to deletes that reported an error, and nothing else moves |
| `Keychain.Transaction.Commit` | internal/config/keychain.go:1498-1546 | Deletes in order up to the first failure, then restores, newest first; success deletes all doomed accounts; after a reported complete rollback each account is what it was exactly when the store kept what it acknowledged |
| `Keychain.Transaction.PutBack` | internal/config/keychain.go:1502-1518 | The captured accounts are asked back newest first and in full; nothing is read back |
| `SecretLoad.ResolveSentinels` | internal/config/keychain.go:926-996 | A field gets a value only for a reference bound to itself whose account exists; faults never yield a value, and only a fault withholds one; other fields keep theirs |
| `SecretLoad.Load` | internal/config/loader.go:585-601 | What loading records about each field is what a later write relies on |
| `SecretLoad.WriteThenLoad` | internal/config/keychain.go:926-996 | A successful write followed by a load: new secrets and secrets read and not touched are back, every reference is on disk verbatim and reads what it read; only a failing read withholds a value, so nothing is withheld where no fault occurs |
| `SecretLoad.WrittenKeepsNew` | internal/config/keychain.go:1593-1672 | A complete write leaves every intended value in place, whatever strays there are |
| `WriteClone.WorkOnCopy` | internal/config/loader.go:709-712 | Source binding, wiring and swaps change nothing that existed before, so nothing reachable from the caller's configuration; the copy ends with the caller's secrets |
| `WriteClone.CloneConfigForWrite` | internal/config/loader.go:987-1041 | New objects throughout with the values of the original, a tree even where the original shares |
| `WriteClone.Config.PrepareSource` | internal/config/keychain.go:1182-1236 | All entries are bound to the target file and their recorded mutations re-keyed to it, or none because one of another file carries a credential |
| `WriteClone.MovesExactly` | internal/config/keychain.go:1189-1248 | An entry of another file moves exactly when it holds no secret text and nothing was recorded for it |
| `WriteClone.Config.SetText` | internal/config/keychain.go:835-913 | One secret changes and every other keeps its text |
| `RefreshTransport.RefreshTransport.MaybeRefresh` | internal/auth/transport.go:174-227 | Success exposes a usable token with nothing pending or blocked, without an event exactly when the token in memory lasts more than five minutes; what is presented has not run out; a blocked transport does nothing; a pending generation is only persisted; one call presents at most one refresh token, the stored one when there is one, and gets to the first obstacle, an adoption, or a network call whose good answer is in memory at the end |
| `TokenStates.EntersExactly` | internal/auth/transport.go:174-199 | A call returns at once exactly with a token that lasts more than five minutes, and flies only with a refresh token that has not run out |
| `TokenStates.AdoptsExactly` | internal/auth/transport.go:145-172 | Stored tokens end a refresh exactly when they differ and last more than five minutes |
| `TokenStates.AppliesExactly` | internal/auth/transport.go:292-363 | What each kind of 200 answer leaves in memory: both tokens, the refresh token alone, or a blocked transport without tokens |
| `RefreshTransport.RefreshTransport.RefreshAndPersist` | internal/auth/transport.go:229-363 | The same for the locked part, including lock failure leaving everything untouched |
| `RefreshTransport.RefreshTransport.AdoptFreshStoredTokens` | internal/auth/transport.go:151-172 | Stored tokens replace those in memory exactly when they differ, and end the refresh exactly when they are fresh |
| `RefreshTransport.RefreshTransport.RefreshOverNetwork` | internal/auth/transport.go:292-363 | One presentation; a 200 answer is never dropped: it is applied, persisted or kept pending, or it blocks the transport |
| `RefreshTransport.RefreshTransport.PersistPendingRefresh` | internal/auth/transport.go:415-455 | Durable, superseded or still pending, with the exact state of each |
| `TokenStates.PresentedTwiceWasSupplied` | internal/auth/transport.go:229-373 | Between a 200 answer for a refresh token and its next presentation, the server or a reload supplied it |
| `SingleFlight.EveryRunIsSafe` | internal/auth/transport.go:174-227 | Over every schedule: at most one leader, `inflight` names its flight and is unset exactly when nobody leads, at most one network refresh per flight, and token discipline |
| `SingleFlight.NoTokenPresentedTwice` | internal/auth/transport.go:229-373 | In every interleaving a token answered 200 is presented again only after it was supplied again |
| `SingleFlight.SuccessIsUsable` | internal/auth/transport.go:174-227 | At the step in which a call succeeds, a token is there, nothing is pending and nothing is blocked; when it succeeds at once the token lasts more than five minutes |
| `SingleFlight.NoFlightForAFreshToken` | internal/auth/transport.go:174-199 | In every interleaving a call succeeds at once exactly with a token that lasts, and an adoption that ends a flight puts such a token in place |
| `SingleFlight.LeadersReadTheStore` | internal/auth/transport.go:145-172 | Under the lock a leader takes over stored tokens that differ from memory, and they end its flight exactly when they last more than five minutes |
| `SingleFlight.OnlyLiveTokensFly` | internal/auth/transport.go:276-290 | A leader calls the network exactly with a refresh token that is there and has not run out, and otherwise fails with the reason |
| `SingleFlight.UndisturbedCallSucceeds` | internal/auth/transport.go:174-363 | A call that nobody disturbs presents the refresh token once, persists what the server gives and returns success with it in place |
| `SingleFlight.WaitersShareTheResult` | internal/auth/transport.go:196-227 | A waiter that is not cancelled returns exactly what its leader returned |
| `SingleFlight.FlightErrorIsFixed` | internal/auth/transport.go:196-227 | The error of a finished flight never changes, so late waiters read the same one |
| `SingleFlight.BlockedIsFinal` | internal/auth/transport.go:365-373 | After a block no schedule changes a token or reaches the network |
| `SingleFlight.PendingIsOnlyPersisted` | internal/auth/transport.go:239-260 | A pending generation is never refreshed over; it ends only by being persisted or superseded |
| `SingleFlight.LeaderMovesOn` | internal/auth/transport.go:196-227 | Each step of a leader brings it closer to finishing, and unfinished waiters wait on its flight |
| `TokenFile.PersistReplacesItsOwnGeneration` | internal/config/rest.go:140-242 | Across processes and logins the file moves only by a login or by the exchange for exactly the generation in the file, and never backwards |
| `TokenFile.SupersededDebtIsDropped` | internal/config/rest.go:170-242 | A rotated generation is dropped exactly when it is in the file already or a newer one is |
| `TokenFile.RunKeepsInv` | internal/config/rest.go:140-242 | Lock ownership, issue order and accounting of used-up tokens hold over every run |
| `TokenFile.LossNeedsACause` | internal/auth/transport.go:239-304 | Nothing is ever lost in a run exactly when no step of it is a failed persist of a due exchange, an unusable 200 answer or the crash of a process that owes one |
| `TokenFile.AnsweredTwiceWasLost` | internal/auth/transport.go:151-172 | A generation answered 200 twice is one whose exchange was lost, and some step of the run lost one |
| `TokenFile.UndisturbedRefreshSucceeds` | internal/auth/transport.go:229-363 | A refresh that nobody disturbs puts the next generation in the file, frees the lock and owes nothing |
| `CloudEntries.Config.EnsureCloudEntryWithSafety` | internal/config/cloud_login.go:70-85 | The returned name holds the desired tuple, nothing else moved, a different tuple is only replaced in place when unshared, reserved names are respected |
| `CloudEntries.Config.EnsureUnboundCloudEntry` | internal/config/cloud_login.go:87-113 | The same for a context without an entry, which never takes a foreign host name |
| `CloudEntries.Config.EnsureBoundCloudEntry` | internal/config/cloud_login.go:115-146 | The same for a bound context: in place exactly when unshared and solely referenced, else copied |
| `CloudEntries.EnsuredIsIsolated` | internal/config/cloud_login.go:45-50 | Every other context with an entry keeps its resolved credential and destination tuple |
| `CloudEntries.EnsuredHolds` | internal/config/cloud_login.go:20-43 | The name handed back holds every URL and the credential that came in, one kind of credential only when there was an entry before, and the prior entry's values for the rest; no other entry changes |
| `CloudEntries.ResolvesOwnOnly` | internal/config/cloud_login.go:185-197 | A context sees a value for a reference only when it was made for that entry, that field and those URLs |
| `CloudEntries.SameTupleMeans` | internal/config/cloud_login.go:185-197 | Equal tuples are equal resolved credentials, equal scope sets and equal URLs |
| `CloudEntries.SecondCallChangesNothing` | internal/config/cloud_login.go:70-146 | The same one-credential request again, from the context now bound to the first answer: same name, and no context sees a difference |
| `CloudEntries.ReferenceIsInherited` | internal/config/cloud_login.go:76-79 | Such a run: the new entry holds the host entry's reference, which does not match its own binding |
| `CloudEntries.InheritsReference` | internal/config/cloud_login.go:76-79 | Exactly when an unbound context is given a new stored entry with a reference of another name: it brings no credential to a host whose entry is unresolved |
| `CloudEntries.Config.AvailableCloudEntryName` | internal/config/cloud_login.go:148-162 | The search ends within one try more than there are names in the way, with the first acceptable candidate |
| `Numerals.CandidatesDiffer` | internal/config/cloud_login.go:149-153 | The candidates base, base-2, base-3, ... are pairwise distinct |
| `Scopes.BeforeExactly` | internal/config/cloud_login.go:199-206 | The order of canonical lists is that of bytes |
| `Scopes.CanonicalComparesSets` | internal/config/cloud_login.go:199-206 | Canonical scope lists are equal exactly when they grant the same scopes |
| `LayerMerge.MergeConfigs` | internal/config/merge.go:10-85 | The layered merge equals its specification field by field |
| `LayerMerge.MergeIsAssociative` | internal/config/merge.go:10-135 | Grouping of layers does not matter for any persisted field |
| `LayerMerge.WinnersAreWhole` | internal/config/merge.go:26-46 | A merged entry exists exactly when some layer defines it, and is the highest such layer's entry, whole |
| `LayerMerge.HighestLayerDecides` | internal/config/merge.go:10-135 | A context's stack, cloud entry and each datasource, the current context, the dry-run list and the log settings come from the highest layer that states them |
| `LayerMerge.AnyLayerSuffices` | internal/config/merge.go:10-135 | A context or a block is there when some layer has it, invocations are logged when some layer says so, and the version is the newest |
| `LayerMerge.MixedLayersHaveNoRevision` | internal/config/keychain.go:1713-1725 | A config merged from several files has no revision to be written back under; merged from one file it has the latest |
| `LayerMerge.RuntimeIsTheWinners` | internal/config/keychain.go:1726-1748 | The remembered state, mutation and origin of a credential are exactly those of the layer whose entry won |
| `LegacyMigration.ConvertLegacyConfig` | internal/config/migrate.go:285-333 | The conversion loop equals its specification, over the sorted context names |
| `MigratedViews.PreservedMeans` | internal/config/migrate.go:285-485 | In a document that preserves a legacy file each context reaches, field by field, the connection, provider rows, cloud tuple, datasources, slug and dry-run items the file gives it, each secret in its own field |
| `MigratedViews.ConvertedMeans` | internal/config/migrate.go:285-365 | A named context of a conversion keeps its connection, providers, datasources, slug and resources field by field |
| `MigratedViews.AcceptedMeans` | internal/config/migrate.go:492-593 | Whatever the check accepts reaches, field by field, what the legacy file gives each context, cloud endpoints up to normalisation |
| `MigratedViews.LegacyGrafanaExactly` | internal/config/migrate.go:338-358 | A connection is the converted one exactly when every plain field is equal and each secret is the one resolved for its own field, or its own text |
| `MigratedViews.LegacyProvidersExactly` | internal/config/migrate.go:359-363 | Provider rows are the converted ones exactly when all are equal but the synthetic-monitoring token, which is the secret of that field |
| `MigratedViews.LegacyTargetExactly` | internal/config/migrate.go:424-447 | The cloud tuple: token, then the API URL from its own, the OAuth URL, the stack's cloud or the public one, and the OAuth URL from its own or the API URL |
| `MigratedViews.LegacyDatasourcesExactly` | internal/config/migrate.go:467-485 | Datasource defaults are the legacy ones exactly when each kind has its per-kind entry or else its own flat field |
| `MigratedViews.LookUps` | internal/config/types.go:268-292 | What a context reaches through its references: the bound stack's connection, providers, slug and dry-run items, and the bound cloud entry |
| `Migration.FoldingKeepsAnswers` | internal/config/migrate.go:609-624 | For every kind the folded map answers what the legacy lookup answered |
| `Minting.FaithfulExactly` | internal/config/migrate.go:443-461 | Every context finds its own tuple exactly when, going by host and context names alone, no context's second candidate is taken, and no two tuples share a key |
| `Minting.ClobberedExactly` | internal/config/migrate.go:448-451 | An entry is replaced exactly when the names of the input say so |
| `Minting.BroughtExactly` | internal/config/migrate.go:448-461 | When nothing is replaced or confused, the minted entries are the ones the first bearers bring under the names the input gives them |
| `Minting.FoundExactly` | internal/config/migrate.go:443-461 | What each context finds after any minting, replaced entries included: under the name of its own API host, with suffix and perhaps its first bearer's name, the entry that bearer brought, with the tuple of the last context that brought an entry under that name |
| `Minting.NulFreeIsDistinguished` | internal/config/migrate.go:443-443 | Tuples without NUL characters never share a key |
| `Minting.NamesApartIsSafe` | internal/config/migrate.go:448-451 | A check on context and host names alone that rules replacement out |
| `Minting.CollisionExists` | internal/config/migrate.go:448-460 | Three contexts of which the third takes the entry of the first |
| `Minting.SuffixesCollide` | internal/config/migrate.go:264-276 | Two layers whose minted names coincide in spite of the layer suffix |
| `Conversion.ConversionPreserves` | internal/config/migrate.go:285-485 | All views of all contexts are preserved exactly when no second candidate is taken, no two tuples are confused and no unnamed context needs a stack |
| `Conversion.CollisionLosesAContext` | internal/config/migrate.go:448-460 | A legacy file for which conversion does not preserve the views |
| `Conversion.UnnamedIsLost` | internal/config/migrate.go:317-325 | A legacy file with an unnamed context for which conversion does not preserve the views |
| `SelfCheck.CollisionIsRejected` | internal/config/migrate.go:492-593 | The check rejects the colliding file |
| `SelfCheck.UnnamedIsRejected` | internal/config/migrate.go:492-555 | The check rejects the unnamed context |
| `SelfCheck.VerifyLegacyMigration` | internal/config/migrate.go:492-555 | For any config: no complaint exactly when every checked view agrees, and a complaint names a view that differs |
| `SelfCheck.SelfCheckOnConversion` | internal/config/migrate.go:492-593 | On the input alone: a conversion is accepted exactly when nothing needs an unnamed stack and, for each context, the last to bring an entry under the name its tuple goes by has that tuple up to URL normalisation |
| `SelfCheck.PreservedIsAccepted` | internal/config/migrate.go:487-491 | Whatever preserves all views is accepted |
| `LegacyLayers.CompareMigratedEffectiveViews` | internal/config/migrate_preflight.go:593-627 | Accepts exactly when every context has the same view |
| `LegacyLayers.EffectivelyEqualMeans` | internal/config/migrate_preflight.go:593-641 | Documents are effectively equal exactly when each context reaches equal connections, providers, datasources, dry-run items, slugs and cloud entries up to their file |
| `LegacyLayers.HighestLegacyLayerDecides` | internal/config/migrate_preflight.go:437-591 | Where layers share a context, each connection, cloud, provider, datasource and dry-run field of the merged context is that of the highest layer that sets it |
| `LegacyLayers.LowestLayerKeepsTempo` | internal/config/migrate_preflight.go:465-532 | The Tempo default alone stays that of the lowest layer that has the context |
| `LegacyLayers.ContextsPassThrough` | internal/config/migrate_preflight.go:437-463 | With no context in two layers, each merge hands every context through whole |
| `LegacyLayers.LayeringCommutes` | internal/config/migrate_preflight.go:333-362 | For clean layers without a common context, convert-then-merge and merge-then-convert give the same views exactly when no name that contexts of two layers go by stands for two tuples |
| `LegacyLayers.SuffixesDoNotHelp` | internal/config/migrate.go:264-276 | Two clean layers for which convert-then-merge differs from merge-then-convert |
| `LegacyPreflight.ProveLayeredLegacyConversion` | internal/config/migrate_preflight.go:333-362 | The preflight accepts exactly when both ways of layering agree |
| `LegacyPreflight.PreflightOfCleanLayers` | internal/config/migrate_preflight.go:144-218 | For clean layers without a common context the preflight accepts exactly when no name stands for two tuples |
| `ConfigTypes.DedupKeepsItems` | internal/config/types.go:268-292 | The union keeps every item, once |
| `ConfigTypes.DedupKeepsOrder` | internal/config/types.go:268-292 | The items of the first list come first, in its order |
| `EnvOverlay.ParseEnvIntoContext` | internal/config/envparse.go:42-73 | Besides fresh objects only the selected context is written; the selected view is the old one overlaid with the environment, through objects of its own down to the provider rows |
| `EnvOverlay.VariablesDecide` | internal/config/types.go:725-886 | Each variable sets its own entry of the view, and a credential set to white space does not count |
| `EnvOverlay.TheRestStays` | internal/config/types.go:725-886 | Beside those entries only the two numbers change, and a cloud entry may appear |
| `EnvOverlay.SuppliedIsLetThrough` | internal/config/envparse.go:75-83 | Exactly the credentials whose own variable is set stop being withheld |
| `EnvOverlay.NumbersParseExactly` | internal/config/envparse.go:239-264 | The overlay fails exactly when a number is set, not empty and does not parse |
| `EnvOverlay.ParseEnvBeside` | internal/config/envparse.go:85-91 | No other context sees a difference, whatever it shares with the selected one |
| `EnvOverlay.DetachStackRuntimeView` | internal/config/envparse.go:92-122 | The context gets its own copy of everything it shared through its stack, with the same values |
| `EnvOverlay.ApplyCloudEnvOverride` | internal/config/envparse.go:148-163 | A cloud variable moves the context to a private copy; without one the shared entry stays |
| `EnvOverlay.ClearRuntimeCredentialRejections` | internal/config/envparse.go:75-83 | Exactly the supplied credentials stop being withheld, never on a shared entry |
| `RuntimeBindings.EnforceRuntimeCredentialBindings` | internal/config/keychain.go:1039-1137 | Refused exactly when a repository-local entry selects client certificate files; else a secret of the selected context that was loaded for another destination ends empty and rejected, or was supplied explicitly, and a secret changes only by such a decision, made for such a reason; a supplied credential that needs none is not withheld, and nothing else is newly withheld |
| `RuntimeBindings.NeededExactly` | internal/config/keychain.go:1062-1084 | A field has to be decided exactly when a repository-local entry met a credential from the environment, or what was loaded for it has a valid binding with another key or destination |
| `RuntimeBindings.OutcomeExactly` | internal/config/keychain.go:1062-1096 | A decided field ends empty and rejected, or keeps its value because the process supplied it as an override or as another value |
| `LostUpdate.NoUpdateIsLost` | internal/config/loader.go:743-766 | In every interleaving of guarded writers each document in force was computed from exactly the content it replaced |
| `LostUpdate.FirstDocumentReplacesNothing` | internal/config/loader.go:833-840 | Over every run, a document computed from no file is the first one, and then there was no file to begin with |
| `LostUpdate.StaleWriterIsTurnedAway` | internal/config/loader.go:929-945 | After any events of any writers, a writer installs only over what it loaded, and is turned away when checked against anything else |
| `LostUpdate.UndisturbedWriterSucceeds` | internal/config/loader.go:743-840 | A writer that nobody disturbs gets its document in place and frees the lock |
| `References.AccountExactly` | internal/credentials/credentials.go:166-208 | A reference yields an account exactly when it was generated for that binding, and then that generation's account |
| `References.OwnBindingOnly` | internal/credentials/credentials.go:173-191 | Under a collision-free digest a reference or an account serves its own binding and no other |
| `References.AccountsAreDistinct` | internal/credentials/credentials.go:156-164 | Different bindings or generations have different accounts |
| `References.RotationsAreApart` | internal/credentials/credentials.go:130-139 | A rotated reference opens the account made with it, for its own binding alone, and two rotations share an account only with the same binding and the same random bytes |
| `References.GenerationsAreLimited` | internal/credentials/credentials.go:193-215 | A generated text is a v2 reference exactly when its generation has 1 to 128 characters and no colon |
| `References.PreImageIsInjective` | internal/credentials/credentials.go:223-235 | The digest pre-image determines source, owner, field and destination when they are NUL-free |
| `References.LegacyRoundTrip` | internal/credentials/credentials.go:258-283 | Parsing undoes formatting exactly for a non-empty owner other than v2 and not starting with v2: |
| `References.ParsedIsFormatted` | internal/credentials/credentials.go:269-283 | Whatever parses as a legacy reference is one that formatting writes |
| `Base64.EncodeRoundTrip` | internal/credentials/credentials.go:130-139 | Decoding undoes encoding; encodings contain no separator |
| `Base64.DecodesTo32` | internal/credentials/credentials.go:209-212 | A digest is accepted exactly with 43 significant alphabet characters, line breaks ignored |
| `Redaction.StripArgValues` | internal/agentlog/agentlog.go:120-167 | The redaction loop equals its specification |
| `Redaction.StrippedAt` | internal/agentlog/agentlog.go:120-167 | Position by position before --: the argument after a bare value-taking flag is hidden whole, everything else is written as shown |
| `Redaction.ShownExactly` | internal/agentlog/agentlog.go:125-160 | A word shows only when it is a command, a flag up to its equals sign or its one letter |
| `Redaction.ValuesDoNotShow` | internal/agentlog/agentlog.go:105-119 | Argument lists that differ only in value positions or after -- are logged alike |
| `Redaction.TextBeforeEqualsShows` | internal/agentlog/agentlog.go:145-149 | Exactly the text after the first equals sign is hidden, also for text attached to a one-letter flag |
| `Redaction.SecretShows` | internal/agentlog/agentlog.go:144-149 | Two passwords attached to a flag and followed by an equals sign are logged differently |
| `Redaction.TrimLog` | internal/agentlog/agentlog.go:80-102 | Keeps everything, or exactly the last lines up to the limit, starting at a line |
| `Editor.UpdateReads` | internal/config/editor.go:24-220 | A successful set reads back and disturbs no other path, an unset restores the default at and below its path only, a failed update changes no reading |
| `Editor.WhenUpdatesSucceed` | internal/config/editor.go:24-220 | A set succeeds exactly when its path names a leaf that takes the text and no nil pointer is in the way |
| `Editor.NilRowsBlock` | internal/config/editor.go:75-135 | Below a table only a nil pointer that is already a row stands in the way; a nil table or a missing row is created |
| `Editor.ParsesExactly` | internal/config/editor.go:144-230 | Texts and bytes are taken verbatim, the empty text clears a text, bytes or a flag, and lists, flags and numbers go by their parsers |

## Left out

- WriteConfig.WriteConfig: does not model the derivation of missing cloud endpoints, which happens before any store is touched.
- WriteClone.WorkOnCopy: the secrets of the value model are the texts of this object graph, but the two are not one object, and the swaps are any that name each place once; the derivation of cloud endpoints is not modelled.
- WriteConfig.ValidateSnapshot: does not re-check the schema version or the legacy shape of the file on disk; a file it cannot read or decode is one arbitrary failure.
- Keychain.Reconcile: visits fields in arbitrary order; the two maps kept for older callers are not modelled.
- SecretLoad.Load: decoding, overrides and the capture of plaintext origins are not modelled; layers are loaded one at a time.
- RefreshTransport.RefreshTransport.MaybeRefresh: the token read that follows under a second lock is not covered, only the instant of success.
- SingleFlight.EveryRunIsSafe: the three token functions are called by one leader at a time; deadlines inside a network call are one failed answer.
- TokenFile.RunKeepsInv: a server that answers with the same refresh token is covered by the other two token models, not here; a machine crash that takes back an unsynced rename is not modelled; contents of the configuration other than the token generation are not modelled; an unreadable stored generation is one outcome of a persist.
- CloudEntries.Config.EnsureCloudEntryWithSafety: the load, guard and write around it in the login command are not modelled.
- LayerMerge.MergeConfigs: works on values, so the maps and pointers that the program shares between the result and its inputs are not modelled.
- LegacyMigration.ConvertLegacyConfig: works on values; resolving legacy references, backups and replacing the legacy file are not modelled.
- SelfCheck.VerifyLegacyMigration: the check that conversion left its input unchanged holds by construction of the model.
- LegacyPreflight.ProveLayeredLegacyConversion: mixed current and legacy layers and interrupted migrations are not modelled.
- LegacyLayers.LayeringCommutes: for layers that share a context name the merge of the legacy files is characterised field by field, agreement with the converted layers only by the comparison itself.
- EnvOverlay.ParseEnvIntoContext: certificate bytes are values; provider variables are applied elsewhere.
- RuntimeBindings.EnforceRuntimeCredentialBindings: works on owners with fixed destinations instead of the object graph.
- LostUpdate.NoUpdateIsLost: only writers that loaded a single file and take its lock; a configuration without a recorded revision is not one.
- References.OwnBindingOnly: the hash is any function into 32 bytes; a collision of the two pre-images is excluded by hypothesis.
- Editor.UpdateReads: works on values and a schema tree instead of reflection over structs in place.
- Redaction.TrimLog: works on the text; reading and writing the file is not modelled.
- Discovery of sources, permissions, symbolic links, file locks and YAML are outcomes, not code.
- The login flows, HTTP and TLS clients, provider commands, linter, graphs, telemetry and user-facing messages.
