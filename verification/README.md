# Event-driven services of a marketplace: verified models

This project models the cores of the repository that keep state over many requests: the endpoint
health checker, the projection of payment channels from the chain, the asset synchroniser, the
catalogue of organizations and services, the reconciliation of organization members, the cache of
free-call tokens, and the order and payment saga with its history and its money conversion. Each is a
class or a set of functions that does what the code does, and each class method is proved equal to a
specification function. What a specification function computes is stated again in terms of columns and
constants, without it; what the services promise is proved about these functions over all inputs and
over all runs: retries, redeliveries, interleavings and stops half-way included.

`dafny verify dfyconfig.toml` verifies the whole project.

## Layout

| component | files |
|---|---|
| endpoint health (`service_status`) | `EndpointHealth` (one sweep), `EndpointHistory` (one row), `EndpointRuns` (all sweeps, fairness) |
| channel projection (`contract_api`) | `Base64`, `ChannelProjection`, `ProjectionConvergence` |
| asset synchroniser (`contract_api`, `common`) | `ObjectUrls`, `AssetSync`, `AssetTheorems`, `AssetRuns` (one entity), `AssetSharing` (all) |
| catalogue (`contract_api`) | `Catalogue`, `CatalogueTheorems` |
| membership (`registry`) | `Membership`, `MembershipTheorems` |
| free-call tokens (`signer`) | `TokenCache` |
| orders and payments (`payments`, `orchestrator`, `common`) | `Money`, `Payments`, `PaymentRuns`, `OrderSaga`, `SagaRuns`, `TransactionHistory` |
| shared | `Wrappers` |

A table is a map from its unique key to a row; cascades and auto-increment counters are written out. What
lies outside the code is a parameter with the answers it may give: the probe, the chain, the queue, the
object store, the payment gateway, the daemon, the clocks. A call that raises is an answer too. Runs are
sequences of such requests or steps, and the function that carries them out is defined on prefixes.

## Where the code and its intent differ

Each point is a lemma with a concrete input, or the exact condition under which the intent is met.

- A raising probe stops a sweep, and since the oldest due row comes first, it is met again first: while it
  raises, nothing is ever probed (`EndpointRuns.PoisonedHeadStarvesAll`).
- The fifth failure delays by 16 hours, beyond the configured maximum of 12 (`EndpointHistory.DelayBounds`).
- A channel change told only by an event of another name is lost until the next told change of that channel
  (`ProjectionConvergence.UntoldChangeIsLost`, `ProjectionConvergence.ToldChangeRestores`). The prefix test on
  the event's group id compares bytes with text and never holds (`ProjectionConvergence.OpenGroupAgreesIff`).
- A URL free of `?` and `#` need not parse back: tabs, line ends, and a `;` in the last segment are cut as
  well (`ObjectUrls.UrlRoundTripIff`).
- An asset update that fails, or whose transaction is rolled back after its loop, is undone in the database
  but not in the object store, and a URL of an object that was replaced dangles at every delivery of the same
  metadata that is rolled back (`AssetRuns.RolledBackDanglesIff`). Services store no asset hashes, because the
  factory looks for them under another name than the metadata's: they delete and upload every asset anew, so
  their next committed update repairs whatever was lost (`AssetRuns.CommittedServiceUpdateHeals`).
  Organizations store them, so a return to the old hash after one failure retains a URL that dangles
  (`AssetRuns.RevertAfterFailureDanglesIff`). Nothing dangles while updates commit
  (`AssetRuns.CommittedRunsNeverDangle`).
- Stored members are found again by username and role, and members known only from the chain have the empty
  username: two of them share a row, and one such owner following another loses the new owner's row
  (`MembershipTheorems.NewMembersCollide`, `MembershipTheorems.ChainOwnerHandoverLosesOwner`).
- Deleting a stored member commits nothing: after a plain transfer of an organization without members the
  database keeps both owners (`MembershipTheorems.PlainTransferKeepsPreviousOwner`) until the same process
  commits something, such as the same event delivered again
  (`MembershipTheorems.PlainTransferRepeatedDropsPreviousOwner`). With members, the first of them commits the
  deletion of a previous owner who is yet to be stored as a member, and after a raise in between the
  redelivery no longer knows his username (`MembershipTheorems.StopForgetsPreviousOwner`).
- The stored expiration of a token is the request's block plus the lifetime, while the answer to a fetch
  states the daemon's (`TokenCache.StatedExpirationIff`). A token another key holds is fetched again every
  time (`TokenCache.RepeatedTokenIsFetchedEveryTime`).
- A canceled payment can still be executed, and a paid one again: neither service looks at the stored status
  (`PaymentRuns.CanceledPaymentRevives`, `SagaRuns.RepeatedExecutionFundsTwice`).
- Storing a later status in the history changes nothing, so the history never says of an order begun by the
  order service that it was processed, and the sweep cancels orders that were paid and funded
  (`SagaRuns.HistoryNeverSaysProcessed`, `SagaRuns.FundedOrderIsCanceled`). Execution failures are never
  stored by the service, and cancellation by name would not recognise them.
- A service group keeps only the last of its endpoints, because endpoints are found again by group
  (`CatalogueTheorems.OnlyLastEndpointIsStored`).

## Model

| member | source | states |
|---|---|---|
| EndpointHealth.ServiceStatus.GetServiceEndpointData | service_status/service_status.py:61-68 | the batch is the `limit` least recently checked of the watched rows whose next check lies in the past, each once, oldest first; all of them if there are fewer |
| EndpointHealth.ServiceStatus.CheckEndpoint | service_status/service_status.py:134-163 | one turn of the loop: every column of the row, outage log, alerts and count afterwards, and whether the sweep goes on |
| EndpointHealth.ServiceStatus.UpdateServiceStatus | service_status/service_status.py:130-164 | a sweep is its turns in order, and a raise ends it with the earlier turns kept |
| EndpointHealth.StoppedStays | service_status/service_status.py:134-163 | once a turn raises, no later row is touched |
| EndpointHealth.SweepCount | service_status/service_status.py:130-164 | a sweep counts the turns before the first that raises and stops there, or finishes and counts all |
| EndpointHistory.CounterEqualsTrace | service_status/service_status.py:141-152 | after any probe history the counter is the length of the failure run, plus the stored count if the row was down from the start; 0 right after a recovery, 1 on continued success |
| EndpointHistory.AlertsPerOutage | service_status/service_status.py:154-162 | every maximal run of k failures causes min(k, 10) alert rounds |
| EndpointHistory.LogReplays | service_status/service_status.py:116-128 | replaying a row's log yields its current availability |
| EndpointHistory.LogChainsIff | service_status/service_status.py:149-150 | the log alternates, each entry starting in its predecessor's state, exactly when the first availability is known or the first probe is up |
| EndpointHistory.DelayBounds | service_status/service_status.py:171-176 | for any minimum not above the maximum, each delay lies between the minimum and the greater of 16 times the minimum and the maximum |
| EndpointHistory.BackOffSum | service_status/config.py:22-23 | the first k failures of an outage are delayed by 2^k - 1 hours in total up to k = 5, and by 31 + 12(k - 5) beyond |
| EndpointRuns.SweepIsHistory | service_status/service_status.py:130-163 | a sweep, finished or not, does to each row what the row's own probes do |
| EndpointRuns.RunIsHistory | service_status/service_status.py:130-163 | so does any run of sweeps with other writers in between |
| EndpointRuns.CounterOverRuns | service_status/service_status.py:141-152 | the counter law over whole runs from an available row |
| EndpointRuns.LogOverRuns | service_status/service_status.py:116-128 | over whole runs, from any log that replays to the stored availability, the log alternates, chains and replays to it again |
| EndpointRuns.AlertsOverRuns | service_status/service_status.py:154-162 | over whole runs an outage of k failed probes causes min(k, 10) rounds |
| EndpointRuns.RestsAfterProbe | service_status/service_status.py:61-74 | with nobody else writing, a probed row is in no later batch before 1, 2, 4, 8, 16, then 12 hours have passed since its probe, by its failure count; then it is, if watched and the batch is not full |
| EndpointRuns.SkipMovesLimit | service_status/service_status.py:61-65 | a sweep that does not probe a due row puts nothing before it and, if it finishes, moves `limit` rows from before it to behind it |
| EndpointRuns.NoStarvation | service_status/service_status.py:61-74 | with N watched rows and an advancing clock, a row that stays due is probed, once, by some sweep of any run in which (N-1)/limit + 1 sweeps finish, however many are stopped in between |
| EndpointRuns.PoisonedSweep | service_status/service_status.py:46-49 | a raising probe of the oldest due row ends the sweep with nothing done |
| EndpointRuns.PoisonedHeadStarvesAll | service_status/service_status.py:130-135 | while it raises, no sweep of any run changes anything |
| Base64.RoundTrip | contract_api/application/consumers/mpe_event_consumer.py:42 | decoding undoes encoding (section 4 of RFC 4648) |
| Base64.Injective | contract_api/application/consumers/mpe_event_consumer.py:60 | different group ids have different texts |
| Base64.CharIsAlphabet | contract_api/application/consumers/mpe_event_consumer.py:42 | the alphabet of RFC 4648 |
| Base64.Encode | contract_api/application/consumers/mpe_event_consumer.py:42 | the text of n bytes has four characters for every three begun |
| Base64.EncodeSpells | contract_api/application/consumers/mpe_event_consumer.py:42 | every group of four characters spells the bits of its bytes, padded where none is left |
| ChannelProjection.MpeEventConsumer.OnEvent | contract_api/application/consumers/mpe_event_consumer.py:17-35 | one event: ignored, or the channel of the event or of the chain, column by column; an existing row keeps its parties, its group and its consumed balance |
| ChannelProjection.MpeEventConsumer.HandleBatch | contract_api/application/handlers/consumer_handlers.py:16-23 | a batch is acknowledged exactly when no event raises; otherwise what was written before stays |
| ProjectionConvergence.ChainStepKeeps | contract_api/application/consumers/mpe_event_consumer.py:38-55 | a chain change and its event keep the invariant |
| ProjectionConvergence.BuildKeeps | contract_api/application/consumers/mpe_event_consumer.py:57-73 | so does reading the chain, however stale the record is when written |
| ProjectionConvergence.WriteKeeps | contract_api/infrastructure/repositories/channel_repository.py:77-114 | so does the upsert |
| ProjectionConvergence.AcknowledgeKeeps | contract_api/application/handlers/consumer_handlers.py:19-23 | so does acknowledging a batch |
| ProjectionConvergence.RewindKeeps | contract_api/application/handlers/consumer_handlers.py:19-23 | so do a delivery, a crash part-way and the redelivery of the whole batch |
| ProjectionConvergence.ConsumedKeeps | contract_api/infrastructure/repositories/channel_repository.py:64-74 | so does writing a consumed balance |
| ProjectionConvergence.InvOverRuns | contract_api/application/handlers/consumer_handlers.py:16-23 | the invariant holds in every reachable state |
| ProjectionConvergence.EventIsBuildThenWrite | contract_api/application/consumers/mpe_event_consumer.py:17-35 | the machine's two steps for an event are the consumer's method |
| ProjectionConvergence.QuietChannelAgrees | contract_api/application/consumers/mpe_event_consumer.py:17-73 | in every reachable state a channel with no queued event agrees with its chain record |
| ProjectionConvergence.DrainedTableEqualsChain | contract_api/application/consumers/mpe_event_consumer.py:17-73 | when the queue is drained the table is the chain |
| ProjectionConvergence.ConsumedIsLastWritten | contract_api/infrastructure/repositories/channel_repository.py:64-114 | over any run of events, crashes and redeliveries a row's consumed balance is the amount last written to it, and 0 before the first |
| ProjectionConvergence.RowsStay | contract_api/infrastructure/repositories/channel_repository.py:77-114 | no row is removed or changes sender, signer, recipient or group |
| ProjectionConvergence.UntoldChangesAreUnseenIff | contract_api/application/consumers/mpe_event_consumer.py:24-29 | from any reachable state in which a channel agrees and is quiet, without a told change of it its row stays, and agrees exactly when the chain record is what it was |
| ProjectionConvergence.UntoldChangeIsLost | contract_api/application/consumers/mpe_event_consumer.py:27-29 | from every reachable state at rest an untold change leaves the table behind and its event is consumed without effect |
| ProjectionConvergence.ToldChangeRestores | contract_api/application/consumers/mpe_event_consumer.py:24-26 | the next told change of the channel restores it once the queue is drained, whatever was lost before |
| ProjectionConvergence.OpenGroupAgreesIff | contract_api/application/consumers/mpe_event_consumer.py:39-42 | the group stored from an event equals the re-read one exactly when the event carries the raw bytes |
| ObjectUrls.PathRoundTripIff | common/s3_util.py:67-69 | the key survives parsing exactly when it is free of `?`, `#`, tab and line ends and has no `;` in its last segment |
| ObjectUrls.BucketRoundTripIff | common/s3_util.py:67-69 | the bucket survives exactly when it has no dot and no capital |
| ObjectUrls.UrlRoundTripIff | common/s3_util.py:60-69 | parsing undoes construction exactly under both conditions |
| ObjectUrls.ParsingFailsIff | common/s3_util.py:67-69 | parsing fails exactly when no host follows the scheme |
| ObjectUrls.ParsedParts | common/s3_util.py:67-69 | of any URL with a plain host: bucket and key, query and fragment ignored |
| AssetSync.EventConsumer.DeleteFileFromS3 | common/s3_util.py:71-75 | the object its URL names is gone, or the call raised and nothing changed |
| AssetSync.EventConsumer.PushAssetToS3UsingHash | contract_api/application/consumers/event_consumer.py:97-122 | the object is there under the key of prefix, organization, service if there is one, file name and type, and its URL is returned |
| AssetSync.EventConsumer.DeleteEach | contract_api/application/consumers/event_consumer.py:55-56 | the deletions of a list in order, up to the first that raises |
| AssetSync.EventConsumer.PushEach | contract_api/application/consumers/event_consumer.py:59-62 | the uploads of a list in order, up to the first that raises, with their URLs |
| AssetSync.EventConsumer.SyncList | contract_api/application/consumers/event_consumer.py:48-64 | the turn of a list type |
| AssetSync.EventConsumer.SyncString | contract_api/application/consumers/event_consumer.py:66-83 | the turn of a single-hash type: retained or replaced |
| AssetSync.EventConsumer.CompareAssetsAndPushToS3 | contract_api/application/consumers/event_consumer.py:22-90 | the whole update: store and map afterwards, or what had been done when a call raised |
| AssetTheorems.KeysAreInjective | contract_api/application/consumers/event_consumer.py:105-114 | without underscores in names, keys of different types or names differ |
| AssetTheorems.FileNameOfUri | contract_api/application/consumers/event_consumer.py:105-106 | of a hash with a scheme the file name is the segment after it, whatever path follows |
| AssetTheorems.FileNameOfPath | contract_api/application/consumers/event_consumer.py:107-108 | of any other it is the last segment |
| AssetTheorems.OwnUrlParses | common/s3_util.py:67-69 | a recorded URL parses back to the object that was pushed |
| AssetTheorems.ItemEffect | contract_api/application/consumers/event_consumer.py:47-88 | what one turn removes from and adds to the store |
| AssetTheorems.WrongShapeRaises | contract_api/application/consumers/event_consumer.py:54-76 | a type recorded in another shape than its hash needs raises at its turn, before anything is done |
| AssetTheorems.LaterTurnsSpare | contract_api/application/consumers/event_consumer.py:47-88 | no turn of another type touches an object of this one |
| AssetTheorems.UpdateEffect | contract_api/application/consumers/event_consumer.py:47-90 | an update removes all that its turns delete and adds all that they upload: no turn undoes another |
| AssetRuns.NewRecordIsWell | contract_api/application/consumers/event_consumer.py:64-83 | the new map's URLs are all of the entity's own objects, by type, whether the hashes are stored beside them (organizations) or not (services) |
| AssetRuns.FinishedLoopLiveIff | contract_api/application/consumers/event_consumer.py:69-83 | when the loop is done, every URL of the new map names an object exactly when the retained ones did before |
| AssetRuns.CommittedUpdateLiveIff | contract_api/application/consumers/organization_event_consumers.py:42-72 | after a committed update the record is live exactly when the objects it retains were there |
| AssetRuns.BucketAccounting | contract_api/application/consumers/event_consumer.py:47-90 | the store is the old one, minus the recorded objects of every type in the new metadata, plus the objects of the new map, exactly when the objects the update retains are there |
| AssetRuns.CutShort | contract_api/application/consumers/event_consumer.py:47-90 | what a loop leaves, cut short or not: each object as the last action carried out left it |
| AssetRuns.UncommittedUpdateLiveIff | contract_api/application/consumers/organization_event_consumers.py:42-72 | after an update that fails in its loop or is rolled back after it, the kept record is live exactly when each of its objects was last stored, or was there and left alone |
| AssetRuns.RunsStayWell | contract_api/application/consumers/organization_event_consumers.py:74-87 | over any updates, committed or not, the record's URLs stay the entity's own |
| AssetRuns.CommittedRunsNeverDangle | contract_api/application/consumers/event_consumer.py:40-90 | while updates commit, no recorded URL ever dangles |
| AssetRuns.RolledBackDanglesIff | contract_api/application/consumers/organization_event_consumers.py:43-72 | a changed hash whose transaction is rolled back after the loop leaves the recorded URL dangling, however often it is delivered, unless both hashes make the same file name |
| AssetRuns.ServicesKeepNoHashes | contract_api/domain/factory/service_factory.py:193-214 | over any updates a service's record has no asset hashes |
| AssetRuns.CommittedServiceUpdateHeals | contract_api/application/consumers/service_event_consumers.py:186-216 | after any updates of a service, whatever they lost, one that commits leaves every URL naming an object and the accounts right |
| AssetRuns.RevertAfterFailureDanglesIff | contract_api/application/consumers/event_consumer.py:69-83 | after a failed change a return to the old hash leaves the URL dangling exactly for an organization, where it stays so, or if the service's upload is not reached |
| AssetSharing.KeysOfEntities | contract_api/application/consumers/event_consumer.py:105-114 | under one prefix, equal keys are of the same organization and the same service |
| AssetSharing.SlashInNameCollides | contract_api/application/consumers/event_consumer.py:111-114 | with a slash in an organization's name two entities can have the same keys |
| AssetSharing.OthersUntouched | contract_api/application/consumers/event_consumer.py:40-122 | an update, finished or cut short, leaves every object of another organization or service exactly as it was |
| AssetSharing.OthersDoNotMatter | contract_api/application/consumers/event_consumer.py:40-122 | whatever updates of others come in between, an entity has the record, and its own objects in the store, that its own updates alone would have left |
| AssetSharing.OwnCommitsSuffice | contract_api/application/consumers/event_consumer.py:40-122 | while an entity's own updates commit, none of its URLs dangles, however many of others fail |
| Catalogue.EventConsumers.OnOrganizationCreated | contract_api/application/consumers/organization_event_consumers.py:25-72 | organization and groups are rewritten together or, when a group clashes, not at all; nothing happens for one not on chain |
| Catalogue.EventConsumers.CreateOrgGroups | contract_api/infrastructure/repositories/new_organization_repository.py:100-109 | the groups are inserted unless two share the unique key |
| Catalogue.EventConsumers.DeleteServiceDependents | contract_api/infrastructure/repositories/new_service_repository.py:404-429 | groups, tags and endpoints of that name are gone and this is committed |
| Catalogue.EventConsumers.UpsertServiceRow | contract_api/infrastructure/repositories/new_service_repository.py:431-463 | the row keeps its id or gets the next one; a missing parent is the only failure |
| Catalogue.EventConsumers.UpsertDependent | contract_api/infrastructure/repositories/new_service_repository.py:533-621 | the row found by its names is rewritten, or inserted |
| Catalogue.EventConsumers.StoreGroups | contract_api/application/consumers/service_event_consumers.py:217-245 | the nested loops over groups and endpoints |
| Catalogue.EventConsumers.StoreTags | contract_api/infrastructure/repositories/new_service_repository.py:623-647 | each tag once; a tag held under another row is a failure |
| Catalogue.EventConsumers.StoreMedia | contract_api/application/consumers/service_event_consumers.py:138-173 | images and videos by asset type, other files skipped |
| Catalogue.EventConsumers.StoreServiceData | contract_api/application/consumers/service_event_consumers.py:175-262 | the whole update with its two commits on the way and its rollback |
| Catalogue.EventConsumers.OnEvent | contract_api/application/consumers/service_event_consumers.py:54-116 | each registry event, from the committed tables to the committed tables |
| CatalogueTheorems.DropKeepsSound | contract_api/infrastructure/models.py:134-145 | deleting by row id takes exactly the dependents that bear the service's names |
| CatalogueTheorems.FillWrites | contract_api/application/consumers/service_event_consumers.py:204-262 | filling a service never clashes and leaves the last write under every key |
| CatalogueTheorems.HandleKeepsSound | contract_api/application/consumers/service_event_consumers.py:54-116 | every event, completed or stopped, keeps foreign keys and denormalised names consistent |
| CatalogueTheorems.SoundOverRuns | contract_api/infrastructure/models.py:105-145 | after any events every service has its organization and every dependent row's names are those of the row it points to |
| CatalogueTheorems.ServiceEventSucceedsIff | contract_api/application/consumers/service_event_consumers.py:97-116 | an event that is not stopped succeeds exactly when its organization is stored or can be stored from the chain |
| CatalogueTheorems.GroupsStorableIff | contract_api/infrastructure/models.py:72-74 | groups can be inserted exactly when none is stored or listed twice |
| CatalogueTheorems.RegisteredOrgNeverMissing | contract_api/application/consumers/service_event_consumers.py:102-116 | in every reachable state, for an organization registered on chain no service insert misses its parent: only a group listed twice can make the event fail |
| CatalogueTheorems.ContentAfterUpdate | contract_api/application/consumers/service_event_consumers.py:97-262 | a completed update, be it the one that first stores its organization, leaves exactly the new metadata, under the service's row, with no old group, endpoint or tag; other services are untouched |
| CatalogueTheorems.StopLeaves | contract_api/application/consumers/service_event_consumers.py:175-262 | what each stop leaves committed: nothing, the service without its groups, tags and endpoints, or besides that its row with the new hash |
| CatalogueTheorems.OrganizationStored | contract_api/application/consumers/organization_event_consumers.py:38-72 | an organization event stores the chain's metadata, new or not, and exactly the listed groups with their values, unless a group is listed twice; nothing else changes |
| CatalogueTheorems.OrganizationIsLastStored | contract_api/infrastructure/repositories/new_organization_repository.py:58-109 | after any events an organization has the metadata and exactly the groups of its last successful write, by whichever kind of event, and nothing if removed since or never written |
| CatalogueTheorems.OthersLeaveService | contract_api/application/consumers/service_event_consumers.py:54-116 | events of other services, and of organizations other than its deletion, leave a service's row and all its dependents as they were |
| CatalogueTheorems.FilledAgain | contract_api/application/consumers/service_event_consumers.py:191-262 | repeating a completed update changes nothing |
| CatalogueTheorems.RedeliveryCompletes | contract_api/application/handlers/consumer_handlers.py:26-37 | an update stopped anywhere and delivered again ends exactly as if it had completed at once |
| CatalogueTheorems.OnlyLastEndpointIsStored | contract_api/infrastructure/repositories/new_service_repository.py:581-608 | of a group's endpoints only the last is stored |
| CatalogueTheorems.ServiceDisappearsIff | contract_api/application/consumers/service_event_consumers.py:72-92 | a service row disappears exactly through its own delete event, its own MPE mismatch, or its organization's delete event; otherwise it keeps its id |
| CatalogueTheorems.OrganizationDisappearsIff | contract_api/application/consumers/service_event_consumers.py:86-91 | an organization disappears exactly through its own delete event or a mismatch that leaves it without services |
| CatalogueTheorems.DependentsGoWithService | contract_api/application/consumers/service_event_consumers.py:278-288 | with a service go exactly its dependents, and nothing else changes |
| CatalogueTheorems.MismatchTakesService | contract_api/application/consumers/service_event_consumers.py:72-92 | a mismatch takes its service like a deletion, and then its organization exactly if that has no other |
| CatalogueTheorems.OrganizationTakesItsOwn | contract_api/application/consumers/organization_event_consumers.py:110-114 | with an organization go exactly its groups, its services and their dependents |
| CatalogueTheorems.RecreatedServiceGetsNewRow | contract_api/infrastructure/repositories/new_service_repository.py:449-463 | a re-created service has a row id above every earlier one |
| Membership.OrganizationEventConsumer.UpsertOrgMember | registry/infrastructure/repositories/organization_repository.py:525-556 | the row with this username and role is rewritten, or added, and everything pending is committed with it |
| Membership.OrganizationEventConsumer.DeleteOrgMember | registry/infrastructure/repositories/organization_repository.py:558-565 | the row goes from the session if username, role and status match; the database keeps it until a later commit |
| Membership.OrganizationEventConsumer.ProcessOwner | registry/consumer/organization_event_consumer.py:96-124 | the session's rows, the committed rows and the shared map after the first pass, or a rollback if the upsert raises |
| Membership.OrganizationEventConsumer.DeleteOtherOwners | registry/consumer/organization_event_consumer.py:114-124 | the loop deletes exactly the other owners' rows, in whatever order, and commits none of it |
| Membership.OrganizationEventConsumer.ProcessMember | registry/consumer/organization_event_consumer.py:132-145 | one member: the shared object and its row, committed |
| Membership.OrganizationEventConsumer.ProcessMembers | registry/consumer/organization_event_consumer.py:126-145 | the second pass, up to the upsert that raises |
| Membership.OrganizationEventConsumer.GetOrgMembers | registry/consumer/organization_event_consumer.py:148-151 | the map by address, the last row of an address counting |
| Membership.OrganizationEventConsumer.UpdateOrgMembers | registry/consumer/organization_event_consumer.py:147-157 | the whole reconciliation: rows seen and rows committed, done or cut short by a raise |
| MembershipTheorems.RemoveOwnerClean | registry/consumer/organization_event_consumer.py:92-94 | of a duplicate-free list exactly the owner is removed |
| MembershipTheorems.RemoveOwnerKeepsOrder | registry/consumer/organization_event_consumer.py:92-94 | only the owner's first entry goes, and the others keep their order |
| MembershipTheorems.CurrentMembersValid | registry/consumer/organization_event_consumer.py:148-151 | the map holds a row's value for every stored address |
| MembershipTheorems.LastRowCounts | registry/consumer/organization_event_consumer.py:148-151 | of several rows with one address the last read counts |
| MembershipTheorems.UpdateRows | registry/consumer/organization_event_consumer.py:96-145 | every row the session sees after an update, key by key |
| MembershipTheorems.CommittedIff | registry/infrastructure/repositories/organization_repository.py:525-565 | the database has the session's rows exactly when there is a member or nothing was deleted |
| MembershipTheorems.SessionOwnerStoredIff | registry/consumer/organization_event_consumer.py:96-124 | in the session the chain's owner is the only addressed OWNER, published, exactly after a clean handover |
| MembershipTheorems.OwnerStoredIff | registry/consumer/organization_event_consumer.py:96-124 | in the database he is so exactly after a clean handover with members or, without any, if there was no other addressed OWNER |
| MembershipTheorems.MembersStoredIff | registry/consumer/organization_event_consumer.py:126-145 | every chain member is committed as a published MEMBER exactly when no two share a username |
| MembershipTheorems.OthersUnchanged | registry/consumer/organization_event_consumer.py:96-145 | all other rows are as they were |
| MembershipTheorems.PreviousOwnerRestored | registry/consumer/organization_event_consumer.py:114-145 | a previous owner who is a member is deleted by the first pass and restored by the second, with username and address |
| MembershipTheorems.CommittedRows | registry/consumer/organization_event_consumer.py:96-145 | every committed row after a clean reconciliation, key by key |
| MembershipTheorems.CommittedStaysCoherent | registry/consumer/organization_event_consumer.py:96-145 | rows at one address keep agreeing on username and invitation |
| MembershipTheorems.RedeliveredIff | registry/consumer/organization_event_consumer.py:112-145 | an update that raised after any number of upserts and is delivered again ends as one complete update exactly when the handover is clean as read again and nobody lost his row in between |
| MembershipTheorems.StopForgetsPreviousOwner | registry/consumer/organization_event_consumer.py:114-145 | a raise between the first member's upsert and the previous owner's leaves the redelivery without the latter's username |
| MembershipTheorems.RepetitionIff | registry/consumer/organization_event_consumer.py:147-157 | repeating an update on the committed rows, however they are read, changes nothing exactly when there are no members, or the handover was clean and everyone who lost his username to another is followed by a member without one |
| MembershipTheorems.FirstReconciliationIsRepeatable | registry/consumer/organization_event_consumer.py:126-145 | the first reconciliation of an organization with any members unknown to the table is repeatable |
| MembershipTheorems.SessionIsIdempotent | registry/infrastructure/repositories/base_repository.py:19-25 | repeated on the same session without members, after a clean handover, the session's rows stay |
| MembershipTheorems.SessionRepetitionIff | registry/infrastructure/repositories/base_repository.py:19-25 | while the database changes, because the owner's upsert commits the pending deletions: it stays as it was exactly when none were pending, save for the owner's own row written again alike |
| MembershipTheorems.CoherentOverRuns | registry/consumer/organization_event_consumer.py:147-157 | over any run of clean reconciliations, deletions left pending committed later or lost, the table stays coherent |
| MembershipTheorems.RepeatedOverRuns | registry/consumer/organization_event_consumer.py:147-157 | after any such run the last reconciliation, if shared usernames do no harm, may be repeated any number of times, on rows read afresh or, after a clean handover, on the same session, and what is read next stays what it was |
| MembershipTheorems.NewMembersCollide | registry/consumer/organization_event_consumer.py:134-145 | two members unknown to the table end up in one row |
| MembershipTheorems.ChainOwnerHandoverLosesOwner | registry/consumer/organization_event_consumer.py:99-124 | a handover between owners known only from the chain, with a member, leaves no owner row |
| MembershipTheorems.LostOwnerComesBack | registry/consumer/organization_event_consumer.py:99-124 | the next delivery writes the lost owner row: an unclean update is not repeatable |
| MembershipTheorems.PlainTransferKeepsPreviousOwner | registry/infrastructure/repositories/organization_repository.py:558-565 | a clean handover without members leaves both owners in the database |
| MembershipTheorems.PlainTransferRepeatedDropsPreviousOwner | registry/infrastructure/repositories/base_repository.py:19-25 | delivered again to the same process, the plain transfer changes the database: only the new owner is left |
| TokenCache.FreeCallTokenInfoRepository.InsertOrUpdateFreeCallTokenInfo | signer/infrastructure/repositories/free_call_token_repository.py:40-82 | the entry is stored, unless its token is another key's |
| TokenCache.SignerService.GetFreeCallSignature | signer/application/service.py:35-118 | one request: the valid cached token; no token without the contract API, free calls or the daemon, and which error; a new token, stored, unless another key has it |
| TokenCache.TokensStayDistinct | signer/infrastructure/models.py:25 | no two keys ever hold the same token |
| TokenCache.OtherKeysUntouched | signer/infrastructure/repositories/free_call_token_repository.py:49-61 | requests for other keys never change an entry |
| TokenCache.StoreIsLastIssue | signer/application/service.py:91-100 | the store is what an onlooker's notes say: the last issue per key |
| TokenCache.ServedFromLastIssueIff | signer/application/service.py:43-58 | a request is served without the daemon exactly when its key's last issue is less than a lifetime old, and then with that token |
| TokenCache.SignedTokenIsLastIssued | signer/application/service.py:102-118 | every signed answer carries the token last issued for exactly its key, stored with an expiration above the request's block |
| TokenCache.StatedExpirationIff | signer/application/service.py:47-58 | the stated expiration is the stored one exactly when served from the cache or the daemon names the same block |
| TokenCache.IssuesPushExpiration | signer/application/service.py:97 | each stored issue moves the key's expiration a lifetime on |
| TokenCache.FetchBound | signer/application/service.py:51-97 | between blocks b0 and b1 the daemon issues at most 1 + (b1 - b0)/lifetime tokens per key, and one more for each that could not be stored |
| TokenCache.FreshTokensAreKept | signer/infrastructure/models.py:25 | none is lost when the daemon never repeats a token for two keys |
| TokenCache.RepeatedTokenIsFetchedEveryTime | signer/infrastructure/repositories/free_call_token_repository.py:58-73 | otherwise every request fetches anew |
| Money.HalfEvenIff | orchestrator/services/order_service.py:169 | rounding yields the nearest integer, of two the even one |
| Money.AgiHasEightDigits | common/utils.py:53-58 | the result is the multiple of 10^(d-8) nearest to an amount of d digits, of two the even one: eight significant digits are kept |
| Money.AgiError | common/utils.py:55-57 | the error is at most half of 10^(d-8) cogs for d digits, and none below 10^8 cogs |
| Money.AgiExactIff | common/utils.py:55-57 | nothing is lost exactly when the unit of the last digit divides the amount |
| Money.AgiMonotone | common/utils.py:53-58 | a larger amount is never shown as a smaller one |
| Money.CogsAreNearest | orchestrator/services/order_service.py:167-172 | the cogs of a price are the product of price and factor, rounded half to even |
| Money.TotalError | orchestrator/services/order_service.py:572-578 | the error of both conversions is at most the sum of the two |
| Payments.PaymentObject.ExecuteTransaction | payments/domain/paypal_payment.py:55-79 | the status by the gateway's answer, and the result or exception |
| Payments.Order.GetPayment | payments/domain/order.py:68-72 | the first payment with the id, or none |
| Payments.Order.CreatePayment | payments/domain/order.py:44-66 | a pending payment is appended, or nothing is |
| Payments.Order.ExecutePayment | payments/domain/order.py:74-82 | raises unless the gateway took the money; only the named payment's status moves |
| Payments.Order.CancelPayment | payments/domain/order.py:84-94 | only a pending payment becomes failed |
| Payments.OrderManager.PersistPayment | payments/infrastructure/order_repositroy.py:53-69 | the payment's row is added unless its id is taken |
| Payments.OrderManager.UpdatePaymentStatus | payments/infrastructure/order_repositroy.py:71-84 | the named payment's row gets the domain status |
| Payments.OrderManager.InitiatePaymentAgainstOrder | payments/application/dapp_order_manager.py:28-49 | when a payment is stored, and as what |
| Payments.OrderManager.ExecutePaymentAgainstOrder | payments/application/dapp_order_manager.py:51-66 | SUCCESS is stored exactly when the gateway reports the money taken; otherwise no row changes |
| Payments.OrderManager.CancelPaymentAgainstOrder | payments/application/dapp_order_manager.py:77-84 | FAILED is stored exactly for a pending payment |
| PaymentRuns.Handle | payments/application/dapp_order_manager.py:12-84 | every request of the manager is one step of the runs below |
| PaymentRuns.StepKeepsUniqueIds | payments/infrastructure/models.py:19-21 | payment ids stay unique across orders |
| PaymentRuns.PaymentAfterStep | payments/infrastructure/order_repositroy.py:71-84 | a request moves at most the status of the payment it names |
| PaymentRuns.StatusIsSettled | payments/domain/order.py:68-94 | over any run a payment is SUCCESS if the gateway ever reported the money taken, else FAILED if ever canceled while pending, else PENDING |
| PaymentRuns.CanceledPaymentRevives | payments/domain/paypal_payment.py:69-73 | a canceled payment that is executed becomes SUCCESS |
| OrderSaga.OrderService.Initiate | orchestrator/services/order_service.py:59-125 | order, payment and history after initiating an order, in every failure case |
| OrderSaga.OrderService.FindWallet | orchestrator/services/order_service.py:349-353 | the first wallet with the address |
| OrderSaga.CogsForIff | orchestrator/services/order_service.py:167-172 | a price buys so many cogs exactly when it is in USD and its product with the factor rounds, half to even, to them, and they are at least one |
| OrderSaga.CogsForNone | orchestrator/services/order_service.py:211-213 | otherwise it buys none |
| OrderSaga.WalletAtIsFirst | orchestrator/services/order_service.py:349-353 | the wallet found is the first with the address, or none has it |
| OrderSaga.RequestsIff | orchestrator/services/order_service.py:322-443 | which request an order is processed into: order, sender, recipient, channel and cogs, by order type; none without a wallet, its key or a signature |
| OrderSaga.RequestSentIff | orchestrator/services/order_service.py:174-220 | an execution sends a request exactly when the payment has just been taken, its price buys the request's cogs, and it is what the order asks for |
| OrderSaga.ExecutionEffect | orchestrator/services/order_service.py:174-245 | nothing unless the payment has just been taken; then its row says SUCCESS and the history whether a request was sent and accepted |
| OrderSaga.InitiationEffect | orchestrator/services/order_service.py:59-125 | nothing unless the price buys something, the lookups succeed and the order is new; then the completed order, its pending payment and the history entry |
| OrderSaga.OrderService.ManageProcessOrder | orchestrator/services/order_service.py:322-443 | at most one channel request, and success exactly when it was sent and accepted |
| OrderSaga.OrderService.Execute | orchestrator/services/order_service.py:174-245 | payment, request and history after executing an order, in every failure case |
| SagaRuns.RequestIsPaidFor | orchestrator/services/order_service.py:203-220 | a channel request is sent only when the gateway has just taken the payment, for exactly the cogs its price buys |
| SagaRuns.Conservation | orchestrator/services/order_service.py:208-220 | over any run the cogs requested never exceed the worth of what the gateway took, each charge being worth its price times the factor, rounded half to even, or nothing |
| SagaRuns.RequestsNeedCharges | orchestrator/services/order_service.py:203-220 | a payment is behind at most as many requests as the gateway took its money |
| SagaRuns.ChargesStandOver | payments/infrastructure/order_repositroy.py:71-84 | every charge stays attached to a stored payment with its gateway id and price |
| SagaRuns.OneRequestPerPayment | orchestrator/services/order_service.py:305-320 | if the gateway takes each payment's money at most once, each payment triggers at most one request |
| SagaRuns.StepIsPaymentRun | payments/application/dapp_order_manager.py:12-84 | to the payments' rows every event is nothing, or the payment requests it carries out |
| SagaRuns.HistoryNeverSaysProcessed | orchestrator/dao/transaction_history_dao.py:16-20 | while all orders come from the order service, its history never says of any that it was processed or failed in processing |
| SagaRuns.FundedOrderIsCanceled | orchestrator/services/order_service.py:549-555 | an order initiated, paid and funded with what its price buys is canceled by a sweep sixteen minutes later |
| SagaRuns.RepeatedExecutionFundsTwice | payments/domain/paypal_payment.py:69-73 | a payment reported as taken twice funds the channel twice |
| TransactionHistory.TransactionHistoryDAO.CancelOrder | orchestrator/services/order_service.py:549-555 | an uninterrupted sweep cancels exactly the orders sixteen minutes old or more whose payment was initiated, or failed in initiation or execution |
| TransactionHistory.TransactionHistoryDAO.CancelOrderForGivenOrderId | orchestrator/services/order_service.py:557-570 | the answer and the one row changed; failed executions are not recognised |
| TransactionHistory.StatusMoves | orchestrator/dao/transaction_history_dao.py:61-63 | with requests interleaved, a status changes only out of a cancellable one, into ORDER_CANCELED |
| TransactionHistory.StatusIsFirstOrCanceled | orchestrator/dao/transaction_history_dao.py:16-20 | over any run the status is the one first stored, or ORDER_CANCELED if that one was cancellable |
| TransactionHistory.RowIsFirstAndLast | orchestrator/dao/transaction_history_dao.py:14-41 | over any run user, order type and creation time are those first stored, payment and update time those last stored |
| TransactionHistory.FinalStatusesStay | orchestrator/dao/transaction_history_dao.py:54-65 | ORDER_CANCELED is never left |
| TransactionHistory.ProcessedFirstIsNeverCanceled | orchestrator/services/order_service.py:549-555 | an order first stored as processed or failed in processing is never canceled |
| TransactionHistory.SweepsStayJustified | orchestrator/dao/transaction_history_dao.py:43-52 | what a sweep has selected stays old enough and cancellable or canceled |
| TransactionHistory.CanceledForAReason | orchestrator/services/order_service.py:549-570 | whatever is canceled was sixteen minutes old or more at the SELECT, or named and in one of two statuses |
| TransactionHistory.SelectedAreCanceled | orchestrator/services/order_service.py:551-554 | whatever happens between SELECT and UPDATE, every selected order ends up canceled |
| TransactionHistory.ProcessedOrderIsCanceled | orchestrator/dao/transaction_history_dao.py:20 | an order paid and processed a minute after its initiation is canceled by the next sweep |

## Left out

- Foreign calls: AWS, SQL drivers, gRPC, web3, IPFS, PayPal's HTTP interface, mail and OpenSearch are reduced to the answers they may give.
- EndpointRuns.NoStarvation: check times are taken as non-null; MySQL sorts null ones first.
- EndpointHealth.ServiceStatus.GetServiceEndpointData: the regular expression for private addresses and the curated flag are one Boolean per row, fixed during a sweep.
- EndpointHealth.ServiceStatus.CheckEndpoint: several log rows of one service are told apart by endpoint row, which the log table does not store.
- ProjectionConvergence.QuietChannelAgrees: delivery is in order and channels are never removed from the chain; reads of the chain return its current state.
- AssetTheorems.UpdateEffect: asset types keep their shape between updates, hash names contain no underscore, keys survive as URLs, and a service's metadata has no entry named like the column for its hashes; without these the code indexes a string as a list or lets two types share a key.
- AssetSharing.OthersDoNotMatter: names of organizations and services and asset types are taken as free of `/`, all entities share one prefix, and updates are applied one at a time.
- ObjectUrls.UrlRoundTripIff: only https URLs and the characters of bucket names are considered, and lower-casing is that of ASCII.
- Membership.OrganizationEventConsumer.UpdateOrgMembers: rows of one organization are taken as unique by username and role. A deletion that raises is not modelled by itself; it leaves what a raise of the first member's upsert leaves.
- MembershipTheorems.OwnerStoredIff: a null username, which SQL never finds equal, is not modelled.
- TokenCache.FetchBound: requests are handled one at a time; two at once may both miss and fetch.
- Signatures, hashing and the current block's source are not part of the token cache; blocks are given.
- Money.TotalError: amounts are exact fractions; the rounding of binary floating-point prices before the conversion is not modelled.
- Payments.OrderManager.ExecutePaymentAgainstOrder: requests on one payment are atomic; the code takes no row lock. A commit that fails after the gateway took the money has the effect of an answer that was lost.
- OrderSaga.OrderService.Execute: missing keys in stored item details, and a history insert that raises, are not modelled.
- OrderSaga.OrderService.Initiate: the lookups of a group's payment address and of a user's channel are answers; the wallet listing behind the second is left out.
- SagaRuns.Conservation: a price that converts to less than one cog, or is not in USD, is worth nothing.
- TransactionHistory.StatusIsFirstOrCanceled: `order_id` is taken as the unique key of the history; the table's declaration is not part of this model.
- Catalogue.EventConsumers.StoreServiceData: assets are a value (the synchroniser is modelled on its own), and the deployment of stubs and demo components after a model change is left out.
- Grouping of channels by organization, request schemas, response formatting, settings and migrations: true but easy.
