# Message materialization of a Farcaster hub indexer, in Dafny

This project models the part of the indexer that turns one decoded hub
message into one write on the application database. The indexer is a
TypeScript service built on the Farcaster "shuttle" library.

- `MessageWriter.writeMessage` classifies a message by a fixed chain of
  shape predicates. It then calls one model object:
  - cast adds are written only in state `created`;
  - cast removes are written only in state `deleted`;
  - reactions, links, user data and verifications are written in any state;
  - any other shape throws.
- Five model objects each own one table, and each uses its own SQL conflict rule:
  - `casts`: plain insert;
  - `reactions` and `links`: `ON CONFLICT (hash) DO NOTHING`;
  - `verifications`: `ON CONFLICT (fid, signerAddress) DO NOTHING`;
  - `userDatas`: `ON CONFLICT (fid, type) DO UPDATE SET value`;
  - every `deleteOne`: `UPDATE … SET deletedAt … WHERE hash = message.hash`.
- The application glue covers four things:
  - the `isNew` gate in front of the writer;
  - the shard key;
  - the backfill jobs: batches of ten fids, then a completion marker;
  - the reconcile callback: replay a missing message, only log a pruned or revoked one.

## Layout

| file | module | models |
|---|---|---|
| `protocol.dfy` | `Protocol` | messages, bodies, type codes, shape predicates, time conversions |
| `table.dfy` | `Table` | one table as a sequence of rows; insert, insert-or-ignore, insert-or-update, UPDATE … WHERE |
| `db.dfy` | `Db` | the five record types, their conflict keys, the `AppDb` class standing for the database handle the writer receives (one `seq` field per table) |
| `casts.dfy` … `verifications.dfy` | `CastsModel` … `VerificationsModel` | the row builders, the table after each statement, and the model classes whose methods reassign their table |
| `messages.dfy` | `Messages` | the classifier, `Write` (writeMessage on table contents) and the `MessageWriter` class |
| `app.dfy` | `App` | `HandleMessageMerge`, `ShardKey`, the backfill plan and `BackfillFids`, `Decide` and `ReconcileFids` |

Each mutating method is specified by a pure function of the old table:
`ensures appDb.links == AfterDeleteOne(old(appDb.links), …)`. The
properties are proved about those functions.

## Behaviour worth noting

- Every `deleteOne` selects rows with `WHERE hash = message.hash`, where the
  hash is the remove message's own hash. The row of the removed cast, link
  or verification was stored under its add message's hash, so it keeps a
  null `deletedAt` (`CastsModel.DeleteOneMissesTarget`).
- A remove that arrives before its add changes no row. The add that comes
  later creates a row with a null `deletedAt`
  (`LinksModel.RemoveBeforeAddLeavesRowLive`).
- The reactions and links inserts ignore a conflict on `hash` alone.
- A userData add overwrites the stored value without comparing timestamps,
  so the add applied last wins (`UserDatasModel.LastAddWins`).
- The verification soft-delete has no current-time fallback. When the
  conversion yields null, `deletedAt` is set to null.
- A reaction-remove reaches a `deleteOne` that the reactions model does not
  define. The call fails and no table changes (`Messages.ReactionRemoveFails`).
- An unknown shape is a hard failure that carries the message's type code.

## Model

| member | source | states |
|---|---|---|
| `Table.InsertOrIgnore` | src/db/models/Links.model.ts:36-40 | an insert with DO NOTHING keeps every existing row. It adds one row exactly when no row has the conflict key, and afterwards the key is present |
| `Table.Update` | src/db/models/Casts.model.ts:41-47 | an UPDATE … WHERE rewrites exactly the matching rows and leaves every other row unchanged |
| `Table.SoftDelete` | src/db/models/Casts.model.ts:41-47 | the soft-delete changes no record and no row count. It sets `deletedAt` exactly on the rows whose hash matches |
| `Table.InsertOrUpdate` | src/db/models/UserDatas.model.ts:28-36 | the upsert appends the record when its key is absent. Otherwise it merges into the rows with that key and keeps their `deletedAt` |
| `Table.InsertKeepsUnique` | src/db/models/Casts.model.ts:35-39 | a plain insert of an absent key keeps the key unique |
| `Table.InsertOrIgnoreKeepsUnique` | src/db/models/Reactions.model.ts:52-56 | an insert that ignores conflicts keeps its conflict key unique |
| `Table.InsertOrIgnoreIdempotent` | src/db/models/Reactions.model.ts:52-56 | applying an insert-or-ignore twice equals applying it once |
| `Table.SoftDeleteKeepsUnique` | src/db/models/Verifications.Model.ts:43-49 | a soft-delete keeps every unique key unique |
| `Table.SoftDeleteIdempotent` | src/db/models/Links.model.ts:43-49 | applying a soft-delete twice equals applying it once |
| `Table.SoftDeleteMissingHash` | src/db/models/Links.model.ts:43-49 | a soft-delete on a hash that no row has leaves the table unchanged |
| `CastsModel.FormatCastAddMessage` | src/db/models/Casts.model.ts:17-34 | the row takes fid, hash, text, timestamp, parentUrl, embeds, mentions and mention positions from the message. parentFid and parentHash come from parentCastId and are absent when it is absent |
| `CastsModel.AfterInsertOne` | src/db/models/Casts.model.ts:35-39 | the insert adds exactly one row, built from the message, and leaves every earlier row unchanged |
| `CastsModel.AfterDeleteOne` | src/db/models/Casts.model.ts:40-49 | deleteOne sets `deletedAt` only on rows with the remove's hash. The value is the converted remove time, or `now` when conversion yields nothing. No record and no other row changes |
| `CastsModel.InsertOneKeepsUnique` | src/db/models/Casts.model.ts:35-39 | inserting a new hash keeps one row per hash |
| `CastsModel.DeleteOneIdempotent` | src/db/models/Casts.model.ts:40-49 | two equal deletes with the same `now` give the same table as one |
| `CastsModel.DeleteOneWithoutMatch` | src/db/models/Casts.model.ts:40-49 | deleteOne never creates a row. With no matching hash, the table is unchanged |
| `CastsModel.DeleteOneMissesTarget` | src/db/models/Casts.model.ts:46 | the row of the removed cast (the body's target hash) is untouched when the remove's own hash differs from it |
| `CastsModel.Casts.InsertOne` | src/db/models/Casts.model.ts:35-39 | the method requires a new hash and changes only the casts table, to `AfterInsertOne` |
| `CastsModel.Casts.DeleteOne` | src/db/models/Casts.model.ts:40-49 | the method changes only the casts table, to `AfterDeleteOne` |
| `ReactionsModel.FormatReactionAddMessage` | src/db/models/Reactions.model.ts:34-48 | the row takes fid, type, hash and targetUrl from the message. targetCastFid and targetCastHash come from targetCastId and are absent when it is absent |
| `ReactionsModel.AfterInsertOne` | src/db/models/Reactions.model.ts:49-57 | a known hash leaves the table, `deletedAt` included, unchanged. A new hash appends exactly one row |
| `ReactionsModel.InsertOneRepeated` | src/db/models/Reactions.model.ts:52-56 | applying insertOne n ≥ 1 times equals applying it once |
| `ReactionsModel.InsertOneKeepsUnique` | src/db/models/Reactions.model.ts:55 | the table keeps at most one row per hash |
| `ReactionsModel.Reactions.InsertOne` | src/db/models/Reactions.model.ts:49-57 | the method changes only the reactions table, to `AfterInsertOne` |
| `LinksModel.DisplayTimestamp` | src/db/models/Links.model.ts:26-28 | displayTimestamp is null exactly when the body's value is absent or zero. Otherwise it is the converted time |
| `LinksModel.FormatLinkAddMessage` | src/db/models/Links.model.ts:17-32 | the row takes fid, targetFid, type, hash and timestamp from the message, and the display timestamp above |
| `LinksModel.AfterInsertOne` | src/db/models/Links.model.ts:33-41 | a known hash leaves the table unchanged, so a soft-deleted row stays soft-deleted. A new hash appends exactly one row |
| `LinksModel.AfterDeleteOne` | src/db/models/Links.model.ts:42-51 | deleteOne sets `deletedAt` only on rows with the remove's hash, using the now-fallback. No other field or row changes |
| `LinksModel.InsertOneIdempotent` | src/db/models/Links.model.ts:36-40 | applying the same add twice equals applying it once |
| `LinksModel.InsertOneKeepsUnique` | src/db/models/Links.model.ts:39 | the table keeps at most one row per hash |
| `LinksModel.DeleteOneIdempotent` | src/db/models/Links.model.ts:42-51 | two equal deletes with the same `now` give the same table as one |
| `LinksModel.DeleteOneWithoutMatch` | src/db/models/Links.model.ts:42-51 | deleteOne never creates a row |
| `LinksModel.RemoveBeforeAddLeavesRowLive` | src/db/models/Links.model.ts:33-51 | a remove applied before its add is lost, whatever else the table holds. The add then creates a row with null `deletedAt` |
| `LinksModel.Links.InsertOne` | src/db/models/Links.model.ts:33-41 | the method changes only the links table, to `AfterInsertOne` |
| `LinksModel.Links.DeleteOne` | src/db/models/Links.model.ts:42-51 | the method changes only the links table, to `AfterDeleteOne` |
| `UserDatasModel.FormatUserDataAddMessage` | src/db/models/UserDatas.model.ts:11-24 | the row takes fid, type, hash, value and timestamp from the message |
| `UserDatasModel.AfterInsertOne` | src/db/models/UserDatas.model.ts:25-37 | a new (fid, type) appends one row built from the message. For a known key only `value` changes, to the incoming value; fid, type, hash, timestamp and `deletedAt` stay. Afterwards the key is present |
| `UserDatasModel.InsertOneKeepsUnique` | src/db/models/UserDatas.model.ts:31-35 | the table keeps at most one row per (fid, type) |
| `UserDatasModel.LastAddWins` | src/db/models/UserDatas.model.ts:31-35 | of two adds for one key, the one applied last sets the value, whatever the timestamps. The second add creates no row |
| `UserDatasModel.InsertOneIdempotent` | src/db/models/UserDatas.model.ts:28-36 | applying the same add twice equals applying it once |
| `UserDatasModel.UserDatas.InsertOne` | src/db/models/UserDatas.model.ts:25-37 | the method changes only the userDatas table, to `AfterInsertOne` |
| `VerificationsModel.FormatVerificationAddAddressMessage` | src/db/models/Verifications.Model.ts:17-31 | address becomes signerAddress and claimSignature becomes signature. blockHash, fid, hash and timestamp are copied |
| `VerificationsModel.AfterInsertOne` | src/db/models/Verifications.Model.ts:33-41 | a known (fid, signerAddress) leaves the table unchanged, whatever the hash. A new key appends exactly one row |
| `VerificationsModel.AfterDeleteOne` | src/db/models/Verifications.Model.ts:42-51 | rows with the remove's hash get the converted remove time, null included, with no fallback. No other field or row changes |
| `VerificationsModel.InsertOneKeepsUnique` | src/db/models/Verifications.Model.ts:39 | the table keeps at most one row per (fid, signerAddress) |
| `VerificationsModel.InsertOneDropsNewHashForKnownKey` | src/db/models/Verifications.Model.ts:39 | an add for a known key under a new hash is dropped, so its hash is stored nowhere |
| `VerificationsModel.DeleteOneIdempotent` | src/db/models/Verifications.Model.ts:42-51 | applying the same delete twice equals applying it once |
| `VerificationsModel.DeleteOneWithoutMatch` | src/db/models/Verifications.Model.ts:42-51 | deleteOne never creates a row |
| `VerificationsModel.Verifications.InsertOne` | src/db/models/Verifications.Model.ts:33-41 | the method changes only the verifications table, to `AfterInsertOne` |
| `VerificationsModel.Verifications.DeleteOne` | src/db/models/Verifications.Model.ts:42-51 | the method changes only the verifications table, to `AfterDeleteOne` |
| `Messages.Classify` | src/Message.ts:34-65 | the branch taken satisfies its shape predicate. Unknown is taken only when no predicate holds |
| `Messages.ClassifyIsTheMatchingShape` | src/Message.ts:34-64 | the branch is k exactly when k's predicate holds. At most one predicate holds, so the order of the chain does not matter |
| `Messages.Write` | src/Message.ts:33-77 | writeMessage fails exactly on a reaction-remove or a message that matches no shape, and a failure changes no table. The unmapped-type error is raised exactly when no shape predicate holds |
| `Messages.WriteRoutesByFamily` | src/Message.ts:44-64 | whatever the state, a reaction-add, link-add, link-remove, user-data-add, verification-add or verification-remove succeeds and leaves every table as it was except its own, which becomes that model's insertOne or deleteOne result |
| `Messages.CastAddIsGatedOnCreated` | src/Message.ts:34-38 | a cast-add changes the casts table, by exactly the insert, only in state created. In any other state nothing changes |
| `Messages.CastRemoveIsGatedOnDeleted` | src/Message.ts:39-43 | a cast-remove soft-deletes only in state deleted. Otherwise nothing changes |
| `Messages.OtherFamiliesIgnoreState` | src/Message.ts:44-64 | every message other than a cast-add or cast-remove has the same effect in both states |
| `Messages.WriteTouchesOneTable` | src/Message.ts:34-64 | every table other than the one of the branch taken is unchanged |
| `Messages.UnknownShapeFails` | src/Message.ts:65-77 | a message matching no predicate fails with its type code, and no table changes |
| `Messages.ReactionRemoveFails` | src/Message.ts:47-49 | a reaction-remove fails without changing any table, because the reactions model has no deleteOne |
| `Messages.OnlyAddAddressReachesVerificationInsert` | src/Message.ts:59-61 | a verification-add type code without an address body is not inserted. It fails as unmapped |
| `Messages.WriteKeepsValid` | src/Message.ts:33-78 | every write keeps one row per conflict key in every table, given that a cast insert brings a new hash |
| `Messages.UserDatasAreNeverSoftDeleted` | src/db/models/UserDatas.model.ts:38-48 | no message changes the `deletedAt` of a userDatas row: that table has no delete |
| `Messages.MessageWriter.WriteMessage` | src/Message.ts:33-78 | the method leaves the tables as `Write` gives them and returns its outcome |
| `App.ShardKey` | src/app.ts:79 | the key is "all" exactly when totalShards is 0. Otherwise it is a string of decimal digits with no leading zero that denotes the shard index, which by `App.DecimalRenderingIsUnique` is exactly its decimal rendering |
| `App.DecimalString` | src/app.ts:79 | a number renders as decimal digits with no leading zero |
| `App.DecimalRoundTrip` | src/app.ts:79 | reading the rendering back gives the number |
| `App.DecimalRenderingIsUnique` | src/app.ts:79 | a digit string with no leading zero is the rendering of the number it denotes, so no other string, such as a zero-padded one, renders that number |
| `App.ShardKeysAreDistinct` | src/app.ts:79 | with sharding on, distinct shard indices give distinct keys |
| `App.HandleMessageMerge` | src/app.ts:100-122 | a message that is not new changes nothing. A new one applies `Write` exactly once, with the given state |
| `App.BackfillQueue.Add` | src/app.ts:211 | adding a job appends it to the queue |
| `App.BackfillFids` | src/app.ts:184-218 | the queue grows by exactly the backfill plan. On an error nothing is enqueued and the error is returned; with `App.BackfillHubFailure`, a failed hub query is such an error |
| `App.NumBatchesIsCeiling` | src/app.ts:204-208 | for a positive maximum m, the batch count n satisfies 10(n−1) < m ≤ 10n |
| `App.InBatch` | src/app.ts:210 | a batch holds exactly the ten consecutive fids from its start |
| `App.BackfillJobsForMaxFid` | src/app.ts:204-216 | with no fid list and maximum m > 0, there are ceil(m/10) reconcile jobs, job i carries exactly the fids 10i+1, …, 10i+10 in that order, and the completion marker follows |
| `App.BatchesCoverOneToMax` | src/app.ts:205-210 | every fid 1 … m is in some batch, and every batch fid lies in 1 … m+9 |
| `App.BatchesAreDisjoint` | src/app.ts:205-210 | two different batches share no fid |
| `App.BackfillExplicitFids` | src/app.ts:213-216 | a non-empty fid list becomes one reconcile job carrying that list unchanged, then the marker |
| `App.CompletionMarkerIsLast` | src/app.ts:216 | in every plan, the completion marker is the last job and every earlier job is a reconcile job |
| `App.BackfillHubFailure` | src/app.ts:186-194 | with no fid list, a failed `getFids` query is the plan's error, before any maximum is chosen, so no job is enqueued |
| `App.MaxFidChoice` | src/app.ts:195-201 | a configured MAX_FID overrides the hub's fid. Without one, the hub's first fid is the maximum. The maximum is missing exactly when it is 0 or undefined, and then the plan fails before any job |
| `App.Decide` | src/app.ts:160-178 | a message is replayed exactly when it is missing, and missing takes priority. A message that is not missing but is pruned or revoked is only logged, as "pruned" or "revoked" |
| `App.ReplaysAreMissing` | src/app.ts:160-166 | for one fid, a message is replayed exactly when one of its entries flags it missing |
| `App.ReplaysForAreMissing` | src/app.ts:157-181 | over a fid list, the replayed messages are exactly those that some fid's entries flag missing |
| `App.ReconcileFids` | src/app.ts:151-182 | the loop replays, in order, exactly the messages of `ReplaysFor` |

## Left out

- Hub subscriber, stream consumer, Redis, hub client and BullMQ worker (src/app.ts:66-98, 134-149, 275-297): these are network and queue plumbing inside `@farcaster/shuttle`, BullMQ and the project's worker module. The hub's `getFids` answer is a parameter of `BackfillFids`.
- Fire-and-forget `processHubEvent`, the ten-second sleep, `start` and `stop`: these are concurrency and timing, not state logic.
- `ensureMigrations` and `migrateToLatest` (src/db/db.ts): they run the migrations, which are not modelled.
- `fromFarcasterTime`, `farcasterTimeToDate` and `new Date()`: they live in `@farcaster/core` and the project's utils module, which are not modelled. The two conversions are the parameter `TimeConversion` and the current time is the parameter `now`. The error path of `_unsafeUnwrap` is not modelled, because the conversion is taken to be total.
- The shape predicates `isCastAddMessage` and the others come from `@farcaster/core`, which is not part of this model. Each is modelled as a type-code check plus a body-variant check; the signature-scheme check is not modelled.
- The JSON encoding of embeds, mentions and mention positions, and `bytesToHexString`: stored values are kept as they are.
- The columns the database generates (`id`, `createdAt`, `updatedAt`) are not modelled.
- `HubEventProcessor.handleMissingMessage` and `MessageReconciliation` (in the shuttle library) are not part of this model. `ReconcileFids` takes the per-fid entries as a function and returns the messages handed to the replay path. So the end-to-end "reconciliation convergence" of the local store is not stated.
- Parsing `BACKFILL_FIDS` and `MAX_FID` with `parseInt`: the fid list and the configured maximum are taken already parsed. A NaN maximum is not represented; it behaves like 0.
- Logging, the command-line program and environment configuration.
- `App.ReconcileFids`: each fid's reconcile entries are taken as reported before the loop starts. In the code each `reconcileMessagesForFid` call compares against the store as it is then, and a replay stores the message it replays. So for a fid listed twice the model replays a missing message twice, where the code's second pass would find it present.
- `App.ShardKey`: the shard index is taken to be a natural number. The template literal would also render a negative index such as "-1", which the model does not represent.
- Checkpointing and shard cursor management: they live in the shuttle library.
- `CastsModel.Casts.InsertOne`: the requirement that the hash is new stands for the unique constraint of the casts table, which lives in the migrations, which are not modelled. The failure such a constraint would raise is not modelled.
- Each model object reassigns its whole table in one step. Transactions and concurrent writers are not modelled.
