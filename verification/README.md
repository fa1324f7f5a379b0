# Coggo in Dafny

Coggo keeps each peer's data as an append-only event log and answers queries from entity and relation tables that
every write updates right after logging its event. Those tables are a cache: folding the log must give them back.
This project models the store, the federation handler and the router as one imperative state machine and proves what
every run keeps: the cache agrees with the log, time travel agrees with the live query, and peers do not see one
another. Around that core it models the parts of the program with the hardest arithmetic and loops: did:key
identifiers in base58btc, timestamp texts used as sort keys, the per-email rate limiter, over-fetching semantic
search, type rehydration at start-up, JSON projection, bearer tokens, the peer registry and the cross-peer query.

## How it is organised

| files | what they hold |
|---|---|
| `Types`, `Requests`, `Sequences`, `Texts` | entities, events, queries; the calls a peer answers and what each write builds; small shared notions |
| `EventLog`, `Ranking`, `Queries` | the replay fold, the sort orders, and the listings as functions of log and tables |
| `Shared` | the binary as one state machine: one log and one set of tables for all peers, which join, call and survive restarts |
| `Private` | the reference semantics of one peer, with no peer checks at all |
| `Contracts`, `SharedContracts`, `TypeContracts` | what every call changes and answers in the words of its request; relations and types over whole runs in the words of the calls that made them |
| `Isolation` | the shared machine refines the private one of each peer; non-interference |
| `Replay`, `RelationReplay`, `Cache`, `FieldHistory` | rows against replay, with and without storage failures; rows against the calls that were made |
| `TimeTravelRefinement` | time travel against the live query |
| `Interleaving`, `Adequacy` | handler operations split into their store steps and interleaved by any number of clients; undisturbed, the steps are the operation |
| `Schedules`, `WholeRows`, `ApartRuns`, `RelationSchedules` | exactly which interleavings keep the data of rows, whole rows and relations in agreement with replay |
| `LostWrites` | what overlapping calls lose |
| `Store`, `Federation` | the store, resolver, handler and router as objects updated in place, each method proved against the functions above |
| `Definitions`, `Rehydration`, `Runtime` | type definitions stored as entities, what a run stores and a start recalls, start-up, adding a peer |
| `Radix`, `DidKey` | positional notation; base58btc and did:key |
| `TimeText`, `TextListing` | RFC 3339 texts in UTC and their byte order; the event listing and the replay as that order has them |
| `RateLimit` | token buckets with a reaping sweep |
| `SemanticSearch`, `Projection` | filtering after a nearest-neighbour query; field allowlists |
| `Registry`, `Tokens`, `CrossPeer`, `Access` | peers by name and DID; tokens; the authorised query over several peers; what tokens open as names change hands |

## Reading the model

Identifiers are numbers because the code uses only their order; 0 is the empty string. Clock readings, fresh
identifiers and storage failures are inputs of each call: identifiers strictly increase along a run, the clock never
goes back, and a failure may hit the append or the row write of any call. Payloads are the JSON trees that were
marshalled. A nil map and an empty map are told apart where the code does.

`Shared.Step` is what one call does to the whole binary: a message routed to a peer, a seeding, a peer that joins, or a
restart, which keeps the tables and rebuilds handlers and types from them. Runs of these calls are what the theorems
about runs range over. They begin with empty tables: a process opened on existing ones is a restart within a run, and a
crash is a failing write followed by a restart. The classes in `Store` and `Federation` are written
in the order of the Go code and proved to make exactly these steps, so every statement about runs of `Shared` is a
statement about those objects. What those steps do is said once more in `Contracts`, clause by clause in terms of the
request alone and without the functions that build entities, relations, definitions and listings.

## What came out

- Replay predicts every row exactly, `updated_at` included: it is the fold's, except that after an archive it is the
  archive time, because archiving stamps the row (`internal/store/sqlite.go:344`) and the fold does not
  (`internal/store/sqlite.go:766-783`). The rows replay does not know are exactly the type definitions no update has
  touched since.
- Time travel lists what the live query listed at the time if and only if that listing shows no such definition. Earlier
  storage failures do not matter as long as none of the entities they left stale is selected.
- Interleaved clients keep every safety property but not the agreement of rows with replay. What they can differ in, in
  the states of all interleaved runs, is exactly this. The origin of an entity never differs. Its data differ unless the
  latest logged snapshot by timestamp and id, and the last finished row write, belong to one call or carried equal data.
  Its archive time and the time of its last touch differ unless the ones traced through the listing are those that the
  last finished write or stamp of the row brought. A relation differs unless the last finished write or deletion left
  what the last listed creation or dissolution leaves.
- In runs in which calls begin in the order of their clock readings and no logged write fails or is abandoned, data agree
  when no update overlaps another write of its row, whole rows when no creation, update or archive of one row overlaps
  another, and relations when the changes of one relation do not overlap; serial runs are all of these. Overlapping calls
  do lose something, from every state of every run in that order: crossing updates lose one of the two, an update that
  straddles an archive leaves the row unarchived, and a relation dissolved before its row is written stays in the table.
- Timestamp texts sort as time does except within one second, when one fraction is the beginning of the other; then
  they sort the other way round. A whole second sorts after every later instant of that second. So the event listing of
  the database is the listing by time if and only if no two listed events clash in this way and no bound misplaces an
  event; an update that clashes with the creation before it is replayed first and lost.
- Reaping idle rate-limit buckets goes unnoticed if and only if a bucket refills within the shortest idle time after
  which it can be reaped; the defaults qualify. Then a request is refused if and only if one more admission would exceed,
  in the window since some earlier action, a burst and what flows in meanwhile. Letter case is ignored, and the requests
  of other emails never matter.
- A restart registers stored definitions newest first, so the oldest of the newest fifty wins, while the live resolver
  holds the latest. The restart restores the live types if and only if, name by name, the last definition since the
  last start is the first of the newest fifty stored ones, or the seed. So it loses redefinitions, the oldest types
  beyond fifty, and types whose storage failed after the resolver had learnt them.
- Projecting a reply twice is projecting it once if and only if the first projection settles it: an entity keeps some of
  its data, or else its kept metadata is fixed; a type definition keeps both name and fields, or else its kept members
  are fixed. A type described by its fields alone changes again exactly when the default of a field is not fixed.
- Tokens are kept by name and names can be given away: a secret opens exactly the peers whose present name its token
  lists, so two renames hand it from one peer to another.
- Updating a missing row dereferences nil before anything is written (`internal/federation/handler.go:257-261`); the
  model answers `Panicked` and changes nothing.
- `docs/SCHEMA.md:58` says an `EntityUpdated` payload carries the changed fields; the code logs the whole entity
  (`internal/federation/handler.go:267-276`), and the model follows the code.

## Model

| member | source | states |
|---|---|---|
| `EventLog.FoldRelationsMeaning` | internal/store/sqlite.go:438-487 | replaying relations leaves a relation standing if and only if some event created it and no later event created its id again or dissolved it |
| `Ranking.RankUnique` | internal/store/sqlite.go:408-412 | a listing ordered by creation time and id, newest first, is determined by the set of rows it lists |
| `Ranking.RankOfPart` | internal/store/sqlite.go:788-813 | ranking the rows a filter keeps is filtering the ranking of all rows |
| `Ranking.TakeKeep` | internal/store/sqlite.go:815-821 | truncating before or after a filter gives the same listing exactly when the truncated listing passes the filter |
| `Ranking.SortEventsSorts` | internal/store/sqlite.go:236-246 | the order of ListEvents is a sorted permutation of the log by timestamp and id |
| `Ranking.SortEventsStable` | internal/store/sqlite.go:236-246 | a log already in that order is listed as it is |
| `Queries.ListEventsAppend` | internal/store/sqlite.go:234-246 | appending an event inserts it into a peer's listing for a closed time range if it is that peer's and in range, and changes nothing otherwise |
| `Queries.EntityListing` | internal/store/sqlite.go:377-433 | the live query lists the peer's rows of the type and filters, archived ones only if asked for, newest first: at most the limit or, without a positive one, fifty, and a matching row is left out exactly when that many newer ones are listed |
| `Queries.RelationListing` | internal/store/sqlite.go:490-544 | likewise the relation query by endpoints and type |
| `Queries.TimeTravelListing` | internal/store/sqlite.go:786-823 | likewise time travel over the replayed entities, with the numbers of the caller's limit |
| `Queries.EventListing` | internal/store/sqlite.go:234-246 | an event is listed if and only if it is the peer's, not before `since` and not after `until` where these are given; by time and then id |
| `Requests.ValidateMeaning` | internal/schema/seed.go:146-188 | given values stay, a field not given takes the first default declared for it and nothing else is added; refused if and only if a required field is neither given nor defaulted before it is looked at |
| `Private.StepLogs` | internal/federation/handler.go:63-98 | one call logs at most one event, of the addressed peer and stamped with the call's time; only relation calls log relation events or touch relations |
| `Contracts.CreateMeets` | internal/federation/handler.go:201-250 | entity.create of a known type is refused as invalid if and only if a required field is neither given nor defaulted before it is looked at; otherwise the entity replied, logged and stored has each field as given, or else by its first default unless the map is nil, and the type, author, client, peer and times of the request |
| `Contracts.UpdateMeets` | internal/federation/handler.go:252-286 | entity.update changes the fields it names to the values it gives and the update time, and nothing else of the row; the whole row is logged |
| `Contracts.ArchiveMeets` | internal/federation/handler.go:288-311 | entity.archive stamps both times of the row it names and nothing else, or fails after logging |
| `Contracts.RelateMeets` | internal/federation/handler.go:315-354 | relation.create replies with, logs and stores a relation from, to and of the type of the request, with its data, the target peer and the time; a relation without an endpoint or a type is logged and not stored |
| `Contracts.DissolveMeets` | internal/federation/handler.go:368-391 | relation.dissolve deletes the relation it names, or fails after logging |
| `Contracts.DefineMeets` | internal/federation/handler.go:426-495 | type.define makes known, logs and stores a type with the name, description and fields of the request, for the target peer, directed only if it is a relation type declared so; the stored row reads back as that type, and the type is known even if it could not be stored |
| `Contracts.SeedMeets` | internal/cli/runtime.go:126-194 | seeding does the same with the seed as it is |
| `Contracts.ReadMeets` | internal/federation/handler.go:177-199 | reads answer with the rows, relations and types that the request selects |
| `Contracts.StepMeets` | internal/federation/handler.go:63-98 | so every call of a peer changes and answers exactly what its request says |
| `Isolation.RestartRefines` | internal/cli/runtime.go:67-102 | a restart of the binary is, for every peer, a restart of that peer alone |
| `Isolation.StepRefines` | internal/federation/router.go:31-75 | a call, a joining peer and a restart are steps of the private machine of every peer they concern, with the same reply, and invisible to every other peer |
| `Isolation.RunRefines` | internal/federation/handler.go:63-98 | over whole runs with joining peers and restarts, a peer sees its private machine run on the calls addressed to it and the restarts, replies included |
| `Isolation.NonInterference` | internal/store/sqlite.go:234-487 | deleting every call addressed to other peers changes neither a peer's log, rows, relations and types nor any of its replies |
| `Isolation.QueryIsLocal` | internal/store/sqlite.go:383-413 | a peer's query does not depend on other peers' rows |
| `Isolation.RelationQueryIsLocal` | internal/store/sqlite.go:490-544 | a peer's relation query does not depend on other peers' relations |
| `SharedContracts.CallMeets` | internal/federation/router.go:31-75 | the same through the shared tables, whatever other peers have in them |
| `SharedContracts.UsedIdsAreRefused` | internal/store/sqlite.go:196-230 | a call that draws an event id already logged, by whichever peer, changes neither log nor tables and does not succeed |
| `SharedContracts.PrivateRelations` | internal/federation/handler.go:315-391 | a relation stands exactly from the successful call that created it last until a successful dissolution, with the endpoints, type, data, author and time of that call |
| `SharedContracts.RelationsHoldRequests` | internal/federation/handler.go:315-391 | over runs of all peers with failures and restarts too |
| `SharedContracts.RelateThenList` | internal/federation/handler.go:315-366 | a relation just created comes first in a listing by any of its endpoints and its type |
| `SharedContracts.DefineThenDescribe` | internal/federation/handler.go:404-464 | a type just defined is described as it was declared |
| `SharedContracts.CreateThenList` | internal/federation/handler.go:201-250 | an entity just created comes first in the listing of its type |
| `Replay.CreateAgrees` | internal/federation/handler.go:201-250 | entity.create keeps each row and its replay in agreement, whichever of its two writes fails |
| `Replay.UpdateAgrees` | internal/federation/handler.go:252-286 | entity.update does, and a completed one brings a row unknown to replay, or left stale, back into agreement |
| `Replay.ArchiveAgrees` | internal/federation/handler.go:288-311 | entity.archive does, the row's updated time becoming the archive time |
| `Replay.DefineAgrees` | internal/federation/handler.go:426-495 | type.define writes a row that replay does not know of |
| `Replay.StepCoherent` | internal/federation/handler.go:63-98 | every call keeps rows, replay and the marks of failed writes in agreement, and the log sorted |
| `Replay.RunCoherent` | internal/store/sqlite.go:730-785 | a whole run from empty tables keeps them, with any failures and restarts |
| `Replay.DefinitionsMeaning` | internal/store/sqlite.go:747-752 | the rows excused from replay are exactly those a definition wrote and no logged update touched since |
| `Replay.StaleMeaning` | internal/federation/handler.go:243-311 | a part of an id is marked stale if and only if some call logged it and failed on the row, and no later call logged it again |
| `Replay.MarkedCanAgree` | internal/federation/handler.go:264-311 | a marked row can be exact all the same: after an update without changes that failed on the row, and an archive |
| `RelationReplay.RelateKeeps` | internal/federation/handler.go:315-354 | relation.create keeps the relation table and the replay of relation events in agreement, also when the store refuses a relation without endpoints |
| `RelationReplay.DissolveKeeps` | internal/federation/handler.go:368-391 | relation.dissolve does, also for ids that are unknown or belong to another peer |
| `RelationReplay.RunKeeps` | internal/store/sqlite.go:438-487 | a whole run does |
| `Cache.RunsAgree` | internal/federation/handler.go:26-28 | in the shared tables, after any run with any failures, joining peers and restarts, every peer's rows, relations, replay and marks agree |
| `Cache.ReplayEqualsRows` | internal/store/sqlite.go:730-785 | without failures each replayed entity is exactly its row, the rows replay lacks are exactly the never-updated definitions, and the relation table is exactly the replayed relations with endpoints and type |
| `Cache.ReplayDespiteFailures` | internal/federation/handler.go:243-248 | with failures anywhere, every id whose last write did not fail still has its row predicted exactly |
| `Cache.UpdateHeals` | internal/federation/handler.go:264-284 | a completed update makes the replayed data of its entity equal to the row's again, whatever failed before, also when a crash and a restart lie between |
| `Cache.FailureTouchesNoTable` | internal/federation/handler.go:243-248 | a call whose append or row write fails changes no table and logs at most its own event |
| `Cache.CrashCut` | internal/federation/handler.go:26-28 | stopping anywhere inside the last call of a run leaves the tables equal to the replay of the log, or of the log without its last event |
| `FieldHistory.PrivateHistory` | internal/federation/handler.go:252-286 | a row exists once created; each field holds the value last given, by a later successful update naming it or else by the creating request, whose first defaults fill the fields it does not name unless its map is nil; and its archive time is that of the last successful archive |
| `FieldHistory.RowsHoldLastWrites` | internal/federation/handler.go:201-311 | the same for every peer of the shared tables, whatever other peers do, whichever calls fail and however often the binary restarts |
| `TimeTravelRefinement.FiltersAgree` | internal/store/sqlite.go:850-865 | on scalar fields the fold's JSON comparison with a string agrees with the SQL filter |
| `TimeTravelRefinement.LogAsOf` | internal/store/sqlite.go:724-728 | the events up to an instant are the log as it stood before the first later call |
| `TimeTravelRefinement.TimeTravelRefinesQuery` | internal/store/sqlite.go:724-823 | where no stale entity is selected, time travel to an instant lists what the live query listed then, in the same order and with the same truncation, if and only if that listing shows no never-updated type definition |
| `TimeTravelRefinement.ReliableSpares` | internal/store/sqlite.go:730-785 | without failing writes no stale entity is ever selected |
| `TimeTravelRefinement.TimeTravelByType` | internal/store/sqlite.go:377-433 | so for every type but the two definition types, every limit, archive setting and string filter over scalars |
| `Interleaving.NextKeeps` | internal/federation/handler.go:201-391 | each single store step of any client, of entity, relation and definition calls alike, keeps the invariant of interleaved runs |
| `Interleaving.RunKeeps` | internal/federation/handler.go:243-248 | so does every interleaving, and the log only grows |
| `Interleaving.InterleavedSafety` | internal/store/sqlite.go:104-113 | in every interleaving each row's data is what some logged event of its peer records, each archived row has its archive logged, each relation its creation, and no two copies of an entity, at any times, differ in type, peer or creation metadata |
| `Adequacy.ScriptIsDispatch` | internal/federation/handler.go:63-98 | an operation whose steps are undisturbed leaves log, tables and types as the shared machine does, whichever of its writes fails |
| `Adequacy.SerialIsExec` | internal/federation/handler.go:63-98 | so the serial schedule of a run is the run |
| `Schedules.FoldData` | internal/store/sqlite.go:730-785 | an id is replayed if and only if a snapshot of it is listed, with the data of the last one |
| `Schedules.LatestIsGreatest` | internal/store/sqlite.go:236-246 | and that is the greatest by timestamp and id among the peer's logged snapshots of it |
| `Schedules.WritersMeaning` | internal/federation/handler.go:276-284 | the recorded writer of a row is the call that last finished a row write in the schedule |
| `Schedules.AgreementBySchedule` | internal/federation/handler.go:252-286 | in every state of every interleaved run replay and table agree on the data of an id if and only if the latest snapshot and the last finished row write belong to one call or carried equal data |
| `Schedules.OrderlyRunsAgree` | internal/federation/handler.go:252-286 | they agree on the data of every logged id that no call is about to write when no update overlaps another write of its row |
| `WholeRows.FoldTrace` | internal/store/sqlite.go:730-783 | a replayed entity has the archive time its listing traces: brought by a creating or adopting snapshot, kept by updates, set by notices |
| `WholeRows.FoldTouch` | internal/store/sqlite.go:730-783 | and the update time that replay predicts is that of the last snapshot or effective notice |
| `WholeRows.TraceMeaning` | internal/store/sqlite.go:282-355 | a row has the archive and update time of the last finished write or stamp of it in the schedule that the table took |
| `WholeRows.ArchivesBySchedule` | internal/federation/handler.go:252-311 | in every state of every interleaved run the archive times of an entity both replayed and stored agree if and only if the listing traces the one that the last finished write or stamp brought |
| `WholeRows.FoldOrigin` | internal/store/sqlite.go:730-764 | the origin of a replayed entity is always the recorded one |
| `WholeRows.RowsBySchedule` | internal/federation/handler.go:201-311 | the whole row is the one replay predicts if and only if the latest snapshot and the last row write carried equal data and listing and schedule trace the same times |
| `ApartRuns.ApartRunsAgree` | internal/federation/handler.go:201-311 | when no creation, update, archive or definition of one row overlaps another, every replayed entity that no call is about to change has exactly the row that replay predicts |
| `RelationSchedules.FoldRelationsLast` | internal/store/sqlite.go:438-487 | replaying relations leaves one exactly if its last listed event is a creation, and then that one |
| `RelationSchedules.RelationMeaning` | internal/store/sqlite.go:438-487 | the table holds the relation of the last finished write unless a deletion that the table took finished since |
| `RelationSchedules.RelationsBySchedule` | internal/federation/handler.go:315-391 | in every state of every interleaved run table and replay agree on a relation if and only if the last finished change left what the last listed one leaves |
| `RelationSchedules.DisjointRunsAgree` | internal/federation/handler.go:315-391 | they agree on every relation that no call is about to change when changes of one relation do not overlap |
| `RelationSchedules.HastyDissolutionIsLost` | internal/federation/handler.go:315-391 | a dissolution between the logging and the writing of a creation is the last event logged and leaves the row |
| `LostWrites.SerialRunsAgree` | internal/federation/handler.go:243-248 | in particular when calls do not overlap at all, where the interleaved machine holds what the shared one does, every replayed entity has exactly the row that replay predicts |
| `LostWrites.RunsStayCurrent` | internal/federation/handler.go:252-311 | in every run whose calls begin in the order of their clock readings, however they overlap and fail, nothing is logged or about to be with a later stamp or id than the last call begun |
| `LostWrites.CrossingUpdatesDisagree` | internal/federation/handler.go:252-286 | from every such state two updates of one row can cross so that both succeed, the row keeps one and the replay the other |
| `LostWrites.StraddlingUpdateUnarchives` | internal/federation/handler.go:252-311 | and an update can straddle an archive so that both succeed, the replay is archived and the row is not |
| `Store.Store.AppendEvent` | internal/store/sqlite.go:196-230 | appends the event, or refuses a reused id or a missing peer and changes nothing |
| `Store.Store.ListEvents` | internal/store/sqlite.go:234-277 | the peer's events in range in order |
| `Store.Store.UpsertEntity` | internal/store/sqlite.go:282-333 | replaces exactly the row with the entity's id, a nil data map becoming an empty one |
| `Store.Store.ArchiveEntity` | internal/store/sqlite.go:336-355 | stamps archive and update time on the peer's own row, or fails and changes nothing |
| `Store.Store.GetEntity` | internal/store/sqlite.go:359-372 | the row if the peer has it |
| `Store.Store.QueryEntities` | internal/store/sqlite.go:377-433 | the selected rows, newest first, at most the limit or fifty |
| `Store.Store.UpsertRelation` | internal/store/sqlite.go:438-470 | replaces exactly the relation with its id, or refuses one without endpoints, type, id or peer |
| `Store.Store.DissolveRelation` | internal/store/sqlite.go:474-487 | deletes the peer's own relation or fails |
| `Store.Store.QueryRelations` | internal/store/sqlite.go:490-544 | the selected relations, newest first, at most the limit or fifty |
| `Store.Store.TimeTravelEntities` | internal/store/sqlite.go:724-823 | the loop that edits entities in the state map is the replay fold, filtered, sorted and truncated |
| `Store.SortNewest` | internal/store/sqlite.go:808-813 | sorting by creation time and id, newest first |
| `Federation.Resolver.RegisterEntityType` | internal/schema/resolver.go:32-39 | replaces one name of one peer and nothing else |
| `Federation.Resolver.RegisterRelationType` | internal/schema/resolver.go:42-49 | likewise |
| `Federation.Resolver.EntityType` | internal/schema/resolver.go:52-61 | the definition registered under peer and name, if any |
| `Federation.Resolver.RelationType` | internal/schema/resolver.go:64-73 | likewise |
| `Federation.Resolver.EntityTypes` | internal/schema/resolver.go:77-87 | the definitions registered for a peer in the order of their names |
| `Federation.Resolver.RelationTypes` | internal/schema/resolver.go:89-101 | likewise |
| `Texts.SortedUnique` | internal/schema/resolver.go:85 | there is one such order |
| `Federation.ValidateEntity` | internal/schema/seed.go:146-188 | missing fields get their defaults in order, and the result is refused exactly when a required field has neither value nor default; defaults put into a nil map are lost |
| `Federation.MergeFields` | internal/federation/handler.go:261-263 | changed fields overlay the current ones in whatever order they are visited |
| `Federation.StoreHandler.OpEntityCreate` | internal/federation/handler.go:201-250 | is the create step of the shared machine, new state and reply |
| `Federation.StoreHandler.OpEntityUpdate` | internal/federation/handler.go:252-286 | is the update step |
| `Federation.StoreHandler.OpEntityArchive` | internal/federation/handler.go:288-311 | is the archive step |
| `Federation.StoreHandler.OpRelationCreate` | internal/federation/handler.go:315-354 | is the relation creation step |
| `Federation.StoreHandler.OpRelationDissolve` | internal/federation/handler.go:368-391 | is the dissolve step |
| `Federation.StoreHandler.OpTypeDefine` | internal/federation/handler.go:426-495 | is the definition step: the resolver learns the type before anything is stored |
| `Federation.StoreHandler.OpRead` | internal/federation/handler.go:177-528 | answers the reads of the shared machine and changes nothing |
| `Federation.StoreHandler.Dispatch` | internal/federation/handler.go:63-98 | dispatches each operation to its step |
| `Federation.Router.RegisterPeer` | internal/federation/router.go:31-45 | is the joining step: registers a non-empty DID once |
| `Federation.Router.Route` | internal/federation/router.go:49-75 | routing a message is one step of the shared machine; an unknown target changes nothing |
| `Definitions.DefinitionRoundTrip` | internal/cli/runtime.go:372-406 | the definition read back from a stored row is the one that was stored, its peer filled in from the row when missing |
| `Definitions.ShapedRowsDecode` | internal/cli/runtime.go:372-408 | a row holds a definition if and only if it has data in which no text, flag or list of fields has another shape; what is absent is empty, and an empty peer is the row's own |
| `Definitions.OldestListedWins` | internal/cli/runtime.go:70-96 | on any table a type name comes back as the oldest of the at most fifty listed rows that carry it, or else as its last seed |
| `Rehydration.RunMirrors` | internal/federation/handler.go:441-492 | in a run that writes definition rows only by defining, with failures and restarts, those rows are the definitions the run stored |
| `Rehydration.ListingIsReversedRun` | internal/store/sqlite.go:378-413 | start-up is given the newest fifty stored definitions of the run, latest first |
| `Rehydration.RunRecalls` | internal/cli/runtime.go:70-96 | after any such run a start recalls each name as the first of the newest fifty that carry it, or else as its seed |
| `Rehydration.RunLive` | internal/federation/handler.go:441-492 | after any such run the resolver holds for each name the last definition since the last start, stored or not, or what that start recalled |
| `Runtime.TypesAfterRun` | internal/cli/runtime.go:70-96 | both hold of every peer in every run of all peers |
| `TypeContracts.LiveMeans` | internal/federation/handler.go:426-464 | the type known under a name is what the last definition of it since the last start declared, or what that start recalled |
| `TypeContracts.RecallMeans` | internal/cli/runtime.go:67-102 | a start recalls for a name what the first of the newest fifty stored definitions declared, or else the last seed, or nothing |
| `TypeContracts.TypesAreDeclared` | internal/cli/runtime.go:67-102 | both over runs of all peers, with failures and restarts |
| `Runtime.RestartRestoresTypes` | internal/cli/runtime.go:70-96 | after any such run a restart restores the live types if and only if each name's last definition since the last start is what the start recalls |
| `Runtime.FirstRestart` | internal/cli/runtime.go:70-96 | for the first restart: if and only if each name's last definition is the first of the newest fifty, or its seed |
| `Runtime.FirstRestartOfFew` | internal/cli/runtime.go:70-96 | with at most fifty definitions, seeds among them: if and only if no name was overridden by a different definition |
| `TypeContracts.DefinedOnce` | internal/cli/runtime.go:70-96 | when each name is defined once, and at most fifty of them, a restart changes nothing and each type is what the call that defined it declared |
| `Runtime.UnstoredIsForgotten` | internal/federation/handler.go:441-492 | a definition whose storage fails lives on in the resolver, and the next start recalls what it would have without it |
| `Runtime.RedefinitionIsForgotten` | internal/cli/runtime.go:82-87 | at the end of any run, of two calls defining a new name the live resolver keeps the second and a restart the first |
| `Runtime.RegisterStored` | internal/cli/runtime.go:81-96 | registers each listed row that holds a definition, in listing order, for this peer and kind only |
| `Runtime.Setup` | internal/cli/runtime.go:42-112 | succeeds if and only if the DIDs are distinct and non-empty; then every peer has a handler and its rehydrated types, and sees the restart step |
| `Runtime.AddPeer` | internal/cli/runtime.go:126-194 | adding a peer is the run of its seeding calls followed by its joining, succeeds if and only if none of them fails, and otherwise leaves the run up to the first that fails |
| `Radix.ValueOfExpand` | internal/peer/did.go:103-106 | expanding a number in a base and reading the digits gives the number |
| `Radix.ExpandOfValue` | internal/peer/did.go:121-130 | reading digits and expanding gives the digits without leading zeros |
| `DidKey.AlphabetIncreases` | internal/peer/did.go:30 | the alphabet has 58 characters in increasing order, so each stands for one digit |
| `DidKey.RebasedBack` | internal/peer/did.go:94-133 | changing base and back, leading zeros kept aside, restores any digit string |
| `DidKey.Base58Encode` | internal/peer/did.go:94-112 | the loop of divisions and the reversal by swapping produce the leading ones and the base-58 digits of the number |
| `DidKey.Base58Decode` | internal/peer/did.go:114-133 | the loop of multiplications yields the zero bytes and the minimal big-endian bytes of the number, or fails on the first foreign character |
| `DidKey.DecodeEncode` | internal/peer/did.go:94-133 | decoding undoes encoding on every byte string |
| `DidKey.EncodeDecode` | internal/peer/did.go:94-133 | exactly the strings over the alphabet decode, and encoding undoes that |
| `DidKey.NewDid` | internal/peer/did.go:39-42 | the identifier of a key is the scheme, the multibase letter and the text of codec and key |
| `DidKey.DecodePublicKey` | internal/peer/did.go:46-71 | the key, or the first check that fails |
| `DidKey.DecodesExactlyKeyDids` | internal/peer/did.go:39-71 | an identifier yields a key if and only if the key has 32 bytes and the identifier is the one made from it |
| `DidKey.WhyRejected` | internal/peer/did.go:46-71 | an identifier is rejected for its scheme, its base, a character other than digits and letters without 0, I, O and l, fewer than 34 bytes, bytes other than 0xed and 0x01 in front, or more than 34 bytes, in this order |
| `DidKey.PayloadDigits` | internal/peer/did.go:22-25 | for every key the payload lies between 18023 and 18024 times 58 to the 44th and has 47 digits beginning with those of 18023 |
| `DidKey.PrefixIsForced` | internal/peer/did.go:22-25 | the identifier of every 32-byte key has 56 characters and begins did:key:z6Mk |
| `TimeText.TimeOrder` | internal/store/sqlite.go:238-246 | the calendar fields from the year down order instants as nanoseconds since year 0 do |
| `TimeText.DaysInYears` | internal/store/sqlite.go:912-927 | the days before a year are 365 for each year before it and one for every fourth of them, less the centuries that 400 does not divide |
| `TimeText.DaysInMonths` | internal/store/sqlite.go:912-927 | and the days before a month are those of the Gregorian calendar |
| `TimeText.EveryDayHasADate` | internal/store/sqlite.go:912-927 | every one of the 3652425 days of the years 0 to 9999 has a valid date |
| `TimeText.FractionOrder` | internal/store/sqlite.go:912-914 | fractions without trailing zeros, followed by Z, order as their numbers unless one is the beginning of the other, when the order is reversed |
| `TimeText.TextOrderIsTimeOrder` | internal/store/sqlite.go:912-914 | for years 0 to 9999 the text order of two distinct instants is their time order if and only if they do not share a second with one fraction the beginning of the other, and is reversed otherwise |
| `TimeText.OrderByText` | internal/store/sqlite.go:246 | rows of which no two collide are sorted by text exactly when they are sorted by time |
| `TimeText.WholeSecondSortsLast` | internal/store/sqlite.go:912-914 | a whole second sorts after every later instant of that second |
| `TimeText.FormatFields` | internal/store/sqlite.go:912-914 | the text of an instant has its year, month, day, hour, minute and second in fixed places between -, -, T, : and :, then nothing or a dot and the digits of its fraction without trailing zeros, and a Z |
| `TimeText.ParseFormat` | internal/store/sqlite.go:916-927 | reading back the text of any instant gives the instant |
| `TextListing.ListByTextOrders` | internal/store/sqlite.go:234-246 | the listing by text holds the peer's events in the range of texts, in the order of texts and ids |
| `TextListing.ListingByText` | internal/store/sqlite.go:234-246 | it is the listing by time if and only if the bounds admit the same events either way and no two listed events clash |
| `TextListing.TimeTravelByText` | internal/store/sqlite.go:724-728 | for time travel: if and only if no event of the peer clashes with the instant and no two up to it clash |
| `TextListing.WholeSecondAdmitsLater` | internal/store/sqlite.go:242-245 | an instant at a whole second admits by text every later event of that second |
| `TextListing.ClashingUpdateIsLost` | internal/store/sqlite.go:730-764 | after any log, an update that clashes with the creation before it is replayed first by text, so replay ends with the created data |
| `RateLimit.PerEmailLimiter.Allow` | cmd/coggo-oauth-gateway/ratelimit.go:85-96 | stamps the bucket of the email in small letters, creating a full one if there is none, and takes a token if there is one |
| `RateLimit.PerEmailLimiter.Sweep` | cmd/coggo-oauth-gateway/ratelimit.go:100-117 | removes exactly the buckets idle for longer than ten minutes, in whatever order they are visited |
| `RateLimit.LowerMeans` | cmd/coggo-oauth-gateway/ratelimit.go:86 | two emails have one bucket if and only if they are the same letter by letter up to the case of A to Z |
| `RateLimit.CaseIsIgnored` | cmd/coggo-oauth-gateway/ratelimit.go:85-96 | in any run, with or without reaping, writing emails in another case changes no decision |
| `RateLimit.OthersDoNotCount` | cmd/coggo-oauth-gateway/ratelimit.go:85-117 | and deleting the requests of all other emails changes no decision on an email's own |
| `RateLimit.StepSimulates` | cmd/coggo-oauth-gateway/ratelimit.go:85-117 | one action decides alike with and without reaping while the forgotten buckets would be full |
| `RateLimit.RunSimulates` | cmd/coggo-oauth-gateway/ratelimit.go:85-117 | so does a whole run |
| `RateLimit.ReapingIsInvisible` | cmd/coggo-oauth-gateway/ratelimit.go:85-117 | every run decides every request alike with and without reaping if and only if a burst flows in within the shortest time after which a bucket can be reaped, ten minutes and a nanosecond |
| `RateLimit.CreditIsLeast` | cmd/coggo-oauth-gateway/ratelimit.go:85-96 | without reaping, what an email may spend is the least of its burst and of what every window up to now leaves of a burst and the inflow after its own admissions |
| `RateLimit.AdmissionBound` | cmd/coggo-oauth-gateway/ratelimit.go:85-117 | when reaping goes unnoticed, in the window since any action of any run with sweeps an email, in whatever letter case, is admitted at most a burst plus what flows in meanwhile |
| `RateLimit.AdmittedExactly` | cmd/coggo-oauth-gateway/ratelimit.go:85-117 | and exactly that: a request is admitted if and only if there is a burst and one more admission keeps the bound in the window since every earlier action |
| `RateLimit.ComebackAdmitted` | cmd/coggo-oauth-gateway/ratelimit.go:98-117 | a burst, an idle time just over ten minutes, a sweep and another burst are admitted in full |
| `SemanticSearch.Search` | internal/store/sqlite.go:598-673 | the loop returns the matches among the fetched candidates, at most the limit or, without a positive one, ten; nothing for an empty vector, an error for a wrong dimension |
| `SemanticSearch.SearchRefinesIdeal` | internal/store/sqlite.go:614-672 | the answer is a prefix of filtering all embeddings and keeping the nearest, and all of it if and only if it is full or nothing wanted lies beyond the nearest sixteen and the nearest four for each hit asked for |
| `SemanticSearch.OverfetchSuffices` | internal/store/sqlite.go:614-619 | it is all of it whenever at most three embeddings for each hit asked for fail the filter, or with the hits at most sixteen |
| `SemanticSearch.HitsAreScopedAndRanked` | internal/store/sqlite.go:647-671 | hits are the peer's own unarchived entities of the wanted type, scored one less their distance, best score first, at most the limit |
| `Projection.ParseSelections` | internal/mcp/projection.go:72-89 | keeps exactly the names some field gives, each with the last positive limit given for it |
| `Projection.FieldMeans` | internal/mcp/projection.go:72-89 | white space around it aside, a field without a colon, or with one in front, is a name; any other names what stands before its first colon and limits it to the positive decimal number after it, if that is one below 2^63 |
| `Projection.PlainFields` | internal/mcp/projection.go:72-89 | ordinary names select themselves and cut nothing |
| `Projection.ProjectEntity` | internal/mcp/projection.go:133-151 | the selected metadata and data of an entity, whatever order the selected names are visited in |
| `Projection.ProjectFlat` | internal/mcp/projection.go:153-161 | the selected members of a type definition, in any order |
| `Projection.WalkTree` | internal/mcp/projection.go:91-114 | the projection of a tree does not depend on the order in which the members of its objects are visited |
| `Projection.ProjectJson` | internal/mcp/projection.go:47-65 | without fields, or with none that names anything, the reply is unchanged; otherwise it is the walk |
| `Projection.ProjectionMeans` | internal/mcp/projection.go:47-65 | a reply is unchanged when all fields are blank; otherwise it is walked, lists item by item, scalars as they are |
| `Projection.ShownMembers` | internal/mcp/projection.go:116-177 | an object with a data object shows the selected members, and as data the selected fields that no member hides; one with a name and a list of fields shows the selected members; any other has each member walked |
| `Projection.LeavesKeepTheirPlace` | internal/mcp/projection.go:91-177 | every scalar of the projection sits at the same path in the reply, equal to it or cut to the limit of its own key and marked with an ellipsis |
| `Projection.FixedStays` | internal/mcp/projection.go:91-177 | a projection leaves a tree as it is if and only if all its entities and type definitions hold selected, uncut names only |
| `Projection.ProjectingTwice` | internal/mcp/projection.go:91-177 | projecting any tree twice is projecting it once if and only if the first projection settles it |
| `Projection.DescribedType` | internal/mcp/projection.go:153-161 | the description of a type by its fields alone settles if and only if the default of every field is fixed |
| `Projection.DescriptionsCanChangeTwice` | internal/mcp/projection.go:133-161 | so with a default that looks like an entity, projecting it twice changes it |
| `Registry.Registry.Add` | internal/peer/registry.go:94-109 | adds the shared peer object to both indexes when name and DID are free, also if the file cannot be written, and keeps the indexes in step |
| `Registry.Registry.Rename` | internal/peer/registry.go:112-126 | moves one peer to a free name in both indexes |
| `Registry.Registry.Resolve` | internal/peer/registry.go:168-176 | finds a peer by name first and by DID otherwise |
| `Registry.Registry.List` | internal/peer/registry.go:155-165 | every peer once, in the order of names |
| `Registry.RenameMovesOnePeer` | internal/peer/registry.go:112-126 | a rename keeps every DID and every other name, and the opposite rename undoes it |
| `Registry.WithConsistent` | internal/peer/registry.go:97-102 | adding keeps the indexes inverse exactly when neither name nor DID belonged to someone else |
| `Registry.DidsFindTheirPeer` | internal/peer/registry.go:168-176 | a DID resolves to its own peer unless another peer is named by that text |
| `Tokens.TokenStore.Issue` | internal/auth/tokens.go:58-82 | appends one grant with the hash of the secret, or nothing without peers |
| `Tokens.TokenStore.Verify` | internal/auth/tokens.go:86-105 | the verdict on the first grant stored under the secret's hash |
| `Tokens.TokenStore.Revoke` | internal/auth/tokens.go:118-128 | removes the first grant with the id and no other |
| `Tokens.TokenStore.Touch` | internal/auth/tokens.go:130-140 | stamps the first token with the id and changes no grant |
| `Tokens.StoreHoldsLiveTokens` | internal/auth/tokens.go:58-128 | after any issuing and revoking the store holds exactly the issued and unrevoked tokens |
| `Tokens.TokenLifecycle` | internal/auth/tokens.go:86-161 | a secret opens a peer if and only if a token was issued with it for that name or for every peer and not revoked since |
| `CrossPeer.AuthorizeForPeer` | internal/mcp/auth.go:70-92 | resolves the key and verifies the token for the resolved peer's name, or says what failed first |
| `CrossPeer.QueryPeer` | internal/mcp/tools.go:518-548 | one turn of the loop authorises, routes and projects for one peer and changes nothing |
| `CrossPeer.HandleCrossPeerQuery` | internal/mcp/tools.go:493-555 | collects one such entry for each peer in order, or refuses the request, and changes nothing |
| `CrossPeer.Pointwise` | internal/mcp/tools.go:517-549 | one entry for each requested peer in the order of the request; the request is refused as a whole exactly without type, without peers, or with a key that is no string |
| `CrossPeer.TogetherAndAlone` | internal/mcp/tools.go:517-549 | of two requests, one for several peers and one for one of them, the second gives the entry that the first gives for that peer |
| `CrossPeer.EntitiesAreScoped` | internal/mcp/tools.go:517-549 | an entry shows entities if and only if the key resolves to a registered peer whose name a token with the caller's hash covers, and then exactly that peer's listing, all of it carrying its DID and independent of other peers' rows |
| `CrossPeer.WhyRefused` | internal/mcp/auth.go:70-92 | an entry is refused for an empty key, an unknown one, no token, a token the store does not know, one listing neither the peer's name nor every peer, or a peer not served, in this order; a key that is a name and a DID means the name |
| `Access.SecretOpens` | internal/mcp/auth.go:70-92 | after any history of adding and renaming peers and of issuing and revoking tokens, a secret opens exactly the peers that can be named and whose present name a token in force with that secret lists |
| `Access.UnrenamedStaysOpen` | internal/peer/registry.go:94-126 | a token goes on opening a peer until it is revoked or the peer's name is changed, whatever else happens |
| `Access.TokenChangesHands` | internal/peer/registry.go:112-126 | after any history two renames make a token open another peer and no longer the one it was issued for |

## Left out

- The SQL engine, the write-ahead log, the connection pool and the vector index: tables are maps by id, ORDER BY is
  sorting, and the nearest neighbours are a given sequence ordered by distance.
- JSON bytes: payloads are trees. The JSON text of an array or object, which an SQL string filter can compare with, is
  a parameter, and the encoding of a listing is a parameter of the cross-peer query. Go's case-insensitive matching of
  member names when a stored definition is decoded is not modelled.
- Filters by values other than strings and by keys that are not simple member names.
- sha256, ed25519 and ULID internals: an arbitrary hash (injective where it matters), arbitrary keys, increasing ids.
- `big.Int` is a mathematical integer, and its bytes are the minimal big-endian digits in base 256.
- Floating point in the rate limiter: units per nanosecond are whole numbers and a request reads one clock. The
  library's rounding of waits below a nanosecond, a negative burst, and case folding beyond ASCII are not modelled.
- `TimeText.ParseFormat`: the reader is modelled for the texts the store writes, which end in Z; numeric offsets and the
  laxer forms Go's parser accepts are not part of the model.
- `Store.Store.ListEvents`: time ranges and sorting compare timestamps as instants; `TextListing.ListingByText` says
  exactly when the listing by their texts is the same one.
- `Runtime.Setup`: a definition listing that fails at start-up, which the program skips silently, is not modelled, nor are
  the failures to open files.
- `Federation.StoreHandler.OpRead`: semantic.search is not among the requests and is modelled apart, in `SemanticSearch`.
- `Federation.StoreHandler.Dispatch`: for the same reason it does not dispatch semantic.search.
- `Federation.Router.Route`: ping messages, answered without a handler call, and the reply to an unsupported message type
  are not modelled; every message carries an operation.
- `Adequacy.SerialIsExec`: the steps of interleaved clients are those of one process; joining peers and restarts between
  them are not steps of the interleaved machine. `Interleaving.Stop` is a client that dies between two steps.
- White space other than ASCII in field lists.
- The embedding id of an entity, embedding upserts and substring search: specific to SQLite.
- Field definitions keep name, type, required flag and default; element types, validation rules and descriptions do not
  affect any modelled branch. Validation warnings are only logged.
- A handler without a resolver.
- File reading, writing and renaming (peers.json, tokens.json, configuration, backup): whether a write works is an input.
- HTTP, the OAuth proxy, the MCP transport, logging, prompts, status probes and shell scripts.
- The Google token validator, briefings, configuration defaults, alias commands and the seed tables: they would add
  only easy members.
