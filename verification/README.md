# PocketBun: verified model

PocketBun is a backend server: realtime delivery, OAuth2 sign-in, file thumbnails, rate limits, SQL and batch
requests over a SQLite database. This project models the state machines and lexers at its core in Dafny and proves
what they keep over every run or every input. `dafny verify dfyconfig.toml` checks everything.

## How it is organised

One module per component, one file per module.

- `ClusterPublish` is the realtime transport of one app. JavaScript runs to completion between two awaits, so each
  segment between awaits is one atomic step (`Step`), and a sequence of steps is an interleaving; a step that is not
  enabled leaves the state alone. `TransportState` is the object as the program updates it, one method a segment,
  each proved to be its step. `DeletePrepareBatches` is the batching of delete-prepares per database transaction.
- `Subscriptions`, `RecordBroadcast` and `TwoPhaseDelete` are the clients of a worker, the broadcasting loops over
  them, and the two-phase delivery of deletes. A broadcast is opaque about access rules and encoding: what a client's
  subscription gets is the parameter `render`. `DeleteDelivery` runs the publishing worker and a receiving worker
  together: what the one hands over arrives at the other in any order and with any delay.
- `ClientAuth` is the identity of realtime clients.
- `OAuth2Links` is the login transaction over records and external-auth links. The provider's user, the create rule,
  the random password and the success of validators and hooks are parameters of a login. `OAuth2Interleaving` splits
  a login into three steps: the session record is loaded when the request arrives, the lookups are made after the
  provider has answered, and the transaction runs last.
- `ThumbGeneration` is the semaphore and the singleflight group behind thumbnails, and the runs of the two together.
  Calls return in any order once their flight settled, which includes every order the event loop produces.
- `RateLimiting` is the fixed-window limiter with an explicit clock.
- `SqlSplitter` is the statement splitter, proved against a one-character-at-a-time reference lexer, and `SqlTokens`
  says on texts alone what that lexer takes for literals, comments and cuts.
- `BatchRoutes`, `BatchProcessing` and `BatchFiles` are the batch API: reading and rewriting request lines, running
  the requests in one transaction, and handing out uploaded files. The record handlers are a function of the database.
- `BodyLimits`, `Cors`, `Zip64Lookup`, `RelativePaths` and `ImportGraph` are smaller loops and parsers. `Strings`,
  `Bytes` and `Wrappers` are shared helpers.

Where the code updates objects in place, the model has a class whose methods are proved equal to a function on
values; the theorems are about that function.

## What turned out to need a condition

- OAuth2: the properties hold over every sequence of complete logins. The lookups of a login run before its
  transaction, so logins can interleave, and then a transaction with an unverified snapshot can undo a verification
  that happened in between. It can take a link from the verified record (`InterleavedLoginsLoseALink`), and it can
  make the record unverified again and bring an earlier link back (`StaleLoginRevertsVerified`), because the whole
  stale record is saved. `StaleSnapshotUndoesExactlyWhen` says exactly when a transaction does either, and
  `VerifiedIsFinalExactlyWhile` that verified records stay verified and keep their links over an interleaved run if
  and only if no transaction does. The links from before the step that verified a record are gone over every
  interleaved run, unless that step or a later one adds the link, for a login whose lookups had earned it or had found
  it on the record while that was unverified (`EarlierLinksAreDroppedUnlessAdded`).
- Realtime identities: the subscribe checks run before the subscribe hooks. When hooks suspend, requests that passed
  the checks earlier can switch an identity (`SuspendedHooksCanSwitch`) or, coming from a guest, take it away
  (`SuspendedHooksCanLose`). Records are compared by collection name, so a record of another collection that shares
  name, id and token key can switch it too (`SharedNamesCanSwitch`). `SwitchesExactlyWhen` and `LosesExactlyWhen` are
  the exact conditions in every state, and `IdentityKeptExactlyWhile` over every run. A hook that rejects a request
  after the handler has run, or loses its answer, leaves the client changed (`RejectedAfterwardsStillChanges`).
- Thumbnails: a call that joins a settled flight can forget the entry of a newer one, and two generations of one
  thumbnail then run at once (`FlightsOfOneKeyCanOverlap`). `OverlapExactlyAfterLateForget` says that this takes a
  forget which removes the entry of a flight still going on, and that such a forget always allows it.
- Rate limiter: cleaning is invisible if and only if the minimum delete interval is at least -1 or the window has no
  length.
- CORS: the pattern stage subsumes the wildcard stage when the text before the openings matches as a glob, as it does
  when the first colons open `://`, and there is no line break; `SkippedTextIsNotMatched` and `LineBreakIsNotMatched`
  show that both conditions are needed.
- Batch: the rewritten request line of an upsert is not the request it stands for when the body's id contains a
  slash or a question mark (`RewrittenUpsertReads`); the handler still gets the right id.

## Model

| member | source | states |
|---|---|---|
| ClusterPublish.ExactlyOnceInOrder | src/apis/realtime.ts:832-940 | in every interleaving each published event is, once and in publish order, broadcast (or dropped by a failed import), in flight, or queued; at most one publisher; a non-empty queue has a timer or a publisher; without a failed import nothing is dropped |
| ClusterPublish.FailedImportLosesQueue | src/apis/realtime.ts:929-937 | a failed transport load drops exactly what was queued then, nothing in flight, and stops the publisher |
| ClusterPublish.BatchWaitsForPrepares | src/apis/realtime.ts:919-924 | when a batch may be broadcast, every prepare enqueued before the batch was taken has settled |
| ClusterPublish.PreparesRunInOrder | src/apis/realtime.ts:875-884 | a prepare starts only after all earlier ones have settled, although the tail is extended and reset concurrently |
| ClusterPublish.CommitNeverOvertakesPrepare | src/apis/realtime.ts:875-924 | for any steps before, between and after, a commit published after its prepare was enqueued is broadcast only once the prepare has settled |
| ClusterPublish.EverythingPendingCanBeSent | src/apis/realtime.ts:909-940 | from every reachable state, letting the pending work succeed broadcasts all that was queued or in flight, in order, and leaves nothing scheduled |
| ClusterPublish.RunKeepsInv | src/apis/realtime.ts:832-940 | the invariant of scheduling, the prepare chain, conservation and the barriers holds after every run |
| ClusterPublish.TransportState.PublishEvent | src/apis/realtime.ts:832-839 | publishing is the publish step: queues and schedules, or nothing without remote clients |
| ClusterPublish.TransportState.SchedulePublish | src/apis/realtime.ts:909-913 | sets a timer unless one is set or a publisher runs |
| ClusterPublish.TransportState.FireTimer | src/apis/realtime.ts:913-917 | the timer's segment up to the import |
| ClusterPublish.TransportState.ContinueLoop | src/apis/realtime.ts:919-922 | the loop head: takes the whole queue and captures the tail, or finishes |
| ClusterPublish.TransportState.OpenBarrier | src/apis/realtime.ts:922-924 | hands the batch to the broadcaster once the captured promise resolved |
| ClusterPublish.TransportState.FailImport | src/apis/realtime.ts:929-937 | the failure branch and the finally block |
| ClusterPublish.TransportState.Stop | src/apis/realtime.ts:932-937 | the finally block, with its reschedule |
| ClusterPublish.TransportState.EnqueuePrepare | src/apis/realtime.ts:875-878 | chains a prepare to the tail and makes it the tail |
| ClusterPublish.TransportState.CleanupPrepare | src/apis/realtime.ts:879-883 | resets the tail only if no later prepare extended it |
| DeletePrepareBatches.EveryDeleteIsPreparedOnce | src/apis/realtime.ts:853-873 | over every interleaving of transactions, what was prepared for one, then its open batch, is its deletes, each once and in order; after its before-commit function all are handed over |
| DeletePrepareBatches.PreparedByOpener | src/apis/realtime.ts:853-873 | the deletes of a batch are handed over through the app that opened it |
| DeletePrepareBatches.Batches.QueueDeletePrepare | src/apis/realtime.ts:853-873 | opens a batch with one before-commit function, or joins the open one |
| DeletePrepareBatches.Batches.BeforeCommit | src/apis/realtime.ts:863-870 | closes the batch and hands over all its events |
| TwoPhaseDelete.FirstResolutionDecides | src/apis/realtime.ts:942-1008 | for every run and every delete, remote or local and prepared anew after earlier ones were resolved: a client registered throughout gets exactly the prepared messages, once and in order, iff commit is the first of commit, abort and expiry; the prepare itself sends nothing, and after any of them nothing is cached |
| TwoPhaseDelete.LocalDeleteDecides | src/apis/realtime.ts:668-790 | on the worker that deletes a record, over every run: a client registered from the delete on gets exactly what the delete had for it, once and in order, iff success is reported before failure; after either the key is in no store |
| TwoPhaseDelete.LocalKeysDiffer | src/apis/realtime.ts:1394-1398 | keys of records are equal only for the same table and id, if table names have no slash |
| DeleteDelivery.DeletedExactlyOnce | src/apis/realtime.ts:875-1008 | over every run of the publishing and a receiving worker together, no commit arrives before its prepare unless that arrives only after it settled, and a client registered from the prepare on gets the prepared messages, once and in order, if a commit arrives after it, before any abort and before the expiry, and nothing otherwise |
| DeleteDelivery.ToldExactly | src/apis/realtime.ts:942-1008 | over every such run the receiving worker is told of a commit or abort exactly if that event was broadcast and has arrived |
| TwoPhaseDelete.ImmediateBroadcastSends | src/apis/realtime.ts:1141-1345 | an immediate broadcast at prepare time would send those same messages |
| TwoPhaseDelete.CallbacksDeliver | src/apis/realtime.ts:1348-1374 | running the queued callbacks brings exactly what was sent into the channel |
| TwoPhaseDelete.StepSends | src/apis/realtime.ts:1326-1392 | every step sends a registered client exactly its gain and leaves earlier messages alone |
| TwoPhaseDelete.KeysDiffer | src/apis/realtime.ts:1057-1059 | cache keys of different events, of local deletes and of the client's own data never collide |
| RecordBroadcast.BroadcastToClient | src/apis/realtime.ts:1177-1341 | the loops over prefixes and subscriptions cache or queue exactly the messages of `MessagesFor`, which `MessagesForExactly` determines |
| RecordBroadcast.MessagesForExactly | src/apis/realtime.ts:1177-1341 | a client gets one message for each pair of a prefix and a subscription that starts with it, with a question mark behind the subscription, and whose rendering passes; by prefix, then in subscription order |
| RecordBroadcast.TopicPrefix | src/tools/subscriptions/client.ts:56-71 | the prefix of a topic reaches exactly the topic itself and the topic with options |
| RecordBroadcast.EventReaches | src/apis/realtime.ts:1158-1168 | a record event reaches exactly the subscriptions to its six topics, with or without options, each under one prefix only |
| RecordBroadcast.BroadcastRecord | src/apis/realtime.ts:1141-1345 | the same for all clients, each by its own state |
| RecordBroadcast.BroadcastDryCacheKey | src/apis/realtime.ts:1348-1374 | sends and forgets what is cached under a key, on every client |
| RecordBroadcast.UnsetDryCacheKey | src/apis/realtime.ts:1377-1392 | forgets it |
| RecordBroadcast.RunTask | src/apis/realtime.ts:1365-1369 | a queued callback sends its messages in order unless the client was discarded |
| RecordBroadcast.DiscardStops | src/apis/realtime.ts:1365-1369 | queued callbacks deliver all their messages in order until the client is discarded, and none after |
| Subscriptions.Client.Subscribe | src/tools/subscriptions/client.ts:75-130 | adds exactly the non-empty new topics, in order |
| Subscriptions.SubscribedAll | src/tools/subscriptions/client.ts:75-130 | the topics after a subscribe are the old and the non-empty requested ones |
| Subscriptions.SubscribedInOrder | src/tools/subscriptions/client.ts:75-130 | earlier topics keep their places, and new ones follow in the order of their first mention |
| ClientAuth.SwitchesExactlyWhen | src/apis/realtime.ts:302-457 | the exact condition under which a step takes a client from one identity directly to another |
| ClientAuth.IdentityNeverSwitches | src/apis/realtime.ts:302-457 | with hooks that do not suspend, and collection names that stand for one collection each, no run does |
| ClientAuth.SuspendedHooksCanSwitch | src/apis/realtime.ts:302-352 | a run in which suspended hooks switch an identity |
| ClientAuth.SharedNamesCanSwitch | src/apis/realtime.ts:395-412 | a run in which the update of a record of another collection with the same name, id and token key switches an identity |
| ClientAuth.LosesExactlyWhen | src/apis/realtime.ts:302-457 | in every state an identity is lost exactly by a changed token key, the record's delete, a collection event, or the finish of a guest's request whose hooks were awaited |
| ClientAuth.IdentityKeptExactlyWhile | src/apis/realtime.ts:302-457 | over every run, with suspended hooks and further subscribes, a client keeps its identity throughout iff no step loses it and none switches it |
| ClientAuth.SuspendedHooksCanLose | src/apis/realtime.ts:302-352 | a run in which a late guest's request takes an identity away |
| ClientAuth.SurvivesUntilRevoked | src/apis/realtime.ts:302-457 | after a subscribe whose handler ran, a client stays authenticated as that record with that token key iff no later update, delete or collection event revokes it |
| ClientAuth.AcceptedTopicsStay | src/apis/realtime.ts:302-457 | a request rejected before the handler changes nothing; one that reaches it leaves exactly its topics, and a guest a guest, also when a hook rejects it afterwards |
| ClientAuth.RejectedAfterwardsStillChanges | src/apis/realtime.ts:323-352 | a request answered as rejected that has replaced identity and topics, because a hook rejected it after the handler |
| ClientAuth.TopicsAreTheLastAccepted | src/apis/realtime.ts:323-343 | over every run a client has exactly the non-empty topics of the last request whose handler ran |
| ClientAuth.Subscribe | src/apis/realtime.ts:302-352 | checks IP and identity, lets hooks change the topics or end the request, then replaces identity and topics; `AdmittedExactlyWhen` says which requests that are |
| ClientAuth.AdmittedExactlyWhen | src/apis/realtime.ts:302-352 | over every run: a request from another address than a known one is refused, and so is one not signed in as the record of the client; both change nothing, and every other request is admitted and gives the client its identity and topics unless a hook ends it |
| ClientAuth.UpdateClientsAuth | src/apis/realtime.ts:395-412 | every client of the record gets the new record, or loses it with a changed token key; others unchanged |
| ClientAuth.UnsetClientsAuthByIdentity | src/apis/realtime.ts:424-437 | exactly the clients of the record lose their identity |
| ClientAuth.UnsetClientsAuthByCollection | src/apis/realtime.ts:444-457 | exactly the clients of the collection lose their identity |
| OAuth2Links.LinksStayConsistent | src/apis/record_auth_with_oauth2.ts:156-418 | over every sequence of logins and verifications: at most one link per unverified record, and one link per collection, provider and provider user, and per record and provider |
| OAuth2Links.VerifiedIsFinal | src/apis/record_auth_with_oauth2.ts:348-402 | verified never reverts and a verified record never loses a link |
| OAuth2Links.ReturningUserResolvesSame | src/apis/record_auth_with_oauth2.ts:156-186 | a provider user who reached a verified record resolves to it after any further run, and exactly when that login succeeds |
| OAuth2Links.AdoptionStartsOver | src/apis/record_auth_with_oauth2.ts:355-415 | adopting an unverified record leaves only this login's link, a random password unless signed in as it, and the exact email and verified state |
| OAuth2Links.EveryLinkIsEarned | src/apis/record_auth_with_oauth2.ts:156-418 | every link after a run was there before or belongs to a login that created the record, was signed in as it, or had its email |
| OAuth2Links.EarlierLinksAreDropped | src/core/base.ts:5671-5709 | links from before the step that verified a record are gone for good unless earned again |
| OAuth2Links.SignedInIsLinked | src/apis/record_auth_with_oauth2.ts:404-415 | a successful login leaves its user linked to the record |
| OAuth2Interleaving.VerifiedIsFinalExactlyWhile | src/apis/record_auth_with_oauth2.ts:80-418 | with session load, lookups and transaction as separate steps, over every interleaving: every step keeps verified records verified, with their links, iff no transaction undoes a verification with an unverified snapshot; and then the link invariants hold |
| OAuth2Interleaving.SessionSignsInAsItself | src/apis/record_auth_with_oauth2.ts:80-186 | over every interleaving, a request signed in as a record of the collection on arrival, for whose user no link is there at its lookups, signs in as and links that record, whatever the emails are |
| OAuth2Interleaving.StaleSnapshotUndoesExactlyWhen | src/apis/record_auth_with_oauth2.ts:355-415 | for any snapshot of a verified record, exactly when a committed transaction turns it unverified and exactly when it takes a link from it |
| OAuth2Interleaving.LinksAreEarnedOrResurrected | src/apis/record_auth_with_oauth2.ts:156-418 | over every interleaving, from any state with logins under way, each new link was earned at the lookups of its login, or is a link those lookups found on a record unverified then |
| OAuth2Interleaving.EarlierLinksAreDroppedUnlessAdded | src/core/base.ts:5671-5709 | after the step that verifies a record, over every interleaving, each link of it was added by that step or a later one, by a login that had earned it or had found it on the record while unverified |
| OAuth2Interleaving.StaleLoginRevertsVerified | src/apis/record_auth_with_oauth2.ts:365-415 | a run in which a login looked up before a verification makes the record unverified again and brings its earlier link back |
| OAuth2Interleaving.InterleavedLoginsLoseALink | src/apis/record_auth_with_oauth2.ts:156-415 | two first logins with both lookups first, of which the second removes the link of the first |
| OAuth2Links.Store.Lookup | src/apis/record_auth_with_oauth2.ts:156-186 | the resolution that `LinkedResolution` and `UnlinkedResolution` determine |
| OAuth2Links.LinkedResolution | src/apis/record_auth_with_oauth2.ts:156-175 | a link that names the provider user decides, whatever the session and the emails are |
| OAuth2Links.UnlinkedResolution | src/apis/record_auth_with_oauth2.ts:156-186 | without such a link the session record wins, whatever the emails are; without either, the record with the provider's non-empty email; without that the user is unknown |
| OAuth2Links.SignUpExactly | src/apis/record_auth_with_oauth2.ts:277-347 | exactly when the sign-up of an unknown user succeeds, and all that it writes: one record, verified if requested or if its email is the provider's, and one link |
| OAuth2Links.SignInWritesOnly | src/apis/record_auth_with_oauth2.ts:348-418 | a login as a verified record keeps its password, its links and its email if it has one; no login touches another record |
| OAuth2Links.Store.OAuth2Submit | src/apis/record_auth_with_oauth2.ts:277-418 | the transaction: the submitted state, or the old one on any failure |
| OAuth2Links.Store.AdoptAndLink | src/apis/record_auth_with_oauth2.ts:355-415 | the steps for an existing record |
| OAuth2Links.Store.CreateAndLink | src/apis/record_auth_with_oauth2.ts:278-415 | the steps for an unknown user |
| OAuth2Links.Store.Save | src/core/base.ts:5671-5709 | saving a record that turns verified deletes its links |
| OAuth2Links.Store.DeleteAllLinks | src/core/external_auth_query.ts:50-59 | deletes exactly the links of the record |
| ThumbGeneration.PermitsNeverExceeded | src/apis/file.ts:254-386 | over every run: counter = flights holding a permit, never above the maximum, so neither are running generations; nobody queues while a permit is free; all permits are back when all flights settled |
| ThumbGeneration.GrantsFollowQueueOrder | src/apis/file.ts:329-386 | permits are handed on in queue order among waiters not timed out; a timed-out waiter never gets one |
| ThumbGeneration.SecondFlightNeedsForget | src/apis/file.ts:388-412 | between two generations started for one key there is a forget of that key |
| ThumbGeneration.OverlapExactlyAfterLateForget | src/apis/file.ts:254-281 | over every run, the next call for a thumbnail can make two of its flights overlap iff some call's forget removed the entry of a flight still going on; without one no two flights of a key overlap |
| ThumbGeneration.OrphanOverlaps | src/apis/file.ts:276-280 | after such a forget the next call for that key starts a second flight beside the first |
| ThumbGeneration.FlightsOfOneKeyCanOverlap | src/apis/file.ts:254-281 | a run in which a call joins a flight after it settled, forgets late, and two generations of one thumbnail run at once |
| ThumbGeneration.EveryFlightCanFinish | src/apis/file.ts:254-386 | from every reachable state, when running generations end, every flight gets its permit and settles without a timeout |
| ThumbGeneration.Semaphore.AcquirePermit | src/apis/file.ts:329-370 | takes a permit or joins the queue |
| ThumbGeneration.Semaphore.ReleasePermit | src/apis/file.ts:372-385 | hands the permit to the first waiter not cancelled, or gives it back |
| ThumbGeneration.Semaphore.TimeOutWaiter | src/apis/file.ts:360-366 | takes exactly this waiter off the queue |
| ThumbGeneration.SingleflightGroup.Do | src/apis/file.ts:391-407 | joins the registered flight or registers the new one |
| ThumbGeneration.SingleflightGroup.Forget | src/apis/file.ts:409-411 | removes the entry of the key, whichever flight it names |
| RateLimiting.AdmissionBound | src/apis/rate_limiter.ts:23-80 | in any l seconds a key gets at most max * (floor((l-1)/interval) + 1) admissions, and max - 1 more unless interval divides l - 1, whatever the cleanups and other keys; always less than max * (floor((l-1)/interval) + 2) |
| RateLimiting.MostAdmissionsReached | src/apis/rate_limiter.ts:69-80 | for every configuration and length a run reaches that bound, so it is exact |
| RateLimiting.CleaningInvisibleExactlyWhen | src/apis/rate_limiter.ts:32-67 | a limiter cleaned at any times answers like one never cleaned, iff the minimum delete interval is at least -1 or the window is empty |
| RateLimiting.LimitedIsRefusal | src/apis/rate_limiter.ts:32-35 | the millisecond test says what the second-based one would refuse |
| RateLimiting.RateClient.Consume | src/apis/rate_limiter.ts:69-80 | lazy refill, then one token |
| RateLimiting.RateLimiter.IsAllowed | src/apis/rate_limiter.ts:23-30 | creates the client if needed and consumes; other keys unchanged |
| RateLimiting.KeysAreIndependent | src/apis/rate_limiter.ts:23-35 | the answers to a key are those of the run without the queries of all other keys |
| RateLimiting.RateLimiter.IsLimited | src/apis/rate_limiter.ts:32-35 | tells whether an existing bucket is empty in its window, changing nothing |
| RateLimiting.RateLimiter.CleanUp | src/apis/rate_limiter.ts:37-49 | removes exactly the expired clients, with or without the rebuild |
| SqlSplitter.SplitSQLStatements | src/apis/sql.ts:187-258 | the loop with lookahead and skipping gives what the reference lexer gives, which `StatementsByTokens` determines |
| SqlTokens.CutsAtSemicolonTokens | src/apis/sql.ts:194-242 | for every list of quotations, with doubled quotes, brackets, line and block comments, other characters and semicolons, the text is cut at exactly the semicolon tokens |
| SqlTokens.EveryTextIsTokens | src/apis/sql.ts:187-258 | every text is such a list |
| SqlTokens.StatementsByTokens | src/apis/sql.ts:187-258 | the statements of a text are what stands between its semicolon tokens, trimmed, where that is not blank, or else the trimmed text |
| SqlSplitter.CutsExactlyAtTopLevel | src/apis/sql.ts:194-257 | the pieces joined with semicolons are the text, none has a top-level semicolon, and the result is the non-blank ones, trimmed |
| SqlSplitter.StatementsSplitToThemselves | src/apis/sql.ts:187-258 | every returned statement, split alone, gives just itself |
| SqlSplitter.JoinSplitRoundTrip | src/apis/sql.ts:187-258 | joining with newline-semicolon and splitting again gives the same statements |
| SqlSplitter.TrimmedPiece | src/apis/sql.ts:243-257 | a trimmed piece that ended at top level ends at top level or in a line comment |
| BatchRoutes.MatchExactly | src/apis/batch.ts:381-411 | the four expressions read a request line as a route iff it is that route's line |
| BatchRoutes.LinesAreRead | src/apis/batch.ts:381-411 | the four kinds of lines written out, with their verbs and the queries they may have |
| BatchRoutes.UpsertActsAs | src/apis/batch.ts:329-375 | an upsert is an update iff its id names an existing record, else a create |
| BatchRoutes.RewrittenUpsertReads | src/apis/batch.ts:339-365 | when the rewritten line of an upsert reads as the call it makes |
| BatchProcessing.CommitsExactlyTheFold | src/apis/batch.ts:170-211 | the batch reaches its commit iff every request gives a result and no stop has arrived when one is started, with the left fold of all requests; only the last handler can have found a stop |
| BatchProcessing.OutcomesMean | src/apis/batch.ts:171-297 | a batch that commits has only replies below 400, one that fails with a status has one of at least 400, and one that fails with an unknown action has a line that is no route |
| BatchProcessing.ResultsMatchRequests | src/apis/batch.ts:171-190 | result i answers request i on the database the earlier requests left |
| BatchProcessing.FailureNamesTheFirst | src/apis/batch.ts:182-206 | a failure names the first refused request and its reason, with no stop arrived by its start, and conversely |
| BatchProcessing.FirstCauseWins | src/apis/batch.ts:143-175 | a stopped batch reports the first of all causes |
| BatchProcessing.StopsExactlyWhen | src/apis/batch.ts:140-190 | a batch ends as stopped iff, the requests before giving results, a stop has arrived when one is to be started, or arrives while it runs and its handler looks and ends with it |
| BatchProcessing.UpsertSeesEarlierRequests | src/apis/batch.ts:339-365 | inside a batch an upsert looks at the database after the earlier requests |
| BatchProcessing.BatchProcessor.Process | src/apis/batch.ts:140-220 | the loop: the outcome and results of the specification, and the old database on every failure |
| BatchProcessing.ProcessInternalRequest | src/apis/batch.ts:223-297 | one request: unknown action, stop error, any other reaction to a stop, thrown error, error status or result |
| BatchProcessing.InternalRequest.PrepareInternalAction | src/apis/batch.ts:329-375 | finds the call and rewrites method and URL in place |
| BatchFiles.DecimalsArePrefixFree | src/apis/batch.ts:93 | a decimal index followed by a non-digit can be read in one way only |
| BatchFiles.DecimalExactly | src/apis/batch.ts:93 | an index is written in digits without a leading zero, in one way |
| BatchFiles.AddressIsUnique | src/apis/batch.ts:93 | a key `requests.N.field` or `requests[N].field` names at most one field of one request, in one notation |
| BatchFiles.PartReachesOneField | src/apis/batch.ts:87-104 | a part reaches at most one field of one request, as the next of its files |
| BatchFiles.ExtractPrefixedFiles | src/apis/batch.ts:455-479 | the fields of a request with their files in form order, and no others |
| BatchFiles.DistributeFiles | src/apis/batch.ts:87-104 | every body gets exactly its files and keeps its other fields |
| BodyLimits.ReadLimitedResponseBody | src/apis/record_auth_with_oauth2.ts:658-695 | the first min(limit, total) bytes for every chunking, reading no further than the crossing chunk |
| BodyLimits.ApplyBodyLimit | src/apis/middlewares_body_limit.ts:75-119 | refuses iff the declared or actual length exceeds a positive limit, otherwise rebinds the same bytes; reads no further than the crossing chunk |
| BodyLimits.KeptIsPrefix | src/apis/record_auth_with_oauth2.ts:674-682 | cutting the crossing chunk gives exactly the prefix |
| Cors.ExactWildcardMatch | src/apis/middlewares_cors.ts:257-292 | the loop over reversed labels is the label-wise comparison |
| Cors.WildcardMatchesExactly | src/apis/middlewares_cors.ts:247-292 | for origins whose first colon opens the authority: equal schemes, at most 253 characters, labels equal or wildcard |
| Strings.JoinSplit | src/apis/middlewares_cors.ts:274-275 | the labels joined are the authority and contain no dot |
| Strings.IndexOfIsFirst | src/apis/middlewares_cors.ts:248-265 | the search finds the first colon and the first opening of an authority |
| Cors.BuiltPatternIsGlob | src/apis/middlewares_cors.ts:222-238 | escaping and replacing yields an expression that means the glob, for every allowed origin |
| Cors.BuiltPatternMeans | src/apis/middlewares_cors.ts:222-238 | the built expression matches exactly the texts with one part for each character of the allowed origin: any text within a line for a star, one character for a question mark, else the character |
| Cors.PatternSubsumesWildcard | src/apis/middlewares_cors.ts:222-292 | whenever the wildcard comparison accepts a one-line origin and what stands before the openings matches as a glob, the pattern matches |
| Cors.PatternSubsumesOrigins | src/apis/middlewares_cors.ts:222-292 | in particular whenever the first colons open the authorities |
| Cors.SkippedTextIsNotMatched | src/apis/middlewares_cors.ts:247-265 | an accepted origin the pattern does not match, with an earlier colon |
| Cors.LineBreakIsNotMatched | src/apis/middlewares_cors.ts:222-234 | and one with a line break, for callers of the exported comparison |
| Cors.AllowOrigin | src/apis/middlewares_cors.ts:141-188 | the first accepting entry decides the header, then the patterns, for origins with `://` and at most 261 characters |
| Zip64Lookup.LookupInvertsWriter | scripts/backup_zip64_qualification.ts:82-136 | on every archive of the reference writer with sizes within 2^53 the lookup stays in bounds and answers whether the first entry of the name has the sentinel and a large enough ZIP64 size, if the one read of the tail misses only zero bytes |
| Zip64Lookup.AnswerMeans | scripts/backup_zip64_qualification.ts:95-105 | the answer is yes iff the first entry of the name has the sentinel and a large enough ZIP64 size |
| Zip64Lookup.SizeMeans | scripts/backup_zip64_qualification.ts:126-136 | the ZIP64 size is in the first field with its id and at least eight bytes, or 0 |
| Zip64Lookup.HasZip64Entry | scripts/backup_zip64_qualification.ts:82-106 | the single read of the tail and the loop over entries are the lookup function, on any bytes and for any length of that read |
| Zip64Lookup.ReadAt | scripts/backup_zip64_qualification.ts:108-117 | short reads are completed, or the end of the file is an error |
| Zip64Lookup.FindSignature | scripts/backup_zip64_qualification.ts:119-124 | the last end signature |
| Zip64Lookup.Zip64UncompressedSize | scripts/backup_zip64_qualification.ts:126-136 | the size in the first long enough ZIP64 field, converted to a double; 0 on a malformed field |
| Zip64Lookup.SignatureBytes | scripts/backup_zip64_qualification.ts:88-95 | numbers are little-endian: both signatures, the sentinel and the ZIP64 id are the bytes that stand in a file |
| Zip64Lookup.ExtrasRead | scripts/backup_zip64_qualification.ts:126-136 | reading written extra fields gives the ZIP64 size |
| ImportGraph.CollectRouteFiles | scripts/docs/rebuild_from_upstream.ts:196-222 | succeeds iff every reachable file is readable; then the entry first and exactly the other reachable files, each once, in depth-first order |
| ImportGraph.ReachedAreCanonical | scripts/docs/rebuild_from_upstream.ts:170-222 | from a canonical entry every reached path is canonical, so no file has two names |
| RelativePaths.ResolvesByWalking | scripts/docs/rebuild_from_upstream.ts:170-183 | an import resolves exactly to the path reached by walking from the importing file's directory, if that stays in the tree and is a source file |
| RelativePaths.UpAndDown | scripts/docs/rebuild_from_upstream.ts:170-183 | an import up some directories and down some names takes off as many directories and puts on the names, if there are that many and a source file results |
| RelativePaths.ResolvedIsCanonical | scripts/docs/rebuild_from_upstream.ts:170-183 | resolved paths have no empty, dot or dot-dot segment |
| RelativePaths.NormalizeTwice | scripts/docs/rebuild_from_upstream.ts:171-172 | normalising what joining has normalised changes nothing |
| ImportGraph.RouteFiles.Visit | scripts/docs/rebuild_from_upstream.ts:200-218 | one visit: terminates, adds only reachable files, and all their imports |
| ImportGraph.DepthFirstInParts | scripts/docs/rebuild_from_upstream.ts:212-218 | visiting one list of files and then another is visiting both |

## Left out

- The coordinator and the worker's import, sockets and acknowledgements: a broadcast ends at the hand-over, and an
  import, a prepare or a broadcast is a step that may come late or fail.
- DeleteDelivery.DeletedExactlyOnce: each event of a prepare, and each broadcast event, reaches the other worker at
  most once; that channels between workers keep their order is not used.
- Prepares for different `App` objects: the barrier is stated per transport state.
- Prepares outside a transaction and in asynchronous transactions, which are awaited directly.
- Prepares whose record cannot be decoded or that fail half way: `TwoPhaseDelete.Prepare` is the successful prepare.
- The chunks in which clients are visited: they are one sequence of distinct clients.
- Access rules, expand, hooks, enrichment and JSON encoding of realtime messages: the `render` parameter.
- The SSE connection loop, keep-alives and the lifetime of a connection.
- OAuth2Links.LinksStayConsistent: is about complete logins one after the other; interleaved logins are in
  `OAuth2Interleaving`.
- Subscriptions.Client.Subscribe: the query and header options stored with each topic, which are part of `render`.
- ClientAuth.SurvivesUntilRevoked: later steps are updates, deletes and collection events; `IdentityKeptExactlyWhile`
  and `TopicsAreTheLastAccepted` cover further requests of the client.
- OAuth2Links.Store.Lookup: emails are compared exactly; with a case-insensitive index on the email field the lookup
  ignores case (src/core/base.ts:2274-2279), and what an email earns is then not equality.
- Subscribe hooks that replace the client or the identity of a request, or run the handler twice.
- Hooks that replace the record of a login, the provider exchange, avatars, MFA and token issuing.
- Password hashing and token keys: a password is an opaque value, and a reset is the random one.
- BatchProcessing.BatchProcessor.Process: the requests of a batch are distinct objects, as reading the body makes
  them; a hook that repeats one is not modelled.
- Header merging and multipart re-encoding of internal batch requests, and the shape of error responses.
- Zip64Lookup.LookupInvertsWriter: directories that need a 64-bit offset or count, and archive comments.
- Cors.AllowOrigin: configurations with a custom allow function, and the other CORS headers.
- ImportGraph.CollectRouteFiles: the extraction of import specifiers by a regular expression is the map `files`.
- Body streams that fail while being read.
- Agreement between rate-limit rules and their stored limiters, and limiter clocks that run backwards.
- The execution of SQL statements after splitting.
