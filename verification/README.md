# AskAi in Dafny

A model of the algorithms and protocols of AskAi, a retrieval platform for
regulatory documents, with proofs of what they keep and what they promise.
Each module follows one component:

- `GovukWalk`: the recursive, cycle-safe, depth-bounded walk over a gov.uk manual.
- `FosCrawl`: the paged decision crawl that stops at a date cutoff.
- `IngestPipeline`: one ingestion attempt as a transaction with effects outside
  the database, a fault possible at every step, and runs of attempts.
- `ConnectorProtocol`: owner edits and crawl workers sharing a tenant's settings.
- `FeedbackRanking`: votes aggregated into signals, signals nudging a ranking.
- `StreamBridge`: event-source callbacks feeding an async generator.
- `AgentLoop`: the bounded tool-calling loop and the transcript it keeps.
- `Citations`, `ChatMemory`, `AskService`: markers mapped back to chunks, capped
  history, and the blocking and streaming answer paths.
- `Slicing`: overlapping token windows.
- `Watcher`: feed polling, dedup and notification.
- `FolderPaths`, `FolderTree`: canonical folder paths and the tree derived from them.
- `GatewayStats`: percentiles and usage totals.
- `VerdictAggregation`: rule-pack verdicts rolled up.
- `Prelude`, `Text`: shared vocabulary and string operations.

Objects that the program updates are classes whose methods are proved equal to a
function of the old state; the properties over all inputs, runs and interleavings
are lemmas about those functions. Fetching a page, a model call, a tool call,
parsing, embedding and hashing are parameters or maps; `tanh` is any monotone
function into [-1, 1] that maps 0 to 0. No injectivity is assumed of the hash.

## Where the code and its documentation differ

The model follows the code.

- Depth-bounded walk: a page is marked visited before its depth is tested, so one
  first met beyond the bound is lost even when it also lies within it
  (`MarkedBeforeTestedLosesAPage`). Every page within the bound is requested
  exactly when no page the guard stopped at lies within it (`BoundIsKeptIff`), and
  a leaf is emitted exactly when some route to it goes round those pages
  (`LeafEmittedIffAroundCut`). On the site alone, nothing is lost exactly when no
  page's first route, in the order the children are listed, exceeds the bound
  (`CompleteIffFirstRoutesFit`).
- Feedback: the comments allow a couple of positions; at strength 2 the bound is
  three, and three is reached (`MoveIsBounded`, `ThreePlacesIsReached`). Moves stay
  within a couple of places exactly when no two documents are pulled more than
  three places apart (`MovesWithinIff`). With no
  signals the ranks are left as they were rather than reassigned. Once 4000 rows
  are stored, a new upvote can lower the document it names, because it evicts an
  older row (`UpvoteOnFullWindowCanLower`). No squash and no list of hits lets it
  fall exactly when the document gains at least what it loses and every other
  document that rises does so within that document's own rise
  (`FullWindowKeepsRankIff`).
- Ingestion: the vector-store delete and the object-storage write do not roll
  back. An update that fails after the delete leaves the previous version with
  its hash but without its chunks, and ingesting that version again is skipped
  (`LostChunksStayLost`). A fault after the commit raises although the document is
  stored; the job cannot be marked failed any more and stays running, or says
  success if only deciding on enrichment failed (`RaisedAttemptAdvancesIff`).
- Connectors: the edit route copies `last_run_epoch`, normalization drops it, so
  an edited scheduled connector is due at once (`EditKeepsDueTimesIff`). A stored
  depth of 0 crawls at depth 2 (`CrawlRespectsDepthIff`).
- Stream bridge: a frame holding JSON `null` ends the generator while the stream
  is open (`NullFrameEndsOpenStream`), and only such a frame does
  (`OpenEndingIffNullSent`). Every event is yielded before the generator returns, in
  every run, exactly when the server sends none after a null, close or error
  (`EveryEventYieldedIff`).
- Connector normalization is not idempotent: it strips before it truncates, and an
  all-space name becomes empty (`NormalizeTwiceDiffers`). It is on exactly the
  inputs `ConnectorProtocol.NormalizeStableIff` names.
- Chat memory: a cap of 0 turns keeps everything (`CapHoldsIffPositive`).
- Folders: truncation at 256 characters can leave a `..` segment
  (`TruncationCanLeaveDots`), or one ending in a space. The segments come through as
  promised, and normalizing again changes nothing, exactly when the cleaned path
  fits or is cut on a separator or in a segment that stays one to keep and does not
  come to end in a space (`FolderPaths.NormalizeStableIff`).

## Model

| member | source | states |
|---|---|---|
| `GovukWalk.GovukChildPaths` | corpus/uk_finreg/handbook_ingester.py:98-134 | the children are the named grouped sections, or the named linked ones when no grouped section is named |
| `GovukWalk.ChildSectionsExactly` | corpus/uk_finreg/handbook_ingester.py:101-109 | a section is a child exactly when it is named and grouped, or, if no grouped section is named, named and linked |
| `GovukWalk.ChildSectionsInOrder` | corpus/uk_finreg/handbook_ingester.py:98-134 | the children come in the order of the groups laid end to end, or of the links, each as often as it is named there |
| `GovukWalk.Crawler.WalkGovuk` | corpus/uk_finreg/handbook_ingester.py:162-206 | the recursive walk over shared visited set and output moves the crawler to the state the walk function gives |
| `GovukWalk.CrawlGovukManual` | corpus/uk_finreg/handbook_ingester.py:137-214 | the leaves are those of a walk from an empty state at depth 0; each belongs to a page that was requested and carries its URL, its title or else its path, and its whole body between a fixed head with that title and a fixed tail |
| `GovukWalk.BodiesAreKeptApart` | corpus/uk_finreg/handbook_ingester.py:201-214 | pages with the same title and different bodies give different html |
| `GovukWalk.CrawlIsSound` | corpus/uk_finreg/handbook_ingester.py:152-206 | on every site, cyclic or not: no page requested twice, no URL emitted twice, every page requested lies within the bound on a route without repeats, and the output is the bodied leaves requested, in order |
| `GovukWalk.CompleteIffNothingCut` | corpus/uk_finreg/handbook_ingester.py:171-176 | every reachable page is requested if and only if the depth guard never fired |
| `GovukWalk.CrawlIsExact` | corpus/uk_finreg/handbook_ingester.py:143-158 | when every route without repeats fits the bound, exactly the reachable leaves with a body are emitted |
| `GovukWalk.PageCountBoundsDepth` | corpus/uk_finreg/handbook_ingester.py:152-154 | a bound of at least the number of pages cuts no route |
| `GovukWalk.BoundIsHarmlessIffNothingCut` | corpus/uk_finreg/handbook_ingester.py:174-176 | all larger bounds give the same crawl if and only if nothing was cut |
| `GovukWalk.BoundIsKeptIff` | corpus/uk_finreg/handbook_ingester.py:171-176 | every page within the bound is requested if and only if no page the guard stopped at lies within it by another route |
| `GovukWalk.FetchedIffAroundCut` | corpus/uk_finreg/handbook_ingester.py:171-176 | page by page on any site: a page is requested if and only if some route from the root, of any length, meets no page the guard stopped at |
| `GovukWalk.LeafEmittedIffAroundCut` | corpus/uk_finreg/handbook_ingester.py:171-206 | a page without children and with a body is emitted if and only if some route to it meets no page the guard stopped at |
| `GovukWalk.CompleteIffFirstRoutesFit` | corpus/uk_finreg/handbook_ingester.py:162-206 | on the site alone: the guard never fires, and every reachable page is requested, if and only if no page's first route in the order of the children has more steps than the bound |
| `GovukWalk.FirstRouteExists` | corpus/uk_finreg/handbook_ingester.py:162-206 | every reachable page has exactly one first route among those that repeat no page |
| `GovukWalk.MarkedBeforeTestedLosesAPage` | corpus/uk_finreg/handbook_ingester.py:171-176 | a site on which a leaf one step from the root is lost at bound 1; `BoundIsKeptIff` and `LeafEmittedIffAroundCut` give the exact condition |
| `FosCrawl.CrawlSearch` | corpus/uk_finreg/fos_ingester.py:120-164 | for any listing, cutoff and page limit: pages are read up to the limit, the first failed or empty one, or the first with an older decision, and what is returned is, in order and once each, the decisions read that are not older than the cutoff |
| `FosCrawl.EarlyStopIsExactIff` | corpus/uk_finreg/fos_ingester.py:128-164 | stopping early equals filtering the whole listing if and only if every decision on the unread pages is older than the cutoff |
| `FosCrawl.SortedCrawlIsTheFilter` | corpus/uk_finreg/fos_ingester.py:128-164 | on a fully dated newest-first listing the crawl is exactly the filter |
| `IngestPipeline.WriteChunks` | packages/indexing/src/faastlab_askai_indexing/pipeline.py:373-424 | the nested batch loop, for any batch size, gives one row per chunk: the chunk's text without its NULs, in order, and the embedding of that content, with no placeholder left |
| `IngestPipeline.FillBatch` | packages/indexing/src/faastlab_askai_indexing/pipeline.py:417-422 | one batch changes the embeddings of its own rows and nothing else |
| `IngestPipeline.RowsAreOneMap` | packages/indexing/src/faastlab_askai_indexing/pipeline.py:385-424 | the rows of a concatenation are the concatenated rows, so a batch boundary leaves no trace |
| `IngestPipeline.Pipeline.IngestOne` | packages/indexing/src/faastlab_askai_indexing/pipeline.py:156-260 | one attempt with a fault at any step leaves documents, chunks, jobs and storage as the attempt function says; when it reports success the document is recorded with the content's hash and size, and every chunk's text, its embedding and the bytes are stored |
| `IngestPipeline.SkippedIffRecorded` | packages/indexing/src/faastlab_askai_indexing/pipeline.py:156-176 | an undisturbed attempt is skipped if and only if the URI's document records the digest of the bytes, and ingests otherwise |
| `IngestPipeline.CommittedDocument` | packages/indexing/src/faastlab_askai_indexing/pipeline.py:200-223 | a committed document keeps its id, its title unless that is a placeholder, and its retirement; a placeholder gives way to the source's title and then to the parsed one |
| `IngestPipeline.Pipeline.UpsertDocument` | packages/indexing/src/faastlab_askai_indexing/pipeline.py:328-347 | an existing document keeps its id and a title that is not a placeholder; a new one takes the best title offered |
| `IngestPipeline.Pipeline.WriteOutside` | packages/indexing/src/faastlab_askai_indexing/pipeline.py:177-194 | which effects outside the transaction have landed when a fault strikes |
| `IngestPipeline.Pipeline.CloseJob` | packages/indexing/src/faastlab_askai_indexing/pipeline.py:238-260 | the job row after the commit: success, or left as it is by a fault, because the fresh session refuses a job the open one holds |
| `IngestPipeline.RunKeepsIdentity` | packages/indexing/src/faastlab_askai_indexing/pipeline.py:156-371 | over any run, wherever attempts fail: one document per URI, ids distinct and never changed, chunks only of existing documents |
| `IngestPipeline.OthersUntouched` | packages/indexing/src/faastlab_askai_indexing/pipeline.py:177-194 | an attempt leaves every other URI's row, chunks and bytes alone |
| `IngestPipeline.RunKeepsTitleAndRetirement` | packages/indexing/src/faastlab_askai_indexing/pipeline.py:200-223 | over any run a title that is no placeholder survives, one that is replaced is replaced by a title some attempt on that URI offered, and a superseded document is never reactivated |
| `IngestPipeline.StoredWholeIffUndamaged` | packages/indexing/src/faastlab_askai_indexing/pipeline.py:156-260 | over every run from an empty tenant a URI has a document exactly when an attempt committed, records the last content committed, and holds it whole, chunks and bytes, if and only if no later failed attempt had an effect outside the database |
| `IngestPipeline.RaisedAttemptAdvancesIff` | packages/indexing/src/faastlab_askai_indexing/pipeline.py:238-260 | a raising attempt moves the documents on if and only if it fails after the commit; then the content is stored, a retry is skipped, and the job says running or success; failed or no row means nothing moved |
| `IngestPipeline.CurrentIsNeverReindexed` | packages/indexing/src/faastlab_askai_indexing/pipeline.py:325-326 | ingesting current content again, any number of times and with any faults, changes no document, chunk or stored byte |
| `IngestPipeline.SuccessAfterAnyRun` | packages/indexing/src/faastlab_askai_indexing/pipeline.py:14-18 | after any run of attempts one success leaves exactly its hash, chunks and bytes, and it stays so under re-ingestion |
| `IngestPipeline.FailedUpdateKeepsPreviousIff` | packages/indexing/src/faastlab_askai_indexing/pipeline.py:177-194 | a failed update leaves the previous version whole if and only if its calls outside the database had not taken effect |
| `IngestPipeline.LostChunksStayLost` | packages/indexing/src/faastlab_askai_indexing/pipeline.py:177-194 | otherwise the previous version stays recorded as current, is skipped for ever and never regains its chunks |
| `IngestPipeline.DifferentContentRepairs` | packages/indexing/src/faastlab_askai_indexing/pipeline.py:325-371 | an undisturbed ingest of different content stores it exactly, from any state |
| `IngestPipeline.JobsTellTheTruth` | packages/indexing/src/faastlab_askai_indexing/pipeline.py:279-308 | an attempt touches at most its own job row, which names the URI; success and running mean the content is stored, success names the document, skipped and failed mean that nothing moved, and only a raising attempt leaves running, failed or no row |
| `IngestPipeline.JobLogTellsTheTruth` | packages/indexing/src/faastlab_askai_indexing/pipeline.py:156-260 | over every run from an empty tenant each attempt's row is never touched again and tells the truth about it, and there are no other rows |
| `ConnectorProtocol.NormalizeBounds` | packages/core/src/faastlab_askai_core/connectors.py:39-78 | every submitted configuration is stored within bounds, with a known mode and clean lists |
| `ConnectorProtocol.NormalizeStores` | packages/core/src/faastlab_askai_core/connectors.py:39-87 | field by field: each list holds the stripped non-blank entries submitted in that same field, the first 50 in order; each number is the submitted one or its nearest bound; texts are stripped and cut; a known mode and the enabled flag are kept |
| `ConnectorProtocol.CleanSubmissionIsKept` | packages/core/src/faastlab_askai_core/connectors.py:39-87 | a configuration already within bounds and clean is stored unchanged |
| `ConnectorProtocol.NameStableIff` | packages/core/src/faastlab_askai_core/connectors.py:57 | the normalized name survives a second normalization if and only if stripping the submitted one leaves something and the cut at 128 does not fall after a space; names the routes accept are never cut |
| `ConnectorProtocol.DocTypeStableIff` | packages/core/src/faastlab_askai_core/connectors.py:67-69 | the normalized document type survives a second normalization if and only if the cut of the stripped one at 64 does not fall after a space |
| `ConnectorProtocol.NormalizeStableIff` | packages/core/src/faastlab_askai_core/connectors.py:39-78 | normalizing twice is normalizing once if and only if the submitted name is not all spaces and neither name nor document type is cut just after a space |
| `ConnectorProtocol.NormalizeTwiceDiffers` | packages/core/src/faastlab_askai_core/connectors.py:57-69 | an all-space name and a document type of 65 characters on which a second normalization changes the result |
| `ConnectorProtocol.Tenant.Save` | packages/api/src/faastlab_askai_api/routes/connectors.py:54-58 | copying the block, storing the items and putting it back is a save of the nested settings; a value that is no object makes it raise |
| `ConnectorProtocol.UpsertConnector` | packages/core/src/faastlab_askai_core/connectors.py:109-124 | the loop replaces every entry with the id, or appends when there is none |
| `ConnectorProtocol.Tenant.CreateConnector` | packages/api/src/faastlab_askai_api/routes/connectors.py:76-100 | a create transaction as one step of the protocol: the new connector is found under its id with the stored form of every submitted field and no history; when the block is no object it raises and changes no settings |
| `ConnectorProtocol.Tenant.UpdateConnector` | packages/api/src/faastlab_askai_api/routes/connectors.py:103-133 | an edit transaction as one step: the connector keeps id, creation time and history and is found with the stored form of every submitted field; an unknown id changes nothing |
| `ConnectorProtocol.Tenant.DeleteConnector` | packages/api/src/faastlab_askai_api/routes/connectors.py:136-158 | a delete transaction as one step; an unknown id changes nothing |
| `ConnectorProtocol.Tenant.LoadConnector` | packages/indexing/src/faastlab_askai_indexing/tasks.py:254-272 | a worker loads the configuration it will crawl with |
| `ConnectorProtocol.Tenant.FinishRun` | packages/indexing/src/faastlab_askai_indexing/tasks.py:305-319 | a finishing worker re-reads the settings and records its run, if the connector is still there |
| `ConnectorProtocol.EveryInterleavingKeepsInv` | packages/api/src/faastlab_askai_api/routes/connectors.py:54-158 | over every interleaving ids stay unique, stored and running configurations stay within bounds, and every other key of the settings and of the connectors block keeps its value |
| `ConnectorProtocol.StepOnConnector` | packages/core/src/faastlab_askai_core/connectors.py:109-141 | what any step does to any one connector, and that it leaves the others alone |
| `ConnectorProtocol.DeletedStaysDeleted` | packages/indexing/src/faastlab_askai_indexing/tasks.py:312-319 | no later step, a finishing crawl included, brings a deleted connector back |
| `ConnectorProtocol.EditSurvivesRunningCrawls` | packages/indexing/src/faastlab_askai_indexing/tasks.py:305-319 | an edit committed during crawls is still there after they finish |
| `ConnectorProtocol.HistoryIsRecentLog` | packages/core/src/faastlab_askai_core/connectors.py:133-141 | over every interleaving a connector's history is the 20 newest entries of its unbounded run log, newest first |
| `ConnectorProtocol.EditKeepsDueTimesIff` | packages/api/src/faastlab_askai_api/routes/connectors.py:118-126 | an edit leaves due times as they were if and only if the edited connector has no live schedule or had never run |
| `ConnectorProtocol.DueFromInterval` | packages/core/src/faastlab_askai_core/connectors.py:144-159 | a scheduled connector is due if and only if it is enabled and never ran or ran at least that many minutes ago |
| `ConnectorProtocol.CrawlRespectsDepthIff` | packages/indexing/src/faastlab_askai_indexing/tasks.py:270 | a crawl goes 2 deep when no positive depth was submitted, else as deep as submitted up to 6; so it respects its stored depth if and only if a positive one was submitted |
| `ConnectorProtocol.TallyRun` | packages/indexing/src/faastlab_askai_indexing/tasks.py:275-286 | pages are the sum of ingested, skipped and failed, each counted exactly |
| `FeedbackRanking.SignalsFor` | packages/search/src/faastlab_askai_search/feedback.py:158-176 | the nested loops over the newest rows give exactly the documents mentioned, with their net votes overall and on this question |
| `FeedbackRanking.NetIsAdditive` | packages/search/src/faastlab_askai_search/feedback.py:160-168 | net votes add over concatenated rows |
| `FeedbackRanking.NetIgnoresOrder` | packages/search/src/faastlab_askai_search/feedback.py:160-168 | net votes do not depend on the order of the rows |
| `FeedbackRanking.OneRowAdds` | packages/search/src/faastlab_askai_search/feedback.py:160-168 | one row adds its rating to a document as often as it names it, to the question's count only on that question |
| `FeedbackRanking.OppositeVotesCancel` | packages/search/src/faastlab_askai_search/feedback.py:160-168 | an upvote and a downvote on the same question and documents cancel, wherever they stand among the rows |
| `FeedbackRanking.DownvoteLowersBy` | packages/search/src/faastlab_askai_search/feedback.py:73-176 | with room in the window, a downvote naming a document once on this question lowers its raw score by exactly 0.6 |
| `FeedbackRanking.DownvoteMovesDown` | packages/search/src/faastlab_askai_search/feedback.py:79-176 | an instance in which a single downvote moves the first hit behind the second, for every squash below -0.5 at -0.6 |
| `FeedbackRanking.ApplyFeedbackNudge` | packages/search/src/faastlab_askai_search/feedback.py:79-108 | the hits come back in nudge order, ranked 1 to N, or untouched when there are no signals |
| `FeedbackRanking.NudgeSortsStably` | packages/search/src/faastlab_askai_search/feedback.py:105 | the nudge is a permutation ordered by shifted position and then by incoming position |
| `FeedbackRanking.NudgeFollowsPosition` | packages/search/src/faastlab_askai_search/feedback.py:97-107 | each place holds the hit with that many hits ahead of it, counted without sorting |
| `FeedbackRanking.FarApartNeverSwap` | packages/search/src/faastlab_askai_search/feedback.py:3-9 | hits at least twice the strength apart never swap |
| `FeedbackRanking.MoveIsBounded` | packages/search/src/faastlab_askai_search/feedback.py:18-20 | every hit moves fewer than twice the strength in places, and at strength 0 none moves |
| `FeedbackRanking.MovesWithinIff` | packages/search/src/faastlab_askai_search/feedback.py:5-9 | for any signals, squash and strength no hit of any list moves more than m places if and only if no two documents' shifts are more than m + 1 apart |
| `FeedbackRanking.MoveBoundedBySpread` | packages/search/src/faastlab_askai_search/feedback.py:97-107 | in one list, hits move at most m places when its own documents are pulled at most m + 1 places apart |
| `FeedbackRanking.ThreePlacesIsReached` | packages/search/src/faastlab_askai_search/feedback.py:5-9 | an instance with two opposing votes that moves a hit three places |
| `FeedbackRanking.SameDocumentKeepsOrder` | packages/search/src/faastlab_askai_search/feedback.py:90-91 | chunks of one document keep their order |
| `FeedbackRanking.OneVoteMovesItsDocumentItsWay` | packages/search/src/faastlab_askai_search/feedback.py:64-176 | with room in the window, storing an upvote for one document never worsens the final position of its chunks, a downvote never improves it |
| `FeedbackRanking.NeverFallsIffSheltered` | packages/search/src/faastlab_askai_search/feedback.py:79-108 | however the rows change, no squash and no list of hits lets a hit of a document fall if and only if its own score does not fall and no other score rises from below its start or to above its end |
| `FeedbackRanking.ShelteredNeverFalls` | packages/search/src/faastlab_askai_search/feedback.py:79-108 | the sufficient half at every strength |
| `FeedbackRanking.FullWindowExchanges` | packages/search/src/faastlab_askai_search/feedback.py:149-153 | with a full window a vote gains its own weight and loses the evicted row's, so the raw score holds up exactly when the gain covers the loss |
| `FeedbackRanking.FullWindowKeepsRankIff` | packages/search/src/faastlab_askai_search/feedback.py:48-176 | with a full window the rank condition read off the arriving and the evicted row |
| `FeedbackRanking.FullWindowVoteIsSafe` | packages/search/src/faastlab_askai_search/feedback.py:48-176 | with a full window a vote for one document never lowers it when it weighs at least the evicted row's and that row was no vote against another document |
| `FeedbackRanking.UpvoteOnFullWindowCanLower` | packages/search/src/faastlab_askai_search/feedback.py:48-50 | a full window in which an upvote lowers the document it names; `FullWindowKeepsRankIff` gives the exact condition |
| `StreamBridge.Bridge.OnMessage` | apps/web/src/lib/api.ts:1100-1111 | a parsed message, its event unchanged, goes to the waiting consumer or to the end of the queue; a malformed one is ignored |
| `StreamBridge.Bridge.OnClose` | apps/web/src/lib/api.ts:1112-1128 | closing and failing mark the stream done and release a waiting consumer |
| `StreamBridge.Bridge.Promise` | apps/web/src/lib/api.ts:1082-1087 | a request is served from the queue, by the end marker, or waits |
| `StreamBridge.Bridge.Next` | apps/web/src/lib/api.ts:1131-1135 | the generator yields the event it was handed or returns on null |
| `StreamBridge.NothingLostOrReordered` | apps/web/src/lib/api.ts:1074-1136 | in every interleaving what was taken, the value in hand and the queue are the parsed messages in order, and a waiting consumer means an empty queue and an open stream |
| `StreamBridge.YieldsTheTextsSent` | apps/web/src/lib/api.ts:1100-1136 | in every run the yielded events are a beginning of the events of the data frames sent, one for one and in order, and all of them when the generator ended and none arrived too late |
| `StreamBridge.EndsOnlyAfterClose` | apps/web/src/lib/api.ts:1131-1135 | without a JSON null frame the generator ends only after close or error; an early end always took one |
| `StreamBridge.OpenEndingIffNullSent` | apps/web/src/lib/api.ts:1100-1135 | for any frames the server sends, the generator returns only after close or error in every run if and only if none of them holds JSON null |
| `StreamBridge.NullFrameEndsOpenStream` | apps/web/src/lib/api.ts:1100-1135 | the shortest run in which a null frame ends the generator with the stream open |
| `StreamBridge.EndedDeliversEverythingIff` | apps/web/src/lib/api.ts:1074-1136 | run by run, nulls included: an ended generator has yielded exactly the events received if and only if none arrived behind a null or after the end marker was handed over |
| `StreamBridge.EveryEventYieldedIff` | apps/web/src/lib/api.ts:1074-1136 | for any sequence of callbacks: in every run the ended generator has yielded every event received if and only if the server sends no event after a null, close or error |
| `StreamBridge.QuietServerIsNeverLate` | apps/web/src/lib/api.ts:1100-1128 | in any run only an event sent after a null, close or error can arrive too late |
| `StreamBridge.ClosedStreamDrains` | apps/web/src/lib/api.ts:1082-1136 | once the stream is closed or a null was received, the generator alone takes all that was received, or all up to the first null, in order, yields its events and returns |
| `AgentLoop.CallTools` | packages/mcp/src/faastlab_askai_mcp/agent.py:153-171 | one step and one tool message per call, in order, a failing tool or bad arguments included |
| `AgentLoop.CallsAreShown` | packages/mcp/src/faastlab_askai_mcp/agent.py:153-171 | each step and tool message shows the call's name and id, the arguments the tool was given, and the first 500 and 6000 characters of its text, or of a tool error |
| `AgentLoop.Run` | packages/mcp/src/faastlab_askai_mcp/agent.py:116-189 | the bounded loop with its wrap-up sends the transcripts and returns the result of the loop function, for any model and tools; the answer is the text of the first reply without calls, or of the wrap-up reply, or the step-limit notice when that is empty |
| `AgentLoop.TranscriptsFollow` | packages/mcp/src/faastlab_askai_mcp/agent.py:116-189 | the first transcript is the system prompt and the goal; each later one is the one before, the model's reply and the tool messages for its calls |
| `AgentLoop.AgentIsBounded` | packages/mcp/src/faastlab_askai_mcp/agent.py:125-185 | at most max_steps + 1 model calls; every transcript sent is well formed and extends the one before; the wrap-up is sent exactly when the budget ran out and never yields an empty answer |
| `AgentLoop.StepsAreToolMessages` | packages/mcp/src/faastlab_askai_mcp/agent.py:153-171 | the reported steps are the tool messages of the transcript one for one, each preview a cut of the message |
| `Citations.MarkerAtStartMeans` | packages/askai/src/faastlab_askai_askai/citations.py:17 | the scanner finds a marker at a position exactly where a bracketed run of digits stands |
| `Citations.MarkersNeverOverlap` | packages/askai/src/faastlab_askai_askai/citations.py:17 | no two markers overlap |
| `Citations.MarkersAreAll` | packages/askai/src/faastlab_askai_askai/citations.py:17-30 | the numbers read are those at every position where a marker stands, in order |
| `Citations.FindMarkers` | packages/askai/src/faastlab_askai_askai/citations.py:29-30 | the one-pass scan that jumps over matches finds the markers of every position |
| `Citations.FirstMentionsExactly` | packages/askai/src/faastlab_askai_askai/citations.py:26-33 | the kept numbers are exactly those in range, once each, in order of first mention |
| `Citations.SnippetShape` | packages/askai/src/faastlab_askai_askai/citations.py:35-37 | a snippet is one line of the chunk's own text, whole when it fits, else a beginning of it within the limit and an ellipsis |
| `Citations.SnippetShows` | packages/askai/src/faastlab_askai_askai/citations.py:35-37 | a snippet is the stripped text on one line, or its first characters up to the last space among them and an ellipsis |
| `Citations.ExtractCitations` | packages/askai/src/faastlab_askai_askai/citations.py:20-48 | one citation per kept number, with the id, document, title and snippet of the chunk it names |
| `Citations.ScanReadsBackRendering` | packages/askai/src/faastlab_askai_askai/citations.py:3-6 | rendering bracket-free text interleaved with markers and scanning it recovers the markers |
| `ChatMemory.SessionMemory.LoadHistory` | packages/askai/src/faastlab_askai_askai/memory.py:28-51 | a session's history is visible to its own tenant only; no session gives a new id and no history |
| `ChatMemory.SessionMemory.AppendTurn` | packages/askai/src/faastlab_askai_askai/memory.py:53-98 | one append creates or extends the row, which then ends in the question and the answer with its citations, and caps it; another tenant's id is rejected; other sessions stay as they are |
| `ChatMemory.AppendMeans` | packages/askai/src/faastlab_askai_askai/memory.py:53-98 | an append is rejected exactly for another tenant's session; a new session takes the user and the first 200 characters of the question, an old one keeps its user and title |
| `ChatMemory.HistoryIsLastTurns` | packages/askai/src/faastlab_askai_askai/memory.py:83-97 | after any appends over any sessions and tenants each history is the last turns of its owner's full log, on turn boundaries |
| `ChatMemory.HistoryAlternates` | packages/askai/src/faastlab_askai_askai/memory.py:87-96 | in a history the messages at even places are the questions and those at odd places the answers with their citations, turn by turn |
| `ChatMemory.CapHoldsIffPositive` | packages/askai/src/faastlab_askai_askai/memory.py:97 | among caps of 0 or more the cap is kept by every append if and only if it is at least one turn; 0 drops nothing |
| `AskService.AskAiService.Ask` | packages/askai/src/faastlab_askai_askai/service.py:70-131 | the blocking path answers with the gateway's text, or the refusal without hits, and its session ends in that question and answer with citations quoting the hits; nothing changes when generation fails |
| `AskService.AskAiService.StreamAsk` | packages/askai/src/faastlab_askai_askai/service.py:133-224 | the streaming path sends a prefix of its events and persists the turn exactly when the caller asks past the last token and nothing fails |
| `AskService.StreamSends` | packages/askai/src/faastlab_askai_askai/service.py:133-224 | a stream sends the number of hits, then the tokens one by one or the single refusal, then at most one Done, never more events than asked for |
| `AskService.StreamPersistsWhatAskDoesIff` | packages/askai/src/faastlab_askai_askai/service.py:86-224 | with tokens that join to the blocking text, the stream leaves the rows the blocking call leaves if and only if its caller asks past the last token of a stream that does not fail, or the turn would leave the rows as they are |
| `AskService.DoneCarriesTheAnswer` | packages/askai/src/faastlab_askai_askai/service.py:198-224 | a stream followed to its end sends Done exactly when the blocking call answers, last, with that answer's session and citations after tokens that spell it; one cut short or failing sends none |
| `AskService.RecutIsInvisible` | packages/askai/src/faastlab_askai_askai/service.py:198-218 | cutting a token anywhere leaves the same rows for a caller who asks for one event more, wherever that caller stops |
| `AskService.MarkerAcrossTokens` | packages/askai/src/faastlab_askai_askai/service.py:202-203 | a marker straddling two tokens is found only in their join |
| `AskService.ClientReadsThePersistedAnswer` | packages/askai/src/faastlab_askai_askai/service.py:175-218 | the token events spell the answer that was persisted |
| `Slicing.Slice` | packages/summarisation/src/faastlab_askai_summarisation/map_reduce.py:90-102 | the window loop, for any slice and overlap: a short text is one slice, a zero step raises, a negative one gives no slice |
| `Slicing.WindowsRebuildTheText` | packages/summarisation/src/faastlab_askai_summarisation/map_reduce.py:95-102 | the windows without their overlaps rebuild the tokens, all but the last are full and the last exceeds the overlap |
| `Slicing.WindowCount` | packages/summarisation/src/faastlab_askai_summarisation/map_reduce.py:96-101 | there are 1 + ceil((n - slice) / step) windows |
| `Slicing.EveryTokenCoveredIff` | packages/summarisation/src/faastlab_askai_summarisation/map_reduce.py:96-101 | every token falls in a window if and only if the overlap is not negative |
| `Watcher.FilterNew` | packages/watcher/src/faastlab_askai_watcher/service.py:177-205 | grouping and looking up per regulator gives the new events group by group |
| `Watcher.NewIsPermutationOfUnseen` | packages/watcher/src/faastlab_askai_watcher/service.py:186-205 | the new list is a permutation of the fetched events not stored, multiplicities kept |
| `Watcher.NewKeepsFetchOrder` | packages/watcher/src/faastlab_askai_watcher/service.py:186-205 | within a regulator new events keep their fetch order |
| `Watcher.NewSelectsFetched` | packages/watcher/src/faastlab_askai_watcher/service.py:186-205 | the new list's events of one regulator stand in the fetched list, in the same order, exactly where that regulator's events are not stored |
| `Watcher.NewIsGrouped` | packages/watcher/src/faastlab_askai_watcher/service.py:186-205 | the new list goes regulator by regulator in the order they first appear among the fetched events |
| `Watcher.WatcherService.PollOnce` | packages/watcher/src/faastlab_askai_watcher/service.py:87-173 | one poll with failing feeds and notifiers: the counters, what is stored and what is handed out |
| `Watcher.FetchedJoins` | packages/watcher/src/faastlab_askai_watcher/service.py:101-121 | the fetched list is the feeds' events one feed after the other, a feed that raised adding nothing |
| `Watcher.PollHands` | packages/watcher/src/faastlab_askai_watcher/service.py:125-162 | each notifier is handed one copy of the same new list, or nothing when nothing is new; its regulator and external id pairs are stored exactly when a notifier inserts |
| `Watcher.WatcherService.Fan` | packages/watcher/src/faastlab_askai_watcher/service.py:153-162 | every notifier sees every new event and one that raises stops none of the others |
| `Watcher.OutcomeAddsUp` | packages/watcher/src/faastlab_askai_watcher/service.py:125-136 | feeds polled and failing, events fetched, notifiers run and raising are counted exactly; the per-regulator counters sum to the new events and each counts its regulator's |
| `Watcher.StoredIsNeverHandedAgain` | packages/watcher/src/faastlab_askai_watcher/service.py:127-162 | over any later polls an event already stored is never handed to a notifier |
| `Watcher.HandedIsStoredIff` | packages/watcher/src/faastlab_askai_watcher/service.py:151-162 | a batch is stored if and only if the database notifier inserted it; otherwise the same feeds hand it out again |
| `Watcher.OncePerKey` | packages/watcher/src/faastlab_askai_watcher/service.py:125-162 | over any run two polls never hand out the same key, if the earlier one stored what it handed out |
| `FolderPaths.NormalizedShape` | packages/api/src/faastlab_askai_api/routes/documents.py:38-56 | a normalized folder has at most 256 characters and nonempty segments, all but the last clean for certain, all of them when the joined path fits |
| `FolderPaths.NormalizeKeeps` | packages/api/src/faastlab_askai_api/routes/documents.py:38-56 | with backslashes read as slashes, the path is made of the stripped segments that are neither empty nor dots, in order, cut at 256 characters and then at trailing slashes; it is the root exactly when none is kept |
| `FolderPaths.NormalizeStableIff` | packages/api/src/faastlab_askai_api/routes/documents.py:38-56 | on the submitted path: the result is unchanged by a second normalization, and has only clean segments, if and only if the cleaned path fits or the cut falls on a separator or leaves a kept segment not ending in a space; dots can only come from the cut |
| `FolderPaths.TruncationCanLeaveDots` | packages/api/src/faastlab_askai_api/routes/documents.py:55-56 | the cut can turn a name that starts with two dots into a parent segment |
| `FolderPaths.ClientKeepsNormalizedFolders` | apps/web/src/pages/Files.tsx:17-19 | the client reads a normalized folder as it is |
| `FolderPaths.ClientDropsOnlySlashes` | apps/web/src/pages/Files.tsx:17-19 | the client drops the slashes at the two ends of a folder and nothing else |
| `FolderTree.AllFolders` | apps/web/src/pages/Files.tsx:68-79 | exactly the ancestors of the documents' folders and the pending folders are registered |
| `FolderTree.Subfolders` | apps/web/src/pages/Files.tsx:82-93 | exactly the nonempty next segments below the current folder are listed |
| `FolderTree.IsUnderMeans` | apps/web/src/pages/Files.tsx:101-107 | the text prefix test is the prefix test on segments |
| `FolderTree.CountsAreOfPlaces` | apps/web/src/pages/Files.tsx:82-107 | the counts are of the documents in exactly this folder, and of those in it or below it |
| `FolderTree.SubtreeCountsAddUpIff` | apps/web/src/pages/Files.tsx:82-107 | a folder's count is its own files plus its listed subfolders' counts if and only if no document below has an empty next segment |
| `FolderTree.NormalizedFoldersAddUp` | apps/web/src/pages/Files.tsx:68-107 | on normalized folders the counts always add up and every document can be navigated to |
| `FolderTree.NavigableIff` | apps/web/src/pages/Files.tsx:68-93 | a document can be reached from the root by opening listed subfolders if and only if its folder has no empty segment |
| `GatewayStats.PercentileIsOrderFree` | packages/api/src/faastlab_askai_api/routes/gateway.py:163-173 | the percentile does not depend on the order of the values |
| `GatewayStats.PercentileWithinRange` | packages/api/src/faastlab_askai_api/routes/gateway.py:163-173 | before rounding it lies within any bounds the values lie within |
| `GatewayStats.PercentileMonotone` | packages/api/src/faastlab_askai_api/routes/gateway.py:163-190 | percentiles grow with p, before and after rounding |
| `GatewayStats.PercentileIsOnTheLine` | packages/api/src/faastlab_askai_api/routes/gateway.py:163-173 | on the values in ascending order, position (n - 1) * p falls between two neighbours and the percentile is the value there on the line between them, to the nearest hundredth; no values have none |
| `GatewayStats.SummarizeUsage` | packages/api/src/faastlab_askai_api/routes/gateway.py:66-101 | the loop counts denied and failed rows by their status, the rest as ok, and every row under its purpose; it spends only rows that were not denied |
| `GatewayStats.SpendAddsUp` | packages/api/src/faastlab_askai_api/routes/gateway.py:78-92 | spend adds up over rows; one row spends its tokens and cost, 0 for what it lacks, and nothing when it was denied |
| `GatewayStats.RequestStatsMeasure` | packages/api/src/faastlab_askai_api/routes/gateway.py:176-191 | p50 and p95 are the percentiles at 0.5 and 0.95 of the latencies of the rows that were not denied and have one, and of no others |
| `GatewayStats.DashboardsAgree` | packages/api/src/faastlab_askai_api/routes/gateway.py:66-191 | ok, errors and denied partition the rows, purposes sum to them, and the latency count is the request count |
| `VerdictAggregation.Aggregate` | packages/validators/src/faastlab_askai_validators/rule_pack_validator.py:137-159 | the counts are those of the verdicts, the score is the share of green among those that apply, and the light is red for a mandatory red or nothing applicable, else green from seven tenths and amber from four |
| `VerdictAggregation.ImprovingNeverWorsens` | packages/validators/src/faastlab_askai_validators/rule_pack_validator.py:145-159 | improving one verdict never lowers the score or worsens the overall light |
| `VerdictAggregation.DroppingARequirement` | packages/validators/src/faastlab_askai_validators/rule_pack_validator.py:142-143 | a requirement becoming not applicable never lowers score or light unless it was green; a green one never raises them, and changes the light exactly when no mandatory requirement is red and it was the only applicable one or its loss crosses a threshold |

## Left out

- Text operations work on ASCII whitespace, case and digits; Unicode categories are not modelled.
- An integer literal too long for Python's `int` in a citation marker, which raises, is not modelled.
- Floating-point rounding: scores, thresholds and percentiles are exact reals; a percentile is then rounded half to even to two places.
- The error rate and cost are not rounded; the quota view of the usage summary is not modelled.
- `IngestPipeline` takes one attempt at a time: two attempts on one URI racing for the unique constraint are not modelled, nor is a commit that raises after taking effect.
- Document metadata, chunk offsets and section paths, the regular expressions that clean titles, and the enrichment toggle; `parse` gives the cleaned title, the supersession verdict and the chunk texts of a source.
- `StreamBridge`: an aborted request calls neither callback, and what its library then does is not modelled.
- `ConnectorProtocol`: items that are no connectors, and a settings value that Python copies into a dictionary from a list of pairs, are not modelled.
- Scheduler ticks, audit records and the missing-tenant error of the connector routes.
- Two settings transactions overlapping on one tenant row: each is one atomic step.
- The wording of the agent's prompt and the tool schema sent with it.
- Snippet contents and latencies of answers beyond what `ExtractCitations` builds; retrieval is a given list of hits.
- The semaphore around map calls and the prompts of map and reduce.
- Per-feed outcome lists, the `only` filter and durations of a poll.
- Display order of subfolders, uploads and moves in the file page.
- Retrieval and scoring of a single rule-pack requirement.
