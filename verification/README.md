# opsgate: verified model

opsgate is a broker that lets agents call HTTP APIs and Postgres databases with credentials they never see.
This project models the parts of it whose correctness depends on more than one function, and proves what they
promise, for every input, run or interleaving.

| file | what it models |
|---|---|
| `OidcRefresh.dfy` | the OIDC metadata cache and its epoch-gated refresh, as a state machine over the steps between await points (dropped futures included), and as a class performing those steps |
| `SchemaResponse.dfy`, `SchemaOutput.dfy`, `SchemaWalk.dfy` | the `sql_schema` response and its encoding, trimmed to a byte budget that counts its own length field, and the table listing a client walks with `next_cursor` |
| `PreviewPath.dfy`, `PreviewStats.dfy`, `PreviewRanking.dfy` | the JSON preview: path printer, bounded sampler, ranking and byte cut |
| `Projection.dfy`, `JsonOutput.dfy` | JSONPath and table projections, and the two entry points that shape a body |
| `CredentialModel.dfy`, `CredentialRepo.dfy`, `CredentialService.dfy`, `CredentialRuns.dfy`, `CredentialEffects.dfy` | credential registration, update and deletion with their history, over whole runs, and what each does in terms of the raw request |
| `CredentialRaces.dfy` | updates whose read and write other operations come between |
| `ApiCallPolicy.dfy` | the HTTP call boundary over any store a run reaches |
| `KeysetListing.dfy` | listing credentials by alias while the store changes between pages |
| `ClientCaches.dfy` | TLS clients and Postgres pools cached by credential id, with store operations, calls in flight and evictions interleaved |
| `SqlAst.dfy`, `SqlTerms.dfy`, `SqlPolicy.dfy` | the SQL syntax tree and its subterms, the shape check on its spine, and the policy visitor that stops at the first violation |
| `Transpose.dfy` | ragged result rows turned into rectangular columns |
| `CappedReader.dfy` | reading a chunked response up to a limit |
| `Wrappers.dfy`, `Text.dfy`, `Json.dfy` | options and results, text order, trimming and case folding, JSON encodings and their lengths |

Where the source updates fields or loops, the model is a class or a method with a loop, and its `ensures` equates
the new state with a function of the old one; the lemmas about that function say what it means.

Findings, each stated and proved below:

- A schema page can lose its last table; `PageEmptiedIff` says exactly when, in lengths of shorter pages. A page of one table loses it when the
  response does not fit as built (`OneTablePage`), and a page cut down to one table loses it when the guidance does not
  fit beside it (`LastTableLostToGuidance`), because the second trim drops at least one table more. Such a page says
  `has_more` with an empty cursor, so the walk is back at its start (`EmptiedPageRestarts`), visiting again what it had
  visited (`RestartVisitsAgain`). Repeating one request, the walk ends exactly when no page is emptied
  (`RepeatedWalkEndsIff`). Two tables with names of 63 control characters, asked for one by one within 1024 bytes, never
  end (`EmptiedPageExists`), and after a table with a short name they make the walk list that table again
  (`MidWalkRestartExists`); with identifiers of ordinary length it never happens (`OrdinaryWalk`).
- `returned_bytes` is measured before it is written, so the encoded response can be longer than the report and than
  `max_bytes`; `OverBudgetIff` says exactly when. Untrimmed, the response is longer than its report by the digits beyond
  the first (`UntrimmedReport`): an ordinary table reports 1024 bytes within 1024 and is 1027 long
  (`UntrimmedOverBudgetExists`). With guidance it exceeds its report by one byte at most (`GuidedReport`), and the budget
  exactly when the report is the budget and gained a digit: another ordinary table is 1025 bytes long
  (`GuidedOverBudgetExists`). Trimmed without guidance it never exceeds a report within the budget (`TrimmedReport`).
- A printed preview path offered back as a projection is accepted for what it is exactly when no key on it holds a
  control character below U+0020, its last key is not `count` or `length`, it has at most 512 bytes and it holds no `..`
  (`PrintedPathAccepted`); the printer leaves control characters unescaped (`PrintedPathIsQuery`).
- `[*]` in a query selects the values of an object too, and the sampler descends only into arrays: a path whose wildcard
  comes to an object selects nodes and has no statistic (`PresentCountsSelectedNodes`).
- The two JSON entry points report different sizes exactly when the source was cut and no size was given
  (`EntryPointsAgree`).
- A cached pool keeps the address its host resolved to when it was created: a later call that resolves another address is
  given the old one until the pool is evicted (`AddressOfTheFirstCallStays`). In all other respects, and for TLS clients
  in all respects, a call gets what an empty cache would give it (`PoolsDifferOnlyInAddress`, `ClientsAreTransparent`).
- An update checks its policy against the credential it read and writes by owner, alias and category. If that
  credential is deleted and the alias registered again in between, the policy lands on a secret it was never checked
  against and can allow its headers (`RaceBreaksRule`); nothing else breaks the header rule (`RuleInEveryRace`,
  `RuleAfterWriteIff`).
- The SQL shape check looks at nothing off the query's spine, derived tables included (`OnlyTheSpineIsChecked`); the
  visitor does.

Two remarks on machine widths, far from any configured value. The OIDC epoch wraps at 2^64: a key refresh that waits
while exactly that many outcomes are published fetches again and puts older endpoints back
(`LapOverwritesNewerData`, in a run `LapIsReachable` exhibits); the statements about runs assume no suspended call is that
far behind. A capped read reports exactly for every body when its limit is below the largest machine size
(`ReportIsExact`); the only caller passes 1 MiB.

## Model

| member | source | states |
|---|---|---|
| OidcRefresh.StepKeepsInv | backend/crates/api/src/auth/oidc.rs:98-185 | every step of `metadata` and `refresh_jwks`, and dropping either at any await, keeps the cache equal to what the log of published outcomes says, one gate holder at most, and every suspended or finished call consistent with the log |
| OidcRefresh.CacheHoldsLastFetches | backend/crates/api/src/auth/oidc.rs:98-185 | in every interleaving the cache holds endpoints and fetch time of the last successful discovery, keys of the last successful fetch of either kind, the failure of the last outcome, and an epoch counting published outcomes |
| OidcRefresh.NeverEmptied | backend/crates/api/src/auth/oidc.rs:119-139 | once filled, the cache stays filled to the end of the run |
| OidcRefresh.SnapshotsAgree | backend/crates/api/src/auth/oidc.rs:189-203 | two snapshots less than a lap apart with the same `attempt` are equal, so replacing the keys of a snapshot never brings back older endpoints |
| OidcRefresh.SingleFlight | backend/crates/api/src/auth/oidc.rs:106-120 | at most one fetch in flight, started on the epoch that is still current; one published outcome for each observed epoch |
| OidcRefresh.KeyRefreshKeepsDiscovery | backend/crates/api/src/auth/oidc.rs:161-171 | publishing refreshed keys changes the keys of the current cache and nothing else of it |
| OidcRefresh.AnswersAreCurrent | backend/crates/api/src/auth/oidc.rs:98-185 | every returned snapshot is the cache of its moment and within its lifetime or newer than what its caller first saw; a key refresh answers with a newer epoch, or with the failure of the outcome that directly follows its snapshot; a discovery fails with the last failure only while nothing was ever discovered |
| OidcRefresh.WarmReadersNeverWait | backend/crates/api/src/auth/oidc.rs:98-104 | a first read is answered at once, with the cache of its moment, exactly when that is within its lifetime, and otherwise waits at the gate |
| OidcRefresh.RecheckAnswers | backend/crates/api/src/auth/oidc.rs:107-117 | under the gate a discovery is answered from a cache that is fresh or newer than it saw, with an error only when nothing was ever discovered, and otherwise fetches; a key refresh that finds anything published since its snapshot is answered with the cached metadata, even when the last outcome is a failure, and otherwise fetches |
| OidcRefresh.PublishAnswers | backend/crates/api/src/auth/oidc.rs:119-183 | a publication answers its own caller: a failed key refresh with its own message, a failed discovery with the older metadata when there is any, a success with what it fetched |
| OidcRefresh.OtherStepsAnswerNobody | backend/crates/api/src/auth/oidc.rs:98-185 | no other step answers anyone |
| OidcRefresh.OneErrorForEachFailedRefresh | backend/crates/api/src/auth/oidc.rs:147-183 | in every run there are exactly as many errors among the answers of key refreshes as failed key fetches published |
| OidcRefresh.NeverStuck | backend/crates/api/src/auth/oidc.rs:106-107 | whatever was cancelled, while some call is suspended a step of a suspended call is possible |
| OidcRefresh.RefetchIffWholeLaps | backend/crates/api/src/auth/oidc.rs:147-155 | under the gate a key refresh fetches exactly when the outcomes published since its snapshot are a multiple of 2^64 |
| OidcRefresh.LapOverwritesNewerData | backend/crates/api/src/auth/oidc.rs:147-171 | a caller exactly one lap behind a newer discovery fetches, and the cache it publishes holds the older discovery's endpoints and fetch time, which differ from those it replaces |
| OidcRefresh.LapIsReachable | backend/crates/api/src/auth/oidc.rs:98-185 | there is a run from a cold cache whose last step does that |
| OidcRefresh.OidcProvider.MetadataStart | backend/crates/api/src/auth/oidc.rs:98-104 | the first read answers from a fresh cache or queues at the gate with what it observed |
| OidcRefresh.OidcProvider.RefreshJwksStart | backend/crates/api/src/auth/oidc.rs:143-147 | a key refresh queues at the gate with the snapshot it was given |
| OidcRefresh.OidcProvider.LockRefresh | backend/crates/api/src/auth/oidc.rs:107 | taking the refresh gate |
| OidcRefresh.OidcProvider.RecheckCache | backend/crates/api/src/auth/oidc.rs:108-117 | re-reading the cache under the gate answers or starts a fetch |
| OidcRefresh.OidcProvider.FetchReturned | backend/crates/api/src/auth/oidc.rs:119-120 | the fetched result waits for the write lock; nothing shared changes |
| OidcRefresh.OidcProvider.PublishOutcome | backend/crates/api/src/auth/oidc.rs:120-139 | the whole new state after publishing a success or failure of either kind |
| OidcRefresh.OidcProvider.Drop | backend/crates/api/src/auth/oidc.rs:107 | a dropped future releases the gate and publishes nothing |
| SchemaOutput.SqlSchemaOutput.FinalizeOutput | backend/crates/service/src/sql_schema/output.rs:86-113 | measuring, trimming, guidance and the second trim leave exactly `Finalize` of the original fields |
| SchemaOutput.SqlSchemaOutput.TrimSchemaPayload | backend/crates/service/src/sql_schema/output.rs:115-118 | detail first, then the list |
| SchemaOutput.SqlSchemaOutput.TrimTableDetail | backend/crates/service/src/sql_schema/output.rs:120-137 | the loop terminates in `TrimDetail` of the original fields |
| SchemaOutput.SqlSchemaOutput.TrimTableList | backend/crates/service/src/sql_schema/output.rs:139-154 | the loop terminates in `TrimTables` of the original fields |
| SchemaOutput.SqlSchemaOutput.SerializedLen | backend/crates/service/src/sql_schema/output.rs:156-160 | serializing and counting gives the length the other statements reckon with |
| SchemaResponse.EncodeLen | backend/crates/service/src/sql_schema/output.rs:7-84 | for every response, the bytes of its encoding, fields left out when empty or false included, are as many as the length the trimming reckons with |
| SchemaResponse.ToJsonInjective | backend/crates/service/src/sql_schema/output.rs:7-84 | no field of a response is lost in its encoding: responses with one JSON tree are equal |
| SchemaOutput.GuidanceIff | backend/crates/service/src/sql_schema/output.rs:86-113 | a response is cut exactly when its encoding is over the budget; guidance comes with it exactly when the budget is below the largest and the guidance fits beside what the first trim leaves, and suggests twice the budget up to the largest |
| SchemaOutput.MeasureError | backend/crates/service/src/sql_schema/output.rs:156-160 | a measurement is the length of the encoding, and differs from the length of the response that reports it by the change in its own digits |
| SchemaOutput.ReportWithinBudget | backend/crates/service/src/sql_schema/output.rs:86-113 | the report fits the budget or nothing is left to trim |
| SchemaOutput.UntrimmedReport | backend/crates/service/src/sql_schema/output.rs:87-91 | an untrimmed response reports a fitting length and exceeds it by exactly its digit count minus one |
| SchemaOutput.TrimmedReport | backend/crates/service/src/sql_schema/output.rs:92-113 | when trimming ends within budget without guidance, the true encoded length is at most the report, which is within the budget |
| SchemaOutput.GuidedReport | backend/crates/service/src/sql_schema/output.rs:92-107 | with guidance the true length is the report plus a digit difference, at most one byte over |
| SchemaOutput.OverBudgetIff | backend/crates/service/src/sql_schema/output.rs:86-113 | the encoded response is longer than the budget exactly when: untrimmed, its length and the digits it leaves out are; guided, the report is the budget and gained a digit; otherwise, only with nothing left to trim and the report over the budget |
| SchemaOutput.UntrimmedOverBudgetExists | backend/crates/service/src/sql_schema/output.rs:87-91 | an ordinary table within 1024 bytes is reported as 1024 and encoded as 1027 |
| SchemaOutput.GuidedOverBudgetExists | backend/crates/service/src/sql_schema/output.rs:92-107 | an ordinary table trimmed to 1024 bytes with guidance is reported as 1024 and encoded as 1025 |
| SchemaOutput.FinalizeShape | backend/crates/service/src/sql_schema/output.rs:115-154 | tables and columns survive as prefixes, columns go only after indexes and primary key, and a page that lost tables counts those kept, says there is more and resumes after the last kept |
| SchemaOutput.PageKeepsATable | backend/crates/service/src/sql_schema/output.rs:86-154 | a page of at most 100 tables with identifiers of ordinary length keeps a table under every budget the service admits |
| SchemaWalk.ListPage | backend/crates/service/src/sql_schema/executor.rs:33-88 | the page loop keeps the first `limit` rows, and sets `has_more` and the cursor from the extra row |
| SchemaWalk.ListingIs | backend/crates/service/src/sql_schema/executor.rs:35-48 | the listing is exactly the base tables and views outside the two metadata schemas |
| SchemaWalk.ListedKind | backend/crates/service/src/sql_schema/executor.rs:263-269 | a listed view is shown as a view, any other listed row as a table |
| SchemaWalk.CursorSurvives | backend/crates/service/src/sql_schema/executor.rs:256-261 | a (namespace, name) survives the cursor text exactly when the namespace has no dot, the text no outer whitespace, and neither part NUL, CR or LF |
| SchemaWalk.MatchingSuffix | backend/crates/service/src/sql_schema/executor.rs:37-57 | the key of the i-th listed table selects exactly the tables after it |
| SchemaWalk.FinalizedPage | backend/crates/service/src/sql_schema/output.rs:139-154 | however a page is trimmed, it is a prefix of the fetched rows whose `returned`, `has_more` and cursor describe that prefix |
| SchemaWalk.PageAt | backend/crates/service/src/sql_schema/executor.rs:33-88 | a page asked for at position n holds the next tables in order and resumes exactly where they end |
| SchemaWalk.WalkVisitsEveryTableOnce | backend/crates/service/src/sql_schema/executor.rs:33-88 | if every page keeps a table, feeding the cursor back visits every table once in order and ends within as many requests as tables, for any limits and trimming |
| SchemaWalk.OrdinaryRowsKeepATable | backend/crates/service/src/sql_schema/output.rs:86-154 | identifiers of ordinary length always leave a table on the page |
| SchemaWalk.OrdinaryWalk | backend/crates/service/src/sql_schema/input.rs:68-124 | so over such a catalog the walk is complete for every admitted limit and budget |
| SchemaWalk.FirstTrimIsLongest | backend/crates/service/src/sql_schema/output.rs:139-154 | the list loop leaves the longest page, short of the whole, whose report is within the budget, or none; the report of k tables is the length of their page with its cursor and `has_more`, and the digits of the report before |
| SchemaWalk.PageEmptiedIff | backend/crates/service/src/sql_schema/output.rs:86-154 | a page is emptied exactly when it does not fit as built and no shorter page fits, or the guidance does not fit beside those that do and no page shorter still fits |
| SchemaWalk.OneTablePage | backend/crates/service/src/sql_schema/output.rs:86-113 | a page of one table keeps it exactly when the response fits as built |
| SchemaWalk.LastTableLostToGuidance | backend/crates/service/src/sql_schema/output.rs:92-113 | a page cut down to one table loses it exactly when the guidance does not fit beside it |
| SchemaWalk.EmptiedPageRestarts | backend/crates/service/src/sql_schema/output.rs:139-154 | after an emptied page, wherever it is, the walk has the empty cursor and what it had visited |
| SchemaWalk.RestartVisitsAgain | backend/crates/service/src/sql_schema/executor.rs:33-88 | and the next page that keeps a table visits the first table again |
| SchemaWalk.RepeatedWalkEndsIff | backend/crates/service/src/sql_schema/executor.rs:33-88 | repeating one request, the walk ends exactly when no page is emptied, and then it has visited every table once in order |
| SchemaWalk.EmptiedPageExists | backend/crates/service/src/sql_schema/input.rs:68-124 | a catalog of 63-byte identifiers and an admitted request whose first page is emptied, so that repeating it never ends and visits nothing |
| SchemaWalk.MidWalkRestartExists | backend/crates/service/src/sql_schema/executor.rs:33-88 | a catalog whose second page is emptied, so that the third lists the first table again |
| PreviewPath.EscapeNameIsEscape | backend/crates/json-output/src/preview.rs:166-172 | the two replacement passes escape each character once |
| PreviewPath.ParsePrint | backend/crates/json-output/src/preview.rs:78-102 | undoing the printer (shorthand or quoted names, both escapes) gives back the keys and wildcards, for every sequence of them |
| PreviewPath.PrintedPathIsQuery | backend/crates/json-output/src/preview.rs:166-181 | a printed path is a well-formed query (sections 2.3.1.1 and 2.5.1.1 of RFC 9535) exactly when no key holds a character below U+0020, and then it is the query of its own steps |
| PreviewPath.PrintInjective | backend/crates/json-output/src/preview.rs:166-181 | no two locations print alike |
| PreviewPath.PrintedPathHasNoOperator | backend/crates/json-output/src/projection.rs:130-144 | a printed path is taken without operator exactly when its last step is not the key `count` or `length` |
| PreviewPath.SplitOperatorIs | backend/crates/json-output/src/projection.rs:130-144 | each of the four operator words is taken off the end of a path, and a path ending in none of them keeps whole |
| PreviewStats.StatsTable.AddPreview | backend/crates/json-output/src/preview.rs:108-145 | counting a node in the string-keyed map counts it at its location |
| PreviewStats.StatsTable.MarkStopped | backend/crates/json-output/src/preview.rs:147-151 | marks the location's statistic and no other |
| PreviewStats.StatsTable.CollectPreview | backend/crates/json-output/src/preview.rs:65-106 | the bounded recursive sampler computes the location-keyed statistics |
| PreviewStats.StatisticsDescribe | backend/crates/json-output/src/preview.rs:65-151 | a location has a statistic exactly when it is within the depth and array limits and selects a sampled node; the statistic is the type, count, nulls, length bounds and stop mark of exactly those nodes |
| PreviewStats.StatisticBounds | backend/crates/json-output/src/preview.rs:108-145 | nulls never exceed presence, and array bounds come together and in order |
| PreviewStats.ReachedInCutDocument | backend/crates/json-output/src/preview.rs:88-101 | going by names into objects and by `[*]` into arrays of the document with arrays cut to ten elements is sampling the original |
| PreviewStats.SelectIsReached | backend/crates/json-output/src/preview.rs:76-102 | where no wildcard comes to an object, that is what the query selects (sections 2.3.1 and 2.3.2 of RFC 9535) |
| PreviewStats.MeetingReachesNothing | backend/crates/json-output/src/preview.rs:76-102 | a path within the limits whose wildcard comes to an object reaches nothing, since names lead to one node at most |
| PreviewStats.PresentCountsSelectedNodes | backend/crates/json-output/src/preview.rs:65-151 | `present_sampled` is the number of nodes the path, as a query, selects in the cut document, and at most what it selects in full; within the limits a path that selects something has a statistic exactly when its wildcard is not at an object |
| PreviewRanking.RankingUnique | backend/crates/json-output/src/preview.rs:41-46 | one ranking exists, whatever order the map is read in |
| PreviewRanking.BeforeIff | backend/crates/json-output/src/preview.rs:41-46 | of two like entries the one sampled more often comes first, then the smaller path; an entry not expanded stands 1000 samples back, an object 200, an array 100 |
| PreviewRanking.PathsLenIs | backend/crates/json-output/src/preview.rs:51-56 | the byte budget counts the encoded bytes of the returned paths |
| PreviewRanking.EntryJsonInjective | backend/crates/json-output/src/types.rs:136-150 | no field of a returned path is lost in its encoding |
| PreviewRanking.RankEntries | backend/crates/json-output/src/preview.rs:30-46 | reading the map in any order and sorting yields the ranking |
| PreviewRanking.CutToBudget | backend/crates/json-output/src/preview.rs:47-56 | the two cuts leave the longest prefix of at most 20 entries and 4096 encoded bytes, and report whether anything was cut |
| PreviewRanking.BuildPreview | backend/crates/json-output/src/preview.rs:23-63 | the result is a preview of the document's own statistics |
| PreviewRanking.PreviewUnique | backend/crates/json-output/src/preview.rs:23-63 | any two previews of a document are equal |
| Projection.ProjectJsonPaths | backend/crates/json-output/src/projection.rs:38-59 | the loop computes `ProjectPaths`, the first error included |
| Projection.ValidPathsProject | backend/crates/json-output/src/projection.rs:10-59 | validated paths always project: one member per distinct trimmed path, in key order, holding that path's projection |
| Projection.ProjectOneIs | backend/crates/json-output/src/projection.rs:38-59 | a path ending in a count word gives the number of nodes the rest selects, one ending in a length word the one length or all of them, another path the nodes |
| Json.DecimalIs | backend/crates/json-output/src/projection.rs:157-159 | a printed number is digits without a leading zero that denote it |
| Projection.ProjectTable | backend/crates/json-output/src/projection.rs:88-114 | the nested loops compute `TableOf`, errors included |
| Projection.ValidTableProjects | backend/crates/json-output/src/projection.rs:61-123 | a validated table always projects to one row per base node and one cell per column: null, the node, or an array |
| Projection.PrintedPathAccepted | backend/crates/json-output/src/projection.rs:10-36 | a printed path is accepted, as the path it is, exactly when no key holds a control character, its last key is no operator word, it is short enough and it holds no two dots in a row |
| JsonOutput.CompactJsonLen | backend/crates/json-output/src/json.rs:236-254 | counting the serializer's writes gives the length of the compact encoding |
| JsonOutput.ByteCounter.WriteValue | backend/crates/json-output/src/json.rs:237-250 | the writes for one value add its encoded length to the counter |
| JsonOutput.EntryPointsAgree | backend/crates/json-output/src/json.rs:14-72 | on a value's compact encoding the two entry points agree exactly unless the source was cut with no size given |
| JsonOutput.FailsOnlyOnBadInput | backend/crates/json-output/src/json.rs:14-86 | a call fails exactly when its options are invalid or an uncut body is not JSON: validated projections never fail |
| JsonOutput.BudgetDecides | backend/crates/json-output/src/json.rs:88-118 | a returned body fits and reports its length; an omitted one was cut or too long, says which, advises accordingly, and carries a preview exactly when the whole body was asked for; the body mode names the projection or the source |
| JsonOutput.RetryWithSuggestion | backend/crates/json-output/src/json.rs:182-200 | the suggested budget is larger, at most the largest allowed and at most the body; retrying with it returns the body or is already at the largest allowed; without a suggestion no larger budget would help |
| JsonOutput.SuggestionsAre | backend/crates/json-output/src/json.rs:226-234 | the suggested paths are the first three scalar ones of the preview, in its order |
| JsonOutput.SuggestionsSelect | backend/crates/json-output/src/json.rs:226-234 | each path an answer suggests is a printed location of its body first seen holding a scalar, whose steps select a node, and is a well-formed query for them exactly when no key holds a control character |
| CredentialModel.ValidateNoOverlap | backend/crates/model/src/credential/header.rs:5-23 | the nested loops accept exactly when no allowed header equals a secret header, ignoring ASCII case |
| Text.TrimIs | backend/crates/model/src/credential/validation.rs:20-49 | trimming takes off exactly the whitespace at both ends |
| Text.EqFoldIs | backend/crates/model/src/credential/header.rs:21-23 | two texts are equal ignoring ASCII case exactly when they differ at most in the case of letters |
| Text.LessIff | backend/crates/model/src/credential/validation.rs:338-348 | one text sorts before another exactly when it ends, or has the smaller character, where they first differ |
| CredentialRepo.CredentialRepo.InsertHistoryEvent | backend/crates/db/src/credential_repo.rs:465-528 | appends one event with the next version of its owner and alias |
| CredentialRepo.CredentialRepo.InsertCredential | backend/crates/db/src/credential_repo.rs:23-98 | a new row and its register event together, or neither when the alias is live |
| CredentialRepo.CredentialRepo.FindCredentialByAlias | backend/crates/db/src/credential_repo.rs:100-137 | the live row of an owner and alias, if any |
| CredentialRepo.CredentialRepo.UpdateCredentialMutableFields | backend/crates/db/src/credential_repo.rs:180-241 | COALESCE over the four mutable columns of the matching row, and its update event |
| CredentialRepo.CredentialRepo.SoftDeleteCredential | backend/crates/db/src/credential_repo.rs:243-293 | the matching row loses its secret and its life, and its delete event is recorded |
| CredentialService.ComputeChangedFields | backend/crates/service/src/credential/update.rs:114-135 | the four comparisons in order |
| CredentialService.ChangedFieldsAre | backend/crates/service/src/credential/update.rs:114-135 | exactly the differing fields, each once |
| CredentialService.PlanIsExact | backend/crates/service/src/credential/update.rs:29-84 | a plan's patch applied through COALESCE yields exactly the requested record, differs from the old one, and lists exactly the differing fields |
| CredentialService.CredentialService.RegisterCredential | backend/crates/service/src/credential/service.rs:61-97 | normalize, validate, insert: the whole new store and the answer |
| CredentialService.CredentialService.UpdateCredential | backend/crates/service/src/credential/service.rs:192-240 | look up, plan, apply: the whole new store and the answer |
| CredentialService.CredentialService.DeleteCredential | backend/crates/service/src/credential/service.rs:173-190 | validate and soft-delete: the whole new store and the answer |
| CredentialRuns.MaxVersionIsCount | backend/crates/db/src/credential_repo.rs:510-528 | with versions 1..n so far, MAX(version) is the number of events, so the next event continues the count |
| CredentialRuns.UpdateEffect | backend/crates/service/src/credential/service.rs:192-240 | a successful update turns the one live row into the planned record, records exactly the differing fields, moves nothing else, and has checked any new HTTP policy against the sealed headers |
| CredentialRuns.DeleteEffect | backend/crates/db/src/credential_repo.rs:243-293 | a successful delete destroys the one live row's secret and appends one event |
| CredentialEffects.RegisterEffect | backend/crates/service/src/credential/service.rs:61-97 | a registration is refused exactly when its alias is live or the request invalid, and then changes nothing; otherwise rows and history grow by one row and one register event, the next of its key, and every field of the row is said in terms of the raw request |
| CredentialEffects.NewRowIs | backend/crates/model/src/credential/validation.rs:20-49 | the fields of that row: flags, target, CA, trimmed texts and their defaults, tags, policy, and a secret that opens to the normalized one |
| CredentialEffects.NormalizeTagsIs | backend/crates/model/src/credential/validation.rs:338-348 | tags are the given ones that are not blank, trimmed and lower-cased, in strictly ascending order |
| CredentialEffects.NormalizePolicyIs | backend/crates/model/src/credential/policy.rs:54-93 | an HTTP policy defaults to GET and the root prefix, with methods upper-cased and headers canonical; a SQL policy has its denied functions lower-cased; nothing else changes |
| CredentialEffects.CanonicalIs | backend/crates/model/src/credential/header.rs:91-107 | a canonical header name is the trimmed one cut at its dashes, the first letter of each part raised and the rest lowered |
| CredentialEffects.UpdateOutcome | backend/crates/service/src/credential/service.rs:192-240 | an update of a live credential succeeds exactly when it is valid and changes something, and then that row has each given field normalized and the others as before, and one event lists the differing fields; without a live credential it finds none; refused, it changes nothing |
| CredentialEffects.DeleteOutcome | backend/crates/service/src/credential/service.rs:173-190 | a delete succeeds exactly when reason and alias are in order and the alias is live, and then that row has no secret and no life and one event is recorded; refused, it changes nothing |
| CredentialRuns.ExecKeepsStore | backend/crates/service/src/credential/service.rs:61-240 | every operation keeps one live row per owner and alias, each row's own secret, and every history in shape |
| CredentialRuns.ExecKeepsRule | backend/crates/service/src/credential/service.rs:61-240 | every operation keeps the header rule, row by row |
| CredentialRuns.ExecKeepsInv | backend/crates/service/src/credential/service.rs:61-240 | every operation keeps both, on the whole store |
| CredentialRuns.RunKeepsInv | backend/crates/service/src/credential/service.rs:61-240 | so does every run |
| CredentialRuns.HistoryOfEveryRun | backend/crates/db/src/credential_repo.rs:465-528 | for each owner and alias versions are exactly 1..n, actions form (register update* delete)* with an optional open tail, and the credential is live exactly when the last action is not a delete |
| CredentialRuns.SecretHeadersNeverAllowed | backend/crates/service/src/credential/update.rs:102-112 | in every reachable store an HTTP credential's secret opens and its allowed headers overlap none of the sealed names, ignoring ASCII case |
| CredentialRuns.ExecExtends | backend/crates/db/src/credential_repo.rs:193-205 | no operation changes target, TLS material, network flags or (while it lives) secret of an id, and a deleted id never comes back |
| CredentialRaces.UpdateIsReadThenWrite | backend/crates/service/src/credential/service.rs:192-240 | an update is its read and its write with nothing in between |
| CredentialRaces.WriteEffect | backend/crates/db/src/credential_repo.rs:180-241 | the write changes the one live row it finds by the planned patch and appends one event, whatever happened since the read |
| CredentialRaces.RuleInEveryRace | backend/crates/service/src/credential/service.rs:61-240 | however updates overlap with other operations, histories stay in shape and the header rule holds on every credential but those whose policy was last set by an update planned for another one |
| CredentialRaces.RuleAfterWriteIff | backend/crates/service/src/credential/update.rs:102-112 | after a write that sets a policy the rule holds exactly when the policy allows none of the names sealed in the row it lands on, as always when that is the row it was planned for |
| CredentialRaces.RaceBreaksRule | backend/crates/db/src/credential_repo.rs:193-205 | for any alias and header name there is a run, with a delete and a registration between read and write, after which a credential allows its own secret header |
| ApiCallPolicy.CheckHeadersIff | backend/crates/service/src/api_call/policy.rs:83-92 | the header loop accepts exactly when every header is unblocked and allowed |
| ApiCallPolicy.BoundaryIff | backend/crates/service/src/api_call/policy.rs:63-92 | a call passes exactly when its method is allowed ignoring case, some prefix is the root, the path itself or, without its last slashes, followed by a slash and anything, no query key is denied, and every header is unblocked and allowed; a refused one gets the denial of the first check that fails, among headers of the first header |
| ApiCallPolicy.PathMatchesPrefixIs | backend/crates/model/src/credential/policy.rs:134-140 | the prefix match, said with an arbitrary remainder after the slash |
| ApiCallPolicy.HeaderBlockedIs | backend/crates/model/src/credential/header.rs:54-73 | a header is blocked exactly when its trimmed name is one of the listed ones or starts with x-forwarded- in some case |
| ApiCallPolicy.BoundaryProtectsSecretHeaders | backend/crates/service/src/api_call/policy.rs:63-111 | in every reachable store, a call that passes the boundary of a live HTTP credential names none of its secret headers |
| KeysetListing.NormalizedFilterStays | backend/crates/db/src/credential_repo.rs:295-301 | trimming again in the repository changes no filter the service has normalized |
| KeysetListing.WantedIs | backend/crates/service/src/credential/listing.rs:43-51 | what a raw filter asks of a row: category, trimmed provider and env, trimmed and lower-cased tag, search text; blank filters ask nothing |
| KeysetListing.PageIs | backend/crates/service/src/credential/service.rs:109-148 | exactly which requests are refused, the limit of the others, 50 when none is given, and that a page shorter than it holds every wanted row after the cursor |
| KeysetListing.ListPage | backend/crates/service/src/credential/service.rs:109-148 | fetching `limit + 1` rows through the repository's clamp and truncating gives exactly the first `limit` of everything selected, with `has_more` and the cursor of that page |
| KeysetListing.SelectIs | backend/crates/db/src/credential_repo.rs:302-347 | the query yields the wanted rows after the cursor, each once, in alias order |
| KeysetListing.HasMoreIsExact | backend/crates/service/src/credential/service.rs:130-142 | `has_more` holds exactly when a wanted credential remains after the page, and then the page is full |
| KeysetListing.NextInput | backend/crates/service/src/credential/listing.rs:43-93 | the cursor of a page that has more is always accepted as it is |
| KeysetListing.WalkUnderChange | backend/crates/service/src/credential/service.rs:109-148 | whatever operations run between pages: aliases strictly ascending, every listed row live and matching at its page, and, once done, every alias live and matching at each page has been listed |
| KeysetListing.WalkOfUnchangedStore | backend/crates/service/src/credential/service.rs:109-148 | over an unchanged store the walk is the whole listing and ends |
| ClientCaches.TargetHttpClients.CachedTlsClient | backend/crates/infra/src/http.rs:64-83 | look up, build on a miss, keep what was built; a failed build keeps nothing |
| ClientCaches.TargetHttpClients.ClientFor | backend/crates/infra/src/http.rs:48-62 | without a CA one of the two shared clients, otherwise the cached one |
| ClientCaches.TargetPgPools.PoolFor | backend/crates/infra/src/postgres_pool.rs:48-69 | the cached pool of a credential and database, or the new one, cached |
| ClientCaches.FetchIff | backend/crates/service/src/sql_query/service.rs:56-82 | a call is given a login exactly when its owner has a live credential of the alias and category, a postgres one for a sql call, and then what that row says |
| ClientCaches.OptionsIff | backend/crates/infra/src/postgres.rs:45-94 | a call gets connection options exactly when the database it names, if any, is well formed, its credential is a SQL one with a good url, and the host resolved to addresses all of which its mode admits |
| ClientCaches.OptionsMatchTheirKey | backend/crates/infra/src/postgres.rs:17-94 | the cache key and the options of one call name the same url, database (the one asked for, or else the url's), port and login, at the first resolved address, which the network mode admits |
| ClientCaches.StepKeepsCoherent | backend/crates/infra/src/postgres_pool.rs:45-69 | store operations, fetches, client and pool lookups, completions and evictions each keep the caches coherent with the rows and with every call in flight |
| ClientCaches.ClientsAreTransparent | backend/crates/infra/src/http.rs:48-83 | in every run, a call in flight gets exactly the TLS client or error an empty cache would give it, however long ago it read its credential: a client with its CA, guarded unless private networks are allowed, or an error for a CA that is no PEM |
| ClientCaches.PoolsDifferOnlyInAddress | backend/crates/infra/src/postgres_pool.rs:45-69 | in every run, a sql call in flight fails as with an empty cache or gets a pool of the same url, database, port and login at an admitted address, and the very same pool exactly when none is cached or the cached one was created at the address this call resolved |
| ClientCaches.AddressOfTheFirstCallStays | backend/crates/infra/src/postgres_pool.rs:58-68 | until it is evicted a pool serves calls that resolve another address |
| ClientCaches.CachedMaterialIsCurrent | backend/crates/infra/src/http.rs:64-83 | in every run, a cached client has its row's CA and is guarded exactly when that row allows no private networks, the pool of a live id carries that row's url, port, login and the keyed database, and no pool goes to an address its credential may not reach |
| ClientCaches.ReRegisteredAliasGetsNewEntries | backend/crates/db/src/credential_repo.rs:243-293 | once an id is deleted no later call is given it, so registering the alias again never meets its cached entries |
| SqlPolicy.SqlPolicyVisitor.CheckFunctionCandidates | backend/crates/service/src/sql_query/policy.rs:239-264 | the built-in list at call sites, then the credential's list |
| SqlPolicy.SqlPolicyVisitor.CheckFunctionCall | backend/crates/service/src/sql_query/policy.rs:218-235 | the schema rule, then the candidates |
| SqlPolicy.SqlPolicyVisitor.PreVisitRelation | backend/crates/service/src/sql_query/policy.rs:184-193 | the first violation of a relation node, and whether to stop |
| SqlPolicy.SqlPolicyVisitor.PreVisitExpr | backend/crates/service/src/sql_query/policy.rs:195-214 | the first violation of an expression node, and whether to stop |
| SqlPolicy.SqlPolicyVisitor.VisitStatement | backend/crates/service/src/sql_query/policy.rs:164-174 | visiting with early exit leaves exactly the first violation in pre-order, and stops exactly when there is one |
| SqlPolicy.FirstViolationIsFirst | backend/crates/service/src/sql_query/policy.rs:164-214 | no violation exactly when no visited node is forbidden; otherwise the first forbidden node's |
| SqlPolicy.VerdictIs | backend/crates/service/src/sql_query/policy.rs:184-281 | a term is refused exactly when it calls a built-in by its full or last name, names a denied function (a dotted entry by its full name, another by its last part), or without leave touches metadata: a catalog relation or a name qualified by a metadata schema; and which of these the violation says |
| SqlPolicy.NamePartsAre | backend/crates/service/src/sql_query/policy.rs:294-300 | the parts of a name are its identifiers in order, trimmed and lower-cased |
| SqlPolicy.VisitorIsFirst | backend/crates/service/src/sql_query/policy.rs:164-174 | the violation is that of the first refused subterm of the statement, in document order, wherever it stands |
| SqlPolicy.VisitorIff | backend/crates/service/src/sql_query/policy.rs:164-174 | the visitor passes exactly the statements in which no subterm is refused |
| SqlTerms.VisitedIffWithin | backend/crates/service/src/sql_query/policy.rs:164-174 | the visitor is given exactly the selects, relations and expressions among the subterms of the statement |
| SqlPolicy.ValidateQueryIsFirst | backend/crates/service/src/sql_query/policy.rs:100-131 | the shape check answers for the first misshapen term of the spine, in document order |
| SqlPolicy.ValidateQueryIff | backend/crates/service/src/sql_query/policy.rs:100-131 | the shape check accepts exactly a lock-free CTE, set-operation and nested-query spine with an INTO-free SELECT at each leaf |
| SqlPolicy.OnlyTheSpineIsChecked | backend/crates/service/src/sql_query/policy.rs:100-131 | taking everything off the spine out of a query does not change the shape check's answer |
| SqlPolicy.DerivedTablesPassTheSpine | backend/crates/service/src/sql_query/policy.rs:100-131 | two queries with the same spine get the same answer, whatever either derives in FROM |
| SqlPolicy.EnforceSqlPolicy | backend/crates/service/src/sql_query/policy.rs:54-98 | parse result, statement count, statement kind, spine, then visitor: the whole answer |
| SqlPolicy.AcceptedIff | backend/crates/service/src/sql_query/policy.rs:54-98 | accepted exactly when there is one statement, a query or permitted EXPLAIN of one, every term of its spine is in shape and no subterm calls a built-in, names a denied function or touches metadata without leave; the answer says whether it is an EXPLAIN and whether some SELECT within it lists a wildcard |
| SqlPolicy.RefusalIs | backend/crates/service/src/sql_query/policy.rs:54-98 | what a refused statement is refused for: its kind, then the first misshapen term of the spine, then the first refused subterm |
| SqlPolicy.AcceptanceMonotone | backend/crates/service/src/sql_query/policy.rs:54-281 | allowing more or denying fewer functions never rejects an accepted query, nor changes its analysis |
| Transpose.TransposeRows | backend/crates/service/src/sql_query/output.rs:146-178 | fails exactly when some row is not an object; otherwise one column per name, as long as there are rows, whose i-th entry is row i's member or null |
| Transpose.AddRow | backend/crates/service/src/sql_query/output.rs:150-167 | adding a row pads and pushes every column it names and leaves the others to be padded later |
| Transpose.AssembleColumns | backend/crates/service/src/sql_query/output.rs:168-177 | the final padding makes every column rectangular and keeps every member |
| Transpose.ColumnNamesAre | backend/crates/service/src/sql_query/output.rs:146-178 | column names are the rows' keys, each once |
| Transpose.FirstAppearanceOrder | backend/crates/service/src/sql_query/output.rs:150-167 | columns stand in the order their names first appear, row by row and within a row |
| Transpose.PushedColumn | backend/crates/service/src/sql_query/output.rs:158-163 | padding before a push never cuts a column and puts the value at its row |
| CappedReader.ReadCapped | backend/crates/service/src/api_call/target.rs:212-248 | unless the declared length already exceeds the limit, the result depends only on the concatenated bytes, not on chunk boundaries |
| CappedReader.ReportIsExact | backend/crates/service/src/api_call/target.rs:212-248 | a complete read returns the first min(total, limit) bytes, size min(total, limit + 1) and truncation exactly when there was more, for every body exactly when the limit is below the largest machine size |

## Left out

Environment, taken as parameters or assumptions:

- Network fetches, token checks and key material: a fetch returns an arbitrary success or failure.
- Sealing: an ideal authenticated round trip bound to the alias.
- The database migrations are not part of this model: one live row per owner and alias and fresh row ids are assumed, and transactions run one at a time. `CredentialRuns`, `KeysetListing` and `ClientCaches` take each service operation as one step (pages and calls in flight overlap them); `CredentialRaces` splits updates into their read and their write.
- The credential column's collation is any strict total order, and the ILIKE match any predicate of pattern and row.
- Unicode upper-casing, and the length, range and pattern checks of registration and update (`Rules`); list-filter format checks (`Listing.filterOk`).
- SQL parsing, JSON byte decoding, full JSONPath, PEM and connection-url parsing: the libraries' results are parameters; decoding is assumed to undo compact encoding where the two entry points are compared, and to map each key of an object once; the JSONPath library is assumed to accept, of the printed paths, the well-formed ones (`Projection.FollowsGrammar`).
- The schema catalog is fixed during one walk and its rows come in code-point order.

Not modelled:

- Name resolution: each call brings the addresses its host resolved to, arbitrary ones; the table of blocked addresses is a parameter.
- CredentialRaces.WriteEffect: the changed fields an overlapped update records are those of its plan, which need not be those it changes.
- Pool and client timeouts, idle eviction timing (eviction may happen at any moment), connection state, statement timeouts.
- Timestamps, actor ids, audit and history detail JSON, message texts and hints (the two schema hints enter only through their length).
- Field selection of listings, the credential summary, CIDR and SQLSTATE tables.
- Statements other than queries and EXPLAIN keep only their expressions; the parser's remaining node kinds are `OtherExpr`, `OtherBody` and `OtherStatement`.
- SqlPolicy.EnforceSqlPolicy: the wildcard visitor (`found` set at the first SELECT with a wildcard) enters as what it computes, a search of the visited nodes.
- URL building for calls, response headers and content types.
- The recursion of the derived syntax-tree traversal stands for code the parser library generates.
- SchemaWalk.WalkVisitsEveryTableOnce: assumes every page keeps a table, since a page trimmed to none restarts the walk; SchemaWalk.RepeatedWalkEndsIff shows the assumption is needed, SchemaWalk.PageEmptiedIff says when it fails and SchemaWalk.OrdinaryWalk gives a condition under which it holds.
- PreviewPath.PrintedPathIsQuery: the reader covers shorthand names, single-quoted names and `[*]`, the parts of the grammar a printed path uses; double-quoted names, indices, slices and filters are not read.
- OidcRefresh.SnapshotsAgree: stated for snapshots less than 2^64 publications apart, the width of the counter.
- CappedReader.ReadCapped: a failed read after the limit was passed is not reached, and chunks arrive in order.

Where the code and its own comments disagree the code is followed: the JSON entry points are described as matching
byte for byte, and differ in the case `EntryPointsAgree` names.
