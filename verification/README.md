# Job Provenance: a Dafny model of its feed, query and storage logic

Job Provenance archives what happened to grid jobs. A primary storage takes files
and tags, and feeds index servers; index servers answer queries. This project models
the parts of both that decide which job data is kept, sent and found, and proves what
they promise.

`dafny verify dfyconfig.toml` checks everything. Code that only computes is modelled
by functions; code that changes fields, tables or buffers step by step is modelled by
classes and methods proved against such functions. Database tables are maps or sets
of rows, remote calls and other services are parameters giving their outcome.

| module | models |
|---|---|
| `Text`, `Base64`, `KnownAttrs` | C strings, job ids, attribute names, decimal numbers, network byte order; the base64 pair of section 4 of RFC 4648 |
| `AttrValues` | attribute values: order, database form, truncated index form (`attr.c`) |
| `ConditionBlob` | the stored form of feed conditions and its growing buffer (`db_ops.c`) |
| `SqlClause`, `IndexQuery`, `IndexMeaning`, `IndexExactness`, `SharedTables`, `QueryInstances` | the query compiler of the index server (`soap_ops.c`) and the join it generates |
| `FeedQuery`, `BatchFeed`, `AttrUnion` | query splitting, the batch feed and attribute unions (`feed.c`) |
| `FedMarks` | which jobs a feed has received, and incremental feeding (`feed.c`, `new_ftp_backend.c`) |
| `FeedRows` | the life of a feed at the index server (`bones_server.c`, `db_ops.c`, `soap_ps_calls.c`) |
| `FileHandles`, `Tags` | in-memory file handles and the append-only tag file (`new_ftp_backend.c`, `tags.c`) |
| `Uploads` | the upload protocol and the transfer guard (`new_ftp_backend.c`, `jp_callouts.c`) |
| `HandleCache` | the open-handle cache behind attribute retrieval (`attrs.c`) |
| `DeferredQueue` | deferred calls (`context.c`) |
| `FormatExamples` | the stored formats at one value each |

## Where the code does less than one would like

Each of these is proved exactly, with the condition under which the expected property holds.

- Truncated index comparisons agree with the full values for every stored value if
  and only if the query's bounds fit the index (`AttrValues.IndexExactIff`).
- A condition survives the blob if and only if its operator has an `op_args` entry or
  it has no values, and no binary value is present but empty
  (`ConditionBlob.ConditionSurvivesIff`); `UNEQUAL` does not.
- When a statement selects exactly the jobs asked for is settled for every list that
  compiles (`SharedTables.ExactIff`). Several conditions on one attribute must be met by
  one row, which is right if and only if one of them implies the others
  (`SharedTables.ExactIffStrongest`, `QueryInstances.BothAreNotExact`); `EXISTS` beside a
  comparison in one condition is dropped
  (`IndexExactness.ExistsIsDroppedBesideComparisons`, `QueryInstances.MixedExistsIsLost`); a jobId
  comparison anywhere but in front makes the statement a syntax error
  (`IndexMeaning.WellFormedIffShaped`, `QueryInstances.LateJobIdIsAnError`).
- Fed marks are kept by the unique part of a job id: an increment can go out first if
  and only if a job id has no slash or two jobs share the part behind it
  (`FedMarks.FullBeforeIncrementalIff`).
- A feeder round leaves its row locked if and only if the feed is not configured or
  the credentials load in none of the ten attempts (`FeedRows.RoundUnlocksIff`,
  `FeedRows.WithoutCredentialsItStaysLocked`).
- `destination_info` recovers job, class and name if and only if the class has no dot
  and the job id is the registered one (`Uploads.InfoAfterStart`,
  `Uploads.DottedClassIsSplit`).
- Binary tags are answered without their value, because their size is not restored
  (`Tags.AppendExtendsOneAnswer`).
- Files stay open if and only if a plugin refuses a file that opens
  (`HandleCache.NoLeakIff`, `HandleCache.Cache.GetAttrs`).

## Model

| member | source | states |
|---|---|---|
| AttrValues.EscapeColon | org.glite.jp.common/src/attr.c:73-84 | the buffer holds the old prefix, the escaped text and a terminator; nothing beyond twice the input is needed |
| AttrValues.CountUnescaped | org.glite.jp.common/src/attr.c:93-94 | the first pass gives the exact size of the unescaped text, or reports the over-read |
| AttrValues.UnescapeColon | org.glite.jp.common/src/attr.c:88-105 | both passes together compute the unescaped text and the bytes consumed, filling exactly the buffer the first pass sized |
| AttrValues.UnescapeEscape | org.glite.jp.common/src/attr.c:69-105 | unescaping restores any detail and consumes exactly its escaped form, whatever follows the colon |
| AttrValues.DatabaseRoundTrip | org.glite.jp.common/src/attr.c:107-182 | for every origin, 32-bit time, detail and string or binary value, from_db restores what to_db_full stored, an empty detail becoming absent |
| AttrValues.DatabaseFormIsInjective | org.glite.jp.common/interface/type_plugin.h:40-49 | two values share a database form if and only if they agree up to an empty detail |
| AttrValues.FromDbReads | org.glite.jp.common/src/attr.c:147-182 | kind, origin and name of a decoded value; other kinds are refused |
| AttrValues.FbToDbFull | org.glite.jp.common/src/attr.c:107-133 | the buffer is exactly 19 + 2 * detail + vsize bytes, every byte written, terminators included, lies inside it, and it holds the database form; NULL exactly for an origin outside the enumeration |
| AttrValues.FbCmpIsLex | org.glite.jp.common/src/attr.c:57-67 | fb_cmp is the lexicographic order on bytes for strings and for binaries, an error exactly for values of different kinds |
| AttrValues.FbCmpIsTotalOrder | org.glite.jp.common/src/attr.c:57-67 | antisymmetric, transitive and zero exactly on identical values |
| AttrValues.LexIsBefore | org.glite.jp.common/src/attr.c:57-67 | the order: at the first difference the smaller byte or the end comes first |
| AttrValues.CompareMeans | org.glite.jp.primary/src/feed.c:73-85 | what each operator asks for, said by equality and first difference |
| AttrValues.IndexIsMonotone | org.glite.jp.common/interface/type_plugin.h:51-60 | the index form is non-decreasing for every length |
| AttrValues.IndexComparisonIsOneSided | org.glite.jp.index/src/soap_ops.c:280-322 | on index values EQUAL and WITHIN miss no match, LESS, GREATER and UNEQUAL report no non-match |
| AttrValues.IndexExactIff | org.glite.jp.common/src/attr.c:135-145 | an operator is exact on the index for every stored value if and only if its bounds fit the index length |
| AttrValues.BoundsFitIsEnough | org.glite.jp.common/src/attr.c:135-145 | with fitting bounds the index comparison agrees with the full one on every value, however long |
| AttrValues.CounterexampleDisagrees | org.glite.jp.common/src/attr.c:135-145 | with other bounds there is a NUL-free value on which the two differ |
| AttrValues.IndexExactOnShortValues | org.glite.jp.common/src/attr.c:135-145 | all operators are exact between values that fit the index |
| Base64.DecodeEncode | org.glite.jp.common/src/attr.c:124-175 | the base64 pair used for binary values is inverse on every byte string |
| ConditionBlob.SwapIsInvolution | org.glite.jp.index/src/db_ops.c:86-87 | LONG_SWAP undoes itself on every 32-bit value |
| ConditionBlob.BlobIsByteOrderIndependent | org.glite.jp.index/src/db_ops.c:86-92 | machines of either byte order store the same bytes for a long |
| ConditionBlob.DecodeEncodeAll | org.glite.jp.index/src/db_ops.c:194-295 | deserialising a serialised list ends exactly at its end with one record per condition, in order |
| ConditionBlob.ConditionSurvivesIff | org.glite.jp.index/src/context.c:39-45 | a record is read back as the very same condition, operator included, origin becoming ANY, if and only if the operator is EQUAL, LESS, GREATER or WITHIN or there are no values, and no binary value is empty |
| ConditionBlob.BlobRoundTrip | org.glite.jp.index/src/db_ops.c:112-295 | for every list, exactly the safe conditions come back as they were, each at its place |
| ConditionBlob.BlobIsInjective | org.glite.jp.index/src/db_ops.c:194-295 | two lists of safe conditions with the same blob are the same list |
| ConditionBlob.ForeignBlob | org.glite.jp.index/src/db_ops.c:245-251 | behind any list, a record that does not start with COND is refused and a cut one read past its end |
| ConditionBlob.UnequalIsNotRestored | org.glite.jp.index/src/context.c:39-45 | a concrete UNEQUAL condition loses its value |
| ConditionBlob.GrowBuffer.Add | org.glite.jp.index/src/db_ops.c:147-163 | doubling keeps all earlier bytes and the new ones follow them |
| ConditionBlob.GrowBuffer.AddLong | org.glite.jp.index/src/db_ops.c:166-171 | appends the little-endian form on either kind of machine |
| ConditionBlob.GrowBuffer.AddField | org.glite.jp.index/src/db_ops.c:203-217 | appends a length and the bytes themselves |
| ConditionBlob.Serialize | org.glite.jp.index/src/db_ops.c:194-228 | the buffer holds the concatenated records of the list |
| ConditionBlob.SerializeOne | org.glite.jp.index/src/db_ops.c:201-219 | one record, magic, fields and arguments in order, behind what was there |
| ConditionBlob.Deserialize | org.glite.jp.index/src/db_ops.c:231-295 | the pointer loop computes the decoding, with its bad-magic and over-run outcomes |
| SqlClause.ClauseOfBlocks | org.glite.jp.index/src/soap_ops.c:396-413 | the concatenated condition texts parse if and only if they start without AND and continue with it, and then to the conjunction of all units |
| IndexQuery.AddAttrTable | org.glite.jp.index/src/soap_ops.c:226-237 | a table is listed once |
| IndexQuery.TablesIgnoreCase | org.glite.jp.common/src/indexdb.c:34-45 | two attributes share a table if and only if they differ at most in the case of letters |
| IndexQuery.RecConvertsIff | org.glite.jp.index/src/soap_ops.c:302-348 | when a comparison converts: a string for a job id, a value for WITHIN |
| IndexQuery.OddBounds | org.glite.jp.index/src/soap_ops.c:280-309 | an absent bound is printed as (nil), a blob compared with as XXX |
| IndexQuery.GetSqlOr | org.glite.jp.index/src/soap_ops.c:325-360 | the comparisons of all records but EXISTS, joined by OR; an error if any of them is one |
| IndexQuery.CondText | org.glite.jp.index/src/soap_ops.c:380-410 | the text of one condition: AND, origin, join and the parenthesised comparisons |
| IndexQuery.BuildQuery | org.glite.jp.index/src/soap_ops.c:364-429 | succeeds if and only if every record converts; lists each touched table once and no other |
| IndexMeaning.WellFormedIffShaped | org.glite.jp.index/src/soap_ops.c:374-429 | the WHERE clause is free of syntax errors if and only if a jobId comparison comes first if at all and something is compared |
| IndexMeaning.SelectedIsGrouped | org.glite.jp.index/src/soap_ops.c:364-432 | a selected job has one witness row per table for all conditions on it |
| IndexMeaning.GroupedIsSelected | org.glite.jp.index/src/soap_ops.c:364-432 | per-table witness rows make a joint tuple |
| IndexMeaning.CompiledMeaning | org.glite.jp.index/src/soap_ops.c:302-432 | for every accepted list: when it is a syntax error, and exactly which jobs the join selects otherwise |
| IndexMeaning.OwnersSeeTheirJobs | org.glite.jp.index/src/soap_ops.c:424-429 | with a peer exactly those jobs are selected that belong to a user row of that subject |
| IndexExactness.ExistsIsDroppedBesideComparisons | org.glite.jp.index/src/soap_ops.c:325-360 | exactly when a compiled condition treats a row as its records ask |
| IndexExactness.ExistsIsDroppedOnJobId | org.glite.jp.index/src/soap_ops.c:325-360 | the same for conditions on the job id |
| IndexExactness.GetOpCompares | org.glite.jp.index/src/soap_ops.c:240-270 | the SQL operator chosen compares as the query operator asks |
| IndexExactness.GroupedIffWanted | org.glite.jp.index/src/soap_ops.c:280-360 | under the checkable conditions, grouped witness rows on index values are wanted rows on full values |
| IndexExactness.CompilationPreservesMeaning | org.glite.jp.index/src/soap_ops.c:226-432 | the statement selects exactly the peer's jobs for which every condition has a stored row of its origin satisfying one of its records, judged on full values |
| IndexExactness.CompileQuery | org.glite.jp.index/src/soap_ops.c:364-432 | the built statement has that meaning in every database |
| SharedTables.ExactIff | org.glite.jp.index/src/soap_ops.c:280-432 | for every list that compiles to a well-formed statement, any bounds and mixtures included: it selects exactly the wanted jobs in every database if and only if neither can ever be met, or job ids match as asked and on each attribute what matches as compiled is wanted by every condition and what one condition wants matches |
| SharedTables.ExactIffStrongest | org.glite.jp.index/src/soap_ops.c:226-237 | for sound conditions the statement selects exactly the wanted jobs in every database if and only if they cannot be met at all or, on each attribute, one condition implies all the others |
| SharedTables.StrongestIsNeeded | org.glite.jp.index/src/soap_ops.c:364-432 | otherwise there is a database with a job that is wanted and not selected |
| QueryInstances.SharedTableNeedsOneRow | org.glite.jp.index/src/soap_ops.c:226-237 | a concrete job that is wanted but not selected because two conditions share a table |
| QueryInstances.BothAreNotExact | org.glite.jp.index/src/soap_ops.c:226-237 | these two conditions are sound and can be met, neither implies the other, so their statement is not exact |
| QueryInstances.MixedExistsIsLost | org.glite.jp.index/src/soap_ops.c:325-360 | a concrete job that is wanted but not selected because EXISTS stands beside a comparison |
| QueryInstances.LateJobIdIsAnError | org.glite.jp.index/src/soap_ops.c:374-429 | a jobId comparison behind another condition is a syntax error |
| FeedQuery.CheckItemCompares | org.glite.jp.primary/src/feed.c:49-86 | check_qry_item decides name, origin and the operator's comparison on the full value |
| FeedQuery.SplitAttrs | org.glite.jp.primary/src/feed.c:831-865 | the loop computes the metadata and other attributes, without owner and job id |
| FeedQuery.SplitQry | org.glite.jp.primary/src/feed.c:868-882 | the loop computes the metadata and other conditions |
| FeedQuery.ExtendOther | org.glite.jp.primary/src/feed.c:900-911 | each condition attribute not requested is appended to the list to fetch |
| FeedQuery.QrySplitIsPartition | org.glite.jp.primary/src/feed.c:868-882 | a stable partition: the two lists hold each condition of the query once, by kind and in the original order |
| FeedQuery.AttrSplitMembers | org.glite.jp.primary/src/feed.c:843-859 | exactly which requested attributes land in each list |
| FeedQuery.ExtraAttrsCover | org.glite.jp.primary/src/feed.c:900-911 | the extended list covers every other condition and repeats no requested attribute |
| FeedQuery.Filter | org.glite.jp.primary/src/feed.c:765-772 | passes if and only if every other condition is met by some fetched value |
| FeedQuery.SplitPreservesMeaning | org.glite.jp.primary/src/feed.c:765-911 | filtering in two stages accepts exactly the jobs the whole conjunction accepts |
| FeedQuery.ExtractMembers | org.glite.jp.primary/src/feed.c:774-790 | the extraction yields exactly the values whose names are listed |
| FeedQuery.ExtractIsFilter | org.glite.jp.primary/src/feed.c:774-790 | with names listed once each, the values of listed names are extracted once each and in order |
| FeedQuery.MetadataByName | org.glite.jp.primary/src/new_ftp_backend.c:1623-1630 | owner and registration time are metadata, and nothing else |
| FeedQuery.RegistrationTimeGoesToBackend | org.glite.jp.primary/src/feed.c:868-882 | a query on the registration time alone goes to the backend whole |
| BatchFeed.JpFeed.DrainFeed | org.glite.jp.primary/src/feed.c:724-736 | a non-empty stack becomes one more batch with its reported outcome, the jobs of a continuous feed are marked when it succeeds, and the stack is empty in any case |
| BatchFeed.FedAfterDrains | org.glite.jp.primary/src/feed.c:724-736 | the marks a feed leaves are those of its batches as steps of the feed history |
| BatchFeed.FeedIsHistory | org.glite.jp.primary/src/feed.c:724-736 | a feed whose id was issued for its attributes leaves in the feed history exactly its marks, and its batches as sends of all these attributes |
| BatchFeed.FedAfterIff | org.glite.jp.primary/src/feed.c:732-732 | after a feed a mark is there if and only if it was before, or the feed is continuous and some successful batch holds a job with that unique part |
| BatchFeed.JudgedIff | org.glite.jp.primary/src/feed.c:753-763 | a job cannot be judged exactly if its attributes cannot be retrieved |
| BatchFeed.JpFeed.Callback | org.glite.jp.primary/src/feed.c:738-822 | one job: skipped, stacked, or the 200th of a batch that is sent; the stack stays below 200 |
| BatchFeed.JpFeed.Turn | org.glite.jp.primary/src/feed.c:738-822 | sent batches followed by the stack remain what was accepted so far; a failure leaves a well-batched prefix |
| BatchFeed.JpFeed.RunQuery | org.glite.jp.primary/src/new_ftp_backend.c:1575-1609 | the same over the whole stream of jobs |
| BatchFeed.JpFeed.RunPlanned | org.glite.jp.primary/src/feed.c:918-922 | with all sends reported successful the batches are exactly the accepted jobs in order; full batches of 200, one last smaller done batch; on failure fewer than 200 accepted jobs are dropped unless a send failed; on every path the stack ends empty |
| BatchFeed.JpFeed.RunFeedDeferred | org.glite.jp.primary/src/feed.c:825-928 | the whole deferred feed, with the refused query, the query without metadata and the broken stream: conservation, batches of 200 and one last smaller one, exactly when it succeeds, exactly which marks it leaves, fewer than 200 accepted jobs dropped unless a send failed, and no job left for jpfeed_free |
| BatchFeed.TurnKeeps | org.glite.jp.primary/src/feed.c:738-822 | the step behind Turn, on sequences |
| BatchFeed.AcceptedExactly | org.glite.jp.primary/src/feed.c:753-808 | the accepted entries are those of the jobs that pass and have something to send, no more and no fewer |
| BatchFeed.AcceptedOnce | org.glite.jp.primary/src/feed.c:738-822 | distinct jobs are sent once each |
| BatchFeed.OnlyRequestedIsSent | org.glite.jp.primary/src/feed.c:774-790 | an entry carries exactly the requested values besides owner and job id, none fetched for a condition only |
| BatchFeed.SentIffWanted | org.glite.jp.primary/src/feed.c:738-928 | end to end: a job the backend found is sent if and only if it satisfies every condition of the whole query and has a requested value, and then with the value of its first owner item and exactly its requested values |
| BatchFeed.BatchCarriesNames | org.glite.jp.primary/src/feed.c:774-790 | a batch carries of a job every stored value of the names the feed history records for it, and no other |
| AttrUnion.SortSorts | org.glite.jp.primary/src/feed.c:464-482 | the sort step yields a sorted list of the same elements |
| AttrUnion.RunEnd | org.glite.jp.primary/src/feed.c:485-485 | the inner loop finds the end of a run of equal names |
| AttrUnion.Squeeze | org.glite.jp.primary/src/feed.c:486-486 | the in-place move closes the gap and changes nothing else in the list |
| AttrUnion.SqueezeRun | org.glite.jp.primary/src/feed.c:484-488 | one turn keeps the list sorted with the same set and makes one more entry final |
| AttrUnion.Dedup | org.glite.jp.primary/src/feed.c:484-488 | in-place removal ends with a strictly sorted list of the same set |
| AttrUnion.Union | org.glite.jp.primary/src/feed.c:471-493 | strictly sorted, the union of both inputs; the assertion fails exactly if both are empty |
| AttrUnion.UnionOfFeeds | org.glite.jp.primary/src/feed.c:536-540 | folding over all feeds gives every requested attribute once |
| AttrUnion.RequestedByAny | org.glite.jp.primary/src/feed.c:536-540 | that set is what some feed asks for |
| FedMarks.Tables.MatchFeed | org.glite.jp.primary/src/feed.c:208-254 | a matching feed gets all its attributes or an increment, and the job is marked when the full send is reported successful |
| FedMarks.MatchOutcome | org.glite.jp.primary/src/feed.c:208-254 | an increment exactly if the job is marked; otherwise all attributes and the owner, and a mark if that was reported successful |
| FedMarks.DrainMarksIff | org.glite.jp.primary/src/feed.c:732-732 | a batch marks exactly the jobs it holds, for a continuous feed and a reported success |
| FedMarks.BatchedJobGetsIncrements | org.glite.jp.primary/src/feed.c:208-254 | a job of a successful batch of a continuous feed gets an increment at every later match, in any run without a purge of the feed |
| FedMarks.Tables.PurgeFeeds | org.glite.jp.primary/src/new_ftp_backend.c:1895-1944 | exactly the expired feeds go, the others keep their expiry, and exactly the marks of the removed feeds go |
| FedMarks.PurgedAfterItsTime | org.glite.jp.primary/src/new_ftp_backend.c:1860-1944 | a stored or refreshed feed is purged exactly after its time |
| FedMarks.StepKeepsMarks | org.glite.jp.primary/src/feed.c:208-254 | every step keeps each mark explained by a successful send of a job with that unique part, with all attributes of the feed, not purged since |
| FedMarks.RunKeepsMarks | org.glite.jp.primary/src/feed.c:208-254 | so does every run |
| FedMarks.FullBeforeIncremental | org.glite.jp.primary/src/feed.c:208-254 | in every run on jobs with unique parts of their own, an increment is preceded by a send of that very job to that feed with all of the feed's attributes, reported successful, with no purge of the feed since |
| FedMarks.FullBeforeIncrementalIff | org.glite.jp.primary/src/new_ftp_backend.c:101-131 | that holds of every run on a set of jobs if and only if each of them has a slash and no two share the part behind the last one |
| FedMarks.SharedUniquePartGoesFirst | org.glite.jp.primary/src/new_ftp_backend.c:1740-1773 | for any two jobs sharing it, the second gets an increment although only the first was sent |
| FedMarks.AliasedJobs | org.glite.jp.primary/src/new_ftp_backend.c:1740-1773 | the same at the jobs a/x and b/x |
| FedMarks.MalformedJobGoesFirst | org.glite.jp.primary/src/new_ftp_backend.c:1740-1773 | a job id without a slash can get an increment first |
| FedMarks.BatchCovers | org.glite.jp.primary/src/feed.c:843-859 | what a batch feed extracts are all attributes of its feed, owner and job id being sent anyway |
| FeedRows.RoundUnlocksIff | org.glite.jp.index/src/bones_server.c:251-318 | a round ends unlocked if and only if the feed is configured and credentials load at least once |
| FeedRows.WithoutCredentialsItStaysLocked | org.glite.jp.index/src/soap_ps_calls.c:105-106 | ten attempts without credentials leave the row locked |
| FeedRows.RoundOutcome | org.glite.jp.index/src/bones_server.c:251-318 | what a round makes of id and ERROR bit, by kind, outcome and previous state |
| FeedRows.RoundSucceedsIff | org.glite.jp.index/src/bones_server.c:265-283 | a round succeeds if and only if the feed is configured and some attempt is answered |
| FeedRows.AnswerInitialises | org.glite.jp.index/src/soap_ps_calls.c:134-147 | an answered initialisation stores the id of the first answer, HIST and CONT as configured and no other bit, due after a quarter of the time granted; an id another feed holds changes nothing; unlocked either way |
| FeedRows.AnswerRefreshes | org.glite.jp.index/src/soap_ps_calls.c:168-181 | an answered refresh keeps id, HIST, CONT and DONE, clears ERROR, unlocks, and is due again after a quarter of the time granted, so before the feed expires |
| FeedRows.FailureMarks | org.glite.jp.index/src/bones_server.c:284-294 | a failed round sets ERROR and changes no other bit nor the id, except that a refresh of a feed with ERROR drops id and bits |
| FeedRows.PickedWhenDue | org.glite.jp.index/src/db_ops.c:588-591 | a feed is picked for refresh when due, one not initialised at any time, a locked one never |
| FeedRows.FailedRoundIsRetried | org.glite.jp.index/src/bones_server.c:284-294 | exactly when, and for which kind of round, a feed is picked again after a failed one |
| FeedRows.FeedTable.MyFeedIndex | org.glite.jp.index/src/soap_ps_calls.c:93-152 | one attempt to initialise: the row and the result, for each outcome of the call |
| FeedRows.FeedTable.MyFeedRefresh | org.glite.jp.index/src/soap_ps_calls.c:155-185 | one attempt to refresh: the ERROR bit is cleared on success |
| FeedRows.FeedTable.Contact | org.glite.jp.index/src/bones_server.c:265-283 | the retry loop: up to ten attempts, ending at the first success |
| FeedRows.FeedTable.FeedRound | org.glite.jp.index/src/bones_server.c:251-318 | lock, attempts and the bookkeeping after failure, on one row |
| FeedRows.RoundIsOnOneRow | org.glite.jp.index/src/bones_server.c:251-318 | a round works on the picked row, as it and the configuration are, and on no other |
| FeedRows.FeedTable.UpdateJobsState | org.glite.jp.index/src/soap_ops.c:103-137 | DONE is set on the one row with that feed id, when reported done |
| FeedRows.UpdateJobsMarksDone | org.glite.jp.index/src/soap_ops.c:125-137 | DONE and nothing else is set on the feed of that id, when told that it is done; every other row stays |
| FeedRows.FeedTable.Pass | org.glite.jp.index/src/db_ops.c:578-635 | a round takes place if and only if the table offers a row of that kind, at the given time and with the attempts for that feed |
| FeedRows.FeedTable.FeedCaller | org.glite.jp.index/src/bones_server.c:251-318 | at most one round for an uninitialised feed, then at most one refresh, both at the given time and with the attempts for their feeds |
| FeedRows.StepKeepsInv | org.glite.jp.index/src/bones_server.c:251-318 | every round and every UpdateJobs keeps states below 16, ids unique and ERROR explained |
| FeedRows.RunKeepsInv | org.glite.jp.index/src/db_ops.c:408-455 | over every run from a fresh table an initialised feed has ERROR if and only if its last round was a failed refresh |
| FeedRows.IdIsDroppedAfterTwoFailures | org.glite.jp.index/src/db_ops.c:689-701 | a feed id is dropped only in the second of two consecutive failed refresh rounds |
| FeedRows.NothingStaysLocked | org.glite.jp.index/src/bones_server.c:251-318 | if every round is of a configured feed and loads credentials once, no feed is left locked between rounds |
| FileHandles.FileHandle.Load | org.glite.jp.primary/src/new_ftp_backend.c:1037-1058 | the chunked load yields the whole file |
| FileHandles.FileHandle.Pread | org.glite.jp.primary/src/new_ftp_backend.c:1149-1184 | the bytes asked for, position by position, cut at the end of the file |
| FileHandles.FileHandle.Pwrite | org.glite.jp.primary/src/new_ftp_backend.c:1186-1224 | bytes are written over the string at the offset, growing it to the larger end; every byte outside the range stays; a read-only handle is left alone |
| FileHandles.FileHandle.Append | org.glite.jp.primary/src/new_ftp_backend.c:1270-1293 | bytes are added at the end |
| FileHandles.FileHandle.Close | org.glite.jp.primary/src/new_ftp_backend.c:1082-1128 | a changed file is stored exactly as seen, an unchanged one not touched |
| FileHandles.OpenFile | org.glite.jp.primary/src/new_ftp_backend.c:985-1080 | when opening succeeds, what is seen, and the empty file created |
| FileHandles.OpenViewMeans | org.glite.jp.primary/src/new_ftp_backend.c:985-1036 | which modes open an existing file and which create a missing one |
| FileHandles.Session | org.glite.jp.primary/src/new_ftp_backend.c:985-1293 | any interleaving of reads, writes and appends acts on the stored file as on a plain byte string: each read returns its bytes at that point, the file ends as it; without writes nothing changes |
| Tags.ReadImage | org.glite.jp.primary/src/tags.c:375-475 | reading a tag file ends exactly at its end with all tags in append order: name, time, kind and value, absent read as empty |
| Tags.ReadCutFile | org.glite.jp.primary/src/tags.c:409-437 | a file cut within a record keeps the tags in front of it and ends in an error or in a read that never gets its bytes |
| Tags.ReadForeignFile | org.glite.jp.primary/src/tags.c:390-406 | a file without the magic number is refused |
| Tags.ParseValue | org.glite.jp.primary/src/tags.c:441-470 | a string value is read up to its first NUL, a binary one whole |
| Tags.AppendExtendsOneAnswer | org.glite.jp.primary/src/tags.c:260-373 | an append extends the answer for its own name by one and leaves all others; binary values come back empty |
| Tags.TagAppend | org.glite.jp.primary/src/tags.c:260-336 | the magic number is written or checked, then one record appended; an error writes nothing |
| Tags.AppendTags | org.glite.jp.primary/src/new_ftp_backend.c:2029-2075 | the tag file after a session is the old one with the session's tags appended; the code is 0 if and only if there was nothing to append or the file was empty or a tag file |
| Tags.RecordLoop | org.glite.jp.primary/src/tags.c:409-474 | the record loop collects the parsed records up to the end, with its error outcomes |
| Tags.TagsRead | org.glite.jp.primary/src/tags.c:375-475 | the method reads what the format says and does not change the file |
| Tags.SessionsExtend | org.glite.jp.primary/src/new_ftp_backend.c:2029-2075 | sessions only ever extend the file, by the records of their tags |
| Tags.HistoryFile | org.glite.jp.primary/src/new_ftp_backend.c:2029-2075 | the file after any sessions on a fresh job is the image of all tags |
| Tags.AnswerIsNamed | org.glite.jp.primary/src/tags.c:338-373 | for string tags the answer is the tags appended under the name, in order |
| Tags.TagsAreHistory | org.glite.jp.primary/src/new_ftp_backend.c:2029-2135 | after any number of sessions, reading gives all tags in append order and each name its own |
| Uploads.SplitBaseNameIff | org.glite.jp.primary/src/new_ftp_backend.c:752-759 | splitting a base name recovers class and name if and only if the class has no dot |
| Uploads.DottedClassIsSplit | org.glite.jp.primary/src/new_ftp_backend.c:752-759 | the class a.b comes back as class a and name b |
| Uploads.PathsDiffer | org.glite.jp.primary/src/new_ftp_backend.c:506-526 | equal paths mean the same job and file name |
| Uploads.StepKeepsInv | org.glite.jp.primary/src/new_ftp_backend.c:425-694 | register, start, transfer and commit keep every row at its own job's paths |
| Uploads.RunKeepsInv | org.glite.jp.primary/src/new_ftp_backend.c:425-694 | so does every run |
| Uploads.StepMoves | org.glite.jp.primary/src/new_ftp_backend.c:552-684 | a row moves only absent, uploading, committed, or leaves after its deadline; and which call by whom causes each move |
| Uploads.StartSucceedsIff | org.glite.jp.primary/src/new_ftp_backend.c:552-593 | a start succeeds if and only if the job id has a unique part, that job is registered and the file has no row or an overdue upload; the row is then a new upload of that peer for 300 seconds |
| Uploads.StartClears | org.glite.jp.primary/src/new_ftp_backend.c:545-568 | a start leaves no overdue upload of its job, every other row but its own as it was, and the peer known by its digest |
| Uploads.RegisterStores | org.glite.jp.primary/src/new_ftp_backend.c:295-345 | a registration succeeds if and only if the unique part is new, and stores job, owner digest and time under it |
| Uploads.CommittedIsFinal | org.glite.jp.primary/src/jp_callouts.c:152-221 | no step changes a committed row or its file's bytes |
| Uploads.CommittedForever | org.glite.jp.primary/src/jp_callouts.c:425-439 | nor does any run |
| Uploads.OpenUntilDeadline | org.glite.jp.primary/src/new_ftp_backend.c:528-593 | in every run with no start call after its deadline an open row stays as it was started or is committed |
| Uploads.NobodyMayWriteCommitted | org.glite.jp.primary/src/jp_callouts.c:152-209 | the transfer guard refuses every action on a committed file's path |
| Uploads.PathInUrl | org.glite.jp.primary/src/jp_callouts.c:161-174 | the path of a transfer URL starts at the first slash behind its host |
| Uploads.RowsBelongToStarter | org.glite.jp.primary/src/new_ftp_backend.c:552-593 | in every run an open or committed row carries the identity of the last successful start, also after a purge and restart |
| Uploads.CommitIsByStarter | org.glite.jp.primary/src/new_ftp_backend.c:608-694 | in every run a commit succeeds if and only if an open upload to that destination was started by that identity; it commits exactly that row, and otherwise nothing changes |
| Uploads.TransferIsByStarter | org.glite.jp.primary/src/jp_callouts.c:152-209 | in every run a transfer goes through if and only if it writes the file of an open upload for the identity that started it; it sets exactly that file's bytes, and otherwise nothing changes |
| Uploads.UploadIsUnique | org.glite.jp.primary/src/new_ftp_backend.c:630-684 | at most one open upload has a destination |
| Uploads.DestinationsIdentify | org.glite.jp.primary/src/new_ftp_backend.c:506-526 | for dot-free classes destinations are equal if and only if job, class and name are |
| Uploads.InfoAfterStart | org.glite.jp.primary/src/new_ftp_backend.c:696-774 | destination_info recovers a started upload if and only if the class has no dot and the job id is the registered one |
| Uploads.Backend.Register | org.glite.jp.primary/src/new_ftp_backend.c:295-356 | the new tables and the result of a registration, errors included |
| Uploads.Backend.Start | org.glite.jp.primary/src/new_ftp_backend.c:425-606 | expired uploads of the job go first, then the new row or EEXIST |
| Uploads.Backend.Commit | org.glite.jp.primary/src/new_ftp_backend.c:608-694 | the row to that destination is committed, or ENOENT, or EPERM for someone else |
| Uploads.Backend.Transfer | org.glite.jp.primary/src/jp_callouts.c:152-221 | bytes change only where a row of that path, client and uploading state allows it |
| HandleCache.Cache.OneFile | org.glite.jp.primary/src/attrs.c:121-170 | the reused or reopened handle answers what a fresh open would |
| HandleCache.Cache.MakeReady | org.glite.jp.primary/src/attrs.c:121-151 | the slot holds that very file afterwards if and only if the file and the plugin open, reusing the handle where it can |
| HandleCache.Cache.ProcessFiles | org.glite.jp.primary/src/attrs.c:112-175 | all files of a class, merged in order |
| HandleCache.Cache.AskPlugin | org.glite.jp.primary/src/attrs.c:219-227 | all classes of a plugin |
| HandleCache.Cache.AskNamespace | org.glite.jp.primary/src/attrs.c:217-229 | all plugins of a namespace |
| HandleCache.Cache.AskAttr | org.glite.jp.primary/src/attrs.c:211-232 | tags, then the plugins of the attribute's namespace |
| HandleCache.Cache.CollectAttrs | org.glite.jp.primary/src/attrs.c:209-232 | all non-metadata attributes, each as by fresh opens |
| HandleCache.Cache.CloseAll | org.glite.jp.primary/src/attrs.c:234-252 | all slots are empty afterwards, the handles opened stay on record |
| HandleCache.Cache.GetAttrs | org.glite.jp.primary/src/attrs.c:177-277 | for any job, any number of times on one cache: the result equals opening each file anew for each attribute, and holds exactly the metadata, the tags and the stamped answers of the plugins naming the namespace; every question goes to a plugin handle opened by this call on that very file; every handle is closed exactly once and all slots are empty; and files stay open if and only if some plugin asked refuses a file that opens, one for each refusal |
| HandleCache.ClosedOnce | org.glite.jp.primary/src/attrs.c:112-175 | with all slots empty each plugin handle was closed exactly once |
| HandleCache.NoLeakIff | org.glite.jp.primary/src/attrs.c:139-150 | no file is left open if and only if, for every attribute asked, every plugin of its namespace opens every file of its classes that opens |
| HandleCache.RefusedFileLeaks | org.glite.jp.primary/src/attrs.c:139-150 | one plugin refusing one file leaves it open |
| HandleCache.FindNamespace | org.glite.jp.primary/src/attrs.c:217-218 | the first table entry of that name |
| HandleCache.SplitOthers | org.glite.jp.primary/src/attrs.c:190-202 | the loop collects the attributes that are not metadata, in order |
| HandleCache.ScanPlugin | org.glite.jp.primary/src/attrs.c:55-95 | a plugin is added under each namespace it names, all others unchanged |
| HandleCache.ScanNamespaces | org.glite.jp.primary/src/attrs.c:45-97 | the table lists under each namespace exactly the plugins that name it, in order |
| HandleCache.AddToAdds | org.glite.jp.primary/src/attrs.c:57-93 | adding under one namespace changes no other |
| HandleCache.NamedByMembers | org.glite.jp.primary/src/attrs.c:45-97 | a plugin is listed under a namespace if and only if it names it |
| HandleCache.NamespaceIff | org.glite.jp.common/src/utils.c:71-79 | the namespace of an attribute is what is in front of its last colon, or empty without one |
| HandleCache.NamespaceOfName | org.glite.jp.common/src/utils.c:71-79 | for every namespace and colon-free local name, the joined name is in that namespace |
| HandleCache.AnswerMembers | org.glite.jp.primary/src/attrs.c:209-254 | a value is in the answer if and only if it is metadata, a tag of an attribute asked, or what a plugin naming its namespace gives for one of its files that opens, with origin FILE and its detail |
| DeferredQueue.Context.AddDeferred | org.glite.jp.common/src/context.c:142-162 | the call, function and argument paired, is the last of the queue; a NULL function adds nothing |
| DeferredQueue.Context.Drop | org.glite.jp.common/src/context.c:109-140 | the in-place shifts of both arrays remove exactly the first call |
| DeferredQueue.Context.RunDeferred | org.glite.jp.common/src/context.c:109-140 | the leading successful calls are removed, the first failing one stays in front and its code is returned |
| DeferredQueue.StepLosesNothing | org.glite.jp.common/src/context.c:109-162 | one call keeps completed plus pending equal to what was enqueued |
| DeferredQueue.NothingIsLost | org.glite.jp.common/src/context.c:109-162 | so does any sequence of calls |
| DeferredQueue.FailureStaysAtHead | org.glite.jp.common/src/context.c:109-140 | a run ends empty or with the failing call in front of all later ones |
| DeferredQueue.Serve | org.glite.jp.common/src/context.c:109-162 | over any sequence of calls on the arrays, the completed calls are those the runs complete, and followed by the pending ones they equal those held before and those added |
| Text.UniqueOf | org.glite.jp.primary/src/new_ftp_backend.c:101-131 | the unique part of a job id is what is behind its last slash |
| FormatExamples.StoredString | org.glite.jp.common/src/attr.c:107-133 | a string value, byte by byte |
| FormatExamples.StoredBinary | org.glite.jp.common/src/attr.c:107-133 | a binary value, byte by byte |
| FormatExamples.EncodedBytes | org.glite.jp.common/src/attr.c:124-129 | examples of section 10 of RFC 4648 |
| FormatExamples.TagFile | org.glite.jp.primary/src/tags.c:260-336 | a tag file, byte by byte |
| FormatExamples.StoredCondition | org.glite.jp.index/src/db_ops.c:194-228 | a condition blob, byte by byte |
| FormatExamples.StoredPath | org.glite.jp.primary/src/new_ftp_backend.c:506-526 | where a file is stored |

## Reading notes

- `start_upload` always sets the deadline to 300 seconds from now; its other branch
  would dereference a null pointer.
- `fb_from_db` stores the decoder's -1 in an unsigned size, so its own check never
  fires; the model reports that outcome as `BadSize`.
- `pwrite` on a read-only handle returns 0 without writing.
- `get_op`'s default case is never reached: `EXISTS` is handled before, and
  `glite_jpis_SoapToQueryOp` asserts on anything else
  (`org.glite.jp.index/src/ws_is_typeref.c:34-46`). The model returns an error there.
- The formatter prints an absent string as `(nil)`, which the model keeps.
- A comparison without a string bound asks, in the model, for a comparison with the empty
  string; the statement compares with `(nil)` or `XXX`.
- Where the C code would read past a terminator or a blob, or keep reading nothing,
  the model returns a distinct outcome (`OverRead`, `OverRun`, `Undefined`, `Hang`).
- `multi_feed` does not pass on every fault, so sends are modelled by the outcome reported.
- `tagsread` drops what it had collected when a record is neither B nor S; on a short
  read it keeps it.
- A backend query that finds no job returns ENOENT, which `run_feed_deferred` turns into
  success: an empty stream.

## Left out

- gSOAP, Globus, GSS, zlib, libtar, ClassAd parsing and plugin loading: foreign code; compression and failures of single reads and writes are not modelled.
- SQL text: escaping and quoting of values and peers, collation and padding of compared strings.
- Digests: attribute tables stand for lower-cased names instead of their MD5 digests; the user digest is a parameter.
- The base64 encoder itself: it is not part of the repository and is written from section 4 of RFC 4648.
- `is_feed_matching`'s backend phase and `match_feed_multi`: whether a feed matches is a parameter of `match_feed`.
- `EXISTS` in `check_qry_item`: the code has no case for it.
- `store_feed` and `read_feeds`: the textual form of stored feed queries.
- `glite_jppsbe_query`: how the backend judges metadata conditions, including times, is a parameter.
- `authz_read` and `get_plugin`: lookups with one test each.
- Several concurrent feeders: one feeder process is modelled, a round at a time.
- Memory: allocation failures, ownership, and integers wider than the machine's long.
- Functions that enqueue deferred calls while the queue runs.
- `checkConditions` and `checkIndexedConditions`, which refuse queries on unknown or unindexed attributes beforehand.
- The backend's assertion that no more than two metadata columns are asked for.
- BatchFeed.JpFeed.Callback: asks that fetched values compare with the conditions on them and that metadata holds an owner, which the code asserts.
- HandleCache.Cache.GetAttrs: asks that the files of a class are all named or all unnamed, since the code compares names with strcmp; plugins have one URI per class.
- Uploads.Backend.Commit: asks for the invariant that every run keeps, so that the selected row is the only one.
- IndexExactness.CompilationPreservesMeaning: asks that the tables named hold string values; binary ones are indexed as `XXX`.
- Feed ids: `generate_feedid` is taken never to hand out an id twice.
- Path names: files are told apart by their path as text, and file names come from the client unchecked; that `x/../y` may name another row's file, or that links exist, is not modelled.
- Uploads.Backend.Transfer: a transfer is one atomic step between authorisation and the end of writing.
- FileHandles.FileHandle.Pwrite: bytes between the old end and a later offset are not specified, as the code leaves them unset.
