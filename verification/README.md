# SearchSECO database and job distribution: a Dafny model

SearchSECO stores hashes of source code methods, the projects and versions that contain them and
their authors, and distributes crawl and spider jobs to worker nodes. This project models five parts of
its database API, those that carry state from one request to the next and the text and hashes they
exchange, and proves what they are for:

- **Method index** (`MethodStore`, `MethodUpload`, `MethodHandler`, `MethodHistory`, `MethodIndex`,
  `MethodUploads`, `MethodRows`, `MethodAuthors`, `MethodRuns`, `MethodColumns`). A method row covers
  the versions from its start to its end. Uploads extend rows, start rows, renew the rows of unchanged
  files in chunks, and collect the hashes of the project. In every run the rows are the run-length
  encoding of the plain history "which method is in which version", the project hashes and the author
  index agree with it, and every column says what the uploads said. `Chunks`, `WorkerPool` and
  `MethodPool` cover the cutting into chunks and the workers that share a queue.
- **MD5** (`Md5Spec`, `Md5`, `Md5Laws`, `Md5Abc`). The streaming, unrolled implementation refines RFC
  1321 sections 3.1 to 3.5 for every message and every way of cutting it into updates; laws pin down
  what the parts of that description compute.
- **Job distribution** (`JobStore`, `JobHandler`, `JobLedger`, `JobRuns`, `JobTheorems`, `JobLeases`,
  `JobAnswers`, `JobPayloads`). Queue, leases, renewals, timeouts, retries and crawl leases: which answer
  each request gets and what it leaves behind, conservation of jobs and of what they carry, bounds on
  work and on overtaking and an exact cached queue size whatever the clock does, and fencing of leases.
- **Membership replication** (`Membership`, `MembershipNodes`, `MembershipRuns`, `MembershipOrder`,
  `MembershipAgreement`, `MembershipOrderly`, `MembershipSuccessor`).
  Followers that combine a snapshot with overlapping heartbeats agree with the leader; who succeeds
  the leader, and when that is unique.
- **Text** (`Codec`, `Decimals`, `Reports`). Rows of separated fields, their round trip, and the reports.

Operations are written twice. Functions over values say what an operation does to the state;
classes with the original's fields and loops are proved to do exactly that; lemmas over runs of the
functions state the properties. `dafny verify dfyconfig.toml` checks everything.

Seven properties hold only under a condition, which is proved to be exact:

- The rows stay the runs of the history if and only if no method of the previous version is listed
  twice in an upload (`MethodUploads.RowsStayRunsIff`, `MethodRuns.OldMemberTwiceOverlaps`).
- The author index keeps agreeing with the rows if and only if every author named in an upload is
  still named when its last listing is through (`MethodAuthors.UploadAgreesIff`,
  `MethodAuthors.EveryOrderAgreesIff`, `MethodAuthors.RepeatedMethodLosesAuthor`).
- Followers agree on the order of nodes if and only if every join passed a test, and they agree on the
  leader's successor if and only if every join passed that same test (`MembershipOrderly.OrderIsKeptIff`,
  `MembershipSuccessor.SuccessorIsKeptIff`, `MembershipOrder.DropsBreakTheOrder`). The test replays the
  leader's unsent changes on its own connections and compares the result with the list agreed so far,
  joins appended and drops erased, which the leader does not keep. Runs without drops pass.
- A step keeps leases fenced if and only if it gives no lease with the time of an earlier lease of
  that job, or the time -1 (`JobLeases.StaysFencedIff`): a renewal in the millisecond of the lease it
  renews leaves the old token alive.
- A hand-out request reads the first row of an empty queue if and only if no recount is due and the
  stale cached size promises enough jobs (`JobRuns.EmptyQueueReadIff`,
  `JobRuns.StaleSizeReadsEmptyQueue`). After a recount it never does.
- Crawl uploads never outnumber the responses that issued their identifier if and only if it is not
  -1, the value that stands for "no crawl" (`JobTheorems.AcceptedCrawlsWereIssued`,
  `JobTheorems.AcceptsMinusOne`).
- Printed rows are read back if and only if none ends in an empty field (`Codec.ParsePrint`).

What the runs assume: database calls succeed; each request and each timeout check is one step; new
job ids are fresh; a project's first upload names no previous version, each later one names the version
before it, has a larger version and lists no method of that version twice; a node joins only if its
address is not connected, and its heartbeats arrive in order, one message each. Clocks are free, but
for two groups of theorems: those of `JobLeases` ask that no lease of a job repeats a time, for which a
strictly increasing clock is enough, and `JobTheorems.CrawlsAreSpaced` that seconds do not go back.

## Model

| member | source | states |
|---|---|---|
| `Md5Spec.DecodeEncodeWord` | SearchSECODatabaseAPI/General/md5/md5.cpp:137-157 | decoding the four little-endian bytes of a word gives the word back |
| `Md5Spec.DecodeEncode` | SearchSECODatabaseAPI/General/md5/md5.cpp:137-157 | decoding encoded words gives the words back, for any number of words |
| `Md5Spec.FoldBlock` | SearchSECODatabaseAPI/General/md5/md5.cpp:274-276 | a message with one more complete block is the compression of that block on top of the rest |
| `Md5Spec.FoldTail` | SearchSECODatabaseAPI/General/md5/md5.cpp:268-284 | an incomplete last block does not change the folded registers |
| `Md5Spec.PaddingIsLeast` | SearchSECODatabaseAPI/General/md5/md5.cpp:312-315 | the padding length, 1 to 64, is the least positive one that ends at 56 mod 64 (RFC 1321 section 3.1) |
| `Md5Spec.HexInjective` | SearchSECODatabaseAPI/General/md5/md5.cpp:336-347 | two different digests never print the same text |
| `Md5.FF` | SearchSECODatabaseAPI/General/md5/md5.cpp:85-87 | one unrolled call with F, given the index, shift and constant of its place, is the indexed RFC step on the rotated registers |
| `Md5.GG` | SearchSECODatabaseAPI/General/md5/md5.cpp:89-91 | one unrolled call with G, given the index, shift and constant of its place, is the indexed RFC step on the rotated registers |
| `Md5.HH` | SearchSECODatabaseAPI/General/md5/md5.cpp:93-95 | one unrolled call with H, given the index, shift and constant of its place, is the indexed RFC step on the rotated registers |
| `Md5.II` | SearchSECODatabaseAPI/General/md5/md5.cpp:97-99 | one unrolled call with I, given the index, shift and constant of its place, is the indexed RFC step on the rotated registers |
| `Md5.Round1` | SearchSECODatabaseAPI/General/md5/md5.cpp:167-183 | the sixteen unrolled calls of round 1 are steps 0 to 15 of the indexed loop of RFC 1321 section 3.4 |
| `Md5.Round2` | SearchSECODatabaseAPI/General/md5/md5.cpp:185-201 | the sixteen unrolled calls of round 2 are steps 16 to 31 of the indexed loop of RFC 1321 section 3.4 |
| `Md5.Round3` | SearchSECODatabaseAPI/General/md5/md5.cpp:203-219 | the sixteen unrolled calls of round 3 are steps 32 to 47 of the indexed loop of RFC 1321 section 3.4 |
| `Md5.Round4` | SearchSECODatabaseAPI/General/md5/md5.cpp:221-237 | the sixteen unrolled calls of round 4 are steps 48 to 63 of the indexed loop of RFC 1321 section 3.4 |
| `Md5.CounterStep` | SearchSECODatabaseAPI/General/md5/md5.cpp:257-260 | adding 8 * length to a 64-bit count held in two 32-bit words: the carry test and the length >> 29 term are exact |
| `Md5.CounterIndex` | SearchSECODatabaseAPI/General/md5/md5.cpp:255 | the low counter word gives the message length mod 64 |
| `Md5Laws.FChooses` | SearchSECODatabaseAPI/General/md5/md5.cpp:62-64 | the bits of x choose between those of y and z |
| `Md5Laws.GChooses` | SearchSECODatabaseAPI/General/md5/md5.cpp:66-68 | the bits of z choose between those of x and y |
| `Md5Laws.HIsParity` | SearchSECODatabaseAPI/General/md5/md5.cpp:70-72 | 0 for no bits, and flipping bits of x flips those of the result |
| `Md5Laws.HIsSymmetric` | SearchSECODatabaseAPI/General/md5/md5.cpp:70-72 | the arguments are interchangeable; with HIsParity this is the parity of three bits |
| `Md5Laws.IChooses` | SearchSECODatabaseAPI/General/md5/md5.cpp:74-76 | the complement of y where x is set or z is not, y elsewhere |
| `Md5Laws.RotateLeftMultiplies` | SearchSECODatabaseAPI/General/md5/md5.cpp:79-81 | as integers: x * 2^n modulo 2^32 plus x / 2^(32 - n), for every n from 1 to 31 |
| `Md5Laws.DecodeWordIs` | SearchSECODatabaseAPI/General/md5/md5.cpp:137-143 | a decoded word is the little-endian integer of its four bytes |
| `Md5Laws.EncodeWordIs` | SearchSECODatabaseAPI/General/md5/md5.cpp:147-157 | the bytes of an encoded word are its integer, low-order byte first |
| `Md5Laws.LengthBytesAre` | SearchSECODatabaseAPI/General/md5/md5.cpp:308-310 | the length bytes are 8n modulo 2^64 as a little-endian integer |
| `Md5Laws.InitialBytes` | SearchSECODatabaseAPI/General/md5/md5.cpp:117-133 | the registers start as the bytes 01 23 .. ef fe dc .. 10 (RFC 1321 section 3.3) |
| `Md5Laws.PaddingIs` | SearchSECODatabaseAPI/General/md5/md5.cpp:301-306 | padding is the byte 0x80 and then zeros |
| `Md5Laws.HexAt` | SearchSECODatabaseAPI/General/md5/md5.cpp:336-347 | byte i prints as its high digit at 2i and its low digit after it, in 0 to 9 and a to f |
| `Md5Abc.AbcDigest` | SearchSECODatabaseAPI/General/md5/md5.cpp:161-331 | the digest of abc is the one that RFC 1321 appendix A.5 lists, through all sixty-four steps |
| `Md5.MD5.constructor` | SearchSECODatabaseAPI/General/md5/md5.cpp:104-133 | a fresh object holds the empty message and the initial registers |
| `Md5.MD5.DecodeBlock` | SearchSECODatabaseAPI/General/md5/md5.cpp:137-143 | a block is decoded into sixteen little-endian words |
| `Md5.MD5.EncodeInto` | SearchSECODatabaseAPI/General/md5/md5.cpp:147-157 | words are written as little-endian bytes over the whole output |
| `Md5.MD5.Transform` | SearchSECODatabaseAPI/General/md5/md5.cpp:161-246 | the unrolled compression of a block equals the sixty-four indexed steps plus the addition of the old registers |
| `Md5.MD5.CountUp` | SearchSECODatabaseAPI/General/md5/md5.cpp:257-260 | the two-word counter goes from 8n to 8(n + length) mod 2^64 |
| `Md5.MD5.AbsorbBlocks` | SearchSECODatabaseAPI/General/md5/md5.cpp:262-281 | whole blocks, first from the buffer and then from the input, are folded into the registers; the rest, under 64 bytes, is left |
| `Md5.MD5.CompressInput` | SearchSECODatabaseAPI/General/md5/md5.cpp:274-276 | the block loop folds every whole block of the input into the registers and stops less than a block before the end |
| `Md5.MD5.FillBuffer` | SearchSECODatabaseAPI/General/md5/md5.cpp:270-271 | the buffer is completed with the front of the input |
| `Md5.MD5.KeepTail` | SearchSECODatabaseAPI/General/md5/md5.cpp:283-284 | the unread input follows the bytes already buffered |
| `Md5.MD5.Update` | SearchSECODatabaseAPI/General/md5/md5.cpp:252-285 | the object invariant - registers are the fold of the complete blocks, buffer the tail, counter the bit length - holds for the message extended by the input |
| `Md5.MD5.SaveCount` | SearchSECODatabaseAPI/General/md5/md5.cpp:308-310 | the bit count before padding, as eight bytes |
| `Md5.MD5.Finalize` | SearchSECODatabaseAPI/General/md5/md5.cpp:299-331 | the digest is that of RFC 1321 on the padded message; a second call changes nothing; the object ends empty |
| `Md5.MD5.Wipe` | SearchSECODatabaseAPI/General/md5/md5.cpp:323-327 | after finalization buffer and counter are zero and the object holds the empty message on its last registers |
| `Md5.MD5.Hexdigest` | SearchSECODatabaseAPI/General/md5/md5.cpp:336-347 | lower-case hexadecimal of the digest, empty before finalization |
| `Md5.LoopFitsIff` | SearchSECODatabaseAPI/General/md5/md5.cpp:274-276 | the bound on an input is exact: below 2^32 bytes it holds if and only if no test of the block loop wraps in 32 bits |
| `Md5.DigestOfPieces` | SearchSECODatabaseAPI/General/md5/md5.cpp:252-331 | every way of cutting a message into updates gives the one digest of the whole message, a valid 32-digit hash |
| `Md5.Md5Hash` | SearchSECODatabaseAPI/General/md5/md5.cpp:358-363 | the hash of a string is the RFC 1321 digest in hexadecimal, a valid hash |
| `Codec.SplitJoin` | SearchSECODatabaseAPI/General/Utility.cpp:69-103 | splitting joined words gives the words back, except that an empty last word is lost |
| `Codec.SplitPiecesAreDelimiterFree` | SearchSECODatabaseAPI/General/Utility.cpp:93-103 | no piece contains the delimiter |
| `Codec.ParsePrint` | SearchSECODatabaseAPI/General/Utility.cpp:78-103 | the two-level round trip holds if and only if no row ends in an empty field; the number of rows always survives |
| `Codec.AppendWord` | SearchSECODatabaseAPI/General/Utility.cpp:69-76 | a word and its end character are appended, nothing else changes |
| `Codec.AppendWords` | SearchSECODatabaseAPI/General/Utility.cpp:78-91 | the words joined by the separator and the end character are appended |
| `Codec.GetLine` | SearchSECODatabaseAPI/General/Utility.cpp:98 | one read takes the first piece and leaves the text whose pieces are the others |
| `Codec.SplitStringOn` | SearchSECODatabaseAPI/General/Utility.cpp:93-103 | the loop returns exactly the pieces of the text |
| `Decimals.ShowIsDecimal` | SearchSECODatabaseAPI/JobDistribution/JobRequestHandler.cpp:75-92 | numbers print as decimals, first digit most significant, without leading zeros, negative ones after a minus sign |
| `Decimals.NumberIsParsed` | SearchSECODatabaseAPI/General/Utility.cpp:12-48 | space, an optional sign and digits parse to the decimal value, or out of range, whatever follows |
| `Decimals.NotANumberIff` | SearchSECODatabaseAPI/General/Utility.cpp:12-48 | a text is refused as no number exactly if it does not start with one |
| `Codec.ParseShow` | SearchSECODatabaseAPI/General/Utility.cpp:12-48 | a printed number is read back, for every number of the target type |
| `JobStore.KeyTotal` | SearchSECODatabaseAPI/JobDistribution/DatabaseConnection.cpp:24-25 | the clustering order of the queue is total and antisymmetric |
| `JobStore.KeyTransitive` | SearchSECODatabaseAPI/JobDistribution/DatabaseConnection.cpp:24-25 | the clustering order of the queue is transitive |
| `JobStore.TopExists` | SearchSECODatabaseAPI/JobDistribution/DatabaseConnection.cpp:24-25 | a non-empty queue has a first row |
| `JobStore.TopIsUnique` | SearchSECODatabaseAPI/JobDistribution/DatabaseConnection.cpp:24-25 | the first row is determined |
| `JobStore.DatabaseConnection.GetTopJob` | SearchSECODatabaseAPI/JobDistribution/DatabaseConnection.cpp:65-121 | the least key leaves the queue, becomes a current job with the lease time returned, and the cached size drops |
| `JobStore.DatabaseConnection.DeleteTopJob` | SearchSECODatabaseAPI/JobDistribution/DatabaseConnection.cpp:123-148 | one queue row and one unit of the cached size go |
| `JobStore.DatabaseConnection.GetCurrentJobTime` | SearchSECODatabaseAPI/JobDistribution/DatabaseConnection.cpp:150-187 | the lease time of a current job, -1 without one |
| `JobStore.DatabaseConnection.AddCurrentJob` | SearchSECODatabaseAPI/JobDistribution/DatabaseConnection.cpp:196-227 | the job is current with the new lease time |
| `JobStore.DatabaseConnection.GetCurrentJob` | SearchSECODatabaseAPI/JobDistribution/DatabaseConnection.cpp:229-268 | the current job is returned and removed; for an unknown id the returned job has an empty id and nothing changes |
| `JobStore.DatabaseConnection.DeleteCurrentJob` | SearchSECODatabaseAPI/JobDistribution/DatabaseConnection.cpp:270-292 | the current row goes, nothing else changes |
| `JobStore.DatabaseConnection.AddFailedJob` | SearchSECODatabaseAPI/JobDistribution/DatabaseConnection.cpp:294-325 | a failed row is keyed by job and lease time |
| `JobStore.DatabaseConnection.GetNumberOfJobs` | SearchSECODatabaseAPI/JobDistribution/DatabaseConnection.cpp:327-359 | recounts only after the wait time, otherwise answers from the cache |
| `JobStore.DatabaseConnection.UploadJob` | SearchSECODatabaseAPI/JobDistribution/DatabaseConnection.cpp:411-453 | a new job is keyed by time less priority under a fresh id, a retry keeps key and id; the cached size grows by one |
| `JobStore.DatabaseConnection.UpdateCurrentJob` | SearchSECODatabaseAPI/JobDistribution/DatabaseConnection.cpp:497-510 | an expired job is recorded as failed, removed, and queued again while retries are left |
| `JobHandler.JobRequestHandler.constructor` | SearchSECODatabaseAPI/JobDistribution/JobRequestHandler.cpp:17-27 | a new leader counts the queue at once and starts without a crawl lease |
| `JobHandler.JobRequestHandler.HandleGetJobRequest` | SearchSECODatabaseAPI/JobDistribution/JobRequestHandler.cpp:51-97 | job, crawl or nothing, by queue size and crawl lease, with the whole new state |
| `JobHandler.JobRequestHandler.HandleUpdateJobRequest` | SearchSECODatabaseAPI/JobDistribution/JobRequestHandler.cpp:102-148 | a renewal succeeds exactly for the live token and replaces its lease time |
| `JobHandler.JobRequestHandler.HandleFinishJobRequest` | SearchSECODatabaseAPI/JobDistribution/JobRequestHandler.cpp:153-233 | a finish succeeds exactly for the live token; a failure is recorded and retried unless its reason or retry count forbids |
| `JobHandler.JobRequestHandler.HandleUploadLines` | SearchSECODatabaseAPI/JobDistribution/JobRequestHandler.cpp:247-306 | all lines are parsed before the first upload, so a malformed line uploads nothing; each job is keyed by its own reading of the clock |
| `JobHandler.JobRequestHandler.HandleUploadJobRequest` | SearchSECODatabaseAPI/JobDistribution/JobRequestHandler.cpp:238-245 | the same for the lines of a request |
| `JobHandler.JobRequestHandler.UpdateCrawlID` | SearchSECODatabaseAPI/JobDistribution/JobRequestHandler.cpp:359-367 | the crawl lease ends; a changed id is stored |
| `JobHandler.JobRequestHandler.HandleCrawlDataRequest` | SearchSECODatabaseAPI/JobDistribution/JobRequestHandler.cpp:308-355 | crawl data is accepted exactly for the identifier of the last crawl, whatever its jobs |
| `JobLedger.HandOutInv` | SearchSECODatabaseAPI/JobDistribution/DatabaseConnection.cpp:65-121 | hand-out keeps the account of every job - one place, retries, hand-outs, work - and an exact cached size, whatever the clock says |
| `JobLedger.RenewInv` | SearchSECODatabaseAPI/JobDistribution/JobRequestHandler.cpp:143-147 | renewal keeps it: the job stays current with its retries |
| `JobLedger.FinishInv` | SearchSECODatabaseAPI/JobDistribution/JobRequestHandler.cpp:202-231 | finishing keeps it: the job moves from current to succeeded |
| `JobLedger.FailInv` | SearchSECODatabaseAPI/JobDistribution/DatabaseConnection.cpp:497-510 | failing keeps it: the job is queued again with one retry more, under its old key, or abandoned |
| `JobLedger.UploadInv` | SearchSECODatabaseAPI/JobDistribution/DatabaseConnection.cpp:411-439 | uploading keeps it, under a fresh id |
| `JobLedger.UploadAllInv` | SearchSECODatabaseAPI/JobDistribution/JobRequestHandler.cpp:287-296 | uploading many lines keeps it and adds exactly their ids |
| `JobLedger.TakenOverInv` | SearchSECODatabaseAPI/JobDistribution/JobRequestHandler.cpp:17-27 | any sound tables - one row a job, under its own id, retries in range - are accounted for, so every theorem about runs covers a leader that takes over |
| `JobRuns.RecountInv` | SearchSECODatabaseAPI/JobDistribution/DatabaseConnection.cpp:327-359 | a recount makes the cached size exact and touches no job |
| `JobRuns.StepInv` | SearchSECODatabaseAPI/JobDistribution/JobRequestHandler.cpp:51-367 | every request and timeout check, whatever its clock readings, keeps the invariant of all jobs and crawls |
| `JobRuns.RunInv` | SearchSECODatabaseAPI/JobDistribution/JobRequestHandler.cpp:51-367 | so does every run; an exact cached size stays exact |
| `JobRuns.JobIsInOnePlace` | SearchSECODatabaseAPI/JobDistribution/DatabaseConnection.cpp:65-121 | over every run from empty or taken-over tables, whatever the clock: an uploaded job is in exactly one of queue, current, succeeded and abandoned, with at most one queue row |
| `JobRuns.CachedSizeIsExact` | SearchSECODatabaseAPI/JobDistribution/DatabaseConnection.cpp:327-359 | over every run, once the cached size is exact it is the number of queue rows, and no request reads the first row of an empty queue |
| `JobRuns.ExactFromAnyRecount` | SearchSECODatabaseAPI/JobDistribution/DatabaseConnection.cpp:327-359 | whatever the cached size and the clock were, from the first recount on the cached size is the number of queue rows, over every run |
| `JobRuns.ExactAfterTakeOver` | SearchSECODatabaseAPI/JobDistribution/JobRequestHandler.cpp:17-27 | a leader that takes over any sound tables has the exact size from its first recount on, over every run |
| `JobRuns.EmptyQueueReadIff` | SearchSECODatabaseAPI/JobDistribution/JobRequestHandler.cpp:64-68 | in any state a request reads the first row of an empty queue if and only if it is a hand-out request, no recount is due and the stale cached size promises enough jobs |
| `JobRuns.StaleSizeReadsEmptyQueue` | SearchSECODatabaseAPI/JobDistribution/JobRequestHandler.cpp:64-68 | a leader that takes over an empty queue with a recent count of 500 reads its first row on the first request |
| `JobLeases.TokenStep` | SearchSECODatabaseAPI/JobDistribution/JobRequestHandler.cpp:102-233 | every step whose lease, if it gives one, has a time new for its job keeps the account of tokens: issued ones are live or consumed once |
| `JobLeases.LeaseRun` | SearchSECODatabaseAPI/JobDistribution/JobRequestHandler.cpp:102-233 | so does every run; the count of failed rows is kept with it |
| `JobLeases.StaysFencedIff` | SearchSECODatabaseAPI/JobDistribution/DatabaseConnection.cpp:196-227 | after a step a token is live exactly when issued and unconsumed if and only if the lease the step gives, if any, has a time, other than -1, that no lease of that job had before |
| `JobLeases.StrictClockIsFresh` | SearchSECODatabaseAPI/JobDistribution/DatabaseConnection.cpp:202-226 | a strictly increasing clock meets that condition in every run |
| `JobLeases.TakeOverLeases` | SearchSECODatabaseAPI/JobDistribution/JobRequestHandler.cpp:17-27 | a leader that takes over sound tables fences the leases it finds in them |
| `JobLeases.LiveIffUnconsumed` | SearchSECODatabaseAPI/JobDistribution/JobRequestHandler.cpp:119-141 | a token is live exactly when it was issued and not consumed |
| `JobLeases.AcceptanceConsumesOnce` | SearchSECODatabaseAPI/JobDistribution/JobRequestHandler.cpp:119-147 | every accepted renewal, finish or timeout consumes a live token that nothing consumed before |
| `JobLeases.ConsumedTokenIsRefused` | SearchSECODatabaseAPI/JobDistribution/JobRequestHandler.cpp:178-200 | after any further run with new lease times the holder of a consumed token is refused and nothing changes |
| `JobLeases.EchoedToken` | SearchSECODatabaseAPI/JobDistribution/JobRequestHandler.cpp:107-117 | a worker that echoes the id and time it was given presents that token |
| `JobLeases.FailedRowsAreRetries` | SearchSECODatabaseAPI/JobDistribution/DatabaseConnection.cpp:294-325 | over every such run a job has a failed row for each retry and one more if it was abandoned |
| `JobTheorems.PotentialFalls` | SearchSECODatabaseAPI/JobDistribution/JobRequestHandler.cpp:205-224 | the work measure of a job strictly falls on its hand-outs, finishes and timeouts and is otherwise unchanged |
| `JobTheorems.WorkIsBounded` | SearchSECODatabaseAPI/JobDistribution/JobRequestHandler.cpp:205-224 | a run with n uploaded jobs has at most 4n such events, and no job is handed out more than twice |
| `JobTheorems.HandOutIsAhead` | SearchSECODatabaseAPI/JobDistribution/DatabaseConnection.cpp:417-432 | while a job waits only jobs with no greater upload time less priority are handed out, uploaded at most 2^32 - 1 ms after it |
| `JobTheorems.OnlyAheadOvertake` | SearchSECODatabaseAPI/JobDistribution/DatabaseConnection.cpp:417-432 | over any run, a job handed out while another waits was ahead of it |
| `JobTheorems.OvertakingIsBounded` | SearchSECODatabaseAPI/JobDistribution/DatabaseConnection.cpp:417-432 | while a job waits there are at most two hand-outs for each job ahead of it |
| `JobTheorems.CrawlsAreSpaced` | SearchSECODatabaseAPI/JobDistribution/JobRequestHandler.cpp:58-89 | while the seconds of requests do not go back, crawl responses with no accepted upload between them are more than 150 s apart |
| `JobTheorems.AcceptedCrawlsWereIssued` | SearchSECODatabaseAPI/JobDistribution/JobRequestHandler.cpp:329-336 | accepted crawl uploads with identifier t never outnumber the crawl responses that issued t, in all runs, whatever the clock, if and only if t is not -1 |
| `JobTheorems.CrawlAcceptedIff` | SearchSECODatabaseAPI/JobDistribution/JobRequestHandler.cpp:313-336 | in every state well-formed crawl data is accepted if and only if it names the identifier of the open crawl, or -1 while none is open |
| `JobTheorems.AcceptsMinusOne` | SearchSECODatabaseAPI/JobDistribution/JobRequestHandler.cpp:324-336 | a fresh leader accepts crawl data that names identifier -1, which was never issued |
| `JobAnswers.AnswerIff` | SearchSECODatabaseAPI/JobDistribution/JobRequestHandler.cpp:64-96 | with an exact size n: a job if and only if n >= 500, or n >= 1 and a crawl is at most 150 s old; a crawl, named by the seconds of the request and opened by it, if and only if n < 500 and none is that fresh; nothing otherwise |
| `JobAnswers.HandsOutFirst` | SearchSECODatabaseAPI/JobDistribution/DatabaseConnection.cpp:65-121 | the job handed out has the lowest upload time less priority, leaves the queue and becomes current with the time of the request; nothing else changes |
| `JobAnswers.RenewedIff` | SearchSECODatabaseAPI/JobDistribution/JobRequestHandler.cpp:119-147 | a worker that echoes its token is renewed if and only if its job still has that lease; only the lease time changes |
| `JobAnswers.FinishIs` | SearchSECODatabaseAPI/JobDistribution/JobRequestHandler.cpp:153-233 | over tables and ledger: reason 0 finishes; any other reason adds the failed row with that reason and text and queues the job again if and only if it was not retried before and the reason is not 10; a stale token or a report without text changes nothing |
| `JobAnswers.TimedOutIff` | SearchSECODatabaseAPI/JobDistribution/DatabaseConnection.cpp:497-510 | a lease times out if and only if more than its uploaded timeout has passed since it began; what the failure leaves |
| `JobAnswers.CrawlIDIsLastNamed` | SearchSECODatabaseAPI/JobDistribution/JobRequestHandler.cpp:359-367 | over every run the crawl id, in memory and stored, is the one of the last accepted crawl upload, or that at the start |
| `JobAnswers.CrawlNamesLast` | SearchSECODatabaseAPI/JobDistribution/JobRequestHandler.cpp:79-90 | a crawl response names that id |
| `JobPayloads.LineIsRead` | SearchSECODatabaseAPI/JobDistribution/JobRequestHandler.cpp:257-285 | a line made of url, priority and timeout is read as exactly those |
| `JobPayloads.LineParsesIff` | SearchSECODatabaseAPI/JobDistribution/JobRequestHandler.cpp:257-285 | a line is well-formed if and only if it has three fields and the second and third are numbers of 32 and 64 bits |
| `JobPayloads.UploadIsQueued` | SearchSECODatabaseAPI/JobDistribution/JobRequestHandler.cpp:238-306 | a clean upload is accepted and adds one row a line - key, url, timeout, no retries - and nothing else |
| `JobPayloads.BadLineRefusesAll` | SearchSECODatabaseAPI/JobDistribution/JobRequestHandler.cpp:253-285 | one malformed line and nothing is uploaded |
| `JobPayloads.CrawlIsQueued` | SearchSECODatabaseAPI/JobDistribution/JobRequestHandler.cpp:308-355 | crawl data that names the open crawl is accepted: its jobs are queued, the crawl is closed, its id is kept |
| `JobPayloads.PayloadIsKept` | SearchSECODatabaseAPI/JobDistribution/DatabaseConnection.cpp:411-453 | over every run, through renewals, failures and retries, queue row and current job have the url and timeout of the upload |
| `JobPayloads.SpiderCarriesUpload` | SearchSECODatabaseAPI/JobDistribution/JobRequestHandler.cpp:68-77 | whoever gets a job gets the url and timeout it was uploaded with, and its retry count |
| `Membership.WithoutIs` | SearchSECODatabaseAPI/JobDistribution/RAFTConsensus.cpp:308-314 | erasing removes every occurrence of a node and nothing else |
| `Membership.ReplayIsReplaySet` | SearchSECODatabaseAPI/JobDistribution/RAFTConsensus.cpp:289-319 | replaying changes on a duplicate-free list gives a duplicate-free list of what replaying on the set gives |
| `Membership.ReplayOverrides` | SearchSECODatabaseAPI/JobDistribution/RAFTConsensus.cpp:289-319 | the last change to a node decides; an untouched node keeps its status |
| `Membership.ReplayConverges` | SearchSECODatabaseAPI/JobDistribution/RAFTConsensus.cpp:289-319 | replaying a log on sets that agree wherever the log is silent gives one set |
| `Membership.ReplaySetAppend` | SearchSECODatabaseAPI/JobDistribution/RAFTConsensus.cpp:256-260 | replaying a log and then more is replaying both |
| `Membership.SplitHeartbeat` | SearchSECODatabaseAPI/JobDistribution/RAFTConsensus.cpp:403-406 | a heartbeat splits into the crawl id and the fields of every change |
| `Membership.SplitReply` | SearchSECODatabaseAPI/JobDistribution/RAFTConsensus.cpp:265-267 | a join reply splits into the acknowledgement and the address fields |
| `Membership.PairsOfAddressFields` | SearchSECODatabaseAPI/JobDistribution/RAFTConsensus.cpp:151-155 | fields taken in pairs are the addresses that were printed |
| `Membership.SwapRemoveKeepsOrder` | SearchSECODatabaseAPI/JobDistribution/RAFTConsensus.cpp:393-394 | the leader keeps join order if and only if it drops one of its last two connections |
| `Membership.SwapRemoveMembers` | SearchSECODatabaseAPI/JobDistribution/RAFTConsensus.cpp:393-394 | exactly the dropped connection leaves the set |
| `MembershipNodes.SendDownMembers` | SearchSECODatabaseAPI/JobDistribution/RAFTConsensus.cpp:356-377 | one round of sending leaves exactly the connections that are up, and the log explains the difference |
| `MembershipNodes.ServedAre` | SearchSECODatabaseAPI/JobDistribution/RAFTConsensus.cpp:357-363 | the connections served are those that are up, each once |
| `MembershipNodes.Leader.RecordChange` | SearchSECODatabaseAPI/JobDistribution/RAFTConsensus.cpp:256-260 | the pending text is always the printed log |
| `MembershipNodes.Leader.ConnectNewNode` | SearchSECODatabaseAPI/JobDistribution/RAFTConsensus.cpp:238-268 | the reply is the node's own address and a snapshot of the connections before it; the node and its change are added |
| `MembershipNodes.Leader.DropConnection` | SearchSECODatabaseAPI/JobDistribution/RAFTConsensus.cpp:382-395 | swap-remove of one connection, logged |
| `MembershipNodes.Leader.GetHeartbeat` | SearchSECODatabaseAPI/JobDistribution/RAFTConsensus.cpp:397-407 | the pending changes leave with the heartbeat |
| `MembershipNodes.Leader.SendHeartbeats` | SearchSECODatabaseAPI/JobDistribution/RAFTConsensus.cpp:356-378 | the loop from back to front serves every connection that is up and drops the others |
| `MembershipNodes.Follower.HandleInitialData` | SearchSECODatabaseAPI/JobDistribution/RAFTConsensus.cpp:135-156 | own address and snapshot are taken from the reply; a short reply changes nothing |
| `MembershipNodes.Follower.HandleHeartbeat` | SearchSECODatabaseAPI/JobDistribution/RAFTConsensus.cpp:272-320 | the crawl id, if it parses, and the changes in threes are applied; unknown tags change nothing |
| `MembershipNodes.Follower.IsListed` | SearchSECODatabaseAPI/JobDistribution/RAFTConsensus.cpp:295-303 | whether the node is in the list |
| `MembershipNodes.Follower.LoseLeader` | SearchSECODatabaseAPI/JobDistribution/RAFTConsensus.cpp:206-217 | the head of the list is next; this node leads if it is that head |
| `MembershipNodes.ReplyIsSnapshot` | SearchSECODatabaseAPI/JobDistribution/RAFTConsensus.cpp:135-156 | over the wire a joining node ends up with its own address and exactly the leader's connections |
| `MembershipNodes.HeartbeatIsReplay` | SearchSECODatabaseAPI/JobDistribution/RAFTConsensus.cpp:272-320 | over the wire a follower replays exactly the leader's changes and learns its crawl id |
| `MembershipRuns.StepInv` | SearchSECODatabaseAPI/JobDistribution/RAFTConsensus.cpp:238-407 | every join, cut, send with drops, and receive keeps the replication invariant |
| `MembershipRuns.RunInv` | SearchSECODatabaseAPI/JobDistribution/RAFTConsensus.cpp:238-407 | so does every run |
| `MembershipRuns.FollowersAgreeWithTheCut` | SearchSECODatabaseAPI/JobDistribution/RAFTConsensus.cpp:289-319 | in every run a node that processed a heartbeat cut after its join lists, without duplicates, exactly the leader's connections at that cut, itself among them, and knows its crawl id - although snapshot and heartbeats overlap and an older heartbeat may come first |
| `MembershipOrder.AddsExtend` | SearchSECODatabaseAPI/JobDistribution/RAFTConsensus.cpp:293-307 | replaying additions over a snapshot that holds some of them gives all of them in order |
| `MembershipOrder.OrderRun` | SearchSECODatabaseAPI/JobDistribution/RAFTConsensus.cpp:255-260 | in a run without drops the connections are the nodes in the order they joined |
| `MembershipOrder.HeadJoinedFirst` | SearchSECODatabaseAPI/JobDistribution/RAFTConsensus.cpp:208-215 | in a run without drops every follower, however far behind, has the node that joined first at the head of its list; the list is empty exactly for that node until it processes a heartbeat cut after its join |
| `MembershipOrder.UniqueSuccessor` | SearchSECODatabaseAPI/JobDistribution/RAFTConsensus.cpp:208-220 | in a run without drops every up-to-date follower holds the same list in join order, so all turn to the one node that joined first |
| `MembershipOrder.DropsBreakTheOrder` | SearchSECODatabaseAPI/JobDistribution/RAFTConsensus.cpp:392-394 | after one drop, two connected up-to-date followers can hold the same nodes in different orders: one leads, the other turns to a third |
| `MembershipAgreement.SendErases` | SearchSECODatabaseAPI/JobDistribution/RAFTConsensus.cpp:356-395 | a round of sending erases exactly the dropped connections from what any follower will hold |
| `MembershipAgreement.EventualMembers` | SearchSECODatabaseAPI/JobDistribution/RAFTConsensus.cpp:289-319 | once it has all changes recorded so far a follower lists exactly the leader's connections, without duplicates |
| `MembershipAgreement.StepAgrees` | SearchSECODatabaseAPI/JobDistribution/RAFTConsensus.cpp:238-407 | every event, whatever drops, keeps one agreed list for all connected followers, except that a join keeps it if and only if replaying the changes yet to be sent on the leader's own connections gives that list |
| `MembershipAgreement.FailedJoinDiffers` | SearchSECODatabaseAPI/JobDistribution/RAFTConsensus.cpp:248-260 | after a join that fails the test the newcomer and every other connection will hold different lists |
| `MembershipOrderly.FollowersHoldTheAgreedList` | SearchSECODatabaseAPI/JobDistribution/RAFTConsensus.cpp:208-220 | in a run whose joins all pass the test, drops or not, a connected follower holds exactly the list agreed at the last cut it processed - joins appended, drops erased - and turns to its head |
| `MembershipOrderly.JoinKeepsOrderIff` | SearchSECODatabaseAPI/JobDistribution/RAFTConsensus.cpp:248-260 | after such a run a join passes the test if and only if, however the run goes on before the next join, up-to-date connected followers hold one list |
| `MembershipOrderly.OrderIsKeptIff` | SearchSECODatabaseAPI/JobDistribution/RAFTConsensus.cpp:238-407 | over whole runs: at every point, up-to-date connected followers hold one list, there and however the run goes on before the next join, if and only if every join passed the test |
| `MembershipSuccessor.JoinKeepsSuccessorIff` | SearchSECODatabaseAPI/JobDistribution/RAFTConsensus.cpp:206-220 | a join passes the test if and only if, however the run goes on before the next join, up-to-date connected followers turn to one successor |
| `MembershipSuccessor.SuccessorIsKeptIff` | SearchSECODatabaseAPI/JobDistribution/RAFTConsensus.cpp:206-220 | over whole runs: at every point, up-to-date connected followers turn to one successor, there and however the run goes on before the next join, if and only if every join passed the test |
| `MembershipOrderly.WithoutDropsIsOrderly` | SearchSECODatabaseAPI/JobDistribution/RAFTConsensus.cpp:255-260 | in a run without drops every join passes the test and the agreed list is the order of joining |
| `WorkerPool.StepKeepsItems` | SearchSECODatabaseAPI/Database-API/DatabaseRequestHandlerMethod.cpp:211-232 | no step of any worker loses or doubles an item |
| `WorkerPool.StepKeepsResults` | SearchSECODatabaseAPI/Database-API/DatabaseRequestHandlerMethod.cpp:211-232 | after every step store and results are those of one worker that did the finished items in the order of finishing |
| `WorkerPool.PoolIsSequential` | SearchSECODatabaseAPI/Database-API/DatabaseRequestHandlerMethod.cpp:168-233 | for any number of workers and every interleaving each item is worked on exactly once; store and merged results are those of one worker that does the items in the order of finishing, the results up to a permutation |
| `WorkerPool.ReadersAreSequential` | SearchSECODatabaseAPI/Database-API/DatabaseRequestHandlerMethod.cpp:168-233 | when the workers only read, the merged results are a permutation of the lookups of the queue in order |
| `WorkerPool.PoolNeverSticks` | SearchSECODatabaseAPI/Database-API/DatabaseRequestHandlerMethod.cpp:211-232 | until all is done some worker can step, and every complete run takes two steps an item |
| `WorkerPool.SharedPool.Take` | SearchSECODatabaseAPI/Database-API/DatabaseRequestHandlerMethod.cpp:213-221 | a worker takes the front of the queue under the lock |
| `WorkerPool.SharedPool.Complete` | SearchSECODatabaseAPI/Database-API/DatabaseRequestHandlerMethod.cpp:222-231 | a worker's results grow by those of its item |
| `WorkerPool.SharedPool.Join` | SearchSECODatabaseAPI/Database-API/DatabaseRequestHandlerMethod.cpp:194-204 | the results of the workers are concatenated |
| `WorkerPool.Collect` | SearchSECODatabaseAPI/Database-API/DatabaseRequestHandlerMethod.cpp:168-205 | sixteen workers in any schedule return a permutation of the sequential results |
| `Chunks.ToChunks` | SearchSECODatabaseAPI/Database-API/DatabaseRequestHandler.h:470-489 | the chunks make up the list, none is empty, all but the last are full |
| `Chunks.ChunksAreUnique` | SearchSECODatabaseAPI/Database-API/DatabaseRequestHandler.h:470-489 | no other cutting meets that description |
| `Chunks.CartesianProductQueue` | SearchSECODatabaseAPI/Database-API/DatabaseRequestHandler.h:501-515 | the queue is the product of the two lists of chunks |
| `Chunks.InProduct` | SearchSECODatabaseAPI/Database-API/DatabaseRequestHandler.h:501-515 | a pair is queued exactly when both its parts are chunks |
| `Chunks.ChunkPairsCover` | SearchSECODatabaseAPI/Database-API/DatabaseRequestHandlerProject.cpp:175-178 | whatever the chunk sizes, the queued chunk pairs cover exactly the pairs of the two lists |
| `MethodStore.DatabaseHandler.AddProject` | SearchSECODatabaseAPI/Database-API/DatabaseHandlerSet.cpp:15-70 | the project row holds all the hashes, the first batch inserted and the others added |
| `MethodStore.DatabaseHandler.AddHashToProject` | SearchSECODatabaseAPI/Database-API/DatabaseHandlerSet.cpp:72-115 | the recursion in steps of 1000 adds exactly the hashes from the index on, and ends; a missing row is created unless there is nothing to add |
| `MethodStore.DatabaseHandler.SearchForProject` | SearchSECODatabaseAPI/Database-API/DatabaseHandlerGet.cpp:15-56 | the project version is found exactly when it is stored |
| `MethodStore.DatabaseHandler.Select` | SearchSECODatabaseAPI/Database-API/DatabaseHandlerSet.cpp:344-377 | a query returns each matching row once, in any order |
| `MethodStore.DatabaseHandler.UploadMethod` | SearchSECODatabaseAPI/Database-API/DatabaseHandlerSet.cpp:117-172 | a method extends its rows that end with the previous version, and gets a new row when there is none or the project is new |
| `MethodStore.DatabaseHandler.HandleSelectMethodQueryResult` | SearchSECODatabaseAPI/Database-API/DatabaseHandlerSet.cpp:174-198 | exactly the rows that end with the previous version are extended |
| `MethodStore.DatabaseHandler.InsertMethod` | SearchSECODatabaseAPI/Database-API/DatabaseHandlerSet.cpp:200-263 | a row from the new version to itself, and an author entry for each author |
| `MethodStore.DatabaseHandler.UpdateMethod` | SearchSECODatabaseAPI/Database-API/DatabaseHandlerSet.cpp:265-315 | one row, created if missing, gets new end, name and line and more authors, each with an author entry at the new version |
| `MethodStore.DatabaseHandler.AddAuthors` | SearchSECODatabaseAPI/Database-API/DatabaseHandlerSet.cpp:283-292 | the set of authors, each with an entry |
| `MethodStore.DatabaseHandler.AddMethodByAuthor` | SearchSECODatabaseAPI/Database-API/DatabaseHandlerSet.cpp:413-447 | one author entry at the version uploaded |
| `MethodStore.DatabaseHandler.UpdateUnchangedFiles` | SearchSECODatabaseAPI/Database-API/DatabaseHandlerSet.cpp:317-342 | exactly the rows of the given hashes and files that end with the previous version are renewed, and exactly their hashes returned |
| `MethodStore.DatabaseHandler.HandleSelectUnchangedMethodsResult` | SearchSECODatabaseAPI/Database-API/DatabaseHandlerSet.cpp:379-411 | the loop over the selected rows does that |
| `MethodUpload.ChunkedUpdateIsOnePass` | SearchSECODatabaseAPI/Database-API/DatabaseRequestHandlerProject.cpp:172-215 | for every chunk size, every order of the chunk pairs and repeated names, tables and returned hashes are those of a single pass over the whole lists |
| `MethodUpload.AddMethodsCommute` | SearchSECODatabaseAPI/Database-API/DatabaseRequestHandlerMethod.cpp:45-65 | uploads of different methods commute, over all tables |
| `MethodUpload.OrderDoesNotMatter` | SearchSECODatabaseAPI/Database-API/DatabaseRequestHandlerMethod.cpp:45-65 | in whatever order the workers finish distinct methods, the tables end up the same |
| `MethodPool.PooledUploadIsSequential` | SearchSECODatabaseAPI/Database-API/DatabaseRequestHandlerProject.cpp:137-163 | for any number of workers and every interleaving, repeats included, the tables are those of one worker that goes through the methods in the order of finishing - in the order of the queue when no method is listed twice |
| `MethodPool.PooledUpdateIsOnePass` | SearchSECODatabaseAPI/Database-API/DatabaseRequestHandlerProject.cpp:172-211 | for any number of workers, every interleaving and any chunk sizes, the tables are those of a single pass, and the merged results of the workers are the hashes that pass finds |
| `MethodHandler.DatabaseRequestHandler.HandleUploadRequest` | SearchSECODatabaseAPI/Database-API/DatabaseRequestHandlerProject.cpp:58-135 | an unknown previous version is refused and changes nothing; otherwise the tables are those of the specification for some order of the methods |
| `MethodHandler.DatabaseRequestHandler.UploadMethods` | SearchSECODatabaseAPI/Database-API/DatabaseRequestHandlerProject.cpp:137-163 | the workers drain the queue, each method once, in any order |
| `MethodHandler.DatabaseRequestHandler.UpdateUnchangedFiles` | SearchSECODatabaseAPI/Database-API/DatabaseRequestHandlerProject.cpp:172-215 | chunking, queueing, querying in any order and the final union of hashes amount to one pass |
| `MethodHistory.RowsAreDisjoint` | SearchSECODatabaseAPI/Database-API/DatabaseHandlerSet.cpp:117-315 | rows of one method never overlap |
| `MethodHistory.VersionContainsIffOneRowHolds` | SearchSECODatabaseAPI/Database-API/DatabaseHandlerSet.cpp:117-315 | when the rows are the maximal runs, a version contains a method exactly when a row holds it there, and exactly one does |
| `MethodIndex.NextIsRuns` | SearchSECODatabaseAPI/Database-API/DatabaseHandlerSet.cpp:174-212 | extending the rows of members that stay and starting rows for members that are new turns the runs of a history into the runs of the longer history |
| `MethodIndex.WorkersLeave` | SearchSECODatabaseAPI/Database-API/DatabaseHandlerSet.cpp:117-172 | after any list of methods, repeats included: which rows exist and where each ends |
| `MethodRows.WorkersWriteRows` | SearchSECODatabaseAPI/Database-API/DatabaseHandlerSet.cpp:200-294 | after any list of methods, repeats included: every column of every row |
| `MethodUploads.RowsStayRunsIff` | SearchSECODatabaseAPI/Database-API/DatabaseHandlerSet.cpp:117-315 | after an upload in any order the rows are again exactly the maximal runs if and only if no method of the previous version is listed twice |
| `MethodUploads.HashesStayMembers` | SearchSECODatabaseAPI/Database-API/DatabaseHandlerSet.cpp:30-115 | after an upload the stored hashes of each version are exactly those of its members |
| `MethodUploads.NewHashes` | SearchSECODatabaseAPI/Database-API/DatabaseRequestHandlerProject.cpp:202-214 | listed hashes and the hashes found for unchanged files together are those of the new version's members |
| `MethodRuns.OthersUntouched` | SearchSECODatabaseAPI/Database-API/DatabaseHandlerSet.cpp:117-315 | an upload changes no row and no version of another project |
| `MethodAuthors.WorkersNameAuthors` | SearchSECODatabaseAPI/Database-API/DatabaseHandlerSet.cpp:117-294 | after any list of methods, repeats included: the authors of every row and every author entry |
| `MethodAuthors.UploadAgreesIff` | SearchSECODatabaseAPI/Database-API/DatabaseHandlerSet.cpp:231-294 | an upload in a given order keeps the author index in agreement with the rows if and only if every author named for a method is named by its last listing or, when the previous version has the method, by its first listing or the row that extends |
| `MethodAuthors.EveryOrderAgreesIff` | SearchSECODatabaseAPI/Database-API/DatabaseHandlerSet.cpp:231-294 | every order keeps the agreement if and only if, of every method listed more than once, any two listings taken as first and last name all its authors, together with the old row when the previous version has the method |
| `MethodAuthors.PairsNameIffListingsAgree` | SearchSECODatabaseAPI/Database-API/DatabaseHandlerSet.cpp:231-294 | when no old member is listed twice that condition says that all listings of each new method name the same authors |
| `MethodAuthors.RepeatedMethodLosesAuthor` | SearchSECODatabaseAPI/Database-API/DatabaseHandlerSet.cpp:231-241 | a first upload that lists a method twice, the second time without one author, leaves that author an entry no row bears out |
| `MethodRuns.RunInv` | SearchSECODatabaseAPI/Database-API/DatabaseRequestHandlerProject.cpp:58-170 | every run of uploads to any projects, in which no old member is listed twice, keeps rows and hashes those of the histories |
| `MethodRuns.IndexRefinesMembership` | SearchSECODatabaseAPI/Database-API/DatabaseHandlerSet.cpp:117-411 | in every such run, for every project: an uploaded version contains a method exactly when a row holds it there, that row is the only one, and the version's stored hashes are those of its members; new methods may be listed any number of times |
| `MethodRuns.OldMemberTwiceOverlaps` | SearchSECODatabaseAPI/Database-API/DatabaseHandlerSet.cpp:185-211 | two uploads, the second listing the first's method twice, leave two rows that hold the method at the new version |
| `MethodColumns.RowsSayWhatUploadsSaid` | SearchSECODatabaseAPI/Database-API/DatabaseHandlerSet.cpp:200-315 | in every run, from the uploads alone: a row has start hash and parser version of the upload of its start version and the last vulnerability code given there, end hash of the upload of its end version, name and line of the last listing in between, and the authors that the first upload leaves and later ones name |
| `MethodColumns.ProjectsSayWhatUploadsSaid` | SearchSECODatabaseAPI/Database-API/DatabaseHandlerSet.cpp:15-70 | in every run each accepted upload is stored with its hash, license, name, url, owner and parser version |
| `MethodColumns.VersionsHoldWhatUploadsSaid` | SearchSECODatabaseAPI/Database-API/DatabaseHandlerSet.cpp:117-411 | in every run, from the uploads alone: a row holds a method at the version of an upload if and only if some upload up to then listed it and all later ones named its file unchanged; the stored hashes are those of such methods |
| `MethodRuns.NextAgreesIff` | SearchSECODatabaseAPI/Database-API/DatabaseHandlerSet.cpp:231-294 | after a run in which the author index agrees, the next upload keeps it so if and only if it is refused or every author it names is still named in the end |
| `MethodRuns.AuthorIndexAgrees` | SearchSECODatabaseAPI/Database-API/DatabaseHandlerSet.cpp:413-447 | in every run of such uploads each author entry belongs to exactly one row, which lists the author, and every author of a row has an entry that belongs to it |
| `Reports.MethodsToString` | SearchSECODatabaseAPI/Database-API/DatabaseRequestHandlerMethod.cpp:235-269 | the rows of the methods, printed from back to front |
| `Reports.ProjectsToString` | SearchSECODatabaseAPI/Database-API/DatabaseRequestHandlerProject.cpp:493-524 | the rows of the projects in order, or the notice that there are none |
| `Reports.MethodsAreRecovered` | SearchSECODatabaseAPI/Database-API/DatabaseRequestHandlerMethod.cpp:235-269 | every method is recovered from the report, with all its fields and as many authors as it says, the last one first |
| `Reports.ProjectsAreRecovered` | SearchSECODatabaseAPI/Database-API/DatabaseRequestHandlerProject.cpp:493-524 | every project is recovered from the report, in order, and a report is never the notice |

## Left out

- Store failures, retries and `errno`: a half-applied operation that is run again breaks the exact invariants; calls are modelled as succeeding.
- Interleavings inside one job handler, one timeout check, one method upload or one chunk query: each is one step.
- JobStore.DatabaseConnection.UpdateCurrentJob: checks the row as it is; the periodic scan may check a row it read before a renewal.
- JobHandler.JobRequestHandler.HandleCrawlDataRequest: does not model the language counts on the second line, which only feed statistics.
- JobRuns.CachedSizeIsExact: starts from an exact size; `JobRuns.ExactFromAnyRecount` covers any cached size from a recount on, `JobRuns.EmptyQueueReadIff` the time before.
- Reading the first row of an empty queue: the outcome `EmptyQueueRead` stands for it; the original's behaviour is undefined there.
- Forwarding of requests by nodes that do not lead, and the interval in which no node or more than one leads.
- Md5.MD5.AbsorbBlocks: requires an input on which no 32-bit test of the block loop wraps (`Md5.LoopFits`, exact by `Md5.LoopFitsIff`; every input more than 64 bytes short of 2^32 is one); on others the original reads past the input.
- Md5.MD5.CompressInput: the same bound.
- Md5.MD5.Update: the same bound on the input of one call.
- Md5.DigestOfPieces: the same bound on each piece; their number and total length are free.
- Md5.Md5Hash: the same bound on the text.
- The text of the job responses: outcomes are records with the fields that the text lists.
- The sine origin of the MD5 constants: the table is taken as given; `Md5Abc.AbcDigest` goes through every entry.
- MembershipNodes.Leader.ConnectNewNode: requires two fields in the request, as the original reads them unchecked.
- MembershipNodes.Follower.HandleHeartbeat: requires a number of fields one more than a multiple of three, as the original reads past the end of others; in a run the leader never sends one.
- MembershipNodes.Follower.LoseLeader: requires a non-empty list, as the original reads its first element; `MembershipOrder.HeadJoinedFirst` says when the list is empty.
- MembershipOrder.UniqueSuccessor: only runs without drops; `MembershipOrderly.OrderIsKeptIff` covers all runs.
- MethodHandler.DatabaseRequestHandler.HandleUploadRequest: takes project and methods as records; parsing the request text, the check for valid hashes in it, and HTTP status codes are not modelled.
- Author names and mail addresses (table `author_by_id`), the conversion between hashes and UUIDs, and the byte order of UUIDs: identifiers are compared as text.
- `getPrevProjects`: its workers stop after one item each.
- Statistics, logging, sleeping, TCP connections, regular expressions and environment files.
- The 32-bit width of the cached queue size and the 64-bit width of times and versions: modelled as unbounded integers.
