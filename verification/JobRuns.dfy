/** Runs of the job distribution: any sequence of requests and timeout checks, and what holds
    in every state such a run reaches. Nothing here depends on the clock: readings may repeat
    or go back. */
module JobRuns {
  import opened Codec
  import opened JobStore
  import H = JobHandler
  import opened JobLedger

  datatype Request =
    | GetJob(seconds: int, now: int)
    | UpdateJob(data: string, now: int)
    | FinishJob(data: string)
    | UploadJobs(data: string, ids: seq<JobId>, times: seq<int>)
    | CrawlData(data: string, ids: seq<JobId>, times: seq<int>)
    | CheckTimeout(jobid: JobId, now: int)

  /** Crawl responses and accepted crawl uploads by identifier, and the times of the
      responses since the last accepted upload. */
  datatype CrawlLog = CrawlLog(issued: multiset<int>, accepted: multiset<int>, open: seq<int>)

  datatype World = World(h: H.Handler, l: Ledger, crawls: CrawlLog)

  // ----- Steps

  ghost predicate FreshIds(l: Ledger, lines: seq<string>, ids: seq<JobId>) {
    |lines| <= |ids| && Fresh(l, ids)
  }

  ghost predicate ValidUpload(w: World, data: string, ids: seq<JobId>, times: seq<int>) {
    var lines := Split(data, ENTRY_DELIMITER);
    FreshIds(w.l, lines, ids) && |lines| <= |times|
  }

  /** New jobs get unused ids, and the clock is read for each. */
  ghost predicate Valid(w: World, r: Request) {
    match r
    case UploadJobs(data, ids, times) => ValidUpload(w, data, ids, times)
    case CrawlData(data, ids, times) => ValidUpload(w, data, ids, times)
    case _ => true
  }

  ghost function Respond(w: World, r: Request): (H.Handler, H.Outcome)
    requires Valid(w, r)
  {
    match r
    case GetJob(seconds, now) => H.GetJob(w.h, seconds, now)
    case UpdateJob(data, now) => H.UpdateJob(w.h, data, now)
    case FinishJob(data) => H.FinishJob(w.h, data)
    case UploadJobs(data, ids, times) => H.UploadLines(w.h, Split(data, ENTRY_DELIMITER), ids, times)
    case CrawlData(data, ids, times) => H.CrawlData(w.h, data, ids, times)
    case CheckTimeout(jobid, now) => H.CheckTimeout(w.h, jobid, now)
  }

  function RecordCrawl(c: CrawlLog, outcome: H.Outcome): CrawlLog {
    match outcome
    case Crawl(_, identifier) => c.(issued := c.issued + multiset{identifier}, open := c.open + [identifier])
    case CrawlAccepted(identifier, _) => c.(accepted := c.accepted + multiset{identifier}, open := [])
    case _ => c
  }

  ghost function Step(w: World, r: Request): World
    requires Valid(w, r)
  {
    var (h, outcome) := Respond(w, r);
    World(h, Record(w.l, outcome), RecordCrawl(w.crawls, outcome))
  }

  ghost predicate ValidRun(w: World, rs: seq<Request>)
    decreases |rs|
  {
    rs == [] || (Valid(w, rs[0]) && ValidRun(Step(w, rs[0]), rs[1..]))
  }

  ghost function Run(w: World, rs: seq<Request>): World
    requires ValidRun(w, rs)
    decreases |rs|
  {
    if rs == [] then w else Run(Step(w, rs[0]), rs[1..])
  }

  const NO_CRAWLS := CrawlLog(multiset{}, multiset{}, [])

  /** A leader that has just counted its empty tables. */
  function Start(seconds: int, crawlID: int): World {
    World(H.Handler(Store(map[], map[], map[], 0, seconds), -1, crawlID, crawlID), EMPTY, NO_CRAWLS)
  }

  /** A leader that finds tables, and has whatever cached size. */
  ghost function TakeOver(s: Store, crawlID: int): World {
    World(H.Handler(s, -1, crawlID, crawlID), TakenOver(s), NO_CRAWLS)
  }

  // ----- The invariant of every run

  /** The identifier of the open crawl, -1 while none is open. */
  function OpenCrawl(c: CrawlLog): int {
    if c.open == [] then -1 else c.open[|c.open| - 1]
  }

  /** Accepted crawls were issued, and the open one once more. */
  ghost predicate CrawlInv(h: H.Handler, c: CrawlLog) {
    && h.timeLastCrawl == OpenCrawl(c)
    && (forall t :: t != -1 ==> c.accepted[t] + One(h.timeLastCrawl == t) <= c.issued[t])
  }

  ghost predicate WorldInv(w: World) {
    Inv(w.h.store, w.l) && CrawlInv(w.h, w.crawls)
  }

  lemma StartInv(seconds: int, crawlID: int)
    ensures WorldInv(Start(seconds, crawlID)) && SizeIsExact(Start(seconds, crawlID).h.store)
  {
  }

  lemma TakeOverInv(s: Store, crawlID: int)
    requires AreSound(s)
    ensures WorldInv(TakeOver(s, crawlID))
  {
    hide Inv, TakenOver;
    TakenOverInv(s);
  }

  /** The cached size is old enough to be counted again: more than ten minutes. */
  predicate RecountIsDue(s: Store, seconds: int) {
    seconds - s.timeLastRecount > 600
  }

  lemma RecountInv(s: Store, l: Ledger, seconds: int)
    requires Inv(s, l)
    ensures Inv(Recount(s, seconds), l)
    ensures SizeIsExact(s) || RecountIsDue(s, seconds) ==> SizeIsExact(Recount(s, seconds))
  {
    forall id: JobId ensures JobInv(Recount(s, seconds), l, id) {
      Known(s, l, id);
    }
  }

  /** An exact size never leads to reading the first row of an empty queue. */
  lemma GetJobInv(w: World, seconds: int, now: int)
    requires WorldInv(w)
    ensures var w' := Step(w, GetJob(seconds, now));
      && Inv(w'.h.store, w'.l)
      && (SizeIsExact(Recount(w.h.store, seconds)) ==>
            SizeIsExact(w'.h.store) && Respond(w, GetJob(seconds, now)).1 != H.EmptyQueueRead)
  {
    hide HandOut, RecordHandOut, Inv;
    var s := Recount(w.h.store, seconds);
    RecountInv(w.h.store, w.l, seconds);
    if s.queue != map[] {
      HandOutInv(s, w.l, now);
    }
  }

  lemma GetJobCrawl(w: World, seconds: int, now: int)
    requires CrawlInv(w.h, w.crawls)
    ensures var w' := Step(w, GetJob(seconds, now)); CrawlInv(w'.h, w'.crawls)
  {
    hide HandOut, Record;
  }

  lemma UpdateJobInv(w: World, data: string, now: int)
    requires WorldInv(w)
    ensures WorldInv(Step(w, UpdateJob(data, now)))
    ensures SizeIsExact(w.h.store) ==> SizeIsExact(Step(w, UpdateJob(data, now)).h.store)
  {
    hide Inv, H.ParseToken, Issue, Consume;
    var s, l := w.h.store, w.l;
    var (ok, token) := H.ParseToken(data, 2);
    if ok && H.Live(s, token) {
      RenewInv(s, l, token.jobid, now);
      CurrentIsKnown(s, l, token.jobid);
    }
  }

  lemma FinishJobInv(w: World, data: string)
    requires WorldInv(w)
    ensures WorldInv(Step(w, FinishJob(data)))
    ensures SizeIsExact(w.h.store) ==> SizeIsExact(Step(w, FinishJob(data)).h.store)
  {
    hide Inv, Fail, RecordFailure, RecordFinish, Split, ParseNumber;
    var s, l := w.h.store, w.l;
    var (ok, token) := H.ParseToken(data, 4);
    if ok && H.Live(s, token) {
      var fields := Split(data, FIELD_DELIMITER);
      if SafeStoi(fields[2]).Value? {
        var reasonID := SafeStoi(fields[2]).value;
        FinishInv(s, l, token.jobid);
        FailInv(s, l, token.jobid, reasonID, fields[3], reasonID !in H.NO_RETRY_REASONS);
      }
    }
  }

  lemma CheckTimeoutInv(w: World, jobid: JobId, now: int)
    requires WorldInv(w)
    ensures WorldInv(Step(w, CheckTimeout(jobid, now)))
    ensures SizeIsExact(w.h.store) ==> SizeIsExact(Step(w, CheckTimeout(jobid, now)).h.store)
  {
    hide Inv, Fail, RecordFailure, Show;
    if jobid in w.h.store.current {
      FailInv(w.h.store, w.l, jobid, 2, "Timed out at: " + Show(now), true);
    }
  }

  /** What uploading lines does to store and ledger, whether or not they parse. */
  lemma UploadLinesInv(h: H.Handler, l: Ledger, lines: seq<string>, ids: seq<JobId>, times: seq<int>)
    requires Inv(h.store, l) && FreshIds(l, lines, ids) && |lines| <= |times|
    ensures var (h', outcome) := H.UploadLines(h, lines, ids, times);
      && h' == h.(store := h'.store)
      && Inv(h'.store, Upload(l, if outcome.Uploaded? then outcome.jobs else []))
      && (SizeIsExact(h.store) ==> SizeIsExact(h'.store))
  {
    hide Inv, H.UploadAll, H.AllParse;
    if H.AllParse(lines) {
      UploadAllInv(h.store, l, lines, ids, times);
    }
  }

  lemma UploadJobsInv(w: World, data: string, ids: seq<JobId>, times: seq<int>)
    requires WorldInv(w) && Valid(w, UploadJobs(data, ids, times))
    ensures WorldInv(Step(w, UploadJobs(data, ids, times)))
    ensures SizeIsExact(w.h.store) ==> SizeIsExact(Step(w, UploadJobs(data, ids, times)).h.store)
  {
    hide Inv, Split, H.UploadAll, H.AllParse, H.NewJobs, Upload, AddJobs, SizeIsExact, FreshIds;
    UploadLinesInv(w.h, w.l, Split(data, ENTRY_DELIMITER), ids, times);
    NothingUploaded(w.l);
  }

  lemma NothingUploaded(l: Ledger)
    ensures Upload(l, []) == l
  {
  }

  lemma CrawlAcceptedInv(h: H.Handler, c: CrawlLog, id: int, jobs: seq<H.NewJob>)
    requires CrawlInv(h, c)
    ensures CrawlInv(H.SetCrawlID(h, id), RecordCrawl(c, H.CrawlAccepted(h.timeLastCrawl, jobs)))
  {
  }

  lemma CrawlDataInv(w: World, data: string, ids: seq<JobId>, times: seq<int>)
    requires WorldInv(w) && Valid(w, CrawlData(data, ids, times))
    ensures WorldInv(Step(w, CrawlData(data, ids, times)))
    ensures SizeIsExact(w.h.store) ==> SizeIsExact(Step(w, CrawlData(data, ids, times)).h.store)
  {
    hide Inv, Split, ParseNumber, H.UploadLines;
    var outcome := Respond(w, CrawlData(data, ids, times)).1;
    if outcome.CrawlAccepted? {
      var lines := Split(data, ENTRY_DELIMITER);
      var id := SafeStoi(Split(lines[0], FIELD_DELIMITER)[0]).value;
      UploadLinesInv(H.SetCrawlID(w.h, id), w.l, lines[2..], ids, times);
      CrawlAcceptedInv(w.h, w.crawls, id, outcome.jobs);
    }
  }

  lemma StepInv(w: World, r: Request)
    requires WorldInv(w) && Valid(w, r)
    ensures WorldInv(Step(w, r))
    ensures SizeIsExact(w.h.store) ==> SizeIsExact(Step(w, r).h.store) && Respond(w, r).1 != H.EmptyQueueRead
  {
    hide Inv, CrawlInv, Record, RecordCrawl, H.GetJob;
    match r
    case GetJob(seconds, now) =>
      RecountInv(w.h.store, w.l, seconds);
      GetJobInv(w, seconds, now);
      GetJobCrawl(w, seconds, now);
    case UpdateJob(data, now) =>
      UpdateJobInv(w, data, now);
    case FinishJob(data) =>
      FinishJobInv(w, data);
    case UploadJobs(data, ids, times) =>
      UploadJobsInv(w, data, ids, times);
    case CrawlData(data, ids, times) =>
      CrawlDataInv(w, data, ids, times);
    case CheckTimeout(jobid, now) =>
      CheckTimeoutInv(w, jobid, now);
  }

  /** Every state that a run reaches satisfies the invariant, and an exact cached size
      stays exact. */
  lemma {:induction false} RunInv(w: World, rs: seq<Request>)
    requires WorldInv(w) && ValidRun(w, rs)
    ensures WorldInv(Run(w, rs))
    ensures SizeIsExact(w.h.store) ==> SizeIsExact(Run(w, rs).h.store)
    decreases |rs|
  {
    hide WorldInv, Step, SizeIsExact, Valid;
    if rs != [] {
      StepInv(w, rs[0]);
      RunInv(Step(w, rs[0]), rs[1..]);
    }
  }

  // ----- Conservation

  /** An uploaded job is in exactly one place, with at most one queue row: over every run from
      any accounted state, so from empty tables and from any sound tables. */
  lemma JobIsInOnePlace(w: World, rs: seq<Request>, id: JobId)
    requires WorldInv(w) && ValidRun(w, rs) && id in Run(w, rs).l.uploaded
    ensures var w' := Run(w, rs);
      var rows := set k | k in w'.h.store.queue && k.jobid == id;
      && |rows| <= 1
      && One(|rows| == 1) + One(id in w'.h.store.current) + One(id in w'.l.succeeded) + One(id in w'.l.abandoned) == 1
  {
    hide Run, ValidRun;
    RunInv(w, rs);
    var w' := Run(w, rs);
    Known(w'.h.store, w'.l, id);
    var rows := set k | k in w'.h.store.queue && k.jobid == id;
    var key := KeyOf(w'.l.uploaded[id]);
    if Queued(w'.h.store, w'.l, id) {
      assert rows == {key};
    } else {
      assert rows == {};
    }
  }

  // ----- The cached size

  /** Once exact, the cached size is the number of queue rows over every run, and the queue is
      never read empty. */
  lemma CachedSizeIsExact(w: World, rs: seq<Request>, r: Request)
    requires WorldInv(w) && SizeIsExact(w.h.store) && ValidRun(w, rs) && Valid(Run(w, rs), r)
    ensures var w' := Run(w, rs);
      w'.h.store.numberOfJobs == |w'.h.store.queue| && Respond(w', r).1 != H.EmptyQueueRead
  {
    hide Run, ValidRun, WorldInv, Respond, Step, Valid;
    RunInv(w, rs);
    StepInv(Run(w, rs), r);
  }

  /** Whatever the cached size and the clock were, from the first hand-out request that counts
      again the cached size is the number of queue rows. */
  lemma ExactFromAnyRecount(w: World, seconds: int, now: int, rs: seq<Request>)
    requires WorldInv(w) && RecountIsDue(w.h.store, seconds)
    requires ValidRun(Step(w, GetJob(seconds, now)), rs)
    ensures Respond(w, GetJob(seconds, now)).1 != H.EmptyQueueRead
    ensures var s := Run(Step(w, GetJob(seconds, now)), rs).h.store; s.numberOfJobs == |s.queue|
  {
    hide WorldInv, Run, ValidRun, Respond, Step, Inv, RecountIsDue;
    var r := GetJob(seconds, now);
    WorldStore(w);
    RecountInv(w.h.store, w.l, seconds);
    GetJobInv(w, seconds, now);
    StepInv(w, r);
    RunInv(Step(w, r), rs);
  }

  lemma WorldStore(w: World)
    requires WorldInv(w)
    ensures Inv(w.h.store, w.l)
  {
  }

  /** The same for a leader that takes over any sound tables with any cached size. */
  lemma ExactAfterTakeOver(s: Store, crawlID: int, seconds: int, now: int, rs: seq<Request>)
    requires AreSound(s) && RecountIsDue(s, seconds)
    requires ValidRun(Step(TakeOver(s, crawlID), GetJob(seconds, now)), rs)
    ensures var s' := Run(Step(TakeOver(s, crawlID), GetJob(seconds, now)), rs).h.store;
      s'.numberOfJobs == |s'.queue|
  {
    hide WorldInv, Run, ValidRun, Step, AreSound;
    TakeOverInv(s, crawlID);
    ExactFromAnyRecount(TakeOver(s, crawlID), seconds, now, rs);
  }

  /** Before a recount an empty queue is read exactly when a stale cached size promises jobs
      that are not there. */
  lemma EmptyQueueReadIff(w: World, r: Request)
    requires Valid(w, r)
    ensures Respond(w, r).1 == H.EmptyQueueRead <==>
      && r.GetJob? && w.h.store.queue == map[] && !RecountIsDue(w.h.store, r.seconds)
      && var t := w.h.timeLastCrawl;
         w.h.store.numberOfJobs >= if t != -1 && r.seconds - t <= 150 then 1 else 500
  {
    hide Split, ParseNumber, H.UploadAll, H.AllParse, H.NewJobs, HandOut, Fail;
    assert w.h.store.queue == map[] ==> |w.h.store.queue| == 0;
  }

  /** It can happen: a node counted 500 jobs, others worked them off, and it takes over before
      it counts again. */
  lemma StaleSizeReadsEmptyQueue(seconds: int, now: int, crawlID: int)
    ensures var s := Store(map[], map[], map[], H.MIN_AMOUNT_JOBS, seconds);
      && AreSound(s) && WorldInv(TakeOver(s, crawlID))
      && Respond(TakeOver(s, crawlID), GetJob(seconds, now)).1 == H.EmptyQueueRead
  {
    var s := Store(map[], map[], map[], H.MIN_AMOUNT_JOBS, seconds);
    TakeOverInv(s, crawlID);
    hide WorldInv, TakenOver;
    EmptyQueueReadIff(TakeOver(s, crawlID), GetJob(seconds, now));
  }
}
