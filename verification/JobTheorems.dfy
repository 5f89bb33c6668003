/** What the run invariant buys, whatever the clock does: a bound on the work done for a job, a
    bound on overtaking in the queue, and crawl uploads that were issued. With seconds that do
    not go back crawls are also spaced. */
module JobTheorems {
  import opened Codec
  import opened JobStore
  import H = JobHandler
  import opened JobLedger
  import opened JobRuns

  // ----- What an outcome tells about the request and the state before it

  lemma GetJobOutcome(h: H.Handler, seconds: int, now: int)
    ensures var o := H.GetJob(h, seconds, now).1;
      && (o.Spider? || o.Crawl? || o.NoJob? || o.EmptyQueueRead?)
      && (o.Spider? ==> h.store.queue != map[] && o.job.jobid == TopKey(h.store.queue.Keys).jobid)
  {
  }

  lemma UpdateJobOutcome(h: H.Handler, data: string, now: int)
    ensures var o := H.UpdateJob(h, data, now).1;
      && (o.Renewed? || o.NotExpected? || o.ClientError?)
      && (o.Renewed? ==> H.Live(h.store, o.token))
  {
    hide H.ParseToken;
  }

  lemma FinishJobOutcome(h: H.Handler, data: string)
    ensures var o := H.FinishJob(h, data).1;
      && (o.Finished? || o.Failed? || o.NotExpected? || o.ClientError?)
      && (o.Finished? || o.Failed? ==> H.Live(h.store, o.token))
  {
    hide ParseNumber, Split, Fail;
  }

  lemma CheckTimeoutOutcome(h: H.Handler, jobid: JobId, now: int)
    ensures var o := H.CheckTimeout(h, jobid, now).1;
      && (o.TimedOut? || o.NotExpired?)
      && (o.TimedOut? ==> jobid in h.store.current && o.token == H.Token(jobid, h.store.current[jobid].time))
  {
    hide Fail;
  }

  lemma UploadOutcome(w: World, r: Request)
    requires Valid(w, r) && (r.UploadJobs? || r.CrawlData?)
    ensures var o := Respond(w, r).1; o.Uploaded? || o.CrawlAccepted? || o.CrawlDeprecated? || o.ClientError?
  {
    hide ParseNumber, Split, H.AllParse, H.UploadAll;
  }

  lemma OutcomeFacts(w: World, r: Request)
    requires Valid(w, r)
    ensures var o := Respond(w, r).1;
      && (o.Uploaded? || o.CrawlAccepted? ==> r.UploadJobs? || r.CrawlData?)
      && (o.Spider? ==> w.h.store.queue != map[] && o.job.jobid == TopKey(w.h.store.queue.Keys).jobid)
      && (o.Renewed? || o.Finished? || o.Failed? ==> H.Live(w.h.store, o.token))
      && (o.TimedOut? ==> IsLeased(w.h.store, o.token))
  {
    hide H.GetJob, H.UpdateJob, H.FinishJob, H.CheckTimeout, H.UploadLines, H.CrawlData, FreshIds, Split;
    match r
    case GetJob(seconds, now) => GetJobOutcome(w.h, seconds, now);
    case UpdateJob(data, now) => UpdateJobOutcome(w.h, data, now);
    case FinishJob(data) => FinishJobOutcome(w.h, data);
    case CheckTimeout(jobid, now) => CheckTimeoutOutcome(w.h, jobid, now);
    case _ => UploadOutcome(w, r);
  }

  /** The token's job is current with the token's lease time. */
  predicate IsLeased(s: Store, token: H.Token) {
    token.jobid in s.current && s.current[token.jobid].time == token.time
  }

  // ----- Ledgers only grow

  ghost predicate Grows(l: Ledger, l': Ledger) {
    && l.consumed <= l'.consumed && l.issued <= l'.issued && l.handOuts <= l'.handOuts
    && (forall id :: id in l.uploaded ==> id in l'.uploaded && l'.uploaded[id] == l.uploaded[id])
  }

  lemma {:induction false} AddJobsKeeps(uploaded: map<JobId, H.NewJob>, jobs: seq<H.NewJob>, id: JobId)
    requires id in uploaded && forall j :: j in jobs ==> j.jobid != id
    ensures id in AddJobs(uploaded, jobs) && AddJobs(uploaded, jobs)[id] == uploaded[id]
  {
    if jobs != [] {
      AddJobsKeeps(uploaded, jobs[..|jobs| - 1], id);
    }
  }

  lemma FreshJobs(l: Ledger, lines: seq<string>, ids: seq<JobId>, times: seq<int>)
    requires FreshIds(l, lines, ids) && |lines| <= |times|
    ensures forall j :: j in H.NewJobs(lines, ids, times) ==> j.jobid !in l.uploaded
  {
  }

  lemma UploadGrows(l: Ledger, jobs: seq<H.NewJob>)
    requires forall j :: j in jobs ==> j.jobid !in l.uploaded
    ensures Grows(l, Upload(l, jobs))
  {
    forall id | id in l.uploaded
      ensures id in AddJobs(l.uploaded, jobs) && AddJobs(l.uploaded, jobs)[id] == l.uploaded[id]
    {
      AddJobsKeeps(l.uploaded, jobs, id);
    }
  }

  lemma UploadsAreFresh(w: World, r: Request)
    requires Valid(w, r) && (r.UploadJobs? || r.CrawlData?)
    ensures var o := Respond(w, r).1;
      o.Uploaded? || o.CrawlAccepted? ==> forall j :: j in o.jobs ==> j.jobid !in w.l.uploaded
  {
    hide Split, ParseNumber, H.AllParse, H.UploadAll;
    var lines := Split(r.data, ENTRY_DELIMITER);
    FreshJobs(w.l, lines, r.ids, r.times);
    if |lines| >= 3 { FreshJobs(w.l, lines[2..], r.ids, r.times); }
  }

  lemma RecordGrows(l: Ledger, o: H.Outcome)
    requires o.Uploaded? || o.CrawlAccepted? ==> forall j :: j in o.jobs ==> j.jobid !in l.uploaded
    ensures Grows(l, Record(l, o))
  {
    if o.Uploaded? || o.CrawlAccepted? { UploadGrows(l, o.jobs); }
  }

  lemma StepGrows(w: World, r: Request)
    requires Valid(w, r)
    ensures Grows(w.l, Step(w, r).l)
  {
    hide Valid, Respond, Record, Grows;
    OutcomeFacts(w, r);
    if r.UploadJobs? || r.CrawlData? { UploadsAreFresh(w, r); }
    RecordGrows(w.l, Respond(w, r).1);
  }

  lemma {:induction false} RunGrows(w: World, rs: seq<Request>)
    requires ValidRun(w, rs)
    ensures Grows(w.l, Run(w, rs).l)
    decreases |rs|
  {
    hide Step, Valid;
    if rs != [] {
      StepGrows(w, rs[0]);
      RunGrows(Step(w, rs[0]), rs[1..]);
    }
  }

  // ----- Bounded work

  predicate IsWork(o: H.Outcome) {
    o.Spider? || o.Finished? || o.Failed? || o.TimedOut?
  }

  function WorkedOn(o: H.Outcome): JobId
    requires IsWork(o)
  {
    if o.Spider? then o.job.jobid else o.token.jobid
  }

  ghost function WorkEvents(w: World, rs: seq<Request>): nat
    requires ValidRun(w, rs)
    decreases |rs|
  {
    if rs == [] then 0 else One(IsWork(Respond(w, rs[0]).1)) + WorkEvents(Step(w, rs[0]), rs[1..])
  }

  lemma {:induction false} WorkIsRecorded(w: World, rs: seq<Request>)
    requires ValidRun(w, rs)
    ensures |Run(w, rs).l.work| == |w.l.work| + WorkEvents(w, rs)
    decreases |rs|
  {
    hide Respond, Valid;
    if rs != [] {
      WorkIsRecorded(Step(w, rs[0]), rs[1..]);
    }
  }

  lemma {:induction false} BoundedMultiset<X>(m: multiset<X>, s: set<X>, k: nat)
    requires forall x :: x in m ==> x in s && m[x] <= k
    ensures |m| <= k * |s|
    decreases s
  {
    if s == {} {
      assert m == multiset{};
    } else {
      var x :| x in s;
      BoundedMultiset(m[x := 0], s - {x}, k);
      assert |s| == |s - {x}| + 1;
      assert |m| == |m[x := 0]| + m[x];
      assert k * |s| == k * |s - {x}| + k;
    }
  }

  /** Work still possible for a job: falls with every hand-out, finish and timeout. */
  function Potential(s: Store, l: Ledger, id: JobId): nat
    requires l.retries[id] <= MAX_JOB_RETRIES
  {
    if Queued(s, l, id) then 2 * (MAX_JOB_RETRIES - l.retries[id]) + 2
    else if id in s.current then 2 * (MAX_JOB_RETRIES - l.retries[id]) + 1
    else 0
  }

  lemma PotentialIsKnown(w: World, id: JobId)
    requires WorldInv(w)
    ensures w.l.retries[id] <= MAX_JOB_RETRIES && w.l.handOuts[id] <= 2 && w.l.work[id] <= 4
    ensures Queued(w.h.store, w.l, id) || id in w.h.store.current ==> w.l.work[id] + Potential(w.h.store, w.l, id) == 4
    ensures id !in w.l.uploaded ==> w.l.work[id] == w.l.handOuts[id] == 0
    ensures Queued(w.h.store, w.l, id) || id in w.h.store.current
        <==> id in w.l.uploaded && id !in w.l.succeeded && id !in w.l.abandoned
    ensures Potential(w.h.store, w.l, id) == 0
        <==> id !in w.l.uploaded || id in w.l.succeeded || id in w.l.abandoned
  {
    hide Inv, CrawlInv;
    Known(w.h.store, w.l, id);
  }

  /** The measure of one uploaded job strictly falls when the step works on it and is
      untouched by every other step. */
  lemma PotentialFalls(w: World, r: Request, id: JobId)
    requires WorldInv(w) && Valid(w, r) && id in w.l.uploaded
    ensures var w', o := Step(w, r), Respond(w, r).1;
      && w.l.retries[id] <= MAX_JOB_RETRIES && w'.l.retries[id] <= MAX_JOB_RETRIES
      && (if IsWork(o) && WorkedOn(o) == id then Potential(w'.h.store, w'.l, id) < Potential(w.h.store, w.l, id)
          else Potential(w'.h.store, w'.l, id) == Potential(w.h.store, w.l, id))
  {
    hide WorldInv, Potential, Respond, Valid, Queued;
    StepInv(w, r);
    StepGrows(w, r);
    PotentialIsKnown(w, id);
    PotentialIsKnown(Step(w, r), id);
    WorkLedger(w.l, Respond(w, r).1, id);
    WorkMeansLive(w, r);
  }

  lemma WorkLedger(l: Ledger, o: H.Outcome, id: JobId)
    ensures var l' := Record(l, o);
      && l'.work[id] == l.work[id] + One(IsWork(o) && WorkedOn(o) == id)
      && (!(IsWork(o) && WorkedOn(o) == id) ==>
            (id in l'.succeeded <==> id in l.succeeded) && (id in l'.abandoned <==> id in l.abandoned))
  {
  }

  lemma WorkMeansLive(w: World, r: Request)
    requires WorldInv(w) && Valid(w, r)
    ensures var o := Respond(w, r).1;
      IsWork(o) ==> Queued(w.h.store, w.l, WorkedOn(o)) || WorkedOn(o) in w.h.store.current
  {
    hide Respond, Valid, CrawlInv, JobInv;
    OutcomeFacts(w, r);
  }

  /** A run has at most four hand-outs, accepted finishes and timeouts for each uploaded job,
      and no job is handed out more than twice. */
  lemma WorkIsBounded(w: World, rs: seq<Request>)
    requires WorldInv(w) && ValidRun(w, rs)
    ensures var l := Run(w, rs).l;
      && |w.l.work| + WorkEvents(w, rs) <= 4 * |l.uploaded|
      && forall id :: l.handOuts[id] <= 2
  {
    hide WorldInv, Run, ValidRun, WorkEvents;
    RunInv(w, rs);
    WorkIsRecorded(w, rs);
    var w' := Run(w, rs);
    forall id: JobId
      ensures w'.l.handOuts[id] <= 2 && w'.l.work[id] <= 4 && (id in w'.l.work ==> id in w'.l.uploaded)
    {
      PotentialIsKnown(w', id);
    }
    BoundedMultiset(w'.l.work, w'.l.uploaded.Keys, 4);
    assert |w'.l.uploaded.Keys| == |w'.l.uploaded|;
  }

  // ----- Bounded overtaking

  const LONGEST_HEAD_START := 0xffff_ffff

  /** A lower upload time less priority goes first, and between equal ones the lower id. */
  predicate GoesFirst(i: H.NewJob, j: H.NewJob) {
    i.time - i.priority < j.time - j.priority
    || (i.time - i.priority == j.time - j.priority && LexLe(i.jobid, j.jobid))
  }

  /** While j waits, only jobs that go first are handed out, and none of them was uploaded more
      than 2^32 - 1 ms after j. */
  lemma HandOutIsAhead(w: World, r: Request, j: JobId)
    requires WorldInv(w) && Valid(w, r) && Queued(w.h.store, w.l, j) && Respond(w, r).1.Spider?
    ensures var i := Respond(w, r).1.job.jobid;
      && i in w.l.uploaded
      && GoesFirst(w.l.uploaded[i], w.l.uploaded[j])
      && w.l.uploaded[i].time <= w.l.uploaded[j].time + LONGEST_HEAD_START
  {
    hide Respond, Valid, CrawlInv, LexLe, JobInv;
    OutcomeFacts(w, r);
  }

  ghost predicate Waits(w: World, rs: seq<Request>, j: JobId)
    requires ValidRun(w, rs)
    decreases |rs|
  {
    Queued(w.h.store, w.l, j) && (rs == [] || Waits(Step(w, rs[0]), rs[1..], j))
  }

  ghost predicate Ahead(l: Ledger, i: JobId, j: JobId) {
    && i in l.uploaded && j in l.uploaded && i != j
    && GoesFirst(l.uploaded[i], l.uploaded[j])
    && l.uploaded[i].time <= l.uploaded[j].time + LONGEST_HEAD_START
  }

  lemma {:induction false} OnlyAheadOvertake(w: World, rs: seq<Request>, j: JobId, i: JobId)
    requires WorldInv(w) && ValidRun(w, rs) && Waits(w, rs, j)
    requires w.l.handOuts[i] < Run(w, rs).l.handOuts[i]
    ensures Ahead(Run(w, rs).l, i, j)
    decreases |rs|
  {
    hide WorldInv, Respond, Valid, GoesFirst;
    if rs != [] {
      var w' := Step(w, rs[0]);
      StepInv(w, rs[0]);
      if w'.l.handOuts[i] < Run(w', rs[1..]).l.handOuts[i] {
        OnlyAheadOvertake(w', rs[1..], j, i);
      } else {
        var o := Respond(w, rs[0]).1;
        assert o.Spider? && o.job.jobid == i;
        HandOutIsAhead(w, rs[0], j);
        HandedOutLeavesQueue(w, rs[0]);
        assert i != j;
        RunGrows(w, rs);
      }
    }
  }

  lemma SpiderIsCurrent(w: World, r: Request)
    requires WorldInv(w) && Valid(w, r) && Respond(w, r).1.Spider?
    ensures Respond(w, r).1.job.jobid in Step(w, r).h.store.current
  {
    hide WorldInv, H.UpdateJob, H.FinishJob, H.CheckTimeout, H.CrawlData, H.UploadLines, FreshIds, IsTop;
    match r
    case GetJob(seconds, now) =>
    case UpdateJob(data, now) => UpdateJobOutcome(w.h, data, now);
    case FinishJob(data) => FinishJobOutcome(w.h, data);
    case CheckTimeout(jobid, now) => CheckTimeoutOutcome(w.h, jobid, now);
    case _ => UploadOutcome(w, r);
  }

  lemma HandedOutLeavesQueue(w: World, r: Request)
    requires WorldInv(w) && Valid(w, r) && Respond(w, r).1.Spider?
    ensures !Queued(Step(w, r).h.store, Step(w, r).l, Respond(w, r).1.job.jobid)
  {
    hide Inv, CrawlInv, Valid, H.GetJob;
    StepInv(w, r);
    var i := Respond(w, r).1.job.jobid;
    Known(Step(w, r).h.store, Step(w, r).l, i);
    OutcomeFacts(w, r);
    assert i in Step(w, r).h.store.current by {
      SpiderIsCurrent(w, r);
    }
  }

  /** So while j waits there are at most two hand-outs for each job ahead of it. */
  lemma OvertakingIsBounded(w: World, rs: seq<Request>, j: JobId)
    requires WorldInv(w) && ValidRun(w, rs) && Waits(w, rs, j)
    ensures var l := Run(w, rs).l;
      |l.handOuts - w.l.handOuts| <= 2 * |set i | i in l.uploaded && Ahead(l, i, j)|
  {
    hide WorldInv, Waits, Run, ValidRun, Ahead;
    RunInv(w, rs);
    var l := Run(w, rs).l;
    var ahead := set i | i in l.uploaded && Ahead(l, i, j);
    var extra := l.handOuts - w.l.handOuts;
    forall i | i in extra ensures i in ahead && extra[i] <= 2 {
      OnlyAheadOvertake(w, rs, j, i);
      PotentialIsKnown(Run(w, rs), i);
      AheadIsUploaded(l, i, j);
    }
    BoundedMultiset(extra, ahead, 2);
  }

  lemma AheadIsUploaded(l: Ledger, i: JobId, j: JobId)
    requires Ahead(l, i, j)
    ensures i in l.uploaded
  {
  }

  // ----- Crawl leases

  ghost predicate CrawlsSpaced(c: CrawlLog, seconds: int) {
    && seconds >= 0
    && (forall t :: t in c.open ==> 0 <= t <= seconds)
    && (forall i, j :: 0 <= i < j < |c.open| ==> c.open[j] - c.open[i] > H.CRAWL_TIMEOUT_SECONDS)
  }

  /** The readings of the seconds clock do not go back. */
  predicate Steady(seconds: int, rs: seq<Request>)
    decreases |rs|
  {
    rs == [] || (seconds <= Seconds(seconds, rs[0]) && Steady(Seconds(seconds, rs[0]), rs[1..]))
  }

  function Seconds(seconds: int, r: Request): int {
    if r.GetJob? then r.seconds else seconds
  }

  lemma CrawlIssued(h: H.Handler, c: CrawlLog, before: int, seconds: int)
    requires h.timeLastCrawl == OpenCrawl(c) && CrawlsSpaced(c, before)
    requires before <= seconds && !H.Crawling(h, seconds)
    ensures CrawlsSpaced(RecordCrawl(c, H.Crawl(h.crawlID, seconds)), seconds)
  {
    var open := c.open + [seconds];
    forall i, j | 0 <= i < j < |open| ensures open[j] - open[i] > H.CRAWL_TIMEOUT_SECONDS {
      if j == |c.open| {
        assert c.open[j - 1] in c.open;
        assert i == j - 1 || c.open[j - 1] - c.open[i] > H.CRAWL_TIMEOUT_SECONDS;
      } else {
        assert c.open[j] - c.open[i] > H.CRAWL_TIMEOUT_SECONDS;
      }
    }
  }

  lemma SpacedStep(w: World, r: Request, seconds: int)
    requires WorldInv(w) && Valid(w, r) && CrawlsSpaced(w.crawls, seconds) && seconds <= Seconds(seconds, r)
    ensures CrawlsSpaced(Step(w, r).crawls, Seconds(seconds, r))
  {
    hide Inv, CrawlsSpaced, HandOut, Record, H.UpdateJob, H.FinishJob, H.CheckTimeout, H.CrawlData, H.UploadLines;
    StillSpaced(w.crawls, seconds, Seconds(seconds, r));
    match r
    case GetJob(s, now) =>
      if Respond(w, r).1.Crawl? {
        CrawlIssued(w.h, w.crawls, seconds, s);
      }
    case UpdateJob(data, now) => UpdateJobOutcome(w.h, data, now);
    case FinishJob(data) => FinishJobOutcome(w.h, data);
    case CheckTimeout(jobid, now) => CheckTimeoutOutcome(w.h, jobid, now);
    case _ => UploadOutcome(w, r);
  }

  lemma StillSpaced(c: CrawlLog, before: int, seconds: int)
    requires CrawlsSpaced(c, before) && before <= seconds
    ensures CrawlsSpaced(c, seconds) && CrawlsSpaced(c.(open := []), seconds)
    ensures forall t :: CrawlsSpaced(c.(accepted := t, open := []), seconds)
  {
  }

  lemma {:induction false} SpacedRun(w: World, rs: seq<Request>, seconds: int) returns (last: int)
    requires WorldInv(w) && ValidRun(w, rs) && CrawlsSpaced(w.crawls, seconds) && Steady(seconds, rs)
    ensures CrawlsSpaced(Run(w, rs).crawls, last)
    decreases |rs|
  {
    hide WorldInv, Step, Valid, CrawlsSpaced;
    last := seconds;
    if rs != [] {
      StepInv(w, rs[0]);
      SpacedStep(w, rs[0], seconds);
      last := SpacedRun(Step(w, rs[0]), rs[1..], Seconds(seconds, rs[0]));
    }
  }

  /** While seconds do not go back, Crawl responses with no accepted crawl upload between them
      are more than 150 seconds apart. */
  lemma CrawlsAreSpaced(w: World, rs: seq<Request>, seconds: int, i: nat, j: nat)
    requires WorldInv(w) && ValidRun(w, rs) && CrawlsSpaced(w.crawls, seconds) && Steady(seconds, rs)
    requires i < j < |Run(w, rs).crawls.open|
    ensures Run(w, rs).crawls.open[j] - Run(w, rs).crawls.open[i] > 150
  {
    hide WorldInv, Run, ValidRun, Steady;
    var last := SpacedRun(w, rs, seconds);
  }

  /** A leader without an open crawl may start such a run. */
  lemma NoCrawlIsSpaced(seconds: nat)
    ensures CrawlsSpaced(NO_CRAWLS, seconds)
  {
  }

  /** From a leader without crawls, over every run. */
  ghost predicate NeverMoreAccepted(t: int) {
    forall w, rs | WorldInv(w) && w.crawls == NO_CRAWLS && ValidRun(w, rs) ::
      var c := Run(w, rs).crawls; c.accepted[t] <= c.issued[t]
  }

  /** Accepted crawl uploads never outnumber the Crawl responses that issued their identifier
      - except for -1, which the leader accepts whenever no crawl is open. */
  lemma AcceptedCrawlsWereIssued(t: int)
    ensures NeverMoreAccepted(t) <==> t != -1
  {
    if t == -1 {
      AcceptsMinusOne();
    } else {
      forall w, rs | WorldInv(w) && w.crawls == NO_CRAWLS && ValidRun(w, rs)
        ensures var c := Run(w, rs).crawls; c.accepted[t] <= c.issued[t]
      {
        hide Run, ValidRun, Inv;
        RunInv(w, rs);
      }
    }
  }

  /** Crawl data has an identifier line that parses and at least one job line. */
  predicate IsCrawlData(lines: seq<string>) {
    && |lines| >= 3
    && var ids := Split(lines[0], FIELD_DELIMITER);
       |ids| >= 2 && SafeStoi(ids[0]).Value? && SafeStoll(ids[1]).Value?
  }

  function ClaimedCrawl(lines: seq<string>): int
    requires IsCrawlData(lines)
  {
    SafeStoll(Split(lines[0], FIELD_DELIMITER)[1]).value
  }

  /** Request by request: well-formed crawl data is accepted if and only if it names the
      identifier of the open crawl, or -1 while none is open. */
  lemma CrawlAcceptedIff(w: World, r: Request)
    requires WorldInv(w) && Valid(w, r) && r.CrawlData?
    ensures var lines := Split(r.data, ENTRY_DELIMITER);
      Respond(w, r).1.CrawlAccepted? <==> IsCrawlData(lines) && ClaimedCrawl(lines) == OpenCrawl(w.crawls)
  {
    hide Inv, Split, ParseNumber, H.UploadLines;
  }

  lemma MinusOneIsAccepted(w: World, r: Request)
    requires Valid(w, r) && r.CrawlData? && w.h.timeLastCrawl == -1
    requires var lines := Split(r.data, ENTRY_DELIMITER);
      |lines| == 3 && var ids := Split(lines[0], FIELD_DELIMITER);
      |ids| == 2 && SafeStoi(ids[0]).Value? && SafeStoll(ids[1]) == Value(-1)
    ensures var w' := Step(w, r); w'.crawls.accepted[-1] > 0 && w'.crawls.issued == w.crawls.issued
  {
    hide Split, ParseNumber, H.UploadLines, Record;
  }

  lemma ClaimMinusOne() returns (data: string)
    ensures var lines := Split(data, ENTRY_DELIMITER);
      |lines| == 3 && Split(lines[0], FIELD_DELIMITER) == [Show(0), Show(-1)]
  {
    hide Split, Join, Show;
    var claim := [Show(0), Show(-1)];
    var lines := [Join(claim, FIELD_DELIMITER), "", "x"];
    JoinAvoids(claim, FIELD_DELIMITER, ENTRY_DELIMITER);
    SplitJoin(lines, ENTRY_DELIMITER);
    SplitJoin(claim, FIELD_DELIMITER);
    data := Join(lines, ENTRY_DELIMITER);
  }

  /** The first request of a fresh leader may be crawl data that claims identifier -1. */
  lemma AcceptsMinusOne()
    ensures !NeverMoreAccepted(-1)
  {
    hide Split, Show, ParseNumber, Respond, Record, RecordCrawl;
    var data := ClaimMinusOne();
    ParseShow(0, -0x8000_0000, 0x7fff_ffff);
    ParseShow(-1, -0x8000_0000_0000_0000, 0x7fff_ffff_ffff_ffff);
    var w, r := Start(0, 0), CrawlData(data, ["a", "b", "c"], [0, 0, 0]);
    assert Valid(w, r);
    MinusOneIsAccepted(w, r);
    StartInv(0, 0);
    assert ValidRun(Step(w, r), []) && [r][1..] == [];
    assert ValidRun(w, [r]) && Run(w, [r]) == Run(Step(w, r), []);
  }
}
