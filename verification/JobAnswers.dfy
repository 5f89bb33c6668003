/** Which answer a request gets and what it leaves behind, in terms of the tables, the open
    crawl and the fields a worker sent. */
module JobAnswers {
  import opened Codec
  import opened JobStore
  import H = JobHandler
  import opened JobLedger
  import opened JobRuns
  import opened JobTheorems

  // ----- Asking for a job

  /** A crawl was ordered at most 150 seconds ago and its data has not come in. */
  predicate IsCrawled(c: CrawlLog, seconds: int) {
    c.open != [] && OpenCrawl(c) != -1 && seconds - OpenCrawl(c) <= 150
  }

  /** With an exact queue size n: a job is handed out if there are 500, or one while a crawl is
      under way; a new crawl is ordered if there are fewer and none is under way; otherwise
      there is nothing to do. */
  lemma AnswerIff(w: World, seconds: int, now: int)
    requires WorldInv(w) && SizeIsExact(w.h.store)
    ensures var (h', o) := Respond(w, GetJob(seconds, now));
      var n, crawled := |w.h.store.queue|, IsCrawled(w.crawls, seconds);
      && (o.Spider? <==> n >= 500 || (n >= 1 && crawled))
      && (o.Crawl? <==> n < 500 && !crawled)
      && (o.NoJob? <==> n == 0 && crawled)
      && (o.Crawl? ==> o.identifier == seconds && OpenCrawl(Step(w, GetJob(seconds, now)).crawls) == seconds)
      && (!o.Crawl? ==> Step(w, GetJob(seconds, now)).crawls == w.crawls)
      && (!o.Spider? ==> h'.store.(timeLastRecount := w.h.store.timeLastRecount) == w.h.store)
  {
    hide Inv, HandOut;
    assert w.h.store.queue == map[] <==> |w.h.store.queue| == 0;
  }

  /** The job handed out is the first of the queue: no other has a lower upload time less
      priority. It leaves the queue and becomes current with the time of the request. */
  lemma HandsOutFirst(w: World, seconds: int, now: int)
    requires WorldInv(w) && Respond(w, GetJob(seconds, now)).1.Spider?
    ensures var o, s, s' := Respond(w, GetJob(seconds, now)).1, w.h.store, Step(w, GetJob(seconds, now)).h.store;
      var job := o.job;
      var key := QueueKey(job.priority, job.jobid);
      && job.jobid in w.l.uploaded
      && key.priority == w.l.uploaded[job.jobid].time - w.l.uploaded[job.jobid].priority
      && key in s.queue && s.queue[key] == QueueRow(job.url, job.retries, job.timeout) && job.time == now
      && (forall k :: k in s.queue ==> key.priority <= k.priority)
      && s'.queue == s.queue - {key} && s'.current == s.current[job.jobid := job] && s'.failed == s.failed
  {
    hide CrawlInv, JobInv, LexLe;
  }

  // ----- Renewing

  function Echo(token: H.Token): string {
    Join([token.jobid, Show(token.time)], '?')
  }

  predicate IsClean(token: H.Token) {
    '?' !in token.jobid && IsInt64(token.time)
  }

  lemma EchoIsParsed(token: H.Token)
    requires IsClean(token)
    ensures H.ParseToken(Echo(token), 2) == (true, token)
  {
    ParseShow(token.time, -0x8000_0000_0000_0000, 0x7fff_ffff_ffff_ffff);
    SplitJoin([token.jobid, Show(token.time)], FIELD_DELIMITER);
  }

  /** A worker that sends back the id and time of its lease has it renewed exactly if the job
      still has that lease, and its time is not the -1 that stands for none; the lease time
      becomes the time of the request, and nothing else changes. */
  lemma RenewedIff(w: World, token: H.Token, now: int)
    requires WorldInv(w) && IsClean(token)
    ensures var r, s := UpdateJob(Echo(token), now), w.h.store;
      var (h', o) := Respond(w, r);
      if IsLeased(s, token) && token.time != -1 then
        && o == H.Renewed(token, now)
        && h' == w.h.(store := s.(current := s.current[token.jobid := s.current[token.jobid].(time := now)]))
      else
        o == H.NotExpected && h' == w.h
  {
    hide Inv, Show, H.ParseToken, Echo;
    EchoIsParsed(token);
    if IsLeased(w.h.store, token) {
      CurrentIsKnown(w.h.store, w.l, token.jobid);
      var s := w.h.store;
      assert (s.current - {token.jobid})[token.jobid := s.current[token.jobid].(time := now)]
          == s.current[token.jobid := s.current[token.jobid].(time := now)];
    }
  }

  // ----- Finishing

  function Report(token: H.Token, reason: int, text: string): string {
    Join([token.jobid, Show(token.time), Show(reason), text], '?')
  }

  predicate IsCleanReport(token: H.Token, reason: int, text: string) {
    IsClean(token) && IsInt32(reason) && '?' !in text
  }

  /** What a failure leaves in the tables: a failed row for the lease with its reason and text,
      and the job in the queue again, under its old key with one retry more, if it is retried. */
  predicate FailureIsRecorded(s: Store, s': Store, id: JobId, reason: int, text: string, retried: bool)
    requires id in s.current
  {
    var job := s.current[id];
    && s'.current == s.current - {id}
    && s'.failed == s.failed[FailedKey(id, job.time) := FailedJob(job, reason, text)]
    && s'.queue == if retried then s.queue[QueueKey(job.priority, id) := QueueRow(job.url, 1, job.timeout)] else s.queue
  }

  lemma ReportIsSplit(token: H.Token, reason: int, text: string)
    requires IsCleanReport(token, reason, text)
    ensures var fields := Split(Report(token, reason, text), FIELD_DELIMITER);
      if text == "" then fields == [token.jobid, Show(token.time), Show(reason)]
      else fields == [token.jobid, Show(token.time), Show(reason), text]
    ensures SafeStoll(Show(token.time)) == Value(token.time) && SafeStoi(Show(reason)) == Value(reason)
  {
    hide Split, ParseNumber, Show;
    ParseShow(token.time, -0x8000_0000_0000_0000, 0x7fff_ffff_ffff_ffff);
    ParseShow(reason, -0x8000_0000, 0x7fff_ffff);
    SplitJoin([token.jobid, Show(token.time), Show(reason), text], FIELD_DELIMITER);
  }

  /** A report without the current lease changes nothing. With it, reason 0 finishes the job;
      any other reason fails it, and it is queued again exactly if it was not retried before and
      the reason is not 10. A report without a text is refused, as its empty last field is lost. */
  lemma FinishIs(w: World, token: H.Token, reason: int, text: string)
    requires WorldInv(w) && IsCleanReport(token, reason, text)
    ensures var r, s, id := FinishJob(Report(token, reason, text)), w.h.store, token.jobid;
      var o, w' := Respond(w, r).1, Step(w, r);
      if text == "" then
        o == H.ClientError && w' == w
      else if !IsLeased(s, token) || token.time == -1 then
        o == H.NotExpected && w' == w
      else if reason == 0 then
        && o == H.Finished(token) && id in w'.l.succeeded && w'.l.retries == w.l.retries
        && w'.h.store == s.(current := s.current - {id})
      else
        var retried := s.current[id].retries == 0 && reason != 10;
        && o == H.Failed(token, retried) && FailureIsRecorded(s, w'.h.store, id, reason, text, retried)
        && w'.l.retries[id] == w.l.retries[id] + One(retried) && (id in w'.l.abandoned <==> !retried)
  {
    hide Split, ParseNumber, Show, Report, JobInv, RowsInv;
    var s := w.h.store;
    var data := Report(token, reason, text);
    ReportIsSplit(token, reason, text);
    if IsLeased(s, token) {
      CurrentIsKnown(s, w.l, token.jobid);
      NotAbandonedYet(w, token.jobid);
    }
    if text != "" {
      assert H.ParseToken(data, 4) == (true, token);
    }
  }

  lemma NotAbandonedYet(w: World, id: JobId)
    requires WorldInv(w) && id in w.h.store.current
    ensures id !in w.l.abandoned && w.h.store.current[id].retries == w.l.retries[id] <= 1
  {
    Known(w.h.store, w.l, id);
  }

  // ----- Timing out

  /** A timeout check ends a lease exactly if more time than the job was uploaded with has gone
      by since the lease began; the job fails for reason 2 and is queued again if it was not
      retried before. */
  lemma TimedOutIff(w: World, id: JobId, now: int)
    requires WorldInv(w)
    ensures var r, s := CheckTimeout(id, now), w.h.store;
      var o, w' := Respond(w, r).1, Step(w, r);
      if id in s.current && id in w.l.uploaded && now - s.current[id].time > w.l.uploaded[id].timeout then
        var retried := s.current[id].retries == 0;
        && o == H.TimedOut(H.Token(id, s.current[id].time), retried)
        && FailureIsRecorded(s, w'.h.store, id, 2, "Timed out at: " + Show(now), retried)
        && w'.l.retries[id] == w.l.retries[id] + One(retried) && (id in w'.l.abandoned <==> !retried)
      else
        o == H.NotExpired && w' == w
  {
    hide JobInv, RowsInv, Show;
    if id in w.h.store.current {
      CurrentIsKnown(w.h.store, w.l, id);
      NotAbandonedYet(w, id);
      PayloadIs(w.h.store, w.l, id);
    }
  }

  lemma PayloadIs(s: Store, l: Ledger, id: JobId)
    requires Inv(s, l)
    ensures id in s.current ==> id in l.uploaded && IsPayload(l.uploaded[id], s.current[id].url, s.current[id].timeout)
  {
    Known(s, l, id);
  }

  // ----- The crawl to continue from

  /** The crawl id on the first line of crawl data. */
  function NamedCrawl(data: string): int {
    var lines := Split(data, ENTRY_DELIMITER);
    if lines == [] then 0
    else
      var ids := Split(lines[0], FIELD_DELIMITER);
      if ids != [] && SafeStoi(ids[0]).Value? then SafeStoi(ids[0]).value else 0
  }

  /** The crawl id of the last crawl upload that a run accepts, or else the one it starts with. */
  ghost function LastNamed(w: World, rs: seq<Request>, start: int): int
    requires ValidRun(w, rs)
    decreases |rs|
  {
    if rs == [] then start
    else
      var accepted := rs[0].CrawlData? && Respond(w, rs[0]).1.CrawlAccepted?;
      LastNamed(Step(w, rs[0]), rs[1..], if accepted then NamedCrawl(rs[0].data) else start)
  }

  lemma CrawlIDStep(w: World, r: Request)
    requires Valid(w, r)
    ensures var named := if r.CrawlData? && Respond(w, r).1.CrawlAccepted? then NamedCrawl(r.data) else w.h.crawlID;
      && Step(w, r).h.crawlID == named
      && (w.h.savedCrawlID == w.h.crawlID ==> Step(w, r).h.savedCrawlID == named)
  {
    hide Split, ParseNumber, H.ParseToken, H.UploadAll, H.AllParse, H.NewJobs, HandOut, Fail, TimeoutCheck;
  }

  /** Over every run the leader's crawl id, in memory and in the store, is that of the last
      crawl upload it accepted. */
  lemma {:induction false} CrawlIDIsLastNamed(w: World, rs: seq<Request>)
    requires ValidRun(w, rs) && w.h.savedCrawlID == w.h.crawlID
    ensures var h := Run(w, rs).h; h.crawlID == h.savedCrawlID == LastNamed(w, rs, w.h.crawlID)
    decreases |rs|
  {
    hide Step, Respond, Valid, NamedCrawl;
    if rs != [] {
      CrawlIDStep(w, rs[0]);
      CrawlIDIsLastNamed(Step(w, rs[0]), rs[1..]);
    }
  }

  /** Whoever is told to crawl continues from there. */
  lemma CrawlNamesLast(w: World, rs: seq<Request>, seconds: int, now: int)
    requires ValidRun(w, rs) && w.h.savedCrawlID == w.h.crawlID
    ensures var o := Respond(Run(w, rs), GetJob(seconds, now)).1;
      o.Crawl? ==> o.crawlID == LastNamed(w, rs, w.h.crawlID) && o.identifier == seconds
  {
    hide Run, ValidRun, LastNamed, HandOut;
    CrawlIDIsLastNamed(w, rs);
  }
}
