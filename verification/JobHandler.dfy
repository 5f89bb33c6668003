/** The request handlers of the leader's job distribution: hand-out or crawl, renewal,
    finish, upload and crawl data, each as one atomic step. */
module JobHandler {
  import opened Codec
  import opened JobStore

  const MIN_AMOUNT_JOBS := 500
  const CRAWL_TIMEOUT_SECONDS := 150
  const NO_RETRY_REASONS := {10}

  datatype Handler = Handler(store: Store, timeLastCrawl: int, crawlID: int, savedCrawlID: int)

  /** What a worker holds: the job and the time of its lease. */
  datatype Token = Token(jobid: JobId, time: int)

  /** A job as uploaded: its id, the time of the upload and what its line says. */
  datatype NewJob = NewJob(jobid: JobId, time: int, priority: int, timeout: int, url: string)

  datatype Outcome =
    | Spider(job: Job)
    | Crawl(crawlID: int, identifier: int)
    | NoJob
    | EmptyQueueRead
    | Renewed(token: Token, newTime: int)
    | Finished(token: Token)
    | Failed(token: Token, retried: bool)
    | TimedOut(token: Token, retried: bool)
    | NotExpired
    | NotExpected
    | ClientError
    | Uploaded(jobs: seq<NewJob>)
    | CrawlAccepted(identifier: int, jobs: seq<NewJob>)
    | CrawlDeprecated

  // ----- Handing out

  predicate Crawling(h: Handler, seconds: int) {
    h.timeLastCrawl != -1 && seconds - h.timeLastCrawl <= CRAWL_TIMEOUT_SECONDS
  }

  /** EmptyQueueRead stands for reading the first row of an empty result. */
  ghost function GetJob(h: Handler, seconds: int, now: int): (Handler, Outcome) {
    var store := Recount(h.store, seconds);
    var count := store.numberOfJobs;
    if count >= MIN_AMOUNT_JOBS || (Crawling(h, seconds) && count >= 1) then
      if store.queue == map[] then (h.(store := store), EmptyQueueRead)
      else
        var (store', job) := HandOut(store, now);
        (h.(store := store'), Spider(job))
    else if !Crawling(h, seconds) then
      (h.(store := store, timeLastCrawl := seconds), Crawl(h.crawlID, seconds))
    else
      (h.(store := store), NoJob)
  }

  // ----- Lease tokens

  /** The job id and lease time at the front of an update or finish request. */
  function ParseToken(data: string, arguments: nat): (t: (bool, Token)) {
    var fields := Split(data, FIELD_DELIMITER);
    if |fields| < 2 || |fields| < arguments then (false, Token("", 0))
    else match SafeStoll(fields[1])
      case Value(time) => (true, Token(fields[0], time))
      case _ => (false, Token("", 0))
  }

  predicate Live(s: Store, token: Token) {
    CurrentTime(s, token.jobid) != -1 && CurrentTime(s, token.jobid) == token.time
  }

  function UpdateJob(h: Handler, data: string, now: int): (Handler, Outcome) {
    var (ok, token) := ParseToken(data, 2);
    if !ok then (h, ClientError)
    else if !Live(h.store, token) then (h, NotExpected)
    else
      var job := h.store.current[token.jobid];
      var s := RemoveCurrent(h.store, token.jobid);
      (h.(store := s.(current := s.current[job.jobid := job.(time := now)])), Renewed(token, now))
  }

  function FinishJob(h: Handler, data: string): (Handler, Outcome) {
    var (ok, token) := ParseToken(data, 4);
    if !ok then (h, ClientError)
    else
      var fields := Split(data, FIELD_DELIMITER);
      match SafeStoi(fields[2])
      case OutOfRange => (h, ClientError)
      case NotANumber => (h, ClientError)
      case Value(reasonID) =>
        if !Live(h.store, token) then (h, NotExpected)
        else
          var job := h.store.current[token.jobid];
          if reasonID == 0 then (h.(store := RemoveCurrent(h.store, token.jobid)), Finished(token))
          else
            var mayRetry := reasonID !in NO_RETRY_REASONS;
            (h.(store := Fail(h.store, job, reasonID, fields[3], mayRetry)),
             Failed(token, job.retries < MAX_JOB_RETRIES && mayRetry))
  }

  // ----- Uploading

  /** One line url?priority?timeout; no value when it is malformed. */
  function ParseUpload(line: string): (bool, Job) {
    var none := Job("", 0, 0, 0, "", 0);
    var fields := Split(line, FIELD_DELIMITER);
    if |fields| < 3 then (false, none)
    else match (SafeStoi(fields[1]), SafeStoll(fields[2]))
      case (Value(priority), Value(timeout)) => (true, Job("", 0, timeout, priority, fields[0], 0))
      case _ => (false, none)
  }

  predicate AllParse(lines: seq<string>) {
    forall line :: line in lines ==> ParseUpload(line).0
  }

  function UploadAll(s: Store, lines: seq<string>, ids: seq<JobId>, times: seq<int>): Store
    requires |lines| <= |ids| && |lines| <= |times|
  {
    if lines == [] then s
    else
      var n := |lines| - 1;
      UploadNew(UploadAll(s, lines[..n], ids, times), ParseUpload(lines[n]).1, ids[n], times[n])
  }

  function NewJobs(lines: seq<string>, ids: seq<JobId>, times: seq<int>): (jobs: seq<NewJob>)
    requires |lines| <= |ids| && |lines| <= |times|
    ensures |jobs| == |lines|
    ensures forall i :: 0 <= i < |jobs| ==> jobs[i] == AsNewJob(lines[i], ids[i], times[i])
  {
    seq(|lines|, i requires 0 <= i < |lines| => AsNewJob(lines[i], ids[i], times[i]))
  }

  function AsNewJob(line: string, id: JobId, time: int): NewJob {
    var job := ParseUpload(line).1;
    NewJob(id, time, job.priority, job.timeout, job.url)
  }

  /** Nothing is uploaded unless every line parses; the clock is read for each line. */
  function UploadLines(h: Handler, lines: seq<string>, ids: seq<JobId>, times: seq<int>): (Handler, Outcome)
    requires |lines| <= |ids| && |lines| <= |times|
  {
    if AllParse(lines) then
      (h.(store := UploadAll(h.store, lines, ids, times)), Uploaded(NewJobs(lines, ids, times)))
    else (h, ClientError)
  }

  function SetCrawlID(h: Handler, id: int): Handler {
    if h.crawlID != id then h.(timeLastCrawl := -1, crawlID := id, savedCrawlID := id) else h.(timeLastCrawl := -1)
  }

  /** Crawl data counts as accepted once its identifier matches, even when the jobs in it
      are then refused. */
  function CrawlData(h: Handler, data: string, ids: seq<JobId>, times: seq<int>): (Handler, Outcome)
    requires |Split(data, ENTRY_DELIMITER)| <= |ids| && |Split(data, ENTRY_DELIMITER)| <= |times|
  {
    var lines := Split(data, ENTRY_DELIMITER);
    if |lines| < 3 then (h, ClientError)
    else
      var identifiers := Split(lines[0], FIELD_DELIMITER);
      if |identifiers| < 2 then (h, ClientError)
      else match SafeStoll(identifiers[1])
        case OutOfRange => (h, ClientError)
        case NotANumber => (h, ClientError)
        case Value(identifier) =>
          if identifier != h.timeLastCrawl then (h, CrawlDeprecated)
          else match SafeStoi(identifiers[0])
            case OutOfRange => (h, ClientError)
            case NotANumber => (h, ClientError)
            case Value(id) =>
              var (h', outcome) := UploadLines(SetCrawlID(h, id), lines[2..], ids, times);
              (h', CrawlAccepted(identifier, if outcome.Uploaded? then outcome.jobs else []))
  }

  /** The timeout check of one current job. */
  function CheckTimeout(h: Handler, jobid: JobId, now: int): (Handler, Outcome) {
    if jobid !in h.store.current then (h, NotExpired)
    else
      var job := h.store.current[jobid];
      (h.(store := TimeoutCheck(h.store, job, now)),
       if Expired(job, now) then TimedOut(Token(jobid, job.time), job.retries < MAX_JOB_RETRIES) else NotExpired)
  }

  // ----- The handler class

  class JobRequestHandler {
    const database: DatabaseConnection
    var timeLastCrawl: int
    var crawlID: int
    var savedCrawlID: int

    function State(): Handler
      reads this, database
    {
      Handler(database.State(), timeLastCrawl, crawlID, savedCrawlID)
    }

    /** Counts the queue at once, so the cached size starts exact. */
    constructor (database: DatabaseConnection, savedCrawlID: int, seconds: int)
      requires seconds - database.timeLastRecount > RECOUNT_WAIT_TIME
      modifies database
      ensures this.database == database
      ensures State() == Handler(Recount(old(database.State()), seconds), -1, savedCrawlID, savedCrawlID)
    {
      this.database := database;
      timeLastCrawl := -1;
      crawlID, this.savedCrawlID := savedCrawlID, savedCrawlID;
      new;
      var count := database.GetNumberOfJobs(seconds);
    }

    method HandleGetJobRequest(seconds: int, now: int) returns (outcome: Outcome)
      modifies this, database
      ensures (State(), outcome) == GetJob(old(State()), seconds, now)
    {
      var alreadyCrawling := true;
      if timeLastCrawl == -1 || seconds - timeLastCrawl > CRAWL_TIMEOUT_SECONDS {
        alreadyCrawling := false;
      }
      var count := database.GetNumberOfJobs(seconds);
      if count < MIN_AMOUNT_JOBS && alreadyCrawling {
        count := database.GetNumberOfJobs(seconds);
      }
      if count >= MIN_AMOUNT_JOBS || (alreadyCrawling && count >= 1) {
        if database.queue == map[] {
          return EmptyQueueRead;
        }
        var job := database.GetTopJob(now);
        return Spider(job);
      } else if !alreadyCrawling {
        timeLastCrawl := seconds;
        return Crawl(crawlID, timeLastCrawl);
      } else {
        return NoJob;
      }
    }

    method HandleUpdateJobRequest(data: string, now: int) returns (outcome: Outcome)
      requires forall id :: id in database.current ==> database.current[id].jobid == id
      modifies this, database
      ensures (State(), outcome) == UpdateJob(old(State()), data, now)
    {
      var splitted := SplitStringOn(data, FIELD_DELIMITER);
      if |splitted| < 2 {
        return ClientError;
      }
      var jobid, parsed := splitted[0], SafeStoll(splitted[1]);
      if !parsed.Value? {
        return ClientError;
      }
      var jobTime := parsed.value;
      var time := database.GetCurrentJobTime(jobid);
      if time == -1 {
        return NotExpected;
      }
      if jobTime < time {
        return NotExpected;
      } else if jobTime > time {
        return NotExpected;
      }
      var job := database.GetCurrentJob(jobid);
      var newTime := database.AddCurrentJob(job, now);
      return Renewed(Token(jobid, jobTime), newTime);
    }

    method HandleFinishJobRequest(data: string) returns (outcome: Outcome)
      requires forall id :: id in database.current ==> database.current[id].jobid == id
      modifies this, database
      ensures (State(), outcome) == FinishJob(old(State()), data)
    {
      var splitted := SplitStringOn(data, FIELD_DELIMITER);
      if |splitted| < 4 {
        return ClientError;
      }
      var jobid, parsed := splitted[0], SafeStoll(splitted[1]);
      if !parsed.Value? {
        return ClientError;
      }
      var jobTime := parsed.value;
      var reason := SafeStoi(splitted[2]);
      if !reason.Value? {
        return ClientError;
      }
      var reasonID, reasonData := reason.value, splitted[3];
      var time := database.GetCurrentJobTime(jobid);
      if time == -1 {
        return NotExpected;
      }
      if jobTime < time {
        return NotExpected;
      } else if jobTime > time {
        return NotExpected;
      }
      var job := database.GetCurrentJob(jobid);
      if reasonID != 0 {
        database.AddFailedJob(job, reasonID, reasonData);
        var retried := job.retries < MAX_JOB_RETRIES && reasonID !in NO_RETRY_REASONS;
        if retried {
          database.UploadJob(job.(retries := job.retries + 1), false, "", 0);
        }
        return Failed(Token(jobid, jobTime), retried);
      } else {
        return Finished(Token(jobid, jobTime));
      }
    }

    /** Parses every line before the first upload. */
    method HandleUploadLines(data: seq<string>, ids: seq<JobId>, times: seq<int>) returns (outcome: Outcome)
      requires |data| <= |ids| && |data| <= |times|
      modifies this, database
      ensures (State(), outcome) == UploadLines(old(State()), data, ids, times)
    {
      hide Split, ParseNumber, UploadNew;
      var jobs: seq<Job> := [];
      for i := 0 to |data|
        invariant |jobs| == i && State() == old(State())
        invariant forall k :: 0 <= k < i ==> ParseUpload(data[k]) == (true, jobs[k])
      {
        var fields := SplitStringOn(data[i], FIELD_DELIMITER);
        if |fields| < 3 {
          assert !ParseUpload(data[i]).0;
          return ClientError;
        }
        var priority := SafeStoi(fields[1]);
        if !priority.Value? {
          assert !ParseUpload(data[i]).0;
          return ClientError;
        }
        var timeout := SafeStoll(fields[2]);
        if !timeout.Value? {
          assert !ParseUpload(data[i]).0;
          return ClientError;
        }
        jobs := jobs + [Job("", 0, timeout.value, priority.value, fields[0], 0)];
      }
      for i := 0 to |jobs|
        invariant State() == old(State()).(store := UploadAll(old(database.State()), data[..i], ids, times))
      {
        assert data[..i + 1][..i] == data[..i];
        database.UploadJob(jobs[i], true, ids[i], times[i]);
      }
      assert data[..|data|] == data;
      return Uploaded(NewJobs(data, ids, times));
    }

    method HandleUploadJobRequest(data: string, ids: seq<JobId>, times: seq<int>) returns (outcome: Outcome)
      requires |Split(data, ENTRY_DELIMITER)| <= |ids| && |Split(data, ENTRY_DELIMITER)| <= |times|
      modifies this, database
      ensures (State(), outcome) == UploadLines(old(State()), Split(data, ENTRY_DELIMITER), ids, times)
    {
      var lines := SplitStringOn(data, ENTRY_DELIMITER);
      outcome := HandleUploadLines(lines, ids, times);
    }

    method UpdateCrawlID(id: int)
      modifies this
      ensures State() == SetCrawlID(old(State()), id)
    {
      timeLastCrawl := -1;
      if crawlID != id {
        crawlID := id;
        savedCrawlID := id;
      }
    }

    method HandleCrawlDataRequest(data: string, ids: seq<JobId>, times: seq<int>) returns (outcome: Outcome)
      requires |Split(data, ENTRY_DELIMITER)| <= |ids| && |Split(data, ENTRY_DELIMITER)| <= |times|
      modifies this, database
      ensures (State(), outcome) == CrawlData(old(State()), data, ids, times)
    {
      var lines := SplitStringOn(data, ENTRY_DELIMITER);
      if |lines| < 3 {
        return ClientError;
      }
      var identifiers := SplitStringOn(lines[0], FIELD_DELIMITER);
      if |identifiers| < 2 {
        return ClientError;
      }
      var jobID := SafeStoll(identifiers[1]);
      if !jobID.Value? {
        return ClientError;
      }
      if jobID.value != timeLastCrawl {
        return CrawlDeprecated;
      }
      var id := SafeStoi(identifiers[0]);
      if !id.Value? {
        return ClientError;
      }
      UpdateCrawlID(id.value);
      outcome := HandleUploadLines(lines[2..], ids, times);
      outcome := CrawlAccepted(jobID.value, if outcome.Uploaded? then outcome.jobs else []);
    }
  }
}
