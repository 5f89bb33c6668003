/** The history of a run as its outcomes tell it, and the invariant that ties the job tables
    to that history, whatever the clock does. */
module JobLedger {
  import Codec
  import opened JobStore
  import opened JobHandler

  datatype Ledger = Ledger(
    uploaded: map<JobId, NewJob>,
    retries: multiset<JobId>,
    succeeded: set<JobId>,
    abandoned: set<JobId>,
    issued: set<Token>,
    consumed: multiset<Token>,
    handOuts: multiset<JobId>,
    // hand-outs, accepted finishes and timeouts
    work: multiset<JobId>)

  const EMPTY := Ledger(map[], multiset{}, {}, {}, {}, multiset{}, multiset{}, multiset{})

  function AddJobs(uploaded: map<JobId, NewJob>, jobs: seq<NewJob>): map<JobId, NewJob> {
    if jobs == [] then uploaded
    else
      var n := |jobs| - 1;
      AddJobs(uploaded, jobs[..n])[jobs[n].jobid := jobs[n]]
  }

  function Upload(l: Ledger, jobs: seq<NewJob>): Ledger {
    l.(uploaded := AddJobs(l.uploaded, jobs))
  }

  function Issue(l: Ledger, token: Token): Ledger {
    l.(issued := l.issued + {token})
  }

  function Consume(l: Ledger, token: Token): Ledger {
    l.(consumed := l.consumed + multiset{token})
  }

  function Work(l: Ledger, jobid: JobId): Ledger {
    l.(work := l.work + multiset{jobid})
  }

  function RecordFailure(l: Ledger, token: Token, retried: bool): Ledger {
    var l' := Work(Consume(l, token), token.jobid);
    if retried then l'.(retries := l.retries + multiset{token.jobid})
    else l'.(abandoned := l.abandoned + {token.jobid})
  }

  function RecordHandOut(l: Ledger, token: Token): Ledger {
    Work(Issue(l, token), token.jobid).(handOuts := l.handOuts + multiset{token.jobid})
  }

  function RecordFinish(l: Ledger, token: Token): Ledger {
    Work(Consume(l, token), token.jobid).(succeeded := l.succeeded + {token.jobid})
  }

  function Record(l: Ledger, outcome: Outcome): Ledger {
    match outcome
    case Spider(job) => RecordHandOut(l, Token(job.jobid, job.time))
    case Renewed(token, newTime) => Issue(Consume(l, token), Token(token.jobid, newTime))
    case Finished(token) => RecordFinish(l, token)
    case Failed(token, retried) => RecordFailure(l, token, retried)
    case TimedOut(token, retried) => RecordFailure(l, token, retried)
    case Uploaded(jobs) => Upload(l, jobs)
    case CrawlAccepted(_, jobs) => Upload(l, jobs)
    case _ => l
  }

  // ----- Where a job is

  /** Upload time less priority: the key a job keeps for its whole life. */
  function KeyOf(job: NewJob): QueueKey {
    QueueKey(job.time - job.priority, job.jobid)
  }

  predicate Queued(s: Store, l: Ledger, id: JobId) {
    id in l.uploaded && KeyOf(l.uploaded[id]) in s.queue
  }

  function One(b: bool): nat {
    if b then 1 else 0
  }

  /** The full account of one job id. */
  ghost predicate JobInv(s: Store, l: Ledger, id: JobId) {
    var q, c := Queued(s, l, id), id in s.current;
    var done, lost := id in l.succeeded, id in l.abandoned;
    var r := l.retries[id];
    && One(id !in l.uploaded) + One(q) + One(c) + One(done) + One(lost) == 1
    && r <= MAX_JOB_RETRIES
    && (id !in l.uploaded ==> r == l.handOuts[id] == l.work[id] == 0)
    && (q ==> s.queue[KeyOf(l.uploaded[id])].retries == r && l.handOuts[id] == r && l.work[id] == 2 * r)
    && (c ==> s.current[id].retries == r && l.handOuts[id] == r + 1 && l.work[id] == 2 * r + 1)
    && (done || lost ==> l.handOuts[id] == r + 1 && l.work[id] == 2 * r + 2)
  }

  predicate IsPayload(job: NewJob, url: string, timeout: int) {
    job.url == url && job.timeout == timeout
  }

  /** Rows carry the key, url and timeout their job was uploaded with. */
  ghost predicate RowsInv(s: Store, l: Ledger) {
    && (forall k :: k in s.queue ==> k.jobid in l.uploaded && k == KeyOf(l.uploaded[k.jobid]))
    && (forall id :: id in s.current ==> s.current[id].jobid == id)
    && (forall id :: id in s.current && id in l.uploaded ==> s.current[id].priority == KeyOf(l.uploaded[id]).priority)
    && (forall k :: k in s.queue && k.jobid in l.uploaded ==>
          IsPayload(l.uploaded[k.jobid], s.queue[k].url, s.queue[k].timeout))
    && (forall id :: id in s.current && id in l.uploaded ==>
          IsPayload(l.uploaded[id], s.current[id].url, s.current[id].timeout))
    && (forall id :: id in l.uploaded ==> l.uploaded[id].jobid == id)
    && (forall id :: id in l.uploaded ==> Codec.IsInt32(l.uploaded[id].priority))
  }

  ghost predicate Inv(s: Store, l: Ledger) {
    RowsInv(s, l) && forall id: JobId :: JobInv(s, l, id)
  }

  ghost predicate SizeIsExact(s: Store) {
    s.numberOfJobs == |s.queue|
  }

  lemma Known(s: Store, l: Ledger, id: JobId)
    requires Inv(s, l)
    ensures JobInv(s, l, id)
    ensures id in l.uploaded ==> KeyOf(l.uploaded[id]).jobid == id
  {
  }

  /** A current job was uploaded and is not in the queue. */
  lemma CurrentIsKnown(s: Store, l: Ledger, id: JobId)
    requires Inv(s, l) && id in s.current
    ensures var job := s.current[id];
      && id in l.uploaded && job.jobid == id && job.retries <= MAX_JOB_RETRIES
      && KeyOf(l.uploaded[id]) == QueueKey(job.priority, id) && QueueKey(job.priority, id) !in s.queue
  {
    Known(s, l, id);
  }

  /** An id never uploaded is nowhere. */
  lemma UnknownIsNowhere(s: Store, l: Ledger, id: JobId)
    requires Inv(s, l) && id !in l.uploaded
    ensures id !in s.current && forall k :: k in s.queue ==> k.jobid != id
  {
    Known(s, l, id);
  }

  /** A queued job is not current. */
  lemma QueuedIsWaiting(s: Store, l: Ledger, key: QueueKey)
    requires Inv(s, l) && key in s.queue
    ensures key.jobid in l.uploaded && KeyOf(l.uploaded[key.jobid]) == key && key.jobid !in s.current
  {
    Known(s, l, key.jobid);
  }

  // ----- Each store transition keeps the invariant

  lemma LeaseRows(s: Store, l: Ledger, key: QueueKey, now: int)
    requires RowsInv(s, l) && key in s.queue && key.jobid !in s.current
    ensures var (s', job) := Lease(s, key, now); RowsInv(s', RecordHandOut(l, Token(job.jobid, job.time)))
  {
  }

  lemma LeaseJob(s: Store, l: Ledger, key: QueueKey, now: int, id: JobId)
    requires Inv(s, l) && key in s.queue
    ensures var (s', job) := Lease(s, key, now);
      JobInv(s', RecordHandOut(l, Token(job.jobid, job.time)), id)
  {
    hide Inv, RowsInv;
    QueuedIsWaiting(s, l, key);
    Known(s, l, id);
  }

  lemma HandOutInv(s: Store, l: Ledger, now: int)
    requires Inv(s, l) && s.queue != map[]
    ensures var (s', job) := HandOut(s, now);
      Inv(s', RecordHandOut(l, Token(job.jobid, job.time))) && (SizeIsExact(s) ==> SizeIsExact(s'))
  {
    hide JobInv, RowsInv, IsTop, RecordHandOut;
    var key := TopKey(s.queue.Keys);
    InTop(s.queue.Keys, key);
    var (s', job) := HandOut(s, now);
    QueuedIsWaiting(s, l, key);
    LeaseRows(s, l, key, now);
    forall id: JobId ensures JobInv(s', RecordHandOut(l, Token(job.jobid, job.time)), id) {
      LeaseJob(s, l, key, now, id);
    }
    assert s'.queue.Keys == s.queue.Keys - {key};
  }

  lemma InTop(keys: set<QueueKey>, k: QueueKey)
    requires IsTop(keys, k)
    ensures k in keys
  {
  }

  function Renew(s: Store, id: JobId, now: int): Store
    requires id in s.current
  {
    var job := s.current[id];
    s.(current := (s.current - {id})[job.jobid := job.(time := now)])
  }

  function RecordRenewal(l: Ledger, token: Token, newTime: int): Ledger {
    Issue(Consume(l, token), Token(token.jobid, newTime))
  }

  lemma RenewJob(s: Store, l: Ledger, id: JobId, now: int, i: JobId)
    requires Inv(s, l) && id in s.current
    ensures JobInv(Renew(s, id, now), RecordRenewal(l, Token(id, s.current[id].time), now), i)
  {
    hide Inv, RowsInv;
    CurrentIsKnown(s, l, id);
    Known(s, l, i);
  }

  lemma RenewRows(s: Store, l: Ledger, id: JobId, now: int)
    requires RowsInv(s, l) && id in s.current
    ensures RowsInv(Renew(s, id, now), RecordRenewal(l, Token(id, s.current[id].time), now))
  {
  }

  lemma RenewInv(s: Store, l: Ledger, id: JobId, now: int)
    requires Inv(s, l) && id in s.current
    ensures Inv(Renew(s, id, now), RecordRenewal(l, Token(id, s.current[id].time), now))
  {
    hide JobInv, RowsInv, Renew, RecordRenewal;
    RenewRows(s, l, id, now);
    forall i: JobId ensures JobInv(Renew(s, id, now), RecordRenewal(l, Token(id, s.current[id].time), now), i) {
      RenewJob(s, l, id, now, i);
    }
  }

  lemma FinishedJob(s: Store, l: Ledger, id: JobId, i: JobId)
    requires Inv(s, l) && id in s.current
    ensures JobInv(RemoveCurrent(s, id), RecordFinish(l, Token(id, s.current[id].time)), i)
  {
    hide Inv, RowsInv;
    Known(s, l, id);
    Known(s, l, i);
  }

  lemma FinishInv(s: Store, l: Ledger, id: JobId)
    requires Inv(s, l) && id in s.current
    ensures Inv(RemoveCurrent(s, id), RecordFinish(l, Token(id, s.current[id].time)))
  {
    hide JobInv;
    forall i: JobId ensures JobInv(RemoveCurrent(s, id), RecordFinish(l, Token(id, s.current[id].time)), i) {
      FinishedJob(s, l, id, i);
    }
  }

  lemma FailRows(s: Store, l: Ledger, id: JobId, reasonID: int, reasonData: string, mayRetry: bool)
    requires RowsInv(s, l) && id in s.current && id in l.uploaded
    ensures var job := s.current[id];
      RowsInv(Fail(s, job, reasonID, reasonData, mayRetry),
              RecordFailure(l, Token(id, job.time), job.retries < MAX_JOB_RETRIES && mayRetry))
  {
  }

  lemma FailJob(s: Store, l: Ledger, id: JobId, reasonID: int, reasonData: string, mayRetry: bool, i: JobId)
    requires Inv(s, l) && id in s.current
    ensures var job := s.current[id];
      var s' := Fail(s, job, reasonID, reasonData, mayRetry);
      JobInv(s', RecordFailure(l, Token(id, job.time), job.retries < MAX_JOB_RETRIES && mayRetry), i)
  {
    hide Inv, RowsInv;
    CurrentIsKnown(s, l, id);
    Known(s, l, id);
    Known(s, l, i);
  }

  lemma FailedSize(s: Store, job: Job, reasonID: int, reasonData: string, mayRetry: bool)
    requires QueueKey(job.priority, job.jobid) !in s.queue
    ensures SizeIsExact(s) ==> SizeIsExact(Fail(s, job, reasonID, reasonData, mayRetry))
  {
    var s' := Fail(s, job, reasonID, reasonData, mayRetry);
    assert s'.queue.Keys == s.queue.Keys || s'.queue.Keys == s.queue.Keys + {QueueKey(job.priority, job.jobid)};
  }

  lemma FailInv(s: Store, l: Ledger, id: JobId, reasonID: int, reasonData: string, mayRetry: bool)
    requires Inv(s, l) && id in s.current
    ensures var job := s.current[id];
      var s' := Fail(s, job, reasonID, reasonData, mayRetry);
      && Inv(s', RecordFailure(l, Token(id, job.time), job.retries < MAX_JOB_RETRIES && mayRetry))
      && (SizeIsExact(s) ==> SizeIsExact(s'))
  {
    hide JobInv, RowsInv, RecordFailure, Fail, KeyOf;
    CurrentIsKnown(s, l, id);
    FailedSize(s, s.current[id], reasonID, reasonData, mayRetry);
    FailRows(s, l, id, reasonID, reasonData, mayRetry);
    var job := s.current[id];
    var s' := Fail(s, job, reasonID, reasonData, mayRetry);
    var l' := RecordFailure(l, Token(id, job.time), job.retries < MAX_JOB_RETRIES && mayRetry);
    forall i: JobId ensures JobInv(s', l', i) {
      FailJob(s, l, id, reasonID, reasonData, mayRetry, i);
    }
  }

  function AddJob(l: Ledger, job: NewJob): Ledger {
    l.(uploaded := l.uploaded[job.jobid := job])
  }

  lemma UploadRows(s: Store, l: Ledger, job: Job, id: JobId, now: int)
    requires RowsInv(s, l) && id !in s.current && (forall k :: k in s.queue ==> k.jobid != id)
    requires Codec.IsInt32(job.priority)
    ensures RowsInv(UploadNew(s, job, id, now), AddJob(l, NewJob(id, now, job.priority, job.timeout, job.url)))
  {
  }

  lemma UploadJob(s: Store, l: Ledger, job: Job, id: JobId, now: int, i: JobId)
    requires Inv(s, l) && id !in l.uploaded && job.retries == 0
    ensures JobInv(UploadNew(s, job, id, now), AddJob(l, NewJob(id, now, job.priority, job.timeout, job.url)), i)
  {
    hide Inv, RowsInv;
    UnknownIsNowhere(s, l, id);
    Known(s, l, i);
  }

  lemma UploadedSize(s: Store, job: Job, id: JobId, now: int)
    requires forall k :: k in s.queue ==> k.jobid != id
    ensures SizeIsExact(s) ==> SizeIsExact(UploadNew(s, job, id, now))
  {
    var key := QueueKey(now - job.priority, id);
    assert key !in s.queue;
    assert UploadNew(s, job, id, now).queue.Keys == s.queue.Keys + {key};
  }

  lemma UploadInv(s: Store, l: Ledger, job: Job, id: JobId, now: int)
    requires Inv(s, l) && id !in l.uploaded
    requires job.retries == 0 && Codec.IsInt32(job.priority)
    ensures var s', l' := UploadNew(s, job, id, now), AddJob(l, NewJob(id, now, job.priority, job.timeout, job.url));
      Inv(s', l') && (SizeIsExact(s) ==> SizeIsExact(s'))
  {
    hide JobInv, RowsInv, AddJob, UploadNew;
    UnknownIsNowhere(s, l, id);
    UploadedSize(s, job, id, now);
    UploadRows(s, l, job, id, now);
    var s', l' := UploadNew(s, job, id, now), AddJob(l, NewJob(id, now, job.priority, job.timeout, job.url));
    forall i: JobId ensures JobInv(s', l', i) {
      UploadJob(s, l, job, id, now, i);
    }
  }

  ghost predicate Fresh(l: Ledger, ids: seq<JobId>) {
    && (forall i :: 0 <= i < |ids| ==> ids[i] !in l.uploaded)
    && (forall i, j :: 0 <= i < j < |ids| ==> ids[i] != ids[j])
  }

  lemma {:induction false} UploadAllInv(s: Store, l: Ledger, lines: seq<string>, ids: seq<JobId>, times: seq<int>)
    requires Inv(s, l) && AllParse(lines) && |lines| <= |ids| && Fresh(l, ids) && |lines| <= |times|
    ensures var s', l' := UploadAll(s, lines, ids, times), Upload(l, NewJobs(lines, ids, times));
      && Inv(s', l')
      && l'.uploaded.Keys == l.uploaded.Keys + (set i | 0 <= i < |lines| :: ids[i])
      && (SizeIsExact(s) ==> SizeIsExact(s'))
  {
    hide Inv, UploadNew, ParseUpload, SizeIsExact, AllParse, NewJobs, Upload;
    if lines == [] {
      NothingNew(l, ids, times);
    } else {
      var n := |lines| - 1;
      LineParses(lines, n);
      UploadAllInv(s, l, lines[..n], ids, times);
      LastUploaded(l, lines, ids, times);
      UploadInv(UploadAll(s, lines[..n], ids, times), Upload(l, NewJobs(lines[..n], ids, times)),
                ParseUpload(lines[n]).1, ids[n], times[n]);
    }
  }

  lemma NothingNew(l: Ledger, ids: seq<JobId>, times: seq<int>)
    ensures Upload(l, NewJobs([], ids, times)) == l
  {
  }

  lemma LastUploaded(l: Ledger, lines: seq<string>, ids: seq<JobId>, times: seq<int>)
    requires lines != [] && |lines| <= |ids| && |lines| <= |times|
    ensures var n := |lines| - 1;
      Upload(l, NewJobs(lines, ids, times))
      == AddJob(Upload(l, NewJobs(lines[..n], ids, times)), AsNewJob(lines[n], ids[n], times[n]))
  {
    hide ParseUpload;
    var n := |lines| - 1;
    assert NewJobs(lines, ids, times)[..n] == NewJobs(lines[..n], ids, times);
  }

  lemma LineParses(lines: seq<string>, n: nat)
    requires AllParse(lines) && n < |lines|
    ensures AllParse(lines[..n])
    ensures var job := ParseUpload(lines[n]).1; job.retries == 0 && Codec.IsInt32(job.priority)
  {
    assert lines[n] in lines;
  }

  // ----- Taking over tables

  /** Tables as any earlier leader may leave them: a job has one row in queue or current jobs,
      under its own id, with a retry count in range. */
  ghost predicate AreSound(s: Store) {
    && (forall k, m :: k in s.queue && m in s.queue && k.jobid == m.jobid ==> k == m)
    && (forall k :: k in s.queue ==> k.jobid !in s.current && 0 <= s.queue[k].retries <= MAX_JOB_RETRIES)
    && (forall id :: id in s.current ==> s.current[id].jobid == id && 0 <= s.current[id].retries <= MAX_JOB_RETRIES)
  }

  function QueuedIds(s: Store): set<JobId> {
    set k | k in s.queue :: k.jobid
  }

  ghost function QueuedKey(s: Store, id: JobId): QueueKey
    requires id in QueuedIds(s)
  {
    var k :| k in s.queue && k.jobid == id;
    k
  }

  /** The job as if it had been uploaded with priority 0 at the time its key says. */
  ghost function AsUploaded(s: Store, id: JobId): NewJob
    requires id in QueuedIds(s) || id in s.current
  {
    if id in s.current then NewJob(id, s.current[id].priority, 0, s.current[id].timeout, s.current[id].url)
    else
      var k := QueuedKey(s, id);
      NewJob(id, k.priority, 0, s.queue[k].timeout, s.queue[k].url)
  }

  ghost function Retried(s: Store): set<JobId> {
    (set k | k in s.queue && s.queue[k].retries == 1 :: k.jobid)
    + set id | id in s.current && s.current[id].retries == 1
  }

  function CurrentTokens(s: Store): set<Token> {
    set id | id in s.current :: Token(id, s.current[id].time)
  }

  function FailedTokens(s: Store): set<Token> {
    set k | k in s.failed :: Token(k.jobid, k.time)
  }

  /** A ledger that accounts for the tables. */
  ghost function TakenOver(s: Store): Ledger {
    var retried, current := multiset(Retried(s)), multiset(s.current.Keys);
    EMPTY.(uploaded := map id | id in QueuedIds(s) + s.current.Keys :: AsUploaded(s, id),
           retries := retried, handOuts := retried + current, work := retried + retried + current,
           issued := CurrentTokens(s) + FailedTokens(s), consumed := multiset(FailedTokens(s)))
  }

  lemma TakenOverInv(s: Store)
    requires AreSound(s)
    ensures Inv(s, TakenOver(s))
  {
    hide JobInv, RowsInv, TakenOver, AreSound;
    TakenOverRows(s);
    forall id: JobId ensures JobInv(s, TakenOver(s), id) {
      TakenOverJob(s, id);
    }
  }

  lemma TakenOverRows(s: Store)
    requires AreSound(s)
    ensures RowsInv(s, TakenOver(s))
  {
    hide Retried;
    var l := TakenOver(s);
    forall k | k in s.queue ensures k.jobid in l.uploaded && k == KeyOf(l.uploaded[k.jobid]) {
      assert k.jobid in QueuedIds(s);
      assert QueuedKey(s, k.jobid) == k;
    }
  }

  lemma TakenOverJob(s: Store, id: JobId)
    requires AreSound(s)
    ensures JobInv(s, TakenOver(s), id)
  {
    var l := TakenOver(s);
    if id in QueuedIds(s) {
      var k := QueuedKey(s, id);
      assert KeyOf(l.uploaded[id]) == k;
      assert id in Retried(s) <==> s.queue[k].retries == 1;
    } else if id in s.current {
      assert id in Retried(s) <==> s.current[id].retries == 1;
      assert forall k :: k in s.queue ==> k.jobid != id;
    } else {
      assert id !in Retried(s);
    }
  }
}
