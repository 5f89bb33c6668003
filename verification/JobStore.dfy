/** The job tables and the cached queue size: the queue ordered by priority and job id, the
    current jobs with their lease times, and the failed jobs. */
module JobStore {
  import Codec

  const MAX_JOB_RETRIES := 1
  const RECOUNT_WAIT_TIME := 600

  type JobId = string

  datatype Job = Job(jobid: JobId, time: int, timeout: int, priority: int, url: string, retries: int)

  datatype FailedJob = FailedJob(job: Job, reasonID: int, reasonData: string)

  datatype QueueKey = QueueKey(priority: int, jobid: JobId)

  datatype QueueRow = QueueRow(url: string, retries: int, timeout: int)

  datatype FailedKey = FailedKey(jobid: JobId, time: int)

  datatype Store = Store(
    queue: map<QueueKey, QueueRow>,
    current: map<JobId, Job>,
    failed: map<FailedKey, FailedJob>,
    numberOfJobs: int,
    timeLastRecount: int)

  // ----- The clustering order of the queue

  predicate LexLe(a: string, b: string) {
    a == "" || (b != "" && (a[0] < b[0] || (a[0] == b[0] && LexLe(a[1..], b[1..]))))
  }

  predicate KeyLe(k: QueueKey, m: QueueKey) {
    k.priority < m.priority || (k.priority == m.priority && LexLe(k.jobid, m.jobid))
  }

  lemma {:induction false} LexTotal(a: string, b: string)
    ensures LexLe(a, b) || LexLe(b, a)
    ensures LexLe(a, b) && LexLe(b, a) ==> a == b
  {
    if a != "" && b != "" && a[0] == b[0] {
      LexTotal(a[1..], b[1..]);
      assert a == [a[0]] + a[1..] && b == [b[0]] + b[1..];
    }
  }

  lemma {:induction false} LexTransitive(a: string, b: string, c: string)
    requires LexLe(a, b) && LexLe(b, c)
    ensures LexLe(a, c)
  {
    if a != "" && a[0] == b[0] && b[0] == c[0] {
      LexTransitive(a[1..], b[1..], c[1..]);
    }
  }

  lemma KeyTotal(k: QueueKey, m: QueueKey)
    ensures KeyLe(k, m) || KeyLe(m, k)
    ensures KeyLe(k, m) && KeyLe(m, k) ==> k == m
  {
    LexTotal(k.jobid, m.jobid);
  }

  lemma KeyTransitive(k: QueueKey, m: QueueKey, n: QueueKey)
    requires KeyLe(k, m) && KeyLe(m, n)
    ensures KeyLe(k, n)
  {
    if k.priority == m.priority == n.priority {
      LexTransitive(k.jobid, m.jobid, n.jobid);
    }
  }

  ghost predicate IsTop(keys: set<QueueKey>, k: QueueKey) {
    k in keys && forall o :: o in keys ==> KeyLe(k, o)
  }

  lemma {:induction false} TopExists(keys: set<QueueKey>)
    requires keys != {}
    ensures exists k :: IsTop(keys, k)
  {
    var k :| k in keys;
    KeyTotal(k, k);
    if keys == {k} {
      assert IsTop(keys, k);
    } else {
      var rest := keys - {k};
      assert keys == rest + {k};
      TopExists(rest);
      var m :| IsTop(rest, m);
      KeyTotal(k, m);
      if KeyLe(m, k) {
        assert IsTop(keys, m);
      } else {
        forall o | o in keys ensures KeyLe(k, o) {
          if o != k { KeyTransitive(k, m, o); }
        }
        assert IsTop(keys, k);
      }
    }
  }

  /** The first row of the queue in clustering order. */
  ghost function TopKey(keys: set<QueueKey>): (k: QueueKey)
    requires keys != {}
    ensures IsTop(keys, k)
  {
    TopExists(keys);
    var k :| IsTop(keys, k);
    k
  }

  lemma TopIsUnique(keys: set<QueueKey>, k: QueueKey)
    requires IsTop(keys, k)
    ensures k == TopKey(keys)
  {
    KeyTotal(k, TopKey(keys));
  }

  // ----- Store transitions

  /** Hands out the top job: it becomes a current job with the given lease time. */
  ghost function HandOut(s: Store, now: int): (Store, Job)
    requires s.queue != map[]
  {
    Lease(s, TopKey(s.queue.Keys), now)
  }

  function Lease(s: Store, key: QueueKey, now: int): (Store, Job)
    requires key in s.queue
  {
    var row := s.queue[key];
    var job := Job(key.jobid, now, row.timeout, key.priority, row.url, row.retries);
    (s.(current := s.current[key.jobid := job], queue := s.queue - {key}, numberOfJobs := s.numberOfJobs - 1), job)
  }

  /** The lease time of a current job, -1 when there is none. */
  function CurrentTime(s: Store, jobid: JobId): int {
    if jobid in s.current then s.current[jobid].time else -1
  }

  function RemoveCurrent(s: Store, jobid: JobId): Store {
    s.(current := s.current - {jobid})
  }

  function Enqueue(s: Store, key: QueueKey, row: QueueRow): Store {
    s.(queue := s.queue[key := row], numberOfJobs := s.numberOfJobs + 1)
  }

  /** A new job ages: its key is the upload time less its priority. */
  function UploadNew(s: Store, job: Job, freshId: JobId, now: int): Store {
    Enqueue(s, QueueKey(now - job.priority, freshId), QueueRow(job.url, job.retries, job.timeout))
  }

  /** A retried job keeps its key. */
  function UploadRetry(s: Store, job: Job): Store {
    Enqueue(s, QueueKey(job.priority, job.jobid), QueueRow(job.url, job.retries, job.timeout))
  }

  function AddFailed(s: Store, job: Job, reasonID: int, reasonData: string): Store {
    s.(failed := s.failed[FailedKey(job.jobid, job.time) := FailedJob(job, reasonID, reasonData)])
  }

  /** A failed current job: recorded, removed, and queued again when it may be retried. */
  function Fail(s: Store, job: Job, reasonID: int, reasonData: string, mayRetry: bool): Store {
    var s' := AddFailed(RemoveCurrent(s, job.jobid), job, reasonID, reasonData);
    if job.retries < MAX_JOB_RETRIES && mayRetry then UploadRetry(s', job.(retries := job.retries + 1)) else s'
  }

  function Recount(s: Store, seconds: int): Store {
    if seconds - s.timeLastRecount > RECOUNT_WAIT_TIME then
      s.(numberOfJobs := |s.queue|, timeLastRecount := seconds)
    else s
  }

  /** One timeout check of the periodic scan. */
  function TimeoutCheck(s: Store, job: Job, now: int): Store {
    if Expired(job, now) then Fail(s, job, 2, "Timed out at: " + Codec.Show(now), true) else s
  }

  predicate Expired(job: Job, now: int) {
    job.time + job.timeout < now
  }

  // ----- The connection class

  class DatabaseConnection {
    var queue: map<QueueKey, QueueRow>
    var current: map<JobId, Job>
    var failed: map<FailedKey, FailedJob>
    var numberOfJobs: int
    var timeLastRecount: int

    function State(): Store
      reads this
    {
      Store(queue, current, failed, numberOfJobs, timeLastRecount)
    }

    constructor (queue: map<QueueKey, QueueRow>, current: map<JobId, Job>, failed: map<FailedKey, FailedJob>)
      ensures State().queue == queue && State().current == current && State().failed == failed
      ensures timeLastRecount == -1
    {
      this.queue, this.current, this.failed := queue, current, failed;
      timeLastRecount := -1;
    }

    method GetTopJob(now: int) returns (job: Job)
      requires queue != map[]
      modifies this
      ensures (State(), job) == HandOut(old(State()), now)
    {
      TopExists(queue.Keys);
      var key :| key in queue && forall o :: o in queue ==> KeyLe(key, o);
      assert IsTop(queue.Keys, key);
      TopIsUnique(queue.Keys, key);
      var row := queue[key];
      job := Job(key.jobid, 0, row.timeout, key.priority, row.url, row.retries);
      var currTime := AddCurrentJob(job, now);
      DeleteTopJob(key);
      job := job.(time := currTime);
    }

    method DeleteTopJob(key: QueueKey)
      modifies this
      ensures State() == old(State()).(queue := old(queue) - {key}, numberOfJobs := old(numberOfJobs) - 1)
    {
      queue := queue - {key};
      numberOfJobs := numberOfJobs - 1;
    }

    method GetCurrentJobTime(jobid: JobId) returns (time: int)
      ensures time == CurrentTime(State(), jobid)
    {
      if jobid in current {
        return current[jobid].time;
      }
      return -1;
    }

    method AddCurrentJob(job: Job, now: int) returns (currTime: int)
      modifies this
      ensures currTime == now
      ensures State() == old(State()).(current := old(current)[job.jobid := job.(time := now)])
    {
      current := current[job.jobid := job.(time := now)];
      currTime := now;
    }

    /** Reads a current job and deletes its row; without one the job has an empty id. */
    method GetCurrentJob(jobid: JobId) returns (job: Job)
      modifies this
      ensures if jobid in old(current) then job == old(current)[jobid] else job.jobid == ""
      ensures State() == RemoveCurrent(old(State()), jobid)
    {
      job := Job("", 0, 0, 0, "", 0);
      if jobid in current {
        job := current[jobid];
        DeleteCurrentJob(jobid);
      }
    }

    method DeleteCurrentJob(jobid: JobId)
      modifies this
      ensures State() == RemoveCurrent(old(State()), jobid)
    {
      current := current - {jobid};
    }

    method AddFailedJob(job: Job, reasonID: int, reasonData: string)
      modifies this
      ensures State() == AddFailed(old(State()), job, reasonID, reasonData)
    {
      failed := failed[FailedKey(job.jobid, job.time) := FailedJob(job, reasonID, reasonData)];
    }

    method GetNumberOfJobs(seconds: int) returns (count: int)
      modifies this
      ensures State() == Recount(old(State()), seconds) && count == numberOfJobs
    {
      if seconds - timeLastRecount > RECOUNT_WAIT_TIME {
        numberOfJobs := |queue|;
        timeLastRecount := seconds;
      }
      count := numberOfJobs;
    }

    method UploadJob(job: Job, newJob: bool, freshId: JobId, now: int)
      modifies this
      ensures State() == if newJob then UploadNew(old(State()), job, freshId, now) else UploadRetry(old(State()), job)
    {
      var resultPriority, id;
      if newJob {
        resultPriority, id := now - job.priority, freshId;
      } else {
        resultPriority, id := job.priority, job.jobid;
      }
      queue := queue[QueueKey(resultPriority, id) := QueueRow(job.url, job.retries, job.timeout)];
      numberOfJobs := numberOfJobs + 1;
    }

    method UpdateCurrentJob(jobid: JobId, now: int)
      requires jobid in current && current[jobid].jobid == jobid
      modifies this
      ensures State() == TimeoutCheck(old(State()), old(current)[jobid], now)
    {
      var job := current[jobid];
      if job.time + job.timeout < now {
        AddFailedJob(job, 2, "Timed out at: " + Codec.Show(now));
        DeleteCurrentJob(jobid);
        if job.retries < MAX_JOB_RETRIES {
          UploadJob(job.(retries := job.retries + 1), false, "", now);
        }
      }
    }
  }
}
