/** Lease fencing. All it needs of the clock is that no lease of a job gets a time that an
    earlier lease of the same job had, and none the time -1 that stands for "no lease"; a
    strictly increasing clock is one way to get that. */
module JobLeases {
  import opened Codec
  import opened JobStore
  import H = JobHandler
  import opened JobLedger
  import opened JobRuns
  import opened JobTheorems

  // ----- The invariant

  /** Issued tokens are the consumed ones, each consumed once, and the live ones. */
  ghost predicate TokenInv(s: Store, l: Ledger) {
    && (forall t :: t in l.issued ==> t.time != -1)
    && (forall t :: t in l.issued ==> (l.consumed[t] == 0 <==> H.Live(s, t)))
    && (forall t :: t in l.consumed ==> t in l.issued && l.consumed[t] == 1)
    && (forall id :: id in s.current ==> H.Token(id, s.current[id].time) in l.issued)
    && (forall k :: k in s.failed ==> H.Token(k.jobid, k.time) in l.consumed)
  }

  ghost function FailedRows(keys: set<FailedKey>, id: JobId): set<FailedKey> {
    set k | k in keys && k.jobid == id
  }

  /** A job has a failed row for each retry and one more if it was abandoned. */
  ghost predicate FailedInv(s: Store, l: Ledger) {
    forall id: JobId :: |FailedRows(s.failed.Keys, id)| == l.retries[id] + One(id in l.abandoned)
  }

  ghost predicate NewToken(l: Ledger, token: H.Token) {
    token !in l.issued && token.time != -1
  }

  /** The lease that a response gives, if any, has a time of its own. */
  ghost predicate FreshLease(w: World, r: Request)
    requires Valid(w, r)
  {
    var o := Respond(w, r).1;
    && (o.Spider? ==> NewToken(w.l, H.Token(o.job.jobid, o.job.time)))
    && (o.Renewed? ==> NewToken(w.l, H.Token(o.token.jobid, o.newTime)))
  }

  ghost predicate FreshLeases(w: World, rs: seq<Request>)
    requires ValidRun(w, rs)
    decreases |rs|
  {
    rs == [] || (FreshLease(w, rs[0]) && FreshLeases(Step(w, rs[0]), rs[1..]))
  }

  ghost predicate LeaseInv(w: World) {
    WorldInv(w) && TokenInv(w.h.store, w.l)
  }

  lemma StartLeases(seconds: int, crawlID: int)
    ensures LeaseInv(Start(seconds, crawlID)) && FailedInv(Start(seconds, crawlID).h.store, EMPTY)
  {
    forall id: JobId ensures FailedRows({}, id) == {} {
    }
  }

  /** A leader that takes over sound tables fences the leases it finds there, if no current
      job has the time of a lease of its own that failed, and no lease has the time -1. */
  lemma TakeOverLeases(s: Store, crawlID: int)
    requires AreSound(s)
    requires forall id :: id in s.current ==> s.current[id].time != -1
    requires forall k :: k in s.failed ==> k.time != -1
    requires forall k :: k in s.failed && k.jobid in s.current ==> s.current[k.jobid].time != k.time
    ensures LeaseInv(TakeOver(s, crawlID))
  {
    hide WorldInv, Retried, AreSound;
    TakeOverInv(s, crawlID);
  }

  // ----- Tokens through the store transitions

  lemma LeaseTokens(s: Store, l: Ledger, key: QueueKey, now: int)
    requires TokenInv(s, l) && key in s.queue && key.jobid !in s.current && NewToken(l, H.Token(key.jobid, now))
    ensures var (s', job) := Lease(s, key, now); TokenInv(s', RecordHandOut(l, H.Token(job.jobid, job.time)))
  {
  }

  lemma RenewTokens(s: Store, l: Ledger, id: JobId, now: int)
    requires TokenInv(s, l) && id in s.current && s.current[id].jobid == id && NewToken(l, H.Token(id, now))
    ensures TokenInv(Renew(s, id, now), RecordRenewal(l, H.Token(id, s.current[id].time), now))
  {
    var s', l' := Renew(s, id, now), RecordRenewal(l, H.Token(id, s.current[id].time), now);
    forall t | t in l'.issued ensures t.time != -1 && (l'.consumed[t] == 0 <==> H.Live(s', t)) {
      RenewLive(s, id, now, t);
    }
  }

  /** The renewed lease is the one live token that changes. */
  lemma RenewLive(s: Store, id: JobId, now: int, t: H.Token)
    requires id in s.current && s.current[id].jobid == id && now != -1
    ensures H.Live(Renew(s, id, now), t) <==> if t.jobid == id then t == H.Token(id, now) else H.Live(s, t)
  {
  }

  lemma FinishTokens(s: Store, l: Ledger, id: JobId)
    requires TokenInv(s, l) && id in s.current
    ensures TokenInv(RemoveCurrent(s, id), RecordFinish(l, H.Token(id, s.current[id].time)))
  {
  }

  lemma FailTokens(s: Store, l: Ledger, id: JobId, reasonID: int, reasonData: string, mayRetry: bool)
    requires TokenInv(s, l) && id in s.current && s.current[id].jobid == id
    ensures var job := s.current[id];
      TokenInv(Fail(s, job, reasonID, reasonData, mayRetry),
               RecordFailure(l, H.Token(id, job.time), job.retries < MAX_JOB_RETRIES && mayRetry))
  {
  }

  /** Queue, cached size and uploaded jobs have no part in tokens. */
  lemma SameLeases(s: Store, s': Store, l: Ledger, l': Ledger)
    requires TokenInv(s, l) && s.current == s'.current && s.failed == s'.failed
    requires l.issued == l'.issued && l.consumed == l'.consumed
    ensures TokenInv(s', l')
  {
    assert forall t :: H.Live(s', t) <==> H.Live(s, t);
  }

  // ----- Failed rows

  lemma FailedRowsAdd(keys: set<FailedKey>, k: FailedKey, id: JobId)
    requires k !in keys
    ensures |FailedRows(keys + {k}, id)| == |FailedRows(keys, id)| + One(k.jobid == id)
  {
    if k.jobid == id {
      assert FailedRows(keys + {k}, id) == FailedRows(keys, id) + {k};
    } else {
      assert FailedRows(keys + {k}, id) == FailedRows(keys, id);
    }
  }

  lemma FailFailed(s: Store, l: Ledger, id: JobId, reasonID: int, reasonData: string, mayRetry: bool)
    requires Inv(s, l) && TokenInv(s, l) && FailedInv(s, l) && id in s.current
    ensures var job := s.current[id];
      FailedInv(Fail(s, job, reasonID, reasonData, mayRetry),
                RecordFailure(l, H.Token(id, job.time), job.retries < MAX_JOB_RETRIES && mayRetry))
  {
    hide Inv, FailedRows;
    CurrentIsKnown(s, l, id);
    NotAbandoned(s, l, id);
    var job := s.current[id];
    var key := FailedKey(id, job.time);
    assert key !in s.failed;
    var s' := Fail(s, job, reasonID, reasonData, mayRetry);
    assert s'.failed.Keys == s.failed.Keys + {key};
    forall i: JobId ensures |FailedRows(s'.failed.Keys, i)| == |FailedRows(s.failed.Keys, i)| + One(id == i) {
      FailedRowsAdd(s.failed.Keys, key, i);
    }
  }

  lemma NotAbandoned(s: Store, l: Ledger, id: JobId)
    requires Inv(s, l) && id in s.current
    ensures id !in l.abandoned
  {
    Known(s, l, id);
  }

  // ----- Steps and runs

  /** Hand-out, renewal, finish and failure; every other step leaves leases alone. */
  lemma TokenStep(w: World, r: Request)
    requires LeaseInv(w) && Valid(w, r) && FreshLease(w, r)
    ensures TokenInv(Step(w, r).h.store, Step(w, r).l)
    ensures FailedInv(w.h.store, w.l) ==> FailedInv(Step(w, r).h.store, Step(w, r).l)
  {
    hide WorldInv, TokenInv, FailedInv, Valid, Step;
    match r
    case GetJob(seconds, now) => GetJobTokens(w, seconds, now);
    case UpdateJob(data, now) => UpdateJobTokens(w, data, now);
    case FinishJob(data) => FinishJobTokens(w, data);
    case CheckTimeout(jobid, now) => CheckTimeoutTokens(w, jobid, now);
    case _ => UploadTokens(w, r);
  }

  lemma SameFailed(s: Store, s': Store, l: Ledger, l': Ledger)
    requires FailedInv(s, l) && s.failed == s'.failed && l.retries == l'.retries && l.abandoned == l'.abandoned
    ensures FailedInv(s', l')
  {
    hide FailedRows;
  }

  ghost predicate KeepsFailed(w: World, r: Request)
    requires Valid(w, r)
  {
    FailedInv(w.h.store, w.l) ==> FailedInv(Step(w, r).h.store, Step(w, r).l)
  }

  lemma GetJobTokens(w: World, seconds: int, now: int)
    requires LeaseInv(w) && FreshLease(w, GetJob(seconds, now))
    ensures TokenInv(Step(w, GetJob(seconds, now)).h.store, Step(w, GetJob(seconds, now)).l)
    ensures KeepsFailed(w, GetJob(seconds, now))
  {
    hide Inv, CrawlInv, TokenInv, FailedInv, RecordHandOut, IsTop, Lease;
    var r := GetJob(seconds, now);
    var s, s1, w' := w.h.store, Recount(w.h.store, seconds), Step(w, r);
    SameLeases(s, s1, w.l, w.l);
    if Respond(w, r).1.Spider? {
      var key := TopKey(s1.queue.Keys);
      InTop(s1.queue.Keys, key);
      QueuedIsWaiting(s, w.l, key);
      LeasedIs(s1, key, now);
      LeaseTokens(s1, w.l, key, now);
      HandedOut(w.l, H.Token(key.jobid, now));
    }
    if FailedInv(s, w.l) {
      SameFailed(s, w'.h.store, w.l, w'.l);
    }
  }

  lemma LeasedIs(s: Store, key: QueueKey, now: int)
    requires key in s.queue
    ensures var (s', job) := Lease(s, key, now); job.jobid == key.jobid && job.time == now && s'.failed == s.failed
  {
  }

  lemma HandedOut(l: Ledger, token: H.Token)
    ensures var l' := RecordHandOut(l, token); l'.retries == l.retries && l'.abandoned == l.abandoned
  {
  }

  lemma UpdateJobTokens(w: World, data: string, now: int)
    requires LeaseInv(w) && FreshLease(w, UpdateJob(data, now))
    ensures TokenInv(Step(w, UpdateJob(data, now)).h.store, Step(w, UpdateJob(data, now)).l)
    ensures KeepsFailed(w, UpdateJob(data, now))
  {
    hide Inv, CrawlInv, TokenInv, FailedInv, H.ParseToken;
    var r, s := UpdateJob(data, now), w.h.store;
    var (ok, token) := H.ParseToken(data, 2);
    if ok && H.Live(s, token) {
      CurrentIsKnown(s, w.l, token.jobid);
      RenewTokens(s, w.l, token.jobid, now);
    }
    if FailedInv(s, w.l) {
      SameFailed(s, Step(w, r).h.store, w.l, Step(w, r).l);
    }
  }

  lemma FinishJobTokens(w: World, data: string)
    requires LeaseInv(w)
    ensures TokenInv(Step(w, FinishJob(data)).h.store, Step(w, FinishJob(data)).l)
    ensures KeepsFailed(w, FinishJob(data))
  {
    hide Inv, CrawlInv, TokenInv, FailedInv, Split, ParseNumber, Fail, RecordFailure;
    var r, s, l := FinishJob(data), w.h.store, w.l;
    var (ok, token) := H.ParseToken(data, 4);
    if ok && H.Live(s, token) {
      var fields := Split(data, FIELD_DELIMITER);
      CurrentIsKnown(s, l, token.jobid);
      FinishTokens(s, l, token.jobid);
      if SafeStoi(fields[2]).Value? {
        var reasonID := SafeStoi(fields[2]).value;
        FailTokens(s, l, token.jobid, reasonID, fields[3], reasonID !in H.NO_RETRY_REASONS);
        if FailedInv(s, l) {
          FailFailed(s, l, token.jobid, reasonID, fields[3], reasonID !in H.NO_RETRY_REASONS);
        }
      }
    }
    if FailedInv(s, l) && !Respond(w, r).1.Failed? {
      SameFailed(s, Step(w, r).h.store, l, Step(w, r).l);
    }
  }

  lemma CheckTimeoutTokens(w: World, jobid: JobId, now: int)
    requires LeaseInv(w)
    ensures TokenInv(Step(w, CheckTimeout(jobid, now)).h.store, Step(w, CheckTimeout(jobid, now)).l)
    ensures KeepsFailed(w, CheckTimeout(jobid, now))
  {
    hide Inv, CrawlInv, TokenInv, FailedInv, Fail, RecordFailure, Show;
    var s, l := w.h.store, w.l;
    if jobid in s.current {
      CurrentIsKnown(s, l, jobid);
      FailTokens(s, l, jobid, 2, "Timed out at: " + Show(now), true);
      if FailedInv(s, l) {
        FailFailed(s, l, jobid, 2, "Timed out at: " + Show(now), true);
      }
    }
  }

  lemma UploadTokens(w: World, r: Request)
    requires LeaseInv(w) && Valid(w, r) && (r.UploadJobs? || r.CrawlData?)
    ensures TokenInv(Step(w, r).h.store, Step(w, r).l) && KeepsFailed(w, r)
  {
    hide WorldInv, TokenInv, FailedInv, Fresh, Split, ParseNumber, H.UploadAll, H.AllParse, H.NewJobs, AddJobs;
    var s, s' := w.h.store, Step(w, r).h.store;
    var lines := Split(r.data, ENTRY_DELIMITER);
    UploadsKeepLeases(s, lines, r.ids, r.times);
    if |lines| >= 3 {
      UploadsKeepLeases(s, lines[2..], r.ids, r.times);
    }
    UploadOutcome(w, r);
    SameLeases(s, s', w.l, Step(w, r).l);
    if FailedInv(s, w.l) {
      SameFailed(s, s', w.l, Step(w, r).l);
    }
  }

  lemma {:induction false} UploadsKeepLeases(s: Store, lines: seq<string>, ids: seq<JobId>, times: seq<int>)
    requires |lines| <= |ids| && |lines| <= |times|
    ensures var s' := H.UploadAll(s, lines, ids, times); s'.current == s.current && s'.failed == s.failed
  {
    hide H.ParseUpload;
    if lines != [] {
      UploadsKeepLeases(s, lines[..|lines| - 1], ids, times);
    }
  }

  lemma {:induction false} LeaseRun(w: World, rs: seq<Request>)
    requires LeaseInv(w) && ValidRun(w, rs) && FreshLeases(w, rs)
    ensures LeaseInv(Run(w, rs))
    ensures FailedInv(w.h.store, w.l) ==> FailedInv(Run(w, rs).h.store, Run(w, rs).l)
    decreases |rs|
  {
    hide WorldInv, TokenInv, FailedInv, FreshLease, Step, Valid;
    if rs != [] {
      StepInv(w, rs[0]);
      TokenStep(w, rs[0]);
      LeaseRun(Step(w, rs[0]), rs[1..]);
    }
  }

  // ----- A strictly increasing clock is enough

  ghost predicate IssuedBy(l: Ledger, now: int) {
    forall t :: t in l.issued ==> t.time <= now
  }

  /** The clock that lease times are read from is strictly increasing. */
  predicate Ticks(now: int, rs: seq<Request>)
    decreases |rs|
  {
    rs == []
    || (&& now <= Reading(now, rs[0])
        && (IsReading(rs[0]) ==> now < rs[0].now)
        && Ticks(Reading(now, rs[0]), rs[1..]))
  }

  predicate IsReading(r: Request) {
    r.GetJob? || r.UpdateJob?
  }

  function Reading(now: int, r: Request): int {
    if IsReading(r) then r.now else now
  }

  lemma LeaseReads(w: World, r: Request)
    requires Valid(w, r)
    ensures var o := Respond(w, r).1;
      && (o.Spider? ==> r.GetJob? && o.job.time == r.now)
      && (o.Renewed? ==> r.UpdateJob? && o.newTime == r.now)
      && (!o.Spider? && !o.Renewed? ==> Record(w.l, o).issued == w.l.issued)
  {
    hide H.ParseToken, Split, ParseNumber, H.UploadAll, H.AllParse, H.NewJobs, Fail, TopKey;
  }

  lemma {:induction false} StrictClockIsFresh(w: World, rs: seq<Request>, now: int)
    requires ValidRun(w, rs) && IssuedBy(w.l, now) && now >= -1 && Ticks(now, rs)
    ensures FreshLeases(w, rs)
    decreases |rs|
  {
    hide Respond, Valid;
    if rs != [] {
      LeaseReads(w, rs[0]);
      StrictClockIsFresh(Step(w, rs[0]), rs[1..], Reading(now, rs[0]));
    }
  }

  // ----- Fencing

  /** A token is live exactly when it was issued and not yet consumed. */
  lemma LiveIffUnconsumed(w: World, token: H.Token)
    requires LeaseInv(w)
    ensures H.Live(w.h.store, token) <==> token in w.l.issued && w.l.consumed[token] == 0
  {
  }

  /** Every accepted renewal, finish or timeout uses up a live token that nothing used
      before. */
  lemma AcceptanceConsumesOnce(w: World, r: Request)
    requires LeaseInv(w) && Valid(w, r) && FreshLease(w, r)
    requires var o := Respond(w, r).1; o.Renewed? || o.Finished? || o.Failed? || o.TimedOut?
    ensures var token := Respond(w, r).1.token;
      && H.Live(w.h.store, token) && token in w.l.issued && w.l.consumed[token] == 0
      && Step(w, r).l.consumed[token] == 1 && !H.Live(Step(w, r).h.store, token)
  {
    hide Respond, WorldInv, H.Live, Valid, FreshLease, TokenInv;
    StepInv(w, r);
    TokenStep(w, r);
    OutcomeFacts(w, r);
    var token := Respond(w, r).1.token;
    LeasedIsLive(w, token);
    LiveIffUnconsumed(w, token);
    LiveIffUnconsumed(Step(w, r), token);
  }

  lemma LeasedIsLive(w: World, token: H.Token)
    requires LeaseInv(w)
    ensures IsLeased(w.h.store, token) ==> H.Live(w.h.store, token)
  {
  }

  /** Once a token is consumed - by a renewal, a finish or a timeout - its holder is refused
      for ever, and the refusal changes nothing. */
  lemma ConsumedTokenIsRefused(w: World, rs: seq<Request>, token: H.Token, data: string, now: int)
    requires LeaseInv(w) && ValidRun(w, rs) && FreshLeases(w, rs) && token in w.l.consumed
    requires H.ParseToken(data, 2) == (true, token)
    ensures var h := Run(w, rs).h;
      && H.UpdateJob(h, data, now) == (h, H.NotExpected)
      && H.FinishJob(h, data).0 == h
      && (H.FinishJob(h, data).1 == H.NotExpected || H.FinishJob(h, data).1 == H.ClientError)
  {
    hide LeaseInv, Split, ParseNumber, Run, ValidRun, FreshLeases;
    LeaseRun(w, rs);
    RunGrows(w, rs);
    LiveIffUnconsumed(Run(w, rs), token);
    assert token in Run(w, rs).l.consumed;
  }

  /** A worker that echoes the job id and time it was given presents exactly that token. */
  lemma EchoedToken(token: H.Token)
    requires FIELD_DELIMITER !in token.jobid && IsInt64(token.time)
    ensures H.ParseToken(Join([token.jobid, Show(token.time)], FIELD_DELIMITER), 2) == (true, token)
  {
    ParseShow(token.time, -0x8000_0000_0000_0000, 0x7fff_ffff_ffff_ffff);
    SplitJoin([token.jobid, Show(token.time)], FIELD_DELIMITER);
  }

  /** Over every run with fresh leases a job's failed rows are its retries, and one more if it
      was abandoned. */
  lemma FailedRowsAreRetries(w: World, rs: seq<Request>, id: JobId)
    requires LeaseInv(w) && FailedInv(w.h.store, w.l) && ValidRun(w, rs) && FreshLeases(w, rs)
    ensures var w' := Run(w, rs);
      |FailedRows(w'.h.store.failed.Keys, id)| == w'.l.retries[id] + One(id in w'.l.abandoned)
  {
    hide LeaseInv, Run, ValidRun, FreshLeases, FailedRows;
    LeaseRun(w, rs);
  }

  // ----- The condition on the clock is exact

  /** Every issued token lives until it is consumed, and no other lives. */
  ghost predicate Fenced(s: Store, l: Ledger) {
    forall t :: H.Live(s, t) <==> t in l.issued && l.consumed[t] == 0
  }

  lemma ReusedLease(s: Store, l: Ledger, key: QueueKey, now: int)
    requires TokenInv(s, l) && key in s.queue && key.jobid !in s.current && !NewToken(l, H.Token(key.jobid, now))
    ensures !Fenced(Lease(s, key, now).0, RecordHandOut(l, H.Token(key.jobid, now)))
  {
    var t := H.Token(key.jobid, now);
    var l' := RecordHandOut(l, t);
    assert !H.Live(s, t);
    assert H.Live(Lease(s, key, now).0, t) <==> now != -1;
    assert t in l'.issued && l'.consumed == l.consumed;
  }

  lemma ReusedRenewal(s: Store, l: Ledger, id: JobId, now: int)
    requires TokenInv(s, l) && id in s.current && s.current[id].jobid == id && s.current[id].time != -1
    requires !NewToken(l, H.Token(id, now))
    ensures !Fenced(Renew(s, id, now), RecordRenewal(l, H.Token(id, s.current[id].time), now))
  {
    var old', t := H.Token(id, s.current[id].time), H.Token(id, now);
    var l' := RecordRenewal(l, old', now);
    assert H.Live(s, t) <==> t == old';
    assert H.Live(Renew(s, id, now), t) <==> now != -1;
    assert t in l'.issued && l'.consumed == l.consumed + multiset{old'};
  }

  /** A step keeps the leases fenced if and only if the lease it gives, if any, has a time that
      no lease of that job had before. */
  lemma StaysFencedIff(w: World, r: Request)
    requires LeaseInv(w) && Valid(w, r)
    ensures Fenced(Step(w, r).h.store, Step(w, r).l) <==> FreshLease(w, r)
  {
    hide WorldInv, TokenInv, Respond, Valid, Fenced, FreshLease, H.Live;
    if FreshLease(w, r) {
      StepInv(w, r);
      TokenStep(w, r);
      IsFenced(Step(w, r));
    } else {
      StaleLease(w, r);
    }
  }

  lemma IsFenced(w: World)
    requires LeaseInv(w)
    ensures Fenced(w.h.store, w.l)
  {
    forall t ensures H.Live(w.h.store, t) <==> t in w.l.issued && w.l.consumed[t] == 0 {
      LiveIffUnconsumed(w, t);
    }
  }

  lemma StaleLease(w: World, r: Request)
    requires LeaseInv(w) && Valid(w, r) && !FreshLease(w, r)
    ensures !Fenced(Step(w, r).h.store, Step(w, r).l)
  {
    hide Inv, CrawlInv, TokenInv, Fenced, IsTop, Lease, NewToken, H.ParseToken;
    LeaseReads(w, r);
    var s := w.h.store;
    match r
    case GetJob(seconds, now) =>
      var s1 := Recount(s, seconds);
      SameLeases(s, s1, w.l, w.l);
      var key := TopKey(s1.queue.Keys);
      InTop(s1.queue.Keys, key);
      QueuedIsWaiting(s, w.l, key);
      LeasedIs(s1, key, now);
      ReusedLease(s1, w.l, key, now);
    case UpdateJob(data, now) =>
      var (ok, token) := H.ParseToken(data, 2);
      CurrentIsKnown(s, w.l, token.jobid);
      ReusedRenewal(s, w.l, token.jobid, now);
    case _ =>
  }
}
