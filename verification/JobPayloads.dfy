/** What an upload request says about its jobs is what the workers get: each line becomes one
    queue row, and its url and timeout stay with the job through renewals and retries. */
module JobPayloads {
  import opened Codec
  import opened JobStore
  import H = JobHandler
  import opened JobLedger
  import opened JobRuns
  import opened JobTheorems

  // ----- Lines

  datatype Line = Line(url: string, priority: int, timeout: int)

  predicate IsClean(line: Line) {
    '?' !in line.url && '\n' !in line.url && IsInt32(line.priority) && IsInt64(line.timeout)
  }

  function Fields(line: Line): seq<string> {
    [line.url, Show(line.priority), Show(line.timeout)]
  }

  function Text(line: Line): string {
    Join(Fields(line), '?')
  }

  function Texts(lines: seq<Line>): (texts: seq<string>)
    ensures |texts| == |lines|
    ensures forall i :: 0 <= i < |lines| ==> texts[i] == Text(lines[i])
  {
    seq(|lines|, i requires 0 <= i < |lines| => Text(lines[i]))
  }

  /** A line is read as exactly the url, priority and timeout it was made of. */
  lemma LineIsRead(line: Line)
    requires IsClean(line)
    ensures H.ParseUpload(Text(line)) == (true, Job("", 0, line.timeout, line.priority, line.url, 0))
  {
    hide Split, ParseNumber, Show, Join;
    ParseShow(line.priority, -0x8000_0000, 0x7fff_ffff);
    ParseShow(line.timeout, -0x8000_0000_0000_0000, 0x7fff_ffff_ffff_ffff);
    SplitJoin(Fields(line), '?');
  }

  /** Any clean line is well-formed exactly if it has three fields and its second and third are
      numbers of 32 and 64 bits; further fields are ignored. */
  lemma LineParsesIff(words: seq<string>)
    requires DelimiterFree(words, '?') && EndsNonEmpty(words)
    ensures H.ParseUpload(Join(words, '?')).0
       <==> |words| >= 3 && SafeStoi(words[1]).Value? && SafeStoll(words[2]).Value?
  {
    hide Split, ParseNumber, Join;
    SplitJoin(words, '?');
  }

  lemma LinesAreSplit(lines: seq<Line>)
    requires forall line :: line in lines ==> IsClean(line)
    ensures Split(Join(Texts(lines), '\n'), '\n') == Texts(lines)
    ensures H.AllParse(Texts(lines))
  {
    hide Split, H.ParseUpload, Text;
    forall text | text in Texts(lines) ensures '\n' !in text && text != "" && H.ParseUpload(text).0 {
      var i: nat :| i < |lines| && Texts(lines)[i] == text;
      assert lines[i] in lines;
      TextIsLine(lines[i]);
      LineIsRead(lines[i]);
    }
    SplitJoin(Texts(lines), '\n');
    assert lines != [] ==> Texts(lines)[|lines| - 1] in Texts(lines);
  }

  lemma TextIsLine(line: Line)
    requires IsClean(line)
    ensures '\n' !in Text(line) && Text(line) != ""
  {
    hide Show;
    JoinAvoids(Fields(line), '?', '\n');
  }

  // ----- One row a line

  function NewKey(line: Line, id: JobId, time: int): QueueKey {
    QueueKey(time - line.priority, id)
  }

  /** The queue has gained a row for each of the first lines, under its own id. */
  ghost predicate AreQueued(
    before: map<QueueKey, QueueRow>, queue: map<QueueKey, QueueRow>, lines: seq<Line>, ids: seq<JobId>,
    times: seq<int>)
    requires |lines| <= |ids| && |lines| <= |times|
  {
    && (forall k :: k in before ==> k in queue && queue[k] == before[k])
    && (forall i :: 0 <= i < |lines| ==>
          var k := NewKey(lines[i], ids[i], times[i]);
          k in queue && queue[k] == QueueRow(lines[i].url, 0, lines[i].timeout))
    && (forall k :: k in queue && k !in before ==>
          exists i :: 0 <= i < |lines| && k == NewKey(lines[i], ids[i], times[i]))
  }

  lemma {:induction false} AllAreQueued(s: Store, lines: seq<Line>, ids: seq<JobId>, times: seq<int>)
    requires (forall line :: line in lines ==> IsClean(line)) && |lines| <= |ids| && |lines| <= |times|
    requires forall i, j :: 0 <= i < j < |ids| ==> ids[i] != ids[j]
    requires forall i, k :: 0 <= i < |ids| && k in s.queue ==> k.jobid != ids[i]
    ensures var s' := H.UploadAll(s, Texts(lines), ids, times);
      && AreQueued(s.queue, s'.queue, lines, ids, times)
      && s' == s.(queue := s'.queue, numberOfJobs := s.numberOfJobs + |lines|)
  {
    hide H.ParseUpload, Text, IsClean, AreQueued;
    if lines == [] {
      NoneQueued(s.queue, ids, times);
    } else {
      var n := |lines| - 1;
      var front := lines[..n];
      AllAreQueued(s, front, ids, times);
      assert Texts(lines)[..n] == Texts(front);
      assert lines[n] in lines;
      LineIsRead(lines[n]);
      OneMore(s.queue, H.UploadAll(s, Texts(front), ids, times).queue, lines, ids, times);
    }
  }

  lemma NoneQueued(queue: map<QueueKey, QueueRow>, ids: seq<JobId>, times: seq<int>)
    ensures AreQueued(queue, queue, [], ids, times)
  {
  }

  lemma OneMore(
    before: map<QueueKey, QueueRow>, queue: map<QueueKey, QueueRow>, lines: seq<Line>, ids: seq<JobId>,
    times: seq<int>)
    requires lines != [] && |lines| <= |ids| && |lines| <= |times|
    requires forall i, j :: 0 <= i < j < |ids| ==> ids[i] != ids[j]
    requires forall i, k :: 0 <= i < |ids| && k in before ==> k.jobid != ids[i]
    requires AreQueued(before, queue, lines[..|lines| - 1], ids, times)
    ensures var n := |lines| - 1;
      AreQueued(before, queue[NewKey(lines[n], ids[n], times[n]) := QueueRow(lines[n].url, 0, lines[n].timeout)],
                lines, ids, times)
  {
    var n := |lines| - 1;
    var key := NewKey(lines[n], ids[n], times[n]);
    var queue' := queue[key := QueueRow(lines[n].url, 0, lines[n].timeout)];
    forall k | k in queue' && k !in before
      ensures exists i :: 0 <= i < |lines| && k == NewKey(lines[i], ids[i], times[i])
    {
      if k != key {
        var i :| 0 <= i < n && k == NewKey(lines[..n][i], ids[i], times[i]);
        assert lines[i] == lines[..n][i];
      }
    }
    forall i | 0 <= i < |lines|
      ensures var k := NewKey(lines[i], ids[i], times[i]);
        k in queue' && queue'[k] == QueueRow(lines[i].url, 0, lines[i].timeout)
    {
      if i < n {
        assert lines[i] == lines[..n][i] && ids[i] != ids[n];
      }
    }
  }

  /** An upload request with clean lines is accepted; the queue gains one row a line - keyed by
      the time less the line's priority under an id of its own, with the line's url and timeout
      and no retries - and nothing else changes. */
  lemma UploadIsQueued(w: World, lines: seq<Line>, ids: seq<JobId>, times: seq<int>)
    requires WorldInv(w) && forall line :: line in lines ==> IsClean(line)
    requires Valid(w, UploadJobs(Join(Texts(lines), '\n'), ids, times))
    requires |lines| <= |ids| && |lines| <= |times|
    ensures var r := UploadJobs(Join(Texts(lines), '\n'), ids, times);
      var s, o, w' := w.h.store, Respond(w, r).1, Step(w, r);
      && o.Uploaded? && |o.jobs| == |lines|
      && (forall i :: 0 <= i < |lines| ==>
            o.jobs[i] == H.NewJob(ids[i], times[i], lines[i].priority, lines[i].timeout, lines[i].url))
      && AreQueued(s.queue, w'.h.store.queue, lines, ids, times)
      && w'.h == w.h.(store := s.(queue := w'.h.store.queue, numberOfJobs := s.numberOfJobs + |lines|))
  {
    hide Split, H.ParseUpload, IsClean, CrawlInv, Inv, H.UploadAll, H.AllParse, AreQueued, Text;
    var s := w.h.store;
    LinesAreSplit(lines);
    forall i, k | 0 <= i < |ids| && k in s.queue ensures k.jobid != ids[i] {
      QueuedIsWaiting(s, w.l, k);
    }
    AllAreQueued(s, lines, ids, times);
    forall i | 0 <= i < |lines|
      ensures H.AsNewJob(Texts(lines)[i], ids[i], times[i])
           == H.NewJob(ids[i], times[i], lines[i].priority, lines[i].timeout, lines[i].url)
    {
      assert lines[i] in lines;
      LineIsRead(lines[i]);
    }
  }

  /** One malformed line and nothing is uploaded. */
  lemma BadLineRefusesAll(w: World, data: string, line: string, ids: seq<JobId>, times: seq<int>)
    requires Valid(w, UploadJobs(data, ids, times))
    requires line in Split(data, '\n') && !H.ParseUpload(line).0
    ensures Respond(w, UploadJobs(data, ids, times)).1 == H.ClientError && Step(w, UploadJobs(data, ids, times)) == w
  {
    hide Split, H.ParseUpload;
  }

  // ----- Crawl data

  function CrawlText(id: int, identifier: int, counts: string, lines: seq<Line>): string {
    Join([Join([Show(id), Show(identifier)], '?'), counts] + Texts(lines), '\n')
  }

  lemma CrawlIsSplit(id: int, identifier: int, counts: string, lines: seq<Line>)
    requires IsInt32(id) && IsInt64(identifier) && '\n' !in counts
    requires lines != [] && forall line :: line in lines ==> IsClean(line)
    ensures var texts := Split(CrawlText(id, identifier, counts, lines), '\n');
      && |texts| == 2 + |lines| && texts[2..] == Texts(lines)
      && Split(texts[0], '?') == [Show(id), Show(identifier)]
    ensures SafeStoi(Show(id)) == Value(id) && SafeStoll(Show(identifier)) == Value(identifier)
  {
    hide Split, ParseNumber, Show, Join, Text, IsClean;
    ParseShow(id, -0x8000_0000, 0x7fff_ffff);
    ParseShow(identifier, -0x8000_0000_0000_0000, 0x7fff_ffff_ffff_ffff);
    SplitJoin([Show(id), Show(identifier)], '?');
    JoinAvoids([Show(id), Show(identifier)], '?', '\n');
    var words := [Join([Show(id), Show(identifier)], '?'), counts] + Texts(lines);
    forall word | word in words ensures '\n' !in word {
      if word in Texts(lines) {
        var i: nat :| i < |lines| && Texts(lines)[i] == word;
        assert lines[i] in lines;
        TextIsLine(lines[i]);
      }
    }
    assert lines[|lines| - 1] in lines;
    TextIsLine(lines[|lines| - 1]);
    assert words[|words| - 1] == Text(lines[|lines| - 1]);
    SplitJoin(words, '\n');
    assert words[2..] == Texts(lines);
  }

  /** Crawl data that names the open crawl is accepted: its jobs are queued like those of an
      upload, the crawl is closed, and the next one continues from the id it names. */
  lemma CrawlIsQueued(
    w: World, id: int, identifier: int, counts: string, lines: seq<Line>, ids: seq<JobId>, times: seq<int>)
    requires WorldInv(w) && identifier == OpenCrawl(w.crawls)
    requires IsInt32(id) && IsInt64(identifier) && '\n' !in counts
    requires lines != [] && forall line :: line in lines ==> IsClean(line)
    requires Valid(w, CrawlData(CrawlText(id, identifier, counts, lines), ids, times))
    requires |lines| <= |ids| && |lines| <= |times|
    ensures var r := CrawlData(CrawlText(id, identifier, counts, lines), ids, times);
      var s, o, w' := w.h.store, Respond(w, r).1, Step(w, r);
      && o.CrawlAccepted? && o.identifier == identifier && |o.jobs| == |lines|
      && AreQueued(s.queue, w'.h.store.queue, lines, ids, times)
      && w'.h.store == s.(queue := w'.h.store.queue, numberOfJobs := s.numberOfJobs + |lines|)
      && w'.h.crawlID == id && w'.h.timeLastCrawl == -1 && w'.crawls.open == []
  {
    hide Split, ParseNumber, Show, CrawlText, IsClean, Inv, H.ParseUpload, H.UploadAll, H.AllParse, AreQueued, Text;
    var s := w.h.store;
    CrawlIsSplit(id, identifier, counts, lines);
    LinesAreSplit(lines);
    forall i, k | 0 <= i < |ids| && k in s.queue ensures k.jobid != ids[i] {
      QueuedIsWaiting(s, w.l, k);
    }
    AllAreQueued(s, lines, ids, times);
  }

  // ----- The payload over runs

  /** Over every run, whatever was renewed, failed or retried, a job keeps what it was uploaded
      with: its queue row and its current job have that url and timeout. */
  lemma PayloadIsKept(w: World, rs: seq<Request>, id: JobId)
    requires WorldInv(w) && ValidRun(w, rs) && id in w.l.uploaded
    ensures var w', job := Run(w, rs), w.l.uploaded[id];
      && id in w'.l.uploaded && w'.l.uploaded[id] == job
      && (forall k :: k in w'.h.store.queue && k.jobid == id ==>
            && k.priority == job.time - job.priority
            && w'.h.store.queue[k].url == job.url && w'.h.store.queue[k].timeout == job.timeout)
      && (id in w'.h.store.current ==>
            w'.h.store.current[id].url == job.url && w'.h.store.current[id].timeout == job.timeout)
  {
    hide Run, ValidRun, CrawlInv, JobInv;
    RunInv(w, rs);
    RunGrows(w, rs);
  }

  /** Whoever gets the job gets the url and timeout it was uploaded with. */
  lemma SpiderCarriesUpload(w: World, rs: seq<Request>, seconds: int, now: int)
    requires WorldInv(w) && ValidRun(w, rs)
    ensures var w' := Run(w, rs);
      var o := Respond(w', GetJob(seconds, now)).1;
      o.Spider? ==>
        && o.job.jobid in w'.l.uploaded
        && var job := w'.l.uploaded[o.job.jobid];
        && o.job.url == job.url && o.job.timeout == job.timeout && o.job.retries == w'.l.retries[o.job.jobid]
  {
    hide Run, ValidRun, CrawlInv, JobInv, IsTop;
    RunInv(w, rs);
    var w' := Run(w, rs);
    var s := Recount(w'.h.store, seconds);
    if Respond(w', GetJob(seconds, now)).1.Spider? {
      var key := TopKey(s.queue.Keys);
      InTop(s.queue.Keys, key);
      QueuedRetries(w', key);
    }
  }

  lemma QueuedRetries(w: World, key: QueueKey)
    requires WorldInv(w) && key in w.h.store.queue
    ensures w.h.store.queue[key].retries == w.l.retries[key.jobid]
  {
    Known(w.h.store, w.l, key.jobid);
  }
}
