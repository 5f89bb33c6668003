/** The columns of the tables over whole runs, from the uploads alone: what a row says about its
    first and last version, its name, line, authors and vulnerability code, and what a project
    version says about itself. */
module MethodColumns {
  import opened MethodStore
  import opened MethodUpload
  import opened MethodHandler
  import opened MethodHistory
  import opened MethodIndex
  import opened MethodRows
  import opened MethodUploads
  import opened MethodRuns
  import opened Wrappers

  // ----- The uploads of a project

  /** An upload is accepted if it names no previous version or one that was accepted. */
  predicate IsAccepted(log: seq<Event>, u: Upload) {
    u.prev.None? || exists i :: 0 <= i < |log| && log[i].upload.project.version == u.prev.value
  }

  /** The accepted uploads of a project, in order. */
  function Accepted(events: seq<Event>, project: int): seq<Event> {
    if events == [] then []
    else
      var e, log := events[|events| - 1], Accepted(events[..|events| - 1], project);
      if e.upload.project.id == project && IsAccepted(log, e.upload) then log + [e] else log
  }

  /** All that some uploads list, in the order the workers finished. */
  function Listings(log: seq<Event>): seq<MethodIn> {
    if log == [] then [] else Listings(log[..|log| - 1]) + log[|log| - 1].order
  }

  function AuthorsIn(entries: seq<MethodIn>, x: Member): set<AuthorID> {
    set m, a | m in entries && MemberOf(m) == x && a in m.authors :: a
  }

  // ----- What a row says

  /** The row began with upload i of the log and was last extended or renewed by upload j. */
  ghost predicate Describes(log: seq<Event>, i: nat, j: nat, k: MethodKey, row: MethodRow) {
    && i <= j < |log|
    && var x, first, last := RowMember(k), log[i].upload.project, log[j].upload.project;
    && first.version == k.start && row.startHash == first.versionHash && row.parserVersion == first.parserVersion
    && last.version == row.end && row.endHash == last.versionHash
    && Count(log[i].order, x) > 0 && Count(Listings(log[i..j + 1]), x) > 0
    && row.name == LastOf(Listings(log[i..j + 1]), x).name
    && row.line == LastOf(Listings(log[i..j + 1]), x).line
    && row.vulnCode == CodeOf(log[i].order, x, false)
    && row.authors == ToSet(LastOf(log[i].order, x).authors) + AuthorsIn(Listings(log[i + 1..j + 1]), x)
  }

  ghost predicate RowsAreDescribed(log: seq<Event>, methods: map<MethodKey, MethodRow>, project: int) {
    forall k :: k in methods && k.project == project ==> exists i, j :: Describes(log, i, j, k, methods[k])
  }

  /** Every accepted upload is stored with what it says about the version. */
  ghost predicate ProjectsAreDescribed(log: seq<Event>, projects: map<ProjectKey, ProjectRow>, project: int) {
    forall i :: 0 <= i < |log| ==>
      var p := log[i].upload.project;
      && ProjectKey(project, p.version) in projects
      && var row := projects[ProjectKey(project, p.version)];
      && row.versionHash == p.versionHash && row.license == p.license && row.name == p.name && row.url == p.url
      && row.owner == p.owner && row.parserVersion == p.parserVersion
  }

  /** The log has the versions of the history. */
  ghost predicate IsLog(log: seq<Event>, h: History) {
    |log| == |h| && forall i :: 0 <= i < |h| ==> log[i].upload.project.version == h[i].version
  }

  /** Upload n leaves x in the version: some upload up to n listed it, and every later one named
      its file unchanged. */
  ghost predicate IsKept(log: seq<Event>, n: int, x: Member) {
    0 <= n < |log|
    && exists i :: 0 <= i <= n && Count(log[i].order, x) > 0
         && forall m :: i < m <= n ==> x.1 in log[m].upload.unchangedFiles
  }

  ghost predicate MembersAreKept(log: seq<Event>, h: History) {
    |log| == |h| && forall n, x :: 0 <= n < |h| ==> (x in h[n].members <==> IsKept(log, n, x))
  }

  ghost predicate Inv(t: Tables, h: History, log: seq<Event>, project: int) {
    && IsLog(log, h) && MembersAreKept(log, h)
    && RowsAreDescribed(log, t.methods, project) && ProjectsAreDescribed(log, t.projects, project)
  }

  // ----- Listings

  lemma {:induction false} CountAppend(a: seq<MethodIn>, b: seq<MethodIn>, x: Member)
    ensures Count(a + b, x) == Count(a, x) + Count(b, x)
    ensures Count(a + b, x) > 0 ==> LastOf(a + b, x) == if Count(b, x) > 0 then LastOf(b, x) else LastOf(a, x)
  {
    hide Count, LastOf;
    if b == [] {
      assert a + b == a;
      CountNone(x);
    } else {
      var n := |b| - 1;
      CountAppend(a, b[..n], x);
      assert a + b == (a + b[..n]) + [b[n]] && b == b[..n] + [b[n]];
      ListingsNext(a + b[..n], b[n], x);
      ListingsNext(b[..n], b[n], x);
    }
  }

  lemma CountNone(x: Member)
    ensures Count([], x) == 0
  {
  }

  lemma NextListings(log: seq<Event>, e: Event, i: nat)
    requires i <= |log|
    ensures Listings((log + [e])[i..|log| + 1]) == Listings(log[i..|log|]) + e.order
  {
    var all := (log + [e])[i..|log| + 1];
    assert all[..|all| - 1] == log[i..|log|] && all[|all| - 1] == e;
  }

  lemma AuthorsAppend(a: seq<MethodIn>, b: seq<MethodIn>, x: Member)
    ensures AuthorsIn(a + b, x) == AuthorsIn(a, x) + AuthorsIn(b, x)
  {
    forall y ensures y in AuthorsIn(a + b, x) <==> y in AuthorsIn(a, x) + AuthorsIn(b, x) {
    }
  }

  lemma AuthorsUnlisted(entries: seq<MethodIn>, x: Member)
    requires Count(entries, x) == 0
    ensures AuthorsIn(entries, x) == {}
  {
    CountPositive(entries, x);
  }

  lemma AuthorsListedOnce(entries: seq<MethodIn>, x: Member)
    requires Count(entries, x) == 1
    ensures AuthorsIn(entries, x) == ToSet(FirstOf(entries, x).authors) && FirstOf(entries, x) == LastOf(entries, x)
  {
    ListingsAre(entries, x);
    forall m | m in entries && MemberOf(m) == x ensures m == LastOf(entries, x) {
      OneListing(entries, x, m);
    }
  }

  lemma {:induction false} OneListing(entries: seq<MethodIn>, x: Member, m: MethodIn)
    requires Count(entries, x) == 1 && m in entries && MemberOf(m) == x
    ensures m == LastOf(entries, x)
  {
    var n := |entries| - 1;
    assert entries == entries[..n] + [entries[n]];
    CountPositive(entries[..n], x);
    if MemberOf(entries[n]) != x {
      OneListing(entries[..n], x, m);
    }
  }

  // ----- One upload, one row

  /** The row is as it was, and so is what describes it. */
  lemma SameRow(log: seq<Event>, e: Event, k: MethodKey, row: MethodRow, i: nat, j: nat)
    requires Describes(log, i, j, k, row)
    ensures Describes(log + [e], i, j, k, row)
  {
    var log' := log + [e];
    assert log'[i..j + 1] == log[i..j + 1] && log'[i + 1..j + 1] == log[i + 1..j + 1];
  }

  /** A row that the upload starts. */
  lemma StartedRow(log: seq<Event>, e: Event, k: MethodKey, row: MethodRow)
    requires var x, p := RowMember(k), e.upload.project;
      && Count(e.order, x) > 0 && k.start == p.version && row.startHash == p.versionHash && row.end == p.version
      && row.endHash == p.versionHash && row.parserVersion == p.parserVersion
      && row.name == LastOf(e.order, x).name && row.line == LastOf(e.order, x).line
      && row.authors == ToSet(LastOf(e.order, x).authors) && row.vulnCode == CodeOf(e.order, x, false)
    ensures Describes(log + [e], |log|, |log|, k, row)
  {
    hide Count, LastOf, CodeOf;
    var n := |log|;
    NextListings(log, e, n);
    assert log[n..n] == [] && (log + [e])[n + 1..n + 1] == [] && Listings([]) == [];
    assert Listings((log + [e])[n..n + 1]) == e.order;
  }

  /** A row of the previous version that the upload lists once. */
  lemma ExtendedRow(log: seq<Event>, e: Event, k: MethodKey, row: MethodRow, row': MethodRow, i: nat)
    requires log != [] && Describes(log, i, |log| - 1, k, row)
    requires var x, p := RowMember(k), e.upload.project;
      && Count(e.order, x) == 1 && row'.end == p.version && row'.endHash == p.versionHash
      && row'.startHash == row.startHash && row'.parserVersion == row.parserVersion && row'.vulnCode == row.vulnCode
      && row'.name == FirstOf(e.order, x).name && row'.line == FirstOf(e.order, x).line
      && row'.authors == row.authors + ToSet(FirstOf(e.order, x).authors)
    ensures Describes(log + [e], i, |log|, k, row')
  {
    hide Count, LastOf, FirstOf, CodeOf, Listings, AuthorsIn, ToSet;
    var x, n := RowMember(k), |log|;
    NextListings(log, e, i);
    NextListings(log, e, i + 1);
    CountAppend(Listings(log[i..n]), e.order, x);
    AuthorsAppend(Listings(log[i + 1..n]), e.order, x);
    AuthorsListedOnce(e.order, x);
  }

  /** A row of the previous version that the upload does not list but renews. */
  lemma RenewedRow(log: seq<Event>, e: Event, k: MethodKey, row: MethodRow, row': MethodRow, i: nat)
    requires log != [] && Describes(log, i, |log| - 1, k, row)
    requires Count(e.order, RowMember(k)) == 0
    requires row' == row.(end := e.upload.project.version, endHash := e.upload.project.versionHash)
    ensures Describes(log + [e], i, |log|, k, row')
  {
    hide Count, LastOf, FirstOf, CodeOf, Listings, AuthorsIn, ToSet;
    var x, n := RowMember(k), |log|;
    NextListings(log, e, i);
    NextListings(log, e, i + 1);
    CountAppend(Listings(log[i..n]), e.order, x);
    AuthorsAppend(Listings(log[i + 1..n]), e.order, x);
    AuthorsUnlisted(e.order, x);
  }

  // ----- One upload

  /** What the workers and the renewal leave of one row. */
  lemma AppliedColumns(h: History, t: Tables, u: Upload, order: seq<MethodIn>, k: MethodKey)
    requires IsIndexed(h, t, u.project.id) && Follows(h, u) && Finds(t, u)
    requires k in Applied(t, u, order).methods && k.project == u.project.id
    ensures var p, now := ProjectOf(u), Listed(t, u, order).methods;
      && k in now && IsRowAfter(t.methods, k, now[k], order, p, Previous(u), u.prev.None?)
      && var row' := Applied(t, u, order).methods[k];
      && (row' == now[k]
          || (u.prev.Some? && now[k].end == u.prev.value
              && row' == now[k].(end := u.project.version, endHash := u.project.versionHash)))
  {
    hide IsRowAfter, Listed, RowsAreRuns, HashesAreMembers, Increasing;
    LaterThanRows(h, t, u);
    WorkersWriteListed(h, t, u, order);
  }

  lemma WorkersWriteListed(h: History, t: Tables, u: Upload, order: seq<MethodIn>)
    requires IsIndexed(h, t, u.project.id) && Follows(h, u)
    ensures RowsAre(t.methods, Listed(t, u, order).methods, order, ProjectOf(u), Previous(u), u.prev.None?)
  {
    hide RowsAre, IsIndexed;
    var p := ProjectOf(u);
    LaterThanRows(h, t, u);
    WorkersWriteRows(t.(projects := InsertProject(t.projects, p)), order, p, Previous(u), u.prev.None?);
  }

  /** What describes a row of the previous version reaches to the end of the log. */
  lemma EndsAtLast(h: History, log: seq<Event>, u: Upload, k: MethodKey, row: MethodRow, i: nat, j: nat)
    requires IsLog(log, h) && Increasing(h) && Follows(h, u) && u.prev.Some? && row.end == u.prev.value
    requires Describes(log, i, j, k, row)
    ensures log != [] && j == |log| - 1
  {
  }

  lemma RowStaysDescribed(h: History, t: Tables, log: seq<Event>, e: Event, k: MethodKey)
    requires var u := e.upload; IsIndexed(h, t, u.project.id) && Follows(h, u) && Finds(t, u)
    requires multiset(e.order) == multiset(e.upload.methods) && ListsNoOldMemberTwice(h, e.upload)
    requires IsLog(log, h) && RowsAreDescribed(log, t.methods, e.upload.project.id)
    requires k in Applied(t, e.upload, e.order).methods && k.project == e.upload.project.id
    ensures exists i, j :: Describes(log + [e], i, j, k, Applied(t, e.upload, e.order).methods[k])
  {
    hide Applied, Listed, Describes, RowsAreRuns, HashesAreMembers, Count, Continues, Increasing, FirstOf, LastOf,
      CodeOf;
    var u, x, n := e.upload, RowMember(k), |log|;
    var p, now, row' := ProjectOf(u), Listed(t, u, e.order).methods, Applied(t, u, e.order).methods[k];
    AppliedColumns(h, t, u, e.order, k);
    LaterThanRows(h, t, u);
    ContinuesIffMember(h, t, u, x);
    CountInAnyOrder(e.order, u.methods, x);
    if k !in t.methods {
      StartedRow(log, e, k, row');
      assert Describes(log + [e], n, n, k, row');
    } else {
      var row := t.methods[k];
      var i, j :| Describes(log, i, j, k, row);
      HitContinues(t.methods, k, p.id, Previous(u), u.prev.None?);
      if IsHit(t.methods, k, e.order, p.id, Previous(u), u.prev.None?) {
        EndsAtLast(h, log, u, k, row, i, j);
        ExtendedRow(log, e, k, row, row', i);
        assert Describes(log + [e], i, n, k, row');
      } else if row' == row {
        SameRow(log, e, k, row, i, j);
        assert Describes(log + [e], i, j, k, row');
      } else {
        EndsAtLast(h, log, u, k, row, i, j);
        RenewedRow(log, e, k, row, row', i);
        assert Describes(log + [e], i, n, k, row');
      }
    }
  }

  lemma ProjectsStayDescribed(h: History, t: Tables, log: seq<Event>, e: Event)
    requires var u := e.upload; IsIndexed(h, t, u.project.id) && Follows(h, u) && Finds(t, u)
    requires IsLog(log, h) && ProjectsAreDescribed(log, t.projects, e.upload.project.id)
    ensures ProjectsAreDescribed(log + [e], Applied(t, e.upload, e.order).projects, e.upload.project.id)
  {
    hide RowsAreRuns, HashesAreMembers, Listed, HashesOf;
    ProjectStays(t, e.upload, e.order);
  }

  lemma StillLog(h: History, log: seq<Event>, e: Event)
    requires IsLog(log, h)
    ensures IsLog(log + [e], Extended(h, e.upload))
  {
  }

  lemma KeptBefore(log: seq<Event>, e: Event, n: int, x: Member)
    requires n < |log|
    ensures IsKept(log + [e], n, x) <==> IsKept(log, n, x)
  {
    if n >= 0 {
      assert forall i :: 0 <= i <= n ==> (log + [e])[i] == log[i];
    }
  }

  lemma KeptNext(log: seq<Event>, e: Event, x: Member)
    ensures IsKept(log + [e], |log|, x)
       <==> Count(e.order, x) > 0 || (IsKept(log, |log| - 1, x) && x.1 in e.upload.unchangedFiles)
  {
    hide Count;
    var log', n := log + [e], |log|;
    assert forall m :: 0 <= m < n ==> log'[m] == log[m];
    if Count(e.order, x) > 0 {
      assert Count(log'[n].order, x) > 0;
    } else if IsKept(log, n - 1, x) && x.1 in e.upload.unchangedFiles {
      var i :| 0 <= i <= n - 1 && Count(log[i].order, x) > 0
        && forall m :: i < m <= n - 1 ==> x.1 in log[m].upload.unchangedFiles;
      assert log'[i] == log[i];
    }
  }

  lemma MembersStayKept(h: History, log: seq<Event>, e: Event)
    requires MembersAreKept(log, h) && Follows(h, e.upload) && multiset(e.order) == multiset(e.upload.methods)
    ensures MembersAreKept(log + [e], Extended(h, e.upload))
  {
    hide IsKept, Count, NewMembers;
    var log', h' := log + [e], Extended(h, e.upload);
    forall n, x | 0 <= n < |h'| ensures x in h'[n].members <==> IsKept(log', n, x) {
      if n < |h| {
        KeptBefore(log, e, n, x);
      } else {
        KeptNext(log, e, x);
        IsNewMember(h, e.upload, x);
        CountInAnyOrder(e.order, e.upload.methods, x);
        NothingKept(log, x);
      }
    }
  }

  lemma NothingKept(log: seq<Event>, x: Member)
    ensures log == [] ==> !IsKept(log, -1, x)
  {
  }

  lemma AcceptsWhatItFinds(h: History, t: Tables, log: seq<Event>, u: Upload)
    requires IsIndexed(h, t, u.project.id) && IsLog(log, h)
    ensures Finds(t, u) <==> IsAccepted(log, u)
  {
    hide RowsAreRuns, Increasing, HashSet;
    if Finds(t, u) && u.prev.Some? {
      var i :| 0 <= i < |h| && h[i].version == u.prev.value;
      assert log[i].upload.project.version == u.prev.value;
    }
  }

  // ----- Runs

  lemma NextAccepted(events: seq<Event>, e: Event, project: int)
    ensures var log := Accepted(events, project);
      Accepted(events + [e], project)
      == if e.upload.project.id == project && IsAccepted(log, e.upload) then log + [e] else log
  {
    assert (events + [e])[..|events|] == events;
  }

  lemma OtherProject(t: Tables, u: Upload, order: seq<MethodIn>, h: History, log: seq<Event>, project: int)
    requires Finds(t, u) && project != u.project.id && Inv(t, h, log, project)
    ensures Inv(Applied(t, u, order), h, log, project)
  {
    hide Applied, Describes;
    OthersUntouched(t, u, order, project);
  }

  lemma OneUpload(h: History, t: Tables, log: seq<Event>, e: Event)
    requires var u := e.upload; IsIndexed(h, t, u.project.id) && Follows(h, u) && Finds(t, u)
    requires multiset(e.order) == multiset(e.upload.methods) && ListsNoOldMemberTwice(h, e.upload)
    requires Inv(t, h, log, e.upload.project.id)
    ensures Inv(Applied(t, e.upload, e.order), Extended(h, e.upload), log + [e], e.upload.project.id)
  {
    hide Applied, IsIndexed, Follows, Finds, ListsNoOldMemberTwice, Describes, IsLog, MembersAreKept,
      ProjectsAreDescribed, Extended;
    StillLog(h, log, e);
    MembersStayKept(h, log, e);
    ProjectsStayDescribed(h, t, log, e);
    forall k | k in Applied(t, e.upload, e.order).methods && k.project == e.upload.project.id
      ensures exists i, j :: Describes(log + [e], i, j, k, Applied(t, e.upload, e.order).methods[k])
    {
      RowStaysDescribed(h, t, log, e, k);
    }
  }

  /** In every run, for every project, the tables say what its accepted uploads said. */
  lemma {:induction false} ColumnsInv(events: seq<Event>, t: Tables, ledger: Ledger, project: int)
    requires Leads(events, t, ledger)
    ensures Inv(t, HistoryOf(ledger, project), Accepted(events, project), project)
    decreases |events|
  {
    hide Allowed, Next, Applied, IsIndexed, Inv, MethodRuns.Inv, Accepted, IsAccepted, Extended;
    if events == [] {
      NoColumns(project);
    } else {
      var front, e := events[..|events| - 1], events[|events| - 1];
      var t0, l0 :| Leads(front, t0, l0) && Allowed(t0, l0, e) && (t, ledger) == Next(t0, l0, e);
      ColumnsInv(front, t0, l0, project);
      ColumnsStep(front, t0, l0, e, project);
      assert front + [e] == events;
    }
  }

  lemma NoColumns(project: int)
    ensures Inv(Tables(map[], map[], {}), HistoryOf(map[], project), Accepted([], project), project)
  {
  }

  lemma ColumnsStep(events: seq<Event>, t: Tables, ledger: Ledger, e: Event, project: int)
    requires Leads(events, t, ledger) && Allowed(t, ledger, e)
    requires Inv(t, HistoryOf(ledger, project), Accepted(events, project), project)
    ensures var (t', ledger') := Next(t, ledger, e);
      Inv(t', HistoryOf(ledger', project), Accepted(events + [e], project), project)
  {
    hide Leads, Applied, IsIndexed, Accepted, IsAccepted, Extended, Finds, Follows, ListsNoOldMemberTwice,
      RowsAreDescribed, ProjectsAreDescribed, IsLog, MembersAreKept;
    var u, log, h := e.upload, Accepted(events, project), HistoryOf(ledger, project);
    NextAccepted(events, e, project);
    RunInv(events, t, ledger);
    assert IsIndexed(h, t, project);
    if u.project.id == project {
      AcceptsWhatItFinds(h, t, log, u);
      if Finds(t, u) {
        OneUpload(h, t, log, e);
      }
    } else if Finds(t, u) {
      OtherProject(t, u, e.order, h, log, project);
    }
  }

  /** In every run each row says, of the upload of its first version, the hash and the parser's
      version and the vulnerability code; of the upload of its last version, the hash; of the
      last upload in between that lists the method, name and line; and its authors are those
      the first upload leaves and all that later ones name. */
  lemma RowsSayWhatUploadsSaid(events: seq<Event>, t: Tables, ledger: Ledger, k: MethodKey)
    requires Leads(events, t, ledger) && k in t.methods
    ensures exists i, j :: Describes(Accepted(events, k.project), i, j, k, t.methods[k])
  {
    hide Leads, Accepted, Describes;
    ColumnsInv(events, t, ledger, k.project);
  }

  /** In every run each accepted upload is stored with its hash, license, name, url, owner and
      parser version. */
  lemma ProjectsSayWhatUploadsSaid(events: seq<Event>, t: Tables, ledger: Ledger, project: int)
    requires Leads(events, t, ledger)
    ensures ProjectsAreDescribed(Accepted(events, project), t.projects, project)
  {
    hide Leads, Accepted, ProjectsAreDescribed;
    ColumnsInv(events, t, ledger, project);
  }

  /** In every run the rows hold a method at the version of an accepted upload exactly when some
      upload up to then listed it and every later one named its file unchanged; and the hashes
      stored for the version are those of such methods. */
  lemma VersionsHoldWhatUploadsSaid(events: seq<Event>, t: Tables, ledger: Ledger, project: int, n: nat)
    requires Leads(events, t, ledger) && n < |Accepted(events, project)|
    ensures var log := Accepted(events, project);
      var version := log[n].upload.project.version;
      && (forall x :: IsKept(log, n, x) <==>
            exists k :: k in t.methods && Holds(k, t.methods[k], project, x, version))
      && ProjectKey(project, version) in t.projects
      && forall g :: g in t.projects[ProjectKey(project, version)].hashes <==>
           exists x: Member :: x.0 == g && IsKept(log, n, x)
  {
    hide Leads, Accepted, Holds, IsKept, RowsAreDescribed, ProjectsAreDescribed;
    ColumnsInv(events, t, ledger, project);
    var log, h := Accepted(events, project), HistoryOf(ledger, project);
    forall x ensures IsKept(log, n, x) <==>
      exists k :: k in t.methods && Holds(k, t.methods[k], project, x, h[n].version)
    {
      IndexRefinesMembership(events, t, ledger, project, n, x);
    }
    IndexRefinesMembership(events, t, ledger, project, n, ("", ""));
    HashesAreKept(log, h, n);
  }

  lemma HashesAreKept(log: seq<Event>, h: History, n: nat)
    requires MembersAreKept(log, h) && n < |h|
    ensures forall g :: g in HashSet(h[n].members) <==> exists x: Member :: x.0 == g && IsKept(log, n, x)
  {
    hide IsKept;
    forall g ensures g in HashSet(h[n].members) <==> exists x: Member :: x.0 == g && IsKept(log, n, x) {
      if x: Member :| x.0 == g && IsKept(log, n, x) {
        assert x in h[n].members;
      }
      if g in HashSet(h[n].members) {
        var x :| x in h[n].members && x.0 == g;
        assert IsKept(log, n, x);
      }
    }
  }
}
