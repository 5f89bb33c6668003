/** Whole runs of uploads to any number of projects: the index stays the run-length encoding of
    every project's history, and the author index agrees with the rows for exactly the uploads
    whose authors are all still named in the end. */
module MethodRuns {
  import opened MethodStore
  import opened MethodUpload
  import opened MethodHandler
  import opened MethodHistory
  import opened MethodIndex
  import opened MethodUploads
  import opened MethodAuthors
  import opened Wrappers

  // ----- Other projects

  lemma {:induction false} WorkersLeaveOthers(
    t: Tables, entries: seq<MethodIn>, p: ProjectIn, prev: int, newProject: bool)
    ensures var methods' := AfterMethods(t, entries, p, prev, newProject).methods;
      forall k: MethodKey :: k.project != p.id ==>
        (k in methods' <==> k in t.methods) && (k in methods' ==> methods'[k] == t.methods[k])
  {
    hide Touched, InsertedRow;
    if entries != [] {
      WorkersLeaveOthers(t, entries[..|entries| - 1], p, prev, newProject);
    }
  }

  lemma OthersUntouched(t: Tables, u: Upload, order: seq<MethodIn>, project: int)
    requires Finds(t, u) && project != u.project.id
    ensures var t' := Applied(t, u, order);
      && (forall k: MethodKey :: k.project == project ==>
            (k in t'.methods <==> k in t.methods) && (k in t'.methods ==> t'.methods[k] == t.methods[k]))
      && (forall k: ProjectKey :: k.project == project ==>
            (k in t'.projects <==> k in t.projects) && (k in t'.projects ==> t'.projects[k] == t.projects[k]))
  {
    hide AfterMethods, HashesOf;
    var p := ProjectOf(u);
    ProjectStays(t, u, order);
    WorkersLeaveOthers(t.(projects := InsertProject(t.projects, p)), order, p, Previous(u), u.prev.None?);
  }

  lemma StaysIndexed(h: History, t: Tables, t': Tables, project: int)
    requires IsIndexed(h, t, project)
    requires forall k: MethodKey :: k.project == project ==>
      (k in t'.methods <==> k in t.methods) && (k in t'.methods ==> t'.methods[k] == t.methods[k])
    requires forall k: ProjectKey :: k.project == project ==>
      (k in t'.projects <==> k in t.projects) && (k in t'.projects ==> t'.projects[k] == t.projects[k])
    ensures IsIndexed(h, t', project)
  {
    hide IsRun, Increasing;
    forall k | k in t'.methods && k.project == project ensures exists i, j :: Stands(h, k, t'.methods[k], i, j) {
      var i, j :| Stands(h, k, t.methods[k], i, j);
      assert Stands(h, k, t'.methods[k], i, j);
    }
    forall x, i, j | IsRun(h, x, i, j)
      ensures 0 <= i <= j < |h|
      ensures var k := RowKey(project, x, h[i].version); k in t'.methods && t'.methods[k].end == h[j].version
    {
      RunBounds(h, x, i, j);
      assert RowKey(project, x, h[i].version) in t.methods;
    }
  }

  // ----- Runs

  datatype Event = Received(upload: Upload, order: seq<MethodIn>)

  type Ledger = map<int, History>

  function HistoryOf(ledger: Ledger, project: int): History {
    if project in ledger then ledger[project] else []
  }

  /** An upload that names a version the store does not have is refused and changes nothing.
      Workers finish in any order; a method that is new may be listed any number of times. */
  ghost predicate Allowed(t: Tables, ledger: Ledger, e: Event) {
    && multiset(e.order) == multiset(e.upload.methods)
    && (Finds(t, e.upload) ==>
          var h := HistoryOf(ledger, e.upload.project.id);
          Follows(h, e.upload) && ListsNoOldMemberTwice(h, e.upload))
  }

  ghost predicate Leads(events: seq<Event>, t: Tables, ledger: Ledger) {
    if events == [] then t == Tables(map[], map[], {}) && ledger == map[]
    else
      var e := events[|events| - 1];
      exists t0, l0 :: Leads(events[..|events| - 1], t0, l0) && Allowed(t0, l0, e)
        && (t, ledger) == Next(t0, l0, e)
  }

  function Next(t: Tables, ledger: Ledger, e: Event): (Tables, Ledger) {
    if !Finds(t, e.upload) then (t, ledger)
    else
      var project := e.upload.project.id;
      (Applied(t, e.upload, e.order), ledger[project := Extended(HistoryOf(ledger, project), e.upload)])
  }

  ghost predicate Inv(t: Tables, ledger: Ledger) {
    forall project :: IsIndexed(HistoryOf(ledger, project), t, project)
  }

  lemma StepInv(t: Tables, ledger: Ledger, e: Event)
    requires Inv(t, ledger) && Allowed(t, ledger, e)
    ensures Inv(Next(t, ledger, e).0, Next(t, ledger, e).1)
  {
    hide IsIndexed, Follows, Applied, Extended, Finds, ListsNoOldMemberTwice, AfterMethods;
    if Finds(t, e.upload) {
      var u, id := e.upload, e.upload.project.id;
      var h, t' := HistoryOf(ledger, id), Applied(t, u, e.order);
      UploadIndexed(h, t, u, e.order);
      forall project ensures IsIndexed(HistoryOf(Next(t, ledger, e).1, project), t', project) {
        if project != id {
          assert IsIndexed(HistoryOf(ledger, project), t, project);
          OthersUntouched(t, u, e.order, project);
          StaysIndexed(HistoryOf(ledger, project), t, t', project);
        }
      }
    }
  }

  lemma UploadIndexed(h: History, t: Tables, u: Upload, order: seq<MethodIn>)
    requires IsIndexed(h, t, u.project.id) && Follows(h, u) && Finds(t, u)
    requires multiset(order) == multiset(u.methods) && ListsNoOldMemberTwice(h, u)
    ensures IsIndexed(Extended(h, u), Applied(t, u, order), u.project.id)
  {
    hide RowsAreRuns, HashesAreMembers, Count, Applied, Extended, Increasing;
    LaterThanRows(h, t, u);
    RowsStayRunsIff(h, t, u, order);
    HashesStayMembers(h, t, u, order);
  }

  lemma {:induction false} RunInv(events: seq<Event>, t: Tables, ledger: Ledger)
    requires Leads(events, t, ledger)
    ensures Inv(t, ledger)
    decreases |events|
  {
    hide Allowed, Next, IsIndexed;
    if events == [] {
      EmptyInv();
    } else {
      var e := events[|events| - 1];
      var t0, l0 :| Leads(events[..|events| - 1], t0, l0) && Allowed(t0, l0, e) && (t, ledger) == Next(t0, l0, e);
      RunInv(events[..|events| - 1], t0, l0);
      StepInv(t0, l0, e);
    }
  }

  lemma EmptyInv()
    ensures Inv(Tables(map[], map[], {}), map[])
  {
    forall project ensures IsIndexed([], Tables(map[], map[], {}), project) {}
  }

  // ----- What holds in every run

  /** In every run and for every project: an uploaded version contains a method exactly when a
      row holds it there, that row is the only one, and the stored hashes are those of the
      version's members. */
  lemma IndexRefinesMembership(events: seq<Event>, t: Tables, ledger: Ledger, project: int, n: nat, x: Member)
    requires Leads(events, t, ledger) && project in ledger && n < |ledger[project]|
    ensures var v := ledger[project][n];
      && (x in v.members <==> exists k :: k in t.methods && Holds(k, t.methods[k], project, x, v.version))
      && (forall k, k' ::
            (k in t.methods && k' in t.methods
             && Holds(k, t.methods[k], project, x, v.version) && Holds(k', t.methods[k'], project, x, v.version))
            ==> k == k')
      && ProjectKey(project, v.version) in t.projects
      && t.projects[ProjectKey(project, v.version)].hashes == HashSet(v.members)
  {
    hide Leads, RowsAreRuns, Increasing, Holds;
    RunInv(events, t, ledger);
    assert IsIndexed(HistoryOf(ledger, project), t, project);
    VersionContainsIffOneRowHolds(ledger[project], t.methods, project, x, n);
  }

  /** A run that uploads a method and then a second version that lists it twice: after the
      second upload two rows hold the method at the new version. */
  lemma OldMemberTwiceOverlaps(p: ProjectIn, q: ProjectIn, m: MethodIn)
    requires p.id == q.id && p.version < q.version
    ensures exists t, ledger ::
      && Leads([Received(Upload(p, None, [], [m]), [m])], t, ledger)
      && var u, h := Upload(q, Some(p.version), [], [m, m]), HistoryOf(ledger, p.id);
      && Finds(t, u) && Follows(h, u) && !ListsNoOldMemberTwice(h, u)
      && var methods := Applied(t, u, [m, m]).methods;
      && !RowsAreRuns(Extended(h, u), methods, p.id)
      && var k, k' := Key(m, p, p.version), Key(m, q, q.version);
      && k in methods && k' in methods && k != k'
      && Holds(k, methods[k], p.id, MemberOf(m), q.version) && Holds(k', methods[k'], p.id, MemberOf(m), q.version)
  {
    var u1, u2, x := Upload(p, None, [], [m]), Upload(q, Some(p.version), [], [m, m]), MemberOf(m);
    var t0, l0 := Tables(map[], map[], {}), map[];
    hide Applied, RowsAreRuns, HashesAreMembers, Count, Listed, AddMethod, Finds, Increasing;
    FirstUploadLeads(p, m);
    var (t, ledger) := Next(t0, l0, Received(u1, [m]));
    RunInv([Received(u1, [m])], t, ledger);
    var h := HistoryOf(ledger, p.id);
    assert IsIndexed(h, t, p.id);
    assert h == [Version(p.version, {x})];
    LaterThanRows(h, t, u2);
    CountTwo(m);
    RowsStayRunsIff(h, t, u2, [m, m]);
    StoredOnce(h, t, m, p);
    AppliedRow(h, t, u2, [m, m], Key(m, p, p.version));
    AppliedRow(h, t, u2, [m, m], Key(m, q, q.version));
    IsNewMember(h, u2, x);
  }

  lemma CountTwo(m: MethodIn)
    ensures Count([m], MemberOf(m)) == 1 && Count([m, m], MemberOf(m)) == 2
  {
    CountNext([], m, MemberOf(m));
    CountNext([m], m, MemberOf(m));
    assert [] + [m] == [m] && [m] + [m] == [m, m];
  }

  lemma FirstUploadLeads(p: ProjectIn, m: MethodIn)
    ensures var e := Received(Upload(p, None, [], [m]), [m]);
      var (t, ledger) := Next(Tables(map[], map[], {}), map[], e);
      && Leads([e], t, ledger) && HistoryOf(ledger, p.id) == [Version(p.version, {MemberOf(m)})]
  {
    hide Applied;
    var e := Received(Upload(p, None, [], [m]), [m]);
    var t0, l0: Ledger := Tables(map[], map[], {}), map[];
    var es := [e];
    var (t, ledger) := Next(t0, l0, e);
    assert es[..|es| - 1] == [] && es[|es| - 1] == e;
    assert Leads(es[..|es| - 1], t0, l0) && Allowed(t0, l0, e) && (t, ledger) == Next(t0, l0, e);
    assert NewMembers([], e.upload) == {MemberOf(m)};
    assert Extended([], e.upload) == [Version(p.version, {MemberOf(m)})];
  }

  lemma StoredOnce(h: History, t: Tables, m: MethodIn, p: ProjectIn)
    requires h == [Version(p.version, {MemberOf(m)})] && RowsAreRuns(h, t.methods, p.id)
    ensures Key(m, p, p.version) in t.methods && t.methods[Key(m, p, p.version)].end == p.version
  {
    assert IsRun(h, MemberOf(m), 0, 0);
    assert RowKey(p.id, MemberOf(m), h[0].version) == Key(m, p, p.version);
  }

  // ----- The author index over runs

  /** A run in which every author an upload names is still named in the end. */
  ghost predicate LeadsNamed(events: seq<Event>, t: Tables, ledger: Ledger) {
    if events == [] then t == Tables(map[], map[], {}) && ledger == map[]
    else
      var e := events[|events| - 1];
      exists t0, l0 :: LeadsNamed(events[..|events| - 1], t0, l0) && Allowed(t0, l0, e)
        && (Finds(t0, e.upload) ==> AuthorsAreNamed(t0, e.upload, e.order)) && (t, ledger) == Next(t0, l0, e)
  }

  lemma {:induction false} NamedRun(events: seq<Event>, t: Tables, ledger: Ledger)
    requires LeadsNamed(events, t, ledger)
    ensures Leads(events, t, ledger) && AuthorsAgree(t)
    decreases |events|
  {
    hide Allowed, Next, AuthorsAgree, Finds, AuthorsAreNamed;
    if events == [] {
      NothingIndexed(0);
    } else {
      var e := events[|events| - 1];
      var t0, l0 :| LeadsNamed(events[..|events| - 1], t0, l0) && Allowed(t0, l0, e)
        && (Finds(t0, e.upload) ==> AuthorsAreNamed(t0, e.upload, e.order)) && (t, ledger) == Next(t0, l0, e);
      NamedRun(events[..|events| - 1], t0, l0);
      NextAgreesIff(events[..|events| - 1], t0, l0, e);
    }
  }

  /** After a run in which the author index agrees, the next upload keeps it in agreement if
      and only if it is refused or every author it names is still named in the end. */
  lemma NextAgreesIff(events: seq<Event>, t: Tables, ledger: Ledger, e: Event)
    requires Leads(events, t, ledger) && Allowed(t, ledger, e) && AuthorsAgree(t)
    ensures AuthorsAgree(Next(t, ledger, e).0) <==> (Finds(t, e.upload) ==> AuthorsAreNamed(t, e.upload, e.order))
  {
    hide Leads, AuthorsAgree, IsIndexed, Applied, Finds, AuthorsAreNamed;
    RunInv(events, t, ledger);
    if Finds(t, e.upload) {
      var h := HistoryOf(ledger, e.upload.project.id);
      assert IsIndexed(h, t, e.upload.project.id);
      UploadAgreesIff(h, t, e.upload, e.order);
    }
  }

  /** In every such run each author entry belongs to exactly one row, which lists the author,
      and every author of a row has an entry that belongs to it. */
  lemma AuthorIndexAgrees(events: seq<Event>, t: Tables, ledger: Ledger)
    requires LeadsNamed(events, t, ledger)
    ensures forall e :: e in t.byAuthor ==> HasRow(t.methods, e)
    ensures forall e, k, k' :: (e in t.byAuthor && k in t.methods && k' in t.methods
      && IsRowOf(k, t.methods[k], e) && IsRowOf(k', t.methods[k'], e)) ==> k == k'
    ensures forall k, a :: k in t.methods && a in t.methods[k].authors ==> HasEntry(t.byAuthor, k, t.methods[k], a)
  {
    hide LeadsNamed, Leads, HasRow, HasEntry, RowsAreRuns, Increasing;
    NamedRun(events, t, ledger);
    RunInv(events, t, ledger);
    forall e, k, k' | e in t.byAuthor && k in t.methods && k' in t.methods
      && IsRowOf(k, t.methods[k], e) && IsRowOf(k', t.methods[k'], e)
      ensures k == k'
    {
      var h := HistoryOf(ledger, e.project);
      assert IsIndexed(h, t, e.project);
      RowsAreDisjoint(h, t.methods, e.project, RowMember(k), k, k', e.start);
    }
  }
}
