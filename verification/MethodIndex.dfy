/** One upload keeps the rows the run-length encoding of the history, exactly unless a method
    of the previous version is listed twice; and the stored hashes are those of the members. */
module MethodIndex {
  import opened MethodStore
  import opened MethodUpload
  import opened MethodHandler
  import opened MethodHistory

  function Count(entries: seq<MethodIn>, x: Member): nat {
    if entries == [] then 0
    else Count(entries[..|entries| - 1], x) + if MemberOf(entries[|entries| - 1]) == x then 1 else 0
  }

  // ----- Extending the encoding by one version

  ghost predicate IsNewRow(k: MethodKey, last: set<Member>, v: Version) {
    k.start == v.version && RowMember(k) in v.members && RowMember(k) !in last
  }

  /** The rows that end with version prev end with the new version instead if their method is
      still there, and every method that was not there before gets a row of its own. */
  ghost predicate IsNext(
    methods: map<MethodKey, MethodRow>, methods': map<MethodKey, MethodRow>, project: int,
    last: set<Member>, prev: int, v: Version)
  {
    && (forall k: MethodKey :: k.project == project ==>
          (k in methods' <==> k in methods || IsNewRow(k, last, v)))
    && (forall k :: k in methods' && k.project == project ==>
          methods'[k].end
          == if k in methods && !(methods[k].end == prev && RowMember(k) in last * v.members)
             then methods[k].end else v.version)
  }

  lemma NextRun(h: History, v: Version, x: Member, i: int, j: int)
    ensures j < |h| - 1 ==> (IsRun(h + [v], x, i, j) <==> IsRun(h, x, i, j))
    ensures j == |h| - 1 ==> (IsRun(h + [v], x, i, j) <==> IsRun(h, x, i, j) && x !in v.members)
    ensures j == |h| && i < |h| ==> (IsRun(h + [v], x, i, j) <==> IsRun(h, x, i, j - 1) && x in v.members)
    ensures IsRun(h + [v], x, |h|, |h|) <==> x in v.members && x !in Last(h)
  {
    var h' := h + [v];
    assert forall n :: n < |h| ==> (Contains(h', n, x) <==> Contains(h, n, x));
    assert Contains(h', |h|, x) <==> x in v.members;
    assert Contains(h', |h| - 1, x) <==> x in Last(h);
    assert !Contains(h', |h| + 1, x) && !Contains(h, |h|, x);
  }

  lemma NextStands(
    h: History, v: Version, methods: map<MethodKey, MethodRow>, methods': map<MethodKey, MethodRow>, project: int,
    prev: int, k: MethodKey)
    requires Increasing(h + [v]) && RowsAreRuns(h, methods, project)
    requires h != [] ==> prev == h[|h| - 1].version
    requires IsNext(methods, methods', project, Last(h), prev, v)
    requires k in methods' && k.project == project
    ensures exists i, j :: Stands(h + [v], k, methods'[k], i, j)
  {
    hide IsRun;
    var x, h' := RowMember(k), h + [v];
    if k in methods {
      var i, j :| Stands(h, k, methods[k], i, j);
      RunBounds(h, x, i, j);
      NextRun(h, v, x, i, j);
      NextRun(h, v, x, i, |h|);
      IncreasingPrefix(h, v);
      if methods[k].end == prev && x in v.members {
        assert Stands(h', k, methods'[k], i, |h|);
      } else {
        assert Stands(h', k, methods'[k], i, j);
      }
    } else {
      NextRun(h, v, x, |h|, |h|);
      assert Stands(h', k, methods'[k], |h|, |h|);
    }
  }

  lemma IncreasingPrefix(h: History, v: Version)
    requires Increasing(h + [v])
    ensures Increasing(h)
    ensures forall i :: 0 <= i < |h| ==> (h + [v])[i] == h[i] && h[i].version < v.version
    ensures forall i :: 0 <= i < |h| - 1 ==> h[i].version < h[|h| - 1].version
  {
    var h' := h + [v];
    assert forall i :: 0 <= i < |h| ==> h'[i] == h[i];
    assert h'[|h|] == v;
  }

  lemma RunBounds(h: History, x: Member, i: int, j: int)
    requires IsRun(h, x, i, j)
    ensures 0 <= i <= j < |h| && (j == |h| - 1 ==> x in Last(h))
  {
    assert Contains(h, j, x);
  }

  lemma NextIsStored(
    h: History, v: Version, methods: map<MethodKey, MethodRow>, methods': map<MethodKey, MethodRow>, project: int,
    prev: int, x: Member, i: int, j: int)
    requires Increasing(h + [v]) && RowsAreRuns(h, methods, project)
    requires h != [] ==> prev == h[|h| - 1].version
    requires IsNext(methods, methods', project, Last(h), prev, v)
    requires IsRun(h + [v], x, i, j)
    ensures var k := RowKey(project, x, (h + [v])[i].version); k in methods' && methods'[k].end == (h + [v])[j].version
  {
    hide IsRun, Increasing;
    var h' := h + [v];
    IncreasingPrefix(h, v);
    RunBounds(h', x, i, j);
    var k := RowKey(project, x, h'[i].version);
    NextRun(h, v, x, i, j);
    if j < |h| {
      assert IsRun(h, x, i, j);
    } else if i < |h| {
      assert IsRun(h, x, i, |h| - 1);
      RunBounds(h, x, i, |h| - 1);
      assert k in methods && methods[k].end == prev;
    } else {
      if k in methods {
        RowsEndBy(h, methods, project, k);
        assert false;
      }
    }
  }

  lemma NextIsRuns(
    h: History, v: Version, methods: map<MethodKey, MethodRow>, methods': map<MethodKey, MethodRow>, project: int,
    prev: int)
    requires Increasing(h + [v]) && RowsAreRuns(h, methods, project)
    requires h != [] ==> prev == h[|h| - 1].version
    requires IsNext(methods, methods', project, Last(h), prev, v)
    ensures RowsAreRuns(h + [v], methods', project)
  {
    hide IsRun, IsNext, Increasing, Stands;
    var h' := h + [v];
    forall k | k in methods' && k.project == project ensures exists i, j :: Stands(h', k, methods'[k], i, j) {
      NextStands(h, v, methods, methods', project, prev, k);
    }
    forall x, i, j | IsRun(h', x, i, j)
      ensures 0 <= i <= j < |h'|
      ensures var k := RowKey(project, x, h'[i].version); k in methods' && methods'[k].end == h'[j].version
    {
      RunBounds(h', x, i, j);
      NextIsStored(h, v, methods, methods', project, prev, x, i, j);
    }
  }

  // ----- What the workers leave behind

  /** Some row of x ends with the previous version, so that listing x extends it. */
  ghost predicate Continues(
    methods: map<MethodKey, MethodRow>, project: int, x: Member, prev: int, newProject: bool)
  {
    !newProject
    && exists k :: k in methods && k.project == project && RowMember(k) == x && methods[k].end == prev
  }

  ghost predicate IsHit(
    methods: map<MethodKey, MethodRow>, k: MethodKey, entries: seq<MethodIn>, project: int, prev: int, newProject: bool)
  {
    && k in methods && k.project == project && !newProject && methods[k].end == prev
    && Count(entries, RowMember(k)) > 0
  }

  /** A method that continues is only given a new row when it is listed a second time. */
  ghost predicate IsStarted(
    methods: map<MethodKey, MethodRow>, k: MethodKey, entries: seq<MethodIn>, p: ProjectIn, prev: int, newProject: bool)
  {
    && k.project == p.id && k.start == p.version
    && var x := RowMember(k);
       Count(entries, x) >= if Continues(methods, p.id, x, prev, newProject) then 2 else 1
  }

  ghost predicate IsAfter(
    methods: map<MethodKey, MethodRow>, methods': map<MethodKey, MethodRow>, entries: seq<MethodIn>,
    p: ProjectIn, prev: int, newProject: bool)
  {
    && (forall k :: k in methods' <==> k in methods || IsStarted(methods, k, entries, p, prev, newProject))
    && (forall k :: k in methods' ==>
          methods'[k].end
          == if k in methods && !IsHit(methods, k, entries, p.id, prev, newProject) then methods[k].end else p.version)
  }

  /** The new version is later than any row of the project. */
  ghost predicate IsLater(methods: map<MethodKey, MethodRow>, p: ProjectIn) {
    forall k :: k in methods && k.project == p.id ==> k.start <= methods[k].end < p.version
  }

  lemma CountNext(entries: seq<MethodIn>, m: MethodIn, x: Member)
    ensures Count(entries + [m], x) == Count(entries, x) + if MemberOf(m) == x then 1 else 0
  {
    assert (entries + [m])[..|entries|] == entries;
  }

  lemma AddedIsAfter(
    t: Tables, now: Tables, entries: seq<MethodIn>, m: MethodIn, p: ProjectIn, prev: int, newProject: bool)
    requires IsLater(t.methods, p) && (!newProject ==> prev < p.version)
    requires IsAfter(t.methods, now.methods, entries, p, prev, newProject)
    ensures IsAfter(t.methods, AddMethod(now, m, p, prev, p.parserVersion, newProject).methods, entries + [m], p,
                    prev, newProject)
  {
    hide IsAfter, IsLater, Continues, Count, Touched, InsertedRow;
    ExtendsWhat(t, now, entries, m, p, prev, newProject);
    var keys := Extends(now, m, p, prev, newProject);
    if keys == {} {
      InsertEnds(now.methods, m, p);
      var row := InsertedRow(now.methods, m, p, p.parserVersion);
      InsertIsAfter(t.methods, now.methods, entries, m, row, p, prev, newProject);
    } else {
      TouchIsAfter(t.methods, now.methods, entries, m, keys, p, prev, newProject);
    }
  }

  lemma InsertEnds(methods: map<MethodKey, MethodRow>, m: MethodIn, p: ProjectIn)
    ensures InsertedRow(methods, m, p, p.parserVersion).end == p.version
  {}

  lemma InsertIsAfter(
    methods: map<MethodKey, MethodRow>, now: map<MethodKey, MethodRow>, entries: seq<MethodIn>, m: MethodIn,
    row: MethodRow, p: ProjectIn, prev: int, newProject: bool)
    requires IsLater(methods, p) && IsAfter(methods, now, entries, p, prev, newProject)
    requires Count(entries, MemberOf(m)) > 0 || !Continues(methods, p.id, MemberOf(m), prev, newProject)
    requires row.end == p.version
    ensures IsAfter(methods, now[Key(m, p, p.version) := row], entries + [m], p, prev, newProject)
  {
    hide Count, Continues;
    var next := now[Key(m, p, p.version) := row];
    forall k: MethodKey
      ensures k in next <==> k in methods || IsStarted(methods, k, entries + [m], p, prev, newProject)
    {
      CountNext(entries, m, RowMember(k));
    }
    forall k | k in next
      ensures next[k].end
           == if k in methods && !IsHit(methods, k, entries + [m], p.id, prev, newProject) then methods[k].end
              else p.version
    {
      CountNext(entries, m, RowMember(k));
      HitContinues(methods, k, p.id, prev, newProject);
    }
  }

  lemma HitContinues(methods: map<MethodKey, MethodRow>, k: MethodKey, project: int, prev: int, newProject: bool)
    ensures k in methods && k.project == project && !newProject && methods[k].end == prev ==>
      Continues(methods, project, RowMember(k), prev, newProject)
  {}

  lemma TouchIsAfter(
    methods: map<MethodKey, MethodRow>, now: map<MethodKey, MethodRow>, entries: seq<MethodIn>, m: MethodIn,
    keys: set<MethodKey>, p: ProjectIn, prev: int, newProject: bool)
    requires IsAfter(methods, now, entries, p, prev, newProject)
    requires keys != {} && forall k :: k in keys <==>
      && k in methods && k.project == p.id && RowMember(k) == MemberOf(m) && !newProject && methods[k].end == prev
      && Count(entries, MemberOf(m)) == 0
    ensures IsAfter(methods, TouchRows(now, keys, m, p), entries + [m], p, prev, newProject)
  {
    hide Count, Continues;
    var next := TouchRows(now, keys, m, p);
    var some :| some in keys;
    HitContinues(methods, some, p.id, prev, newProject);
    forall k: MethodKey
      ensures k in next <==> k in methods || IsStarted(methods, k, entries + [m], p, prev, newProject)
    {
      CountNext(entries, m, RowMember(k));
    }
    forall k | k in next
      ensures next[k].end
           == if k in methods && !IsHit(methods, k, entries + [m], p.id, prev, newProject) then methods[k].end
              else p.version
    {
      CountNext(entries, m, RowMember(k));
    }
  }

  /** The first time a continuing method is listed its row is extended; any other listing
      finds nothing to extend. */
  lemma ExtendsWhat(
    t: Tables, now: Tables, entries: seq<MethodIn>, m: MethodIn, p: ProjectIn, prev: int, newProject: bool)
    requires IsLater(t.methods, p) && (!newProject ==> prev < p.version)
    requires IsAfter(t.methods, now.methods, entries, p, prev, newProject)
    ensures var x := MemberOf(m);
      var keys := Extends(now, m, p, prev, newProject);
      && (forall k :: k in keys <==>
            k in t.methods && k.project == p.id && RowMember(k) == x && !newProject && t.methods[k].end == prev
            && Count(entries, x) == 0)
      && (keys == {} <==> Count(entries, x) > 0 || !Continues(t.methods, p.id, x, prev, newProject))
  {
    hide Count;
    var x := MemberOf(m);
    var keys := Extends(now, m, p, prev, newProject);
    assert forall k :: k in keys ==> k in t.methods;
    if Count(entries, x) == 0 && Continues(t.methods, p.id, x, prev, newProject) {
      var k :| k in t.methods && k.project == p.id && RowMember(k) == x && t.methods[k].end == prev;
      assert k in keys;
    }
  }

  lemma NothingListed(methods: map<MethodKey, MethodRow>, p: ProjectIn, prev: int, newProject: bool)
    ensures IsAfter(methods, methods, [], p, prev, newProject)
  {}

  lemma {:induction false} WorkersLeave(t: Tables, entries: seq<MethodIn>, p: ProjectIn, prev: int, newProject: bool)
    requires IsLater(t.methods, p) && (!newProject ==> prev < p.version)
    ensures IsAfter(t.methods, AfterMethods(t, entries, p, prev, newProject).methods, entries, p, prev, newProject)
  {
    hide AddMethod, IsAfter, IsLater;
    if entries == [] {
      NothingListed(t.methods, p, prev, newProject);
    } else {
      var n := |entries| - 1;
      WorkersLeave(t, entries[..n], p, prev, newProject);
      var now := AfterMethods(t, entries[..n], p, prev, newProject);
      AddedIsAfter(t, now, entries[..n], entries[n], p, prev, newProject);
      assert entries[..n] + [entries[n]] == entries;
    }
  }
}
