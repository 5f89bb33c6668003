/** What one upload does to the index as a whole: the rows stay the runs of the history exactly
    when no method of the previous version is listed twice, the stored hashes are those of the
    members in any case, and the author index keeps agreeing with the rows. */
module MethodUploads {
  import opened MethodStore
  import opened MethodUpload
  import opened MethodHandler
  import opened MethodHistory
  import opened MethodIndex
  import opened Sequences
  import opened Wrappers

  function HashSet(members: set<Member>): set<Hash> {
    set x | x in members :: x.0
  }

  /** Each version's stored hashes are those of its members, and no other version is stored. */
  ghost predicate HashesAreMembers(h: History, projects: map<ProjectKey, ProjectRow>, project: int) {
    && (forall i :: 0 <= i < |h| ==>
          ProjectKey(project, h[i].version) in projects
          && projects[ProjectKey(project, h[i].version)].hashes == HashSet(h[i].members))
    && (forall k :: k in projects && k.project == project ==> exists i :: 0 <= i < |h| && h[i].version == k.version)
  }

  /** A project's first upload names no previous version, each later one the version before. */
  ghost predicate Follows(h: History, u: Upload) {
    if h == [] then u.prev.None?
    else u.prev == Some(h[|h| - 1].version) && h[|h| - 1].version < u.project.version
  }

  ghost predicate IsIndexed(h: History, t: Tables, project: int) {
    Increasing(h) && RowsAreRuns(h, t.methods, project) && HashesAreMembers(h, t.projects, project)
  }

  ghost predicate ListsNoOldMemberTwice(h: History, u: Upload) {
    forall x :: x in Last(h) ==> Count(u.methods, x) <= 1
  }

  // ----- Counting

  lemma {:induction false} CountPositive(entries: seq<MethodIn>, x: Member)
    ensures Count(entries, x) > 0 <==> exists m :: m in entries && MemberOf(m) == x
  {
    if entries != [] {
      var n := |entries| - 1;
      CountPositive(entries[..n], x);
      assert entries == entries[..n] + [entries[n]];
    }
  }

  lemma {:induction false} CountAt(entries: seq<MethodIn>, i: nat, x: Member)
    requires i < |entries|
    ensures Count(entries, x) == Count(entries[..i] + entries[i + 1..], x) + if MemberOf(entries[i]) == x then 1 else 0
  {
    hide Count;
    var n := |entries| - 1;
    var front := entries[..n];
    assert entries == front + [entries[n]];
    CountNext(front, entries[n], x);
    if i == n {
      assert entries[..i] + entries[i + 1..] == front;
    } else {
      CountAt(front, i, x);
      var rest := front[..i] + front[i + 1..];
      CountNext(rest, entries[n], x);
      assert entries[..i] + entries[i + 1..] == rest + [entries[n]];
    }
  }

  lemma {:induction false} CountInAnyOrder(a: seq<MethodIn>, b: seq<MethodIn>, x: Member)
    requires multiset(a) == multiset(b)
    ensures Count(a, x) == Count(b, x)
    decreases |b|
  {
    hide Count;
    assert |a| == |multiset(a)| == |multiset(b)| == |b|;
    if b == [] {
      assert a == b;
    } else {
      var n := |b| - 1;
      assert b[n] in multiset(b);
      var i :| 0 <= i < |a| && a[i] == b[n];
      RemoveOne(a, i, b);
      CountInAnyOrder(a[..i] + a[i + 1..], b[..n], x);
      CountAt(a, i, x);
      CountAt(b, n, x);
      assert b[..n] + b[n + 1..] == b[..n];
    }
  }

  // ----- The rows

  lemma LaterThanRows(h: History, t: Tables, u: Upload)
    requires IsIndexed(h, t, u.project.id) && Follows(h, u)
    ensures IsLater(t.methods, ProjectOf(u)) && (u.prev.Some? ==> u.prev.value < u.project.version)
    ensures Finds(t, u) && Increasing(Extended(h, u))
  {
    forall k | k in t.methods && k.project == u.project.id ensures k.start <= t.methods[k].end < u.project.version {
      RowsEndBy(h, t.methods, u.project.id, k);
    }
  }

  /** A method continues exactly when the previous version contains it. */
  lemma ContinuesIffMember(h: History, t: Tables, u: Upload, x: Member)
    requires IsIndexed(h, t, u.project.id) && Follows(h, u)
    ensures Continues(t.methods, u.project.id, x, Previous(u), u.prev.None?) <==> x in Last(h)
  {
    if h != [] {
      EndsWithLast(h, t.methods, u.project.id, x);
    }
  }

  lemma WorkersLeaveListed(h: History, t: Tables, u: Upload, order: seq<MethodIn>)
    requires IsIndexed(h, t, u.project.id) && Follows(h, u)
    ensures IsAfter(t.methods, Listed(t, u, order).methods, order, ProjectOf(u), Previous(u), u.prev.None?)
  {
    hide IsAfter;
    var p := ProjectOf(u);
    LaterThanRows(h, t, u);
    WorkersLeave(t.(projects := InsertProject(t.projects, p)), order, p, Previous(u), u.prev.None?);
  }

  /** Row k after the workers and the unchanged files are done. */
  lemma AppliedRow(h: History, t: Tables, u: Upload, order: seq<MethodIn>, k: MethodKey)
    requires IsIndexed(h, t, u.project.id) && Follows(h, u) && k.project == u.project.id && Finds(t, u)
    requires multiset(order) == multiset(u.methods)
    ensures var methods', x := Applied(t, u, order).methods, RowMember(k);
      && (k in methods' <==>
            (k in t.methods || (k.start == u.project.version && Count(u.methods, x) >= if x in Last(h) then 2 else 1)))
      && (k in methods' ==>
            methods'[k].end
            == if k in t.methods && !(t.methods[k].end == Previous(u) && x in Last(h) * NewMembers(h, u))
               then t.methods[k].end else u.project.version)
  {
    hide IsIndexed, Increasing, RowsAreRuns, Continues, Count, Listed, IsLater, NewMembers;
    var p, x, now := ProjectOf(u), RowMember(k), Listed(t, u, order);
    LaterThanRows(h, t, u);
    WorkersLeaveListed(h, t, u, order);
    ContinuesIffMember(h, t, u, x);
    CountInAnyOrder(order, u.methods, x);
    IsNewMember(h, u, x);
    if u.prev.None? {
      NoRowsYet(h, t, u, k);
    } else {
      ProjectHashes(h, t, u, x);
      EndsLikeMember(h, t, u, k);
    }
  }

  lemma IsNewMember(h: History, u: Upload, x: Member)
    ensures x in NewMembers(h, u) <==>
      Count(u.methods, x) > 0 || (u.prev.Some? && x in Last(h) && x.1 in u.unchangedFiles)
  {
    CountPositive(u.methods, x);
  }

  lemma NoRowsYet(h: History, t: Tables, u: Upload, k: MethodKey)
    requires IsIndexed(h, t, u.project.id) && Follows(h, u) && k.project == u.project.id && u.prev.None?
    ensures k !in t.methods
  {
    if k in t.methods {
      RowsEndBy(h, t.methods, u.project.id, k);
    }
  }

  lemma ProjectHashes(h: History, t: Tables, u: Upload, x: Member)
    requires IsIndexed(h, t, u.project.id) && Follows(h, u) && u.prev.Some?
    ensures ProjectKey(u.project.id, u.prev.value) in t.projects
    ensures x in Last(h) ==> x.0 in t.projects[ProjectKey(u.project.id, u.prev.value)].hashes
  {}

  lemma EndsLikeMember(h: History, t: Tables, u: Upload, k: MethodKey)
    requires IsIndexed(h, t, u.project.id) && Follows(h, u) && k.project == u.project.id && u.prev.Some?
    ensures k in t.methods && t.methods[k].end == u.prev.value ==> RowMember(k) in Last(h)
  {
    EndsWithLast(h, t.methods, u.project.id, RowMember(k));
  }

  /** A method of the previous version that is listed twice gets a second row, overlapping the
      one just extended. Otherwise the rows are again exactly the runs. */
  lemma RowsStayRunsIff(h: History, t: Tables, u: Upload, order: seq<MethodIn>)
    requires IsIndexed(h, t, u.project.id) && Follows(h, u) && Finds(t, u)
    requires multiset(order) == multiset(u.methods)
    ensures RowsAreRuns(Extended(h, u), Applied(t, u, order).methods, u.project.id) <==> ListsNoOldMemberTwice(h, u)
  {
    hide Applied, Increasing, RowsAreRuns, Count, NewMembers, HashesAreMembers, Finds;
    var v := Version(u.project.version, NewMembers(h, u));
    var methods' := Applied(t, u, order).methods;
    LaterThanRows(h, t, u);
    if ListsNoOldMemberTwice(h, u) {
      forall k: MethodKey | k.project == u.project.id
        ensures k in methods' <==> k in t.methods || IsNewRow(k, Last(h), v)
        ensures k in methods' ==>
          methods'[k].end
          == if k in t.methods && !(t.methods[k].end == Previous(u) && RowMember(k) in Last(h) * v.members)
             then t.methods[k].end else v.version
      {
        AppliedRow(h, t, u, order, k);
        IsNewMember(h, u, RowMember(k));
      }
      NextIsRuns(h, v, t.methods, methods', u.project.id, Previous(u));
    } else {
      var x :| x in Last(h) && Count(u.methods, x) > 1;
      var k := RowKey(u.project.id, x, u.project.version);
      AppliedRow(h, t, u, order, k);
      SecondRow(h, v, methods', u.project.id, x);
    }
  }

  lemma SecondRow(h: History, v: Version, methods: map<MethodKey, MethodRow>, project: int, x: Member)
    requires Increasing(h + [v]) && x in Last(h) && RowKey(project, x, v.version) in methods
    ensures !RowsAreRuns(h + [v], methods, project)
  {
    var k := RowKey(project, x, v.version);
    if RowsAreRuns(h + [v], methods, project) {
      var i, j :| Stands(h + [v], k, methods[k], i, j);
      IncreasingPrefix(h, v);
      assert Contains(h + [v], |h| - 1, x);
    }
  }

  // ----- The hashes

  lemma HashesStayMembers(h: History, t: Tables, u: Upload, order: seq<MethodIn>)
    requires IsIndexed(h, t, u.project.id) && Follows(h, u) && Finds(t, u)
    requires multiset(order) == multiset(u.methods)
    ensures HashesAreMembers(Extended(h, u), Applied(t, u, order).projects, u.project.id)
  {
    hide RowsAreRuns, NewMembers, Listed, HashSet, Increasing, Count, RenewRows;
    var h', projects' := Extended(h, u), Applied(t, u, order).projects;
    var key := ProjectKey(u.project.id, u.project.version);
    LaterThanRows(h, t, u);
    ProjectStays(t, u, order);
    IncreasingPrefix(h, h'[|h|]);
    NewHashes(h, t, u, order);
    forall i | 0 <= i < |h'|
      ensures ProjectKey(u.project.id, h'[i].version) in projects'
      ensures projects'[ProjectKey(u.project.id, h'[i].version)].hashes == HashSet(h'[i].members)
    {
      if i < |h| {
        assert h'[i] == h[i] && h[i].version != u.project.version;
      }
    }
    forall k | k in projects' && k.project == u.project.id
      ensures exists i :: 0 <= i < |h'| && h'[i].version == k.version
    {
      if k == key {
        assert h'[|h|].version == k.version;
      } else {
        var i :| 0 <= i < |h| && h[i].version == k.version;
        assert h'[i].version == k.version;
      }
    }
  }

  /** Listed hashes and the hashes reported for unchanged files together are those of the new
      members. */
  lemma NewHashes(h: History, t: Tables, u: Upload, order: seq<MethodIn>)
    requires IsIndexed(h, t, u.project.id) && Follows(h, u) && Finds(t, u)
    requires multiset(order) == multiset(u.methods)
    ensures HashSet(NewMembers(h, u))
         == ToSet(HashList(u.methods)) + if u.prev.None? then {} else HashesOf(Unchanged(t, u, order))
  {
    var all := ToSet(HashList(u.methods)) + if u.prev.None? then {} else HashesOf(Unchanged(t, u, order));
    forall x | x in NewMembers(h, u) ensures x.0 in all {
      NewHashFound(h, t, u, order, x);
    }
    forall g | g in all ensures g in HashSet(NewMembers(h, u)) {
      if g in ToSet(HashList(u.methods)) {
        var i :| 0 <= i < |u.methods| && u.methods[i].hash == g;
        assert MemberOf(u.methods[i]) in NewMembers(h, u);
      } else {
        var k :| k in Unchanged(t, u, order) && k.hash == g;
        UnchangedIsMember(h, t, u, order, k);
        assert RowMember(k) in NewMembers(h, u);
      }
    }
  }

  lemma UnchangedIsMember(h: History, t: Tables, u: Upload, order: seq<MethodIn>, k: MethodKey)
    requires IsIndexed(h, t, u.project.id) && Follows(h, u) && u.prev.Some? && Finds(t, u)
    requires k in Unchanged(t, u, order)
    ensures RowMember(k) in Last(h) && k.file in u.unchangedFiles
  {
    hide Count, RowsAreRuns, Continues, Listed, IsLater, HashesAreMembers;
    LaterThanRows(h, t, u);
    WorkersLeaveListed(h, t, u, order);
    EndsLikeMember(h, t, u, k);
  }

  lemma NewHashFound(h: History, t: Tables, u: Upload, order: seq<MethodIn>, x: Member)
    requires IsIndexed(h, t, u.project.id) && Follows(h, u) && Finds(t, u)
    requires multiset(order) == multiset(u.methods) && x in NewMembers(h, u)
    ensures x.0 in ToSet(HashList(u.methods)) + if u.prev.None? then {} else HashesOf(Unchanged(t, u, order))
  {
    hide RowsAreRuns, Continues, Listed, IsLater, IsIndexed, NewMembers, Count;
    IsNewMember(h, u, x);
    CountPositive(u.methods, x);
    CountInAnyOrder(order, u.methods, x);
    if m :| m in u.methods && MemberOf(m) == x {
      var i :| 0 <= i < |u.methods| && u.methods[i] == m;
      assert HashList(u.methods)[i] == x.0;
    } else {
      LaterThanRows(h, t, u);
      WorkersLeaveListed(h, t, u, order);
      ProjectHashes(h, t, u, x);
      var k := EndingRow(h, t, u, x);
      assert k in Unchanged(t, u, order);
    }
  }

  lemma EndingRow(h: History, t: Tables, u: Upload, x: Member) returns (k: MethodKey)
    requires IsIndexed(h, t, u.project.id) && Follows(h, u) && u.prev.Some? && x in Last(h)
    ensures k in t.methods && k.project == u.project.id && RowMember(k) == x && t.methods[k].end == u.prev.value
  {
    EndsWithLast(h, t.methods, u.project.id, x);
    k :| k in t.methods && k.project == u.project.id && RowMember(k) == x && t.methods[k].end == u.prev.value;
  }
}
