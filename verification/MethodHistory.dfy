/** What the method rows are for: which method is in which version of a project. The plain
    answer is a history, a set of members for every uploaded version; the tables must be its
    run-length encoding. */
module MethodHistory {
  import opened MethodStore
  import opened MethodUpload
  import opened MethodHandler

  type Member = (Hash, File)

  datatype Version = Version(version: int, members: set<Member>)

  type History = seq<Version>

  function MemberOf(m: MethodIn): Member {
    (m.hash, m.file)
  }

  function RowMember(k: MethodKey): Member {
    (k.hash, k.file)
  }

  function RowKey(project: int, x: Member, start: int): MethodKey {
    MethodKey(x.0, project, x.1, start)
  }

  // ----- The meaning of a history

  function Last(h: History): set<Member> {
    if h == [] then {} else h[|h| - 1].members
  }

  /** A new version contains what is listed and what the unchanged files held before. */
  function NewMembers(h: History, u: Upload): set<Member> {
    (set m | m in u.methods :: MemberOf(m))
    + if u.prev.None? then {} else set x | x in Last(h) && x.1 in u.unchangedFiles
  }

  function Extended(h: History, u: Upload): History {
    h + [Version(u.project.version, NewMembers(h, u))]
  }

  predicate Contains(h: History, n: int, x: Member) {
    0 <= n < |h| && x in h[n].members
  }

  /** From version i to version j, and no further, every version contains x. */
  ghost predicate IsRun(h: History, x: Member, i: int, j: int) {
    && 0 <= i <= j < |h|
    && (forall k :: i <= k <= j ==> Contains(h, k, x))
    && !Contains(h, i - 1, x)
    && !Contains(h, j + 1, x)
  }

  ghost predicate Increasing(h: History) {
    forall i, j :: 0 <= i < j < |h| ==> h[i].version < h[j].version
  }

  /** Row k stands for the run from version i to version j. */
  ghost predicate Stands(h: History, k: MethodKey, row: MethodRow, i: int, j: int) {
    IsRun(h, RowMember(k), i, j) && h[i].version == k.start && h[j].version == row.end
  }

  /** The rows of a project are exactly its maximal runs. */
  ghost predicate RowsAreRuns(h: History, methods: map<MethodKey, MethodRow>, project: int) {
    && (forall k :: k in methods && k.project == project ==> exists i, j :: Stands(h, k, methods[k], i, j))
    && (forall x, i, j :: IsRun(h, x, i, j) ==>
          var k := RowKey(project, x, h[i].version);
          k in methods && methods[k].end == h[j].version)
  }

  ghost predicate Holds(k: MethodKey, row: MethodRow, project: int, x: Member, version: int) {
    k.project == project && RowMember(k) == x && k.start <= version <= row.end
  }

  // ----- What the encoding says

  lemma {:induction false} RunStart(h: History, x: Member, k: int) returns (i: int)
    requires Contains(h, k, x)
    ensures 0 <= i <= k && (forall n :: i <= n <= k ==> Contains(h, n, x)) && !Contains(h, i - 1, x)
    decreases k
  {
    if Contains(h, k - 1, x) {
      i := RunStart(h, x, k - 1);
    } else {
      i := k;
    }
  }

  lemma {:induction false} RunEnd(h: History, x: Member, k: int) returns (j: int)
    requires Contains(h, k, x)
    ensures k <= j < |h| && (forall n :: k <= n <= j ==> Contains(h, n, x)) && !Contains(h, j + 1, x)
    decreases |h| - k
  {
    if Contains(h, k + 1, x) {
      j := RunEnd(h, x, k + 1);
    } else {
      j := k;
    }
  }

  lemma RunThrough(h: History, x: Member, k: int) returns (i: int, j: int)
    requires Contains(h, k, x)
    ensures IsRun(h, x, i, j) && i <= k <= j
  {
    i := RunStart(h, x, k);
    j := RunEnd(h, x, k);
  }

  lemma RunsMeet(h: History, x: Member, i: int, j: int, i': int, j': int)
    requires IsRun(h, x, i, j) && IsRun(h, x, i', j') && i <= j' && i' <= j
    ensures i == i' && j == j'
  {
    assert i < i' ==> Contains(h, i' - 1, x);
    assert i' < i ==> Contains(h, i - 1, x);
    assert j < j' ==> Contains(h, j + 1, x);
    assert j' < j ==> Contains(h, j' + 1, x);
  }

  /** Rows of the same method never overlap, at any version number. */
  lemma RowsAreDisjoint(
    h: History, methods: map<MethodKey, MethodRow>, project: int, x: Member, k: MethodKey, k': MethodKey, v: int)
    requires Increasing(h) && RowsAreRuns(h, methods, project)
    requires k in methods && k' in methods
    requires Holds(k, methods[k], project, x, v) && Holds(k', methods[k'], project, x, v)
    ensures k == k'
  {
    var i, j :| Stands(h, k, methods[k], i, j);
    var i', j' :| Stands(h, k', methods[k'], i', j');
    if i <= j' && i' <= j {
      RunsMeet(h, x, i, j, i', j');
    }
  }

  /** An uploaded version contains a method exactly when a row holds it there, and then
      exactly one does. */
  lemma VersionContainsIffOneRowHolds(
    h: History, methods: map<MethodKey, MethodRow>, project: int, x: Member, n: nat)
    requires Increasing(h) && RowsAreRuns(h, methods, project) && n < |h|
    ensures Contains(h, n, x) <==> exists k :: k in methods && Holds(k, methods[k], project, x, h[n].version)
    ensures forall k, k' ::
      (k in methods && k' in methods
       && Holds(k, methods[k], project, x, h[n].version) && Holds(k', methods[k'], project, x, h[n].version))
      ==> k == k'
  {
    if Contains(h, n, x) {
      var i, j := RunThrough(h, x, n);
      var k := RowKey(project, x, h[i].version);
      assert Holds(k, methods[k], project, x, h[n].version);
    }
    if k :| k in methods && Holds(k, methods[k], project, x, h[n].version) {
      var i, j :| Stands(h, k, methods[k], i, j);
      assert i <= n <= j && Contains(h, n, x);
    }
    forall k, k' | k in methods && k' in methods
      && Holds(k, methods[k], project, x, h[n].version) && Holds(k', methods[k'], project, x, h[n].version)
      ensures k == k'
    {
      RowsAreDisjoint(h, methods, project, x, k, k', h[n].version);
    }
  }

  /** The rows that end with the last version are those of its members. */
  lemma EndsWithLast(h: History, methods: map<MethodKey, MethodRow>, project: int, x: Member)
    requires Increasing(h) && h != [] && RowsAreRuns(h, methods, project)
    ensures x in Last(h) <==>
      exists k :: k in methods && k.project == project && RowMember(k) == x && methods[k].end == h[|h| - 1].version
  {
    var n := |h| - 1;
    VersionContainsIffOneRowHolds(h, methods, project, x, n);
    if k :| k in methods && Holds(k, methods[k], project, x, h[n].version) {
      var i, j :| Stands(h, k, methods[k], i, j);
      assert j == n;
    }
    if k :| k in methods && k.project == project && RowMember(k) == x && methods[k].end == h[n].version {
      var i, j :| Stands(h, k, methods[k], i, j);
      assert Holds(k, methods[k], project, x, h[n].version);
    }
  }

  /** No row of a project reaches beyond its last version. */
  lemma RowsEndBy(h: History, methods: map<MethodKey, MethodRow>, project: int, k: MethodKey)
    requires Increasing(h) && RowsAreRuns(h, methods, project) && k in methods && k.project == project
    ensures h != [] && k.start <= methods[k].end <= h[|h| - 1].version
  {
    var i, j :| Stands(h, k, methods[k], i, j);
  }
}
