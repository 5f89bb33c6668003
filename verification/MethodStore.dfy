/** The method tables, keyed as the schema keys them, and the database operations of an
    upload. A row says that a method is in every version of a project from start to end. */
module MethodStore {

  type Hash = string
  type File = string
  type AuthorID = string

  datatype MethodKey = MethodKey(hash: Hash, project: int, file: File, start: int)

  datatype MethodRow = MethodRow(
    startHash: string, end: int, endHash: string, name: string, line: int,
    authors: set<AuthorID>, parserVersion: int, vulnCode: string)

  datatype ProjectKey = ProjectKey(project: int, version: int)

  datatype ProjectRow = ProjectRow(
    versionHash: string, license: string, name: string, url: string, owner: AuthorID,
    hashes: set<Hash>, parserVersion: int)

  datatype AuthorKey = AuthorKey(author: AuthorID, hash: Hash, project: int, file: File, start: int)

  datatype Tables = Tables(
    methods: map<MethodKey, MethodRow>, projects: map<ProjectKey, ProjectRow>, byAuthor: set<AuthorKey>)

  datatype ProjectIn = ProjectIn(
    id: int, version: int, versionHash: string, license: string, name: string, url: string,
    owner: AuthorID, parserVersion: int, hashes: seq<Hash>)

  datatype MethodIn = MethodIn(
    hash: Hash, name: string, file: File, line: int, authors: seq<AuthorID>, vulnCode: string)

  const HASHES_INSERT_MAX: nat := 1000

  // ----- What each operation does to the tables

  function ToSet<T(==)>(s: seq<T>): set<T> {
    set x | x in s
  }

  function Key(m: MethodIn, p: ProjectIn, start: int): MethodKey {
    MethodKey(m.hash, p.id, m.file, start)
  }

  /** The rows of a project for given hashes and files whose last version is given. */
  function Ending(methods: map<MethodKey, MethodRow>, hashes: set<Hash>, project: int, files: set<File>, end: int)
    : set<MethodKey>
  {
    set k | k in methods && k.hash in hashes && k.project == project && k.file in files && methods[k].end == end
  }

  function Touched(row: MethodRow, m: MethodIn, p: ProjectIn): MethodRow {
    row.(end := p.version, endHash := p.versionHash, name := m.name, line := m.line,
         authors := row.authors + ToSet(m.authors))
  }

  /** The row an update starts from: a missing one has all its columns empty. */
  function RowOrEmpty(methods: map<MethodKey, MethodRow>, k: MethodKey): MethodRow {
    if k in methods then methods[k] else MethodRow("", 0, "", "", 0, {}, 0, "")
  }

  function TouchRows(methods: map<MethodKey, MethodRow>, keys: set<MethodKey>, m: MethodIn, p: ProjectIn)
    : map<MethodKey, MethodRow>
  {
    map k | k in methods :: if k in keys then Touched(methods[k], m, p) else methods[k]
  }

  /** Inserting over an existing row replaces it, but for a vulnerability code not given anew. */
  function InsertedRow(methods: map<MethodKey, MethodRow>, m: MethodIn, p: ProjectIn, parserVersion: int): MethodRow {
    var code :=
      if m.vulnCode == "" && Key(m, p, p.version) in methods then methods[Key(m, p, p.version)].vulnCode
      else m.vulnCode;
    MethodRow(p.versionHash, p.version, p.versionHash, m.name, m.line, ToSet(m.authors), parserVersion, code)
  }

  function AuthorEntries(m: MethodIn, p: ProjectIn): set<AuthorKey> {
    set a | a in m.authors :: AuthorKey(a, m.hash, p.id, m.file, p.version)
  }

  function AddNewMethod(t: Tables, m: MethodIn, p: ProjectIn, parserVersion: int): Tables {
    t.(methods := t.methods[Key(m, p, p.version) := InsertedRow(t.methods, m, p, parserVersion)],
       byAuthor := t.byAuthor + AuthorEntries(m, p))
  }

  /** The rows a listed method extends: none in a new project, else those that end with the
      previous version. */
  function Extends(t: Tables, m: MethodIn, p: ProjectIn, prev: int, newProject: bool): set<MethodKey> {
    if newProject then {} else Ending(t.methods, {m.hash}, p.id, {m.file}, prev)
  }

  function AddMethod(t: Tables, m: MethodIn, p: ProjectIn, prev: int, parserVersion: int, newProject: bool): Tables {
    var keys := Extends(t, m, p, prev, newProject);
    if keys == {} then AddNewMethod(t, m, p, parserVersion)
    else t.(methods := TouchRows(t.methods, keys, m, p), byAuthor := t.byAuthor + AuthorEntries(m, p))
  }

  function Renewed(row: MethodRow, p: ProjectIn): MethodRow {
    row.(end := p.version, endHash := p.versionHash)
  }

  function RenewRows(methods: map<MethodKey, MethodRow>, keys: set<MethodKey>, p: ProjectIn)
    : map<MethodKey, MethodRow>
  {
    map k | k in methods :: if k in keys then Renewed(methods[k], p) else methods[k]
  }

  function HashesOf(keys: set<MethodKey>): set<Hash> {
    set k | k in keys :: k.hash
  }

  /** An update creates a missing row with its other columns empty, but adding no hashes to it
      writes nothing. */
  function WithHashes(projects: map<ProjectKey, ProjectRow>, p: ProjectIn, hashes: set<Hash>)
    : map<ProjectKey, ProjectRow>
  {
    var k := ProjectKey(p.id, p.version);
    if k in projects then projects[k := projects[k].(hashes := projects[k].hashes + hashes)]
    else if hashes == {} then projects
    else projects[k := ProjectRow("", "", "", "", "", hashes, 0)]
  }

  function InsertProject(projects: map<ProjectKey, ProjectRow>, p: ProjectIn): map<ProjectKey, ProjectRow> {
    projects[ProjectKey(p.id, p.version) :=
             ProjectRow(p.versionHash, p.license, p.name, p.url, p.owner, ToSet(p.hashes), p.parserVersion)]
  }

  // ----- The operations

  datatype SelectedRow = SelectedRow(key: MethodKey, end: int, name: string, line: int)

  /** What a query returns: each matching row once, in an order the store chooses. */
  ghost predicate IsSelection(rows: seq<SelectedRow>, methods: map<MethodKey, MethodRow>, keys: set<MethodKey>)
    requires keys <= methods.Keys
  {
    && (forall r :: r in rows ==> r.key in keys && r == Selected(methods, r.key))
    && (forall k :: k in keys ==> Selected(methods, k) in rows)
    && (forall i, j :: 0 <= i < j < |rows| ==> rows[i].key != rows[j].key)
  }

  function Selected(methods: map<MethodKey, MethodRow>, k: MethodKey): SelectedRow
    requires k in methods
  {
    SelectedRow(k, methods[k].end, methods[k].name, methods[k].line)
  }

  /** The keys among the first n rows that end with the given version. */
  function Chosen(rows: seq<SelectedRow>, n: nat, end: int): set<MethodKey>
    requires n <= |rows|
  {
    if n == 0 then {}
    else Chosen(rows, n - 1, end) + if rows[n - 1].end == end then {rows[n - 1].key} else {}
  }

  lemma {:induction false} ChosenAre(rows: seq<SelectedRow>, n: nat, end: int)
    requires n <= |rows|
    ensures forall k :: k in Chosen(rows, n, end) <==> exists j :: 0 <= j < n && rows[j].key == k && rows[j].end == end
  {
    if n > 0 {
      ChosenAre(rows, n - 1, end);
    }
  }

  lemma ChosenFresh(rows: seq<SelectedRow>, methods: map<MethodKey, MethodRow>, keys: set<MethodKey>, n: nat, end: int)
    requires keys <= methods.Keys && IsSelection(rows, methods, keys) && n < |rows|
    ensures rows[n] == Selected(methods, rows[n].key) && rows[n].key !in Chosen(rows, n, end)
    ensures rows[n].key in keys
  {
    ChosenAre(rows, n, end);
    assert rows[n] in rows;
  }

  lemma ChosenAll(rows: seq<SelectedRow>, methods: map<MethodKey, MethodRow>, keys: set<MethodKey>, end: int)
    requires keys <= methods.Keys && IsSelection(rows, methods, keys)
    ensures Chosen(rows, |rows|, end) == set k | k in keys && methods[k].end == end
  {
    ChosenAre(rows, |rows|, end);
    forall k | k in keys && methods[k].end == end ensures k in Chosen(rows, |rows|, end) {
      assert Selected(methods, k) in rows;
    }
    forall k | k in Chosen(rows, |rows|, end) ensures k in keys && methods[k].end == end {
      var j :| 0 <= j < |rows| && rows[j].key == k && rows[j].end == end;
      assert rows[j] in rows;
    }
  }

  lemma ChosenNone(rows: seq<SelectedRow>, end: int)
    ensures Chosen(rows, 0, end) == {}
  {}

  lemma ChosenNext(rows: seq<SelectedRow>, n: nat, end: int)
    requires n < |rows|
    ensures Chosen(rows, n + 1, end) == Chosen(rows, n, end) + if rows[n].end == end then {rows[n].key} else {}
  {}

  lemma NothingTouched(methods: map<MethodKey, MethodRow>, m: MethodIn, p: ProjectIn)
    ensures TouchRows(methods, {}, m, p) == methods
  {}

  lemma NothingRenewed(methods: map<MethodKey, MethodRow>, p: ProjectIn)
    ensures RenewRows(methods, {}, p) == methods && HashesOf({}) == {} == ToSet<Hash>([])
  {}

  lemma NoAuthors(m: MethodIn, p: ProjectIn)
    requires m.authors == []
    ensures AuthorEntries(m, p) == {}
    ensures ToSet([m.hash]) == {m.hash}
  {}

  lemma TouchStep(
    methods: map<MethodKey, MethodRow>, done: set<MethodKey>, k: MethodKey, m: MethodIn, p: ProjectIn)
    requires k in methods && k !in done
    ensures var now := TouchRows(methods, done, m, p);
      && k in now
      && now[k := Touched(now[k], m, p)] == TouchRows(methods, done + {k}, m, p)
  {}

  lemma RenewStep(
    methods: map<MethodKey, MethodRow>, done: set<MethodKey>, k: MethodKey, m: MethodIn, p: ProjectIn)
    requires k in methods && k !in done
    requires m.name == methods[k].name && m.line == methods[k].line && m.authors == []
    ensures var now := RenewRows(methods, done, p);
      && k in now
      && now[k := Touched(now[k], m, p)] == RenewRows(methods, done + {k}, p)
  {
    assert methods[k].authors + ToSet(m.authors) == methods[k].authors;
  }

  lemma ToSetAppend<T>(s: seq<T>, t: seq<T>)
    ensures ToSet(s + t) == ToSet(s) + ToSet(t)
  {}

  lemma ToSetNone<T>()
    ensures ToSet<T>([]) == {}
  {}

  lemma ToSetOne<T>(x: T)
    ensures ToSet([x]) == {x}
  {}

  lemma WithMoreHashes(projects: map<ProjectKey, ProjectRow>, p: ProjectIn, hashes: set<Hash>, more: set<Hash>)
    ensures WithHashes(WithHashes(projects, p, hashes), p, more) == WithHashes(projects, p, hashes + more)
  {
    var k := ProjectKey(p.id, p.version);
    if k in projects {
      assert projects[k].hashes + hashes + more == projects[k].hashes + (hashes + more);
    } else if hashes == {} {
      assert hashes + more == more;
    } else {
      var h :| h in hashes;
      assert h in hashes + more;
    }
  }

  lemma HashesOfAdd(keys: set<MethodKey>, k: MethodKey)
    ensures HashesOf(keys + {k}) == HashesOf(keys) + {k.hash}
  {}

  class DatabaseHandler {
    var methods: map<MethodKey, MethodRow>
    var projects: map<ProjectKey, ProjectRow>
    var byAuthor: set<AuthorKey>

    function State(): Tables
      reads this
    {
      Tables(methods, projects, byAuthor)
    }

    constructor ()
      ensures State() == Tables(map[], map[], {})
    {
      methods, projects, byAuthor := map[], map[], {};
    }

    /** Inserts the project with its first hashes; the others follow in batches. */
    method AddProject(p: ProjectIn)
      modifies this
      ensures State() == old(State()).(projects := InsertProject(old(projects), p))
    {
      var size := |p.hashes|;
      var hashes: set<Hash> := {};
      for i := 0 to if size < HASHES_INSERT_MAX then size else HASHES_INSERT_MAX
        invariant hashes == ToSet(p.hashes[..i]) && State() == old(State())
      {
        ToSetAppend(p.hashes[..i], [p.hashes[i]]);
        assert p.hashes[..i + 1] == p.hashes[..i] + [p.hashes[i]];
        hashes := hashes + {p.hashes[i]};
      }
      projects := projects[ProjectKey(p.id, p.version) :=
                           ProjectRow(p.versionHash, p.license, p.name, p.url, p.owner, hashes, p.parserVersion)];
      if size > HASHES_INSERT_MAX {
        ToSetAppend(p.hashes[..HASHES_INSERT_MAX], p.hashes[HASHES_INSERT_MAX..]);
        assert p.hashes == p.hashes[..HASHES_INSERT_MAX] + p.hashes[HASHES_INSERT_MAX..];
        AddHashToProject(p, HASHES_INSERT_MAX);
      } else {
        assert p.hashes[..size] == p.hashes;
      }
    }

    method AddHashToProject(p: ProjectIn, index: nat)
      requires index <= |p.hashes|
      modifies this
      ensures State() == old(State()).(projects := WithHashes(old(projects), p, ToSet(p.hashes[index..])))
      decreases |p.hashes| - index
    {
      hide ToSet;
      ToSetNone<Hash>();
      assert p.hashes[index..index] == [];
      var size := |p.hashes|;
      var end := if index + HASHES_INSERT_MAX < size then index + HASHES_INSERT_MAX else size;
      var hashes: set<Hash> := {};
      for i := index to end
        invariant hashes == ToSet(p.hashes[index..i]) && State() == old(State())
      {
        ToSetAppend(p.hashes[index..i], [p.hashes[i]]);
        assert p.hashes[index..i + 1] == p.hashes[index..i] + [p.hashes[i]];
        ToSetOne(p.hashes[i]);
        hashes := hashes + {p.hashes[i]};
      }
      var k := ProjectKey(p.id, p.version);
      WithMoreHashes(projects, p, hashes, ToSet(p.hashes[end..]));
      if k in projects {
        projects := projects[k := projects[k].(hashes := projects[k].hashes + hashes)];
      } else if hashes != {} {
        projects := projects[k := ProjectRow("", "", "", "", "", hashes, 0)];
      }
      if size > index + HASHES_INSERT_MAX {
        ToSetAppend(p.hashes[index..end], p.hashes[end..]);
        assert p.hashes[index..] == p.hashes[index..end] + p.hashes[end..];
        AddHashToProject(p, index + HASHES_INSERT_MAX);
      } else {
        assert end == size && p.hashes[index..end] == p.hashes[index..];
      }
    }

    method SearchForProject(project: int, version: int) returns (found: bool, row: ProjectRow)
      ensures found <==> ProjectKey(project, version) in projects
      ensures found ==> row == projects[ProjectKey(project, version)]
    {
      var k := ProjectKey(project, version);
      if k in projects {
        return true, projects[k];
      }
      return false, ProjectRow("", "", "", "", "", {}, 0);
    }

    /** The rows for given hashes and files of a project. */
    method Select(hashes: set<Hash>, project: int, files: set<File>) returns (rows: seq<SelectedRow>)
      ensures IsSelection(rows, methods,
                set k | k in methods && k.hash in hashes && k.project == project && k.file in files)
    {
      var todo := set k | k in methods && k.hash in hashes && k.project == project && k.file in files;
      ghost var keys := todo;
      rows := [];
      while todo != {}
        invariant todo <= keys
        invariant IsSelection(rows, methods, keys - todo)
        decreases |todo|
      {
        var k :| k in todo;
        rows := rows + [SelectedRow(k, methods[k].end, methods[k].name, methods[k].line)];
        todo := todo - {k};
      }
    }

    method AddMethodByAuthor(author: AuthorID, m: MethodIn, p: ProjectIn)
      modifies this`byAuthor
      ensures byAuthor == old(byAuthor) + {AuthorKey(author, m.hash, p.id, m.file, p.version)}
    {
      byAuthor := byAuthor + {AuthorKey(author, m.hash, p.id, m.file, p.version)};
    }

    method AddAuthors(m: MethodIn, p: ProjectIn) returns (authors: set<AuthorID>)
      modifies this`byAuthor
      ensures authors == ToSet(m.authors)
      ensures byAuthor == old(byAuthor) + AuthorEntries(m, p)
    {
      authors := {};
      for i := 0 to |m.authors|
        invariant authors == ToSet(m.authors[..i])
        invariant byAuthor == old(byAuthor) + AuthorEntries(m.(authors := m.authors[..i]), p)
      {
        authors := authors + {m.authors[i]};
        AddMethodByAuthor(m.authors[i], m, p);
        assert m.authors[..i + 1] == m.authors[..i] + [m.authors[i]];
      }
      assert m.authors[..|m.authors|] == m.authors;
    }

    method InsertMethod(m: MethodIn, p: ProjectIn, parserVersion: int)
      modifies this
      ensures State() == AddNewMethod(old(State()), m, p, parserVersion)
    {
      var authors := AddAuthors(m, p);
      var k := Key(m, p, p.version);
      var code := if m.vulnCode == "" && k in methods then methods[k].vulnCode else m.vulnCode;
      methods := methods[k := MethodRow(p.versionHash, p.version, p.versionHash, m.name, m.line, authors,
                                        parserVersion, code)];
    }

    method UpdateMethod(m: MethodIn, p: ProjectIn, start: int)
      modifies this
      ensures State() == old(State()).(
        methods := old(methods)[Key(m, p, start) := Touched(RowOrEmpty(old(methods), Key(m, p, start)), m, p)],
        byAuthor := old(byAuthor) + AuthorEntries(m, p))
    {
      var authors := AddAuthors(m, p);
      var k := Key(m, p, start);
      var row := RowOrEmpty(methods, k);
      methods := methods[k := row.(end := p.version, endHash := p.versionHash, name := m.name, line := m.line,
                                   authors := row.authors + authors)];
    }

    method UploadMethod(m: MethodIn, p: ProjectIn, prev: int, parserVersion: int, newProject: bool)
      modifies this
      ensures State() == AddMethod(old(State()), m, p, prev, parserVersion, newProject)
    {
      var newMethod := true;
      if !newProject {
        var rows := Select({m.hash}, p.id, {m.file});
        newMethod := HandleSelectMethodQueryResult(rows, m, p, prev);
      }
      if newMethod {
        InsertMethod(m, p, parserVersion);
      }
    }

    /** Extends every selected row that ends with the previous version. */
    method HandleSelectMethodQueryResult(rows: seq<SelectedRow>, m: MethodIn, p: ProjectIn, prev: int)
      returns (newMethod: bool)
      requires IsSelection(rows, methods,
                 set k | k in methods && k.hash in {m.hash} && k.project == p.id && k.file in {m.file})
      modifies this
      ensures var keys := Ending(old(methods), {m.hash}, p.id, {m.file}, prev);
        && (newMethod <==> keys == {})
        && State() == old(State()).(
             methods := TouchRows(old(methods), keys, m, p),
             byAuthor := old(byAuthor) + if keys == {} then {} else AuthorEntries(m, p))
    {
      hide IsSelection, Chosen, TouchRows, Touched;
      newMethod := true;
      ghost var keys := set k | k in methods && k.hash in {m.hash} && k.project == p.id && k.file in {m.file};
      ghost var done: set<MethodKey> := {};
      NothingTouched(methods, m, p);
      ChosenNone(rows, prev);
      for i := 0 to |rows|
        invariant done == Chosen(rows, i, prev)
        invariant newMethod <==> done == {}
        invariant projects == old(projects)
        invariant methods == TouchRows(old(methods), done, m, p)
        invariant byAuthor == old(byAuthor) + if done == {} then {} else AuthorEntries(m, p)
      {
        ChosenFresh(rows, old(methods), keys, i, prev);
        ChosenNext(rows, i, prev);
        if rows[i].end == prev {
          newMethod := false;
          TouchStep(old(methods), done, rows[i].key, m, p);
          UpdateMethod(m, p, rows[i].key.start);
          done := done + {rows[i].key};
        }
      }
      ChosenAll(rows, old(methods), keys, prev);
      assert done == Ending(old(methods), {m.hash}, p.id, {m.file}, prev);
    }

    /** Extends the rows of unchanged files to the new version and returns their hashes. */
    method UpdateUnchangedFiles(hashes: seq<Hash>, files: seq<File>, p: ProjectIn, prev: int)
      returns (result: seq<Hash>)
      modifies this
      ensures var keys := Ending(old(methods), ToSet(hashes), p.id, ToSet(files), prev);
        && ToSet(result) == HashesOf(keys)
        && State() == old(State()).(methods := RenewRows(old(methods), keys, p))
    {
      var rows := Select(ToSet(hashes), p.id, ToSet(files));
      result := HandleSelectUnchangedMethodsResult(rows, ToSet(hashes), ToSet(files), p, prev);
    }

    method HandleSelectUnchangedMethodsResult(
      rows: seq<SelectedRow>, ghost hashes: set<Hash>, ghost files: set<File>, p: ProjectIn, prev: int)
      returns (result: seq<Hash>)
      requires IsSelection(rows, methods,
                 set k | k in methods && k.hash in hashes && k.project == p.id && k.file in files)
      modifies this
      ensures var keys := Ending(old(methods), hashes, p.id, files, prev);
        && ToSet(result) == HashesOf(keys)
        && State() == old(State()).(methods := RenewRows(old(methods), keys, p))
    {
      hide IsSelection, Chosen, RenewRows, Touched, HashesOf, ToSet;
      result := [];
      ghost var keys := set k | k in methods && k.hash in hashes && k.project == p.id && k.file in files;
      ghost var done: set<MethodKey> := {};
      NothingRenewed(methods, p);
      ChosenNone(rows, prev);
      for i := 0 to |rows|
        invariant done == Chosen(rows, i, prev)
        invariant projects == old(projects) && byAuthor == old(byAuthor)
        invariant methods == RenewRows(old(methods), done, p)
        invariant ToSet(result) == HashesOf(done)
      {
        ChosenFresh(rows, old(methods), keys, i, prev);
        ChosenNext(rows, i, prev);
        if rows[i].end == prev {
          var k := rows[i].key;
          var m := MethodIn(k.hash, rows[i].name, k.file, rows[i].line, [], "");
          RenewStep(old(methods), done, k, m, p);
          HashesOfAdd(done, k);
          ToSetAppend(result, [m.hash]);
          NoAuthors(m, p);
          UpdateMethod(m, p, k.start);
          result := result + [m.hash];
          done := done + {k};
        }
      }
      ChosenAll(rows, old(methods), keys, prev);
      assert done == Ending(old(methods), hashes, p.id, files, prev);
    }
  }
}
