/** The upload request: it finds the previous version, inserts the project and has the workers
    upload the methods and renew the unchanged files. */
module MethodHandler {
  import opened Chunks
  import opened MethodStore
  import opened MethodUpload
  import opened Sequences

  function HashList(methods: seq<MethodIn>): seq<Hash> {
    seq(|methods|, i requires 0 <= i < |methods| => methods[i].hash)
  }

  function ProjectOf(u: Upload): ProjectIn {
    u.project.(hashes := HashList(u.methods))
  }

  predicate Finds(t: Tables, u: Upload) {
    u.prev.None? || ProjectKey(u.project.id, u.prev.value) in t.projects
  }

  const NO_PREVIOUS: int := -1

  function Previous(u: Upload): int {
    if u.prev.Some? then u.prev.value else NO_PREVIOUS
  }

  /** The tables once project and methods are in, the methods finished in the given order. */
  function Listed(t: Tables, u: Upload, order: seq<MethodIn>): Tables {
    var p := ProjectOf(u);
    AfterMethods(t.(projects := InsertProject(t.projects, p)), order, p,
                 Previous(u), u.prev.None?)
  }

  /** The rows that the unchanged files renew. */
  function Unchanged(t: Tables, u: Upload, order: seq<MethodIn>): set<MethodKey>
    requires u.prev.Some? && Finds(t, u)
  {
    var prev := u.prev.value;
    Ending(Listed(t, u, order).methods, t.projects[ProjectKey(u.project.id, prev)].hashes, u.project.id,
           ToSet(u.unchangedFiles), prev)
  }

  function Applied(t: Tables, u: Upload, order: seq<MethodIn>): Tables
    requires Finds(t, u)
  {
    ProjectStays(t, u, order);
    var p, now := ProjectOf(u), Listed(t, u, order);
    if u.prev.None? then now
    else
      var keys := Unchanged(t, u, order);
      now.(methods := RenewRows(now.methods, keys, p), projects := WithHashes(now.projects, p, HashesOf(keys)))
  }

  lemma {:induction false} MethodsLeaveProjects(
    t: Tables, entries: seq<MethodIn>, p: ProjectIn, prev: int, newProject: bool)
    ensures AfterMethods(t, entries, p, prev, newProject).projects == t.projects
  {
    if entries != [] {
      MethodsLeaveProjects(t, entries[..|entries| - 1], p, prev, newProject);
    }
  }

  lemma ProjectStays(t: Tables, u: Upload, order: seq<MethodIn>)
    ensures Listed(t, u, order).projects == InsertProject(t.projects, ProjectOf(u))
  {
    var p := ProjectOf(u);
    MethodsLeaveProjects(t.(projects := InsertProject(t.projects, p)), order, p,
                         Previous(u), u.prev.None?);
  }

  lemma ChunksLeaveProjects(t: Tables, chunks: seq<FilesChunk>, p: ProjectIn, prev: int)
    ensures AfterChunks(t, chunks, p, prev).projects == t.projects
  {
    ChunksAreOnePass(t, chunks, p, prev);
  }

  class DatabaseRequestHandler {
    const database: DatabaseHandler

    constructor (database: DatabaseHandler)
      ensures this.database == database
    {
      this.database := database;
    }

    method HandleUploadRequest(u: Upload) returns (ok: bool)
      modifies database
      ensures ok <==> Finds(old(database.State()), u)
      ensures !ok ==> database.State() == old(database.State())
      ensures ok ==> exists order ::
        multiset(order) == multiset(u.methods) && database.State() == Applied(old(database.State()), u, order)
    {
      hide Listed, Unchanged, RenewRows, WithHashes, InsertProject, Ending, HashesOf;
      ghost var t := database.State();
      var p := u.project.(hashes := []);
      var prevHashes: set<Hash> := {};
      if u.prev.Some? {
        var found, row := database.SearchForProject(p.id, u.prev.value);
        if !found {
          return false;
        }
        prevHashes := row.hashes;
      }
      for i := 0 to |u.methods|
        invariant p == u.project.(hashes := HashList(u.methods[..i]))
        invariant database.State() == t
      {
        p := p.(hashes := p.hashes + [u.methods[i].hash]);
        assert HashList(u.methods[..i + 1]) == HashList(u.methods[..i]) + [u.methods[i].hash];
      }
      assert u.methods[..|u.methods|] == u.methods;
      database.AddProject(p);
      ghost var order;
      if u.prev.None? {
        order := UploadMethods(u.methods, p, NO_PREVIOUS, true);
        ListedIs(t, u, order);
        assert database.State() == Applied(t, u, order);
      } else {
        order := UploadMethods(u.methods, p, u.prev.value, false);
        ListedIs(t, u, order);
        ProjectStays(t, u, order);
        HasProject(t, p);
        UpdateUnchangedFiles(p, u.prev.value, prevHashes, u.unchangedFiles);
        UnchangedIs(t, u, order);
        assert database.State() == Applied(t, u, order);
      }
      ok := true;
    }

    /** The workers drain the queue; which of them finishes next is not determined. */
    method UploadMethods(methods: seq<MethodIn>, p: ProjectIn, prev: int, newProject: bool)
      returns (ghost order: seq<MethodIn>)
      modifies database
      ensures multiset(order) == multiset(methods)
      ensures database.State() == AfterMethods(old(database.State()), order, p, prev, newProject)
    {
      hide AddMethod;
      var queue := methods;
      order := [];
      while queue != []
        invariant multiset(order) + multiset(queue) == multiset(methods)
        invariant database.State() == AfterMethods(old(database.State()), order, p, prev, newProject)
        decreases |queue|
      {
        var i :| 0 <= i < |queue|;
        var m := queue[i];
        SplitAt(queue, i);
        queue := queue[..i] + queue[i + 1..];
        database.UploadMethod(m, p, prev, p.parserVersion, newProject);
        assert (order + [m])[..|order|] == order;
        order := order + [m];
      }
    }

    method UpdateUnchangedFiles(p: ProjectIn, prev: int, prevHashes: set<Hash>, files: seq<File>)
      requires ProjectKey(p.id, p.version) in database.projects
      modifies database
      ensures var t := old(database.State());
        var keys := Ending(t.methods, prevHashes, p.id, ToSet(files), prev);
        database.State() == t.(methods := RenewRows(t.methods, keys, p),
                               projects := WithHashes(t.projects, p, HashesOf(keys)))
    {
      hide RenewEnding, Ending, RenewRows, HashesOf, AreChunks, Product, ToSet, AfterChunks, Reported, WithHashes;
      var hashes := InSomeOrder(prevHashes);
      var hashesList := ToChunks(hashes, HASHES_MAX_SIZE);
      var filesList := ToChunks(files, FILES_MAX_SIZE);
      var queue := CartesianProductQueue(hashesList, filesList);
      ghost var all, t := queue, database.State();
      ghost var order: seq<FilesChunk> := [];
      var unchangedHashes: seq<Hash> := [];
      NoChunks(t, p, prev);
      while queue != []
        invariant multiset(order) + multiset(queue) == multiset(all)
        invariant database.State() == AfterChunks(t, order, p, prev)
        invariant ToSet(unchangedHashes) == Reported(t, order, p, prev)
        decreases |queue|
      {
        var i :| 0 <= i < |queue|;
        var chunk := queue[i];
        SplitAt(queue, i);
        queue := queue[..i] + queue[i + 1..];
        var newHashes := database.UpdateUnchangedFiles(chunk.0, chunk.1, p, prev);
        NextChunk(t, order, chunk, p, prev);
        ToSetAppend(unchangedHashes, newHashes);
        unchangedHashes := unchangedHashes + newHashes;
        order := order + [chunk];
      }
      assert multiset(order) == multiset(all) + multiset{} - multiset{};
      ChunkedUpdateIsOnePass(t, hashes, files, hashesList, filesList, HASHES_MAX_SIZE, FILES_MAX_SIZE, order, p, prev);
      ChunksLeaveProjects(t, order, p, prev);
      assert unchangedHashes[0..] == unchangedHashes;
      var q := p.(hashes := unchangedHashes);
      database.AddHashToProject(q, 0);
      Finish(t, q, p, ToSet(hashes), ToSet(files), prev);
    }

    /** The hashes of a stored project as a list, in an order the store chooses. */
    method InSomeOrder(hashes: set<Hash>) returns (list: seq<Hash>)
      ensures ToSet(list) == hashes
    {
      list := [];
      var todo := hashes;
      while todo != {}
        invariant ToSet(list) + todo == hashes
        decreases |todo|
      {
        var h :| h in todo;
        todo := todo - {h};
        list := list + [h];
      }
    }
  }

  lemma NoChunks(t: Tables, p: ProjectIn, prev: int)
    ensures AfterChunks(t, [], p, prev) == t && Reported(t, [], p, prev) == ToSet<Hash>([])
  {}

  lemma NextChunk(t: Tables, order: seq<FilesChunk>, c: FilesChunk, p: ProjectIn, prev: int)
    ensures var now := AfterChunks(t, order, p, prev);
      var keys := Ending(now.methods, ToSet(c.0), p.id, ToSet(c.1), prev);
      && AfterChunks(t, order + [c], p, prev) == now.(methods := RenewRows(now.methods, keys, p))
      && Reported(t, order + [c], p, prev) == Reported(t, order, p, prev) + HashesOf(keys)
  {
    hide Ending, RenewRows, HashesOf, ToSet;
    assert (order + [c])[..|order|] == order;
  }

  lemma Finish(t: Tables, q: ProjectIn, p: ProjectIn, hashes: set<Hash>, files: set<File>, prev: int)
    requires ProjectKey(p.id, p.version) in t.projects && q == p.(hashes := q.hashes)
    ensures RenewEnding(t, hashes, files, p, prev)
         == t.(methods := RenewRows(t.methods, Ending(t.methods, hashes, p.id, files, prev), p))
    ensures forall hs :: WithHashes(t.projects, q, hs) == WithHashes(t.projects, p, hs)
  {}

  lemma ListedIs(t: Tables, u: Upload, order: seq<MethodIn>)
    ensures Listed(t, u, order)
         == AfterMethods(t.(projects := InsertProject(t.projects, ProjectOf(u))), order, ProjectOf(u),
                         Previous(u), u.prev.None?)
  {}

  lemma HasProject(t: Tables, p: ProjectIn)
    ensures ProjectKey(p.id, p.version) in InsertProject(t.projects, p)
  {}

  lemma UnchangedIs(t: Tables, u: Upload, order: seq<MethodIn>)
    requires u.prev.Some? && Finds(t, u)
    ensures Unchanged(t, u, order)
         == Ending(Listed(t, u, order).methods, t.projects[ProjectKey(u.project.id, u.prev.value)].hashes,
                   u.project.id, ToSet(u.unchangedFiles), u.prev.value)
  {}
}
