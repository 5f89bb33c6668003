/** Uploading a version: the project row, the listed methods in whatever order the workers
    finish them, and the methods of unchanged files, queried in chunks. */
module MethodUpload {
  import opened Chunks
  import opened MethodStore
  import opened Sequences
  import opened Wrappers

  datatype Upload = Upload(project: ProjectIn, prev: Option<int>, unchangedFiles: seq<File>, methods: seq<MethodIn>)

  type FilesChunk = (seq<Hash>, seq<File>)

  const HASHES_MAX_SIZE: nat := 1000
  const FILES_MAX_SIZE: nat := 500

  // ----- The unchanged files

  function RenewEnding(t: Tables, hashes: set<Hash>, files: set<File>, p: ProjectIn, prev: int): Tables {
    t.(methods := RenewRows(t.methods, Ending(t.methods, hashes, p.id, files, prev), p))
  }

  /** The tables after the queries of some chunks, one after the other. */
  function AfterChunks(t: Tables, chunks: seq<FilesChunk>, p: ProjectIn, prev: int): Tables {
    if chunks == [] then t
    else
      var n := |chunks| - 1;
      RenewEnding(AfterChunks(t, chunks[..n], p, prev), ToSet(chunks[n].0), ToSet(chunks[n].1), p, prev)
  }

  /** The hashes those queries report together. */
  function Reported(t: Tables, chunks: seq<FilesChunk>, p: ProjectIn, prev: int): set<Hash> {
    if chunks == [] then {}
    else
      var n := |chunks| - 1;
      var now := AfterChunks(t, chunks[..n], p, prev).methods;
      Reported(t, chunks[..n], p, prev)
      + HashesOf(Ending(now, ToSet(chunks[n].0), p.id, ToSet(chunks[n].1), prev))
  }

  function Covered(methods: map<MethodKey, MethodRow>, chunks: seq<FilesChunk>, project: int, prev: int)
    : set<MethodKey>
  {
    set k | k in methods && k.project == project && methods[k].end == prev
      && exists c :: c in chunks && k.hash in c.0 && k.file in c.1
  }

  lemma {:induction false} ChunksAreOnePass(t: Tables, chunks: seq<FilesChunk>, p: ProjectIn, prev: int)
    ensures var keys := Covered(t.methods, chunks, p.id, prev);
      && AfterChunks(t, chunks, p, prev) == t.(methods := RenewRows(t.methods, keys, p))
      && Reported(t, chunks, p, prev) == HashesOf(keys)
  {
    hide RenewRows, HashesOf;
    if chunks == [] {
      NothingRenewed(t.methods, p);
      assert Covered(t.methods, chunks, p.id, prev) == {};
    } else {
      var n := |chunks| - 1;
      ChunksAreOnePass(t, chunks[..n], p, prev);
      var done := Covered(t.methods, chunks[..n], p.id, prev);
      var hashes, files := ToSet(chunks[n].0), ToSet(chunks[n].1);
      var all := Ending(t.methods, hashes, p.id, files, prev);
      RenewMore(t.methods, done, hashes, files, p, prev);
      assert chunks == chunks[..n] + [chunks[n]];
      assert Covered(t.methods, chunks, p.id, prev) == done + all;
    }
  }

  /** A later query finds what earlier ones have not renewed yet. */
  lemma RenewMore(
    methods: map<MethodKey, MethodRow>, done: set<MethodKey>, hashes: set<Hash>, files: set<File>,
    p: ProjectIn, prev: int)
    requires forall k :: k in done ==> k in methods && methods[k].end == prev
    ensures var now, all := RenewRows(methods, done, p), Ending(methods, hashes, p.id, files, prev);
      && RenewRows(now, Ending(now, hashes, p.id, files, prev), p) == RenewRows(methods, done + all, p)
      && HashesOf(done) + HashesOf(Ending(now, hashes, p.id, files, prev)) == HashesOf(done + all)
  {
    var now, all := RenewRows(methods, done, p), Ending(methods, hashes, p.id, files, prev);
    var found := Ending(now, hashes, p.id, files, prev);
    assert found + done == all + done;
    forall h ensures h in HashesOf(done) + HashesOf(found) <==> h in HashesOf(done + all) {
      if h in HashesOf(done + all) {
        var k :| k in done + all && k.hash == h;
        assert k in done || k in found;
      }
    }
  }

  /** For every chunk size and every order of the queued chunk pairs, repeated names included,
      the tables and the reported hashes are those of a single pass over the whole lists. */
  lemma ChunkedUpdateIsOnePass(
    t: Tables, hashes: seq<Hash>, files: seq<File>,
    hashChunks: seq<seq<Hash>>, fileChunks: seq<seq<File>>, m: nat, n: nat, order: seq<FilesChunk>,
    p: ProjectIn, prev: int)
    requires AreChunks(hashChunks, hashes, m) && AreChunks(fileChunks, files, n)
    requires multiset(order) == multiset(Product(hashChunks, fileChunks))
    ensures AfterChunks(t, order, p, prev) == RenewEnding(t, ToSet(hashes), ToSet(files), p, prev)
    ensures Reported(t, order, p, prev) == HashesOf(Ending(t.methods, ToSet(hashes), p.id, ToSet(files), prev))
  {
    hide AreChunks, Product, AfterChunks, Reported, RenewRows, HashesOf;
    ChunksAreOnePass(t, order, p, prev);
    var queue := Product(hashChunks, fileChunks);
    forall c ensures c in order <==> c in queue {
      assert c in order <==> c in multiset(order);
      assert c in queue <==> c in multiset(queue);
    }
    forall k | k in t.methods
      ensures k in Covered(t.methods, order, p.id, prev)
         <==> k in Ending(t.methods, ToSet(hashes), p.id, ToSet(files), prev)
    {
      ChunkPairsCover(hashes, files, hashChunks, fileChunks, m, n, k.hash, k.file);
    }
    assert Covered(t.methods, order, p.id, prev) == Ending(t.methods, ToSet(hashes), p.id, ToSet(files), prev);
  }

  // ----- The listed methods

  function AfterMethods(t: Tables, entries: seq<MethodIn>, p: ProjectIn, prev: int, newProject: bool): Tables {
    if entries == [] then t
    else
      var n := |entries| - 1;
      AddMethod(AfterMethods(t, entries[..n], p, prev, newProject), entries[n], p, prev, p.parserVersion, newProject)
  }

  predicate SameMethod(m: MethodIn, n: MethodIn) {
    m.hash == n.hash && m.file == n.file
  }

  ghost predicate Distinct(entries: seq<MethodIn>) {
    forall i, j :: 0 <= i < j < |entries| ==> !SameMethod(entries[i], entries[j])
  }

  /** Extend the rows there are to extend, or else insert one. */
  function Put(
    methods: map<MethodKey, MethodRow>, keys: set<MethodKey>, row: MethodRow, m: MethodIn, p: ProjectIn)
    : map<MethodKey, MethodRow>
  {
    if keys == {} then methods[Key(m, p, p.version) := row] else TouchRows(methods, keys, m, p)
  }

  lemma AddMethodPuts(t: Tables, m: MethodIn, p: ProjectIn, prev: int, pv: int, newProject: bool)
    ensures AddMethod(t, m, p, prev, pv, newProject)
         == Tables(Put(t.methods, Extends(t, m, p, prev, newProject), InsertedRow(t.methods, m, p, pv), m, p),
                   t.projects, t.byAuthor + AuthorEntries(m, p))
  {}

  lemma PutsCommute(
    methods: map<MethodKey, MethodRow>, p: ProjectIn,
    m: MethodIn, keysM: set<MethodKey>, rowM: MethodRow, n: MethodIn, keysN: set<MethodKey>, rowN: MethodRow)
    requires !SameMethod(m, n)
    requires forall k :: k in keysM ==> k.hash == m.hash && k.file == m.file
    requires forall k :: k in keysN ==> k.hash == n.hash && k.file == n.file
    ensures Put(Put(methods, keysM, rowM, m, p), keysN, rowN, n, p)
         == Put(Put(methods, keysN, rowN, n, p), keysM, rowM, m, p)
  {
    hide Touched;
    assert keysM * keysN == {};
  }

  /** Different methods touch different rows. */
  lemma AddMethodsCommute(t: Tables, m: MethodIn, n: MethodIn, p: ProjectIn, prev: int, pv: int, newProject: bool)
    requires !SameMethod(m, n)
    ensures AddMethod(AddMethod(t, m, p, prev, pv, newProject), n, p, prev, pv, newProject)
         == AddMethod(AddMethod(t, n, p, prev, pv, newProject), m, p, prev, pv, newProject)
  {
    hide AddMethod, Put, InsertedRow, AuthorEntries;
    var a, b := AddMethod(t, m, p, prev, pv, newProject), AddMethod(t, n, p, prev, pv, newProject);
    OthersUnmoved(t, m, n, p, prev, pv, newProject);
    OthersUnmoved(t, n, m, p, prev, pv, newProject);
    AddMethodPuts(t, m, p, prev, pv, newProject);
    AddMethodPuts(t, n, p, prev, pv, newProject);
    AddMethodPuts(a, n, p, prev, pv, newProject);
    AddMethodPuts(b, m, p, prev, pv, newProject);
    PutsCommute(t.methods, p, m, Extends(t, m, p, prev, newProject), InsertedRow(t.methods, m, p, pv),
                n, Extends(t, n, p, prev, newProject), InsertedRow(t.methods, n, p, pv));
    assert a.byAuthor + AuthorEntries(n, p) == b.byAuthor + AuthorEntries(m, p);
  }

  lemma OthersUnmoved(t: Tables, m: MethodIn, n: MethodIn, p: ProjectIn, prev: int, pv: int, newProject: bool)
    requires !SameMethod(m, n)
    ensures var a := AddMethod(t, m, p, prev, pv, newProject);
      && Extends(a, n, p, prev, newProject) == Extends(t, n, p, prev, newProject)
      && InsertedRow(a.methods, n, p, pv) == InsertedRow(t.methods, n, p, pv)
  {}

  lemma {:induction false} MoveToEnd(
    t: Tables, entries: seq<MethodIn>, i: nat, p: ProjectIn, prev: int, newProject: bool)
    requires Distinct(entries) && i < |entries|
    ensures AfterMethods(t, entries, p, prev, newProject)
         == AfterMethods(t, entries[..i] + entries[i + 1..] + [entries[i]], p, prev, newProject)
  {
    hide AddMethod, SameMethod;
    var n := |entries| - 1;
    var moved := entries[..i] + entries[i + 1..] + [entries[i]];
    if i == n {
      assert moved == entries;
    } else {
      var front := entries[..n];
      var without := front[..i] + front[i + 1..];
      MoveToEnd(t, front, i, p, prev, newProject);
      assert moved[..n] == without + [entries[n]] && (without + [entries[n]])[..n - 1] == without;
      assert (without + [front[i]])[..n - 1] == without;
      assert !SameMethod(entries[i], entries[n]);
      var base := AfterMethods(t, without, p, prev, newProject);
      AddMethodsCommute(base, entries[i], entries[n], p, prev, p.parserVersion, newProject);
    }
  }

  /** Whatever order the workers finish in, the tables end up the same - names, line numbers,
      authors and author index included. */
  lemma {:induction false} OrderDoesNotMatter(
    t: Tables, a: seq<MethodIn>, b: seq<MethodIn>, p: ProjectIn, prev: int, newProject: bool)
    requires Distinct(a) && multiset(a) == multiset(b)
    ensures AfterMethods(t, a, p, prev, newProject) == AfterMethods(t, b, p, prev, newProject)
    decreases |b|
  {
    hide AddMethod, Distinct;
    assert |a| == |multiset(a)| == |multiset(b)| == |b|;
    if b != [] {
      var n := |b| - 1;
      assert b[n] in multiset(b);
      var i :| 0 <= i < |a| && a[i] == b[n];
      MoveToEnd(t, a, i, p, prev, newProject);
      var rest := a[..i] + a[i + 1..];
      assert (rest + [a[i]])[..n] == rest;
      WithoutOne(a, i, b);
      OrderDoesNotMatter(t, rest, b[..n], p, prev, newProject);
    }
  }

  lemma WithoutOne(a: seq<MethodIn>, i: nat, b: seq<MethodIn>)
    requires multiset(a) == multiset(b) && Distinct(a)
    requires i < |a| && b != [] && a[i] == b[|b| - 1]
    ensures multiset(a[..i] + a[i + 1..]) == multiset(b[..|b| - 1]) && Distinct(a[..i] + a[i + 1..])
  {
    RemoveOne(a, i, b);
    var rest := a[..i] + a[i + 1..];
    forall x, y | 0 <= x < y < |rest| ensures !SameMethod(rest[x], rest[y]) {
      assert rest[x] == a[if x < i then x else x + 1] && rest[y] == a[if y < i then y else y + 1];
    }
  }
}
