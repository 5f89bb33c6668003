/** The workers of an upload: whatever way they take turns, the tables end up as if one worker
    had gone through the queue, and what the workers return together is what it reports. */
module MethodPool {
  import opened Chunks
  import opened MethodStore
  import opened MethodUpload
  import opened WorkerPool

  // ----- Uploading methods

  /** A worker that uploads methods changes the tables and returns nothing. */
  function Uploading(p: ProjectIn, prev: int, newProject: bool): (Tables, MethodIn) -> (Tables, seq<Hash>) {
    (t, m) => (AddMethod(t, m, p, prev, p.parserVersion, newProject), [])
  }

  lemma {:induction false} UploadingInOrder(
    t: Tables, methods: seq<MethodIn>, p: ProjectIn, prev: int, newProject: bool)
    ensures Sequential(t, methods, Uploading(p, prev, newProject)).0 == AfterMethods(t, methods, p, prev, newProject)
  {
    hide AddMethod;
    if methods != [] {
      UploadingInOrder(t, methods[..|methods| - 1], p, prev, newProject);
    }
  }

  /** Any number of workers, however they take turns, leave the tables of one worker that goes
      through the queue in the order they finished; the order is no matter when no method is
      listed twice. */
  lemma PooledUploadIsSequential(
    t: Tables, methods: seq<MethodIn>, n: nat, events: seq<Event>, p: ProjectIn, prev: int, newProject: bool)
    requires IsRun(Start<Tables, MethodIn, Hash>(methods, n, t), events, Uploading(p, prev, newProject))
    requires Finished(Run(Start<Tables, MethodIn, Hash>(methods, n, t), events, Uploading(p, prev, newProject)))
    ensures var pool := Run(Start<Tables, MethodIn, Hash>(methods, n, t), events, Uploading(p, prev, newProject));
      && multiset(pool.done) == multiset(methods)
      && pool.store == AfterMethods(t, pool.done, p, prev, newProject)
      && (Distinct(methods) ==> pool.store == AfterMethods(t, methods, p, prev, newProject))
  {
    hide IsRun, Run, Finished, Start, AfterMethods, Distinct, Sequential, Uploading;
    var work := Uploading(p, prev, newProject);
    PoolIsSequential(methods, n, t, events, work);
    var done := Run(Start<Tables, MethodIn, Hash>(methods, n, t), events, work).done;
    UploadingInOrder(t, done, p, prev, newProject);
    if Distinct(methods) {
      OrderDoesNotMatter(t, methods, done, p, prev, newProject);
    }
  }

  // ----- Updating unchanged files

  /** A worker that queries a chunk renews the rows it finds and returns their hashes, in any
      order and number. */
  ghost predicate IsQuery(work: (Tables, FilesChunk) -> (Tables, seq<Hash>), p: ProjectIn, prev: int) {
    forall t, c :: var (t', hashes) := work(t, c);
      && t' == RenewEnding(t, ToSet(c.0), ToSet(c.1), p, prev)
      && ToSet(hashes) == HashesOf(Ending(t.methods, ToSet(c.0), p.id, ToSet(c.1), prev))
  }

  ghost function AsList(hashes: set<Hash>): (list: seq<Hash>)
    ensures ToSet(list) == hashes
    decreases |hashes|
  {
    if hashes == {} then []
    else
      var h :| h in hashes;
      ToSetAppend([h], AsList(hashes - {h}));
      [h] + AsList(hashes - {h})
  }

  lemma SomeWorkerQueries(p: ProjectIn, prev: int)
    ensures exists work :: IsQuery(work, p, prev)
  {
    hide ToSet, HashesOf, Ending, RenewEnding;
    ghost var work := (t: Tables, c: FilesChunk) =>
      (RenewEnding(t, ToSet(c.0), ToSet(c.1), p, prev),
       AsList(HashesOf(Ending(t.methods, ToSet(c.0), p.id, ToSet(c.1), prev))));
    assert IsQuery(work, p, prev);
  }

  lemma {:induction false} QueriesInOrder(
    t: Tables, chunks: seq<FilesChunk>, work: (Tables, FilesChunk) -> (Tables, seq<Hash>), p: ProjectIn, prev: int)
    requires IsQuery(work, p, prev)
    ensures Sequential(t, chunks, work).0 == AfterChunks(t, chunks, p, prev)
    ensures ToSet(Sequential(t, chunks, work).1) == Reported(t, chunks, p, prev)
  {
    hide RenewEnding, Ending, HashesOf, ToSet;
    if chunks == [] {
      ToSetNone<Hash>();
    } else {
      var n := |chunks| - 1;
      QueriesInOrder(t, chunks[..n], work, p, prev);
      var (before, results) := Sequential(t, chunks[..n], work);
      var (after, more) := work(before, chunks[n]);
      ToSetAppend(results, more);
    }
  }

  lemma SameSet<T>(a: seq<T>, b: seq<T>)
    requires multiset(a) == multiset(b)
    ensures ToSet(a) == ToSet(b)
  {
    forall x ensures x in a <==> x in b {
      assert x in a <==> x in multiset(a);
      assert x in b <==> x in multiset(b);
    }
  }

  /** The queue of chunk pairs, worked off by any number of workers with any chunk sizes, leaves
      the tables of one pass over all hashes and files; the merged results of the workers are
      the hashes that pass finds. */
  lemma PooledUpdateIsOnePass(
    t: Tables, hashes: seq<Hash>, files: seq<File>, hashChunks: seq<seq<Hash>>, fileChunks: seq<seq<File>>,
    size: nat, size': nat, n: nat, events: seq<Event>, work: (Tables, FilesChunk) -> (Tables, seq<Hash>),
    p: ProjectIn, prev: int)
    requires AreChunks(hashChunks, hashes, size) && AreChunks(fileChunks, files, size')
    requires IsQuery(work, p, prev)
    requires IsRun(Start<Tables, FilesChunk, Hash>(Product(hashChunks, fileChunks), n, t), events, work)
    requires Finished(Run(Start<Tables, FilesChunk, Hash>(Product(hashChunks, fileChunks), n, t), events, work))
    ensures var pool := Run(Start<Tables, FilesChunk, Hash>(Product(hashChunks, fileChunks), n, t), events, work);
      && pool.store == RenewEnding(t, ToSet(hashes), ToSet(files), p, prev)
      && ToSet(Merged(pool.workers)) == HashesOf(Ending(t.methods, ToSet(hashes), p.id, ToSet(files), prev))
  {
    hide IsRun, Run, Finished, Start, AreChunks, Product, AfterChunks, Reported, RenewEnding, Sequential, IsQuery,
      Merged, ToSet;
    var queue := Product(hashChunks, fileChunks);
    PoolIsSequential(queue, n, t, events, work);
    var pool := Run(Start<Tables, FilesChunk, Hash>(queue, n, t), events, work);
    QueriesInOrder(t, pool.done, work, p, prev);
    SameSet(Merged(pool.workers), Sequential(t, pool.done, work).1);
    ChunkedUpdateIsOnePass(t, hashes, files, hashChunks, fileChunks, size, size', pool.done, p, prev);
  }
}
