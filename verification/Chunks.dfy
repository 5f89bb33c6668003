/** Cutting a list into chunks and queueing every pair of a chunk of one list and a chunk of
    another. */
module Chunks {

  function Concat<T>(chunks: seq<seq<T>>): seq<T> {
    if chunks == [] then [] else Concat(chunks[..|chunks| - 1]) + chunks[|chunks| - 1]
  }

  /** The chunks in order make up the list; all but the last are full and none is empty. */
  ghost predicate AreChunks<T>(chunks: seq<seq<T>>, list: seq<T>, size: nat) {
    && Concat(chunks) == list
    && (forall i :: 0 <= i < |chunks| ==> 0 < |chunks[i]| <= size)
    && (forall i :: 0 <= i < |chunks| - 1 ==> |chunks[i]| == size)
  }

  method ToChunks<T>(list: seq<T>, chunkSize: nat) returns (chunks: seq<seq<T>>)
    requires chunkSize > 0
    ensures AreChunks(chunks, list, chunkSize)
  {
    var currentChunk: seq<T> := [];
    chunks := [];
    for i := 0 to |list|
      invariant Concat(chunks) + currentChunk == list[..i]
      invariant |currentChunk| < chunkSize
      invariant forall j :: 0 <= j < |chunks| ==> |chunks[j]| == chunkSize
    {
      currentChunk := currentChunk + [list[i]];
      if |currentChunk| >= chunkSize {
        ConcatPush(chunks, currentChunk);
        chunks := chunks + [currentChunk];
        currentChunk := [];
      }
    }
    assert list[..|list|] == list;
    if |currentChunk| > 0 {
      ConcatPush(chunks, currentChunk);
      chunks := chunks + [currentChunk];
    }
  }

  lemma ConcatPush<T>(chunks: seq<seq<T>>, chunk: seq<T>)
    ensures Concat(chunks + [chunk]) == Concat(chunks) + chunk
  {
    assert (chunks + [chunk])[..|chunks + [chunk]| - 1] == chunks;
  }

  lemma {:induction false} InConcat<T>(chunks: seq<seq<T>>, x: T)
    ensures x in Concat(chunks) <==> exists c :: c in chunks && x in c
  {
    if chunks != [] {
      var n := |chunks| - 1;
      InConcat(chunks[..n], x);
      assert chunks == chunks[..n] + [chunks[n]];
    }
  }

  /** Chunks are determined: no two ways of cutting meet the description. */
  lemma ChunksAreUnique<T>(a: seq<seq<T>>, b: seq<seq<T>>, list: seq<T>, size: nat)
    requires AreChunks(a, list, size) && AreChunks(b, list, size)
    ensures a == b
  {
    NoMoreChunks(a, b, list, size);
    NoMoreChunks(b, a, list, size);
    forall i | 0 <= i < |a| ensures a[i] == b[i] {
      ChunkAt(a, list, size, i);
      ChunkAt(b, list, size, i);
    }
  }

  lemma FullChunks<T>(chunks: seq<seq<T>>, list: seq<T>, size: nat)
    requires AreChunks(chunks, list, size)
    ensures chunks != [] ==> (|chunks| - 1) * size < |list| <= |chunks| * size
    ensures chunks == [] <==> list == []
  {
    if chunks != [] {
      var n := |chunks| - 1;
      ConcatLength(chunks[..n], size);
      OneMore(n, size);
    }
  }

  lemma OneMore(n: int, size: nat)
    ensures n * size + size == (n + 1) * size
  {}

  lemma {:induction false} ConcatLength<T>(chunks: seq<seq<T>>, size: nat)
    requires forall i :: 0 <= i < |chunks| ==> |chunks[i]| == size
    ensures |Concat(chunks)| == |chunks| * size
  {
    if chunks != [] {
      ConcatLength(chunks[..|chunks| - 1], size);
      OneMore(|chunks| - 1, size);
    }
  }

  lemma NoMoreChunks<T>(a: seq<seq<T>>, b: seq<seq<T>>, list: seq<T>, size: nat)
    requires AreChunks(a, list, size) && AreChunks(b, list, size)
    ensures |a| <= |b|
  {
    FullChunks(a, list, size);
    FullChunks(b, list, size);
    if |b| < |a| {
      Times(|b|, |a| - 1, size);
    }
  }

  lemma Times(i: nat, j: nat, size: nat)
    requires i <= j
    ensures i * size <= j * size
  {
    assert j * size == i * size + (j - i) * size;
  }

  /** Chunk i holds the elements from i * size on. */
  lemma {:induction false} ChunkAt<T>(chunks: seq<seq<T>>, list: seq<T>, size: nat, i: nat)
    requires AreChunks(chunks, list, size) && i < |chunks|
    ensures var end := i * size + |chunks[i]|;
      end <= |list| && chunks[i] == list[i * size..end] && (i < |chunks| - 1 || end == |list|)
  {
    var n := |chunks| - 1;
    ConcatLength(chunks[..n], size);
    if i < n {
      var most := chunks[..n];
      assert AreChunks(most, Concat(most), size);
      ChunkAt(most, Concat(most), size, i);
      assert list[..|Concat(most)|] == Concat(most);
      assert chunks[i] == list[i * size..i * size + size];
    }
  }

  // ----- Pairs of chunks

  function Product<A, B>(xs: seq<A>, ys: seq<B>): seq<(A, B)> {
    if xs == [] then [] else Product(xs[..|xs| - 1], ys) + PairWith(xs[|xs| - 1], ys)
  }

  function PairWith<A, B>(x: A, ys: seq<B>): seq<(A, B)> {
    seq(|ys|, j requires 0 <= j < |ys| => (x, ys[j]))
  }

  method CartesianProductQueue<A, B>(xs: seq<A>, ys: seq<B>) returns (queue: seq<(A, B)>)
    ensures queue == Product(xs, ys)
  {
    queue := [];
    for i := 0 to |xs|
      invariant queue == Product(xs[..i], ys)
    {
      for j := 0 to |ys|
        invariant queue == Product(xs[..i], ys) + PairWith(xs[i], ys[..j])
      {
        assert PairWith(xs[i], ys[..j + 1]) == PairWith(xs[i], ys[..j]) + [(xs[i], ys[j])];
        queue := queue + [(xs[i], ys[j])];
      }
      assert ys[..|ys|] == ys && xs[..i + 1][..i] == xs[..i];
    }
    assert xs[..|xs|] == xs;
  }

  lemma {:induction false} InProduct<A, B>(xs: seq<A>, ys: seq<B>, x: A, y: B)
    ensures (x, y) in Product(xs, ys) <==> x in xs && y in ys
  {
    if xs != [] {
      var n := |xs| - 1;
      InProduct(xs[..n], ys, x, y);
      assert xs == xs[..n] + [xs[n]];
      var last := PairWith(xs[n], ys);
      if x == xs[n] && y in ys {
        var j :| 0 <= j < |ys| && ys[j] == y;
        assert last[j] == (x, y);
      }
    }
  }

  /** Whatever the chunk sizes, the queued pairs cover exactly the pairs of the two lists. */
  lemma ChunkPairsCover<A, B>(
    xs: seq<A>, ys: seq<B>, xChunks: seq<seq<A>>, yChunks: seq<seq<B>>, m: nat, n: nat, x: A, y: B)
    requires AreChunks(xChunks, xs, m) && AreChunks(yChunks, ys, n)
    ensures x in xs && y in ys <==> exists pair :: pair in Product(xChunks, yChunks) && x in pair.0 && y in pair.1
  {
    hide Concat, Product;
    InConcat(xChunks, x);
    InConcat(yChunks, y);
    if x in xs && y in ys {
      var c :| c in xChunks && x in c;
      var d :| d in yChunks && y in d;
      InProduct(xChunks, yChunks, c, d);
    }
    if pair :| pair in Product(xChunks, yChunks) && x in pair.0 && y in pair.1 {
      InProduct(xChunks, yChunks, pair.0, pair.1);
    }
  }
}
