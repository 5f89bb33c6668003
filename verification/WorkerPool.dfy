/** A fixed number of workers pop a shared, locked queue; each works on one item at a time,
    which may change the store they all work on, and collects its results, which are
    concatenated when all workers have finished. Popping is one step (under the lock), working
    and collecting another, so that a run is any interleaving of the workers. */
module WorkerPool {
  import opened Sequences

  const MAX_THREADS: nat := 16

  datatype Worker<T, R> = Idle(results: seq<R>) | Busy(item: T, results: seq<R>)

  /** done lists the items whose work is finished, in the order of finishing. */
  datatype Pool<S, T, R> = Pool(queue: seq<T>, workers: seq<Worker<T, R>>, done: seq<T>, store: S)

  datatype Event = Pop(w: nat) | Finish(w: nat)

  function Start<S, T, R>(items: seq<T>, n: nat, store: S): Pool<S, T, R> {
    Pool(items, seq(n, i => Idle([])), [], store)
  }

  predicate Enabled<S, T, R>(p: Pool<S, T, R>, e: Event) {
    && e.w < |p.workers|
    && match e
       case Pop(w) => p.workers[w].Idle? && p.queue != []
       case Finish(w) => p.workers[w].Busy?
  }

  function Step<S, T, R>(p: Pool<S, T, R>, e: Event, work: (S, T) -> (S, seq<R>)): Pool<S, T, R>
    requires Enabled(p, e)
  {
    var worker := p.workers[e.w];
    match e
    case Pop(w) => p.(queue := p.queue[1..], workers := p.workers[w := Busy(p.queue[0], worker.results)])
    case Finish(w) =>
      var (store, more) := work(p.store, worker.item);
      Pool(p.queue, p.workers[w := Idle(worker.results + more)], p.done + [worker.item], store)
  }

  predicate IsRun<S, T, R>(p: Pool<S, T, R>, events: seq<Event>, work: (S, T) -> (S, seq<R>))
    decreases |events|
  {
    events == [] || (Enabled(p, events[0]) && IsRun(Step(p, events[0], work), events[1..], work))
  }

  function Run<S, T, R>(p: Pool<S, T, R>, events: seq<Event>, work: (S, T) -> (S, seq<R>)): Pool<S, T, R>
    requires IsRun(p, events, work)
    decreases |events|
  {
    if events == [] then p else Run(Step(p, events[0], work), events[1..], work)
  }

  /** All workers have found the queue empty. */
  predicate Finished<S, T, R>(p: Pool<S, T, R>) {
    p.queue == [] && forall i :: 0 <= i < |p.workers| ==> p.workers[i].Idle?
  }

  function Merged<T, R>(workers: seq<Worker<T, R>>): seq<R> {
    if workers == [] then []
    else Merged(workers[..|workers| - 1]) + workers[|workers| - 1].results
  }

  /** One worker alone, item by item: the store it leaves and the results it returns. */
  function Sequential<S, T, R>(store: S, items: seq<T>, work: (S, T) -> (S, seq<R>)): (S, seq<R>) {
    if items == [] then (store, [])
    else
      var (before, results) := Sequential(store, items[..|items| - 1], work);
      var (after, more) := work(before, items[|items| - 1]);
      (after, results + more)
  }

  // ----- What every step keeps

  function Held<T(==), R>(w: Worker<T, R>): multiset<T> {
    if w.Busy? then multiset{w.item} else multiset{}
  }

  function InHand<T(==), R>(workers: seq<Worker<T, R>>): multiset<T> {
    if workers == [] then multiset{}
    else InHand(workers[..|workers| - 1]) + Held(workers[|workers| - 1])
  }

  function BusyCount<T, R>(workers: seq<Worker<T, R>>): nat {
    if workers == [] then 0
    else BusyCount(workers[..|workers| - 1]) + if workers[|workers| - 1].Busy? then 1 else 0
  }

  /** The steps left in any run: every queued item takes two, every item in hand one. */
  function Remaining<S, T, R>(p: Pool<S, T, R>): nat {
    2 * |p.queue| + BusyCount(p.workers)
  }

  lemma Swap<X>(rest: multiset<X>, rest': multiset<X>, last: multiset<X>, before: multiset<X>, after: multiset<X>)
    requires rest' + before == rest + after
    ensures (rest' + last) + before == (rest + last) + after
  {
    calc {
      (rest' + last) + before;
      (rest' + before) + last;
      (rest + after) + last;
      (rest + last) + after;
    }
  }

  /** What moves from one place to another is not lost. */
  lemma Move<X>(a: multiset<X>, b: multiset<X>, b': multiset<X>, c: multiset<X>, out: multiset<X>, back: multiset<X>)
    requires b' + out == b + back
    ensures (a + b') + (c + out) == (a + back) + b + c
  {
    calc {
      (a + b') + (c + out);
      (b' + out) + (a + c);
      (b + back) + (a + c);
      (a + back) + b + c;
    }
  }

  lemma {:induction false} ReplacedInHand<T, R>(workers: seq<Worker<T, R>>, i: nat, w: Worker<T, R>)
    requires i < |workers|
    ensures InHand(workers[i := w]) + Held(workers[i]) == InHand(workers) + Held(w)
  {
    hide Held;
    var n := |workers| - 1;
    if i == n {
      assert workers[i := w][..n] == workers[..n];
    } else {
      assert workers[i := w][..n] == workers[..n][i := w];
      ReplacedInHand(workers[..n], i, w);
      Swap(InHand(workers[..n]), InHand(workers[..n][i := w]), Held(workers[n]), Held(workers[i]), Held(w));
    }
  }

  lemma {:induction false} ReplacedMerged<T, R>(workers: seq<Worker<T, R>>, i: nat, w: Worker<T, R>, more: seq<R>)
    requires i < |workers| && w.results == workers[i].results + more
    ensures multiset(Merged(workers[i := w])) == multiset(Merged(workers)) + multiset(more)
  {
    var n := |workers| - 1;
    if i == n {
      assert workers[i := w][..n] == workers[..n];
      assert Merged(workers[i := w]) == Merged(workers) + more;
    } else {
      assert workers[i := w][..n] == workers[..n][i := w];
      ReplacedMerged(workers[..n], i, w, more);
      var rest, rest' := Merged(workers[..n]), Merged(workers[..n][i := w]);
      assert multiset(rest') + multiset(workers[n].results)
          == multiset(rest) + multiset(workers[n].results) + multiset(more);
    }
  }

  lemma {:induction false} ReplacedBusy<T, R>(workers: seq<Worker<T, R>>, i: nat, w: Worker<T, R>)
    requires i < |workers|
    ensures BusyCount(workers[i := w]) + (if workers[i].Busy? then 1 else 0)
         == BusyCount(workers) + if w.Busy? then 1 else 0
  {
    var n := |workers| - 1;
    if i == n {
      assert workers[i := w][..n] == workers[..n];
    } else {
      assert workers[i := w][..n] == workers[..n][i := w];
      ReplacedBusy(workers[..n], i, w);
    }
  }

  /** No item is lost or doubled. */
  lemma StepKeepsItems<S, T, R>(p: Pool<S, T, R>, e: Event, work: (S, T) -> (S, seq<R>))
    requires Enabled(p, e)
    ensures var p' := Step(p, e, work);
      multiset(p'.queue) + InHand(p'.workers) + multiset(p'.done)
      == multiset(p.queue) + InHand(p.workers) + multiset(p.done)
  {
    hide InHand;
    var p' := Step(p, e, work);
    var before, after := Held(p.workers[e.w]), Held(p'.workers[e.w]);
    ReplacedInHand(p.workers, e.w, p'.workers[e.w]);
    if e.Pop? {
      assert p.queue == [p.queue[0]] + p.queue[1..];
      assert multiset(p.queue) == multiset(p'.queue) + after;
      assert before == multiset{};
    } else {
      assert multiset(p'.done) == multiset(p.done) + before;
      assert after == multiset{};
    }
    Move(multiset(p'.queue), InHand(p.workers), InHand(p'.workers), multiset(p.done), before, after);
  }

  /** The store and the results so far are those of one worker that had done the finished items
      in the order they were finished. */
  ghost predicate IsSequential<S, T, R>(p: Pool<S, T, R>, store: S, work: (S, T) -> (S, seq<R>)) {
    var (after, results) := Sequential(store, p.done, work);
    p.store == after && multiset(Merged(p.workers)) == multiset(results)
  }

  lemma StepKeepsResults<S, T, R>(p: Pool<S, T, R>, e: Event, store: S, work: (S, T) -> (S, seq<R>))
    requires Enabled(p, e) && IsSequential(p, store, work)
    ensures IsSequential(Step(p, e, work), store, work)
  {
    hide Merged;
    var p', w := Step(p, e, work), p.workers[e.w];
    if e.Pop? {
      ReplacedMerged(p.workers, e.w, p'.workers[e.w], []);
    } else {
      ReplacedMerged(p.workers, e.w, p'.workers[e.w], work(p.store, w.item).1);
      assert p'.done[..|p'.done| - 1] == p.done;
    }
  }

  /** Each step is one of those left. */
  lemma StepCounts<S, T, R>(p: Pool<S, T, R>, e: Event, work: (S, T) -> (S, seq<R>))
    requires Enabled(p, e)
    ensures Remaining(Step(p, e, work)) + 1 == Remaining(p)
    ensures |Step(p, e, work).workers| == |p.workers|
  {
    hide BusyCount;
    ReplacedBusy(p.workers, e.w, Step(p, e, work).workers[e.w]);
  }

  lemma {:induction false} RunKeeps<S, T, R>(
    p: Pool<S, T, R>, events: seq<Event>, store: S, work: (S, T) -> (S, seq<R>))
    requires IsRun(p, events, work) && IsSequential(p, store, work)
    ensures var q := Run(p, events, work);
      && multiset(q.queue) + InHand(q.workers) + multiset(q.done)
         == multiset(p.queue) + InHand(p.workers) + multiset(p.done)
      && IsSequential(q, store, work)
      && Remaining(q) + |events| == Remaining(p)
      && |q.workers| == |p.workers|
    decreases |events|
  {
    if events != [] {
      hide Enabled, Step, InHand, Remaining, IsSequential;
      StepKeepsItems(p, events[0], work);
      StepKeepsResults(p, events[0], store, work);
      StepCounts(p, events[0], work);
      RunKeeps(Step(p, events[0], work), events[1..], store, work);
    }
  }

  lemma {:induction false} AllIdle<T, R>(workers: seq<Worker<T, R>>)
    ensures (forall i :: 0 <= i < |workers| ==> workers[i].Idle?) <==> BusyCount(workers) == 0
    ensures BusyCount(workers) == 0 ==> InHand(workers) == multiset{}
  {
    if workers != [] {
      var n := |workers| - 1;
      AllIdle(workers[..n]);
      assert workers == workers[..n] + [workers[n]];
    }
  }

  lemma StartIsSequential<S, T, R>(items: seq<T>, n: nat, store: S, work: (S, T) -> (S, seq<R>))
    ensures IsSequential(Start<S, T, R>(items, n, store), store, work)
  {
    NothingMerged<S, T, R>(n, store);
  }

  lemma {:induction false} NothingMerged<S, T, R>(n: nat, store: S)
    ensures Merged(Start<S, T, R>([], n, store).workers) == []
  {
    if n > 0 {
      assert Start<S, T, R>([], n, store).workers[..n - 1] == Start<S, T, R>([], n - 1, store).workers;
      NothingMerged<S, T, R>(n - 1, store);
    }
  }

  // ----- The pool refines the sequential loop

  /** Under every interleaving, when all workers are done each item has been worked on exactly
      once; the store is the one, and the merged results are a permutation of those, that a
      single worker has after the items in the order of finishing; every complete run takes
      two steps for each item. */
  lemma PoolIsSequential<S, T, R>(
    items: seq<T>, n: nat, store: S, events: seq<Event>, work: (S, T) -> (S, seq<R>))
    requires IsRun(Start<S, T, R>(items, n, store), events, work)
    requires Finished(Run(Start<S, T, R>(items, n, store), events, work))
    ensures var q := Run(Start<S, T, R>(items, n, store), events, work);
      && multiset(q.done) == multiset(items)
      && q.store == Sequential(store, q.done, work).0
      && multiset(Merged(q.workers)) == multiset(Sequential(store, q.done, work).1)
      && |events| == 2 * |items|
  {
    hide Run, IsRun, InHand, Sequential, Merged, BusyCount;
    var p := Start<S, T, R>(items, n, store);
    var q := Run(p, events, work);
    StartIsSequential<S, T, R>(items, n, store, work);
    RunKeeps(p, events, store, work);
    AllIdle(p.workers);
    AllIdle(q.workers);
    assert multiset(p.done) == multiset{} == multiset(q.queue);
    Alone(multiset(q.done), multiset(items));
  }

  lemma Alone<X>(a: multiset<X>, b: multiset<X>)
    ensures multiset{} + multiset{} + a == a && b + multiset{} + multiset{} == b
  {}

  /** The workers never block one another: unless all is done some step is possible, and a run
      is finished exactly when its steps are used up. */
  lemma PoolNeverSticks<S, T, R>(
    items: seq<T>, n: nat, store: S, events: seq<Event>, work: (S, T) -> (S, seq<R>))
    requires IsRun(Start<S, T, R>(items, n, store), events, work) && n > 0
    ensures var q := Run(Start<S, T, R>(items, n, store), events, work);
      && (Finished(q) <==> |events| == 2 * |items|)
      && (!Finished(q) ==> exists e :: Enabled(q, e))
  {
    hide Run, IsRun, InHand, Sequential, Merged, BusyCount, IsSequential;
    var p := Start<S, T, R>(items, n, store);
    var q := Run(p, events, work);
    StartIsSequential<S, T, R>(items, n, store, work);
    RunKeeps(p, events, store, work);
    AllIdle(p.workers);
    AllIdle(q.workers);
    if !Finished(q) {
      if w :| 0 <= w < n && q.workers[w].Busy? {
        assert Enabled(q, Finish(w));
      } else {
        assert q.queue != [];
        assert Enabled(q, Pop(0));
      }
    }
  }

  // ----- Workers that only read

  /** Looking an item up leaves the store as it is. */
  function Reading<T, R>(lookup: T -> seq<R>): (int, T) -> (int, seq<R>) {
    (store, item) => (store, lookup(item))
  }

  function Lookups<T, R>(items: seq<T>, lookup: T -> seq<R>): seq<R> {
    if items == [] then [] else Lookups(items[..|items| - 1], lookup) + lookup(items[|items| - 1])
  }

  lemma {:induction false} ReadingIsLookups<T, R>(items: seq<T>, lookup: T -> seq<R>)
    ensures Sequential(0, items, Reading(lookup)) == (0, Lookups(items, lookup))
  {
    if items != [] {
      ReadingIsLookups(items[..|items| - 1], lookup);
    }
  }

  lemma {:induction false} LookupsWithout<T, R>(items: seq<T>, i: nat, lookup: T -> seq<R>)
    requires i < |items|
    ensures multiset(Lookups(items, lookup))
         == multiset(Lookups(items[..i] + items[i + 1..], lookup)) + multiset(lookup(items[i]))
  {
    var n := |items| - 1;
    var rest := items[..i] + items[i + 1..];
    if i == n {
      assert rest == items[..n];
    } else {
      LookupsWithout(items[..n], i, lookup);
      assert rest[..|rest| - 1] == items[..n][..i] + items[..n][i + 1..];
      var front := Lookups(items[..n][..i] + items[..n][i + 1..], lookup);
      assert multiset(Lookups(rest, lookup)) == multiset(front) + multiset(lookup(items[n]));
    }
  }

  lemma {:induction false} LookupsInAnyOrder<T, R>(a: seq<T>, b: seq<T>, lookup: T -> seq<R>)
    requires multiset(a) == multiset(b)
    ensures multiset(Lookups(a, lookup)) == multiset(Lookups(b, lookup))
    decreases |b|
  {
    hide Lookups;
    assert |a| == |multiset(a)| == |multiset(b)| == |b|;
    if b == [] {
      assert a == b;
    } else {
      var n := |b| - 1;
      assert b[n] in multiset(b);
      var i :| 0 <= i < |a| && a[i] == b[n];
      RemoveOne(a, i, b);
      LookupsInAnyOrder(a[..i] + a[i + 1..], b[..n], lookup);
      LookupsWithout(a, i, lookup);
      LookupsWithout(b, n, lookup);
      assert b[..n] + b[n + 1..] == b[..n];
    }
  }

  /** Workers that only read return a permutation of the lookups of the queue in order. */
  lemma ReadersAreSequential<T, R>(items: seq<T>, n: nat, events: seq<Event>, lookup: T -> seq<R>)
    requires IsRun(Start<int, T, R>(items, n, 0), events, Reading(lookup))
    requires Finished(Run(Start<int, T, R>(items, n, 0), events, Reading(lookup)))
    ensures multiset(Merged(Run(Start<int, T, R>(items, n, 0), events, Reading(lookup)).workers))
         == multiset(Lookups(items, lookup))
  {
    hide Run, IsRun, Finished, Start, Sequential, Merged, Lookups;
    PoolIsSequential(items, n, 0, events, Reading(lookup));
    var done := Run(Start<int, T, R>(items, n, 0), events, Reading(lookup)).done;
    ReadingIsLookups(done, lookup);
    LookupsInAnyOrder(done, items, lookup);
  }

  // ----- The pool as shared memory

  class SharedPool<T, R> {
    var queue: seq<T>
    var workers: seq<Worker<T, R>>
    ghost var done: seq<T>

    ghost function State(): Pool<int, T, R>
      reads this
    {
      Pool(queue, workers, done, 0)
    }

    constructor (items: seq<T>, n: nat)
      ensures State() == Start<int, T, R>(items, n, 0)
    {
      queue, workers, done := items, seq(n, i => Idle([])), [];
    }

    /** A worker takes the front of the queue while it holds the lock. */
    method Take(w: nat, ghost lookup: T -> seq<R>)
      requires Enabled(State(), Pop(w))
      modifies this
      ensures State() == Step(old(State()), Pop(w), Reading(lookup))
    {
      var item := queue[0];
      queue := queue[1..];
      workers := workers[w := Busy(item, workers[w].results)];
    }

    /** A worker looks its item up and keeps the results. */
    method Complete(w: nat, lookup: T -> seq<R>)
      requires Enabled(State(), Finish(w))
      modifies this
      ensures State() == Step(old(State()), Finish(w), Reading(lookup))
    {
      var item, results := workers[w].item, workers[w].results;
      var newResults := lookup(item);
      for j := 0 to |newResults|
        invariant State() == old(State()) && results == old(workers[w].results) + newResults[..j]
      {
        results := results + [newResults[j]];
      }
      assert newResults[..|newResults|] == newResults;
      workers, done := workers[w := Idle(results)], done + [item];
    }

    /** The results of all workers, in the order of the workers. */
    method Join() returns (merged: seq<R>)
      ensures merged == Merged(workers)
    {
      merged := [];
      for i := 0 to |workers|
        invariant merged == Merged(workers[..i])
      {
        assert workers[..i + 1][..i] == workers[..i];
        var results := workers[i].results;
        for j := 0 to |results|
          invariant merged == Merged(workers[..i]) + results[..j]
        {
          merged := merged + [results[j]];
        }
      }
      assert workers[..|workers|] == workers;
    }
  }

  /** Starts the workers, lets them take turns in any way until all are done, and merges. */
  method Collect<T, R>(items: seq<T>, lookup: T -> seq<R>) returns (merged: seq<R>)
    ensures multiset(merged) == multiset(Lookups(items, lookup))
  {
    hide Remaining, Step, BusyCount, Merged, InHand, Sequential, IsSequential, Lookups, Reading;
    ghost var work := Reading(lookup);
    var pool := new SharedPool<T, R>(items, MAX_THREADS);
    StartIsSequential<int, T, R>(items, MAX_THREADS, 0, work);
    AllIdle(pool.workers);
    Alone(multiset{}, multiset(items));
    while pool.queue != [] || exists w :: 0 <= w < |pool.workers| && pool.workers[w].Busy?
      invariant |pool.workers| == MAX_THREADS
      invariant IsSequential(pool.State(), 0, work)
      invariant multiset(pool.queue) + InHand(pool.workers) + multiset(pool.done) == multiset(items)
      decreases Remaining(pool.State())
    {
      SomeCanStep(pool.State());
      var w :| 0 <= w < |pool.workers| && (pool.workers[w].Idle? ==> pool.queue != []);
      ghost var p := pool.State();
      ghost var e := if pool.workers[w].Idle? then Pop(w) else Finish(w);
      StepKeepsItems(p, e, work);
      StepKeepsResults(p, e, 0, work);
      StepCounts(p, e, work);
      if pool.workers[w].Idle? {
        pool.Take(w, lookup);
      } else {
        pool.Complete(w, lookup);
      }
    }
    AllIdle(pool.workers);
    Alone(multiset(pool.done), multiset{});
    merged := pool.Join();
    MergedAre(pool.State(), lookup);
    LookupsInAnyOrder(pool.done, items, lookup);
  }

  lemma MergedAre<T, R>(p: Pool<int, T, R>, lookup: T -> seq<R>)
    requires IsSequential(p, 0, Reading(lookup))
    ensures multiset(Merged(p.workers)) == multiset(Lookups(p.done, lookup))
  {
    hide Sequential, Lookups, Merged, Reading;
    ReadingIsLookups(p.done, lookup);
  }

  lemma SomeCanStep<S, T, R>(p: Pool<S, T, R>)
    requires p.workers != [] && !Finished(p)
    ensures exists w :: 0 <= w < |p.workers| && (p.workers[w].Idle? ==> p.queue != [])
  {
    if p.queue != [] {
      assert p.workers[0].Idle? ==> p.queue != [];
    } else {
      var w :| 0 <= w < |p.workers| && p.workers[w].Busy?;
      assert !p.workers[w].Idle?;
    }
  }
}
