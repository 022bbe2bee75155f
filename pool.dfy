/**
 * The worker pool's bookkeeping. Each goroutine action (adding a job, one turn of
 * the dispatch loop, the cleanup that ends a job executor, Start, Stop) is one
 * atomic step on the pool object; where Go would block, the step requires
 * that it can proceed.
 */
module Pool {
  import opened Wrappers
  import opened Counters
  import Helper
  import Lifecycle
  import opened Jobs

  const MinSize: int := 10
  const MaxSize: int := 100
  /** Job-queue slots per worker. */
  const JobFactor: int := 100

  /** The requested worker count, clamped into MinSize..MaxSize. */
  function ClampSize(wpsize: int): (n: int)
    ensures MinSize <= n <= MaxSize
    ensures MinSize <= wpsize <= MaxSize ==> n == wpsize
    ensures wpsize < MinSize ==> n == MinSize
    ensures wpsize > MaxSize ==> n == MaxSize
  {
    var w := if wpsize < MinSize then MinSize else wpsize;
    if w > MaxSize then MaxSize else w
  }

  /** Clamping is monotonic and a clamped size is left as it is. */
  lemma ClampMonotonic(a: int, b: int)
    requires a <= b
    ensures ClampSize(a) <= ClampSize(b)
    ensures ClampSize(ClampSize(a)) == ClampSize(a)
  {
  }

  /** The slot tokens 1, 2, ..., n. */
  function Tokens(n: nat): (r: seq<int>)
    ensures |r| == n
    ensures forall i :: 0 <= i < n ==> r[i] == i + 1
  {
    seq(n, i => i + 1)
  }

  /** Every member of the slot-token set is positive, so a real token is never 0. */
  lemma TokensPositive(n: nat, x: int)
    requires x in multiset(Tokens(n))
    ensures 1 <= x <= n
  {
    var i :| 0 <= i < n && Tokens(n)[i] == x;
  }

  /** The slot-token set holds each token at most once. */
  lemma {:induction false} TokensOnce(n: nat, x: int)
    ensures multiset(Tokens(n))[x] <= 1
  {
    if n > 0 {
      TokensOnce(n - 1, x);
      assert Tokens(n) == Tokens(n - 1) + [n];
      if x == n {
        var t := Tokens(n - 1);
        assert forall i :: 0 <= i < |t| ==> t[i] < n;
        assert x !in t;
      }
    }
  }

  /** A running job executor: the job it runs and the slot token it holds. */
  datatype Exec = Exec(job: Job, wid: int)

  /** The tokens held by running executors. */
  function Wids(execs: seq<Exec>): (r: seq<int>)
    ensures |r| == |execs|
    ensures forall i :: 0 <= i < |execs| ==> r[i] == execs[i].wid
  {
    seq(|execs|, i requires 0 <= i < |execs| => execs[i].wid)
  }

  /** Removing one executor removes exactly its token from the held tokens. */
  lemma WidsRemove(execs: seq<Exec>, k: int)
    requires 0 <= k < |execs|
    ensures multiset(Wids(execs[..k] + execs[k + 1..])) == multiset(Wids(execs)) - multiset{execs[k].wid}
  {
    var w := Wids(execs);
    assert Wids(execs[..k] + execs[k + 1..]) == w[..k] + w[k + 1..];
    assert w == w[..k] + [w[k]] + w[k + 1..];
  }

  /** Moving the head token of the slot queue to a new executor keeps the token set. */
  lemma DispatchKeepsTokens(workers: seq<int>, execs: seq<Exec>, job: Job, n: nat)
    requires workers != []
    requires multiset(workers) + multiset(Wids(execs)) == multiset(Tokens(n))
    ensures multiset(workers[1..]) + multiset(Wids(execs + [Exec(job, workers[0])])) == multiset(Tokens(n))
  {
    assert workers == [workers[0]] + workers[1..];
    assert Wids(execs + [Exec(job, workers[0])]) == Wids(execs) + [workers[0]];
  }

  /** The process-wide pool-ID counter (newPoolID), zero when the package is loaded. */
  class IdCounter {
    var value: int

    constructor ()
      ensures value == 0
    {
      value := 0;
    }
  }

  class WorkerPool {
    const id: int
    const uuid: string
    const name: string
    const startMsg: string
    const cancelMsg: string
    /** Number of workers: the capacity of the slot queue. */
    const size: int
    /** Capacity of the job queue. */
    const jobqCap: int

    var jobq: seq<Job>
    var jobqClosed: bool
    /** Slot tokens waiting in the slot queue, head first. */
    var workers: seq<int>
    var workersClosed: bool
    var jobcnt: int
    var wcnt: int
    var avlwcnt: int
    /** The wait-group counter: executors spawned and not yet finished. */
    var inFlight: int
    /** The executors now running. */
    var execs: seq<Exec>
    var startFlag: bool
    var stopFlag: bool

    /**
     * The pool's invariant: sizes as built, active plus available workers is the
     * worker count, and the tokens in the slot queue together with those held by
     * running executors are exactly 1..size, each once.
     */
    ghost predicate Valid()
      reads this
    {
      && MinSize <= size <= MaxSize
      && jobqCap == JobFactor * size
      && |jobq| <= jobqCap
      && IsUint64(jobcnt)
      && wcnt == |execs| && inFlight == |execs|
      && wcnt + avlwcnt == size
      && multiset(workers) + multiset(Wids(execs)) == multiset(Tokens(size))
      && jobqClosed == workersClosed
    }

    function Flags(): Lifecycle.Flags
      reads this
    {
      Lifecycle.Flags(startFlag, stopFlag, jobqClosed, workersClosed)
    }

    /**
     * The WorkerPool literal: queues allocated and empty, counters zero, flags clear.
     * It does not establish Valid(): the slot queue is still empty. NewWorkerPool then
     * preloads the tokens and sets avlwcnt, after which the pool is valid.
     */
    constructor (id: int, uuid: string, name: string, startMsg: string, cancelMsg: string, size: int)
      requires MinSize <= size <= MaxSize
      ensures this.id == id && this.uuid == uuid && this.name == name
      ensures this.startMsg == startMsg && this.cancelMsg == cancelMsg
      ensures this.size == size && jobqCap == JobFactor * size
      ensures jobq == [] && workers == [] && execs == []
      ensures jobcnt == 0 && wcnt == 0 && avlwcnt == 0 && inFlight == 0
      ensures Flags() == Lifecycle.Initial
    {
      this.id, this.uuid, this.name := id, uuid, name;
      this.startMsg, this.cancelMsg := startMsg, cancelMsg;
      this.size, jobqCap := size, JobFactor * size;
      jobq, workers, execs := [], [], [];
      jobcnt, wcnt, avlwcnt, inFlight := 0, 0, 0, 0;
      startFlag, stopFlag, jobqClosed, workersClosed := false, false, false, false;
    }

    /**
     * Consequences of the invariant: queued plus held tokens number exactly `size`,
     * every token is one of 1..size, no token is both queued and held, no two
     * executors hold the same token, and the worker counters stay within 0..size.
     */
    lemma TokensDisjoint()
      requires Valid()
      ensures |workers| + |execs| == size
      ensures 0 <= wcnt <= size && 0 <= avlwcnt <= size
      ensures forall i :: 0 <= i < |workers| ==> 1 <= workers[i] <= size
      ensures forall i :: 0 <= i < |execs| ==> 1 <= execs[i].wid <= size
      ensures forall i, j :: 0 <= i < |workers| && 0 <= j < |execs| ==> workers[i] != execs[j].wid
      ensures forall i, j :: 0 <= i < j < |execs| ==> execs[i].wid != execs[j].wid
    {
      assert |multiset(workers) + multiset(Wids(execs))| == |multiset(Tokens(size))|;
      forall i | 0 <= i < |workers| ensures 1 <= workers[i] <= size {
        assert workers[i] in multiset(Tokens(size));
        TokensPositive(size, workers[i]);
      }
      forall i | 0 <= i < |execs| ensures 1 <= execs[i].wid <= size {
        assert Wids(execs)[i] in multiset(Wids(execs));
        TokensPositive(size, execs[i].wid);
      }
      forall i, j | 0 <= i < |workers| && 0 <= j < |execs| ensures workers[i] != execs[j].wid {
        if workers[i] == execs[j].wid {
          var x := workers[i];
          assert x in multiset(Wids(execs));
          assert (multiset(workers) + multiset(Wids(execs)))[x] >= 2;
          TokensOnce(size, x);
        }
      }
      forall i, j | 0 <= i < j < |execs| ensures execs[i].wid != execs[j].wid {
        if execs[i].wid == execs[j].wid {
          var w := Wids(execs);
          var x := w[i];
          assert w == w[..j] + [w[j]] + w[j + 1..];
          assert x in multiset(w[..j]);
          assert multiset(w)[x] >= 2;
          TokensOnce(size, x);
        }
      }
    }

    /**
     * AddJob: takes the next sequence number, builds a nameless Job around the
     * processor and sends it on jobq. The send blocks while the queue is full. On a
     * closed queue it panics, the panic is recovered, and only the counter moved.
     */
    method AddJob(data: JobProcessor)
      requires Valid()
      requires jobqClosed || |jobq| < jobqCap
      modifies this`jobcnt, this`jobq
      ensures Valid()
      ensures jobcnt == Uint64Inc(old(jobcnt))
      ensures old(jobqClosed) ==> jobq == old(jobq)
      ensures !old(jobqClosed) ==> jobq == old(jobq) + [Job(jobcnt, "", data)]
    {
      jobcnt := Uint64Inc(jobcnt);
      var j := Job(jobcnt, "", data);
      if !jobqClosed {
        jobq := jobq + [j];
      }
    }

    /** NewJob: takes the next sequence number and returns a job; nothing is enqueued. */
    method NewJob(name: string, data: JobProcessor) returns (job: Job)
      requires Valid()
      modifies this`jobcnt
      ensures Valid()
      ensures jobcnt == Uint64Inc(old(jobcnt))
      ensures job.GetId() == jobcnt && job.GetName() == name && job.GetData() == data
    {
      jobcnt := Uint64Inc(jobcnt);
      job := Job(jobcnt, name, data);
    }

    /**
     * The guard in front of Start's loop, under the lifecycle mutex. `loops` tells
     * whether this call goes on to run the dispatch loop.
     */
    method Start() returns (loops: bool)
      requires Valid()
      modifies this`startFlag, this`stopFlag
      ensures Valid()
      ensures Flags() == Lifecycle.Start(old(Flags())).after
      ensures loops == Lifecycle.Start(old(Flags())).loops
    {
      if startFlag {
        return false;
      }
      startFlag := true;
      stopFlag := false;
      loops := true;
    }

    /**
     * One turn of Start's loop. When `cancelled`, the loop takes the cancellation
     * branch: it waits for the wait group to drain, which is the requires clause, and
     * returns. Otherwise it receives a job (the zero Job from a closed, drained queue),
     * then a token (0 from a closed, drained slot queue). A real token starts an
     * executor for the job; token 0 drops the job.
     */
    method LoopStep(cancelled: bool) returns (exit: bool)
      requires Valid()
      requires cancelled ==> inFlight == 0
      requires !cancelled ==> (jobq != [] || jobqClosed) && (workers != [] || workersClosed)
      modifies this`jobq, this`workers, this`wcnt, this`avlwcnt, this`jobcnt, this`inFlight, this`execs
      ensures Valid()
      ensures exit == cancelled
      ensures exit ==> inFlight == 0 && execs == []
      ensures Flags() == old(Flags())
      ensures cancelled ==> jobq == old(jobq) && workers == old(workers) && jobcnt == old(jobcnt)
      ensures cancelled ==> wcnt == old(wcnt) && avlwcnt == old(avlwcnt) && execs == old(execs)
      ensures !cancelled ==> jobq == (if old(jobq) == [] then [] else old(jobq)[1..])
      ensures !cancelled ==> workers == (if old(workers) == [] then [] else old(workers)[1..])
      ensures !cancelled && old(workers) != [] ==>
        && wcnt == old(wcnt) + 1 && avlwcnt == old(avlwcnt) - 1
        && jobcnt == Uint64Inc(old(jobcnt)) && inFlight == old(inFlight) + 1
        && execs == old(execs) + [Exec(if old(jobq) == [] then ZeroJob else old(jobq)[0], old(workers)[0])]
      ensures !cancelled && old(workers) == [] ==>
        wcnt == old(wcnt) && avlwcnt == old(avlwcnt) && jobcnt == old(jobcnt) && execs == old(execs)
    {
      if cancelled {
        return true;
      }
      exit := false;
      var job := ZeroJob;
      if jobq != [] {
        job := jobq[0];
        jobq := jobq[1..];
      }
      var wid := 0;
      if workers != [] {
        TokensDisjoint();
        DispatchKeepsTokens(workers, execs, job, size);
        wid := workers[0];
        workers := workers[1..];
      }
      if wid > 0 {
        wcnt := wcnt + 1;
        avlwcnt := avlwcnt - 1;
        jobcnt := Uint64Inc(jobcnt);
        inFlight := inFlight + 1;
        execs := execs + [Exec(job, wid)];
      }
    }

    /**
     * The deferred cleanup of executor k, reached from both of its exits (the pool
     * was cancelled, or the job reported back): its token goes back to the tail of
     * the slot queue, the counters move back and the wait group is signalled.
     * The send never blocks: a running executor's token is missing from the queue.
     */
    method Complete(k: int)
      requires Valid()
      requires 0 <= k < |execs|
      requires !workersClosed
      modifies this`workers, this`wcnt, this`avlwcnt, this`inFlight, this`execs
      ensures Valid()
      ensures |old(workers)| < size
      ensures workers == old(workers) + [old(execs)[k].wid]
      ensures wcnt == old(wcnt) - 1 && avlwcnt == old(avlwcnt) + 1 && inFlight == old(inFlight) - 1
      ensures execs == old(execs)[..k] + old(execs)[k + 1..]
    {
      TokensDisjoint();
      var wid := execs[k].wid;
      WidsRemove(execs, k);
      workers := workers + [wid];
      wcnt := wcnt - 1;
      avlwcnt := avlwcnt + 1;
      inFlight := inFlight - 1;
      execs := execs[..k] + execs[k + 1..];
    }

    /**
     * Stop, under the lifecycle mutex, as written: a stopped pool is left alone;
     * otherwise the flags flip and both queues are closed. `panicked` reports a close
     * of an already closed queue (possible after Stop, Start, Stop).
     */
    method Stop() returns (panicked: bool)
      requires Valid()
      modifies this`startFlag, this`stopFlag, this`jobqClosed, this`workersClosed
      ensures Valid()
      ensures Flags() == Lifecycle.Stop(old(Flags())).after
      ensures panicked == Lifecycle.Stop(old(Flags())).panicked
    {
      if stopFlag {
        return false;
      }
      stopFlag := true;
      startFlag := false;
      if jobqClosed {
        return true;
      }
      jobqClosed := true;
      workersClosed := true;
      panicked := false;
    }
  }

  /**
   * NewWorkerPool: clamps the size, generates the instance token, takes the next pool
   * ID and builds the pool with its slot queue preloaded with tokens 1..size. A failed
   * token generation returns (nil, 0, error) before the ID counter moves.
   */
  method NewWorkerPool(counter: IdCounter, wpsize: int, name: string, smsg: string, cmsg: string,
                       entropy: Helper.RandomRead)
    returns (pool: WorkerPool?, id: int, err: Option<Helper.UuidError>)
    requires IsInt32(counter.value)
    requires entropy.ReadOk? ==> |entropy.buffer| == Helper.UuidLen
    modifies counter
    ensures err.Some? <==> entropy.ReadFailed?
    ensures err.Some? ==> pool == null && id == 0 && counter.value == old(counter.value)
    ensures err.Some? ==> err.value == Helper.NewUuid(entropy).error
    ensures err.None? ==> pool != null && fresh(pool) && pool.Valid()
    ensures err.None? ==> id == pool.id == counter.value == Int32Inc(old(counter.value))
    ensures err.None? ==> pool.uuid == Helper.NewUuid(entropy).value
    ensures err.None? ==> pool.name == name && pool.startMsg == smsg && pool.cancelMsg == cmsg
    ensures err.None? ==> pool.size == ClampSize(wpsize) && pool.jobqCap == JobFactor * pool.size
    ensures err.None? ==> pool.workers == Tokens(pool.size) && pool.avlwcnt == pool.size
    ensures err.None? ==> pool.wcnt == 0 && pool.jobcnt == 0 && pool.inFlight == 0
    ensures err.None? ==> pool.jobq == [] && pool.execs == [] && pool.Flags() == Lifecycle.Initial
  {
    var size := ClampSize(wpsize);
    var uuid := Helper.NewUuid(entropy);
    if uuid.Failure? {
      return null, 0, Some(uuid.error);
    }
    id := Int32Inc(counter.value);
    counter.value := id;
    var p := new WorkerPool(id, uuid.value, name, smsg, cmsg, size);
    var i := 1;
    while i <= size
      invariant 1 <= i <= size + 1
      invariant p.workers == Tokens(i - 1)
      invariant p.jobq == [] && p.execs == [] && p.jobcnt == 0 && p.wcnt == 0 && p.avlwcnt == 0
      invariant p.inFlight == 0 && p.Flags() == Lifecycle.Initial
      invariant counter.value == id
    {
      p.workers := p.workers + [i];
      i := i + 1;
    }
    p.avlwcnt := size;
    assert p.workers == Tokens(size) && Wids(p.execs) == [];
    pool, err := p, None;
  }

  // ---------------------------------------------------------------------------
  // Nil-safe pool accessors
  // ---------------------------------------------------------------------------

  /** The pool's ID, or -1 for a nil pool. */
  function GetId(p: WorkerPool?): (r: int)
    ensures p == null ==> r == -1
    ensures p != null ==> r == p.id
  {
    if p == null then -1 else p.id
  }

  /** The pool's name, or the empty string for a nil pool. */
  function GetName(p: WorkerPool?): (r: string)
    ensures p == null ==> r == ""
    ensures p != null ==> r == p.name
  {
    if p == null then "" else p.name
  }

  /** The pool's instance token, or the empty string for a nil pool. */
  function GetUuid(p: WorkerPool?): (r: string)
    ensures p == null ==> r == ""
    ensures p != null ==> r == p.uuid
  {
    if p == null then "" else p.uuid
  }

  /**
   * A pool created while the ID counter had not wrapped has a positive ID and a
   * 40-character token, so GetId and GetUuid tell it apart from a nil pool.
   */
  lemma AccessorsDistinguishNil(p: WorkerPool, previous: int, entropy: Helper.RandomRead)
    requires 0 <= previous < MaxInt32 && p.id == Int32Inc(previous)
    requires entropy.ReadOk? && |entropy.buffer| == Helper.UuidLen
    requires p.uuid == Helper.NewUuid(entropy).value
    ensures GetId(p) > 0 && GetId(p) != GetId(null)
    ensures |GetUuid(p)| == 40 && GetUuid(p) != GetUuid(null)
  {
  }
}
