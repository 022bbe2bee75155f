# gowp worker pool: a Dafny model of its bookkeeping

gowp is a bounded worker pool written in Go. A pool owns a job queue (`jobq`, room
for 100 jobs per worker) and a slot queue (`workers`) preloaded with the tokens
1..N, where N is the worker count clamped into 10..100. The slot queue acts as a
counting semaphore. The dispatch loop in `Start` takes a job, then a token, and
starts an executor goroutine. The executor runs the job's `Process` and, on every
way out, puts its token back and adjusts the counters `wcnt` (active workers),
`avlwcnt` (available workers) and the wait group. `jobcnt` is the per-pool job
sequence counter; `newPoolID` is the process-wide pool-ID counter. `Start` and
`Stop` flip the `startFlag`/`stopFlag` lifecycle flags and `Stop` closes both queues.

The model treats each goroutine action as one atomic step on a `WorkerPool`
object (`pool.dfy`). A Go channel is a `seq` field plus a closed flag. Blocking
is expressed as a `requires` clause: a send on a full channel, a receive from an
empty open channel, and the wait-group wait. The object invariant `Valid()`
states what the source keeps:
- `wcnt + avlwcnt == size`;
- `wcnt` and the wait-group count equal the number of running executors;
- the tokens in the slot queue and the tokens held by running executors are
  exactly 1..size, each once;
- the job queue holds at most 100 × size jobs;
- the two queues are open or closed together.

Every step preserves `Valid()`.

Other modules:
- `counters.dfy`: `atomic.AddInt32` and `atomic.AddUint64` with their wrap-around. Pool IDs and job IDs strictly increase until their counter overflows.
- `lifecycle.dfy`: the Start/Stop flag transitions as pure functions, and runs of several calls.
- `jobs.dfy`: the `Job` record and its accessors.
- `helper.dfy`: `RandomInt`, with the random draw as a parameter, and `NewUUID`, a lower-case hex encoding of a 20-byte buffer, with its decoding round trip.

The source files do not agree on field names or on arity. `types.go` declares
`ID`/`Name`/`UUID` and `startLock`/`stopLock`. `wpMethods.go` and
`jomethods.go` read `id`/`name`/`uuid`/`data`, and `gowp.go` locks a
`singletonCtrl`. The model keeps one record and follows the meaning of the
fields, not their names. A single lifecycle mutex makes `Start` and `Stop`
atomic steps.

## Model

| member | source | states |
|---|---|---|
| `Counters.Int32Inc` | gowp.go:100 | adding one to the int32 pool-ID counter stays in int32 range and increases it by exactly one, except at the maximum, where it wraps to the minimum |
| `Counters.Uint64Inc` | job.go:15 | adding one to the uint64 job counter stays in range and increases it by exactly one, except at 2^64−1, where it wraps to 0 |
| `Counters.WrapInc` | types.go:26-29 | a fixed-width increment stays in the counter's range and is congruent to x+1 modulo the range's width |
| `Counters.IssuedAt` | jomethods.go:9 | without overflow, the i-th ID handed out by k successive increments from x is x+1+i |
| `Counters.IssuedStrictlyIncreasing` | job.go:15 | IDs handed out by any mix of AddJob/NewJob/dispatch increments are strictly increasing, so pairwise distinct, and all above the start, until the counter overflows |
| `Counters.IssuedWraps` | data.go:23 | a counter at its maximum hands out its minimum next, so the monotonicity above needs the no-overflow bound |
| `Helper.RandomInt` | helper/helper.go:38-44 | min ≥ max gives −1; otherwise, with a draw r in [0, max−min+1) as rand.Intn returns, the result lies in [min, max] and is r above min |
| `Helper.RandomIntCovers` | helper/helper.go:27 | every value in [min, max], both bounds included, is the result for some draw |
| `Helper.RandomIntEqualBounds` | helper/helper.go:39-41 | with min == max the result is −1, although the doc comment says both bounds are included |
| `Helper.Hex` | helper/helper.go:68 | `%x` of n bytes has 2n characters, all lower-case hex digits |
| `Helper.HexAppend` | helper/helper.go:68 | hex of a concatenation is the concatenation of the hex of its parts |
| `Helper.SlicedHex` | helper/helper.go:68 | formatting the slices [0:6], [6:8], [8:10], [10:12], [12:] one after another equals hex of the whole buffer |
| `Helper.UnhexHex` | helper/helper.go:68 | decoding the hex of a buffer returns the buffer |
| `Helper.HexUnhex` | helper/helper.go:68 | any text that decodes is the hex of what it decodes to, so the encoding is a bijection onto even-length lower-case hex |
| `Helper.NewUuid` | helper/helper.go:58-72 | it fails exactly when the random read fails, carrying the read error. On success the token has 40 = 2 × uuidLen characters, all lower-case hex, and decodes to the 20 random bytes. The empty-buffer error is never returned |
| `Lifecycle.Start` | gowp.go:194-201 | Start loops iff the pool was not started. Afterwards it is started. When it loops, the stop flag is cleared. When it does not loop, nothing changes. Queue state never changes |
| `Lifecycle.Stop` | gowp.go:249-257 | a stopped pool is left alone. Otherwise the pool becomes stopped and not started. It closes both queues if they were open and panics if jobq was already closed. Queues stay closed together |
| `Lifecycle.StartIdempotent` | gowp.go:195-198 | a second Start in a row returns without looping and changes nothing |
| `Lifecycle.StopIdempotent` | gowp.go:249-251 | a second Stop in a row closes nothing, does not panic and changes nothing |
| `Lifecycle.RestartedStopPanics` | gowp.go:245-260 | as written, Stop, Start, Stop from a fresh pool closes the queues once and then panics on a second close |
| `Lifecycle.StopWithoutRestartIsSafe` | gowp.go:249-257 | as written, Stop never panics and closes the queues at most once in any run of Stops after which no Start comes |
| `Lifecycle.GuardedStop` | gowp.go:249-257 | corrected Stop: never panics. It closes the queues only if the pool was not stopped and they were open |
| `Lifecycle.GuardedStopClosesOnce` | gowp.go:249-257 | with the corrected Stop, any run of Start/Stop calls never panics. It closes the queues at most once, never when they start out closed, and closed queues stay closed |
| `Lifecycle.GuardedStopClosesExactlyOnce` | gowp.go:249-257 | with the corrected Stop, from any state where a stopped pool has closed queues, a run of Start/Stop calls closes the queues exactly once if the queues start open and the run contains a Stop, and never otherwise |
| `Jobs.AccessorsRebuild` | jomethods.go:18-30 | GetID, GetName and GetData return the stored fields: together they rebuild the job |
| `Pool.ClampSize` | gowp.go:85-91 | the effective size is min(max(wpsize, 10), 100): in range sizes are kept, smaller ones become 10, larger ones 100 |
| `Pool.ClampMonotonic` | gowp.go:85-91 | clamping is monotonic and idempotent |
| `Pool.TokensPositive` | gowp.go:115-117 | every preloaded slot token lies in 1..size, so a real token is never the 0 of a closed queue |
| `Pool.TokensOnce` | gowp.go:115-117 | the preloaded token set holds each token at most once |
| `Pool.IdCounter.constructor` | gowp.go:30 | the pool-ID counter starts at 0 |
| `Pool.WorkerPool.constructor` | gowp.go:101-113 | the pool literal: both queues empty and open, all counters 0, both flags clear, jobq capacity 100 × size |
| `Pool.NewWorkerPool` | gowp.go:84-121 | On a failed token generation it returns (nil, 0, err) and the ID counter is unchanged. Otherwise it returns a fresh valid pool whose ID is one increment of the old counter, as is the counter. The size is clamped and the jobq capacity is 100 × size. The workers hold tokens 1..size in order and avlwcnt == size. wcnt, jobcnt and in-flight are 0, both flags are false and both queues are open |
| `Pool.WorkerPool.TokensDisjoint` | gowp.go:115-118 | under the invariant, queued plus held tokens number exactly size and each lies in 1..size. No token is both queued and held, and no two executors hold the same token. 0 ≤ wcnt ≤ size and 0 ≤ avlwcnt ≤ size |
| `Pool.WorkerPool.AddJob` | job.go:8-22 | jobcnt moves by exactly one increment. On an open queue with room, Job(new jobcnt, "", data) is appended at the tail and earlier jobs keep their order. On a closed queue nothing is enqueued and no error surfaces. Nothing else changes and the invariant is kept |
| `Pool.WorkerPool.NewJob` | jomethods.go:8-15 | jobcnt moves by exactly one increment. The returned job has the new jobcnt as ID and the given name and data. Nothing is enqueued |
| `Pool.WorkerPool.Start` | gowp.go:194-201 | the flags change as `Lifecycle.Start`, and the call loops exactly when the pool was not started |
| `Pool.WorkerPool.LoopStep` | gowp.go:203-226 | the cancellation branch returns only with no executor running and changes nothing. Otherwise the head job (or the zero Job) and then the head token (or 0) are taken. With a real token: wcnt+1, avlwcnt−1, jobcnt increments, in-flight+1, and a new executor holds that job and token. With 0 the job is dropped and no counter changes. The invariant is kept |
| `Pool.WorkerPool.Complete` | gowp.go:127-138 | on either exit of an executor, its token goes to the tail of the slot queue (which has room), wcnt−1, avlwcnt+1, in-flight−1, and the executor is gone. The invariant is kept |
| `Pool.WorkerPool.Stop` | gowp.go:245-260 | the flags and queue states change as `Lifecycle.Stop`. A close of an already closed queue is reported as a panic |
| `Pool.GetId` | wpMethods.go:6-12 | −1 for a nil pool, the pool's ID otherwise |
| `Pool.GetName` | wpMethods.go:14-20 | the empty string for a nil pool, the pool's name otherwise |
| `Pool.GetUuid` | wpMethods.go:22-28 | the empty string for a nil pool, the pool's token otherwise |
| `Pool.AccessorsDistinguishNil` | wpMethods.go:6-12 | a pool made before the ID counter overflows has a positive ID and a 40-character token, so GetId and GetUuid tell it apart from nil |

## Left out

- Goroutines, `select` races, the WaitGroup's blocking and the mutex are not modelled. Every action is one atomic step, and interleavings are not explored.
- Pool.WorkerPool.LoopStep: the job receive and the token receive are one step. The state in which the loop holds a job and waits for a token is not represented, so the step requires that both receives can proceed.
- Pool.WorkerPool.LoopStep: the context is a boolean `cancelled` that picks the cancellation branch. The wait for in-flight executors is its precondition. The external WaitGroup that Start signals when it returns is not modelled.
- Pool.WorkerPool.Complete: requires the slot queue to be open. As written, an executor that finishes after Stop sends on a closed channel, and that panic is not recovered. The pool's intended use calls Stop only after the loop has returned, when no executor runs.
- The job's `Process` call and its result are opaque and not modelled. `Complete` is its return on either branch. A nil processor, as in the zero Job, would make `Process` panic in a goroutine, and that is not modelled either.
- Pool.WorkerPool.AddJob: the recovered panic of a send on a closed queue is modelled as "nothing enqueued". The error is swallowed, as in the code, although a usage error ought to reach the caller. The log line is not modelled.
- `GetContext`, the context and cancel function fields, and `startMsg`/`cancelMsg` are stored only. They are informative and have no behaviour.
- The termination policy (`WorkerPoolOptions`) that sampleapp/main.go passes to the constructor is not part of this model. NewWorkerPool (gowp.go:84) takes six parameters and has no such policy.
- The random sources are not modelled: `rand.Read` and `rand.Intn` are parameters. Seeding in `init` and all `fmt.Printf` logging are not modelled.
- Helper.RandomInt: Go's 64-bit `int` overflow of `max - min + 1` is excluded by its precondition, together with `rand.Intn`'s own demand for a positive argument.
- The `workercnt` package variable is unused and not modelled.
- sampleapp/ (the demo program) is not part of this model.

## Findings

| source | as written | input that shows it | evidently intended | confidence | as-written member | corrected member |
|---|---|---|---|---|---|---|
| gowp.go:249-257 | Stop guards only on `stopFlag`, and Start clears `stopFlag` (gowp.go:200) even after the queues are closed, so a later Stop calls `close` on closed channels | Stop(); Start(); Stop() on a new pool: the second Stop panics with "close of closed channel" | Stop closes each queue exactly once, whatever Start calls come in between | high (not executed) | `Lifecycle.RestartedStopPanics` | `Lifecycle.GuardedStopClosesOnce`, `Lifecycle.GuardedStopClosesExactlyOnce` |

`Pool.WorkerPool.Stop` keeps the code's behaviour and reports the panic through its
`panicked` result. `Lifecycle.GuardedStop` is the corrected transition, and the
lemmas about runs of calls are proved for it.
