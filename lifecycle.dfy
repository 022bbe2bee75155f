/**
 * The start/stop bookkeeping of a worker pool: the two lifecycle flags and
 * whether each of its two queues (the job queue and the slot queue) has been
 * closed. Start and Stop each run under the pool's lifecycle mutex, so each is one
 * atomic transition here.
 */
module Lifecycle {

  datatype Flags = Flags(started: bool, stopped: bool, jobqClosed: bool, workersClosed: bool)

  /** A freshly built pool: neither started nor stopped, both queues open. */
  const Initial: Flags := Flags(false, false, false, false)

  /** The two queues are closed together (they are only ever closed by Stop, jobq first). */
  predicate Consistent(f: Flags) {
    f.jobqClosed == f.workersClosed
  }

  datatype StartOutcome = StartOutcome(after: Flags, loops: bool)

  /**
   * The guard in front of Start's loop: an already started pool returns at once;
   * otherwise the pool becomes started (and no longer stopped) and the loop runs.
   */
  function Start(f: Flags): (o: StartOutcome)
    ensures o.loops <==> !f.started
    ensures o.after.started
    ensures o.loops ==> !o.after.stopped
    ensures !o.loops ==> o.after == f
    ensures o.after.jobqClosed == f.jobqClosed && o.after.workersClosed == f.workersClosed
  {
    if f.started then StartOutcome(f, false)
    else StartOutcome(f.(started := true, stopped := false), true)
  }

  /**
   * `closed`: this call closed the two queues; `panicked`: it called close on a queue
   * that was already closed, which makes Go panic.
   */
  datatype StopOutcome = StopOutcome(after: Flags, closed: bool, panicked: bool)

  /**
   * Stop as written: a pool whose stop flag is set is left alone; otherwise the
   * flags become stopped and not started, then jobq and workers are closed.
   * Closing jobq when it is already closed panics before workers is reached.
   */
  function Stop(f: Flags): (o: StopOutcome)
    ensures f.stopped ==> o == StopOutcome(f, false, false)
    ensures !f.stopped ==> o.after.stopped && !o.after.started
    ensures !f.stopped ==> (o.closed <==> !f.jobqClosed) && (o.panicked <==> f.jobqClosed)
    ensures o.after.jobqClosed == (f.jobqClosed || !f.stopped)
    ensures Consistent(f) ==> Consistent(o.after)
  {
    if f.stopped then StopOutcome(f, false, false)
    else
      var g := f.(stopped := true, started := false);
      if f.jobqClosed then StopOutcome(g, false, true)
      else StopOutcome(g.(jobqClosed := true, workersClosed := true), true, false)
  }

  /**
   * Stop with the closing guarded by the queues' own state, so that a queue is
   * closed only while it is open. This is the behaviour Stop's idempotence promises.
   */
  function GuardedStop(f: Flags): (o: StopOutcome)
    ensures !o.panicked
    ensures o.closed <==> !f.stopped && !f.jobqClosed
    ensures o.after.jobqClosed == (f.jobqClosed || !f.stopped)
    ensures f.stopped ==> o.after == f
    ensures !f.stopped ==> o.after.stopped && !o.after.started
  {
    if f.stopped then StopOutcome(f, false, false)
    else
      var g := f.(stopped := true, started := false);
      if f.jobqClosed then StopOutcome(g, false, false)
      else StopOutcome(g.(jobqClosed := true, workersClosed := true), true, false)
  }

  /** A second Start in a row returns without looping and changes nothing. */
  lemma StartIdempotent(f: Flags)
    ensures Start(Start(f).after) == StartOutcome(Start(f).after, false)
  {
  }

  /** A second Stop in a row closes nothing, does not panic and changes nothing. */
  lemma StopIdempotent(f: Flags)
    ensures Stop(Stop(f).after) == StopOutcome(Stop(f).after, false, false)
  {
  }

  // ---------------------------------------------------------------------------
  // Sequences of lifecycle calls
  // ---------------------------------------------------------------------------

  datatype Call = StartCall | StopCall

  /** The flags after a sequence of calls, how many closes happened and how many panics. */
  datatype Run = Run(after: Flags, closes: nat, panics: nat)

  /** Runs the calls in order with Stop as written (guarded = false) or with GuardedStop. */
  function RunCalls(f: Flags, calls: seq<Call>, guarded: bool): (r: Run)
    decreases |calls|
  {
    if calls == [] then Run(f, 0, 0)
    else
      match calls[0]
      case StartCall => RunCalls(Start(f).after, calls[1..], guarded)
      case StopCall =>
        var o := if guarded then GuardedStop(f) else Stop(f);
        var rest := RunCalls(o.after, calls[1..], guarded);
        Run(rest.after, rest.closes + (if o.closed then 1 else 0), rest.panics + (if o.panicked then 1 else 0))
  }

  /**
   * As written, Stop, Start, Stop closes the queues and then closes them again:
   * Start clears the stop flag, so the second Stop passes its guard and panics.
   */
  lemma RestartedStopPanics()
    ensures RunCalls(Initial, [StopCall, StartCall, StopCall], false) == Run(Flags(false, true, true, true), 1, 1)
  {
  }

  /** As written, Stop never panics while no Start follows a Stop. */
  lemma {:induction false} StopWithoutRestartIsSafe(f: Flags, calls: seq<Call>)
    requires Consistent(f) && (f.jobqClosed <==> f.stopped)
    requires StartCall !in calls
    ensures RunCalls(f, calls, false).panics == 0
    ensures RunCalls(f, calls, false).closes == (if !f.jobqClosed && StopCall in calls then 1 else 0)
    decreases |calls|
  {
    if calls != [] {
      assert calls[0] == StopCall;
      var o := Stop(f);
      StopWithoutRestartIsSafe(o.after, calls[1..]);
      assert StopCall in calls;
    }
  }

  /**
   * With the guarded Stop, any sequence of Start and Stop calls never panics,
   * closes the queues at most once, and never closes queues that start out closed.
   */
  lemma {:induction false} GuardedStopClosesOnce(f: Flags, calls: seq<Call>)
    requires Consistent(f)
    ensures RunCalls(f, calls, true).panics == 0
    ensures RunCalls(f, calls, true).closes <= 1
    ensures RunCalls(f, calls, true).after.jobqClosed ==> RunCalls(f, calls, true).after.workersClosed
    ensures f.jobqClosed ==> RunCalls(f, calls, true).closes == 0
    ensures f.jobqClosed ==> RunCalls(f, calls, true).after.jobqClosed
    ensures RunCalls(f, calls, true).closes == 1 ==> RunCalls(f, calls, true).after.jobqClosed
    decreases |calls|
  {
    if calls != [] {
      match calls[0]
      case StartCall =>
        GuardedStopClosesOnce(Start(f).after, calls[1..]);
      case StopCall =>
        GuardedStopClosesOnce(GuardedStop(f).after, calls[1..]);
    }
  }

  /**
   * With the guarded Stop, from any state a pool can reach (a stopped pool has closed
   * queues), a sequence of calls closes the queues exactly once when they start open
   * and some Stop is called, and never otherwise.
   */
  lemma {:induction false} GuardedStopClosesExactlyOnce(f: Flags, calls: seq<Call>)
    requires Consistent(f) && (!f.jobqClosed ==> !f.stopped)
    ensures RunCalls(f, calls, true).closes == (if !f.jobqClosed && StopCall in calls then 1 else 0)
    decreases |calls|
  {
    if calls != [] {
      match calls[0]
      case StartCall =>
        assert StopCall in calls <==> StopCall in calls[1..];
        GuardedStopClosesExactlyOnce(Start(f).after, calls[1..]);
      case StopCall =>
        GuardedStopClosesOnce(GuardedStop(f).after, calls[1..]);
    }
  }
}
