/**
  The lifecycle events of one spawned runtime process: Started when it is attributed to a run, Attributed
  once its memory monitor runs, Terminated on every way out, with a drop handler as the last resort.  Each
  call to the supervisor may fail; a failed call records nothing.
*/
module RuntimeLifecycle {
  import opened Wrappers

  datatype EventKind = Started | Attributed | Terminated

  class Supervisor {
    const answers: nat -> bool
    var calls: nat
    var log: seq<EventKind>

    constructor (answers: nat -> bool)
      ensures this.answers == answers && calls == 0 && log == []
    {
      this.answers := answers;
      calls, log := 0, [];
    }

    method Observe(kind: EventKind) returns (ok: bool)
      modifies this
      ensures calls == old(calls) + 1 && ok == answers(old(calls))
      ensures log == old(log) + (if ok then [kind] else [])
    {
      ok := answers(calls);
      calls := calls + 1;
      if ok {
        log := log + [kind];
      }
    }
  }

  /** What `terminated()` records when called `attempts` times from call number `from` on. */
  function TerminationLog(a: nat -> bool, from: nat, attempts: nat): seq<EventKind>
    decreases attempts
  {
    if attempts == 0 then [] else if a(from) then [Terminated] else TerminationLog(a, from + 1, attempts - 1)
  }

  class RuntimeProcessLifecycle {
    const supervisor: Supervisor
    var terminated: bool

    constructor (supervisor: Supervisor)
      ensures this.supervisor == supervisor && !terminated
    {
      this.supervisor := supervisor;
      terminated := false;
    }

    method Attribute() returns (ok: bool)
      modifies supervisor
      ensures supervisor.calls == old(supervisor.calls) + 1 && ok == supervisor.answers(old(supervisor.calls))
      ensures supervisor.log == old(supervisor.log) + (if ok then [Attributed] else [])
    {
      ok := supervisor.Observe(Attributed);
    }

    /** Records Terminated unless it already did. */
    method Terminate() returns (ok: bool)
      modifies this, supervisor
      ensures ok == terminated
      ensures if old(terminated)
              then terminated && supervisor.calls == old(supervisor.calls) && supervisor.log == old(supervisor.log)
              else terminated == supervisor.answers(old(supervisor.calls)) && supervisor.calls == old(supervisor.calls) + 1
                   && supervisor.log == old(supervisor.log) + (if terminated then [Terminated] else [])
    {
      if !terminated {
        var observed := supervisor.Observe(Terminated);
        if !observed {
          return false;
        }
        terminated := true;
      }
      ok := true;
    }

    /** The drop handler ignores a failure. */
    method Drop()
      modifies this, supervisor
      ensures old(terminated) ==> supervisor.log == old(supervisor.log)
      ensures !old(terminated) ==>
                supervisor.log == old(supervisor.log) + TerminationLog(supervisor.answers, old(supervisor.calls), 1)
    {
      var _ := Terminate();
    }
  }

  // ---- Waiting for the child ----

  datatype Poll = Exited(success: bool) | Running | PollError

  /** What the n-th round of the wait loop sees: the poll, the monitor's failure, and the time elapsed in ms. */
  datatype WaitWorld = WaitWorld(poll: nat -> Poll, failure: nat -> Option<string>, elapsed: nat -> nat)

  datatype WaitOutcome = ChildExited(success: bool) | PollFailed | MonitorFailed(reason: string) | TimedOut

  /** Round `n` goes on: the child runs, nothing failed, and there is time left. */
  predicate GoesOn(w: WaitWorld, timeout: nat, n: nat) {
    w.poll(n) == Running && w.failure(n) == None && w.elapsed(n) < timeout
  }

  /**
    `wait_child_with_timeout` leaves in the first round in which the child does not run on, at most `timeout` later;
    an exit comes before a failure and a failure before the timeout.  It terminates the child exactly when it gives up
    on one that still runs.  Each round sleeps 100 ms.
  */
  method WaitChildWithTimeout(w: WaitWorld, timeout: nat) returns (outcome: WaitOutcome, killed: bool, rounds: nat)
    requires forall n: nat :: w.elapsed(n) >= 100 * n
    ensures forall m: nat :: m < rounds ==> w.poll(m) == Running && w.failure(m) == None && w.elapsed(m) < timeout
    ensures w.poll(rounds) == (match outcome case ChildExited(success) => Exited(success) case PollFailed => PollError case _ => Running)
    ensures outcome.MonitorFailed? ==> w.failure(rounds) == Some(outcome.reason)
    ensures outcome.TimedOut? ==> w.failure(rounds) == None && w.elapsed(rounds) >= timeout
    ensures 100 * rounds <= timeout + 99
    ensures killed <==> outcome.MonitorFailed? || outcome.TimedOut?
  {
    rounds := 0;
    while true
      invariant forall m: nat :: m < rounds ==> w.poll(m) == Running && w.failure(m) == None && w.elapsed(m) < timeout
      invariant rounds == 0 || 100 * (rounds - 1) < timeout
      decreases timeout + 100 - 100 * rounds
    {
      var poll := w.poll(rounds);
      if poll.Exited? {
        return ChildExited(poll.success), false, rounds;
      }
      if poll.PollError? {
        return PollFailed, false, rounds;
      }
      var failure := w.failure(rounds);
      if failure.Some? {
        return MonitorFailed(failure.value), true, rounds;
      }
      if w.elapsed(rounds) >= timeout {
        return TimedOut, true, rounds;
      }
      rounds := rounds + 1;
    }
  }

  // ---- One execution after the child was spawned ----

  /** Everything outside the lifecycle that decides which way an execution leaves. */
  datatype World = World(memoryRequested: bool, monitorStarts: bool, hasStdout: bool, hasStderr: bool, wait: WaitWorld,
                         timeout: nat, monitorStops: bool, streamsJoin: bool, readsJsonl: bool, jsonlHasError: bool)

  datatype ExecError =
    | StartedNotObserved
    | MonitorNotStarted
    | AttributedNotObserved
    | StreamUnavailable
    | WaitFailed
    | MonitorFailedClosed
    | TerminatedNotObserved
    | StreamsNotJoined
    | ExitedWithFailure
    | JsonlUnreadable
    | ErrorEventEmitted

  predicate MonitorRefuses(w: World) {
    w.memoryRequested && !w.monitorStarts
  }

  predicate HasStreams(w: World) {
    w.hasStdout && w.hasStderr
  }

  /** The child ends, with this result, before anything else ends the wait. */
  ghost predicate ChildEnds(w: World, success: bool) {
    exists n: nat :: ChildLeavesAt(w, n, success)
  }

  ghost predicate ChildLeavesAt(w: World, n: nat, success: bool) {
    w.wait.poll(n) == Exited(success) && forall m: nat :: m < n ==> GoesOn(w.wait, w.timeout, m)
  }

  /** Everything but the observe calls goes well. */
  ghost predicate GoesWell(w: World) {
    && !MonitorRefuses(w) && HasStreams(w) && ChildEnds(w, true) && (w.memoryRequested ==> w.monitorStops)
    && w.streamsJoin && w.readsJsonl && !w.jsonlHasError
  }

  /** The events one execution records, as a function of the answers its observe calls get. */
  function Recorded(w: World, a: nat -> bool, c: nat): seq<EventKind> {
    if !a(c) then TerminationLog(a, c + 1, 1)
    else if MonitorRefuses(w) then [Started] + TerminationLog(a, c + 1, 2)
    else if !a(c + 1) then [Started] + TerminationLog(a, c + 2, 1)
    else [Started, Attributed] + TerminationLog(a, c + 2, if HasStreams(w) then 2 else 1)
  }

  /** The child and its streams are ready to be waited for. */
  predicate Waits(w: World, a: nat -> bool, c: nat) {
    a(c) && !MonitorRefuses(w) && a(c + 1) && HasStreams(w)
  }

  /** The wait ended with an exit, the monitor stopped, and the termination was observed by the third call. */
  ghost predicate EndsInOrder(w: World, a: nat -> bool, c: nat) {
    Waits(w, a, c) && (ChildEnds(w, true) || ChildEnds(w, false)) && (w.memoryRequested ==> w.monitorStops) && a(c + 2)
  }

  /** What must have happened for an execution to answer this error. */
  ghost predicate FailsWith(w: World, a: nat -> bool, c: nat, error: ExecError) {
    match error
    case StartedNotObserved => !a(c)
    case MonitorNotStarted => a(c) && w.memoryRequested && !w.monitorStarts
    case AttributedNotObserved => a(c) && (w.memoryRequested ==> w.monitorStarts) && !a(c + 1)
    case StreamUnavailable => a(c) && (w.memoryRequested ==> w.monitorStarts) && a(c + 1) && !(w.hasStdout && w.hasStderr)
    case WaitFailed => Waits(w, a, c) && !ChildEnds(w, true) && !ChildEnds(w, false) && w.streamsJoin
    case MonitorFailedClosed =>
      Waits(w, a, c) && (ChildEnds(w, true) || ChildEnds(w, false)) && w.memoryRequested && !w.monitorStops && w.streamsJoin
    case TerminatedNotObserved =>
      Waits(w, a, c) && (ChildEnds(w, true) || ChildEnds(w, false)) && (w.memoryRequested ==> w.monitorStops) && !a(c + 2)
    case StreamsNotJoined =>
      Waits(w, a, c) && !w.streamsJoin
      && ((ChildEnds(w, true) || ChildEnds(w, false)) && (w.memoryRequested ==> w.monitorStops) ==> a(c + 2))
    case ExitedWithFailure => EndsInOrder(w, a, c) && w.streamsJoin && ChildEnds(w, false)
    case JsonlUnreadable => EndsInOrder(w, a, c) && w.streamsJoin && ChildEnds(w, true) && !w.readsJsonl
    case ErrorEventEmitted => EndsInOrder(w, a, c) && w.streamsJoin && ChildEnds(w, true) && w.readsJsonl && w.jsonlHasError
  }

  lemma ChildEndsOnce(w: World, rounds: nat, success: bool)
    requires !GoesOn(w.wait, w.timeout, rounds) && forall m: nat :: m < rounds ==> GoesOn(w.wait, w.timeout, m)
    ensures ChildEnds(w, success) <==> w.wait.poll(rounds) == Exited(success)
  {
    if w.wait.poll(rounds) == Exited(success) {
      assert ChildLeavesAt(w, rounds, success);
    }
    if n: nat :| ChildLeavesAt(w, n, success) {
      assert !GoesOn(w.wait, w.timeout, n);
      assert !(n < rounds) && !(rounds < n);
    }
  }

  lemma GoesOnMeans(w: World)
    ensures ChildEnds(w, true) <==>
              exists n: nat :: w.wait.poll(n) == Exited(true) && forall m: nat :: m < n ==>
                w.wait.poll(m) == Running && w.wait.failure(m) == None && w.wait.elapsed(m) < w.timeout
  {
    if n: nat :| w.wait.poll(n) == Exited(true) && forall m: nat :: m < n ==>
        w.wait.poll(m) == Running && w.wait.failure(m) == None && w.wait.elapsed(m) < w.timeout {
      assert ChildLeavesAt(w, n, true);
    }
    if n: nat :| ChildLeavesAt(w, n, true) {
      forall m: nat | m < n
        ensures w.wait.poll(m) == Running && w.wait.failure(m) == None && w.wait.elapsed(m) < w.timeout
      {
        assert GoesOn(w.wait, w.timeout, m);
      }
    }
  }

  /** `run_codex_exec` once the streams are read: Started and Attributed are recorded. */
  method WaitForEnd(lifecycle: RuntimeProcessLifecycle, w: World) returns (r: Result<(), ExecError>)
    requires !lifecycle.terminated && lifecycle.supervisor.calls >= 2
    requires Waits(w, lifecycle.supervisor.answers, lifecycle.supervisor.calls - 2)
    requires forall n: nat :: w.wait.elapsed(n) >= 100 * n
    modifies lifecycle, lifecycle.supervisor
    ensures var s := lifecycle.supervisor;
            s.log == old(s.log) + TerminationLog(s.answers, old(s.calls), 1)
            && (lifecycle.terminated <==> s.answers(old(s.calls))) && s.calls == old(s.calls) + 1
    ensures r.Ok? <==> GoesWell(w) && lifecycle.terminated
    ensures r.Err? ==> FailsWith(w, lifecycle.supervisor.answers, old(lifecycle.supervisor.calls) - 2, r.error)
  {
    var outcome, _, rounds := WaitChildWithTimeout(w.wait, w.timeout);
    ChildEndsOnce(w, rounds, true);
    ChildEndsOnce(w, rounds, false);
    if !outcome.ChildExited? {
      var _ := lifecycle.Terminate();
      return Err(if w.streamsJoin then WaitFailed else StreamsNotJoined);
    }
    if w.memoryRequested && !w.monitorStops {
      var _ := lifecycle.Terminate();
      return Err(if w.streamsJoin then MonitorFailedClosed else StreamsNotJoined);
    }
    var ended := lifecycle.Terminate();
    if !ended {
      return Err(TerminatedNotObserved);
    }
    if !w.streamsJoin {
      return Err(StreamsNotJoined);
    }
    if !outcome.success {
      return Err(ExitedWithFailure);
    }
    if !w.readsJsonl {
      return Err(JsonlUnreadable);
    }
    if w.jsonlHasError {
      return Err(ErrorEventEmitted);
    }
    r := Ok(());
  }

  /** The part of `run_codex_exec` in which the lifecycle is in scope: the last call has recorded Started. */
  method RunAttached(lifecycle: RuntimeProcessLifecycle, w: World) returns (r: Result<(), ExecError>)
    requires !lifecycle.terminated && lifecycle.supervisor.calls > 0
    requires lifecycle.supervisor.answers(lifecycle.supervisor.calls - 1)
    requires forall n: nat :: w.wait.elapsed(n) >= 100 * n
    modifies lifecycle, lifecycle.supervisor
    ensures var s := lifecycle.supervisor;
            var c := old(s.calls);
            if MonitorRefuses(w) then
              s.log == old(s.log) + TerminationLog(s.answers, c, 1)
              && (lifecycle.terminated <==> s.answers(c)) && s.calls == c + 1
            else if !s.answers(c) then s.log == old(s.log) && !lifecycle.terminated && s.calls == c + 1
            else if !HasStreams(w) then s.log == old(s.log) + [Attributed] && !lifecycle.terminated && s.calls == c + 1
            else s.log == old(s.log) + ([Attributed] + TerminationLog(s.answers, c + 1, 1))
                 && (lifecycle.terminated <==> s.answers(c + 1)) && s.calls == c + 2
    ensures r.Ok? <==> GoesWell(w) && lifecycle.supervisor.answers(old(lifecycle.supervisor.calls)) && lifecycle.terminated
    ensures r.Err? ==> FailsWith(w, lifecycle.supervisor.answers, old(lifecycle.supervisor.calls) - 1, r.error)
  {
    if w.memoryRequested {
      if !w.monitorStarts {
        var _ := lifecycle.Terminate();
        return Err(MonitorNotStarted);
      }
      var attributed := lifecycle.Attribute();
      if !attributed {
        return Err(AttributedNotObserved);
      }
    } else {
      var attributed := lifecycle.Attribute();
      if !attributed {
        return Err(AttributedNotObserved);
      }
    }
    if !w.hasStdout {
      return Err(StreamUnavailable);
    }
    if !w.hasStderr {
      return Err(StreamUnavailable);
    }
    r := WaitForEnd(lifecycle, w);
  }

  /**
    `run_codex_exec` from the spawned child on.  A lifecycle whose Started event fails is dropped inside its
    own constructor function, so even then the drop handler runs.
  */
  method RunCodexExec(supervisor: Supervisor, w: World) returns (r: Result<(), ExecError>)
    requires forall n: nat :: w.wait.elapsed(n) >= 100 * n
    modifies supervisor
    ensures supervisor.log == old(supervisor.log) + Recorded(w, supervisor.answers, old(supervisor.calls))
    ensures var a, c := supervisor.answers, old(supervisor.calls);
            r.Ok? <==>
              && (exists n: nat :: w.wait.poll(n) == Exited(true) && forall m: nat :: m < n ==>
                    w.wait.poll(m) == Running && w.wait.failure(m) == None && w.wait.elapsed(m) < w.timeout)
              && (w.memoryRequested ==> w.monitorStarts && w.monitorStops) && w.hasStdout && w.hasStderr
              && w.streamsJoin && w.readsJsonl && !w.jsonlHasError && a(c) && a(c + 1) && a(c + 2)
    ensures r.Err? ==> FailsWith(w, supervisor.answers, old(supervisor.calls), r.error)
    ensures r.Ok? ==> supervisor.log == old(supervisor.log) + [Started, Attributed, Terminated]
  {
    var lifecycle := new RuntimeProcessLifecycle(supervisor);
    var started := supervisor.Observe(Started);
    if !started {
      lifecycle.Drop();
      return Err(StartedNotObserved);
    }
    GoesOnMeans(w);
    r := RunAttached(lifecycle, w);
    lifecycle.Drop();
  }

  /** The conditions of two errors exclude each other, and those of any error exclude success. */
  lemma OneFailure(w: World, a: nat -> bool, c: nat, error: ExecError, other: ExecError)
    requires FailsWith(w, a, c, error)
    ensures FailsWith(w, a, c, other) ==> other == error
    ensures !(GoesWell(w) && a(c) && a(c + 1) && a(c + 2))
  {
    if n: nat, m: nat :| ChildLeavesAt(w, n, true) && ChildLeavesAt(w, m, false) {
      assert !GoesOn(w.wait, w.timeout, n) && !GoesOn(w.wait, w.timeout, m);
      assert !(n < m) && !(m < n);
    }
  }

  // ---- The shape of the log ----

  lemma {:induction false} TerminationLogIs(a: nat -> bool, from: nat, attempts: nat)
    ensures TerminationLog(a, from, attempts) == if exists i: nat :: from <= i < from + attempts && a(i) then [Terminated] else []
    decreases attempts
  {
    if attempts > 0 && !a(from) {
      TerminationLogIs(a, from + 1, attempts - 1);
      assert (exists i: nat :: from <= i < from + attempts && a(i)) <==> exists i: nat :: from + 1 <= i < from + attempts && a(i);
    }
  }

  /** When every observe call succeeds, every way out records Started, Attributed unless the monitor refused, and Terminated. */
  lemma ObservedLog(w: World, a: nat -> bool, c: nat)
    requires forall n: nat :: a(n)
    ensures Recorded(w, a, c) == if MonitorRefuses(w) then [Started, Terminated] else [Started, Attributed, Terminated]
  {
  }

  /** The logs an execution can leave: a beginning of Started, Attributed, then Terminated once or not at all. */
  ghost predicate IsLifecycleLog(log: seq<EventKind>) {
    || log == [] || log == [Started] || log == [Started, Attributed]
    || log == [Terminated] || log == [Started, Terminated] || log == [Started, Attributed, Terminated]
  }

  lemma TerminationAddsOne(a: nat -> bool, from: nat, attempts: nat)
    ensures TerminationLog(a, from, attempts) == [] || TerminationLog(a, from, attempts) == [Terminated]
  {
    TerminationLogIs(a, from, attempts);
  }

  /** Whatever calls fail, at most one Terminated is recorded, nothing follows it, and the other events keep their order. */
  lemma LogShape(w: World, a: nat -> bool, c: nat)
    ensures IsLifecycleLog(Recorded(w, a, c))
  {
    TerminationAddsOne(a, c + 1, 1);
    TerminationAddsOne(a, c + 1, 2);
    TerminationAddsOne(a, c + 2, 1);
    TerminationAddsOne(a, c + 2, 2);
    assert [Started] + [Terminated] == [Started, Terminated];
    assert [Started, Attributed] + [Terminated] == [Started, Attributed, Terminated];
  }

  /**
    Started heads the log exactly when its own call succeeds; without it a Terminated event can still be
    recorded, by the drop handler alone.
  */
  lemma StartedIff(w: World, a: nat -> bool, c: nat)
    ensures Started in Recorded(w, a, c) <==> a(c)
    ensures !a(c) && a(c + 1) ==> Recorded(w, a, c) == [Terminated]
  {
    TerminationAddsOne(a, c + 1, 1);
  }

  lemma AttributedIff(w: World, a: nat -> bool, c: nat)
    ensures Attributed in Recorded(w, a, c) <==> a(c) && (w.memoryRequested ==> w.monitorStarts) && a(c + 1)
  {
    TerminationAddsOne(a, c + 1, 1);
    TerminationAddsOne(a, c + 1, 2);
    TerminationAddsOne(a, c + 2, 1);
    TerminationAddsOne(a, c + 2, 2);
  }

  /**
    Terminated is recorded exactly when one of the termination calls succeeds: the drop handler's alone when an error
    left the function early, else the explicit one and, should that fail, the drop handler's.
  */
  lemma TerminatedIff(w: World, a: nat -> bool, c: nat)
    ensures Terminated in Recorded(w, a, c) <==>
              || (!a(c) && a(c + 1))
              || (a(c) && w.memoryRequested && !w.monitorStarts && (a(c + 1) || a(c + 2)))
              || (a(c) && (w.memoryRequested ==> w.monitorStarts) && !a(c + 1) && a(c + 2))
              || (a(c) && (w.memoryRequested ==> w.monitorStarts) && a(c + 1) && (a(c + 2) || (w.hasStdout && w.hasStderr && a(c + 3))))
  {
    TerminationLogIs(a, c + 1, 1);
    TerminationLogIs(a, c + 1, 2);
    TerminationLogIs(a, c + 2, 1);
    TerminationLogIs(a, c + 2, 2);
  }
}
