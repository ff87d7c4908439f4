/**
  Any number of memory monitors sharing one registry.  Marking an agent cancelled happens under the mutex;
  the supervisor call that follows does not, so other monitors may act in between.
*/
module RegistryRuns {
  import opened MemoryActions
  import opened Wrappers

  /** What a monitor is in the middle of: nothing, or the supervisor call for a target it has marked. */
  datatype MonitorPc = Idle | HandingOver(target: Target)

  datatype Step =
    | Register(t: Target)
    | Unregister(key: string)
    | Mark(monitor: nat, agent: string)
    | HandOver(monitor: nat)
    | StopMonitor(monitor: nat)

  datatype State = State(registry: Registry, monitors: map<nat, MonitorPc>, handed: seq<Target>)

  const INIT := State(Registry(map[], {}), map[], [])

  function PcOf(s: State, monitor: nat): MonitorPc {
    if monitor in s.monitors then s.monitors[monitor] else Idle
  }

  predicate Enabled(s: State, step: Step) {
    match step
    case Mark(m, _) => PcOf(s, m).Idle?
    case HandOver(m) => PcOf(s, m).HandingOver?
    case _ => true
  }

  function After(s: State, step: Step): State
    requires Enabled(s, step)
  {
    match step
    case Register(t) => s.(registry := s.registry.(targets := s.registry.targets[t.agent := t]))
    case Unregister(key) => s.(registry := s.registry.(targets := s.registry.targets - {key}))
    case Mark(m, agent) =>
      var (registry, found) := MarkCancelled(s.registry, agent);
      s.(registry := registry,
         monitors := s.monitors[m := match found case None => Idle case Some(t) => HandingOver(t)])
    case HandOver(m) => s.(handed := s.handed + [PcOf(s, m).target], monitors := s.monitors[m := Idle])
    case StopMonitor(m) => s.(monitors := s.monitors[m := Idle])
  }

  ghost predicate IsRun(trace: seq<State>, steps: seq<Step>) {
    |trace| == |steps| + 1 && trace[0] == INIT
    && forall i :: 0 <= i < |steps| ==> Enabled(trace[i], steps[i]) && trace[i + 1] == After(trace[i], steps[i])
  }

  /** Every agent is handed over, about to be handed over by one monitor, or neither, and is marked if either. */
  ghost predicate HandsOverOnce(s: State) {
    && WellKeyed(s.registry)
    && (forall i :: 0 <= i < |s.handed| ==> s.handed[i].agent in s.registry.cancelled)
    && (forall i, j :: 0 <= i < j < |s.handed| ==> s.handed[i].agent != s.handed[j].agent)
    && (forall m :: m in s.monitors && s.monitors[m].HandingOver? ==>
          s.monitors[m].target.agent in s.registry.cancelled
          && forall i :: 0 <= i < |s.handed| ==> s.handed[i].agent != s.monitors[m].target.agent)
    && (forall m, n :: m in s.monitors && n in s.monitors && m != n && s.monitors[m].HandingOver? && s.monitors[n].HandingOver?
          ==> s.monitors[m].target.agent != s.monitors[n].target.agent)
  }

  lemma StepHandsOverOnce(s: State, step: Step)
    requires HandsOverOnce(s) && Enabled(s, step)
    ensures HandsOverOnce(After(s, step))
  {
  }

  lemma {:induction false} RunHandsOverOnce(trace: seq<State>, steps: seq<Step>, i: nat)
    requires IsRun(trace, steps) && i < |trace|
    ensures HandsOverOnce(trace[i])
  {
    if i > 0 {
      RunHandsOverOnce(trace, steps, i - 1);
      StepHandsOverOnce(trace[i - 1], steps[i - 1]);
    }
  }

  /** However monitors register, unregister, re-register and cancel, no agent is handed over twice. */
  lemma NoAgentIsHandedOverTwice(trace: seq<State>, steps: seq<Step>, t: nat, i: nat, j: nat)
    requires IsRun(trace, steps) && t < |trace| && i < j < |trace[t].handed|
    ensures trace[t].handed[i].agent != trace[t].handed[j].agent
  {
    RunHandsOverOnce(trace, steps, t);
  }

  predicate IsRegisteredAs(s: State, t: Target) {
    t.agent in s.registry.targets && s.registry.targets[t.agent] == t
  }

  /** Step `i` is the marking of `t`, at a moment when exactly `t` was registered for its agent. */
  ghost predicate IsMarking(trace: seq<State>, steps: seq<Step>, i: nat, t: Target)
    requires |trace| == |steps| + 1
  {
    i < |steps| && steps[i].Mark? && steps[i].agent == t.agent
    && IsRegisteredAs(trace[i], t)
    && t.agent !in trace[i].registry.cancelled
  }

  ghost predicate WasMarkedBefore(trace: seq<State>, steps: seq<Step>, i: nat, t: Target)
    requires |trace| == |steps| + 1
  {
    exists k :: 0 <= k < i && IsMarking(trace, steps, k, t)
  }

  lemma {:induction false} PendingWasMarked(trace: seq<State>, steps: seq<Step>, i: nat, m: nat)
    requires IsRun(trace, steps) && i < |trace| && PcOf(trace[i], m).HandingOver?
    ensures WasMarkedBefore(trace, steps, i, PcOf(trace[i], m).target)
  {
    if i > 0 {
      var s, step, t := trace[i - 1], steps[i - 1], PcOf(trace[i], m).target;
      if step.Mark? && step.monitor == m {
        RunHandsOverOnce(trace, steps, i - 1);
        assert IsMarking(trace, steps, i - 1, t);
      } else {
        assert PcOf(s, m) == PcOf(trace[i], m);
        PendingWasMarked(trace, steps, i - 1, m);
        var k :| 0 <= k < i - 1 && IsMarking(trace, steps, k, t);
        assert 0 <= k < i;
      }
    }
  }

  /** Every target handed over was registered, for that very run of the agent, when it was marked. */
  lemma {:induction false} HandedWasRegistered(trace: seq<State>, steps: seq<Step>, i: nat, t: Target)
    requires IsRun(trace, steps) && i < |trace| && t in trace[i].handed
    ensures WasMarkedBefore(trace, steps, i, t)
  {
    if i > 0 {
      if t in trace[i - 1].handed {
        HandedWasRegistered(trace, steps, i - 1, t);
      } else {
        PendingWasMarked(trace, steps, i - 1, steps[i - 1].monitor);
      }
      var k :| 0 <= k < i - 1 && IsMarking(trace, steps, k, t);
      assert 0 <= k < i;
    }
  }

  /** Once marked an agent stays marked, through unregistering and registering again. */
  lemma {:induction false} CancelledForever(trace: seq<State>, steps: seq<Step>, i: nat, j: nat, agent: string)
    requires IsRun(trace, steps) && i <= j < |trace| && agent in trace[i].registry.cancelled
    ensures agent in trace[j].registry.cancelled
    decreases j
  {
    if i < j {
      CancelledForever(trace, steps, i, j - 1, agent);
    }
  }

  // ---- Registered at the call ----

  predicate Concerns(step: Step, agent: string) {
    (step.Register? && step.t.agent == agent) || (step.Unregister? && step.key == agent)
  }

  /** Step `j` is the last one strictly between `k` and `i` that registers or unregisters the agent. */
  predicate IsLastChange(steps: seq<Step>, agent: string, k: nat, i: nat, j: nat) {
    k < j < i <= |steps| && Concerns(steps[j], agent) && forall n :: j < n < i ==> !Concerns(steps[n], agent)
  }

  /** The agent's last change strictly between `k` and `i`, if it had one, was an `Unregister`. */
  ghost predicate UnregisteredLast(steps: seq<Step>, agent: string, k: nat, i: nat) {
    exists j: nat :: IsLastChange(steps, agent, k, i, j) && steps[j].Unregister?
  }

  /** It was anything but a registration of exactly `t`. */
  ghost predicate ReplacedLast(steps: seq<Step>, t: Target, k: nat, i: nat) {
    exists j: nat :: IsLastChange(steps, t.agent, k, i, j) && steps[j] != Register(t)
  }

  lemma LastChangeNext(steps: seq<Step>, agent: string, k: nat, i: nat, j: nat)
    requires k < i < |steps|
    ensures IsLastChange(steps, agent, k, i + 1, j) <==>
              if Concerns(steps[i], agent) then j == i else IsLastChange(steps, agent, k, i, j)
  {
  }

  /**
    After an agent was marked at step `k`, it is registered before step `i` exactly if its last registration or
    removal in between, if there was one, is not a removal; and it is registered as exactly the marked target if
    that last change, if there was one, registered exactly this target.
  */
  lemma {:induction false} RegisteredSinceIff(trace: seq<State>, steps: seq<Step>, k: nat, i: nat, t: Target)
    requires IsRun(trace, steps) && k < i <= |steps| && IsMarking(trace, steps, k, t)
    ensures t.agent in trace[i].registry.targets <==> !UnregisteredLast(steps, t.agent, k, i)
    ensures IsRegisteredAs(trace[i], t) <==> !ReplacedLast(steps, t, k, i)
    decreases i
  {
    RunHandsOverOnce(trace, steps, i - 1);
    if i > k + 1 {
      RegisteredSinceIff(trace, steps, k, i - 1, t);
      forall j: nat
        ensures IsLastChange(steps, t.agent, k, i, j) <==>
                  if Concerns(steps[i - 1], t.agent) then j == i - 1 else IsLastChange(steps, t.agent, k, i - 1, j)
      {
        LastChangeNext(steps, t.agent, k, i - 1, j);
      }
    }
  }

  /**
    Exactly when a supervisor call finds its agent still registered: every call is for a target that was marked
    before, and between that marking and the call the last change to the agent's registration, if any, is not a
    removal.  The registration is the marked one exactly if the last change, if any, registered just that target.
  */
  lemma RegisteredAtCallIff(trace: seq<State>, steps: seq<Step>, i: nat, monitor: nat) returns (k: nat)
    requires IsRun(trace, steps) && i < |steps| && steps[i] == HandOver(monitor)
    ensures var t := PcOf(trace[i], monitor).target;
            && trace[i + 1].handed == trace[i].handed + [t]
            && k < i && IsMarking(trace, steps, k, t)
            && (t.agent in trace[i].registry.targets <==> !UnregisteredLast(steps, t.agent, k, i))
            && (IsRegisteredAs(trace[i], t) <==> !ReplacedLast(steps, t, k, i))
  {
    var t := PcOf(trace[i], monitor).target;
    PendingWasMarked(trace, steps, i, monitor);
    k :| 0 <= k < i && IsMarking(trace, steps, k, t);
    RegisteredSinceIff(trace, steps, k, i, t);
  }

  /** An agent is marked once, so the marking before a call is the only one. */
  lemma MarkedOnce(trace: seq<State>, steps: seq<Step>, k: nat, n: nat, t: Target, t': Target)
    requires IsRun(trace, steps) && IsMarking(trace, steps, k, t) && IsMarking(trace, steps, n, t') && t.agent == t'.agent
    ensures k == n && t == t'
  {
    if k < n {
      CancelledForever(trace, steps, k + 1, n, t.agent);
    } else if n < k {
      CancelledForever(trace, steps, n + 1, k, t.agent);
    }
  }

  /** The supervisor call itself can come after the agent was unregistered. */
  lemma HandOverCanBeLate(t: Target)
    ensures exists trace: seq<State>, steps: seq<Step> ::
              IsRun(trace, steps) && |steps| == 4 && steps[3] == HandOver(0)
              && t.agent !in trace[3].registry.targets && trace[4].handed == [t]
  {
    var steps := [Register(t), Mark(0, t.agent), Unregister(t.agent), HandOver(0)];
    var s1 := After(INIT, steps[0]);
    var s2 := After(s1, steps[1]);
    var s3 := After(s2, steps[2]);
    var s4 := After(s3, steps[3]);
    var trace := [INIT, s1, s2, s3, s4];
    assert s4.handed == [t];
    assert IsRun(trace, steps);
  }
}
