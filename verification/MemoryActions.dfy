/**
  The registry of running agents that memory monitors share, and the executor that carries out the
  governor's actions: process supervisor first, cgroup kill as fallback or final primitive.
*/
module MemoryActions {
  import opened Wrappers

  datatype Target = Target(agent: string, group: Option<string>, event: nat, cgroup: string)

  /** The registry's state under its mutex. */
  datatype Registry = Registry(targets: map<string, Target>, cancelled: set<string>)

  /** One look-up-and-mark under the mutex: an agent is handed out at most once. */
  function MarkCancelled(r: Registry, agent: string): (Registry, Option<Target>) {
    if agent in r.cancelled || agent !in r.targets then (r, None)
    else (r.(cancelled := r.cancelled + {agent}), Some(r.targets[agent]))
  }

  ghost predicate MatchesGroup(t: Target, group: string) {
    t.group == Some(group)
  }

  /** `HashMap::values().find(..)` in an order nobody fixes: some matching target, if there is one. */
  ghost predicate IsGroupTarget(targets: map<string, Target>, group: string, found: Option<Target>) {
    match found
    case None => forall k :: k in targets ==> !MatchesGroup(targets[k], group)
    case Some(t) => MatchesGroup(t, group) && exists k :: k in targets && targets[k] == t
  }

  datatype Action =
    | CancelReadOnlyHelper(agent: string, reason: string)
    | FailRun(reason: string)
    | PauseReadOnlySpawns
    | ReleaseSpawnPause
    | RequestRuntimeMitigation
    | Observe
    | Reclaim(group: string, bytes: nat)
    | KillGroup(group: string, terminal: bool)

  datatype CancelReason = HelperCancel(reason: string) | GroupCleanup(terminal: bool)

  /** A `cancel_process_tree` call on the supervisor. */
  datatype Call = Call(target: Target, reason: CancelReason)

  /** One entry of the result list; None marks a step the entry does not report as attempted. */
  datatype ActionResult = ActionResult(action: Action, supported: bool, succeeded: bool,
                                       supervisor: Option<bool>, cgroupKill: Option<bool>)

  class ActiveMemoryRegistry {
    var targets: map<string, Target>
    var cancelled: set<string>

    constructor ()
      ensures Value() == Registry(map[], {})
    {
      targets, cancelled := map[], {};
    }

    function Value(): Registry
      reads this
    {
      Registry(targets, cancelled)
    }

    method Register(t: Target) returns (key: string)
      modifies this`targets
      ensures key == t.agent && targets == old(targets)[key := t]
    {
      key := t.agent;
      targets := targets[key := t];
    }

    method Unregister(key: string)
      modifies this`targets
      ensures targets == old(targets) - {key}
    {
      targets := targets - {key};
    }

    method Mark(agent: string) returns (target: Option<Target>)
      modifies this`cancelled
      ensures (Value(), target) == MarkCancelled(old(Value()), agent)
    {
      if agent in cancelled {
        return None;
      }
      if agent !in targets {
        return None;
      }
      cancelled := cancelled + {agent};
      target := Some(targets[agent]);
    }

    method TargetByGroupId(group: string) returns (found: Option<Target>)
      ensures IsGroupTarget(targets, group, found)
    {
      var rest := targets.Keys;
      found := None;
      while rest != {}
        invariant rest <= targets.Keys
        invariant forall k :: k in targets && k !in rest ==> !MatchesGroup(targets[k], group)
        decreases |rest|
      {
        var k :| k in rest;
        if targets[k].group == Some(group) {
          return Some(targets[k]);
        }
        rest := rest - {k};
      }
    }
  }

  /** The process supervisor (if configured) and cgroup.kill, with any answers; every call is logged. */
  class ProcessHost {
    const hasSupervisor: bool
    const cancelAnswers: nat -> bool
    const killAnswers: nat -> bool
    var calls: seq<Call>
    var kills: seq<string>

    constructor (hasSupervisor: bool, cancelAnswers: nat -> bool, killAnswers: nat -> bool)
      ensures calls == [] && kills == []
    {
      this.hasSupervisor := hasSupervisor;
      this.cancelAnswers := cancelAnswers;
      this.killAnswers := killAnswers;
      calls, kills := [], [];
    }

    function Answering(): Hosts {
      Hosts(hasSupervisor, cancelAnswers, killAnswers)
    }

    function Made(): Counts
      reads this
    {
      Counts(|calls|, |kills|)
    }

    method CancelProcessTree(call: Call) returns (ok: bool)
      modifies this`calls
      ensures calls == if hasSupervisor then old(calls) + [call] else old(calls)
      ensures ok == (hasSupervisor && cancelAnswers(|old(calls)|))
    {
      if !hasSupervisor {
        return false;
      }
      ok := cancelAnswers(|calls|);
      calls := calls + [call];
    }

    method KillCgroup(cgroup: string) returns (ok: bool)
      modifies this`kills
      ensures kills == old(kills) + [cgroup] && ok == killAnswers(|old(kills)|)
    {
      ok := killAnswers(|kills|);
      kills := kills + [cgroup];
    }
  }

  /** The failure reason a monitor shares with the run it watches. */
  class FailureLatch {
    var reason: Option<string>

    constructor ()
      ensures reason == None
    {
      reason := None;
    }

    method Fail(why: string)
      modifies this
      ensures reason == Latched(old(reason), why)
    {
      if reason.None? {
        reason := Some(why);
      }
    }
  }

  function Latched(reason: Option<string>, why: string): Option<string> {
    if reason.None? then Some(why) else reason
  }

  // ---- What a list of actions does ----

  /** The latch after a list of actions: its old reason, else the first FailRun's. */
  function LatchedAll(reason: Option<string>, actions: seq<Action>): Option<string> {
    if actions == [] then reason
    else
      var last := actions[|actions| - 1];
      var before := LatchedAll(reason, actions[..|actions| - 1]);
      if last.FailRun? then Latched(before, last.reason) else before
  }

  function CancelledAll(r: Registry, actions: seq<Action>): Registry {
    if actions == [] then r
    else
      var last := actions[|actions| - 1];
      var before := CancelledAll(r, actions[..|actions| - 1]);
      if last.CancelReadOnlyHelper? then MarkCancelled(before, last.agent).0 else before
  }

  /** The helper cancellations handed to the supervisor, in order. */
  function HelperCalls(r: Registry, actions: seq<Action>): seq<Call> {
    if actions == [] then []
    else
      var last := actions[|actions| - 1];
      var init := actions[..|actions| - 1];
      HelperCalls(r, init)
      + (if !last.CancelReadOnlyHelper? then []
         else
           match MarkCancelled(CancelledAll(r, init), last.agent).1
           case None => []
           case Some(t) => [Call(t, HelperCancel(last.reason))])
  }

  function OnlyHelperCalls(calls: seq<Call>): seq<Call> {
    if calls == [] then []
    else
      var last := calls[|calls| - 1];
      OnlyHelperCalls(calls[..|calls| - 1]) + (if last.reason.HelperCancel? then [last] else [])
  }

  /** What the entry for one action says, given what was found and what the two hosts answered. */
  ghost predicate IsResultOf(action: Action, hasRegistry: bool, r: ActionResult) {
    && r.action == action
    && (r.succeeded ==> r.supported)
    && match action
       case CancelReadOnlyHelper(_, _) =>
         if !hasRegistry then r == ActionResult(action, false, false, None, None)
         else
           || r == ActionResult(action, true, false, None, None)
           || r == ActionResult(action, true, true, Some(true), None)
           || (r.supervisor == Some(false) && r.cgroupKill.Some? && r.supported == r.succeeded == r.cgroupKill.value)
       case KillGroup(_, _) =>
         || r == ActionResult(action, false, false, None, None)
         || (hasRegistry && r.supervisor.Some? && r.cgroupKill.Some?
             && r.supported == r.succeeded == (r.supervisor.value || r.cgroupKill.value))
       case Reclaim(_, _) => r == ActionResult(action, false, false, None, None)
       case _ => r == ActionResult(action, true, true, None, None)
  }

  /** The supervisor call a helper cancellation makes, if any. */
  function HelperCall(hasSupervisor: bool, marked: Option<Target>, reason: string): seq<Call> {
    if hasSupervisor && marked.Some? then [Call(marked.value, HelperCancel(reason))] else []
  }

  method CancelHelper(action: Action, registry: ActiveMemoryRegistry?, host: ProcessHost) returns (r: ActionResult)
    requires action.CancelReadOnlyHelper?
    modifies (if registry != null then {registry} else {}), host
    ensures IsResultOf(action, registry != null, r)
    ensures registry == null ==> host.calls == old(host.calls) && host.kills == old(host.kills)
    ensures registry != null ==>
              var (after, marked) := MarkCancelled(old(registry.Value()), action.agent);
              var stopped := host.hasSupervisor && host.cancelAnswers(|old(host.calls)|);
              var killed := host.killAnswers(|old(host.kills)|);
              && registry.Value() == after
              && host.calls == old(host.calls) + HelperCall(host.hasSupervisor, marked, action.reason)
              && host.kills == old(host.kills) + (if marked.None? || stopped then [] else [marked.value.cgroup])
              && r == (if marked.None? then ActionResult(action, true, false, None, None)
                       else if stopped then ActionResult(action, true, true, Some(true), None)
                       else ActionResult(action, killed, killed, Some(false), Some(killed)))
  {
    if registry == null {
      return ActionResult(action, false, false, None, None);
    }
    var target := registry.Mark(action.agent);
    if target.None? {
      return ActionResult(action, true, false, None, None);
    }
    var cancelled := host.CancelProcessTree(Call(target.value, HelperCancel(action.reason)));
    if cancelled {
      return ActionResult(action, true, true, Some(true), None);
    }
    var killed := host.KillCgroup(target.value.cgroup);
    r := ActionResult(action, killed, killed, Some(false), Some(killed));
  }

  /** Some target of the group was cancelled through the supervisor and then killed, whatever came of the first. */
  ghost predicate IsCleanUp(action: Action, targets: map<string, Target>, host: ProcessHost, callCount: nat,
                            oldKills: seq<string>, r: ActionResult, made: seq<Call>)
    requires action.KillGroup?
    reads host
  {
    exists t :: IsGroupTarget(targets, action.group, Some(t))
      && made == (if host.hasSupervisor then [Call(t, GroupCleanup(action.terminal))] else [])
      && host.kills == oldKills + [t.cgroup]
      && var stopped, killed := host.hasSupervisor && host.cancelAnswers(callCount), host.killAnswers(|oldKills|);
         r == ActionResult(action, stopped || killed, stopped || killed, Some(stopped), Some(killed))
  }

  method CleanUpGroup(action: Action, registry: ActiveMemoryRegistry?, host: ProcessHost)
      returns (r: ActionResult, ghost made: seq<Call>)
    requires action.KillGroup?
    modifies host
    ensures IsResultOf(action, registry != null, r)
    ensures host.calls == old(host.calls) + made && OnlyHelperCalls(made) == []
    ensures if registry == null || IsGroupTarget(registry.targets, action.group, None)
            then r == ActionResult(action, false, false, None, None) && made == [] && host.kills == old(host.kills)
            else IsCleanUp(action, registry.targets, host, |old(host.calls)|, old(host.kills), r, made)
  {
    made := [];
    if registry == null {
      return ActionResult(action, false, false, None, None), made;
    }
    var target := registry.TargetByGroupId(action.group);
    if target.None? {
      return ActionResult(action, false, false, None, None), made;
    }
    var call := Call(target.value, GroupCleanup(action.terminal));
    var cancelled := host.CancelProcessTree(call);
    if host.hasSupervisor {
      made := [call];
      assert made[..0] == [];
    }
    var killed := host.KillCgroup(target.value.cgroup);
    r := ActionResult(action, cancelled || killed, cancelled || killed, Some(cancelled), Some(killed));
  }

  lemma {:induction false} OnlyHelperCallsConcat(a: seq<Call>, b: seq<Call>)
    ensures OnlyHelperCalls(a + b) == OnlyHelperCalls(a) + OnlyHelperCalls(b)
  {
    if b == [] {
      assert a + b == a;
    } else {
      assert (a + b)[..|a + b| - 1] == a + b[..|b| - 1];
      OnlyHelperCallsConcat(a, b[..|b| - 1]);
    }
  }

  lemma HelperCallIsKept(hasSupervisor: bool, marked: Option<Target>, reason: string)
    ensures OnlyHelperCalls(HelperCall(hasSupervisor, marked, reason)) == HelperCall(hasSupervisor, marked, reason)
  {
    var calls := HelperCall(hasSupervisor, marked, reason);
    if calls != [] {
      assert calls[..0] == [];
    }
  }

  /** The outcomes of cgroup kills and of supervisor calls that a list of results reports, in order. */
  function KillReports(results: seq<ActionResult>): seq<bool> {
    if results == [] then []
    else
      var last := results[|results| - 1].cgroupKill;
      KillReports(results[..|results| - 1]) + if last.Some? then [last.value] else []
  }

  function SupervisorReports(results: seq<ActionResult>): seq<bool> {
    if results == [] then []
    else
      var last := results[|results| - 1].supervisor;
      SupervisorReports(results[..|results| - 1]) + if last.Some? then [last.value] else []
  }

  /** The reports are exactly the answers that were given, from answer number `from` on. */
  ghost predicate Answered(answers: nat -> bool, from: nat, to: nat, reports: seq<bool>) {
    to == from + |reports| && forall i :: 0 <= i < |reports| ==> reports[i] == answers(from + i)
  }

  lemma ReportsNext(results: seq<ActionResult>, r: ActionResult)
    ensures KillReports(results + [r]) == KillReports(results) + if r.cgroupKill.Some? then [r.cgroupKill.value] else []
    ensures SupervisorReports(results + [r]) == SupervisorReports(results) + if r.supervisor.Some? then [r.supervisor.value] else []
  {
    assert (results + [r])[..|results|] == results;
  }

  /** How the two hosts answer. */
  datatype Hosts = Hosts(hasSupervisor: bool, cancelAnswers: nat -> bool, killAnswers: nat -> bool)

  /** How many supervisor calls and cgroup kills were made. */
  datatype Counts = Counts(calls: nat, kills: nat)

  /** The results report every kill and every supervisor call made in between, each with its answer. */
  ghost predicate HaveReported(results: seq<ActionResult>, hosts: Hosts, was: Counts, now: Counts) {
    && Answered(hosts.killAnswers, was.kills, now.kills, KillReports(results))
    && (hosts.hasSupervisor ==> Answered(hosts.cancelAnswers, was.calls, now.calls, SupervisorReports(results)))
    && (!hosts.hasSupervisor ==> now.calls == was.calls && true !in SupervisorReports(results))
  }

  ghost predicate IsTruthful(r: ActionResult, hosts: Hosts, was: Counts, now: Counts) {
    && Answered(hosts.killAnswers, was.kills, now.kills, if r.cgroupKill.Some? then [r.cgroupKill.value] else [])
    && (hosts.hasSupervisor ==>
          Answered(hosts.cancelAnswers, was.calls, now.calls, if r.supervisor.Some? then [r.supervisor.value] else []))
    && (!hosts.hasSupervisor ==> now.calls == was.calls && r.supervisor != Some(true))
  }

  lemma AnsweredConcat(answers: nat -> bool, a: nat, b: nat, c: nat, first: seq<bool>, second: seq<bool>)
    requires Answered(answers, a, b, first) && Answered(answers, b, c, second)
    ensures Answered(answers, a, c, first + second)
  {
  }

  /** One more entry that is truthful about what was done for it. */
  lemma ReportedNext(results: seq<ActionResult>, r: ActionResult, hosts: Hosts, was: Counts, before: Counts, now: Counts)
    requires HaveReported(results, hosts, was, before) && IsTruthful(r, hosts, before, now)
    ensures HaveReported(results + [r], hosts, was, now)
  {
    ReportsNext(results, r);
    AnsweredConcat(hosts.killAnswers, was.kills, before.kills, now.kills, KillReports(results),
                   if r.cgroupKill.Some? then [r.cgroupKill.value] else []);
    if hosts.hasSupervisor {
      AnsweredConcat(hosts.cancelAnswers, was.calls, before.calls, now.calls, SupervisorReports(results),
                     if r.supervisor.Some? then [r.supervisor.value] else []);
    }
  }

  /** What the executor reads and writes: the registry, empty if there is none, the latch and what the hosts were asked. */
  datatype Snapshot = Snapshot(registry: Registry, reason: Option<string>, calls: seq<Call>, kills: seq<string>)

  ghost function SnapshotOf(registry: ActiveMemoryRegistry?, host: ProcessHost, latch: FailureLatch): Snapshot
    reads (if registry != null then {registry} else {}), host, latch
  {
    Snapshot(if registry != null then registry.Value() else Registry(map[], {}), latch.reason, host.calls, host.kills)
  }

  function CountsOf(s: Snapshot): Counts {
    Counts(|s.calls|, |s.kills|)
  }

  /** What one action does, and its entry. */
  ghost predicate DidOne(action: Action, hasRegistry: bool, hosts: Hosts, was: Snapshot, now: Snapshot, r: ActionResult,
                         more: seq<Call>) {
    && IsResultOf(action, hasRegistry, r) && IsTruthful(r, hosts, CountsOf(was), CountsOf(now))
    && now.calls == was.calls + more && was.kills <= now.kills
    && now.reason == (if action.FailRun? then Latched(was.reason, action.reason) else was.reason)
    && if hasRegistry && action.CancelReadOnlyHelper?
       then now.registry == MarkCancelled(was.registry, action.agent).0
            && more == HelperCall(hosts.hasSupervisor, MarkCancelled(was.registry, action.agent).1, action.reason)
       else now.registry == was.registry && OnlyHelperCalls(more) == []
  }

  /** What a list of actions does, and the entries for it. */
  ghost predicate DidAll(actions: seq<Action>, hasRegistry: bool, hosts: Hosts, was: Snapshot, now: Snapshot,
                         results: seq<ActionResult>) {
    && |results| == |actions| && (forall i :: 0 <= i < |actions| ==> IsResultOf(actions[i], hasRegistry, results[i]))
    && HaveReported(results, hosts, CountsOf(was), CountsOf(now))
    && was.calls <= now.calls && was.kills <= now.kills
    && now.reason == LatchedAll(was.reason, actions)
    && (hasRegistry ==> now.registry == CancelledAll(was.registry, actions))
    && OnlyHelperCalls(now.calls[|was.calls|..])
    == if hasRegistry && hosts.hasSupervisor then HelperCalls(was.registry, actions) else []
  }

  lemma DidNothing(hasRegistry: bool, hosts: Hosts, was: Snapshot)
    ensures DidAll([], hasRegistry, hosts, was, was, [])
  {
  }

  lemma HelperCallsNext(was: Registry, actions: seq<Action>, action: Action)
    ensures HelperCalls(was, actions + [action])
         == HelperCalls(was, actions)
            + if action.CancelReadOnlyHelper?
              then HelperCall(true, MarkCancelled(CancelledAll(was, actions), action.agent).1, action.reason) else []
  {
    assert (actions + [action])[..|actions|] == actions;
  }

  lemma OneActionsCalls(action: Action, hasRegistry: bool, hosts: Hosts, was: Snapshot, now: Snapshot, r: ActionResult,
                        more: seq<Call>)
    requires DidOne(action, hasRegistry, hosts, was, now, r, more)
    ensures OnlyHelperCalls(more)
         == if hasRegistry && action.CancelReadOnlyHelper?
            then HelperCall(hosts.hasSupervisor, MarkCancelled(was.registry, action.agent).1, action.reason) else []
  {
    if hasRegistry && action.CancelReadOnlyHelper? {
      HelperCallIsKept(hosts.hasSupervisor, MarkCancelled(was.registry, action.agent).1, action.reason);
    }
  }

  lemma LaterCalls(was: seq<Call>, before: seq<Call>, more: seq<Call>)
    requires was <= before
    ensures was <= before + more && (before + more)[|was|..] == before[|was|..] + more
  {
  }

  lemma CallsNext(actions: seq<Action>, action: Action, hasRegistry: bool, hosts: Hosts, was: Snapshot, before: Snapshot,
                  now: Snapshot, results: seq<ActionResult>, r: ActionResult, more: seq<Call>)
    requires DidAll(actions, hasRegistry, hosts, was, before, results)
    requires DidOne(action, hasRegistry, hosts, before, now, r, more)
    ensures was.calls <= now.calls
    ensures OnlyHelperCalls(now.calls[|was.calls|..])
         == if hasRegistry && hosts.hasSupervisor then HelperCalls(was.registry, actions + [action]) else []
  {
    LaterCalls(was.calls, before.calls, more);
    OnlyHelperCallsConcat(before.calls[|was.calls|..], more);
    OneActionsCalls(action, hasRegistry, hosts, before, now, r, more);
    HelperCallsNext(was.registry, actions, action);
  }

  lemma DidNext(actions: seq<Action>, i: nat, hasRegistry: bool, hosts: Hosts, was: Snapshot, before: Snapshot,
                now: Snapshot, results: seq<ActionResult>, r: ActionResult, more: seq<Call>)
    requires i < |actions| && DidAll(actions[..i], hasRegistry, hosts, was, before, results)
    requires DidOne(actions[i], hasRegistry, hosts, before, now, r, more)
    ensures DidAll(actions[..i + 1], hasRegistry, hosts, was, now, results + [r])
  {
    assert actions[..i + 1] == actions[..i] + [actions[i]];
    DidOneMore(actions[..i], actions[i], hasRegistry, hosts, was, before, now, results, r, more);
  }

  lemma DidOneMore(actions: seq<Action>, action: Action, hasRegistry: bool, hosts: Hosts, was: Snapshot, before: Snapshot,
                   now: Snapshot, results: seq<ActionResult>, r: ActionResult, more: seq<Call>)
    requires DidAll(actions, hasRegistry, hosts, was, before, results)
    requires DidOne(action, hasRegistry, hosts, before, now, r, more)
    ensures DidAll(actions + [action], hasRegistry, hosts, was, now, results + [r])
  {
    assert (actions + [action])[..|actions|] == actions;
    CallsNext(actions, action, hasRegistry, hosts, was, before, now, results, r, more);
    ReportedNext(results, r, hosts, CountsOf(was), CountsOf(before), CountsOf(now));
  }

  /** The body of the executor's loop. */
  method ExecuteAction(action: Action, registry: ActiveMemoryRegistry?, host: ProcessHost, latch: FailureLatch)
      returns (r: ActionResult, ghost more: seq<Call>)
    modifies (if registry != null then {registry} else {}), host, latch
    ensures DidOne(action, registry != null, host.Answering(), old(SnapshotOf(registry, host, latch)),
                   SnapshotOf(registry, host, latch), r, more)
  {
    more := [];
    match action
    case CancelReadOnlyHelper(_, _) =>
      r := CancelHelper(action, registry, host);
      more := host.calls[|old(host.calls)|..];
    case FailRun(why) =>
      latch.Fail(why);
      r := ActionResult(action, true, true, None, None);
    case Reclaim(_, _) =>
      r := ActionResult(action, false, false, None, None);
    case KillGroup(_, _) =>
      r, more := CleanUpGroup(action, registry, host);
    case _ =>
      r := ActionResult(action, true, true, None, None);
  }

  /**
    `execute_memory_actions`: one result per action, in order.  The registry, the failure latch and the
    supervisor's helper cancellations end up as the three specification functions say; cgroup clean-ups never
    count as helper cancellations.  The results report every kill and every supervisor call, each with its answer.
  */
  method ExecuteMemoryActions(actions: seq<Action>, registry: ActiveMemoryRegistry?, host: ProcessHost, latch: FailureLatch)
      returns (results: seq<ActionResult>)
    modifies (if registry != null then {registry} else {}), host, latch
    ensures |results| == |actions| && forall i :: 0 <= i < |actions| ==> IsResultOf(actions[i], registry != null, results[i])
    ensures latch.reason == LatchedAll(old(latch.reason), actions)
    ensures registry != null ==> registry.Value() == CancelledAll(old(registry.Value()), actions)
    ensures old(host.calls) <= host.calls && old(host.kills) <= host.kills
    ensures HaveReported(results, host.Answering(), old(host.Made()), host.Made())
    ensures OnlyHelperCalls(host.calls[|old(host.calls)|..])
         == if registry != null && host.hasSupervisor then HelperCalls(old(registry.Value()), actions) else []
  {
    results := [];
    ghost var was := SnapshotOf(registry, host, latch);
    DidNothing(registry != null, host.Answering(), was);
    for i := 0 to |actions|
      invariant DidAll(actions[..i], registry != null, host.Answering(), was, SnapshotOf(registry, host, latch), results)
    {
      ghost var before := SnapshotOf(registry, host, latch);
      var r: ActionResult;
      ghost var more: seq<Call>;
      r, more := ExecuteAction(actions[i], registry, host, latch);
      DidNext(actions, i, registry != null, host.Answering(), was, before, SnapshotOf(registry, host, latch), results, r, more);
      results := results + [r];
    }
    assert actions[..|actions|] == actions;
  }

  // ---- What the specification functions promise ----

  /** The key of every target is its agent, as `register` makes it. */
  ghost predicate WellKeyed(r: Registry) {
    forall k :: k in r.targets ==> r.targets[k].agent == k
  }

  /** Executing actions marks exactly the registered agents they name, and registers or removes nobody. */
  lemma {:induction false} CancelledAllIs(r: Registry, actions: seq<Action>)
    ensures CancelledAll(r, actions).targets == r.targets
    ensures forall a :: a in CancelledAll(r, actions).cancelled <==>
              a in r.cancelled || (a in r.targets && exists i :: 0 <= i < |actions| && actions[i].CancelReadOnlyHelper? && actions[i].agent == a)
  {
    if actions != [] {
      var init, last := actions[..|actions| - 1], actions[|actions| - 1];
      CancelledAllIs(r, init);
      assert forall i :: 0 <= i < |init| ==> init[i] == actions[i];
    }
  }

  /** A helper cancellation of an agent registered in `r` and not cancelled there, but cancelled by now. */
  ghost predicate IsFreshCall(r: Registry, now: Registry, c: Call) {
    && c.reason.HelperCancel?
    && c.target.agent in r.targets && r.targets[c.target.agent] == c.target
    && c.target.agent !in r.cancelled && c.target.agent in now.cancelled
  }

  /** One list of actions hands each agent over at most once, and only agents registered and not yet cancelled. */
  lemma {:induction false} HelperCallsAreDistinct(r: Registry, actions: seq<Action>)
    requires WellKeyed(r)
    ensures forall i :: 0 <= i < |HelperCalls(r, actions)| ==> IsFreshCall(r, CancelledAll(r, actions), HelperCalls(r, actions)[i])
    ensures forall i, j :: 0 <= i < j < |HelperCalls(r, actions)| ==>
              HelperCalls(r, actions)[i].target.agent != HelperCalls(r, actions)[j].target.agent
  {
    if actions != [] {
      var init, last := actions[..|actions| - 1], actions[|actions| - 1];
      HelperCallsAreDistinct(r, init);
      CancelledAllIs(r, init);
      var before, earlier := CancelledAll(r, init), HelperCalls(r, init);
      assert forall i :: 0 <= i < |earlier| ==> IsFreshCall(r, before, earlier[i]);
      if last.CancelReadOnlyHelper? && MarkCancelled(before, last.agent).1.Some? {
        var call := Call(r.targets[last.agent], HelperCancel(last.reason));
        assert HelperCalls(r, actions) == earlier + [call];
        assert IsFreshCall(r, CancelledAll(r, actions), call);
      } else {
        assert HelperCalls(r, actions) == earlier;
      }
    }
  }

  /** Action `i` is the first of the list that cancels its agent, registered and not yet cancelled, and `c` is its call. */
  ghost predicate IsFirstCancel(r: Registry, actions: seq<Action>, i: nat, c: Call) {
    && i < |actions| && actions[i].CancelReadOnlyHelper?
    && actions[i].agent in r.targets && actions[i].agent !in r.cancelled
    && (forall j :: 0 <= j < i && actions[j].CancelReadOnlyHelper? ==> actions[j].agent != actions[i].agent)
    && c == Call(r.targets[actions[i].agent], HelperCancel(actions[i].reason))
  }

  /** The calls are exactly one for each agent that is first cancelled in the list, for its target and with its reason. */
  lemma {:induction false} HelperCallsAre(r: Registry, actions: seq<Action>, c: Call)
    ensures c in HelperCalls(r, actions) <==> exists i: nat :: IsFirstCancel(r, actions, i, c)
  {
    if actions != [] {
      var n, init, last := |actions| - 1, actions[..|actions| - 1], actions[|actions| - 1];
      HelperCallsAre(r, init, c);
      CancelledAllIs(r, init);
      assert forall i :: 0 <= i < n ==> init[i] == actions[i];
      assert forall i: nat :: IsFirstCancel(r, init, i, c) ==> IsFirstCancel(r, actions, i, c);
      assert forall i: nat :: i < n && IsFirstCancel(r, actions, i, c) ==> IsFirstCancel(r, init, i, c);
      assert forall i: nat :: IsFirstCancel(r, actions, i, c) ==> i <= n;
      if last.CancelReadOnlyHelper? {
        var marked := MarkCancelled(CancelledAll(r, init), last.agent).1;
        assert IsFirstCancel(r, actions, n, c) <==>
               marked.Some? && c == Call(marked.value, HelperCancel(last.reason));
      }
    }
  }

  /** The failure latch keeps the first reason it ever gets. */
  lemma {:induction false} LatchKeepsFirst(reason: Option<string>, actions: seq<Action>)
    ensures reason.Some? ==> LatchedAll(reason, actions) == reason
    ensures reason.None? ==>
              forall i :: 0 <= i < |actions| && actions[i].FailRun? && (forall j :: 0 <= j < i ==> !actions[j].FailRun?)
                ==> LatchedAll(reason, actions) == Some(actions[i].reason)
    ensures reason.None? && (forall i :: 0 <= i < |actions| ==> !actions[i].FailRun?) ==> LatchedAll(reason, actions) == None
  {
    if actions != [] {
      var init := actions[..|actions| - 1];
      LatchKeepsFirst(reason, init);
      assert forall i :: 0 <= i < |init| ==> init[i] == actions[i];
    }
  }
}
