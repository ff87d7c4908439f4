/**
  What a ledger row says about the past: every state that is ever stored goes back to an earlier event that
  justifies it, and what a tracker call found out is stored by the next record of its process.
*/
module SubmissionHistory {
  import opened IssueLedger
  import opened IssueMarkers
  import opened SubmissionProtocol
  import opened Wrappers

  // ---- The events that justify a state ----

  ghost predicate StandsAt(s: State, e: Event, k: Key) {
    e.p in s.procs && match s.procs[e.p] case Drafting(keys) => k in keys case Done => false case pc => pc.k == k
  }

  /** The tracker answered a link request for the issue of `k`; None stands for a failed call of a first submission. */
  ghost predicate AnswersLink(s: State, e: Event, k: Key, answer: Option<bool>) {
    && StandsAt(s, e, k) && e.step == CallLink(answer)
    && (s.procs[e.p].LinkOnly? || s.procs[e.p].Linking?)
    && (answer == None ==> s.procs[e.p].Linking? && !s.procs[e.p].recovered)
  }

  /** The process created an issue for `k` and saw it, or a search showed it exactly one issue, which has the marker of `k`. */
  ghost predicate ShowsIssue(s: State, e: Event, k: Key, number: nat, id: Option<nat>, mismatch: bool) {
    && StandsAt(s, e, k)
    && match e.step
       case CallCreate(CreatedSeen(n, i, reported, m)) =>
         s.procs[e.p].Creating? && n == number && m == mismatch && id == if reported then Some(i) else None
       case Search(visible, reported, m) =>
         s.procs[e.p].Recovering? && m == mismatch && exists j :: IsOnlyHit(s, k, visible, j, number, id, reported)
       case _ => false
  }

  ghost predicate IsOnlyHit(s: State, k: Key, visible: set<nat>, j: nat, number: nat, id: Option<nat>, reported: bool) {
    && visible == {j} && j < |s.issues| && s.issues[j].origin.k.repo == k.repo && IsCandidate(s.issues[j].origin, k)
    && s.issues[j].number == number && id == if reported then Some(s.issues[j].id) else None
  }

  ghost predicate Shows(s: State, e: Event, k: Key, mismatch: bool) {
    exists number: nat, id: Option<nat> :: ShowsIssue(s, e, k, number, id, mismatch)
  }

  /** The event justifies that the row of `k` is in this state. */
  ghost predicate Justifies(s: State, e: Event, k: Key, state: LedgerState) {
    match state
    case Pending => StandsAt(s, e, k) && e.step == Materialize
    case Submitted => StandsAt(s, e, k) && e.step.Begin?
    case Created => Shows(s, e, k, false)
    case CreatedMetadataMismatch => Shows(s, e, k, true)
    case Linked => AnswersLink(s, e, k, Some(true)) || (k.parent.None? && Shows(s, e, k, false))
    case CreatedUnlinked => AnswersLink(s, e, k, Some(false)) || AnswersLink(s, e, k, None)
    case Failed => false
  }

  /** Some event before state `i` of the run justifies the state. */
  ghost predicate Justified(trace: seq<State>, events: seq<Event>, i: nat, k: Key, state: LedgerState) {
    exists j :: 0 <= j < i && j < |events| && j < |trace| && Justifies(trace[j], events[j], k, state)
  }

  ghost predicate RowIsJustified(trace: seq<State>, events: seq<Event>, i: nat, k: Key)
    requires i < |trace|
  {
    Select(trace[i].table, k).Some? ==> Justified(trace, events, i, k, Select(trace[i].table, k).value.state)
  }

  /** What a process is about to record is justified. */
  ghost predicate PcIsJustified(trace: seq<State>, events: seq<Event>, i: nat, pc: Pc) {
    match pc
    case RecordingCreated(k, _, _) => Justified(trace, events, i, k, Created)
    case RecordingLast(k, _, _, state) => Justified(trace, events, i, k, state)
    case _ => true
  }

  lemma JustifiedLater(trace: seq<State>, events: seq<Event>, i: nat, k: Key, state: LedgerState)
    requires Justified(trace, events, i, k, state)
    ensures Justified(trace, events, i + 1, k, state)
  {
  }

  lemma JustifiedNow(trace: seq<State>, events: seq<Event>, i: nat, k: Key, state: LedgerState)
    requires i < |events| && i < |trace| && Justifies(trace[i], events[i], k, state)
    ensures Justified(trace, events, i + 1, k, state)
  {
  }

  /** Without a parent an issue seen without mismatch is all that `linked` needs. */
  lemma CreatedMeansLinked(trace: seq<State>, events: seq<Event>, i: nat, k: Key)
    requires Justified(trace, events, i, k, Created) && k.parent.None?
    ensures Justified(trace, events, i, k, Linked)
  {
    var j :| 0 <= j < i && j < |events| && j < |trace| && Justifies(trace[j], events[j], k, Created);
    assert Justifies(trace[j], events[j], k, Linked);
  }

  lemma RunStep(trace: seq<State>, events: seq<Event>, i: nat)
    requires IsRun(trace, events) && i < |events|
    ensures Enabled(trace[i], events[i].p, events[i].step)
    ensures trace[i + 1] == After(trace[i], events[i].p, events[i].step)
  {
  }

  // ---- Every stored state is justified ----

  lemma SearchShows(s: State, p: nat, visible: set<nat>, reported: bool, mismatch: bool)
    requires Enabled(s, p, Search(visible, reported, mismatch))
    ensures var k, pc := s.procs[p].k, AfterSearch(s, s.procs[p].k, visible, reported, mismatch);
            || pc == Done
            || (pc.RecordingCreated? && pc.k == k && !mismatch && pc.recovered
                && ShowsIssue(s, Event(p, Search(visible, reported, mismatch)), k, pc.found.number, pc.found.id, false))
            || (pc.RecordingLast? && pc.k == k && mismatch && pc.state == CreatedMetadataMismatch && pc.number.Some?
                && ShowsIssue(s, Event(p, Search(visible, reported, mismatch)), k, pc.number.value, pc.id, true))
  {
    var k := s.procs[p].k;
    if |visible| == 1 {
      forall j | j in visible && IsCandidate(s.issues[j].origin, k)
        ensures var found := Seen(s.issues[j], reported); IsOnlyHit(s, k, visible, j, found.number, found.id, reported)
      {
        OnlyMember(visible, j);
      }
    }
  }

  lemma CreateShows(s: State, p: nat, number: nat, id: nat, reported: bool, mismatch: bool)
    requires Enabled(s, p, CallCreate(CreatedSeen(number, id, reported, mismatch)))
    ensures var e := Event(p, CallCreate(CreatedSeen(number, id, reported, mismatch)));
            var k, found := s.procs[p].k, Found(number, if reported then Some(id) else None);
            && ShowsIssue(s, e, k, number, found.id, mismatch)
            && After(s, p, e.step).procs[p] == if mismatch then RecordingLast(k, Some(number), found.id, CreatedMetadataMismatch)
                                               else RecordingCreated(k, found, false)
  {
  }

  lemma AnswerJustifies(s: State, e: Event, answer: Option<bool>)
    requires Enabled(s, e.p, CallLink(answer)) && e.step == CallLink(answer) && AfterLink(s.procs[e.p], answer) != Done
    ensures var k, state := s.procs[e.p].k, if answer == Some(true) then Linked else CreatedUnlinked;
            && Justifies(s, e, k, state)
            && AfterLink(s.procs[e.p], answer).RecordingLast? && AfterLink(s.procs[e.p], answer).k == k
            && AfterLink(s.procs[e.p], answer).state == state
  {
    assert AnswersLink(s, e, s.procs[e.p].k, answer);
  }

  /** The pc that a tracker call leaves behind. */
  lemma CallJustifiesPc(trace: seq<State>, events: seq<Event>, i: nat)
    requires IsRun(trace, events) && i < |events|
    requires events[i].step.CallCreate? || events[i].step.Search? || events[i].step.CallLink?
    ensures PcIsJustified(trace, events, i + 1, trace[i + 1].procs[events[i].p])
  {
    var s, p, e := trace[i], events[i].p, events[i];
    RunStep(trace, events, i);
    var pc := trace[i + 1].procs[p];
    match e.step
    case CallCreate(o) =>
      if o.CreatedSeen? {
        CreateShows(s, p, o.number, o.id, o.idReported, o.mismatch);
        JustifiedNow(trace, events, i, s.procs[p].k, if o.mismatch then CreatedMetadataMismatch else Created);
      }
    case Search(visible, reported, mismatch) =>
      SearchShows(s, p, visible, reported, mismatch);
      if pc != Done {
        JustifiedNow(trace, events, i, s.procs[p].k, if mismatch then CreatedMetadataMismatch else Created);
      }
    case CallLink(answer) =>
      if pc != Done {
        AnswerJustifies(s, e, answer);
        JustifiedNow(trace, events, i, s.procs[p].k, if answer == Some(true) then Linked else CreatedUnlinked);
      }
  }

  lemma NewPcIsJustified(trace: seq<State>, events: seq<Event>, i: nat)
    requires IsRun(trace, events) && i < |events|
    requires events[i].p in trace[i].procs ==> PcIsJustified(trace, events, i, trace[i].procs[events[i].p])
    ensures PcIsJustified(trace, events, i + 1, trace[i + 1].procs[events[i].p])
  {
    var s, p, e := trace[i], events[i].p, events[i];
    RunStep(trace, events, i);
    if e.step.CallCreate? || e.step.Search? || e.step.CallLink? {
      CallJustifiesPc(trace, events, i);
    } else if e.step.Record? && s.procs[p].RecordingCreated? && s.procs[p].k.parent.None? {
      CreatedMeansLinked(trace, events, i, s.procs[p].k);
      JustifiedLater(trace, events, i, s.procs[p].k, Linked);
    }
  }

  lemma NewRowIsJustified(trace: seq<State>, events: seq<Event>, i: nat, k: Key)
    requires IsRun(trace, events) && i < |events| && RowIsJustified(trace, events, i, k)
    requires events[i].p in trace[i].procs ==> PcIsJustified(trace, events, i, trace[i].procs[events[i].p])
    ensures RowIsJustified(trace, events, i + 1, k)
  {
    var s, s', p, e := trace[i], trace[i + 1], events[i].p, events[i];
    RunStep(trace, events, i);
    if Select(s'.table, k).Some? {
      var state := Select(s'.table, k).value.state;
      if Select(s.table, k).Some? && Select(s.table, k).value.state == state {
        JustifiedLater(trace, events, i, k, state);
      } else {
        match e.step
        case Record => JustifiedLater(trace, events, i, k, state);
        case Begin(d) => JustifiedNow(trace, events, i, k, Submitted);
        case Materialize =>
          MaterializeOnlyAddsPending(s.table, s.procs[p].keys);
          JustifiedNow(trace, events, i, k, Pending);
        case _ =>
      }
    }
  }

  lemma {:induction false} RunIsJustified(trace: seq<State>, events: seq<Event>, i: nat)
    requires IsRun(trace, events) && i < |trace|
    ensures forall k :: RowIsJustified(trace, events, i, k)
    ensures forall p :: p in trace[i].procs ==> PcIsJustified(trace, events, i, trace[i].procs[p])
  {
    if i > 0 {
      RunIsJustified(trace, events, i - 1);
      RunStep(trace, events, i - 1);
      NewPcIsJustified(trace, events, i - 1);
      forall k
        ensures RowIsJustified(trace, events, i, k)
      {
        NewRowIsJustified(trace, events, i - 1, k);
      }
      forall p | p in trace[i].procs
        ensures PcIsJustified(trace, events, i, trace[i].procs[p])
      {
        if p != events[i - 1].p {
          OldPcIsJustified(trace, events, i - 1, p);
        }
      }
    }
  }

  lemma OldPcIsJustified(trace: seq<State>, events: seq<Event>, i: nat, p: nat)
    requires i < |trace| && p in trace[i].procs && PcIsJustified(trace, events, i, trace[i].procs[p])
    ensures PcIsJustified(trace, events, i + 1, trace[i].procs[p])
  {
    match trace[i].procs[p]
    case RecordingCreated(k, _, _) => JustifiedLater(trace, events, i, k, Created);
    case RecordingLast(k, _, _, state) => JustifiedLater(trace, events, i, k, state);
    case _ =>
  }

  // ---- What each state says ----

  lemma JustifyingEvent(trace: seq<State>, events: seq<Event>, i: nat, k: Key) returns (j: nat)
    requires IsRun(trace, events) && i < |trace| && Select(trace[i].table, k).Some?
    ensures j < i && j < |events| && j < |trace| && Justifies(trace[j], events[j], k, Select(trace[i].table, k).value.state)
  {
    RunIsJustified(trace, events, i);
    assert RowIsJustified(trace, events, i, k);
    j :| 0 <= j < i && j < |events| && j < |trace| && Justifies(trace[j], events[j], k, Select(trace[i].table, k).value.state);
  }

  /**
    A row that says `linked` goes back to a link request for this key that the tracker confirmed, or the key has no
    parent and an issue was seen for it with the right metadata.
  */
  lemma LinkedWasConfirmed(trace: seq<State>, events: seq<Event>, i: nat, k: Key) returns (j: nat)
    requires IsRun(trace, events) && i < |trace|
    requires Select(trace[i].table, k).Some? && Select(trace[i].table, k).value.state == Linked
    ensures j < i && j < |events| && events[j].p in trace[j].procs
    ensures var pc, step := trace[j].procs[events[j].p], events[j].step;
            || ((pc.Linking? || pc.LinkOnly?) && pc.k == k && step == CallLink(Some(true)))
            || (k.parent == None && pc.Creating? && pc.k == k
                && step.CallCreate? && step.outcome.CreatedSeen? && !step.outcome.mismatch)
            || (k.parent == None && pc.Recovering? && pc.k == k && step.Search? && |step.visible| == 1 && !step.mismatch)
  {
    j := JustifyingEvent(trace, events, i, k);
  }

  /** A row that says `created_unlinked` goes back to a link request for this key that the tracker refused or that failed. */
  lemma UnlinkedWasRefused(trace: seq<State>, events: seq<Event>, i: nat, k: Key) returns (j: nat)
    requires IsRun(trace, events) && i < |trace|
    requires Select(trace[i].table, k).Some? && Select(trace[i].table, k).value.state == CreatedUnlinked
    ensures j < i && j < |events| && events[j].p in trace[j].procs
    ensures var pc, step := trace[j].procs[events[j].p], events[j].step;
            || ((pc.Linking? || pc.LinkOnly?) && pc.k == k && step == CallLink(Some(false)))
            || (pc.Linking? && pc.k == k && !pc.recovered && step == CallLink(None))
  {
    j := JustifyingEvent(trace, events, i, k);
  }

  /**
    A row that says `created` or `created_metadata_mismatch` goes back to a create call or a search for this key that
    showed one issue, with the right metadata in the first case alone.
  */
  lemma CreatedWasSeen(trace: seq<State>, events: seq<Event>, i: nat, k: Key) returns (j: nat)
    requires IsRun(trace, events) && i < |trace| && Select(trace[i].table, k).Some?
    requires Select(trace[i].table, k).value.state in {Created, CreatedMetadataMismatch}
    ensures j < i && j < |events| && events[j].p in trace[j].procs
    ensures var pc, step := trace[j].procs[events[j].p], events[j].step;
            var mismatch := Select(trace[i].table, k).value.state == CreatedMetadataMismatch;
            || (pc.Creating? && pc.k == k && step.CallCreate? && step.outcome.CreatedSeen? && step.outcome.mismatch == mismatch)
            || (pc.Recovering? && pc.k == k && step.Search? && |step.visible| == 1 && step.mismatch == mismatch)
  {
    j := JustifyingEvent(trace, events, i, k);
  }

  /** A row that says `submitted` was begun for exactly its key, and one that says `pending` was materialised with it. */
  lemma EarlyRowWasWritten(trace: seq<State>, events: seq<Event>, i: nat, k: Key) returns (j: nat)
    requires IsRun(trace, events) && i < |trace| && Select(trace[i].table, k).Some?
    requires Select(trace[i].table, k).value.state in {Pending, Submitted}
    ensures j < i && j < |events| && events[j].p in trace[j].procs
    ensures var pc, step := trace[j].procs[events[j].p], events[j].step;
            if Select(trace[i].table, k).value.state == Submitted then pc.Beginning? && pc.k == k && step.Begin?
            else pc.Drafting? && k in pc.keys && step.Materialize?
  {
    j := JustifyingEvent(trace, events, i, k);
    RunStep(trace, events, j);
  }

  // ---- What was seen is recorded ----

  /** Event `m` is the next of the process that caused event `j`, and not its crash. */
  ghost predicate IsNextOwn(events: seq<Event>, j: nat, m: nat) {
    && j < m < |events| && events[m].p == events[j].p && events[m].step != Crash
    && forall t :: j < t < m ==> events[t].p != events[j].p
  }

  lemma {:induction false} ProcessWaits(trace: seq<State>, events: seq<Event>, j: nat, m: nat)
    requires IsRun(trace, events) && j < m < |trace|
    requires forall t :: j < t < m ==> events[t].p != events[j].p
    ensures events[j].p in trace[m].procs && trace[m].procs[events[j].p] == trace[j + 1].procs[events[j].p]
    decreases m
  {
    RunStep(trace, events, m - 1);
    if j + 1 < m {
      ProcessWaits(trace, events, j, m - 1);
    }
  }

  /** The row of `k` after recording: the state, and the number and id where they fit their columns. */
  ghost predicate IsRecorded(t: Table, k: Key, state: LedgerState, number: Option<nat>, id: Option<nat>) {
    && Select(t, k).Some?
    && var row := Select(t, k).value;
       && row.state == state
       && (number.Some? && number.value <= I64_MAX ==> row.number == number)
       && (id.Some? && id.value <= I64_MAX ==> row.id == id)
  }

  /** A process that is about to record a created issue can only do so, or crash. */
  lemma CreatedIsRecorded(s: State, p: nat, step: Step, k: Key, found: Found, recovered: bool)
    requires p in s.procs && s.procs[p] == RecordingCreated(k, found, recovered) && Enabled(s, p, step) && step != Crash
    ensures step == Record && After(s, p, step).procs[p] == AfterCreated(k, found, recovered)
    ensures Select(s.table, k).Some? ==> IsRecorded(After(s, p, step).table, k, Created, Some(found.number), found.id)
  {
  }

  lemma LastIsRecorded(s: State, p: nat, step: Step, k: Key, number: Option<nat>, id: Option<nat>, state: LedgerState)
    requires p in s.procs && s.procs[p] == RecordingLast(k, number, id, state) && Enabled(s, p, step) && step != Crash
    ensures step == Record
    ensures Select(s.table, k).Some? ==> IsRecorded(After(s, p, step).table, k, state, number, id)
  {
  }

  /**
    After the tracker answered a link request, whatever other processes do in between, the process's next event
    records `linked` if the tracker confirmed the link and `created_unlinked` if not.
  */
  lemma LinkAnswerIsRecorded(trace: seq<State>, events: seq<Event>, j: nat, m: nat, k: Key, answer: Option<bool>)
    requires IsRun(trace, events) && IsNextOwn(events, j, m) && Select(trace[m].table, k).Some?
    requires events[j].step == CallLink(answer) && events[j].p in trace[j].procs && trace[j].procs[events[j].p].k == k
    ensures events[m].step == Record && Select(trace[m + 1].table, k).Some?
    ensures Select(trace[m + 1].table, k).value.state == if answer == Some(true) then Linked else CreatedUnlinked
    ensures answer == None ==> trace[j].procs[events[j].p].Linking? && !trace[j].procs[events[j].p].recovered
  {
    RunStep(trace, events, j);
    RunStep(trace, events, m);
    ProcessWaits(trace, events, j, m);
  }

  lemma HitIsFound(s: State, p: nat, visible: set<nat>, reported: bool, mismatch: bool, j: nat, number: nat, id: Option<nat>)
    requires Enabled(s, p, Search(visible, reported, mismatch)) && IsOnlyHit(s, s.procs[p].k, visible, j, number, id, reported)
    ensures AfterSearch(s, s.procs[p].k, visible, reported, mismatch)
         == if mismatch then RecordingLast(s.procs[p].k, Some(number), id, CreatedMetadataMismatch)
            else RecordingCreated(s.procs[p].k, Found(number, id), true)
  {
  }

  lemma ShownIsFound(trace: seq<State>, events: seq<Event>, j: nat, k: Key, number: nat, id: Option<nat>, mismatch: bool)
    requires IsRun(trace, events) && j < |events| && ShowsIssue(trace[j], events[j], k, number, id, mismatch)
    ensures trace[j + 1].procs[events[j].p]
         == if mismatch then RecordingLast(k, Some(number), id, CreatedMetadataMismatch)
            else RecordingCreated(k, Found(number, id), events[j].step.Search?)
  {
    var s, p := trace[j], events[j].p;
    RunStep(trace, events, j);
    match events[j].step
    case CallCreate(o) => CreateShows(s, p, o.number, o.id, o.idReported, o.mismatch);
    case Search(visible, reported, m) =>
      var h :| IsOnlyHit(s, k, visible, h, number, id, reported);
      HitIsFound(s, p, visible, reported, m, h, number, id);
  }

  /** The issue a tracker call showed is recorded by the process's next event, with the number and the id it showed. */
  lemma ShownIssueIsRecorded(trace: seq<State>, events: seq<Event>, j: nat, m: nat, k: Key, number: nat, id: Option<nat>,
                             mismatch: bool)
    requires IsRun(trace, events) && IsNextOwn(events, j, m) && Select(trace[m].table, k).Some?
    requires ShowsIssue(trace[j], events[j], k, number, id, mismatch)
    ensures events[m].step == Record
    ensures IsRecorded(trace[m + 1].table, k, if mismatch then CreatedMetadataMismatch else Created, Some(number), id)
  {
    var s, p, step := trace[m], events[m].p, events[m].step;
    ShownIsFound(trace, events, j, k, number, id, mismatch);
    RunStep(trace, events, m);
    ProcessWaits(trace, events, j, m);
    if mismatch {
      LastIsRecorded(s, p, step, k, Some(number), id, CreatedMetadataMismatch);
    } else {
      CreatedIsRecorded(s, p, step, k, Found(number, id), events[j].step.Search?);
    }
  }

  /**
    What follows an issue seen with the right metadata: without a parent it is recorded as linked; with one the
    tracker is asked to link it, which needs the issue's id.
  */
  lemma WayAfterCreation(trace: seq<State>, events: seq<Event>, j: nat, m: nat, n: nat, k: Key, number: nat, id: Option<nat>)
    requires IsRun(trace, events) && IsNextOwn(events, j, m) && IsNextOwn(events, m, n)
    requires ShowsIssue(trace[j], events[j], k, number, id, false)
    ensures k.parent.None? ==>
              events[n].step == Record
              && (Select(trace[n].table, k).Some? ==> IsRecorded(trace[n + 1].table, k, Linked, Some(number), id))
    ensures k.parent.Some? ==>
              events[n].step.CallLink? && id.Some? && events[n].p in trace[n].procs
              && trace[n].procs[events[n].p] == Linking(k, Found(number, id), events[j].step.Search?)
  {
    var p, found, recovered := events[j].p, Found(number, id), events[j].step.Search?;
    ShownIsFound(trace, events, j, k, number, id, false);
    RunStep(trace, events, m);
    ProcessWaits(trace, events, j, m);
    CreatedIsRecorded(trace[m], p, events[m].step, k, found, recovered);
    RunStep(trace, events, n);
    ProcessWaits(trace, events, m, n);
    assert trace[n].procs[p] == AfterCreated(k, found, recovered);
    if k.parent.None? {
      LastIsRecorded(trace[n], p, events[n].step, k, Some(number), id, Linked);
    }
  }
}
