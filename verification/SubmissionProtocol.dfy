/**
  Any number of `issue submit`, `issue submit --resume` and `issue draft` processes that share one ledger
  database and one issue tracker, each of which may crash between any two of its effects.

  The planner's answers are nondeterministic: a step carries the decision it takes.  Only `Link` is tied to
  the ledger, because the planner takes the issue id it offers from the row it was given.  A tracker call
  may fail after it took effect.  A marker search reads issue bodies, which hold the drafted text as well as the
  marker; it may miss issues the search index does not hold yet and return others of the repository.
*/
module SubmissionProtocol {
  import opened IssueLedger
  import opened IssueMarkers
  import opened Text
  import opened Wrappers

  /** A tracker issue; `origin` is what it was created for, which determines its body. */
  datatype Issue = Issue(origin: Proposal, number: nat, id: nat)

  /** What a tracker response tells the client; the numeric id can be missing from it. */
  datatype Found = Found(number: nat, id: Option<nat>)

  /** Where a process stands: the effect it is about to perform. */
  datatype Pc =
    | Planning(k: Key, body: string)
    | Beginning(k: Key, body: string)
    | Creating(k: Key, body: string)
    | Recovering(k: Key)
    | RecordingCreated(k: Key, found: Found, recovered: bool)
    | Linking(k: Key, found: Found, recovered: bool)
    | LinkOnly(k: Key, childId: nat)
    | RecordingLast(k: Key, number: Option<nat>, id: Option<nat>, state: LedgerState)
    | Drafting(keys: seq<Key>)
    | Done

  datatype SubmitDecision = Create | RecoverSubmitted | Link(id: nat) | Stop

  datatype CreateOutcome =
    | NotCreated
    | CreatedUnseen(number: nat, id: nat)
    | CreatedSeen(number: nat, id: nat, idReported: bool, mismatch: bool)

  datatype Step =
    | Spawn(pc: Pc)
    | Crash
    | Plan(decision: SubmitDecision)
    | Begin(begin: BeginDecision)
    | CallCreate(outcome: CreateOutcome)
    | Search(visible: set<nat>, idReported: bool, mismatch: bool)
    | Record
    | CallLink(linked: Option<bool>)
    | Materialize

  datatype State = State(table: Table, issues: seq<Issue>, createCalls: seq<Key>, procs: map<nat, Pc>)

  const INIT := State(map[], [], [], map[])

  /** Indices of the issues whose body carries the marker of `k`: recovery's candidates. */
  function Matches(issues: seq<Issue>, k: Key): set<nat> {
    set j: nat | j < |issues| && issues[j].origin.k.repo == k.repo && IsCandidate(issues[j].origin, k)
  }

  /** The search covers the key's repository. */
  predicate IsSearchResult(issues: seq<Issue>, k: Key, visible: set<nat>) {
    forall j :: j in visible ==> j < |issues| && issues[j].origin.k.repo == k.repo
  }

  predicate MayOfferLink(t: Table, k: Key, id: nat) {
    Select(t, k).Some? && Select(t, k).value.id == Some(id)
  }

  /** The steps open to process `p`. */
  predicate Enabled(s: State, p: nat, step: Step) {
    && (step.Spawn? <==> p !in s.procs)
    && match step
      case Spawn(pc) => pc.Planning? || pc.Drafting?
      case Crash => true
      case Plan(d) => s.procs[p].Planning? && (d.Link? ==> MayOfferLink(s.table, s.procs[p].k, d.id))
      case Begin(_) => s.procs[p].Beginning?
      case CallCreate(_) => s.procs[p].Creating?
      case Search(visible, _, _) => s.procs[p].Recovering? && IsSearchResult(s.issues, s.procs[p].k, visible)
      case Record => s.procs[p].RecordingCreated? || s.procs[p].RecordingLast?
      case CallLink(_) => s.procs[p].Linking? || s.procs[p].LinkOnly?
      case Materialize => s.procs[p].Drafting?
  }

  function AfterFound(k: Key, found: Found, mismatch: bool, recovered: bool): Pc {
    if mismatch then RecordingLast(k, Some(found.number), found.id, CreatedMetadataMismatch)
    else RecordingCreated(k, found, recovered)
  }

  function AfterCreated(k: Key, found: Found, recovered: bool): Pc {
    if k.parent.None? then RecordingLast(k, Some(found.number), found.id, Linked)
    else if found.id.None? then Done
    else Linking(k, found, recovered)
  }

  function LinkState(linked: bool): LedgerState {
    if linked then Linked else CreatedUnlinked
  }

  /** None stands for a failed link call, which only a first submission records. */
  function AfterLink(pc: Pc, linked: Option<bool>): Pc
    requires pc.Linking? || pc.LinkOnly?
  {
    match linked
    case Some(l) =>
      if pc.Linking? then RecordingLast(pc.k, Some(pc.found.number), pc.found.id, LinkState(l))
      else RecordingLast(pc.k, None, Some(pc.childId), LinkState(l))
    case None =>
      if pc.Linking? && !pc.recovered then RecordingLast(pc.k, Some(pc.found.number), pc.found.id, CreatedUnlinked)
      else Done
  }

  /** `recover_created_issue_by_marker`: zero or several hits, and one without the exact marker, end the process. */
  ghost function AfterSearch(s: State, k: Key, visible: set<nat>, idReported: bool, mismatch: bool): Pc
    requires IsSearchResult(s.issues, k, visible)
  {
    if |visible| == 1 then
      var j :| j in visible;
      if IsCandidate(s.issues[j].origin, k) then AfterFound(k, Seen(s.issues[j], idReported), mismatch, true) else Done
    else Done
  }

  function Seen(issue: Issue, idReported: bool): Found {
    Found(issue.number, if idReported then Some(issue.id) else None)
  }

  function ProposalOf(pc: Pc): Proposal
    requires pc.Creating?
  {
    Proposal(pc.k, pc.body)
  }

  ghost function After(s: State, p: nat, step: Step): State
    requires Enabled(s, p, step)
  {
    match step
    case Spawn(pc) => s.(procs := s.procs[p := pc])
    case Crash => s.(procs := s.procs[p := Done])
    case Plan(d) =>
      var k := s.procs[p].k;
      var next := match d
        case Create => Beginning(k, s.procs[p].body)
        case RecoverSubmitted => Recovering(k)
        case Link(id) => LinkOnly(k, id)
        case Stop => Done;
      s.(procs := s.procs[p := next])
    case Begin(d) =>
      var k := s.procs[p].k;
      (match BeginWrite(s.table, k, d)
       case None => s.(procs := s.procs[p := Done])
       case Some(table) => s.(table := table, procs := s.procs[p := Creating(k, s.procs[p].body)]))
    case CallCreate(o) =>
      var k := s.procs[p].k;
      var called := s.(createCalls := s.createCalls + [k]);
      (match o
       case NotCreated => called.(procs := s.procs[p := Done])
       case CreatedUnseen(number, id) =>
         called.(issues := s.issues + [Issue(ProposalOf(s.procs[p]), number, id)], procs := s.procs[p := Done])
       case CreatedSeen(number, id, idReported, mismatch) =>
         var issue := Issue(ProposalOf(s.procs[p]), number, id);
         called.(issues := s.issues + [issue],
                 procs := s.procs[p := AfterFound(k, Seen(issue, idReported), mismatch, false)]))
    case Search(visible, idReported, mismatch) =>
      s.(procs := s.procs[p := AfterSearch(s, s.procs[p].k, visible, idReported, mismatch)])
    case Record =>
      (match s.procs[p]
       case RecordingCreated(k, found, recovered) =>
         s.(table := RecordState(s.table, k, Created, Some(found.number), found.id),
            procs := s.procs[p := AfterCreated(k, found, recovered)])
       case RecordingLast(k, number, id, state) =>
         s.(table := RecordState(s.table, k, state, number, id), procs := s.procs[p := Done]))
    case CallLink(linked) => s.(procs := s.procs[p := AfterLink(s.procs[p], linked)])
    case Materialize =>
      s.(table := MaterializeAll(s.table, s.procs[p].keys), procs := s.procs[p := Done])
  }

  datatype Event = Event(p: nat, step: Step)

  /** `trace` is a run of the system under `events`, started on an empty ledger and an empty tracker. */
  ghost predicate IsRun(trace: seq<State>, events: seq<Event>) {
    |trace| == |events| + 1 && trace[0] == INIT
    && forall i :: 0 <= i < |events| ==>
         Enabled(trace[i], events[i].p, events[i].step)
         && trace[i + 1] == After(trace[i], events[i].p, events[i].step)
  }

  // ---- At most one create call per key ----

  /** The row of `k` exists and has left `pending`. */
  ghost predicate HasBegun(t: Table, k: Key) {
    Select(t, k).Some? && Select(t, k).value.state != Pending
  }

  predicate PastSubmitted(state: LedgerState) {
    state != Pending && state != Submitted
  }

  /** No statement of the program writes `failed`. */
  ghost predicate NeverFailed(t: Table) {
    forall pk :: pk in t ==> t[pk].state != Failed
  }

  predicate Recordable(state: LedgerState) {
    PastSubmitted(state) && state != Failed
  }

  predicate AreBothCreating(pc: Pc, pc': Pc) {
    pc.Creating? && pc'.Creating? && pc.k == pc'.k
  }

  /** The submission guard: holding the right to create `k` and having created it exclude each other. */
  ghost predicate Guarded(s: State) {
    && (forall k :: k in s.createCalls ==> HasBegun(s.table, k))
    && (forall i, j :: 0 <= i < j < |s.createCalls| ==> s.createCalls[i] != s.createCalls[j])
    && (forall p :: p in s.procs && s.procs[p].Creating? ==>
          HasBegun(s.table, s.procs[p].k) && s.procs[p].k !in s.createCalls)
    && (forall p, q :: p in s.procs && q in s.procs && AreBothCreating(s.procs[p], s.procs[q]) ==> p == q)
    && NeverFailed(s.table)
    && (forall p :: p in s.procs && s.procs[p].RecordingLast? ==> Recordable(s.procs[p].state))
  }

  /** Every table write keeps each row, its parent key and the fact that it has left `pending`. */
  lemma WritesAdvance(s: State, p: nat, step: Step)
    requires Guarded(s) && Enabled(s, p, step)
    ensures Advances(s.table, After(s, p, step).table) && NeverFailed(After(s, p, step).table)
  {
    if step.Materialize? {
      MaterializeOnlyAddsPending(s.table, s.procs[p].keys);
    }
  }

  lemma BeginStepIsExclusive(s: State, p: nat, d: BeginDecision)
    requires Guarded(s) && Enabled(s, p, Begin(d)) && BeginWrite(s.table, s.procs[p].k, d).Some?
    ensures var k := s.procs[p].k;
            k !in s.createCalls && forall q :: q in s.procs && s.procs[q].Creating? ==> s.procs[q].k != k
  {
    BeginIsGuarded(s.table, s.procs[p].k, d);
  }

  /** A step that neither begins nor creates: process `p` moves to `pc` and the table advances. */
  lemma QuietStepIsGuarded(s: State, s': State, p: nat, pc: Pc)
    requires Guarded(s) && Advances(s.table, s'.table) && NeverFailed(s'.table)
    requires s'.createCalls == s.createCalls && s'.procs == s.procs[p := pc]
    requires !pc.Creating? && (pc.RecordingLast? ==> Recordable(pc.state))
    ensures Guarded(s')
  {
    assert forall k :: HasBegun(s.table, k) ==> HasBegun(s'.table, k);
  }

  lemma BeginStepIsGuarded(s: State, p: nat, d: BeginDecision)
    requires Guarded(s) && Enabled(s, p, Begin(d)) && BeginWrite(s.table, s.procs[p].k, d).Some?
    ensures Guarded(After(s, p, Begin(d)))
  {
    var s' := After(s, p, Begin(d));
    BeginIsGuarded(s.table, s.procs[p].k, d);
    assert forall k :: HasBegun(s.table, k) ==> HasBegun(s'.table, k);
    BeginStepIsExclusive(s, p, d);
  }

  lemma CreateStepIsGuarded(s: State, p: nat, o: CreateOutcome)
    requires Guarded(s) && Enabled(s, p, CallCreate(o))
    ensures Guarded(After(s, p, CallCreate(o)))
  {
    var s' := After(s, p, CallCreate(o));
    var k := s.procs[p].k;
    assert s'.createCalls == s.createCalls + [k] && s'.table == s.table;
    assert !s'.procs[p].Creating? && (s'.procs[p].RecordingLast? ==> Recordable(s'.procs[p].state));
    forall q | q in s'.procs && s'.procs[q].Creating?
      ensures HasBegun(s'.table, s'.procs[q].k) && s'.procs[q].k !in s'.createCalls
    {
      assert s.procs[q].Creating? && q != p;
    }
  }

  lemma GuardedIsKept(s: State, p: nat, step: Step)
    requires Guarded(s) && Enabled(s, p, step)
    ensures Guarded(After(s, p, step))
  {
    WritesAdvance(s, p, step);
    var s' := After(s, p, step);
    match step
    case CallCreate(o) => CreateStepIsGuarded(s, p, o);
    case Begin(d) =>
      if BeginWrite(s.table, s.procs[p].k, d).Some? {
        BeginStepIsGuarded(s, p, d);
      } else {
        QuietStepIsGuarded(s, s', p, Done);
      }
    case _ => QuietStepIsGuarded(s, s', p, s'.procs[p]);
  }

  lemma {:induction false} RunIsGuarded(trace: seq<State>, events: seq<Event>, i: nat)
    requires IsRun(trace, events) && i < |trace|
    ensures Guarded(trace[i])
  {
    if i > 0 {
      RunIsGuarded(trace, events, i - 1);
      GuardedIsKept(trace[i - 1], events[i - 1].p, events[i - 1].step);
    }
  }

  /**
    Over every interleaving, with every crash and whatever the planners answer, `create_issue` is called at
    most once for each ledger key.
  */
  lemma CreateIsCalledAtMostOnce(trace: seq<State>, events: seq<Event>, i: nat, k: Key)
    requires IsRun(trace, events) && i < |trace|
    ensures multiset(trace[i].createCalls)[k] <= 1
  {
    RunIsGuarded(trace, events, i);
    DistinctMeansOnce(trace[i].createCalls, k);
  }

  /**
    The guards hold for the primary key too: keys that share one, such as an absent parent, parent 0 and a parent
    beyond the column's range, get one create call between them.
  */
  lemma OneCreatePerPrimaryKey(trace: seq<State>, events: seq<Event>, i: nat, m: nat, n: nat)
    requires IsRun(trace, events) && i < |trace| && m < n < |trace[i].createCalls|
    ensures PrimaryKeyOf(trace[i].createCalls[m]) != PrimaryKeyOf(trace[i].createCalls[n])
  {
    RunIsGuarded(trace, events, i);
    var k, k' := trace[i].createCalls[m], trace[i].createCalls[n];
    assert HasBegun(trace[i].table, k) && HasBegun(trace[i].table, k');
    if PrimaryKeyOf(k) == PrimaryKeyOf(k') {
      BegunUnderOnePrimaryKey(trace[i].table, k, k');
    }
  }

  lemma {:induction false} DistinctMeansOnce(s: seq<Key>, k: Key)
    requires forall i, j :: 0 <= i < j < |s| ==> s[i] != s[j]
    ensures multiset(s)[k] <= 1
  {
    if s != [] {
      var init, last := s[..|s| - 1], s[|s| - 1];
      assert s == init + [last];
      DistinctMeansOnce(init, k);
      if k == last {
        assert k !in init;
      }
    }
  }

  // ---- One tracker issue per key, and ledger rows that name it ----

  /**
    No marker shows in the issue of another proposal of the repository, be it that the two markers are equal or that
    the other's draft quotes it.  (Keys that differ only in a parent column value share a primary key, so at most one
    of them is ever begun.)
  */
  ghost predicate MarkersTellApart(work: set<Proposal>) {
    forall p, q :: p in work && q in work && p.k.repo == q.k.repo && ShowsMarker(q, p.k)
      ==> PrimaryKeyOf(p.k) == PrimaryKeyOf(q.k)
  }

  ghost predicate IsKeyIn(k: Key, work: set<Proposal>) {
    exists p :: p in work && p.k == k
  }

  /** Every submission of the run works on a proposal from `work`. */
  ghost predicate RunsOver(events: seq<Event>, work: set<Proposal>) {
    forall i :: 0 <= i < |events| && events[i].step.Spawn? ==> PcOver(events[i].step.pc, work)
  }

  ghost predicate Carries(issue: Issue, number: Option<nat>, id: Option<nat>) {
    (number.Some? ==> number.value == issue.number) && (id.Some? ==> id.value == issue.id)
  }

  /** Some issue has the identity a process is about to record under `k`. */
  ghost predicate Witnessed(issues: seq<Issue>, k: Key, number: Option<nat>, id: Option<nat>) {
    exists j :: 0 <= j < |issues| && PrimaryKeyOf(issues[j].origin.k) == PrimaryKeyOf(k) && Carries(issues[j], number, id)
  }

  ghost predicate PcTracked(issues: seq<Issue>, pc: Pc) {
    match pc
    case RecordingCreated(k, found, _) => Witnessed(issues, k, Some(found.number), found.id)
    case Linking(k, found, _) => Witnessed(issues, k, Some(found.number), found.id)
    case LinkOnly(k, id) => Witnessed(issues, k, None, Some(id))
    case RecordingLast(k, number, id, _) => Witnessed(issues, k, number, id)
    case _ => true
  }

  ghost predicate PcOver(pc: Pc, work: set<Proposal>) {
    match pc
    case Planning(k, body) => Proposal(k, body) in work
    case Beginning(k, body) => Proposal(k, body) in work
    case Creating(k, body) => Proposal(k, body) in work
    case Drafting(_) => true
    case Done => true
    case _ => IsKeyIn(pc.k, work)
  }

  /** A row that has left `submitted`, or that names an issue, names the issue created for its own key. */
  ghost predicate RowTracked(issues: seq<Issue>, k: Key, row: Row) {
    PastSubmitted(row.state) || row.number.Some? || row.id.Some? ==>
      exists j :: 0 <= j < |issues| && issues[j].origin.k == k && Carries(issues[j], row.number, row.id)
  }

  ghost predicate Tracked(s: State, work: set<Proposal>) {
    && (forall j :: 0 <= j < |s.issues| ==> s.issues[j].origin.k in s.createCalls && s.issues[j].origin in work)
    && (forall i, j :: 0 <= i < j < |s.issues| ==> s.issues[i].origin.k != s.issues[j].origin.k)
    && (forall k :: Select(s.table, k).Some? ==> RowTracked(s.issues, k, Select(s.table, k).value))
    && (forall p :: p in s.procs ==> PcTracked(s.issues, s.procs[p]) && PcOver(s.procs[p], work))
  }

  /** Two begun work under one primary key are one key: the row remembers its own parent text. */
  lemma BegunUnderOnePrimaryKey(t: Table, k: Key, k': Key)
    requires Select(t, k).Some? && Select(t, k').Some? && PrimaryKeyOf(k) == PrimaryKeyOf(k')
    ensures k == k'
  {
  }

  lemma MatchSharesPrimaryKey(s: State, work: set<Proposal>, k: Key, j: nat)
    requires Tracked(s, work) && MarkersTellApart(work) && IsKeyIn(k, work) && j in Matches(s.issues, k)
    ensures PrimaryKeyOf(s.issues[j].origin.k) == PrimaryKeyOf(k)
  {
    CandidateIff(s.issues[j].origin, k);
    var p :| p in work && p.k == k;
    assert s.issues[j].origin in work && ShowsMarker(s.issues[j].origin, p.k);
  }

  lemma MatchesAgree(s: State, work: set<Proposal>, k: Key, i: nat, j: nat)
    requires Guarded(s) && Tracked(s, work) && MarkersTellApart(work) && IsKeyIn(k, work)
    requires i in Matches(s.issues, k) && j in Matches(s.issues, k)
    ensures i == j
  {
    MatchSharesPrimaryKey(s, work, k, i);
    MatchSharesPrimaryKey(s, work, k, j);
    assert s.issues[i].origin.k in s.createCalls && s.issues[j].origin.k in s.createCalls;
    BegunUnderOnePrimaryKey(s.table, s.issues[i].origin.k, s.issues[j].origin.k);
  }

  lemma AtMostOne(m: set<nat>)
    requires forall i, j :: i in m && j in m ==> i == j
    ensures |m| <= 1
  {
    if i :| i in m {
      assert m == {i};
    }
  }

  /**
    At most one issue has the exact marker in its body.  (Recovery counts what the search reports, which may include
    other issues; several exact matches never are the reason why it stops.)
  */
  lemma AtMostOneMatch(s: State, work: set<Proposal>, k: Key)
    requires Guarded(s) && Tracked(s, work) && MarkersTellApart(work) && IsKeyIn(k, work)
    ensures |Matches(s.issues, k)| <= 1
  {
    var m := Matches(s.issues, k);
    forall i, j | i in m && j in m
      ensures i == j
    {
      MatchesAgree(s, work, k, i, j);
    }
    AtMostOne(m);
  }

  lemma WitnessSurvives(issues: seq<Issue>, more: seq<Issue>, k: Key, number: Option<nat>, id: Option<nat>)
    requires Witnessed(issues, k, number, id) && issues <= more
    ensures Witnessed(more, k, number, id)
  {
    var j :| 0 <= j < |issues| && PrimaryKeyOf(issues[j].origin.k) == PrimaryKeyOf(k) && Carries(issues[j], number, id);
    assert more[j] == issues[j];
  }

  lemma RowTrackedSurvives(issues: seq<Issue>, more: seq<Issue>, k: Key, row: Row)
    requires RowTracked(issues, k, row) && issues <= more
    ensures RowTracked(more, k, row)
  {
    if PastSubmitted(row.state) || row.number.Some? || row.id.Some? {
      var j :| 0 <= j < |issues| && issues[j].origin.k == k && Carries(issues[j], row.number, row.id);
      assert more[j] == issues[j];
    }
  }

  /** The issue a recording process knows was created for the very row it updates. */
  lemma WitnessIsOwnIssue(s: State, work: set<Proposal>, k: Key, number: Option<nat>, id: Option<nat>) returns (j: nat)
    requires Guarded(s) && Tracked(s, work) && Witnessed(s.issues, k, number, id) && Select(s.table, k).Some?
    ensures j < |s.issues| && s.issues[j].origin.k == k && Carries(s.issues[j], number, id)
    ensures Carries(s.issues[j], Select(s.table, k).value.number, Select(s.table, k).value.id)
  {
    j :| 0 <= j < |s.issues| && PrimaryKeyOf(s.issues[j].origin.k) == PrimaryKeyOf(k) && Carries(s.issues[j], number, id);
    assert s.issues[j].origin.k in s.createCalls;
    BegunUnderOnePrimaryKey(s.table, s.issues[j].origin.k, k);
    var row := Select(s.table, k).value;
    assert RowTracked(s.issues, k, row);
    if row.number.Some? || row.id.Some? {
      var i :| 0 <= i < |s.issues| && s.issues[i].origin.k == k && Carries(s.issues[i], row.number, row.id);
      assert i == j;
    }
  }

  lemma CoalescedStillCarried(issue: Issue, number: Option<nat>, id: Option<nat>, row: Row)
    requires Carries(issue, number, id) && Carries(issue, row.number, row.id)
    ensures Carries(issue, Coalesce(ToI64(number), row.number), Coalesce(ToI64(id), row.id))
    ensures row.id.Some? ==> Coalesce(ToI64(id), row.id) == row.id
    ensures row.number.Some? ==> Coalesce(ToI64(number), row.number) == row.number
  {
  }

  lemma RecordedRowIsTracked(s: State, work: set<Proposal>, k: Key, state: LedgerState, number: Option<nat>, id: Option<nat>)
    requires Guarded(s) && Tracked(s, work) && Witnessed(s.issues, k, number, id) && Select(s.table, k).Some?
    ensures var row, row' := Select(s.table, k).value, Select(RecordState(s.table, k, state, number, id), k);
            row'.Some? && RowTracked(s.issues, k, row'.value)
            && (row.id.Some? ==> row'.value.id == row.id) && (row.number.Some? ==> row'.value.number == row.number)
  {
    var j := WitnessIsOwnIssue(s, work, k, number, id);
    CoalescedStillCarried(s.issues[j], number, id, Select(s.table, k).value);
  }

  lemma BegunRowIsTracked(issues: seq<Issue>, t: Table, k: Key, d: BeginDecision, other: Key)
    requires BeginWrite(t, k, d).Some?
    requires Select(t, other).Some? ==> RowTracked(issues, other, Select(t, other).value)
    ensures var t' := BeginWrite(t, k, d).value;
            Select(t', other).Some? ==> RowTracked(issues, other, Select(t', other).value)
  {
    var t' := BeginWrite(t, k, d).value;
    if Select(t', other).Some? && Select(t, other).Some? {
      var row, row' := Select(t, other).value, Select(t', other).value;
      assert row'.number == row.number && row'.id == row.id;
      if row.number.Some? || row.id.Some? || PastSubmitted(row'.state) {
        var j :| 0 <= j < |issues| && issues[j].origin.k == other && Carries(issues[j], row.number, row.id);
        assert Carries(issues[j], row'.number, row'.id);
      }
    }
  }

  /** Only `Record` changes what a stored row names, and rows are never dropped. */
  lemma RowsAreTracked(s: State, p: nat, step: Step, work: set<Proposal>, k: Key)
    requires Guarded(s) && Tracked(s, work) && Enabled(s, p, step)
    ensures var s' := After(s, p, step);
            Select(s'.table, k).Some? ==> RowTracked(s'.issues, k, Select(s'.table, k).value)
  {
    var s' := After(s, p, step);
    if Select(s'.table, k).Some? {
      match step
      case Record =>
        var pc := s.procs[p];
        if pc.k == k && Select(s.table, k).Some? {
          if pc.RecordingCreated? {
            RecordedRowIsTracked(s, work, k, Created, Some(pc.found.number), pc.found.id);
          } else {
            RecordedRowIsTracked(s, work, k, pc.state, pc.number, pc.id);
          }
        } else {
          assert Select(s.table, k) == Select(s'.table, k);
        }
      case Materialize =>
        MaterializeOnlyAddsPending(s.table, s.procs[p].keys);
        assert PrimaryKeyOf(k) in s.table ==> Select(s.table, k) == Select(s'.table, k);
      case Begin(d) =>
        if BeginWrite(s.table, s.procs[p].k, d).Some? {
          BegunRowIsTracked(s.issues, s.table, s.procs[p].k, d, k);
        }
      case CallCreate(_) =>
        RowTrackedSurvives(s.issues, s'.issues, k, Select(s.table, k).value);
      case _ =>
    }
  }

  lemma OfferedLinkIsTracked(s: State, work: set<Proposal>, k: Key, id: nat)
    requires Tracked(s, work) && MayOfferLink(s.table, k, id)
    ensures Witnessed(s.issues, k, None, Some(id))
  {
    var row := Select(s.table, k).value;
    assert RowTracked(s.issues, k, row);
    var j :| 0 <= j < |s.issues| && s.issues[j].origin.k == k && Carries(s.issues[j], row.number, row.id);
    assert Carries(s.issues[j], None, Some(id));
  }

  lemma SeenIssueIsWitness(issues: seq<Issue>, k: Key, j: nat, idReported: bool)
    requires j < |issues| && PrimaryKeyOf(issues[j].origin.k) == PrimaryKeyOf(k)
    ensures var found := Seen(issues[j], idReported); Witnessed(issues, k, Some(found.number), found.id)
  {
    var found := Seen(issues[j], idReported);
    assert Carries(issues[j], Some(found.number), found.id);
  }

  lemma CreatedPcIsTracked(s: State, p: nat, o: CreateOutcome, work: set<Proposal>)
    requires Tracked(s, work) && Enabled(s, p, CallCreate(o))
    ensures var s' := After(s, p, CallCreate(o)); PcTracked(s'.issues, s'.procs[p]) && PcOver(s'.procs[p], work)
  {
    var s', k := After(s, p, CallCreate(o)), s.procs[p].k;
    assert PcOver(s.procs[p], work);
    if o.CreatedSeen? {
      assert s'.issues[|s.issues|] == Issue(ProposalOf(s.procs[p]), o.number, o.id);
      SeenIssueIsWitness(s'.issues, k, |s.issues|, o.idReported);
    }
  }

  lemma FoundPcIsTracked(s: State, p: nat, visible: set<nat>, idReported: bool, mismatch: bool, work: set<Proposal>)
    requires Tracked(s, work) && MarkersTellApart(work) && Enabled(s, p, Search(visible, idReported, mismatch))
    ensures var pc := AfterSearch(s, s.procs[p].k, visible, idReported, mismatch);
            PcTracked(s.issues, pc) && PcOver(pc, work)
  {
    var k := s.procs[p].k;
    assert PcOver(s.procs[p], work);
    forall j | j in visible && IsCandidate(s.issues[j].origin, k)
      ensures var found := Seen(s.issues[j], idReported); Witnessed(s.issues, k, Some(found.number), found.id)
    {
      MatchSharesPrimaryKey(s, work, k, j);
      SeenIssueIsWitness(s.issues, k, j, idReported);
    }
  }

  lemma RecordedPcIsTracked(s: State, p: nat, work: set<Proposal>)
    requires Enabled(s, p, Record) && PcTracked(s.issues, s.procs[p]) && PcOver(s.procs[p], work)
    ensures var pc := After(s, p, Record).procs[p]; PcTracked(s.issues, pc) && PcOver(pc, work)
  {
  }

  lemma LinkedPcIsTracked(issues: seq<Issue>, pc: Pc, linked: Option<bool>, work: set<Proposal>)
    requires (pc.Linking? || pc.LinkOnly?) && PcTracked(issues, pc) && PcOver(pc, work)
    ensures PcTracked(issues, AfterLink(pc, linked)) && PcOver(AfterLink(pc, linked), work)
  {
  }

  /** The pc a step leaves behind knows only issues that exist. */
  lemma NewPcIsTracked(s: State, p: nat, step: Step, work: set<Proposal>)
    requires Tracked(s, work) && MarkersTellApart(work) && Enabled(s, p, step)
    requires step.Spawn? ==> PcOver(step.pc, work)
    ensures var s' := After(s, p, step); PcTracked(s'.issues, s'.procs[p]) && PcOver(s'.procs[p], work)
  {
    assert !step.Spawn? ==> PcTracked(s.issues, s.procs[p]) && PcOver(s.procs[p], work);
    match step
    case Plan(d) =>
      if d.Link? {
        OfferedLinkIsTracked(s, work, s.procs[p].k, d.id);
      }
    case CallCreate(o) => CreatedPcIsTracked(s, p, o, work);
    case Record => RecordedPcIsTracked(s, p, work);
    case CallLink(linked) => LinkedPcIsTracked(s.issues, s.procs[p], linked, work);
    case Search(visible, idReported, mismatch) => FoundPcIsTracked(s, p, visible, idReported, mismatch, work);
    case _ =>
  }

  lemma PcTrackedSurvives(issues: seq<Issue>, more: seq<Issue>, pc: Pc)
    requires PcTracked(issues, pc) && issues <= more
    ensures PcTracked(more, pc)
  {
    match pc
    case RecordingCreated(k, found, _) => WitnessSurvives(issues, more, k, Some(found.number), found.id);
    case Linking(k, found, _) => WitnessSurvives(issues, more, k, Some(found.number), found.id);
    case LinkOnly(k, id) => WitnessSurvives(issues, more, k, None, Some(id));
    case RecordingLast(k, number, id, _) => WitnessSurvives(issues, more, k, number, id);
    case _ =>
  }

  lemma IssuesAreTracked(s: State, p: nat, step: Step, work: set<Proposal>)
    requires Guarded(s) && Tracked(s, work) && Enabled(s, p, step)
    ensures var s' := After(s, p, step);
            && s.issues <= s'.issues
            && (forall j :: 0 <= j < |s'.issues| ==> s'.issues[j].origin.k in s'.createCalls && s'.issues[j].origin in work)
            && (forall i, j :: 0 <= i < j < |s'.issues| ==> s'.issues[i].origin.k != s'.issues[j].origin.k)
  {
    var s' := After(s, p, step);
    if step.CallCreate? {
      var k := s.procs[p].k;
      assert k !in s.createCalls && PcOver(s.procs[p], work);
      assert s'.createCalls == s.createCalls + [k];
      assert forall j :: 0 <= j < |s'.issues| ==> s'.issues[j].origin == if j < |s.issues| then s.issues[j].origin else ProposalOf(s.procs[p]);
    } else {
      assert s'.issues == s.issues && s'.createCalls == s.createCalls;
    }
  }

  lemma PcsAreTracked(s: State, p: nat, step: Step, work: set<Proposal>)
    requires Tracked(s, work) && MarkersTellApart(work) && Enabled(s, p, step)
    requires step.Spawn? ==> PcOver(step.pc, work)
    requires s.issues <= After(s, p, step).issues
    ensures var s' := After(s, p, step);
            forall q :: q in s'.procs ==> PcTracked(s'.issues, s'.procs[q]) && PcOver(s'.procs[q], work)
  {
    var s' := After(s, p, step);
    NewPcIsTracked(s, p, step, work);
    forall q | q in s'.procs
      ensures PcTracked(s'.issues, s'.procs[q]) && PcOver(s'.procs[q], work)
    {
      if q != p {
        assert s'.procs[q] == s.procs[q];
        PcTrackedSurvives(s.issues, s'.issues, s.procs[q]);
      }
    }
  }

  lemma TrackedIsKept(s: State, p: nat, step: Step, work: set<Proposal>)
    requires Guarded(s) && Tracked(s, work) && MarkersTellApart(work) && Enabled(s, p, step)
    requires step.Spawn? ==> PcOver(step.pc, work)
    ensures Tracked(After(s, p, step), work)
  {
    var s' := After(s, p, step);
    IssuesAreTracked(s, p, step, work);
    PcsAreTracked(s, p, step, work);
    forall k | Select(s'.table, k).Some?
      ensures RowTracked(s'.issues, k, Select(s'.table, k).value)
    {
      RowsAreTracked(s, p, step, work, k);
    }
  }

  lemma {:induction false} RunIsTracked(trace: seq<State>, events: seq<Event>, work: set<Proposal>, i: nat)
    requires IsRun(trace, events) && RunsOver(events, work) && MarkersTellApart(work) && i < |trace|
    ensures Guarded(trace[i]) && Tracked(trace[i], work)
  {
    RunIsGuarded(trace, events, i);
    if i > 0 {
      RunIsTracked(trace, events, work, i - 1);
      TrackedIsKept(trace[i - 1], events[i - 1].p, events[i - 1].step, work);
    }
  }

  /**
    In every reachable state a marker search finds at most one issue for a key, and exactly one as soon as
    the key's row has left `submitted`; that issue was created for this key and is the one the row names.
  */
  lemma OneIssuePerKey(trace: seq<State>, events: seq<Event>, work: set<Proposal>, i: nat, k: Key)
    requires IsRun(trace, events) && RunsOver(events, work) && MarkersTellApart(work) && i < |trace| && IsKeyIn(k, work)
    ensures |Matches(trace[i].issues, k)| <= 1
    ensures Select(trace[i].table, k).Some? && PastSubmitted(Select(trace[i].table, k).value.state) ==>
              |Matches(trace[i].issues, k)| == 1
    ensures Select(trace[i].table, k).Some? ==>
              var row := Select(trace[i].table, k).value;
              forall j :: j in Matches(trace[i].issues, k) && (row.number.Some? || row.id.Some?) ==>
                trace[i].issues[j].origin.k == k && Carries(trace[i].issues[j], row.number, row.id)
  {
    var s := trace[i];
    RunIsTracked(trace, events, work, i);
    AtMostOneMatch(s, work, k);
    if Select(s.table, k).Some? {
      RowNamesTheMatch(s, work, k);
    }
  }

  /** The issue that a row past `submitted` names is the only candidate. */
  lemma RowNamesTheMatch(s: State, work: set<Proposal>, k: Key)
    requires Tracked(s, work) && Select(s.table, k).Some? && |Matches(s.issues, k)| <= 1
    ensures var row := Select(s.table, k).value;
            && (PastSubmitted(row.state) ==> |Matches(s.issues, k)| == 1)
            && forall j :: j in Matches(s.issues, k) && (row.number.Some? || row.id.Some?) ==>
                 s.issues[j].origin.k == k && Carries(s.issues[j], row.number, row.id)
  {
    var row := Select(s.table, k).value;
    assert RowTracked(s.issues, k, row);
    if PastSubmitted(row.state) || row.number.Some? || row.id.Some? {
      var j :| 0 <= j < |s.issues| && s.issues[j].origin.k == k && Carries(s.issues[j], row.number, row.id);
      CandidateIff(s.issues[j].origin, k);
      assert j in Matches(s.issues, k);
      OnlyMember(Matches(s.issues, k), j);
    }
  }

  lemma OnlyMember(m: set<nat>, j: nat)
    requires |m| <= 1 && j in m
    ensures m == {j}
  {
    assert |m - {j}| == |m| - 1;
    assert m == {j} + (m - {j});
  }

  /** A step never drops a row, never returns it to `pending`, and never clears or changes what it names. */
  lemma RecordedIdentityIsStable(s: State, p: nat, step: Step, work: set<Proposal>, k: Key)
    requires Guarded(s) && Tracked(s, work) && Enabled(s, p, step) && Select(s.table, k).Some?
    ensures var row, row' := Select(s.table, k).value, Select(After(s, p, step).table, k);
            && row'.Some?
            && (row'.value.state == Pending ==> row.state == Pending)
            && (row.id.Some? ==> row'.value.id == row.id)
            && (row.number.Some? ==> row'.value.number == row.number)
  {
    WritesAdvance(s, p, step);
    match step
    case Record =>
      var pc := s.procs[p];
      if pc.k == k {
        if pc.RecordingCreated? {
          RecordedRowIsTracked(s, work, k, Created, Some(pc.found.number), pc.found.id);
        } else {
          RecordedRowIsTracked(s, work, k, pc.state, pc.number, pc.id);
        }
      }
    case Materialize => MaterializeOnlyAddsPending(s.table, s.procs[p].keys);
    case _ =>
  }

  /** The same over any stretch of a run. */
  lemma {:induction false} RecordedIdentityNeverChanges(trace: seq<State>, events: seq<Event>, work: set<Proposal>,
                                                        i: nat, j: nat, k: Key)
    requires IsRun(trace, events) && RunsOver(events, work) && MarkersTellApart(work) && i <= j < |trace|
    requires Select(trace[i].table, k).Some?
    ensures var row, row' := Select(trace[i].table, k).value, Select(trace[j].table, k);
            && row'.Some?
            && (row'.value.state == Pending ==> row.state == Pending)
            && (row.id.Some? ==> row'.value.id == row.id)
            && (row.number.Some? ==> row'.value.number == row.number)
    decreases j
  {
    if i < j {
      RecordedIdentityNeverChanges(trace, events, work, i, j - 1, k);
      RunIsTracked(trace, events, work, j - 1);
      RecordedIdentityIsStable(trace[j - 1], events[j - 1].p, events[j - 1].step, work, k);
    }
  }

  // ---- The condition on markers is exact ----

  /** Some run over `work` reaches a state in which recovery would find several candidate issues. */
  ghost predicate SearchCanBeAmbiguous(work: set<Proposal>) {
    exists trace: seq<State>, events: seq<Event>, k: Key :: IsRun(trace, events) && RunsOver(events, work) && IsKeyIn(k, work)
      && |Matches(trace[|events|].issues, k)| > 1
  }

  /** One more step of a run. */
  lemma StepExtendsRun(trace: seq<State>, events: seq<Event>, work: set<Proposal>, p: nat, step: Step)
      returns (trace': seq<State>, events': seq<Event>)
    requires IsRun(trace, events) && RunsOver(events, work) && Enabled(trace[|events|], p, step)
    requires step.Spawn? ==> PcOver(step.pc, work)
    ensures IsRun(trace', events') && RunsOver(events', work) && events' == events + [Event(p, step)]
    ensures trace'[|events'|] == After(trace[|events|], p, step)
  {
    trace' := trace + [After(trace[|events|], p, step)];
    events' := events + [Event(p, step)];
  }

  ghost predicate Extends(s: State, t: State, p: nat, proposal: Proposal) {
    && t.table == s.table[PrimaryKeyOf(proposal.k) := Row(proposal.k.parent, Submitted, None, None)]
    && t.issues == s.issues + [Issue(proposal, p, p)]
    && t.procs.Keys == s.procs.Keys + {p}
  }

  /** A submission up to the point where only its row is written. */
  lemma BeginExtendsRun(trace: seq<State>, events: seq<Event>, work: set<Proposal>, p: nat, proposal: Proposal)
      returns (trace': seq<State>, events': seq<Event>)
    requires IsRun(trace, events) && RunsOver(events, work) && proposal in work
    requires p !in trace[|events|].procs && PrimaryKeyOf(proposal.k) !in trace[|events|].table
    ensures IsRun(trace', events') && RunsOver(events', work)
    ensures var s, t := trace[|events|], trace'[|events'|];
            && t.table == s.table[PrimaryKeyOf(proposal.k) := Row(proposal.k.parent, Submitted, None, None)]
            && t.issues == s.issues && t.procs == s.procs[p := Creating(proposal.k, proposal.body)]
  {
    trace', events' := StepExtendsRun(trace, events, work, p, Spawn(Planning(proposal.k, proposal.body)));
    trace', events' := StepExtendsRun(trace', events', work, p, Plan(Create));
    trace', events' := StepExtendsRun(trace', events', work, p, Begin(InsertSubmitted));
  }

  /** A submission that ends right after the tracker created the issue. */
  lemma SubmissionExtendsRun(trace: seq<State>, events: seq<Event>, work: set<Proposal>, p: nat, proposal: Proposal)
      returns (trace': seq<State>, events': seq<Event>)
    requires IsRun(trace, events) && RunsOver(events, work) && proposal in work
    requires p !in trace[|events|].procs && PrimaryKeyOf(proposal.k) !in trace[|events|].table
    ensures IsRun(trace', events') && RunsOver(events', work)
    ensures Extends(trace[|events|], trace'[|events'|], p, proposal)
  {
    trace', events' := BeginExtendsRun(trace, events, work, p, proposal);
    trace', events' := StepExtendsRun(trace', events', work, p, CallCreate(CreatedUnseen(p, p)));
  }

  /** Two proposals of one repository and different rows, the marker of one of which shows in the other's issue. */
  lemma CollisionIsReachable(work: set<Proposal>, p: Proposal, q: Proposal)
    requires p in work && q in work && p.k.repo == q.k.repo && ShowsMarker(q, p.k) && PrimaryKeyOf(p.k) != PrimaryKeyOf(q.k)
    ensures SearchCanBeAmbiguous(work)
  {
    var trace, events := SubmissionExtendsRun([INIT], [], work, 0, p);
    var trace', events' := SubmissionExtendsRun(trace, events, work, 1, q);
    var issues := trace'[|events'|].issues;
    assert issues == [Issue(p, 0, 0), Issue(q, 1, 1)];
    BothMatch(issues, p, q);
    assert IsKeyIn(p.k, work);
  }

  lemma BothMatch(issues: seq<Issue>, p: Proposal, q: Proposal)
    requires |issues| == 2 && issues[0].origin == p && issues[1].origin == q && p.k.repo == q.k.repo && ShowsMarker(q, p.k)
    ensures |Matches(issues, p.k)| > 1
  {
    CandidateIff(p, p.k);
    CandidateIff(q, p.k);
    var m := Matches(issues, p.k);
    assert 0 in m && 1 in m && m == {0, 1} + (m - {0, 1});
  }

  /** Such proposals exist in every accepted issue set: equal contents under two ids that sanitise to one. */
  lemma AcceptedProposalsCollide(issueSet: string, repo: string, parent: Option<nat>, digest: string, body: string)
    requires IsRunId(issueSet)
    ensures SearchCanBeAmbiguous({Proposal(Key(issueSet, "p1", repo, parent, digest), body),
                                  Proposal(Key(issueSet, "p/1", repo, parent, digest), body)})
  {
    var p, q := Proposal(Key(issueSet, "p1", repo, parent, digest), body), Proposal(Key(issueSet, "p/1", repo, parent, digest), body);
    StrippingCollides(issueSet, repo, parent, digest);
    CollisionIsReachable({p, q}, p, q);
  }

  /** And a draft that quotes another proposal's marker is enough, even if all markers differ. */
  lemma QuotingCollides(p: Proposal, q: Proposal)
    requires p.k.repo == q.k.repo && PrimaryKeyOf(p.k) != PrimaryKeyOf(q.k) && Contains(q.body, Marker(p.k))
    ensures SearchCanBeAmbiguous({p, q})
  {
    CollisionIsReachable({p, q}, p, q);
  }

  /**
    Recovery can meet several candidates exactly when, among the proposals submitted to one repository, the marker of
    one shows in the issue of another that can be begun beside it.
  */
  lemma AmbiguousSearchIff(work: set<Proposal>)
    ensures SearchCanBeAmbiguous(work) <==> !MarkersTellApart(work)
  {
    if MarkersTellApart(work) && SearchCanBeAmbiguous(work) {
      var trace: seq<State>, events: seq<Event>, k: Key :| IsRun(trace, events) && RunsOver(events, work) && IsKeyIn(k, work)
        && |Matches(trace[|events|].issues, k)| > 1;
      OneIssuePerKey(trace, events, work, |events|, k);
    }
    if !MarkersTellApart(work) {
      var p, q :| p in work && q in work && p.k.repo == q.k.repo && ShowsMarker(q, p.k)
        && PrimaryKeyOf(p.k) != PrimaryKeyOf(q.k);
      CollisionIsReachable(work, p, q);
    }
  }

  // ---- A row that names another key's issue ----

  /** The row of `k` names an issue, and every issue with that identity was created for another key. */
  ghost predicate IsMisnamed(s: State, k: Key) {
    && Select(s.table, k).Some?
    && var row := Select(s.table, k).value;
       && (row.number.Some? || row.id.Some?)
       && (exists j :: 0 <= j < |s.issues| && Carries(s.issues[j], row.number, row.id))
       && forall j :: 0 <= j < |s.issues| && Carries(s.issues[j], row.number, row.id) ==> s.issues[j].origin.k != k
  }

  ghost predicate RowCanBeMisnamed(work: set<Proposal>) {
    exists trace: seq<State>, events: seq<Event>, k: Key :: IsRun(trace, events) && RunsOver(events, work)
      && IsMisnamed(trace[|events|], k)
  }

  lemma OneHit(s: State, k: Key, j: nat)
    requires j < |s.issues| && s.issues[j].origin.k.repo == k.repo && IsCandidate(s.issues[j].origin, k)
    ensures IsSearchResult(s.issues, k, {j})
    ensures AfterSearch(s, k, {j}, true, false) == RecordingCreated(k, Found(s.issues[j].number, Some(s.issues[j].id)), true)
  {
  }

  /** A resume whose search sees one issue, which carries the marker, records that issue. */
  lemma ResumeExtendsRun(trace: seq<State>, events: seq<Event>, work: set<Proposal>, p: nat, proposal: Proposal, j: nat)
      returns (trace': seq<State>, events': seq<Event>)
    requires IsRun(trace, events) && RunsOver(events, work) && proposal in work && p !in trace[|events|].procs
    requires var s := trace[|events|];
             j < |s.issues| && s.issues[j].origin.k.repo == proposal.k.repo && IsCandidate(s.issues[j].origin, proposal.k)
    ensures IsRun(trace', events') && RunsOver(events', work)
    ensures var s, t := trace[|events|], trace'[|events'|];
            && t.issues == s.issues
            && t.table == RecordState(s.table, proposal.k, Created, Some(s.issues[j].number), Some(s.issues[j].id))
  {
    trace', events' := StepExtendsRun(trace, events, work, p, Spawn(Planning(proposal.k, proposal.body)));
    trace', events' := StepExtendsRun(trace', events', work, p, Plan(RecoverSubmitted));
    OneHit(trace'[|events'|], proposal.k, j);
    trace', events' := StepExtendsRun(trace', events', work, p, Search({j}, true, false));
    trace', events' := StepExtendsRun(trace', events', work, p, Record);
  }

  /** The issue of `q` is created, `p` gets no further than its row, and a resume of `p` finds the issue of `q` alone. */
  lemma MistakeIsReachable(work: set<Proposal>, p: Proposal, q: Proposal)
    requires p in work && q in work && p.k.repo == q.k.repo && ShowsMarker(q, p.k) && PrimaryKeyOf(p.k) != PrimaryKeyOf(q.k)
    ensures RowCanBeMisnamed(work)
  {
    var t1, e1 := SubmissionExtendsRun([INIT], [], work, 0, q);
    var t2, e2 := BeginExtendsRun(t1, e1, work, 1, p);
    assert t2[|e2|].issues == [Issue(q, 0, 0)];
    CandidateIff(q, p.k);
    var t3, e3 := ResumeExtendsRun(t2, e2, work, 2, p, 0);
    var s := t3[|e3|];
    assert Select(s.table, p.k) == Some(Row(p.k.parent, Created, Some(0), Some(0)));
    assert s.issues[0] == Issue(q, 0, 0) && Carries(s.issues[0], Some(0), Some(0));
    assert IsMisnamed(s, p.k);
  }

  /**
    The same condition decides what is worse than an ambiguous search: some run leaves a row that names another key's
    issue exactly when the marker of one proposal shows in the issue of another.
  */
  lemma MisnamedRowIff(work: set<Proposal>)
    ensures RowCanBeMisnamed(work) <==> !MarkersTellApart(work)
  {
    if MarkersTellApart(work) && RowCanBeMisnamed(work) {
      var trace: seq<State>, events: seq<Event>, k: Key :| IsRun(trace, events) && RunsOver(events, work)
        && IsMisnamed(trace[|events|], k);
      RunIsTracked(trace, events, work, |events|);
      TrackedIsNotMisnamed(trace[|events|], work, k);
    }
    if !MarkersTellApart(work) {
      var p, q :| p in work && q in work && p.k.repo == q.k.repo && ShowsMarker(q, p.k)
        && PrimaryKeyOf(p.k) != PrimaryKeyOf(q.k);
      MistakeIsReachable(work, p, q);
    }
  }

  lemma TrackedIsNotMisnamed(s: State, work: set<Proposal>, k: Key)
    requires Tracked(s, work)
    ensures !IsMisnamed(s, k)
  {
    if Select(s.table, k).Some? {
      assert RowTracked(s.issues, k, Select(s.table, k).value);
    }
  }

  // ---- The SDK's own planner is one of the planners covered ----

  /** `plan_issue_submission`. */
  function PlanSubmission(k: Key, existing: Option<Row>, resume: bool): SubmitDecision {
    match existing
    case None => Create
    case Some(row) =>
      match row.state
      case Linked => Stop
      case Pending => Create
      case Created => PlanResumeLink(k, row, resume)
      case CreatedUnlinked => PlanResumeLink(k, row, resume)
      case Submitted => if resume then RecoverSubmitted else Stop
      case CreatedMetadataMismatch => Stop
      case Failed => if resume then Create else Stop
  }

  function PlanResumeLink(k: Key, row: Row, resume: bool): SubmitDecision {
    if resume && row.number.Some? && row.id.Some? && k.parent.Some? then Link(row.id.value) else Stop
  }

  /**
    In every state a run can reach, the SDK planner's answer to the row it loads is a step of this protocol;
    it asks for a new issue exactly when no row has begun, for recovery exactly when a resume finds the row
    `submitted`, and for a link exactly when a resume finds a created issue with number and id and the key has a parent.
  */
  lemma PlannerIsCovered(s: State, p: nat, resume: bool)
    requires Guarded(s) && p in s.procs && s.procs[p].Planning?
    ensures var k := s.procs[p].k;
            var decision := PlanSubmission(k, Select(s.table, k), resume);
            && Enabled(s, p, Plan(decision))
            && (decision.Create? <==> !HasBegun(s.table, k))
            && (decision.RecoverSubmitted? <==> resume && Select(s.table, k).Some? && Select(s.table, k).value.state == Submitted)
            && (decision.Link? <==>
                  && resume && k.parent.Some? && Select(s.table, k).Some?
                  && Select(s.table, k).value.state in {Created, CreatedUnlinked}
                  && Select(s.table, k).value.number.Some? && Select(s.table, k).value.id.Some?)
  {
  }
}
