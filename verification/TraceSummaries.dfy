/** What the trace commands make of a list of trace records: one summary per run, and each run's latest status. */
module TraceSummaries {
  import opened Text
  import opened TraceRecords
  import opened Wrappers

  datatype Summary = Summary(runId: string, issueId: Option<string>, eventCount: nat, firstTs: Option<string>,
                             lastTs: Option<string>, lastEventType: string, lastTsUnixMs: Option<nat>)

  /** `Option`'s order: `None` first. */
  predicate OptionLess(a: Option<nat>, b: Option<nat>) {
    b.Some? && (a.None? || a.value < b.value)
  }

  /** The order of the list: latest first, then by run id. */
  predicate Before(a: Summary, b: Summary) {
    OptionLess(b.lastTsUnixMs, a.lastTsUnixMs) || (a.lastTsUnixMs == b.lastTsUnixMs && Less(a.runId, b.runId))
  }

  ghost predicate IsOrdered(list: seq<Summary>) {
    forall i, j :: 0 <= i < j < |list| ==> Before(list[i], list[j])
  }

  function Counted(list: seq<Summary>): nat {
    if list == [] then 0 else list[0].eventCount + Counted(list[1..])
  }

  // ---- Specification: each run on its own ----

  function OwnRecords(records: seq<TraceRecord>, run: string): seq<TraceRecord> {
    if records == [] then []
    else
      var last := records[|records| - 1];
      OwnRecords(records[..|records| - 1], run) + if last.runId == run then [last] else []
  }

  function Issues(own: seq<TraceRecord>): seq<Option<string>> {
    seq(|own|, i requires 0 <= i < |own| => own[i].issueId)
  }

  function Stamps(own: seq<TraceRecord>): seq<Option<string>> {
    seq(|own|, i requires 0 <= i < |own| => own[i].ts)
  }

  function Times(own: seq<TraceRecord>): seq<Option<nat>> {
    seq(|own|, i requires 0 <= i < |own| => own[i].tsUnixMs)
  }

  function SummaryOf(run: string, own: seq<TraceRecord>): Summary
    requires own != []
  {
    Summary(run, FirstPresent(Issues(own)), |own|, FirstPresent(Stamps(own)), LastPresent(Stamps(own)),
            own[|own| - 1].eventType, LastPresent(Times(own)))
  }

  function Runs(records: seq<TraceRecord>): set<string> {
    set r | r in records :: r.runId
  }

  // ---- The loop over the records ----

  function Started(r: TraceRecord): Summary {
    Summary(r.runId, r.issueId, 0, r.ts, r.ts, r.eventType, r.tsUnixMs)
  }

  function Noted(s: Summary, r: TraceRecord): Summary {
    Summary(s.runId, Or(s.issueId, r.issueId), s.eventCount + 1, Or(s.firstTs, r.ts), Or(r.ts, s.lastTs), r.eventType,
            Or(r.tsUnixMs, s.lastTsUnixMs))
  }

  lemma RecordNext(own: seq<TraceRecord>, r: TraceRecord)
    ensures Issues(own + [r]) == Issues(own) + [r.issueId]
    ensures Stamps(own + [r]) == Stamps(own) + [r.ts]
    ensures Times(own + [r]) == Times(own) + [r.tsUnixMs]
  {
  }

  lemma PresentNext(own: seq<TraceRecord>, r: TraceRecord)
    ensures FirstPresent(Issues(own + [r])) == Or(FirstPresent(Issues(own)), r.issueId)
    ensures FirstPresent(Stamps(own + [r])) == Or(FirstPresent(Stamps(own)), r.ts)
    ensures LastPresent(Stamps(own + [r])) == Or(r.ts, LastPresent(Stamps(own)))
    ensures LastPresent(Times(own + [r])) == Or(r.tsUnixMs, LastPresent(Times(own)))
  {
    RecordNext(own, r);
    FirstPresentNext(Issues(own), r.issueId);
    FirstPresentNext(Stamps(own), r.ts);
    LastPresentNext(Stamps(own), r.ts);
    LastPresentNext(Times(own), r.tsUnixMs);
  }

  lemma SummaryNext(own: seq<TraceRecord>, r: TraceRecord)
    ensures SummaryOf(r.runId, own + [r]) == Noted(if own == [] then Started(r) else SummaryOf(r.runId, own), r)
  {
    PresentNext(own, r);
  }

  lemma OwnNext(records: seq<TraceRecord>, i: nat, run: string)
    requires i < |records|
    ensures records[i].runId == run ==> OwnRecords(records[..i + 1], run) == OwnRecords(records[..i], run) + [records[i]]
    ensures records[i].runId != run ==> OwnRecords(records[..i + 1], run) == OwnRecords(records[..i], run)
  {
    assert records[..i + 1][..i] == records[..i];
  }

  lemma RunsNext(records: seq<TraceRecord>, i: nat)
    requires i < |records|
    ensures Runs(records[..i + 1]) == Runs(records[..i]) + {records[i].runId}
  {
    assert records[..i + 1] == records[..i] + [records[i]];
  }

  lemma {:induction false} OwnIff(records: seq<TraceRecord>, run: string)
    ensures OwnRecords(records, run) != [] <==> run in Runs(records)
  {
    if records != [] {
      var n := |records| - 1;
      OwnIff(records[..n], run);
      RunsNext(records, n);
      assert records[..n + 1] == records;
    }
  }

  function Updated(summaries: map<string, Summary>, r: TraceRecord): map<string, Summary> {
    summaries[r.runId := Noted(if r.runId in summaries then summaries[r.runId] else Started(r), r)]
  }

  /** The entry of one run: absent while the run has no records, then its summary. */
  ghost predicate IsEntry(entry: Option<Summary>, run: string, own: seq<TraceRecord>) {
    if own == [] then entry == None else entry == Some(SummaryOf(run, own))
  }

  function EntryOf(summaries: map<string, Summary>, run: string): Option<Summary> {
    if run in summaries then Some(summaries[run]) else None
  }

  ghost predicate AreSummaries(summaries: map<string, Summary>, records: seq<TraceRecord>) {
    forall run :: IsEntry(EntryOf(summaries, run), run, OwnRecords(records, run))
  }

  lemma NotedIsEntry(entry: Option<Summary>, own: seq<TraceRecord>, r: TraceRecord)
    requires IsEntry(entry, r.runId, own)
    ensures IsEntry(Some(Noted(if entry.Some? then entry.value else Started(r), r)), r.runId, own + [r])
  {
    SummaryNext(own, r);
  }

  lemma SummariesNext(summaries: map<string, Summary>, records: seq<TraceRecord>, i: nat)
    requires i < |records| && AreSummaries(summaries, records[..i])
    ensures AreSummaries(Updated(summaries, records[i]), records[..i + 1])
  {
    var r := records[i];
    forall run
      ensures IsEntry(EntryOf(Updated(summaries, r), run), run, OwnRecords(records[..i + 1], run))
    {
      var own := OwnRecords(records[..i], run);
      OwnNext(records, i, run);
      assert IsEntry(EntryOf(summaries, run), run, own);
      if run == r.runId {
        NotedIsEntry(EntryOf(summaries, run), own, r);
      }
    }
  }

  // ---- Sorting ----

  function Insert(list: seq<Summary>, s: Summary): seq<Summary> {
    if list == [] || Before(s, list[0]) then [s] + list else [list[0]] + Insert(list[1..], s)
  }

  lemma BeforeIsTransitive(a: Summary, b: Summary, c: Summary)
    requires Before(a, b) && Before(b, c)
    ensures Before(a, c)
  {
    if a.lastTsUnixMs == b.lastTsUnixMs == c.lastTsUnixMs {
      LessIsTransitive(a.runId, b.runId, c.runId);
    }
  }

  lemma BeforeIsTotal(a: Summary, b: Summary)
    ensures a.runId != b.runId ==> Before(a, b) || Before(b, a)
    ensures !(Before(a, b) && Before(b, a))
  {
    LessIsTotal(a.runId, b.runId);
  }

  lemma {:induction false} InsertHolds(list: seq<Summary>, s: Summary)
    ensures |Insert(list, s)| == |list| + 1 && Counted(Insert(list, s)) == Counted(list) + s.eventCount
    ensures forall x :: x in Insert(list, s) <==> x == s || x in list
  {
    if list != [] && !Before(s, list[0]) {
      InsertHolds(list[1..], s);
      assert list == [list[0]] + list[1..];
    }
  }

  lemma OrderedFrom(first: Summary, rest: seq<Summary>)
    requires IsOrdered(rest) && forall x :: x in rest ==> Before(first, x)
    ensures IsOrdered([first] + rest)
  {
    forall i, j | 0 <= i < j < |rest| + 1
      ensures Before(([first] + rest)[i], ([first] + rest)[j])
    {
      assert ([first] + rest)[j] == rest[j - 1] && rest[j - 1] in rest;
    }
  }

  lemma {:induction false} InsertKeepsOrder(list: seq<Summary>, s: Summary)
    requires IsOrdered(list) && forall x :: x in list ==> x.runId != s.runId
    ensures IsOrdered(Insert(list, s))
  {
    if list != [] {
      var first, rest := list[0], list[1..];
      assert forall x :: x in rest ==> x in list;
      assert forall i :: 0 <= i < |rest| ==> Before(first, rest[i]);
      if Before(s, first) {
        forall x | x in list
          ensures Before(s, x)
        {
          if x != first {
            BeforeIsTransitive(s, first, x);
          }
        }
        OrderedFrom(s, list);
      } else {
        InsertKeepsOrder(rest, s);
        InsertHolds(rest, s);
        assert first in list;
        BeforeIsTotal(s, first);
        OrderedFrom(first, Insert(rest, s));
      }
    }
  }

  /** How many records belong to one of the runs. */
  function CountIn(records: seq<TraceRecord>, runs: set<string>): nat {
    if records == [] then 0
    else CountIn(records[..|records| - 1], runs) + if records[|records| - 1].runId in runs then 1 else 0
  }

  lemma {:induction false} CountInMore(records: seq<TraceRecord>, runs: set<string>, run: string)
    requires run !in runs
    ensures CountIn(records, runs + {run}) == CountIn(records, runs) + |OwnRecords(records, run)|
  {
    if records != [] {
      CountInMore(records[..|records| - 1], runs, run);
    }
  }

  lemma {:induction false} CountInNone(records: seq<TraceRecord>)
    ensures CountIn(records, {}) == 0
  {
    if records != [] {
      CountInNone(records[..|records| - 1]);
    }
  }

  lemma {:induction false} CountInAll(records: seq<TraceRecord>, runs: set<string>)
    requires Runs(records) <= runs
    ensures CountIn(records, runs) == |records|
  {
    if records != [] {
      var n := |records| - 1;
      assert records[n].runId in Runs(records);
      assert Runs(records[..n]) <= Runs(records);
      CountInAll(records[..n], runs);
    }
  }

  /** The list holds the entries of `runs`, in order, and nothing else. */
  ghost predicate IsSortedValues(list: seq<Summary>, summaries: map<string, Summary>, runs: set<string>) {
    && runs <= summaries.Keys && IsOrdered(list) && |list| == |runs|
    && forall s :: s in list <==> s.runId in runs && s == summaries[s.runId]
  }

  ghost predicate IsSummary(s: Summary, records: seq<TraceRecord>) {
    OwnRecords(records, s.runId) != [] && s == SummaryOf(s.runId, OwnRecords(records, s.runId))
  }

  lemma InsertEntry(list: seq<Summary>, summaries: map<string, Summary>, runs: set<string>, run: string)
    requires IsSortedValues(list, summaries, runs) && run in summaries && run !in runs && summaries[run].runId == run
    ensures IsSortedValues(Insert(list, summaries[run]), summaries, runs + {run})
    ensures Counted(Insert(list, summaries[run])) == Counted(list) + summaries[run].eventCount
  {
    InsertKeepsOrder(list, summaries[run]);
    InsertHolds(list, summaries[run]);
  }

  method CollectSummaries(records: seq<TraceRecord>) returns (summaries: map<string, Summary>)
    ensures AreSummaries(summaries, records)
  {
    summaries := map[];
    for i := 0 to |records|
      invariant AreSummaries(summaries, records[..i])
    {
      var r := records[i];
      SummariesNext(summaries, records, i);
      if r.runId !in summaries {
        summaries := summaries[r.runId := Started(r)];
      }
      summaries := summaries[r.runId := Noted(summaries[r.runId], r)];
    }
    assert records[..|records|] == records;
  }

  /** Every entry is kept under its run id and counts that run's records. */
  ghost predicate CountsOwn(summaries: map<string, Summary>, records: seq<TraceRecord>) {
    forall run :: run in summaries ==> summaries[run].runId == run && summaries[run].eventCount == |OwnRecords(records, run)|
  }

  lemma SummariesAre(summaries: map<string, Summary>, records: seq<TraceRecord>)
    requires AreSummaries(summaries, records)
    ensures summaries.Keys == Runs(records) && CountsOwn(summaries, records)
    ensures forall run :: run in summaries ==> IsSummary(summaries[run], records)
  {
    forall run
      ensures run in summaries <==> run in Runs(records)
      ensures run in summaries ==> summaries[run].runId == run && IsSummary(summaries[run], records)
    {
      assert IsEntry(EntryOf(summaries, run), run, OwnRecords(records, run));
      OwnIff(records, run);
    }
  }

  /** Sorting the values of a map, whatever the order in which they are taken. */
  method SortedValues(summaries: map<string, Summary>, ghost records: seq<TraceRecord>) returns (out: seq<Summary>)
    requires CountsOwn(summaries, records)
    ensures IsSortedValues(out, summaries, summaries.Keys) && Counted(out) == CountIn(records, summaries.Keys)
  {
    out := [];
    CountInNone(records);
    var left := summaries.Keys;
    ghost var runs: set<string> := {};
    while left != {}
      invariant runs <= summaries.Keys && left == summaries.Keys - runs
      invariant IsSortedValues(out, summaries, runs) && Counted(out) == CountIn(records, runs)
      decreases |left|
    {
      var run :| run in left;
      InsertEntry(out, summaries, runs, run);
      CountInMore(records, runs, run);
      out := Insert(out, summaries[run]);
      left, runs := left - {run}, runs + {run};
    }
    assert runs == summaries.Keys;
  }

  /**
    `summarize_trace_runs`: one summary per distinct run, with the counts, first and last values of the run's own
    records, in strict order by latest time and run id; the counts add up to the number of records.
  */
  method SummarizeTraceRuns(records: seq<TraceRecord>) returns (out: seq<Summary>)
    ensures IsOrdered(out) && |out| == |Runs(records)| && Counted(out) == |records|
    ensures forall s :: s in out <==> s.runId in Runs(records) && IsSummary(s, records)
  {
    var summaries := CollectSummaries(records);
    SummariesAre(summaries, records);
    out := SortedValues(summaries, records);
    CountInAll(records, Runs(records));
  }

  lemma FirstIsMember(list: seq<Summary>)
    requires list != []
    ensures list[0] in list
  {
  }

  /** The order leaves no choice: two ordered lists with the same members are the same list. */
  lemma {:induction false} OrderIsUnique(a: seq<Summary>, b: seq<Summary>)
    requires IsOrdered(a) && IsOrdered(b) && forall s :: s in a <==> s in b
    ensures a == b
  {
    if a == [] {
      if b != [] {
        FirstIsMember(b);
      }
    } else {
      assert a[0] in b;
      assert b[0] in a;
      SameFirst(a, b);
      forall s
        ensures s in a[1..] <==> s in b[1..]
      {
        InTail(a, s);
        InTail(b, s);
      }
      OrderIsUnique(a[1..], b[1..]);
      assert a == [a[0]] + a[1..] && b == [b[0]] + b[1..];
    }
  }

  lemma SameFirst(a: seq<Summary>, b: seq<Summary>)
    requires IsOrdered(a) && IsOrdered(b) && a != [] && b != [] && a[0] in b && b[0] in a
    ensures a[0] == b[0]
  {
    var i :| 0 <= i < |b| && b[i] == a[0];
    var j :| 0 <= j < |a| && a[j] == b[0];
    if i > 0 && j > 0 {
      BeforeIsTotal(a[0], b[0]);
    }
  }

  lemma InTail(list: seq<Summary>, s: Summary)
    requires IsOrdered(list) && list != []
    ensures s in list[1..] <==> s in list && s != list[0]
  {
    assert list == [list[0]] + list[1..];
    BeforeIsTotal(list[0], list[0]);
  }

  // ---- Latest status ----

  predicate IsStatusEvent(r: TraceRecord) {
    r.eventType == "run.status.updated"
  }

  function Unknown(): string {
    "unknown"
  }

  /** The payload's status, if that is a string. */
  function StatusOf(r: TraceRecord): Option<string> {
    match r.payload
    case None => None
    case Some(payload) => payload.status
  }

  /** What each status event of a run carries. */
  function Statuses(records: seq<TraceRecord>, run: string): seq<Option<string>> {
    if records == [] then []
    else
      var last := records[|records| - 1];
      Statuses(records[..|records| - 1], run) + if last.runId == run && IsStatusEvent(last) then [StatusOf(last)] else []
  }

  function StatusIn(statuses: map<string, string>, run: string): Option<string> {
    if run in statuses then Some(statuses[run]) else None
  }

  /** The map holds, for every run, the last status that was a string. */
  ghost predicate AreLatest(statuses: map<string, string>, records: seq<TraceRecord>) {
    forall run :: StatusIn(statuses, run) == LastPresent(Statuses(records, run))
  }

  lemma StatusesNext(records: seq<TraceRecord>, i: nat, run: string)
    requires i < |records|
    ensures if records[i].runId == run && IsStatusEvent(records[i])
            then Statuses(records[..i + 1], run) == Statuses(records[..i], run) + [StatusOf(records[i])]
            else Statuses(records[..i + 1], run) == Statuses(records[..i], run)
  {
    assert records[..i + 1][..i] == records[..i];
  }

  function WithStatus(statuses: map<string, string>, r: TraceRecord): map<string, string> {
    if IsStatusEvent(r) && StatusOf(r).Some? then statuses[r.runId := StatusOf(r).value] else statuses
  }

  lemma LatestNext(statuses: map<string, string>, records: seq<TraceRecord>, i: nat)
    requires i < |records| && AreLatest(statuses, records[..i])
    ensures AreLatest(WithStatus(statuses, records[i]), records[..i + 1])
  {
    forall run
      ensures StatusIn(WithStatus(statuses, records[i]), run) == LastPresent(Statuses(records[..i + 1], run))
    {
      StatusesNext(records, i, run);
      assert StatusIn(statuses, run) == LastPresent(Statuses(records[..i], run));
      LastPresentNext(Statuses(records[..i], run), StatusOf(records[i]));
    }
  }

  /** `latest_run_statuses`, the forward map. */
  method LatestRunStatuses(records: seq<TraceRecord>) returns (statuses: map<string, string>)
    ensures AreLatest(statuses, records)
  {
    statuses := map[];
    for i := 0 to |records|
      invariant AreLatest(statuses, records[..i])
    {
      LatestNext(statuses, records, i);
      if IsStatusEvent(records[i]) {
        if StatusOf(records[i]).Some? {
          statuses := statuses[records[i].runId := StatusOf(records[i]).value];
        }
      }
    }
    assert records[..|records|] == records;
  }

  /** `latest_run_status`, the backward search. */
  function LatestRunStatus(records: seq<TraceRecord>, run: string): string {
    if records == [] then Unknown()
    else
      var last := records[|records| - 1];
      if last.runId == run && IsStatusEvent(last) then (if StatusOf(last).Some? then StatusOf(last).value else Unknown())
      else LatestRunStatus(records[..|records| - 1], run)
  }

  lemma {:induction false} BackwardIs(records: seq<TraceRecord>, run: string)
    ensures var s := Statuses(records, run);
            LatestRunStatus(records, run) == if s != [] && s[|s| - 1].Some? then s[|s| - 1].value else Unknown()
  {
    if records != [] {
      BackwardIs(records[..|records| - 1], run);
      StatusesNext(records, |records| - 1, run);
      assert records[..|records|] == records;
    }
  }

  function ShownStatus(statuses: map<string, string>, run: string): string {
    if run in statuses then statuses[run] else Unknown()
  }

  /**
    The map, with `unknown` for a run that is not in it, and the backward search give the same status exactly when
    the run's last status event carries a string, or there is none, or the last string status, if any, is itself
    `unknown`.
  */
  lemma StatusesAgreeIff(statuses: map<string, string>, records: seq<TraceRecord>, run: string)
    requires AreLatest(statuses, records)
    ensures var s := Statuses(records, run);
            ShownStatus(statuses, run) == LatestRunStatus(records, run)
            <==> (s == [] || s[|s| - 1].Some? || LastPresent(s) == None || LastPresent(s) == Some(Unknown()))
  {
    assert StatusIn(statuses, run) == LastPresent(Statuses(records, run));
    BackwardIs(records, run);
  }

  /** A status event without a string hides the status from the search but not from the map. */
  lemma StatusesCanDisagree(statuses: map<string, string>, first: TraceRecord, second: TraceRecord)
    requires IsStatusEvent(first) && IsStatusEvent(second) && first.runId == second.runId
    requires StatusOf(first).Some? && StatusOf(first).value != Unknown() && StatusOf(second).None?
    requires AreLatest(statuses, [first, second])
    ensures ShownStatus(statuses, first.runId) == StatusOf(first).value
    ensures LatestRunStatus([first, second], first.runId) == Unknown()
  {
    var records, run := [first, second], first.runId;
    StatusesNext(records, 0, run);
    StatusesNext(records, 1, run);
    assert records[..0] == [] && records[..1] == [first] && records[..2] == records;
    assert Statuses(records, run) == [StatusOf(first), StatusOf(second)];
    LastPresentNext([StatusOf(first)], StatusOf(second));
    LastPresentNext([], StatusOf(first));
    assert [StatusOf(first)] + [StatusOf(second)] == [StatusOf(first), StatusOf(second)] && [] + [StatusOf(first)] == [StatusOf(first)];
    assert StatusIn(statuses, run) == LastPresent(Statuses(records, run));
  }

  // ---- Both results by the records themselves ----

  /** An attribute of each record. */
  function Attributes<T>(own: seq<TraceRecord>, f: TraceRecord -> Option<T>): (values: seq<Option<T>>)
    ensures |values| == |own| && forall i :: 0 <= i < |own| ==> values[i] == f(own[i])
  {
    seq(|own|, i requires 0 <= i < |own| => f(own[i]))
  }

  /** Record `i` is the first of the run that has the attribute; or the last. */
  ghost predicate IsFirstWith<T>(records: seq<TraceRecord>, run: string, f: TraceRecord -> Option<T>, i: nat) {
    && i < |records| && records[i].runId == run && f(records[i]).Some?
    && forall j :: 0 <= j < i && records[j].runId == run ==> f(records[j]).None?
  }

  ghost predicate IsLastWith<T>(records: seq<TraceRecord>, run: string, f: TraceRecord -> Option<T>, i: nat) {
    && i < |records| && records[i].runId == run && f(records[i]).Some?
    && forall j :: i < j < |records| && records[j].runId == run ==> f(records[j]).None?
  }

  ghost predicate NoneHas<T>(records: seq<TraceRecord>, run: string, f: TraceRecord -> Option<T>) {
    forall i :: 0 <= i < |records| && records[i].runId == run ==> f(records[i]).None?
  }

  lemma AttributesNext<T>(own: seq<TraceRecord>, r: TraceRecord, f: TraceRecord -> Option<T>)
    ensures FirstPresent(Attributes(own + [r], f)) == Or(FirstPresent(Attributes(own, f)), f(r))
    ensures LastPresent(Attributes(own + [r], f)) == Or(f(r), LastPresent(Attributes(own, f)))
  {
    assert Attributes(own + [r], f) == Attributes(own, f) + [f(r)];
    FirstPresentNext(Attributes(own, f), f(r));
    LastPresentNext(Attributes(own, f), f(r));
  }

  lemma OwnOfOther(records: seq<TraceRecord>, run: string)
    requires records != [] && records[|records| - 1].runId != run
    ensures OwnRecords(records, run) == OwnRecords(records[..|records| - 1], run)
  {
  }

  lemma {:induction false} NoneOfRun<T>(records: seq<TraceRecord>, run: string, f: TraceRecord -> Option<T>)
    requires NoneHas(records, run, f)
    ensures FirstPresent(Attributes(OwnRecords(records, run), f)) == None
    ensures LastPresent(Attributes(OwnRecords(records, run), f)) == None
  {
    if records != [] {
      var before, last := records[..|records| - 1], records[|records| - 1];
      NoneOfRun(before, run, f);
      if last.runId == run {
        AttributesNext(OwnRecords(before, run), last, f);
      } else {
        OwnOfOther(records, run);
      }
    }
  }

  lemma {:induction false} FirstOfRun<T>(records: seq<TraceRecord>, run: string, f: TraceRecord -> Option<T>, i: nat)
    requires IsFirstWith(records, run, f, i)
    ensures FirstPresent(Attributes(OwnRecords(records, run), f)) == f(records[i])
  {
    var before, last := records[..|records| - 1], records[|records| - 1];
    if i == |records| - 1 {
      NoneOfRun(before, run, f);
    } else {
      FirstOfRun(before, run, f, i);
    }
    if last.runId == run {
      AttributesNext(OwnRecords(before, run), last, f);
    } else {
      OwnOfOther(records, run);
    }
  }

  lemma {:induction false} LastOfRun<T>(records: seq<TraceRecord>, run: string, f: TraceRecord -> Option<T>, i: nat)
    requires IsLastWith(records, run, f, i)
    ensures LastPresent(Attributes(OwnRecords(records, run), f)) == f(records[i])
  {
    var before, last := records[..|records| - 1], records[|records| - 1];
    if last.runId == run {
      AttributesNext(OwnRecords(before, run), last, f);
    } else {
      OwnOfOther(records, run);
    }
    if i < |records| - 1 {
      LastOfRun(before, run, f, i);
    }
  }

  function IssueOf(r: TraceRecord): Option<string> {
    r.issueId
  }

  function StampOf(r: TraceRecord): Option<string> {
    r.ts
  }

  function TimeOf(r: TraceRecord): Option<nat> {
    r.tsUnixMs
  }

  lemma SummaryIs(own: seq<TraceRecord>, run: string)
    requires own != []
    ensures var s := SummaryOf(run, own);
            && s.issueId == FirstPresent(Attributes(own, IssueOf)) && s.firstTs == FirstPresent(Attributes(own, StampOf))
            && s.lastTs == LastPresent(Attributes(own, StampOf)) && s.lastTsUnixMs == LastPresent(Attributes(own, TimeOf))
  {
    assert Issues(own) == Attributes(own, IssueOf) && Stamps(own) == Attributes(own, StampOf) && Times(own) == Attributes(own, TimeOf);
  }

  /** A summary shows the issue and the time that a record of its run gives first, and nothing if none gives one. */
  lemma SummaryShowsFirst(s: Summary, records: seq<TraceRecord>, i: nat)
    requires IsSummary(s, records)
    ensures IsFirstWith(records, s.runId, IssueOf, i) ==> s.issueId == records[i].issueId
    ensures IsFirstWith(records, s.runId, StampOf, i) ==> s.firstTs == records[i].ts
    ensures NoneHas(records, s.runId, IssueOf) ==> s.issueId == None
    ensures NoneHas(records, s.runId, StampOf) ==> s.firstTs == None && s.lastTs == None
  {
    SummaryIs(OwnRecords(records, s.runId), s.runId);
    if IsFirstWith(records, s.runId, IssueOf, i) {
      FirstOfRun(records, s.runId, IssueOf, i);
    }
    if IsFirstWith(records, s.runId, StampOf, i) {
      FirstOfRun(records, s.runId, StampOf, i);
    }
    if NoneHas(records, s.runId, IssueOf) {
      NoneOfRun(records, s.runId, IssueOf);
    }
    if NoneHas(records, s.runId, StampOf) {
      NoneOfRun(records, s.runId, StampOf);
    }
  }

  /** And the times that a record of its run gives last. */
  lemma SummaryShowsLast(s: Summary, records: seq<TraceRecord>, i: nat)
    requires IsSummary(s, records)
    ensures IsLastWith(records, s.runId, StampOf, i) ==> s.lastTs == records[i].ts
    ensures IsLastWith(records, s.runId, TimeOf, i) ==> s.lastTsUnixMs == records[i].tsUnixMs
    ensures NoneHas(records, s.runId, TimeOf) ==> s.lastTsUnixMs == None
  {
    SummaryIs(OwnRecords(records, s.runId), s.runId);
    if IsLastWith(records, s.runId, StampOf, i) {
      LastOfRun(records, s.runId, StampOf, i);
    }
    if IsLastWith(records, s.runId, TimeOf, i) {
      LastOfRun(records, s.runId, TimeOf, i);
    }
    if NoneHas(records, s.runId, TimeOf) {
      NoneOfRun(records, s.runId, TimeOf);
    }
  }

  /** Its event type is that of the run's last record. */
  lemma {:induction false} LastOwnRecord(records: seq<TraceRecord>, run: string, i: nat)
    requires i < |records| && records[i].runId == run && forall j :: i < j < |records| ==> records[j].runId != run
    ensures var own := OwnRecords(records, run); own != [] && own[|own| - 1] == records[i] && SummaryOf(run, own).lastEventType == records[i].eventType
  {
    if i < |records| - 1 {
      LastOwnRecord(records[..|records| - 1], run, i);
    }
  }

  /** Summaries come latest first, those without a time last, and by run id where the times are the same. */
  lemma BeforeIff(a: Summary, b: Summary)
    ensures Before(a, b) <==>
              || (a.lastTsUnixMs.Some? && (b.lastTsUnixMs.None? || b.lastTsUnixMs.value < a.lastTsUnixMs.value))
              || (a.lastTsUnixMs == b.lastTsUnixMs && Less(a.runId, b.runId))
  {
  }

  /** The status a status event gives. */
  function GivenStatus(r: TraceRecord): Option<string> {
    if r.eventType == "run.status.updated" && r.payload.Some? then r.payload.value.status else None
  }

  /** How one more record of the run changes both sides of `StatusesGive`. */
  lemma GivenNext(records: seq<TraceRecord>, run: string)
    requires records != [] && records[|records| - 1].runId == run
    ensures var before, last := records[..|records| - 1], records[|records| - 1];
            && LastPresent(Statuses(records, run)) == Or(GivenStatus(last), LastPresent(Statuses(before, run)))
            && LastPresent(Attributes(OwnRecords(records, run), GivenStatus))
            == Or(GivenStatus(last), LastPresent(Attributes(OwnRecords(before, run), GivenStatus)))
  {
    var before, last := records[..|records| - 1], records[|records| - 1];
    AttributesNext(OwnRecords(before, run), last, GivenStatus);
    if IsStatusEvent(last) {
      LastPresentNext(Statuses(before, run), StatusOf(last));
    } else {
      assert Statuses(records, run) == Statuses(before, run);
    }
  }

  lemma {:induction false} StatusesGive(records: seq<TraceRecord>, run: string)
    ensures LastPresent(Statuses(records, run)) == LastPresent(Attributes(OwnRecords(records, run), GivenStatus))
  {
    if records != [] {
      StatusesGive(records[..|records| - 1], run);
      if records[|records| - 1].runId == run {
        GivenNext(records, run);
      } else {
        OwnOfOther(records, run);
        OtherStatuses(records, run);
      }
    }
  }

  lemma OtherStatuses(records: seq<TraceRecord>, run: string)
    requires records != [] && records[|records| - 1].runId != run
    ensures Statuses(records, run) == Statuses(records[..|records| - 1], run)
  {
  }

  /** The map holds what the last record that gives the run a status gives, and nothing for a run without one. */
  lemma LatestStatusIs(statuses: map<string, string>, records: seq<TraceRecord>, run: string, i: nat)
    requires AreLatest(statuses, records)
    ensures IsLastWith(records, run, GivenStatus, i) ==> run in statuses && Some(statuses[run]) == records[i].payload.value.status
    ensures NoneHas(records, run, GivenStatus) ==> run !in statuses
  {
    assert StatusIn(statuses, run) == LastPresent(Statuses(records, run));
    StatusesGive(records, run);
    if IsLastWith(records, run, GivenStatus, i) {
      LastOfRun(records, run, GivenStatus, i);
    }
    if NoneHas(records, run, GivenStatus) {
      NoneOfRun(records, run, GivenStatus);
    }
  }

  /** The search looks at the run's last status event alone. */
  lemma {:induction false} SearchedStatusIs(records: seq<TraceRecord>, run: string, i: nat)
    requires i < |records| && records[i].runId == run && records[i].eventType == "run.status.updated"
    requires forall j :: i < j < |records| && records[j].runId == run ==> records[j].eventType != "run.status.updated"
    ensures LatestRunStatus(records, run)
         == if records[i].payload.Some? && records[i].payload.value.status.Some? then records[i].payload.value.status.value else "unknown"
  {
    if i < |records| - 1 {
      SearchedStatusIs(records[..|records| - 1], run, i);
    }
  }
}
