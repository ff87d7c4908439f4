/**
  Claiming a GitHub issue: the lease check over the claim comments, the comment upsert, the labels and the
  read-back.  One claim is one atomic step, because the tracker offers no check-and-write; time is a string
  in the order of `Text.Less`, as the code compares it.
*/
module LeaseClaims {
  import opened ClaimMarkers
  import opened Text
  import opened Wrappers

  datatype ClaimRequest = ClaimRequest(lease: Lease, claimLabel: string, runningLabel: string,
                                       ignoreLabels: seq<string>, allowPullRequest: bool)

  datatype PreviousLease = SameRun(m: ClaimMarker) | ForeignActive(m: ClaimMarker) | ForeignExpired(m: ClaimMarker)

  datatype VerificationStatus = BlockedByForeignLease | Verified | Mismatch

  datatype ClaimResult = ClaimResult(accepted: bool, fencingToken: string, previousLease: Option<PreviousLease>,
                                     appliedLabels: set<string>, status: VerificationStatus)

  datatype ClaimError = PullRequestRejected | IssueNotOpen | IgnoredIssue | TrackerFault

  /**
    Where a tracker request of the claim fails; a lost reply follows a write that took effect.  The reply to the
    comment can also come without an id.
  */
  datatype Fault = NoFault | CommentIdMissing | CommentRefused | CommentReplyLost | LabelsRefused | ReadBackFailed

  datatype Issue = Issue(open: bool, isPullRequest: bool, labels: set<string>, comments: seq<string>)

  function Somes<T>(items: seq<Option<T>>): seq<T> {
    if items == [] then []
    else
      match items[0]
      case None => Somes(items[1..])
      case Some(item) => [item] + Somes(items[1..])
  }

  /** What each comment parses to. */
  function ParsedComments(comments: seq<string>): (parsed: seq<Option<ClaimMarker>>)
    ensures |parsed| == |comments| && forall i :: 0 <= i < |parsed| ==> parsed[i] == ParsedMarker(comments[i])
  {
    seq(|comments|, i requires 0 <= i < |comments| => ParsedMarker(comments[i]))
  }

  function MarkersOf(comments: seq<string>): seq<ClaimMarker> {
    Somes(ParsedComments(comments))
  }

  predicate IsForeignActive(m: ClaimMarker, run: string, now: string) {
    m.runId != run && Less(now, m.expiresAt)
  }

  function Describe(m: ClaimMarker, run: string): PreviousLease {
    if m.runId == run then SameRun(m) else ForeignExpired(m)
  }

  /** The first lease that blocks a claim by `run`. */
  function FirstBlocking(markers: seq<ClaimMarker>, run: string, now: string): Option<ClaimMarker> {
    if markers == [] then None
    else if IsForeignActive(markers[0], run, now) then Some(markers[0])
    else FirstBlocking(markers[1..], run, now)
  }

  function FirstHolding(comments: seq<string>, needle: string): (r: Option<nat>)
    ensures r.Some? ==> r.value < |comments| && Contains(comments[r.value], needle)
                        && forall i :: 0 <= i < r.value ==> !Contains(comments[i], needle)
    ensures r.None? ==> forall i :: 0 <= i < |comments| ==> !Contains(comments[i], needle)
  {
    if comments == [] then None
    else if Contains(comments[0], needle) then Some(0)
    else
      match FirstHolding(comments[1..], needle)
      case None => None
      case Some(i) => Some(i + 1)
  }

  /** `upsert_lifecycle_comment` with `update_existing`. */
  function Upsert(comments: seq<string>, needle: string, body: string): seq<string> {
    match FirstHolding(comments, needle)
    case Some(i) => comments[i := body]
    case None => comments + [body]
  }

  predicate IsOwnMarker(m: ClaimMarker, l: Lease) {
    m == ClaimMarker("1", l.runId, l.ownerId, l.fencingToken, l.expiresAt)
  }

  /** The read-back check. */
  predicate VerifiedOn(issue: Issue, req: ClaimRequest) {
    req.claimLabel in issue.labels && req.runningLabel in issue.labels
    && exists m :: m in MarkersOf(issue.comments) && IsOwnMarker(m, req.lease)
  }

  function Refusal(issue: Issue, req: ClaimRequest): Option<ClaimError> {
    if issue.isPullRequest && !req.allowPullRequest then Some(PullRequestRejected)
    else if !issue.open then Some(IssueNotOpen)
    else if exists name :: name in req.ignoreLabels && name in issue.labels then Some(IgnoredIssue)
    else None
  }

  function LastDescribed(markers: seq<ClaimMarker>, run: string): Option<PreviousLease> {
    if markers == [] then None else Some(Describe(markers[|markers| - 1], run))
  }

  function Written(issue: Issue, req: ClaimRequest): Issue {
    issue.(comments := Upsert(issue.comments, SearchMarker(req.lease.runId), Body(req.lease)))
  }

  function Labelled(issue: Issue, req: ClaimRequest): Issue {
    issue.(labels := issue.labels + {req.claimLabel, req.runningLabel})
  }

  /** The writes and the read-back of a claim that no lease blocks. */
  function WriteEffect(issue: Issue, req: ClaimRequest, previous: Option<PreviousLease>, fault: Fault)
    : (Issue, Result<ClaimResult, ClaimError>)
  {
    match fault
    case CommentRefused => (issue, Err(TrackerFault))
    case CommentReplyLost => (Written(issue, req), Err(TrackerFault))
    case LabelsRefused => (Written(issue, req), Err(TrackerFault))
    case ReadBackFailed => (Labelled(Written(issue, req), req), Err(TrackerFault))
    case _ =>
      var final := Labelled(Written(issue, req), req);
      var ok := VerifiedOn(final, req) && !fault.CommentIdMissing?;
      (final, Ok(ClaimResult(ok, req.lease.fencingToken, previous, final.labels, if ok then Verified else Mismatch)))
  }

  /** The issue after the claim, and its answer. */
  function ClaimEffect(issue: Issue, req: ClaimRequest, now: string, fault: Fault)
    : (Issue, Result<ClaimResult, ClaimError>)
  {
    var markers, run := MarkersOf(issue.comments), req.lease.runId;
    match Refusal(issue, req)
    case Some(e) => (issue, Err(e))
    case None =>
      match FirstBlocking(markers, run, now)
      case Some(m) =>
        (issue, Ok(ClaimResult(false, req.lease.fencingToken, Some(ForeignActive(m)), issue.labels, BlockedByForeignLease)))
      case None => WriteEffect(issue, req, LastDescribed(markers, run), fault)
  }

  /** The loop of `claim` over the leases it finds. */
  method ScanLeases(markers: seq<ClaimMarker>, run: string, now: string)
    returns (blocking: Option<ClaimMarker>, previous: Option<PreviousLease>)
    ensures blocking == FirstBlocking(markers, run, now)
    ensures blocking.None? ==> previous == LastDescribed(markers, run)
  {
    previous := None;
    assert markers[0..] == markers;
    for i := 0 to |markers|
      invariant FirstBlocking(markers, run, now) == FirstBlocking(markers[i..], run, now)
      invariant previous == LastDescribed(markers[..i], run)
    {
      var m := markers[i];
      assert markers[i..][0] == m && markers[i..][1..] == markers[i + 1..];
      assert markers[..i + 1][i] == m;
      if m.runId == run {
        previous := Some(SameRun(m));
        continue;
      }
      if Less(now, m.expiresAt) {
        return Some(m), previous;
      }
      previous := Some(ForeignExpired(m));
    }
    assert markers[..|markers|] == markers;
    blocking := None;
  }

  /** The tracker's copy of one issue. */
  class TrackedIssue {
    var open: bool
    var isPullRequest: bool
    var labels: set<string>
    var comments: seq<string>

    function Value(): Issue
      reads this
    {
      Issue(open, isPullRequest, labels, comments)
    }

    constructor (open: bool, isPullRequest: bool)
      ensures Value() == Issue(open, isPullRequest, {}, [])
    {
      this.open := open;
      this.isPullRequest := isPullRequest;
      labels := {};
      comments := [];
    }

    method UpsertComment(needle: string, body: string)
      modifies this`comments
      ensures comments == Upsert(old(comments), needle, body)
    {
      var existing := FirstHolding(comments, needle);
      if existing.Some? {
        comments := comments[existing.value := body];
      } else {
        comments := comments + [body];
      }
    }

    method WriteClaim(req: ClaimRequest, previous: Option<PreviousLease>, fault: Fault)
      returns (r: Result<ClaimResult, ClaimError>)
      modifies this
      ensures (Value(), r) == WriteEffect(old(Value()), req, previous, fault)
    {
      if fault.CommentRefused? {
        return Err(TrackerFault);
      }
      UpsertComment(SearchMarker(req.lease.runId), Body(req.lease));
      if fault.CommentReplyLost? || fault.LabelsRefused? {
        return Err(TrackerFault);
      }
      labels := labels + {req.claimLabel, req.runningLabel};
      if fault.ReadBackFailed? {
        return Err(TrackerFault);
      }
      var verified := MarkersOf(comments);
      var marked := exists m :: m in verified && IsOwnMarker(m, req.lease);
      var accepted := req.claimLabel in labels && req.runningLabel in labels && marked && !fault.CommentIdMissing?;
      r := Ok(ClaimResult(accepted, req.lease.fencingToken, previous, labels, if accepted then Verified else Mismatch));
    }

    method Claim(req: ClaimRequest, now: string, fault: Fault) returns (r: Result<ClaimResult, ClaimError>)
      modifies this
      ensures (Value(), r) == ClaimEffect(old(Value()), req, now, fault)
    {
      if isPullRequest && !req.allowPullRequest {
        return Err(PullRequestRejected);
      }
      if !open {
        return Err(IssueNotOpen);
      }
      if exists name :: name in req.ignoreLabels && name in labels {
        return Err(IgnoredIssue);
      }
      var blocking, previous := ScanLeases(MarkersOf(comments), req.lease.runId, now);
      if blocking.Some? {
        return Ok(ClaimResult(false, req.lease.fencingToken, Some(ForeignActive(blocking.value)), labels, BlockedByForeignLease));
      }
      r := WriteClaim(req, previous, fault);
    }
  }

  // ---- One claim ----

  lemma {:induction false} BlockedIff(markers: seq<ClaimMarker>, run: string, now: string)
    ensures FirstBlocking(markers, run, now).Some? <==> exists m :: m in markers && IsForeignActive(m, run, now)
    ensures FirstBlocking(markers, run, now).Some? ==>
              FirstBlocking(markers, run, now).value in markers && IsForeignActive(FirstBlocking(markers, run, now).value, run, now)
  {
    if markers != [] {
      BlockedIff(markers[1..], run, now);
      assert markers == [markers[0]] + markers[1..];
    }
  }

  lemma {:induction false} SomesIff<T>(items: seq<Option<T>>, item: T)
    ensures item in Somes(items) <==> Some(item) in items
  {
    if items != [] {
      SomesIff(items[1..], item);
      assert items == [items[0]] + items[1..];
    }
  }

  lemma MarkerIsParsed(comments: seq<string>, m: ClaimMarker) returns (i: nat)
    requires m in MarkersOf(comments)
    ensures i < |comments| && ParsedMarker(comments[i]) == Some(m)
  {
    var parsed := ParsedComments(comments);
    SomesIff(parsed, m);
    i :| 0 <= i < |parsed| && parsed[i] == Some(m);
  }

  lemma ParsedIsMarker(comments: seq<string>, i: nat)
    requires i < |comments| && ParsedMarker(comments[i]).Some?
    ensures ParsedMarker(comments[i]).value in MarkersOf(comments)
  {
    var parsed := ParsedComments(comments);
    SomesIff(parsed, ParsedMarker(comments[i]).value);
    assert parsed[i] == ParsedMarker(comments[i]);
  }

  /** The markers of an issue are those its comments parse to. */
  lemma MarkersAreParsed(comments: seq<string>, m: ClaimMarker)
    ensures m in MarkersOf(comments) <==> exists i :: 0 <= i < |comments| && ParsedMarker(comments[i]) == Some(m)
  {
    if m in MarkersOf(comments) {
      var i := MarkerIsParsed(comments, m);
    }
    if i :| 0 <= i < |comments| && ParsedMarker(comments[i]) == Some(m) {
      ParsedIsMarker(comments, i);
    }
  }

  /** After an upsert the comment is there. */
  lemma UpsertHolds(comments: seq<string>, needle: string, body: string)
    ensures exists i :: 0 <= i < |Upsert(comments, needle, body)| && Upsert(comments, needle, body)[i] == body
  {
    var after := Upsert(comments, needle, body);
    match FirstHolding(comments, needle)
    case Some(i) => assert after[i] == body;
    case None => assert after[|comments|] == body;
  }

  /** Some comment of the issue is an unexpired claim of another run. */
  ghost predicate IsHeldByOther(issue: Issue, run: string, now: string) {
    exists m :: m in MarkersOf(issue.comments) && m.runId != run && Less(now, m.expiresAt)
  }

  /** The issue may be claimed at all. */
  predicate IsEligible(issue: Issue, req: ClaimRequest) {
    && (issue.isPullRequest ==> req.allowPullRequest) && issue.open
    && forall name :: name in req.ignoreLabels ==> name !in issue.labels
  }

  lemma EligibleIsNotRefused(issue: Issue, req: ClaimRequest)
    ensures IsEligible(issue, req) <==> Refusal(issue, req) == None
  {
  }

  /** The three refusals by the issue's own fields, in the order in which they are looked at; none changes the issue. */
  lemma RefusedIff(issue: Issue, req: ClaimRequest, now: string, fault: Fault)
    ensures var (after, r) := ClaimEffect(issue, req, now, fault);
            && (r == Err(PullRequestRejected) <==> issue.isPullRequest && !req.allowPullRequest)
            && (r == Err(IssueNotOpen) <==> (issue.isPullRequest ==> req.allowPullRequest) && !issue.open)
            && (r == Err(IgnoredIssue) <==>
                  && (issue.isPullRequest ==> req.allowPullRequest) && issue.open
                  && exists name :: name in req.ignoreLabels && name in issue.labels)
            && (r.Err? && r.error != TrackerFault ==> after == issue)
  {
  }

  /**
    A claim is accepted exactly when the issue is open, carries no ignored label and is no pull request unless those
    are allowed, no other run holds an unexpired lease, and every request succeeds, the comment's with an id.  The
    issue then shows the claim's exact run, owner, token and expiry and both labels.
  */
  lemma AcceptedIff(issue: Issue, req: ClaimRequest, now: string, fault: Fault)
    requires IsClean(req.lease)
    ensures var (after, r) := ClaimEffect(issue, req, now, fault);
            && (r.Ok? && r.value.accepted <==>
                  && (issue.isPullRequest ==> req.allowPullRequest) && issue.open
                  && (forall name :: name in req.ignoreLabels ==> name !in issue.labels)
                  && (forall m :: m in MarkersOf(issue.comments) ==> m.runId == req.lease.runId || !Less(now, m.expiresAt))
                  && fault == NoFault)
            && (r.Ok? && r.value.accepted ==> ShowsClaim(after, req) && r.value.status == Verified)
  {
    if IsEligible(issue, req) && !IsHeldByOther(issue, req.lease.runId, now) {
      UnheldIsAccepted(issue, req, now, fault);
    } else {
      ClaimLeaves(issue, req, now, fault);
    }
  }

  /** Whatever the fields of the lease, a claim that is let through is accepted exactly if the read-back shows all of it. */
  lemma AcceptedIffShown(issue: Issue, req: ClaimRequest, now: string, fault: Fault)
    ensures var (after, r) := ClaimEffect(issue, req, now, fault);
            r.Ok? && r.value.status != BlockedByForeignLease ==>
              (r.value.accepted <==> ShowsClaim(after, req) && fault != CommentIdMissing)
              && (r.value.status == Verified <==> r.value.accepted)
  {
    BlockedIff(MarkersOf(issue.comments), req.lease.runId, now);
    VerifiedIff(Labelled(Written(issue, req), req), req);
  }

  lemma VerifiedIff(issue: Issue, req: ClaimRequest)
    ensures VerifiedOn(issue, req) <==> ShowsClaim(issue, req)
  {
    var l := req.lease;
    assert IsOwnMarker(ClaimMarker("1", l.runId, l.ownerId, l.fencingToken, l.expiresAt), l);
  }

  lemma UnheldIsAccepted(issue: Issue, req: ClaimRequest, now: string, fault: Fault)
    requires IsClean(req.lease) && IsEligible(issue, req) && !IsHeldByOther(issue, req.lease.runId, now)
    ensures var (after, r) := ClaimEffect(issue, req, now, fault);
            && (r.Ok? && r.value.accepted <==> fault == NoFault)
            && (r.Ok? && r.value.accepted ==> ShowsClaim(after, req) && r.value.status == Verified)
  {
    EligibleIsNotRefused(issue, req);
    BlockedIff(MarkersOf(issue.comments), req.lease.runId, now);
    WrittenShowsClaim(issue, req);
  }

  ghost predicate ShowsClaim(issue: Issue, req: ClaimRequest) {
    var l := req.lease;
    && req.claimLabel in issue.labels && req.runningLabel in issue.labels
    && ClaimMarker("1", l.runId, l.ownerId, l.fencingToken, l.expiresAt) in MarkersOf(issue.comments)
  }

  lemma WrittenShowsClaim(issue: Issue, req: ClaimRequest)
    requires IsClean(req.lease)
    ensures var final := Labelled(Written(issue, req), req); ShowsClaim(final, req) && VerifiedOn(final, req)
  {
    var final, l := Labelled(Written(issue, req), req), req.lease;
    UpsertHolds(issue.comments, SearchMarker(l.runId), Body(l));
    ClaimRoundTrip(l);
    MarkersAreParsed(final.comments, ClaimMarker("1", l.runId, l.ownerId, l.fencingToken, l.expiresAt));
  }

  /**
    What every claim leaves behind.  A refused or blocked one changes nothing.  Of the others, one whose comment is
    refused changes nothing either, one that fails before its labels leaves the comment alone, and any later failure
    leaves the comment and exactly the two labels.
  */
  lemma ClaimLeaves(issue: Issue, req: ClaimRequest, now: string, fault: Fault)
    ensures var (after, r) := ClaimEffect(issue, req, now, fault);
            if !IsEligible(issue, req) || IsHeldByOther(issue, req.lease.runId, now) || fault == CommentRefused then
              after == issue
            else
              && after.open == issue.open && after.isPullRequest == issue.isPullRequest
              && after.comments == Upsert(issue.comments, SearchMarker(req.lease.runId), Body(req.lease))
              && after.labels == (if fault == CommentReplyLost || fault == LabelsRefused then issue.labels
                                  else issue.labels + {req.claimLabel, req.runningLabel})
    ensures var (after, r) := ClaimEffect(issue, req, now, fault);
            && (r == Err(TrackerFault) <==>
                  && IsEligible(issue, req) && !IsHeldByOther(issue, req.lease.runId, now)
                  && fault != NoFault && fault != CommentIdMissing)
            && (r.Ok? ==> r.value.fencingToken == req.lease.fencingToken && r.value.appliedLabels == after.labels)
            && (r.Ok? && r.value.status == BlockedByForeignLease <==>
                  IsEligible(issue, req) && IsHeldByOther(issue, req.lease.runId, now))
            && (r.Ok? ==> (r.value.accepted <==> r.value.status == Verified))
  {
    EligibleIsNotRefused(issue, req);
    BlockedIff(MarkersOf(issue.comments), req.lease.runId, now);
  }

  // ---- The lease a claim reports ----

  ghost predicate IsLastSome<T>(items: seq<Option<T>>, i: nat, item: T) {
    i < |items| && items[i] == Some(item) && forall j :: i < j < |items| ==> items[j].None?
  }

  lemma {:induction false} LastOfSomes<T>(items: seq<Option<T>>) returns (i: nat)
    requires Somes(items) != []
    ensures IsLastSome(items, i, Somes(items)[|Somes(items)| - 1])
  {
    var rest := items[1..];
    if Somes(rest) == [] {
      i := 0;
      forall j | 0 < j < |items|
        ensures items[j].None?
      {
        assert rest[j - 1] == items[j];
        if items[j].Some? {
          SomesIff(rest, items[j].value);
        }
      }
    } else {
      var k := LastOfSomes(rest);
      i := k + 1;
      assert forall j :: 0 < j < |items| ==> items[j] == rest[j - 1];
    }
  }

  lemma {:induction false} FirstBlockingAt(items: seq<Option<ClaimMarker>>, run: string, now: string) returns (i: nat)
    requires FirstBlocking(Somes(items), run, now).Some?
    ensures i < |items| && items[i] == FirstBlocking(Somes(items), run, now)
    ensures forall j :: 0 <= j < i && items[j].Some? ==> !IsForeignActive(items[j].value, run, now)
  {
    if items[0].Some? && IsForeignActive(items[0].value, run, now) {
      i := 0;
    } else {
      var k := FirstBlockingAt(items[1..], run, now);
      i := k + 1;
      assert forall j :: 0 < j < |items| ==> items[j] == items[1..][j - 1];
    }
  }

  /** Comment `i` is the last that parses, and says `m`. */
  ghost predicate IsLastClaim(comments: seq<string>, i: nat, m: ClaimMarker) {
    i < |comments| && ParsedMarker(comments[i]) == Some(m) && forall j :: i < j < |comments| ==> ParsedMarker(comments[j]).None?
  }

  /** Comment `i` is the first that parses as an unexpired claim of another run, and says `m`. */
  ghost predicate IsFirstForeign(comments: seq<string>, run: string, now: string, i: nat, m: ClaimMarker) {
    && i < |comments| && ParsedMarker(comments[i]) == Some(m) && m.runId != run && Less(now, m.expiresAt)
    && forall j, m' :: 0 <= j < i && ParsedMarker(comments[j]) == Some(m') ==> m'.runId == run || !Less(now, m'.expiresAt)
  }

  lemma BlockingIsFirstForeign(comments: seq<string>, run: string, now: string)
    requires FirstBlocking(MarkersOf(comments), run, now).Some?
    ensures exists i :: IsFirstForeign(comments, run, now, i, FirstBlocking(MarkersOf(comments), run, now).value)
  {
    var parsed := ParsedComments(comments);
    BlockedIff(MarkersOf(comments), run, now);
    var i := FirstBlockingAt(parsed, run, now);
    assert IsFirstForeign(comments, run, now, i, FirstBlocking(MarkersOf(comments), run, now).value);
  }

  ghost predicate NoneParses(comments: seq<string>) {
    forall i :: 0 <= i < |comments| ==> ParsedMarker(comments[i]).None?
  }

  lemma NoMarkers(comments: seq<string>)
    requires MarkersOf(comments) == []
    ensures NoneParses(comments)
  {
    forall i | 0 <= i < |comments|
      ensures ParsedMarker(comments[i]).None?
    {
      if ParsedMarker(comments[i]).Some? {
        ParsedIsMarker(comments, i);
      }
    }
  }

  lemma LastIsClaim(comments: seq<string>, i: nat, m: ClaimMarker)
    requires IsLastSome(ParsedComments(comments), i, m)
    ensures IsLastClaim(comments, i, m)
  {
    var parsed := ParsedComments(comments);
    assert parsed[i] == Some(m);
    forall j | i < j < |comments|
      ensures ParsedMarker(comments[j]).None?
    {
      assert parsed[j].None?;
    }
  }

  lemma LastMarkerIsLastClaim(comments: seq<string>) returns (i: nat)
    requires MarkersOf(comments) != []
    ensures var markers := MarkersOf(comments); IsLastClaim(comments, i, markers[|markers| - 1])
  {
    i := LastOfSomes(ParsedComments(comments));
    var markers := MarkersOf(comments);
    LastIsClaim(comments, i, markers[|markers| - 1]);
  }

  /** The lease a claim by `run` should report over these comments. */
  ghost predicate ReportsLease(comments: seq<string>, run: string, now: string, answer: ClaimResult) {
    var blocked := answer.status == BlockedByForeignLease;
    if answer.previousLease.None? then !blocked && NoneParses(comments)
    else
      var previous := answer.previousLease.value;
      && (blocked <==> previous.ForeignActive?)
      && (previous.ForeignActive? ==> exists i :: IsFirstForeign(comments, run, now, i, previous.m))
      && (previous.SameRun? ==> previous.m.runId == run && exists i :: IsLastClaim(comments, i, previous.m))
      && (previous.ForeignExpired? ==>
            previous.m.runId != run && !Less(now, previous.m.expiresAt) && exists i :: IsLastClaim(comments, i, previous.m))
  }

  lemma AnswerIs(issue: Issue, req: ClaimRequest, now: string, fault: Fault)
    requires ClaimEffect(issue, req, now, fault).1.Ok?
    ensures var answer := ClaimEffect(issue, req, now, fault).1.value;
            var blocking := FirstBlocking(MarkersOf(issue.comments), req.lease.runId, now);
            && (answer.status == BlockedByForeignLease <==> blocking.Some?)
            && answer.previousLease == if blocking.Some? then Some(ForeignActive(blocking.value))
                                       else LastDescribed(MarkersOf(issue.comments), req.lease.runId)
  {
  }

  lemma LastIsReported(comments: seq<string>, run: string, now: string, answer: ClaimResult)
    requires FirstBlocking(MarkersOf(comments), run, now).None? && answer.status != BlockedByForeignLease
    requires answer.previousLease == LastDescribed(MarkersOf(comments), run)
    ensures ReportsLease(comments, run, now, answer)
  {
    var markers := MarkersOf(comments);
    if markers == [] {
      NoMarkers(comments);
    } else {
      BlockedIff(markers, run, now);
      var i := LastMarkerIsLastClaim(comments);
      assert markers[|markers| - 1] in markers;
    }
  }

  /**
    The lease a claim reports: when blocked, the first unexpired lease of another run; otherwise the last lease found,
    which is its own run's or an expired one, and none exactly when no comment parses.
  */
  lemma PreviousLeaseIs(issue: Issue, req: ClaimRequest, now: string, fault: Fault)
    requires ClaimEffect(issue, req, now, fault).1.Ok?
    ensures var answer := ClaimEffect(issue, req, now, fault).1.value; ReportsLease(issue.comments, req.lease.runId, now, answer)
  {
    var comments, run := issue.comments, req.lease.runId;
    AnswerIs(issue, req, now, fault);
    if FirstBlocking(MarkersOf(comments), run, now).Some? {
      BlockingIsFirstForeign(comments, run, now);
    } else {
      LastIsReported(comments, run, now, ClaimEffect(issue, req, now, fault).1.value);
    }
  }
}
