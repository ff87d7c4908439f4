/** Histories of one issue: claims and renewals by any runs, other people's comments, and time going on. */
module LeaseHistory {
  import opened ClaimMarkers
  import opened LeaseClaims
  import opened Text
  import opened Wrappers

  datatype State = State(issue: Issue, now: string)

  datatype Step =
    | Claim(req: ClaimRequest, fault: Fault)
    | Tick(later: string)
    | Comment(body: string)
    | EditComment(index: nat, body: string)
    | DeleteComment(index: nat)
    | Relabel(labels: set<string>)
    | SetOpen(open: bool)

  /** A comment in which nobody wrote the opening of a claim marker. */
  predicate IsPlain(body: string) {
    !Contains(body, INTRO)
  }

  /** Claims carry clean fields; time does not go back; others may delete claim comments but not write or edit them. */
  predicate Enabled(s: State, step: Step) {
    match step
    case Claim(req, _) => IsClean(req.lease)
    case Tick(later) => !Less(later, s.now)
    case Comment(body) => IsPlain(body)
    case DeleteComment(i) => i < |s.issue.comments|
    case EditComment(i, body) => i < |s.issue.comments| && IsPlain(s.issue.comments[i]) && IsPlain(body)
    case Relabel(_) => true
    case SetOpen(_) => true
  }

  function Without(comments: seq<string>, i: nat): seq<string>
    requires i < |comments|
  {
    comments[..i] + comments[i + 1..]
  }

  function After(s: State, step: Step): State {
    match step
    case Claim(req, fault) => s.(issue := ClaimEffect(s.issue, req, s.now, fault).0)
    case Tick(later) => s.(now := later)
    case Comment(body) => s.(issue := s.issue.(comments := s.issue.comments + [body]))
    case DeleteComment(i) =>
      if i < |s.issue.comments| then s.(issue := s.issue.(comments := Without(s.issue.comments, i))) else s
    case EditComment(i, body) =>
      if i < |s.issue.comments| then s.(issue := s.issue.(comments := s.issue.comments[i := body])) else s
    case Relabel(labels) => s.(issue := s.issue.(labels := labels))
    case SetOpen(open) => s.(issue := s.issue.(open := open))
  }

  /** A history from an issue that carries no claim yet. */
  ghost predicate IsHistory(trace: seq<State>, steps: seq<Step>) {
    |trace| == |steps| + 1
    && (forall i :: 0 <= i < |trace[0].issue.comments| ==> IsPlain(trace[0].issue.comments[i]))
    && forall i :: 0 <= i < |steps| ==> Enabled(trace[i], steps[i]) && trace[i + 1] == After(trace[i], steps[i])
  }

  ghost predicate IsClaimComment(body: string, l: Lease) {
    IsClean(l) && body == Body(l)
  }

  /** Every comment is plain or a printed claim, and no earlier comment would be found in a claim's place. */
  ghost predicate WellPlaced(comments: seq<string>) {
    && (forall i :: 0 <= i < |comments| ==> IsPlain(comments[i]) || exists l :: IsClaimComment(comments[i], l))
    && (forall i, j, l: Lease :: 0 <= i < j < |comments| && IsClaimComment(comments[j], l) ==>
          !Contains(comments[i], SearchMarker(l.runId)))
  }

  ghost predicate IsActive(m: ClaimMarker, now: string) {
    Less(now, m.expiresAt)
  }

  /** All unexpired leases on the issue belong to one run. */
  ghost predicate SingleHolder(comments: seq<string>, now: string) {
    forall m, m' :: m in MarkersOf(comments) && m' in MarkersOf(comments) && IsActive(m, now) && IsActive(m', now)
      ==> m.runId == m'.runId
  }

  lemma PlainHasNoMarker(body: string)
    requires IsPlain(body)
    ensures ParsedMarker(body) == None
    ensures forall run :: !Contains(body, SearchMarker(run))
  {
    forall run
      ensures !Contains(body, SearchMarker(run))
    {
      if Contains(body, SearchMarker(run)) {
        ContainsPrefix(body, SearchMarker(run), INTRO);
      }
    }
  }

  lemma ClaimCommentParses(body: string, l: Lease)
    requires IsClaimComment(body, l)
    ensures ParsedMarker(body).Some? && ParsedMarker(body).value.runId == l.runId
    ensures forall run :: ' ' !in run ==> (Contains(body, SearchMarker(run)) <==> run <= l.runId)
  {
    ClaimRoundTrip(l);
    forall run | ' ' !in run
      ensures Contains(body, SearchMarker(run)) <==> run <= l.runId
    {
      FoundIffPrefix(l, run);
    }
  }

  lemma CleanHasNoSpace(l: Lease)
    requires IsClean(l)
    ensures ' ' !in l.runId
  {
    assert IsWhitespace(' ');
  }

  lemma BodyIsNotPlain(l: Lease)
    ensures !IsPlain(Body(l))
  {
    StartIsContained(INTRO, JoinSpaced(Parts(l)), "-->" + Tail(l));
  }

  lemma BodiesNameTheirLease(l: Lease, l': Lease)
    requires IsClean(l) && IsClean(l') && Body(l) == Body(l')
    ensures l == l'
  {
    ClaimRoundTrip(l);
    ClaimRoundTrip(l');
  }

  /** A claim writes over the first comment its marker finds, or appends; either way the order is kept. */
  lemma UpsertIsWellPlaced(comments: seq<string>, l: Lease)
    requires WellPlaced(comments) && IsClean(l)
    ensures WellPlaced(Upsert(comments, SearchMarker(l.runId), Body(l)))
  {
    var needle, after := SearchMarker(l.runId), Upsert(comments, SearchMarker(l.runId), Body(l));
    CleanHasNoSpace(l);
    var p := match FirstHolding(comments, needle) case Some(i) => i case None => |comments|;
    assert after[p] == Body(l) && IsClaimComment(after[p], l);
    forall i, j, k: Lease | 0 <= i < j < |after| && IsClaimComment(after[j], k)
      ensures !Contains(after[i], SearchMarker(k.runId))
    {
      if j == p {
        BodiesNameTheirLease(l, k);
      } else if i == p {
        CleanHasNoSpace(k);
        ClaimCommentParses(after[p], l);
        if k.runId <= l.runId {
          SearchMarkersNest(k.runId, l.runId);
          ContainsPrefix(comments[p], needle, SearchMarker(k.runId));
        }
      }
    }
  }

  lemma AppendPlain(comments: seq<string>, body: string)
    requires WellPlaced(comments) && IsPlain(body)
    ensures WellPlaced(comments + [body])
  {
    PlainHasNoMarker(body);
    forall l | IsClaimComment(body, l)
      ensures false
    {
      BodyIsNotPlain(l);
    }
  }

  lemma EditPlain(comments: seq<string>, p: nat, body: string)
    requires WellPlaced(comments) && p < |comments| && IsPlain(body)
    ensures WellPlaced(comments[p := body])
  {
    PlainHasNoMarker(body);
    forall l | IsClaimComment(body, l)
      ensures false
    {
      BodyIsNotPlain(l);
    }
  }

  /** A claim writes nothing or upserts its own comment, and then nobody else's lease was active. */
  lemma ClaimWrites(issue: Issue, req: ClaimRequest, now: string, fault: Fault)
    ensures var after := ClaimEffect(issue, req, now, fault).0;
            after.comments == issue.comments
            || (after.comments == Upsert(issue.comments, SearchMarker(req.lease.runId), Body(req.lease))
                && forall m :: m in MarkersOf(issue.comments) ==> !IsForeignActive(m, req.lease.runId, now))
  {
    BlockedIff(MarkersOf(issue.comments), req.lease.runId, now);
  }

  lemma UpsertAt(comments: seq<string>, needle: string, body: string, i: nat)
    requires i < |Upsert(comments, needle, body)|
    ensures var after := Upsert(comments, needle, body);
            after[i] == body || (i < |comments| && after[i] == comments[i])
  {
  }

  lemma UpsertMarkers(comments: seq<string>, needle: string, body: string, m: ClaimMarker)
    requires m in MarkersOf(Upsert(comments, needle, body))
    ensures m in MarkersOf(comments) || ParsedMarker(body) == Some(m)
  {
    var after := Upsert(comments, needle, body);
    var i := MarkerIsParsed(after, m);
    UpsertAt(comments, needle, body, i);
    if after[i] != body {
      ParsedIsMarker(comments, i);
    }
  }

  lemma UpsertKeepsSingleHolder(comments: seq<string>, l: Lease, now: string)
    requires IsClean(l) && forall m :: m in MarkersOf(comments) ==> !IsForeignActive(m, l.runId, now)
    ensures SingleHolder(Upsert(comments, SearchMarker(l.runId), Body(l)), now)
  {
    forall m | m in MarkersOf(Upsert(comments, SearchMarker(l.runId), Body(l))) && IsActive(m, now)
      ensures m.runId == l.runId
    {
      UpsertMarkers(comments, SearchMarker(l.runId), Body(l), m);
      ClaimRoundTrip(l);
    }
  }

  lemma MarkerIsOld(comments: seq<string>, after: seq<string>, i: nat, m: ClaimMarker)
    requires i < |after| && ParsedMarker(after[i]) == Some(m)
    requires i < |comments| && after[i] == comments[i]
    ensures m in MarkersOf(comments)
  {
    ParsedIsMarker(comments, i);
  }

  lemma PlainWritesKeepMarkers(s: State, step: Step)
    requires Enabled(s, step) && (step.Comment? || step.EditComment?)
    ensures forall m :: m in MarkersOf(After(s, step).issue.comments) ==> m in MarkersOf(s.issue.comments)
  {
    var after := After(s, step).issue.comments;
    PlainHasNoMarker(step.body);
    forall m | m in MarkersOf(after)
      ensures m in MarkersOf(s.issue.comments)
    {
      var i := MarkerIsParsed(after, m);
      MarkerIsOld(s.issue.comments, after, i, m);
    }
  }

  /** Every comment left after a deletion stood before it, in the same order. */
  lemma LeftComment(comments: seq<string>, p: nat, i: nat) returns (was: nat)
    requires p < |comments| && i < |comments| - 1
    ensures was == (if i < p then i else i + 1) && Without(comments, p)[i] == comments[was]
  {
    was := if i < p then i else i + 1;
  }

  lemma DeletionKeepsOrder(comments: seq<string>, p: nat, now: string)
    requires p < |comments| && WellPlaced(comments) && SingleHolder(comments, now)
    ensures WellPlaced(Without(comments, p)) && SingleHolder(Without(comments, p), now)
  {
    var after := Without(comments, p);
    forall i | 0 <= i < |after|
      ensures after[i] == comments[if i < p then i else i + 1]
    {
      var was := LeftComment(comments, p, i);
    }
    forall m | m in MarkersOf(after)
      ensures m in MarkersOf(comments)
    {
      var i := MarkerIsParsed(after, m);
      ParsedIsMarker(comments, if i < p then i else i + 1);
    }
  }

  lemma TimeKeepsSingleHolder(comments: seq<string>, now: string, later: string)
    requires SingleHolder(comments, now) && !Less(later, now)
    ensures SingleHolder(comments, later)
  {
    forall m | m in MarkersOf(comments) && IsActive(m, later)
      ensures IsActive(m, now)
    {
      LessIsTotal(now, later);
      if now != later {
        LessIsTransitive(now, later, m.expiresAt);
      }
    }
  }

  lemma StepKeepsOrder(s: State, step: Step)
    requires Enabled(s, step) && WellPlaced(s.issue.comments) && SingleHolder(s.issue.comments, s.now)
    ensures WellPlaced(After(s, step).issue.comments) && SingleHolder(After(s, step).issue.comments, After(s, step).now)
  {
    match step
    case Claim(req, fault) =>
      ClaimWrites(s.issue, req, s.now, fault);
      if After(s, step).issue.comments != s.issue.comments {
        UpsertIsWellPlaced(s.issue.comments, req.lease);
        UpsertKeepsSingleHolder(s.issue.comments, req.lease, s.now);
      }
    case Tick(later) => TimeKeepsSingleHolder(s.issue.comments, s.now, later);
    case Comment(body) =>
      AppendPlain(s.issue.comments, body);
      PlainWritesKeepMarkers(s, step);
    case DeleteComment(i) => DeletionKeepsOrder(s.issue.comments, i, s.now);
    case EditComment(i, body) =>
      EditPlain(s.issue.comments, i, body);
      PlainWritesKeepMarkers(s, step);
    case _ =>
  }

  lemma PlainStart(comments: seq<string>)
    requires forall i :: 0 <= i < |comments| ==> IsPlain(comments[i])
    ensures MarkersOf(comments) == [] && WellPlaced(comments)
  {
    if MarkersOf(comments) != [] {
      var i := MarkerIsParsed(comments, MarkersOf(comments)[0]);
      PlainHasNoMarker(comments[i]);
    }
    forall i, l: Lease | 0 <= i < |comments| && IsClaimComment(comments[i], l)
      ensures false
    {
      BodyIsNotPlain(l);
    }
  }

  lemma HistoryStep(trace: seq<State>, steps: seq<Step>, i: nat)
    requires IsHistory(trace, steps) && i < |steps|
    ensures Enabled(trace[i], steps[i]) && trace[i + 1] == After(trace[i], steps[i])
  {
  }

  lemma {:induction false} HistoryKeepsOrder(trace: seq<State>, steps: seq<Step>, i: nat)
    requires IsHistory(trace, steps) && i < |trace|
    ensures WellPlaced(trace[i].issue.comments) && SingleHolder(trace[i].issue.comments, trace[i].now)
  {
    if i == 0 {
      PlainStart(trace[0].issue.comments);
    } else {
      HistoryKeepsOrder(trace, steps, i - 1);
      HistoryStep(trace, steps, i - 1);
      StepKeepsOrder(trace[i - 1], steps[i - 1]);
    }
  }

  /** Over every history all unexpired claim markers belong to a single run. */
  lemma OneRunHoldsTheLease(trace: seq<State>, steps: seq<Step>, i: nat, m: ClaimMarker, m': ClaimMarker)
    requires IsHistory(trace, steps) && i < |trace|
    requires m in MarkersOf(trace[i].issue.comments) && m' in MarkersOf(trace[i].issue.comments)
    requires IsActive(m, trace[i].now) && IsActive(m', trace[i].now)
    ensures m.runId == m'.runId
  {
    HistoryKeepsOrder(trace, steps, i);
  }

  lemma ParsedIsClaim(body: string)
    requires ParsedMarker(body).Some? && (IsPlain(body) || exists l :: IsClaimComment(body, l))
    ensures exists l :: IsClaimComment(body, l)
  {
    assert !IsPlain(body);
  }

  /** However often runs claim and renew, a run never has two claim comments. */
  lemma OneCommentPerRun(trace: seq<State>, steps: seq<Step>, t: nat, i: nat, j: nat)
    requires IsHistory(trace, steps) && t < |trace| && i < j < |trace[t].issue.comments|
    requires ParsedMarker(trace[t].issue.comments[i]).Some? && ParsedMarker(trace[t].issue.comments[j]).Some?
    ensures ParsedMarker(trace[t].issue.comments[i]).value.runId != ParsedMarker(trace[t].issue.comments[j]).value.runId
  {
    var comments := trace[t].issue.comments;
    HistoryKeepsOrder(trace, steps, t);
    ParsedIsClaim(comments[i]);
    ParsedIsClaim(comments[j]);
    var k, l :| IsClaimComment(comments[i], k) && IsClaimComment(comments[j], l);
    ClaimCommentParses(comments[i], k);
    ClaimCommentParses(comments[j], l);
    CleanHasNoSpace(l);
  }

  /** While a run's lease is unexpired, a claim by any other run is refused or fails and changes nothing. */
  lemma ActiveLeaseIsSafe(trace: seq<State>, steps: seq<Step>, i: nat, m: ClaimMarker)
    requires IsHistory(trace, steps) && i < |steps| && steps[i].Claim?
    requires m in MarkersOf(trace[i].issue.comments) && IsActive(m, trace[i].now) && steps[i].req.lease.runId != m.runId
    ensures trace[i + 1] == trace[i]
    ensures var r := ClaimEffect(trace[i].issue, steps[i].req, trace[i].now, steps[i].fault).1;
            r.Ok? ==> !r.value.accepted
  {
    assert IsForeignActive(m, steps[i].req.lease.runId, trace[i].now);
    BlockedIff(MarkersOf(trace[i].issue.comments), steps[i].req.lease.runId, trace[i].now);
  }

  // ---- Overwriting another run's comment ----

  ghost predicate IsTidy(body: string) {
    IsPlain(body) || exists l :: IsClaimComment(body, l)
  }

  /** The comment is a claim of a run whose id begins with `run`. */
  predicate IsClaimUnder(body: string, run: string) {
    ParsedMarker(body).Some? && run <= ParsedMarker(body).value.runId
  }

  lemma HeldIff(body: string, run: string)
    requires IsTidy(body) && ' ' !in run
    ensures Contains(body, SearchMarker(run)) <==> IsClaimUnder(body, run)
  {
    if IsPlain(body) {
      PlainHasNoMarker(body);
    } else {
      var l :| IsClaimComment(body, l);
      ClaimCommentParses(body, l);
    }
  }

  /** Comment `i` is the first that an upsert for `run` finds. */
  ghost predicate IsFirstUnder(comments: seq<string>, run: string, i: nat) {
    i < |comments| && IsClaimUnder(comments[i], run) && forall j :: 0 <= j < i ==> !IsClaimUnder(comments[j], run)
  }

  lemma UpsertReplacesIff(comments: seq<string>, l: Lease, i: nat)
    requires IsClean(l) && (forall j :: 0 <= j < |comments| ==> IsTidy(comments[j])) && i < |comments|
    ensures var after := Upsert(comments, SearchMarker(l.runId), Body(l));
            i < |after| && after[i] == if IsFirstUnder(comments, l.runId, i) then Body(l) else comments[i]
  {
    CleanHasNoSpace(l);
    var needle := SearchMarker(l.runId);
    forall j | 0 <= j < |comments|
      ensures Contains(comments[j], needle) <==> IsClaimUnder(comments[j], l.runId)
    {
      HeldIff(comments[j], l.runId);
    }
    UpsertReplacesFirst(comments, needle, Body(l), i);
  }

  /** The first comment that holds the needle is replaced and nothing else; a new comment is added only if none does. */
  lemma UpsertReplacesFirst(comments: seq<string>, needle: string, body: string, i: nat)
    requires i < |comments|
    ensures var after := Upsert(comments, needle, body);
            if forall j :: 0 <= j < |comments| ==> !Contains(comments[j], needle) then after == comments + [body]
            else |after| == |comments|
    ensures var after := Upsert(comments, needle, body);
            var first := Contains(comments[i], needle) && forall j :: 0 <= j < i ==> !Contains(comments[j], needle);
            i < |after| && after[i] == if first then body else comments[i]
  {
    var found := FirstHolding(comments, needle);
    if found.Some? && i < found.value {
      assert !Contains(comments[i], needle);
    }
  }

  /** The claim reaches its comment request, and that takes effect. */
  ghost predicate Writes(issue: Issue, req: ClaimRequest, now: string, fault: Fault) {
    IsEligible(issue, req) && !IsHeldByOther(issue, req.lease.runId, now) && !fault.CommentRefused?
  }

  lemma EffectOnComments(issue: Issue, req: ClaimRequest, now: string, fault: Fault)
    ensures ClaimEffect(issue, req, now, fault).0.comments
         == if Writes(issue, req, now, fault) then Upsert(issue.comments, SearchMarker(req.lease.runId), Body(req.lease))
            else issue.comments
  {
    ClaimLeaves(issue, req, now, fault);
  }

  /**
    Exactly when a claim overwrites the comment of another run: the claim is not refused, no other run holds an
    unexpired lease, the comment request takes effect, and that comment is the first claim of a run whose id begins
    with the claiming run's id.  The overwritten lease has then expired.
  */
  lemma OverwritesIff(trace: seq<State>, steps: seq<Step>, t: nat, i: nat)
    requires IsHistory(trace, steps) && t < |steps| && steps[t].Claim? && i < |trace[t].issue.comments|
    requires var m := ParsedMarker(trace[t].issue.comments[i]); m.Some? && m.value.runId != steps[t].req.lease.runId
    ensures var issue, req, now, after := trace[t].issue, steps[t].req, trace[t].now, trace[t + 1].issue.comments;
            && i < |after|
            && (after[i] != issue.comments[i] <==>
                  Writes(issue, req, now, steps[t].fault) && IsFirstUnder(issue.comments, req.lease.runId, i))
            && (after[i] != issue.comments[i] ==>
                  after[i] == Body(req.lease) && !IsActive(ParsedMarker(issue.comments[i]).value, now))
  {
    var issue, req, now, fault := trace[t].issue, steps[t].req, trace[t].now, steps[t].fault;
    HistoryKeepsOrder(trace, steps, t);
    EffectOnComments(issue, req, now, fault);
    UpsertReplacesIff(issue.comments, req.lease, i);
    ClaimRoundTrip(req.lease);
    ParsedIsMarker(issue.comments, i);
  }

  // ---- What a claim comment proves ----

  /** Step `u` is a claim with this lease whose comment was written. */
  ghost predicate WroteClaim(trace: seq<State>, steps: seq<Step>, u: nat, l: Lease) {
    && u < |steps| && u < |trace| && steps[u].Claim? && steps[u].req.lease == l
    && Writes(trace[u].issue, steps[u].req, trace[u].now, steps[u].fault)
  }

  /** A step adds no claim comment but its own. */
  lemma StepAddsOwnClaim(trace: seq<State>, steps: seq<Step>, t: nat, i: nat, l: Lease)
    requires IsHistory(trace, steps) && t < |steps| && i < |trace[t + 1].issue.comments|
    requires IsClaimComment(trace[t + 1].issue.comments[i], l)
    ensures trace[t + 1].issue.comments[i] in trace[t].issue.comments || WroteClaim(trace, steps, t, l)
  {
    var s, after := trace[t], trace[t + 1].issue.comments;
    HistoryStep(trace, steps, t);
    BodyIsNotPlain(l);
    match steps[t]
    case Claim(req, fault) =>
      EffectOnComments(s.issue, req, s.now, fault);
      if Writes(s.issue, req, s.now, fault) {
        UpsertAt(s.issue.comments, SearchMarker(req.lease.runId), Body(req.lease), i);
        if after[i] == Body(req.lease) {
          BodiesNameTheirLease(l, req.lease);
        }
      }
    case DeleteComment(p) =>
      var was := LeftComment(s.issue.comments, p, i);
    case _ =>
  }

  lemma {:induction false} ClaimWasWritten(trace: seq<State>, steps: seq<Step>, t: nat, i: nat, l: Lease) returns (u: nat)
    requires IsHistory(trace, steps) && t < |trace| && i < |trace[t].issue.comments|
    requires IsClaimComment(trace[t].issue.comments[i], l)
    ensures u < t && WroteClaim(trace, steps, u, l)
  {
    if t == 0 {
      BodyIsNotPlain(l);
    } else {
      StepAddsOwnClaim(trace, steps, t - 1, i, l);
      if WroteClaim(trace, steps, t - 1, l) {
        u := t - 1;
      } else {
        var j :| 0 <= j < |trace[t - 1].issue.comments| && trace[t - 1].issue.comments[j] == trace[t].issue.comments[i];
        u := ClaimWasWritten(trace, steps, t - 1, j, l);
      }
    }
  }

  /**
    Every claim comment that is ever found was written by an earlier claim with exactly its lease, at a time when the
    issue was open, carried no label the claim ignores, was no pull request unless the claim allows them, and no other
    run held an unexpired lease.
  */
  lemma ClaimCommentsWereAllowed(trace: seq<State>, steps: seq<Step>, t: nat, i: nat, l: Lease) returns (u: nat)
    requires IsHistory(trace, steps) && t < |trace| && i < |trace[t].issue.comments|
    requires IsClaimComment(trace[t].issue.comments[i], l)
    ensures u < t && steps[u].Claim? && steps[u].req.lease == l && steps[u].fault != CommentRefused
    ensures var issue, req := trace[u].issue, steps[u].req;
            && issue.open && (issue.isPullRequest ==> req.allowPullRequest)
            && (forall name :: name in req.ignoreLabels ==> name !in issue.labels)
            && forall m :: m in MarkersOf(issue.comments) ==> m.runId == l.runId || !Less(trace[u].now, m.expiresAt)
  {
    u := ClaimWasWritten(trace, steps, t, i, l);
  }

  /** So was every claim that a history accepts. */
  lemma AcceptedClaimsWereAllowed(trace: seq<State>, steps: seq<Step>, t: nat)
    requires IsHistory(trace, steps) && t < |steps| && steps[t].Claim?
    requires var r := ClaimEffect(trace[t].issue, steps[t].req, trace[t].now, steps[t].fault).1; r.Ok? && r.value.accepted
    ensures var issue, req := trace[t].issue, steps[t].req;
            && issue.open && (issue.isPullRequest ==> req.allowPullRequest)
            && (forall name :: name in req.ignoreLabels ==> name !in issue.labels)
            && (forall m :: m in MarkersOf(issue.comments) ==> m.runId == req.lease.runId || !Less(trace[t].now, m.expiresAt))
            && ShowsClaim(trace[t + 1].issue, req)
  {
    HistoryStep(trace, steps, t);
    AcceptedIff(trace[t].issue, steps[t].req, trace[t].now, steps[t].fault);
  }
}
