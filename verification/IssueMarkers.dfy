/**
  The recovery marker that `create_issue` appends to an issue body, and the bodies a search for it finds.
  `marker_token` drops every character outside a small alphabet, so distinct ledger keys can share a marker, and a
  drafted body can quote the marker of another key; this module says exactly when.
*/
module IssueMarkers {
  import opened IssueLedger
  import opened Sequences
  import opened Text
  import opened Wrappers

  predicate IsTokenChar(c: char) {
    'a' <= c <= 'z' || 'A' <= c <= 'Z' || '0' <= c <= '9' || c == '-' || c == '_' || c == ':' || c == '.'
  }

  function MarkerToken(value: string): string {
    if value == "" then ""
    else (if IsTokenChar(value[0]) then [value[0]] else "") + MarkerToken(value[1..])
  }

  /** Three values between four pieces of fixed text. */
  function ThreeFields(p: string, a: string, q: string, b: string, r: string, c: string, end: string): string {
    p + a + (q + b + (r + c + end))
  }

  /** The three sanitised tokens of a marker. */
  datatype MarkerTokens = MarkerTokens(issueSet: string, proposal: string, digest: string)

  function TokensOf(issueSet: string, proposal: string, digest: string): MarkerTokens {
    MarkerTokens(MarkerToken(issueSet), MarkerToken(proposal), MarkerToken(digest))
  }

  function RenderMarker(t: MarkerTokens): string {
    ThreeFields("<!-- agentactr:issue-proposal issue_set_id=", t.issueSet,
                " proposal_id=", t.proposal, " digest=", t.digest, " -->")
  }

  function Marker(k: Key): string {
    RenderMarker(TokensOf(k.issueSet, k.proposal, k.digest))
  }

  lemma {:induction false} TokenIsSafe(value: string)
    ensures forall c :: c in MarkerToken(value) ==> IsTokenChar(c)
  {
    if value != "" {
      TokenIsSafe(value[1..]);
    }
  }

  /** With `TokenConcat` this decides every token: safe characters are kept and every other one is dropped. */
  lemma TokenOfCharacter(c: char)
    ensures MarkerToken([c]) == if 'a' <= c <= 'z' || 'A' <= c <= 'Z' || '0' <= c <= '9' || c in {'-', '_', ':', '.'} then [c] else ""
  {
    assert [c][1..] == "";
  }

  /** A string already in the alphabet is kept whole. */
  lemma {:induction false} TokenKeepsSafeText(value: string)
    requires forall c :: c in value ==> IsTokenChar(c)
    ensures MarkerToken(value) == value
  {
    if value != "" {
      assert forall c :: c in value[1..] ==> c in value;
      TokenKeepsSafeText(value[1..]);
    }
  }

  /** Two concatenations that agree and whose second parts open with the first space agree piece by piece. */
  lemma CutAtSpace(head: string, tail: string, head': string, tail': string)
    requires ' ' !in head && ' ' !in head'
    requires tail != "" && tail[0] == ' ' && tail' != "" && tail'[0] == ' '
    requires head + tail == head' + tail'
    ensures head == head' && tail == tail'
  {
    var whole := head + tail;
    assert whole[|head|] == ' ' && whole[|head'|] == ' ';
    assert forall i :: 0 <= i < |head| ==> whole[i] == head[i];
    assert forall i :: 0 <= i < |head'| ==> whole[i] == head'[i];
    assert |head| == |head'|;
    assert head == whole[..|head|] && head' == whole[..|head'|];
    assert tail == whole[|head|..] && tail' == whole[|head'|..];
  }

  lemma DropCommonPrefix(prefix: string, rest: string, rest': string)
    requires prefix + rest == prefix + rest'
    ensures rest == rest'
  {
    assert rest == (prefix + rest)[|prefix|..] && rest' == (prefix + rest')[|prefix|..];
  }

  /** One `prefix value` pair read off the front of two equal texts. */
  lemma CutField(prefix: string, value: string, rest: string, value': string, rest': string)
    requires ' ' !in value && ' ' !in value'
    requires rest != "" && rest[0] == ' ' && rest' != "" && rest'[0] == ' '
    requires prefix + value + rest == prefix + value' + rest'
    ensures value == value' && rest == rest'
  {
    assert prefix + value + rest == prefix + (value + rest);
    assert prefix + value' + rest' == prefix + (value' + rest');
    DropCommonPrefix(prefix, value + rest, value' + rest');
    CutAtSpace(value, rest, value', rest');
  }

  lemma ThreeFieldsInjective(p: string, q: string, r: string, end: string,
                             a: string, b: string, c: string, a': string, b': string, c': string)
    requires ' ' !in a && ' ' !in b && ' ' !in c && ' ' !in a' && ' ' !in b' && ' ' !in c'
    requires q != "" && q[0] == ' ' && r != "" && r[0] == ' ' && end != "" && end[0] == ' '
    requires ThreeFields(p, a, q, b, r, c, end) == ThreeFields(p, a', q, b', r, c', end)
    ensures a == a' && b == b' && c == c'
  {
    CutField(p, a, q + b + (r + c + end), a', q + b' + (r + c' + end));
    CutField(q, b, r + c + end, b', r + c' + end);
    CutField(r, c, end, c', end);
  }

  ghost predicate HasNoSpace(t: MarkerTokens) {
    ' ' !in t.issueSet && ' ' !in t.proposal && ' ' !in t.digest
  }

  lemma RenderInjective(t: MarkerTokens, t': MarkerTokens)
    requires HasNoSpace(t) && HasNoSpace(t')
    ensures RenderMarker(t) == RenderMarker(t') ==> t == t'
  {
    if RenderMarker(t) == RenderMarker(t') {
      ThreeFieldsInjective("<!-- agentactr:issue-proposal issue_set_id=", " proposal_id=", " digest=", " -->",
                           t.issueSet, t.proposal, t.digest, t'.issueSet, t'.proposal, t'.digest);
    }
  }

  lemma TokensHaveNoSpace(issueSet: string, proposal: string, digest: string)
    ensures HasNoSpace(TokensOf(issueSet, proposal, digest))
  {
    TokenIsSafe(issueSet);
    TokenIsSafe(proposal);
    TokenIsSafe(digest);
  }

  /** Two keys have the same marker text exactly when their sanitised tokens agree one by one. */
  lemma MarkersEqualIff(k: Key, k': Key)
    ensures Marker(k) == Marker(k')
       <==> TokensOf(k.issueSet, k.proposal, k.digest) == TokensOf(k'.issueSet, k'.proposal, k'.digest)
  {
    TokensHaveNoSpace(k.issueSet, k.proposal, k.digest);
    TokensHaveNoSpace(k'.issueSet, k'.proposal, k'.digest);
    RenderInjective(TokensOf(k.issueSet, k.proposal, k.digest), TokensOf(k'.issueSet, k'.proposal, k'.digest));
  }

  // ---- Which keys share a marker ----

  /** `validate_run_id`, which every issue set id passes before its proposals are loaded. */
  predicate IsRunId(s: string) {
    s != "" && s != "." && s != ".."
    && forall c :: c in s ==> 'a' <= c <= 'z' || 'A' <= c <= 'Z' || '0' <= c <= '9' || c == '.' || c == '_' || c == '-'
  }

  /** Sanitising never confuses two accepted issue sets. */
  lemma IssueSetsAreToldApart(k: Key, k': Key)
    requires IsRunId(k.issueSet) && IsRunId(k'.issueSet) && Marker(k) == Marker(k')
    ensures k.issueSet == k'.issueSet
  {
    MarkersEqualIff(k, k');
    TokenKeepsSafeText(k.issueSet);
    TokenKeepsSafeText(k'.issueSet);
  }

  lemma {:induction false} TokenConcat(a: string, b: string)
    ensures MarkerToken(a + b) == MarkerToken(a) + MarkerToken(b)
  {
    if a == "" {
      assert a + b == b;
    } else {
      var first := if IsTokenChar(a[0]) then [a[0]] else "";
      assert (a + b)[1..] == a[1..] + b;
      TokenConcat(a[1..], b);
      Reassociate(first, MarkerToken(a[1..]), MarkerToken(b));
    }
  }

  /**
    Proposal ids come from a file and may hold any character: two of one issue set that differ in a dropped
    character alone have one marker but two rows.
  */
  lemma ProposalsCollide(k: Key, before: string, dropped: char, after: string)
    requires !IsTokenChar(dropped) && k.proposal == before + after
    ensures var k' := k.(proposal := before + [dropped] + after);
            Marker(k) == Marker(k') && PrimaryKeyOf(k) != PrimaryKeyOf(k')
  {
    var k' := k.(proposal := before + [dropped] + after);
    TokenConcat(before, after);
    TokenConcat(before + [dropped], after);
    TokenConcat(before, [dropped]);
    assert [dropped][1..] == "";
    assert MarkerToken([dropped]) == "";
    assert MarkerToken(before) + "" == MarkerToken(before);
    MarkersEqualIff(k, k');
    assert |k'.proposal| == |k.proposal| + 1;
  }

  /** Two proposals of one accepted issue set, with one content digest, share a marker but not a row. */
  lemma StrippingCollides(issueSet: string, repo: string, parent: Option<nat>, digest: string)
    requires IsRunId(issueSet)
    ensures var k, k' := Key(issueSet, "p1", repo, parent, digest), Key(issueSet, "p/1", repo, parent, digest);
            Marker(k) == Marker(k') && PrimaryKeyOf(k) != PrimaryKeyOf(k')
  {
    assert "p" + "1" == "p1" && "p" + ['/'] + "1" == "p/1";
    ProposalsCollide(Key(issueSet, "p1", repo, parent, digest), "p", '/', "1");
  }

  // ---- Which issues a search finds ----

  /** What a submission works on: its ledger key and the drafted body. */
  datatype Proposal = Proposal(k: Key, body: string)

  /** The body `create_issue` posts. */
  function IssueBody(p: Proposal): string {
    TrimEnd(p.body) + ("\n\n" + Marker(p.k))
  }

  /** The issue created for `p` is a candidate when the issue of `k` is searched. */
  predicate IsCandidate(p: Proposal, k: Key) {
    Contains(IssueBody(p), Marker(k))
  }

  /** One line that opens with its only `<` and closes with its only `>`. */
  ghost predicate IsTag(s: string) {
    s != "" && '\n' !in s
    && (forall i :: 0 <= i < |s| ==> (s[i] == '<' <==> i == 0))
    && (forall i :: 0 <= i < |s| ==> (s[i] == '>' <==> i == |s| - 1))
  }

  ghost predicate HasNoTagChar(s: string) {
    '<' !in s && '>' !in s && '\n' !in s
  }

  lemma ThreeFieldsIsTag(p: string, a: string, q: string, b: string, r: string, c: string, end: string)
    requires HasNoTagChar(p) && HasNoTagChar(a) && HasNoTagChar(q) && HasNoTagChar(b) && HasNoTagChar(r) && HasNoTagChar(c)
    requires HasNoTagChar(end)
    ensures IsTag(ThreeFields("<" + p, a, q, b, r, c, end + ">"))
  {
    var inner := p + a + (q + b + (r + c + end));
    assert HasNoTagChar(inner);
    assert ThreeFields("<" + p, a, q, b, r, c, end + ">") == "<" + inner + ">";
    TagOf(inner);
  }

  lemma TagOf(inner: string)
    requires HasNoTagChar(inner)
    ensures IsTag("<" + inner + ">")
  {
    var s := "<" + inner + ">";
    assert forall i :: 1 <= i < |s| - 1 ==> s[i] == inner[i - 1] && s[i] in inner;
  }

  lemma OpeningHasNoTagChar()
    ensures HasNoTagChar("!-- agentactr:issue-proposal issue_set_id=")
  {
    var a, b := "!-- agentactr:issue-", "proposal issue_set_id=";
    assert HasNoTagChar(a);
    assert HasNoTagChar(b);
    assert a + b == "!-- agentactr:issue-proposal issue_set_id=";
  }

  lemma FixedTextsHaveNoTagChar()
    ensures HasNoTagChar(" proposal_id=") && HasNoTagChar(" digest=") && HasNoTagChar(" --")
  {
  }

  lemma RenderIsTag(t: MarkerTokens)
    requires HasNoTagChar(t.issueSet) && HasNoTagChar(t.proposal) && HasNoTagChar(t.digest)
    ensures IsTag(RenderMarker(t))
  {
    OpeningHasNoTagChar();
    FixedTextsHaveNoTagChar();
    assert "<" + "!-- agentactr:issue-proposal issue_set_id=" == "<!-- agentactr:issue-proposal issue_set_id=";
    assert " --" + ">" == " -->";
    ThreeFieldsIsTag("!-- agentactr:issue-proposal issue_set_id=", t.issueSet, " proposal_id=", t.proposal, " digest=",
                     t.digest, " --");
  }

  lemma MarkerIsTag(k: Key)
    ensures IsTag(Marker(k))
  {
    TokenIsSafe(k.issueSet);
    TokenIsSafe(k.proposal);
    TokenIsSafe(k.digest);
    RenderIsTag(TokensOf(k.issueSet, k.proposal, k.digest));
  }

  /** What occurs across the first of two newlines holds a newline. */
  lemma NewlineInside(text: string, rest: string, m: string, i: nat)
    requires m != "" && OccursAt(text + ("\n\n" + rest), m, i) && i <= |text| + 1 && i + |m| > |text|
    ensures '\n' in m
  {
    var s, n := text + ("\n\n" + rest), |text|;
    assert s[n] == '\n' && s[n + 1] == '\n';
    var j := if i <= n then n - i else 0;
    assert s[i..i + |m|][j] == s[i + j];
    assert m[j] in m;
  }

  lemma TagAtTag(tag: string, m: string, i: nat)
    requires IsTag(tag) && IsTag(m) && OccursAt(tag, m, i)
    ensures tag == m
  {
    assert forall j :: 0 <= j < |m| ==> tag[i + j] == tag[i..i + |m|][j] == m[j];
    assert m[0] == '<' && m[|m| - 1] == '>';
    assert tag[..|m|] == tag;
  }

  /** A tag that occurs in text, a blank line and another tag lies in the text or is the other tag. */
  lemma TagInJoined(text: string, tag: string, m: string, i: nat)
    requires IsTag(tag) && IsTag(m) && OccursAt(text + ("\n\n" + tag), m, i)
    ensures OccursAt(text, m, i) || tag == m
  {
    var gap := "\n\n";
    if i + |m| <= |text| {
      assert text[i..i + |m|] == (text + (gap + tag))[i..i + |m|];
    } else if i <= |text| + 1 {
      NewlineInside(text, tag, m, i);
    } else {
      OccursAfter(text, gap + tag, m, i);
      OccursAfter(gap, tag, m, i - |text|);
      TagAtTag(tag, m, i - |text| - 2);
    }
  }

  lemma TagIsBeforeSpace(body: string, t: string, m: string, i: nat)
    requires IsTag(m) && OccursAt(body, m, i) && t <= body && forall j :: |t| <= j < |body| ==> IsWhitespace(body[j])
    ensures OccursAt(t, m, i)
  {
    assert body[i + |m| - 1] == body[i..i + |m|][|m| - 1] == '>';
    assert t[i..i + |m|] == body[i..i + |m|];
  }

  lemma TagInTrimmed(body: string, m: string)
    requires IsTag(m)
    ensures Contains(TrimEnd(body), m) <==> Contains(body, m)
  {
    var t := TrimEnd(body);
    assert t + body[|t|..] == body;
    if Contains(body, m) {
      TagIsBeforeSpace(body, t, m, Find(body, m).value);
    }
    if Contains(t, m) {
      OccursInFront(t, body[|t|..], m, Find(t, m).value);
    }
  }

  lemma JoinedContainsIff(text: string, tag: string, m: string)
    requires IsTag(tag) && IsTag(m)
    ensures Contains(text + ("\n\n" + tag), m) <==> Contains(text, m) || tag == m
  {
    var gap := "\n\n";
    if Contains(text + (gap + tag), m) {
      TagInJoined(text, tag, m, Find(text + (gap + tag), m).value);
    }
    if Contains(text, m) {
      OccursInFront(text, gap + tag, m, Find(text, m).value);
    }
    if tag == m {
      assert OccursAt(tag, m, 0);
      OccursAfter(gap, tag, m, 2);
      OccursAfter(text, gap + tag, m, |text| + 2);
    }
  }

  /** The marker of `k` shows in the issue of `p`: it is also the marker of `p`, or the draft of `p` quotes it. */
  predicate ShowsMarker(p: Proposal, k: Key) {
    Marker(p.k) == Marker(k) || Contains(p.body, Marker(k))
  }

  /**
    A posted issue carries the marker of `k` exactly if its own marker is the same or its drafted body quotes it: no
    marker can arise across the blank line, or inside another marker.
  */
  lemma CandidateIff(p: Proposal, k: Key)
    ensures IsCandidate(p, k) <==> ShowsMarker(p, k)
  {
    MarkerIsTag(p.k);
    MarkerIsTag(k);
    JoinedContainsIff(TrimEnd(p.body), Marker(p.k), Marker(k));
    TagInTrimmed(p.body, Marker(k));
  }
}
