/** The claim comment of a GitHub lease: how it is printed, searched for and read back. */
module ClaimMarkers {
  import opened Text
  import opened Wrappers

  const INTRO := "<!-- agentactr:lifecycle-claim "
  const TAIL_INTRO := "\nagentactr claim lease for run `"

  /** The fields a claim writes into its comment. */
  datatype Lease = Lease(runId: string, ownerId: string, fencingToken: string, expiresAt: string)

  datatype ClaimMarker = ClaimMarker(schemaVersion: string, runId: string, ownerId: string, fencingToken: string, expiresAt: string)

  /** The attribute names of the marker, in the order in which they are printed. */
  datatype FieldName = SchemaVersion | RunId | OwnerId | FencingToken | ExpiresAt

  function NameText(f: FieldName): string {
    match f
    case SchemaVersion => "schema_version"
    case RunId => "run_id"
    case OwnerId => "owner_id"
    case FencingToken => "fencing_token"
    case ExpiresAt => "expires_at"
  }

  function Field(f: FieldName, value: string): string {
    NameText(f) + "=" + value
  }

  function Parts(l: Lease): seq<string> {
    [Field(SchemaVersion, "1"), Field(RunId, l.runId), Field(OwnerId, l.ownerId),
     Field(FencingToken, l.fencingToken), Field(ExpiresAt, l.expiresAt)]
  }

  function Tail(l: Lease): string {
    TAIL_INTRO + l.runId + "`."
  }

  /** `github_claim_marker_body`. */
  function Body(l: Lease): string {
    INTRO + JoinSpaced(Parts(l)) + ("-->" + Tail(l))
  }

  /** `github_claim_marker`: the text by which a later claim finds its comment again. */
  function SearchMarker(runId: string): string {
    INTRO + (Field(SchemaVersion, "1") + " " + Field(RunId, runId))
  }

  /** The parser's five variables. */
  datatype Slots = Slots(schemaVersion: Option<string>, runId: Option<string>, ownerId: Option<string>,
                         fencingToken: Option<string>, expiresAt: Option<string>)

  const UNSET := Slots(None, None, None, None, None)

  function Assign(slots: Slots, name: string, value: string): Slots {
    if name == NameText(SchemaVersion) then slots.(schemaVersion := Some(value))
    else if name == NameText(RunId) then slots.(runId := Some(value))
    else if name == NameText(OwnerId) then slots.(ownerId := Some(value))
    else if name == NameText(FencingToken) then slots.(fencingToken := Some(value))
    else if name == NameText(ExpiresAt) then slots.(expiresAt := Some(value))
    else slots
  }

  function ReadPart(slots: Slots, part: string): Slots {
    match SplitOnce(part, '=')
    case None => slots
    case Some((name, value)) => Assign(slots, name, value)
  }

  function ReadParts(parts: seq<string>): Slots {
    if parts == [] then UNSET else ReadPart(ReadParts(parts[..|parts| - 1]), parts[|parts| - 1])
  }

  function Complete(slots: Slots): Option<ClaimMarker> {
    if slots.schemaVersion.Some? && slots.runId.Some? && slots.ownerId.Some? && slots.fencingToken.Some? && slots.expiresAt.Some?
    then Some(ClaimMarker(slots.schemaVersion.value, slots.runId.value, slots.ownerId.value,
                          slots.fencingToken.value, slots.expiresAt.value))
    else None
  }

  /** The text between the marker's opening and the first `-->` after it. */
  function MarkerText(body: string): Option<string> {
    match Find(body, INTRO)
    case None => None
    case Some(start) =>
      var rest := body[start + |INTRO|..];
      match Find(rest, "-->")
      case None => None
      case Some(end) => Some(rest[..end])
  }

  function ParsedMarker(body: string): Option<ClaimMarker> {
    match MarkerText(body)
    case None => None
    case Some(text) => Complete(ReadParts(SplitWhitespace(text)))
  }

  lemma ReadPartsNext(parts: seq<string>, i: nat)
    requires i < |parts|
    ensures ReadParts(parts[..i + 1]) == ReadPart(ReadParts(parts[..i]), parts[i])
  {
    assert parts[..i + 1][..i] == parts[..i];
  }

  /** The parser's loop over the attributes. */
  method ReadAttributes(text: string) returns (slots: Slots)
    ensures slots == ReadParts(SplitWhitespace(text))
  {
    var parts := SplitWhitespace(text);
    slots := UNSET;
    for i := 0 to |parts|
      invariant slots == ReadParts(parts[..i])
    {
      ReadPartsNext(parts, i);
      slots := ReadPart(slots, parts[i]);
    }
    assert parts[..|parts|] == parts;
  }

  /** `github_claim_marker_from_body`. */
  method ParseClaimMarker(body: string) returns (marker: Option<ClaimMarker>)
    ensures marker == ParsedMarker(body)
  {
    var start := Find(body, INTRO);
    if start.None? {
      return None;
    }
    var rest := body[start.value + |INTRO|..];
    var end := Find(rest, "-->");
    if end.None? {
      return None;
    }
    var slots := ReadAttributes(rest[..end.value]);
    marker := Complete(slots);
  }

  // ---- Reading back what was printed ----

  predicate IsCleanField(s: string) {
    (forall c :: c in s ==> !IsWhitespace(c)) && !Contains(s, "-->")
  }

  predicate IsClean(l: Lease) {
    IsCleanField(l.runId) && IsCleanField(l.ownerId) && IsCleanField(l.fencingToken) && IsCleanField(l.expiresAt)
  }

  predicate IsCleanPart(s: string) {
    IsWord(s) && !Contains(s, "-->")
  }

  lemma NamesAreWords(f: FieldName)
    ensures IsWord(NameText(f))
  {
  }

  lemma NamesArePlain(f: FieldName)
    ensures IsWord(NameText(f)) && '-' !in NameText(f) && '=' !in NameText(f)
  {
    NamesAreWords(f);
    NameHasNone(f, '-');
    NameHasNone(f, '=');
  }

  lemma NameHasNone(f: FieldName, c: char)
    requires c == '-' || c == '='
    ensures c !in NameText(f)
  {
  }

  /** `name=` in front of a clean value leaves a clean word. */
  lemma FieldIsClean(f: FieldName, value: string)
    requires IsCleanField(value)
    ensures IsCleanPart(Field(f, value))
  {
    NamesArePlain(f);
    NamedValueIsClean(NameText(f), value);
  }

  lemma NamedValueIsClean(name: string, value: string)
    requires IsWord(name) && '-' !in name && IsCleanField(value)
    ensures IsCleanPart(name + "=" + value)
  {
    var s := name + "=" + value;
    forall i | 0 <= i <= |s|
      ensures !OccursAt(s, "-->", i)
    {
      if OccursAt(s, "-->", i) {
        assert s[i] == s[i..i + 3][0] == '-';
        var k := i - |name| - 1;
        assert k >= 0;
        assert value[k..k + 3] == s[i..i + 3];
        assert OccursAt(value, "-->", k);
      }
    }
  }

  lemma VersionIsClean()
    ensures IsCleanField("1")
  {
  }

  lemma PartsAreClean(l: Lease)
    requires IsClean(l)
    ensures forall w :: w in Parts(l) ==> IsCleanPart(w)
  {
    VersionIsClean();
    FieldIsClean(SchemaVersion, "1");
    FieldIsClean(RunId, l.runId);
    FieldIsClean(OwnerId, l.ownerId);
    FieldIsClean(FencingToken, l.fencingToken);
    FieldIsClean(ExpiresAt, l.expiresAt);
  }

  /** A `-->` that starts before the space after a word lies within the word. */
  lemma OccursWithin(w: string, rest: string, i: nat)
    requires i <= |w| && OccursAt(w + " " + rest, "-->", i)
    ensures OccursAt(w, "-->", i)
  {
    var s, arrow := w + " " + rest, "-->";
    assert forall k :: 0 <= k < 3 ==> s[i + k] == s[i..i + 3][k] == arrow[k] != ' ';
    assert s[|w|] == ' ';
    assert i + 0 != |w| && i + 1 != |w| && i + 2 != |w|;
    assert w[i..i + 3] == s[i..i + 3];
  }

  /** The first `-->` after clean words is the one that closes the marker. */
  lemma {:induction false} ClosingIsFirst(words: seq<string>, tail: string, i: nat)
    requires forall w :: w in words ==> IsCleanPart(w)
    requires i < |JoinSpaced(words)|
    ensures !OccursAt(JoinSpaced(words) + tail, "-->", i)
  {
    var s := JoinSpaced(words) + tail;
    var w, rest := words[0], JoinSpaced(words[1..]) + tail;
    assert s == w + " " + rest && IsCleanPart(w);
    if i > |w| {
      ClosingIsFirst(words[1..], tail, i - |w| - 1);
      OccursAfter(w + " ", rest, "-->", i);
    } else if OccursAt(s, "-->", i) {
      OccursWithin(w, rest, i);
    }
  }

  lemma MarkerTextIs(l: Lease)
    requires IsClean(l)
    ensures MarkerText(Body(l)) == Some(JoinSpaced(Parts(l)))
  {
    var joined, tail := JoinSpaced(Parts(l)), "-->" + Tail(l);
    PartsAreClean(l);
    CutAfterIntro(INTRO, Parts(l), Tail(l));
  }

  lemma CutAfterIntro(intro: string, words: seq<string>, tail: string)
    requires forall w :: w in words ==> IsCleanPart(w)
    ensures var body := intro + JoinSpaced(words) + ("-->" + tail);
            && Find(body, intro) == Some(0)
            && Find(body[|intro|..], "-->") == Some(|JoinSpaced(words)|)
            && body[|intro|..][..|JoinSpaced(words)|] == JoinSpaced(words)
  {
    var joined := JoinSpaced(words);
    var body := intro + joined + ("-->" + tail);
    assert intro <= body && OccursAt(body, intro, 0);
    FindIs(body, intro, 0);
    var rest := body[|intro|..];
    assert rest == joined + ("-->" + tail);
    assert rest[|joined|..|joined| + 3] == "-->";
    forall i: nat | i < |joined|
      ensures !OccursAt(rest, "-->", i)
    {
      ClosingIsFirst(words, "-->" + tail, i);
    }
    FindIs(rest, "-->", |joined|);
  }

  function Put(slots: Slots, f: FieldName, value: string): Slots {
    match f
    case SchemaVersion => slots.(schemaVersion := Some(value))
    case RunId => slots.(runId := Some(value))
    case OwnerId => slots.(ownerId := Some(value))
    case FencingToken => slots.(fencingToken := Some(value))
    case ExpiresAt => slots.(expiresAt := Some(value))
  }

  lemma NamesDiffer(f: FieldName, g: FieldName)
    requires f != g
    ensures NameText(f) != NameText(g)
  {
  }

  lemma AssignIsPut(slots: Slots, f: FieldName, value: string)
    ensures Assign(slots, NameText(f), value) == Put(slots, f, value)
  {
    forall g | g != f
      ensures NameText(g) != NameText(f)
    {
      NamesDiffer(f, g);
    }
  }

  lemma PartIsPut(slots: Slots, f: FieldName, value: string)
    ensures ReadPart(slots, Field(f, value)) == Put(slots, f, value)
  {
    NamesArePlain(f);
    SplitOnceIs(NameText(f), '=', value);
    assert Field(f, value) == NameText(f) + ['='] + value;
    AssignIsPut(slots, f, value);
  }

  lemma {:induction false} ReadSnoc(parts: seq<string>, part: string)
    ensures ReadParts(parts + [part]) == ReadPart(ReadParts(parts), part)
  {
    assert (parts + [part])[..|parts|] == parts;
  }

  // ---- What the parser makes of any attributes ----

  /** The attributes as they are printed. */
  lemma FieldTexts(value: string)
    ensures Field(SchemaVersion, value) == "schema_version=" + value && Field(RunId, value) == "run_id=" + value
    ensures Field(OwnerId, value) == "owner_id=" + value && Field(FencingToken, value) == "fencing_token=" + value
    ensures Field(ExpiresAt, value) == "expires_at=" + value
  {
    assert "schema_version" + "=" == "schema_version=" && "run_id" + "=" == "run_id=" && "owner_id" + "=" == "owner_id=";
    assert "fencing_token" + "=" == "fencing_token=" && "expires_at" + "=" == "expires_at=";
  }

  function SlotOf(slots: Slots, f: FieldName): Option<string> {
    match f
    case SchemaVersion => slots.schemaVersion
    case RunId => slots.runId
    case OwnerId => slots.ownerId
    case FencingToken => slots.fencingToken
    case ExpiresAt => slots.expiresAt
  }

  predicate IsOf(part: string, f: FieldName) {
    NameText(f) + "=" <= part
  }

  lemma NamedPart(part: string, f: FieldName) returns (value: string)
    requires IsOf(part, f)
    ensures part == Field(f, value)
  {
    value := part[|NameText(f) + "="|..];
  }

  /** A part that does not begin with the attribute's name and `=` leaves the attribute alone. */
  lemma OtherPartLeaves(slots: Slots, part: string, f: FieldName)
    requires !IsOf(part, f)
    ensures SlotOf(ReadPart(slots, part), f) == SlotOf(slots, f)
  {
    match SplitOnce(part, '=')
    case None =>
    case Some((name, value)) =>
      assert part == (name + "=") + value;
      assert name != NameText(f);
      AssignLeaves(slots, name, value, f);
  }

  lemma AssignLeaves(slots: Slots, name: string, value: string, f: FieldName)
    requires name != NameText(f)
    ensures SlotOf(Assign(slots, name, value), f) == SlotOf(slots, f)
  {
  }

  /** Whatever else is there, and in whatever order, the last part of an attribute gives its value. */
  lemma {:induction false} LastPartDecides(parts: seq<string>, f: FieldName, i: nat, value: string)
    requires i < |parts| && parts[i] == Field(f, value) && forall j :: i < j < |parts| ==> !IsOf(parts[j], f)
    ensures SlotOf(ReadParts(parts), f) == Some(value)
  {
    var before, last := parts[..|parts| - 1], parts[|parts| - 1];
    if i == |parts| - 1 {
      PartIsPut(ReadParts(before), f, value);
    } else {
      LastPartDecides(before, f, i, value);
      OtherPartLeaves(ReadParts(before), last, f);
    }
  }

  predicate HasPart(parts: seq<string>, f: FieldName) {
    exists i :: 0 <= i < |parts| && IsOf(parts[i], f)
  }

  predicate HasAllParts(parts: seq<string>) {
    forall f: FieldName :: HasPart(parts, f)
  }

  lemma CompleteIs(slots: Slots)
    ensures Complete(slots).Some? <==> forall f: FieldName :: SlotOf(slots, f).Some?
    ensures Complete(slots).Some? ==>
              var m := Complete(slots).value;
              && m.schemaVersion == SlotOf(slots, SchemaVersion).value && m.runId == SlotOf(slots, RunId).value
              && m.ownerId == SlotOf(slots, OwnerId).value && m.fencingToken == SlotOf(slots, FencingToken).value
              && m.expiresAt == SlotOf(slots, ExpiresAt).value
  {
    if forall f: FieldName :: SlotOf(slots, f).Some? {
      assert SlotOf(slots, SchemaVersion).Some? && SlotOf(slots, RunId).Some? && SlotOf(slots, OwnerId).Some?;
      assert SlotOf(slots, FencingToken).Some? && SlotOf(slots, ExpiresAt).Some?;
    }
  }

  /** A comment is a claim exactly when it holds an opening, a closing after it, and each of the five attributes in between. */
  lemma ParsedIff(body: string)
    ensures ParsedMarker(body).Some? <==>
              MarkerText(body).Some? && HasAllParts(SplitWhitespace(MarkerText(body).value))
  {
    if MarkerText(body).Some? {
      CompleteIff(SplitWhitespace(MarkerText(body).value));
    }
  }

  lemma CompleteIff(parts: seq<string>)
    ensures Complete(ReadParts(parts)).Some? <==> HasAllParts(parts)
  {
    CompleteIs(ReadParts(parts));
    forall f: FieldName
      ensures SlotOf(ReadParts(parts), f).Some? <==> HasPart(parts, f)
    {
      SetIff(parts, f);
    }
  }

  lemma {:induction false} SetIff(parts: seq<string>, f: FieldName)
    ensures SlotOf(ReadParts(parts), f).Some? <==> HasPart(parts, f)
  {
    if parts != [] {
      var n := |parts| - 1;
      SetIff(parts[..n], f);
      assert forall i :: 0 <= i < n ==> parts[..n][i] == parts[i];
      if IsOf(parts[n], f) {
        var value := NamedPart(parts[n], f);
        PartIsPut(ReadParts(parts[..n]), f, value);
      } else {
        OtherPartLeaves(ReadParts(parts[..n]), parts[n], f);
      }
    }
  }

  lemma ReadFive(f1: FieldName, v1: string, f2: FieldName, v2: string, f3: FieldName, v3: string,
                 f4: FieldName, v4: string, f5: FieldName, v5: string)
    ensures ReadParts([Field(f1, v1), Field(f2, v2), Field(f3, v3), Field(f4, v4), Field(f5, v5)])
         == Put(Put(Put(Put(Put(UNSET, f1, v1), f2, v2), f3, v3), f4, v4), f5, v5)
  {
    var p1, p2, p3, p4, p5 := Field(f1, v1), Field(f2, v2), Field(f3, v3), Field(f4, v4), Field(f5, v5);
    ReadSnoc([], p1);
    ReadSnoc([p1], p2);
    ReadSnoc([p1, p2], p3);
    ReadSnoc([p1, p2, p3], p4);
    ReadSnoc([p1, p2, p3, p4], p5);
    assert [] + [p1] == [p1] && [p1] + [p2] == [p1, p2] && [p1, p2] + [p3] == [p1, p2, p3]
        && [p1, p2, p3] + [p4] == [p1, p2, p3, p4] && [p1, p2, p3, p4] + [p5] == [p1, p2, p3, p4, p5];
    PartIsPut(UNSET, f1, v1);
    PartIsPut(ReadParts([p1]), f2, v2);
    PartIsPut(ReadParts([p1, p2]), f3, v3);
    PartIsPut(ReadParts([p1, p2, p3]), f4, v4);
    PartIsPut(ReadParts([p1, p2, p3, p4]), f5, v5);
  }

  lemma AllSlotsAreRead(l: Lease)
    ensures ReadParts(Parts(l))
         == Slots(Some("1"), Some(l.runId), Some(l.ownerId), Some(l.fencingToken), Some(l.expiresAt))
  {
    ReadFive(SchemaVersion, "1", RunId, l.runId, OwnerId, l.ownerId, FencingToken, l.fencingToken, ExpiresAt, l.expiresAt);
  }

  /** Parsing a printed claim gives back its run, owner, token and expiry. */
  lemma ClaimRoundTrip(l: Lease)
    requires IsClean(l)
    ensures ParsedMarker(Body(l)) == Some(ClaimMarker("1", l.runId, l.ownerId, l.fencingToken, l.expiresAt))
  {
    MarkerTextIs(l);
    PartsAreClean(l);
    SplitJoined(Parts(l));
    AllSlotsAreRead(l);
  }

  // ---- Which comments a search marker finds ----

  function LaterParts(l: Lease): seq<string> {
    [Field(OwnerId, l.ownerId), Field(FencingToken, l.fencingToken), Field(ExpiresAt, l.expiresAt)]
  }

  function AfterRun(l: Lease): string {
    JoinSpaced(LaterParts(l)) + ("-->" + Tail(l))
  }

  lemma JoinedAfterTwo(intro: string, w0: string, w1: string, more: seq<string>, tail: string)
    ensures intro + JoinSpaced([w0, w1] + more) + tail == intro + (w0 + " " + w1) + (" " + (JoinSpaced(more) + tail))
  {
    var words := [w0, w1] + more;
    assert words[1..][0] == w1 && words[1..][1..] == more;
    assert JoinSpaced(words) == w0 + " " + (w1 + " " + JoinSpaced(more));
  }

  /** A run's own comment opens with its search marker. */
  lemma BodyStartsWithSearchMarker(l: Lease)
    ensures Body(l) == SearchMarker(l.runId) + (" " + AfterRun(l))
  {
    assert Parts(l) == [Field(SchemaVersion, "1"), Field(RunId, l.runId)] + LaterParts(l);
    JoinedAfterTwo(INTRO, Field(SchemaVersion, "1"), Field(RunId, l.runId), LaterParts(l), "-->" + Tail(l));
  }

  lemma {:induction false} SpacesBetweenWords(words: seq<string>, i: nat)
    requires forall w :: w in words ==> IsWord(w) && w[0] != 'a'
    requires i < |JoinSpaced(words)| && JoinSpaced(words)[i] == ' '
    ensures i + 1 == |JoinSpaced(words)| || JoinSpaced(words)[i + 1] != 'a'
  {
    var w, rest := words[0], JoinSpaced(words[1..]);
    var s := w + " " + rest;
    assert JoinSpaced(words) == s && IsWord(w);
    assert forall k :: 0 <= k < |w| ==> s[k] == w[k] && s[k] in w;
    assert i >= |w|;
    if i > |w| {
      SpacesBetweenWords(words[1..], i - |w| - 1);
    } else if rest != "" {
      assert words[1] in words && rest[0] == words[1..][0][0];
    }
  }

  /** In `intro + joined + tail` only the first space stands between a `-` and an `a`. */
  lemma IntroOccursOnce(intro: string, joined: string, tail: string, i: nat)
    requires |intro| >= 7 && intro[3] == '-' && intro[4] == ' ' && intro[5] == 'a' && intro[|intro| - 2] != '-'
    requires forall k :: 0 <= k < |intro| && intro[k] == ' ' ==> k == 4 || k == |intro| - 1
    requires joined != "" && joined[0] != ' '
    requires forall k :: 0 <= k < |joined| && joined[k] == ' ' ==> k + 1 == |joined| || joined[k + 1] != 'a'
    requires tail != "" && tail[0] != 'a' && tail[0] != ' '
    requires forall k :: 1 <= k < |tail| && tail[k] == ' ' ==> tail[k - 1] != '-'
    requires OccursAt(intro + joined + tail, intro, i)
    ensures i == 0
  {
    var s := intro + joined + tail;
    var a, b := |intro|, |intro| + |joined|;
    assert forall k :: 0 <= k < a ==> s[k] == intro[k];
    assert forall k :: a <= k < b ==> s[k] == joined[k - a];
    assert forall k :: b <= k < |s| ==> s[k] == tail[k - b];
    var found := s[i..i + |intro|];
    assert found[3] == s[i + 3] && found[4] == s[i + 4] && found[5] == s[i + 5];
  }

  lemma JoinedStart(words: seq<string>)
    requires words != [] && words[0] != ""
    ensures JoinSpaced(words) != "" && JoinSpaced(words)[0] == words[0][0]
  {
  }

  lemma TailHasNoDashBeforeSpace(intro: string, run: string)
    requires intro != "" && intro[0] != ' ' && '-' !in intro && ' ' !in run
    ensures var tail := "-->" + (intro + run + "`.");
            forall k :: 1 <= k < |tail| && tail[k] == ' ' ==> tail[k - 1] != '-'
  {
    var tail, n := "-->" + (intro + run + "`."), |intro|;
    assert forall k :: 3 <= k < 3 + n ==> tail[k] == intro[k - 3];
    assert forall k :: 3 + n <= k < 3 + n + |run| ==> tail[k] == run[k - 3 - n];
    forall k | 1 <= k < |tail| && tail[k] == ' '
      ensures tail[k - 1] != '-'
    {
      assert k < 3 + n;
    }
  }

  lemma FixedTexts()
    ensures |INTRO| >= 7 && INTRO[3] == '-' && INTRO[4] == ' ' && INTRO[5] == 'a' && INTRO[|INTRO| - 2] != '-'
    ensures forall k :: 0 <= k < |INTRO| && INTRO[k] == ' ' ==> k == 4 || k == |INTRO| - 1
    ensures TAIL_INTRO != "" && TAIL_INTRO[0] != ' ' && '-' !in TAIL_INTRO
  {
  }

  lemma FieldStart(f: FieldName, value: string)
    ensures Field(f, value) != "" && Field(f, value)[0] != 'a' && Field(f, value)[0] != ' '
  {
  }

  lemma IntroOnlyAtStart(l: Lease, i: nat)
    requires IsClean(l) && OccursAt(Body(l), INTRO, i)
    ensures i == 0
  {
    var p := Parts(l);
    var joined, tail := JoinSpaced(p), "-->" + Tail(l);
    FixedTexts();
    PartsAreClean(l);
    FieldStart(SchemaVersion, "1"); FieldStart(RunId, l.runId); FieldStart(OwnerId, l.ownerId);
    FieldStart(FencingToken, l.fencingToken); FieldStart(ExpiresAt, l.expiresAt);
    forall k: nat | k < |joined| && joined[k] == ' '
      ensures k + 1 == |joined| || joined[k + 1] != 'a'
    {
      SpacesBetweenWords(p, k);
    }
    JoinedStart(p);
    TailHasNoDashBeforeSpace(TAIL_INTRO, l.runId);
    IntroOccursOnce(INTRO, joined, tail, i);
  }

  lemma SearchMarkersNest(run: string, longer: string)
    requires run <= longer
    ensures SearchMarker(run) <= SearchMarker(longer)
  {
    assert SearchMarker(longer) == SearchMarker(run) + longer[|run|..];
  }

  lemma PrefixIsContained(s: string, needle: string)
    requires needle <= s
    ensures Contains(s, needle)
  {
    assert OccursAt(s, needle, 0);
  }

  lemma StartIsContained(start: string, middle: string, end: string)
    ensures Contains(start + middle + end, start)
  {
    assert OccursAt(start + middle + end, start, 0);
  }

  lemma StartOccurs(s: string, start: string, rest: string, i: nat)
    requires OccursAt(s, start + rest, i)
    ensures OccursAt(s, start, i)
  {
    assert s[i..i + |start|] == s[i..i + |start + rest|][..|start|];
    assert (start + rest)[..|start|] == start;
  }

  /** A search marker that occurs somewhere in a claim comment opens it. */
  lemma FoundAtStart(l: Lease, run: string)
    requires IsClean(l) && Contains(Body(l), SearchMarker(run))
    ensures SearchMarker(run) <= Body(l)
  {
    var i := Find(Body(l), SearchMarker(run)).value;
    StartOccurs(Body(l), INTRO, Field(SchemaVersion, "1") + " " + Field(RunId, run), i);
    IntroOnlyAtStart(l, i);
  }

  /**
    The comment of run `l.runId` is found by the search marker of `run` exactly when `run` is a prefix of
    `l.runId`: the marker does not close the run id, so a run finds longer-named runs as well as itself.
  */
  lemma FoundIffPrefix(l: Lease, run: string)
    requires IsClean(l) && ' ' !in run
    ensures Contains(Body(l), SearchMarker(run)) <==> run <= l.runId
  {
    if run <= l.runId {
      BodyStartsWithSearchMarker(l);
      PrefixIsContained(Body(l), SearchMarker(l.runId));
      SearchMarkersNest(run, l.runId);
      ContainsPrefix(Body(l), SearchMarker(l.runId), SearchMarker(run));
    } else if Contains(Body(l), SearchMarker(run)) {
      FoundAtStart(l, run);
      PrefixWithinWord(l, run);
    }
  }

  lemma PrefixWithinWord(l: Lease, run: string)
    requires IsClean(l) && ' ' !in run && SearchMarker(run) <= Body(l)
    ensures run <= l.runId
  {
    BodyStartsWithSearchMarker(l);
    var fixed := INTRO + (Field(SchemaVersion, "1") + " " + (NameText(RunId) + "="));
    assert SearchMarker(l.runId) == fixed + l.runId && SearchMarker(run) == fixed + run;
    PrefixCut(fixed, run, l.runId, AfterRun(l));
  }

  lemma PrefixCut(fixed: string, run: string, own: string, rest: string)
    requires ' ' !in run && fixed + run <= fixed + own + (" " + rest)
    ensures run <= own
  {
    var s := fixed + own + (" " + rest);
    assert s[|fixed| + |own|] == ' ';
    assert forall k :: 0 <= k < |run| ==> s[|fixed| + k] == (fixed + run)[|fixed| + k] == run[k];
    assert |run| <= |own|;
    assert forall k :: 0 <= k < |run| ==> s[|fixed| + k] == own[k];
  }
}
