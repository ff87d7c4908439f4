/** Enabling the domain gates that need an opt-in, network access or credentials. */
module GateOptIns {
  import opened Text
  import opened Wrappers

  datatype DomainGate = DomainGate(domain: string, name: string, tool: string, command: Option<string>, required: bool,
                                   optInRequired: bool, networkRequired: bool, credentialRequired: bool, mutates: bool,
                                   degradedIfMissing: bool, setupGuidance: string)

  predicate OptInMatches(gate: DomainGate, optIn: string) {
    var normalized := ToLower(Trim(optIn));
    normalized == "all" || normalized == gate.domain || normalized == gate.name
    || normalized == gate.domain + ":" + gate.name || normalized == gate.domain + ":*"
  }

  /** `domain_gate_enabled_by_config`. */
  predicate IsEnabled(gate: DomainGate, optIns: seq<string>) {
    exists v :: v in optIns && OptInMatches(gate, v)
  }

  // ---- Which opt-ins enable a gate ----

  /** The texts that name a gate. */
  function Forms(gate: DomainGate): set<string> {
    {"all", gate.domain, gate.name, gate.domain + ":" + gate.name, gate.domain + ":*"}
  }

  /** Trimmed and without an upper-case letter: what an opt-in is brought into, and a gate's own texts are not. */
  predicate IsNormal(s: string) {
    IsTrimmed(s) && forall i :: 0 <= i < |s| ==> !('A' <= s[i] <= 'Z')
  }

  /** `v` is `form` in any case, between any white space. */
  ghost predicate IsSpelling(v: string, form: string) {
    exists before, core, after :: IsSpelledAs(v, form, before, core, after)
  }

  ghost predicate IsSpelledAs(v: string, form: string, before: string, core: string, after: string) {
    v == before + core + after && IsBlank(before) && IsBlank(after) && ToLower(core) == form
  }

  lemma LowerKeepsSpace(c: char)
    ensures IsWhitespace(LowerChar(c)) <==> IsWhitespace(c)
  {
  }

  lemma LowerKeepsTrimmed(s: string)
    ensures IsTrimmed(ToLower(s)) <==> IsTrimmed(s)
  {
    if s != "" {
      LowerKeepsSpace(s[0]);
      LowerKeepsSpace(s[|s| - 1]);
    }
  }

  lemma LowerIsNormal(s: string)
    requires IsTrimmed(s)
    ensures IsNormal(ToLower(s))
  {
    LowerKeepsTrimmed(s);
  }

  lemma NormalIsLower(s: string)
    requires IsNormal(s)
    ensures ToLower(s) == s
  {
  }

  function Normalized(v: string): string {
    ToLower(Trim(v))
  }

  lemma NormalizedIsNormal(v: string)
    ensures IsNormal(Normalized(v))
    ensures |Normalized(v)| <= |v|
  {
    var before, t, after := TrimParts(v);
    LowerIsNormal(t);
  }

  lemma NormalizedSpells(v: string)
    ensures IsSpelling(v, Normalized(v))
  {
    var before, t, after := TrimParts(v);
    assert IsSpelledAs(v, Normalized(v), before, t, after);
  }

  lemma SpelledIsNormalized(v: string, form: string, before: string, core: string, after: string)
    requires IsTrimmed(form) && IsSpelledAs(v, form, before, core, after)
    ensures Normalized(v) == form
  {
    LowerKeepsTrimmed(core);
    TrimPadded(before, core, after);
  }

  /** An opt-in is brought into exactly the trimmed text that it spells. */
  lemma SpellingIff(v: string, form: string)
    requires IsTrimmed(form)
    ensures Normalized(v) == form <==> IsSpelling(v, form)
  {
    NormalizedSpells(v);
    if IsSpelling(v, form) {
      var before, core, after :| IsSpelledAs(v, form, before, core, after);
      SpelledIsNormalized(v, form, before, core, after);
    }
  }

  lemma MatchesIff(gate: DomainGate, v: string)
    ensures OptInMatches(gate, v) <==> Normalized(v) in Forms(gate)
  {
  }

  /** One opt-in enables a gate exactly if it spells a form of the gate that is itself trimmed and in lower case. */
  lemma OptInIff(gate: DomainGate, v: string)
    ensures OptInMatches(gate, v) <==> exists form :: form in Forms(gate) && IsNormal(form) && IsSpelling(v, form)
  {
    MatchesIff(gate, v);
    NormalizedIsNormal(v);
    NormalizedSpells(v);
    forall form | form in Forms(gate) && IsNormal(form) && IsSpelling(v, form)
      ensures Normalized(v) == form
    {
      SpellingIff(v, form);
    }
  }

  /**
    For any gate: it is enabled exactly if some opt-in spells one of its forms, in any case and between any white
    space, and that form is itself trimmed and in lower case, because only the opt-in is normalised.
  */
  lemma EnabledIff(gate: DomainGate, optIns: seq<string>)
    ensures IsEnabled(gate, optIns)
       <==> exists v, form :: v in optIns && form in Forms(gate) && IsNormal(form) && IsSpelling(v, form)
  {
    forall v | v in optIns
      ensures OptInMatches(gate, v) <==> exists form :: form in Forms(gate) && IsNormal(form) && IsSpelling(v, form)
    {
      OptInIff(gate, v);
    }
  }

  lemma JoinedIsNormal(a: string, b: string)
    requires IsNormal(a) && IsNormal(b)
    ensures IsNormal(a + ":" + b)
  {
    var s := a + ":" + b;
    assert forall i :: 0 <= i < |s| ==> s[i] == if i < |a| then a[i] else if i == |a| then ':' else b[i - |a| - 1];
  }

  lemma FormsAreNormal(gate: DomainGate)
    requires IsNormal(gate.domain) && IsNormal(gate.name)
    ensures forall form :: form in Forms(gate) ==> IsNormal(form)
  {
    JoinedIsNormal(gate.domain, gate.name);
    JoinedIsNormal(gate.domain, "*");
    assert gate.domain + ":" + "*" == gate.domain + ":*";
    assert IsNormal("all");
  }

  /** A gate whose domain and name are trimmed and in lower case is enabled by every spelling of each of its forms. */
  lemma AnySpellingEnables(gate: DomainGate, optIns: seq<string>, v: string, form: string)
    requires IsNormal(gate.domain) && IsNormal(gate.name)
    requires v in optIns && form in Forms(gate) && IsSpelling(v, form)
    ensures IsEnabled(gate, optIns)
  {
    FormsAreNormal(gate);
    EnabledIff(gate, optIns);
  }

  /**
    Naming any gate by its own name works exactly if the name is trimmed and in lower case already, or happens to
    spell another of its forms.
  */
  lemma OwnNameEnablesIff(gate: DomainGate)
    ensures IsEnabled(gate, [gate.name])
       <==> IsNormal(gate.name) || Normalized(gate.name) in {"all", gate.domain, gate.domain + ":*"}
  {
    var name := gate.name;
    MatchesIff(gate, name);
    NormalizedIsNormal(name);
    if IsNormal(name) {
      TrimKeepsTrimmed(name);
      NormalIsLower(name);
    }
    assert |Normalized(name)| < |gate.domain + ":" + name|;
    assert name in [name] && forall v :: v in [name] ==> v == name;
  }

  // ---- The names the SDK gives ----

  function NameChar(c: char): char {
    if 'a' <= c <= 'z' || '0' <= c <= '9' then c else if 'A' <= c <= 'Z' then LowerChar(c) else '_'
  }

  function SplitUnderscores(s: string): (parts: seq<string>)
    ensures parts != []
    decreases |s|
  {
    match SplitOnce(s, '_')
    case None => [s]
    case Some((part, rest)) => [part] + SplitUnderscores(rest)
  }

  function NonEmpty(parts: seq<string>): seq<string> {
    if parts == [] then [] else (if parts[0] == "" then [] else [parts[0]]) + NonEmpty(parts[1..])
  }

  function JoinUnderscores(parts: seq<string>): string {
    if parts == [] then "" else if |parts| == 1 then parts[0] else parts[0] + "_" + JoinUnderscores(parts[1..])
  }

  function NameChars(value: string): (s: string)
    ensures |s| == |value| && forall i :: 0 <= i < |s| ==> s[i] == NameChar(value[i])
  {
    seq(|value|, i requires 0 <= i < |value| => NameChar(value[i]))
  }

  /** `gate_name`. */
  function GateName(value: string): string {
    JoinUnderscores(NonEmpty(SplitUnderscores(NameChars(value))))
  }

  predicate IsNameText(s: string) {
    forall i :: 0 <= i < |s| ==> 'a' <= s[i] <= 'z' || '0' <= s[i] <= '9' || s[i] == '_'
  }

  ghost predicate AreNameParts(parts: seq<string>) {
    forall part :: part in parts ==> IsNameText(part) && '_' !in part
  }

  lemma {:induction false} SplitIsName(s: string)
    requires IsNameText(s)
    ensures AreNameParts(SplitUnderscores(s))
    decreases |s|
  {
    match SplitOnce(s, '_')
    case None =>
    case Some((part, rest)) =>
      assert forall i :: 0 <= i < |part| ==> part[i] == s[i];
      assert forall i :: 0 <= i < |rest| ==> rest[i] == s[|part| + 1 + i];
      SplitIsName(rest);
  }

  lemma {:induction false} NonEmptyIff(parts: seq<string>)
    ensures forall part :: part in NonEmpty(parts) <==> part in parts && part != ""
  {
    if parts != [] {
      NonEmptyIff(parts[1..]);
      assert parts == [parts[0]] + parts[1..];
    }
  }

  lemma {:induction false} JoinIsName(parts: seq<string>)
    requires AreNameParts(parts)
    ensures IsNameText(JoinUnderscores(parts))
  {
    if |parts| > 1 {
      assert parts == [parts[0]] + parts[1..];
      assert AreNameParts(parts[1..]);
      JoinIsName(parts[1..]);
      assert IsNameText(parts[0]);
    } else if |parts| == 1 {
      assert parts[0] in parts;
    }
  }

  lemma {:induction false} JoinSplits(parts: seq<string>)
    requires AreNameParts(parts) && parts != []
    ensures SplitUnderscores(JoinUnderscores(parts)) == parts
  {
    assert parts[0] in parts && parts == [parts[0]] + parts[1..];
    if |parts| > 1 {
      assert AreNameParts(parts[1..]);
      JoinSplits(parts[1..]);
      var rest := JoinUnderscores(parts[1..]);
      assert parts[0] + "_" + rest == parts[0] + ['_'] + rest;
      SplitOnceIs(parts[0], '_', rest);
    }
  }

  lemma NameTextIsNormal(s: string)
    requires IsNameText(s)
    ensures IsNormal(s)
  {
  }

  /**
    Whatever a stack's command is called, the name the SDK makes of it is trimmed and in lower case, and its parts are
    the non-empty ones between the characters that are neither letters nor digits.
  */
  lemma GateNameIsNormal(value: string)
    ensures IsNormal(GateName(value))
    ensures var parts := NonEmpty(SplitUnderscores(NameChars(value)));
            if parts == [] then GateName(value) == "" else SplitUnderscores(GateName(value)) == parts && "" !in parts
  {
    var s := NameChars(value);
    var parts := NonEmpty(SplitUnderscores(s));
    SplitIsName(s);
    NonEmptyIff(SplitUnderscores(s));
    JoinIsName(parts);
    NameTextIsNormal(GateName(value));
    if parts != [] {
      JoinSplits(parts);
    }
  }

  function DotsReplaced(s: string): (t: string)
    ensures |t| == |s| && forall i :: 0 <= i < |s| ==> t[i] == if s[i] == '.' then '_' else s[i]
  {
    seq(|s|, i requires 0 <= i < |s| => if s[i] == '.' then '_' else s[i])
  }

  /** The name of the typed gate that a stack's command is migrated to. */
  function LanguageGateName(domain: string, command: string): string {
    DotsReplaced(domain) + "_" + GateName(command)
  }

  /** Such a gate is enabled by every spelling of its name, its key, its domain and its domain's wildcard. */
  lemma LanguageGateIsEnabled(gate: DomainGate, command: string, optIns: seq<string>, v: string, form: string)
    requires IsNormal(gate.domain) && gate.name == LanguageGateName(gate.domain, command)
    requires v in optIns && form in Forms(gate) && IsSpelling(v, form)
    ensures IsEnabled(gate, optIns)
  {
    GateNameIsNormal(command);
    UnderscoredIsNormal(DotsReplaced(gate.domain), GateName(command));
    AnySpellingEnables(gate, optIns, v, form);
  }

  lemma UnderscoredIsNormal(a: string, b: string)
    requires IsNormal(a) && IsNormal(b)
    ensures IsNormal(a + "_" + b)
  {
    var s := a + "_" + b;
    assert forall i :: 0 <= i < |s| ==> s[i] == if i < |a| then a[i] else if i == |a| then '_' else b[i - |a| - 1];
  }
}
