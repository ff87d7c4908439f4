/** Taking secrets out of a debug bundle: JSON values, lines and whole texts. */
module Redaction {
  import opened Text
  import opened Wrappers

  datatype Json =
    | Null
    | Bool(flag: bool)
    | Number(digits: string)
    | Str(text: string)
    | Arr(items: seq<Json>)
    | Obj(fields: seq<(string, Json)>)

  function Redacted(): string {
    "<redacted>"
  }

  function KeyNeedles(): seq<string> {
    ["authorization", "api_key", "apikey", "access_token", "refresh_token", "codex_api_key", "github_token", "gh_token",
     "password", "secret", "token"]
  }

  function LineNeedles(): seq<string> {
    ["authorization", "bearer ", "api_key", "apikey", "access_token", "refresh_token", "codex_api_key", "github_token",
     "gh_token", "password", "secret"]
  }

  predicate ContainsAny(s: string, needles: seq<string>) {
    exists n :: n in needles && Contains(s, n)
  }

  /** `is_sensitive_debug_key`. */
  predicate IsSensitiveKey(key: string) {
    ContainsAny(ToLower(key), KeyNeedles())
  }

  predicate LooksSecret(text: string) {
    "bearer " <= ToLower(text) || "sk-" <= ToLower(text)
  }

  lemma AnyOfEleven(s: string, a: string, b: string, c: string, d: string, e: string, f: string, g: string, h: string,
                    i: string, j: string, k: string)
    ensures ContainsAny(s, [a, b, c, d, e, f, g, h, i, j, k]) <==>
              || Contains(s, a) || Contains(s, b) || Contains(s, c) || Contains(s, d) || Contains(s, e) || Contains(s, f)
              || Contains(s, g) || Contains(s, h) || Contains(s, i) || Contains(s, j) || Contains(s, k)
  {
    var all := [a, b, c, d, e, f, g, h, i, j, k];
    assert a in all && b in all && c in all && d in all && e in all && f in all && g in all && h in all;
  }

  lemma KeyNeedlesHold(l: string)
    ensures ContainsAny(l, KeyNeedles()) <==>
              || Contains(l, "authorization") || Contains(l, "api_key") || Contains(l, "apikey") || Contains(l, "access_token")
              || Contains(l, "refresh_token") || Contains(l, "codex_api_key") || Contains(l, "github_token")
              || Contains(l, "gh_token") || Contains(l, "password") || Contains(l, "secret") || Contains(l, "token")
  {
    AnyOfEleven(l, "authorization", "api_key", "apikey", "access_token", "refresh_token", "codex_api_key", "github_token",
                "gh_token", "password", "secret", "token");
  }

  lemma LongNeedles()
    ensures "access_token" == "access_" + "token" + "" && "refresh_token" == "refresh_" + "token" + ""
    ensures "github_token" == "github_" + "token" + "" && "gh_token" == "gh_" + "token" + ""
    ensures "codex_api_key" == "codex_" + "api_key" + ""
  {
  }

  lemma LongNeedlesAddNothing(l: string)
    ensures Contains(l, "access_token") ==> Contains(l, "token")
    ensures Contains(l, "refresh_token") ==> Contains(l, "token")
    ensures Contains(l, "github_token") ==> Contains(l, "token")
    ensures Contains(l, "gh_token") ==> Contains(l, "token")
    ensures Contains(l, "codex_api_key") ==> Contains(l, "api_key")
  {
    LongNeedles();
    if Contains(l, "access_token") {
      ContainsPart(l, "access_", "token", "");
    }
    if Contains(l, "refresh_token") {
      ContainsPart(l, "refresh_", "token", "");
    }
    if Contains(l, "github_token") {
      ContainsPart(l, "github_", "token", "");
    }
    if Contains(l, "gh_token") {
      ContainsPart(l, "gh_", "token", "");
    }
    if Contains(l, "codex_api_key") {
      ContainsPart(l, "codex_", "api_key", "");
    }
  }

  /** Six of the eleven words decide whether a key is sensitive; the other five contain one of them. */
  lemma SensitiveKeyIff(key: string)
    ensures IsSensitiveKey(key) <==>
              var l := ToLower(key);
              || Contains(l, "authorization") || Contains(l, "api_key") || Contains(l, "apikey")
              || Contains(l, "password") || Contains(l, "secret") || Contains(l, "token")
  {
    KeyNeedlesHold(ToLower(key));
    LongNeedlesAddNothing(ToLower(key));
  }

  /** A text looks secret by its first characters, in any case. */
  lemma LooksSecretIff(text: string)
    ensures LooksSecret(text) <==>
              || (|text| >= 7 && ToLower(text[..7]) == "bearer ")
              || (|text| >= 3 && ToLower(text[..3]) == "sk-")
  {
    var l := ToLower(text);
    assert |"bearer "| == 7 && |"sk-"| == 3;
    if |text| >= 7 {
      assert ToLower(text[..7]) == l[..7];
    }
    if |text| >= 3 {
      assert ToLower(text[..3]) == l[..3];
    }
  }

  function Redact(v: Json): Json {
    match v
    case Null => v
    case Bool(_) => v
    case Number(_) => v
    case Str(text) => if LooksSecret(text) then Str(Redacted()) else v
    case Arr(items) => Arr(seq(|items|, i requires 0 <= i < |items| => Redact(items[i])))
    case Obj(fields) =>
      Obj(seq(|fields|, i requires 0 <= i < |fields| =>
              (fields[i].0, if IsSensitiveKey(fields[i].0) then Str(Redacted()) else Redact(fields[i].1))))
  }

  /** `redact_json_value`, on a value that is returned instead of rewritten. */
  method RedactJsonValue(v: Json) returns (r: Json)
    ensures r == Redact(v)
    decreases v
  {
    match v
    case Obj(fields) =>
      var out := fields;
      for i := 0 to |fields|
        invariant |out| == |fields| && forall j :: 0 <= j < |fields| ==> out[j] == if j < i then Redact(v).fields[j] else fields[j]
      {
        var (key, value) := fields[i];
        if IsSensitiveKey(key) {
          out := out[i := (key, Str(Redacted()))];
        } else {
          var redacted := RedactJsonValue(value);
          out := out[i := (key, redacted)];
        }
      }
      assert out == Redact(v).fields;
      r := Obj(out);
    case Arr(items) =>
      var out := items;
      for i := 0 to |items|
        invariant |out| == |items| && forall j :: 0 <= j < |items| ==> out[j] == if j < i then Redact(v).items[j] else items[j]
      {
        var redacted := RedactJsonValue(items[i]);
        out := out[i := redacted];
      }
      assert out == Redact(v).items;
      r := Arr(out);
    case Str(text) =>
      r := if LooksSecret(text) then Str(Redacted()) else v;
    case _ => r := v;
  }

  lemma RedactedIsPlain()
    ensures !LooksSecret(Redacted())
  {
    assert ToLower(Redacted())[0] == '<';
  }

  /** Redacting twice is redacting once. */
  lemma {:induction false} RedactIsIdempotent(v: Json)
    ensures Redact(Redact(v)) == Redact(v)
    decreases v
  {
    RedactedIsPlain();
    match v
    case Arr(items) =>
      forall i | 0 <= i < |items|
        ensures Redact(Redact(items[i])) == Redact(items[i])
      {
        RedactIsIdempotent(items[i]);
      }
    case Obj(fields) =>
      forall i | 0 <= i < |fields|
        ensures Redact(Redact(fields[i].1)) == Redact(fields[i].1)
      {
        RedactIsIdempotent(fields[i].1);
      }
    case _ =>
  }

  // ---- What is kept and what is gone ----

  /** The node at the end of a path of positions. */
  function Child(v: Json, i: nat): Option<Json> {
    match v
    case Arr(items) => if i < |items| then Some(items[i]) else None
    case Obj(fields) => if i < |fields| then Some(fields[i].1) else None
    case _ => None
  }

  function At(v: Json, path: seq<nat>): Option<Json> {
    if path == [] then Some(v)
    else
      match Child(v, path[0])
      case None => None
      case Some(child) => At(child, path[1..])
  }

  predicate HidesChild(v: Json, i: nat) {
    v.Obj? && i < |v.fields| && IsSensitiveKey(v.fields[i].0)
  }

  /** No key on the path is sensitive. */
  predicate IsExposed(v: Json, path: seq<nat>) {
    path != [] ==>
      !HidesChild(v, path[0])
      && match Child(v, path[0])
         case None => true
         case Some(child) => IsExposed(child, path[1..])
  }

  function Keys(fields: seq<(string, Json)>): (keys: seq<string>)
    ensures |keys| == |fields| && forall i :: 0 <= i < |fields| ==> keys[i] == fields[i].0
  {
    seq(|fields|, i requires 0 <= i < |fields| => fields[i].0)
  }

  /** Same kind of node: leaves that are no secrets are equal, arrays as long, objects with the same keys in order. */
  predicate IsKept(v: Json, w: Json) {
    match v
    case Str(text) => w == if LooksSecret(text) then Str(Redacted()) else v
    case Arr(items) => w.Arr? && |w.items| == |items|
    case Obj(fields) => w.Obj? && Keys(w.fields) == Keys(fields)
    case _ => w == v
  }

  lemma ChildIsRedacted(v: Json, i: nat)
    requires Child(v, i).Some?
    ensures Child(Redact(v), i) == Some(if HidesChild(v, i) then Str(Redacted()) else Redact(Child(v, i).value))
  {
  }

  lemma NoNewChild(v: Json, i: nat)
    requires Child(v, i).None?
    ensures Child(Redact(v), i).None?
  {
  }

  /** A path with no sensitive key leads to the same kind of node as before, or to nothing as before. */
  lemma {:induction false} ExposedNodesAreKept(v: Json, path: seq<nat>)
    requires IsExposed(v, path)
    ensures At(v, path).Some? <==> At(Redact(v), path).Some?
    ensures At(v, path).Some? ==> IsKept(At(v, path).value, At(Redact(v), path).value)
    decreases |path|
  {
    if path != [] {
      if Child(v, path[0]).Some? {
        ChildIsRedacted(v, path[0]);
        ExposedNodesAreKept(Child(v, path[0]).value, path[1..]);
      } else {
        NoNewChild(v, path[0]);
      }
    }
  }

  /** A path through a sensitive key ends at that key's replaced value. */
  lemma {:induction false} HiddenNodesAreGone(v: Json, path: seq<nat>)
    requires !IsExposed(v, path)
    ensures At(Redact(v), path).Some? ==> At(Redact(v), path) == Some(Str(Redacted()))
    decreases |path|
  {
    ChildIsRedacted(v, path[0]);
    if !HidesChild(v, path[0]) {
      HiddenNodesAreGone(Child(v, path[0]).value, path[1..]);
    } else if |path| > 1 {
      assert At(Str(Redacted()), path[1..]) == None;
    }
  }

  /** Wherever one looks in a redacted tree, sensitive keys hold the replacement and no string looks secret. */
  lemma NothingSecretIsLeft(v: Json, path: seq<nat>)
    requires At(Redact(v), path).Some?
    ensures var w := At(Redact(v), path).value;
            && (w.Str? ==> !LooksSecret(w.text))
            && (w.Obj? ==> forall i :: 0 <= i < |w.fields| && IsSensitiveKey(w.fields[i].0) ==> w.fields[i].1 == Str(Redacted()))
  {
    RedactedIsPlain();
    if IsExposed(v, path) {
      ExposedNodesAreKept(v, path);
      RedactedNode(v, path);
    } else {
      HiddenNodesAreGone(v, path);
    }
  }

  lemma {:induction false} RedactedNode(v: Json, path: seq<nat>)
    requires IsExposed(v, path) && At(v, path).Some?
    ensures At(Redact(v), path) == Some(Redact(At(v, path).value))
    decreases |path|
  {
    if path != [] {
      ChildIsRedacted(v, path[0]);
      RedactedNode(Child(v, path[0]).value, path[1..]);
    }
  }

  // ---- Lines ----

  /**
    The JSON library: a parser, the compact printer, the values a parser yields or redaction leaves, and what a printed
    number text is read as.  Its floats need not read back exactly, and it may refuse deep nesting.
  */
  datatype JsonCodec = JsonCodec(parse: string -> Option<Json>, render: Json -> string, holds: Json -> bool,
                                 reread: string -> string)

  predicate EndsWithChar(s: string, c: char) {
    s != "" && s[|s| - 1] == c
  }

  /** A value with every number read once more. */
  function Reread(reread: string -> string, v: Json): Json {
    match v
    case Number(digits) => Number(reread(digits))
    case Arr(items) => Arr(seq(|items|, i requires 0 <= i < |items| => Reread(reread, items[i])))
    case Obj(fields) => Obj(seq(|fields|, i requires 0 <= i < |fields| => (fields[i].0, Reread(reread, fields[i].1))))
    case _ => v
  }

  /** Every number in the value reads back as itself. */
  predicate KeepsNumbers(reread: string -> string, v: Json) {
    match v
    case Number(digits) => reread(digits) == digits
    case Arr(items) => forall i :: 0 <= i < |items| ==> KeepsNumbers(reread, items[i])
    case Obj(fields) => forall i :: 0 <= i < |fields| ==> KeepsNumbers(reread, fields[i].1)
    case _ => true
  }

  /**
    What the redaction relies on: the parser yields values, and redaction leaves values; a printed value is one line
    and parses back up to its numbers; no two values print alike; neither nothing nor text that ends with `>` is JSON.
  */
  ghost predicate IsFaithful(codec: JsonCodec) {
    && (forall s :: codec.parse(s).Some? ==> codec.holds(codec.parse(s).value))
    && (forall v :: codec.holds(v) ==> codec.holds(Redact(v)))
    && (forall v :: codec.holds(v) ==> codec.parse(codec.render(v)) == Some(Reread(codec.reread, v)) && IsOneLine(codec.render(v)))
    && (forall v, w :: codec.holds(v) && codec.holds(w) && codec.render(v) == codec.render(w) ==> v == w)
    && codec.parse("") == None
    && (forall s :: EndsWithChar(s, '>') ==> codec.parse(s) == None)
  }

  lemma {:induction false} RereadThenRedact(reread: string -> string, v: Json)
    ensures Redact(Reread(reread, v)) == Reread(reread, Redact(v))
    decreases v
  {
    match v
    case Arr(items) =>
      forall i | 0 <= i < |items|
        ensures Redact(Reread(reread, items[i])) == Reread(reread, Redact(items[i]))
      {
        RereadThenRedact(reread, items[i]);
      }
    case Obj(fields) =>
      forall i | 0 <= i < |fields|
        ensures Redact(Reread(reread, fields[i].1)) == Reread(reread, Redact(fields[i].1))
      {
        RereadThenRedact(reread, fields[i].1);
      }
    case _ =>
  }

  lemma {:induction false} RereadIsSameIff(reread: string -> string, v: Json)
    ensures Reread(reread, v) == v <==> KeepsNumbers(reread, v)
    decreases v
  {
    match v
    case Arr(items) =>
      forall i | 0 <= i < |items|
        ensures Reread(reread, items[i]) == items[i] <==> KeepsNumbers(reread, items[i])
      {
        RereadIsSameIff(reread, items[i]);
      }
      assert Reread(reread, v) == v <==> Reread(reread, v).items == items;
      assert forall i :: 0 <= i < |items| ==> Reread(reread, v).items[i] == Reread(reread, items[i]);
    case Obj(fields) =>
      forall i | 0 <= i < |fields|
        ensures Reread(reread, fields[i].1) == fields[i].1 <==> KeepsNumbers(reread, fields[i].1)
      {
        RereadIsSameIff(reread, fields[i].1);
      }
      assert Reread(reread, v) == v <==> Reread(reread, v).fields == fields;
      assert forall i :: 0 <= i < |fields| ==>
               Reread(reread, v).fields[i] == (fields[i].0, Reread(reread, fields[i].1)) && fields[i] == (fields[i].0, fields[i].1);
    case _ =>
  }

  lemma PrintedIs(codec: JsonCodec, line: string)
    requires IsFaithful(codec) && codec.parse(line).Some?
    ensures var v := Redact(codec.parse(line).value);
            && codec.holds(v) && codec.parse(codec.render(v)) == Some(Reread(codec.reread, v))
            && IsOneLine(codec.render(v)) && codec.render(v) != ""
  {
    var v := Redact(codec.parse(line).value);
    assert codec.holds(v);
    assert codec.parse(codec.render(v)) == Some(Reread(codec.reread, v));
  }

  predicate IsSensitiveLine(line: string) {
    ContainsAny(ToLower(line), LineNeedles())
  }

  /** What takes the place of a sensitive line that is not JSON. */
  function Masked(line: string): string {
    match SplitOnce(line, '=')
    case Some((prefix, _)) => prefix + "=" + Redacted()
    case None =>
      match SplitOnce(line, ':')
      case Some((prefix, _)) => prefix + ": " + Redacted()
      case None => Redacted()
  }

  /** `redact_debug_line`. */
  function RedactLine(codec: JsonCodec, line: string): string {
    match codec.parse(line)
    case Some(v) => codec.render(Redact(v))
    case None => if IsSensitiveLine(line) then Masked(line) else line
  }

  lemma LineNeedlesHold(l: string)
    ensures ContainsAny(l, LineNeedles()) <==>
              || Contains(l, "authorization") || Contains(l, "bearer ") || Contains(l, "api_key") || Contains(l, "apikey")
              || Contains(l, "access_token") || Contains(l, "refresh_token") || Contains(l, "codex_api_key")
              || Contains(l, "github_token") || Contains(l, "gh_token") || Contains(l, "password") || Contains(l, "secret")
  {
    AnyOfEleven(l, "authorization", "bearer ", "api_key", "apikey", "access_token", "refresh_token", "codex_api_key",
                "github_token", "gh_token", "password", "secret");
  }

  /** Unlike in a key, a bare `token` in a line is no reason to mask it. */
  lemma SensitiveLineIff(line: string)
    ensures IsSensitiveLine(line) <==>
              var l := ToLower(line);
              || Contains(l, "authorization") || Contains(l, "bearer ") || Contains(l, "api_key") || Contains(l, "apikey")
              || Contains(l, "access_token") || Contains(l, "refresh_token") || Contains(l, "github_token")
              || Contains(l, "gh_token") || Contains(l, "password") || Contains(l, "secret")
  {
    LineNeedlesHold(ToLower(line));
    LongNeedlesAddNothing(ToLower(line));
  }

  /**
    A line that is not JSON stays as it is unless it is sensitive.  Then nothing after its first `=` is left, or after
    its first `:` if it has no `=`, or nothing at all.
  */
  lemma LineIsMasked(codec: JsonCodec, line: string, before: string, after: string)
    requires codec.parse(line) == None
    ensures !IsSensitiveLine(line) ==> RedactLine(codec, line) == line
    ensures IsSensitiveLine(line) && line == before + ['='] + after && '=' !in before ==>
              RedactLine(codec, line) == before + "=" + "<redacted>"
    ensures IsSensitiveLine(line) && '=' !in line && line == before + [':'] + after && ':' !in before ==>
              RedactLine(codec, line) == before + ": " + "<redacted>"
    ensures IsSensitiveLine(line) && '=' !in line && ':' !in line ==> RedactLine(codec, line) == "<redacted>"
  {
    if line == before + ['='] + after && '=' !in before {
      SplitOnceIs(before, '=', after);
    } else if '=' !in line && line == before + [':'] + after && ':' !in before {
      SplitOnceIs(before, ':', after);
    }
  }

  lemma MaskedEnds(line: string)
    ensures EndsWithChar(Masked(line), '>')
    ensures '\n' !in line ==> '\n' !in Masked(line)
  {
    var r := Redacted();
    assert r[|r| - 1] == '>' && '\n' !in r;
  }

  lemma MaskedAgain(line: string)
    ensures Masked(Masked(line)) == Masked(line)
  {
    var r := Redacted();
    assert '=' !in r && ':' !in r;
    match SplitOnce(line, '=')
    case Some((prefix, _)) =>
      assert prefix + "=" + r == prefix + ['='] + r;
      SplitOnceIs(prefix, '=', r);
    case None =>
      match SplitOnce(line, ':') {
        case Some((prefix, rest)) =>
          assert forall c :: c in prefix ==> c in line;
          assert '=' !in Masked(line);
          assert prefix + ": " + r == prefix + [':'] + (" " + r);
          SplitOnceIs(prefix, ':', " " + r);
        case None =>
      }
  }

  /** Every number that redaction leaves in a JSON line reads back as itself. */
  predicate NumbersSurvive(codec: JsonCodec, line: string) {
    codec.parse(line).Some? ==> KeepsNumbers(codec.reread, Redact(codec.parse(line).value))
  }

  lemma JsonLineIff(codec: JsonCodec, line: string)
    requires IsFaithful(codec) && codec.parse(line).Some?
    ensures RedactLine(codec, RedactLine(codec, line)) == RedactLine(codec, line) <==> NumbersSurvive(codec, line)
  {
    var v := codec.parse(line).value;
    var w := Redact(v);
    var again := Reread(codec.reread, w);
    PrintedIs(codec, line);
    RereadThenRedact(codec.reread, w);
    RedactIsIdempotent(v);
    assert RedactLine(codec, codec.render(w)) == codec.render(again);
    assert codec.holds(again);
    RereadIsSameIff(codec.reread, w);
  }

  lemma OtherLineIsIdempotent(codec: JsonCodec, line: string)
    requires IsFaithful(codec) && codec.parse(line) == None
    ensures RedactLine(codec, RedactLine(codec, line)) == RedactLine(codec, line)
  {
    if IsSensitiveLine(line) {
      MaskedEnds(line);
      MaskedAgain(line);
    }
  }

  /**
    Redacting a line twice is redacting it once: always for a line that is not JSON, and for a JSON line exactly when
    every number left in it reads back as itself.
  */
  lemma LineIsIdempotentIff(codec: JsonCodec, line: string)
    requires IsFaithful(codec)
    ensures RedactLine(codec, RedactLine(codec, line)) == RedactLine(codec, line) <==> NumbersSurvive(codec, line)
  {
    if codec.parse(line).Some? {
      JsonLineIff(codec, line);
    } else {
      OtherLineIsIdempotent(codec, line);
    }
  }

  /** A redacted JSON line is JSON, and wherever one looks in what it is read as, nothing secret is left. */
  lemma JsonLineHidesSecrets(codec: JsonCodec, line: string, path: seq<nat>)
    requires IsFaithful(codec) && codec.parse(line).Some?
    ensures codec.parse(RedactLine(codec, line)).Some?
    ensures var found := At(codec.parse(RedactLine(codec, line)).value, path);
            found.Some? ==>
              && (found.value.Str? ==> !LooksSecret(found.value.text))
              && (found.value.Obj? ==> forall i :: 0 <= i < |found.value.fields| && IsSensitiveKey(found.value.fields[i].0) ==>
                    found.value.fields[i].1 == Str("<redacted>"))
  {
    var v := codec.parse(line).value;
    PrintedIs(codec, line);
    RereadThenRedact(codec.reread, v);
    if At(Redact(Reread(codec.reread, v)), path).Some? {
      NothingSecretIsLeft(Reread(codec.reread, v), path);
    }
  }

  // ---- Texts ----

  function Join(lines: seq<string>): string {
    if lines == [] then "" else if |lines| == 1 then lines[0] else lines[0] + "\n" + Join(lines[1..])
  }

  /** Joined lines are the lines with a newline after each but the last. */
  lemma {:induction false} JoinIsUnline(lines: seq<string>)
    requires lines != []
    ensures Join(lines) + "\n" == Unline(lines)
  {
    if |lines| > 1 {
      JoinIsUnline(lines[1..]);
    } else {
      assert lines == [lines[0]] && Unline(lines[1..]) == "";
    }
  }

  function RedactLines(codec: JsonCodec, lines: seq<string>): (redacted: seq<string>)
    ensures |redacted| == |lines| && forall i :: 0 <= i < |lines| ==> redacted[i] == RedactLine(codec, lines[i])
  {
    seq(|lines|, i requires 0 <= i < |lines| => RedactLine(codec, lines[i]))
  }

  /** `redact_debug_text`. */
  function RedactText(codec: JsonCodec, input: string): string {
    Join(RedactLines(codec, Lines(input)))
  }

  /** The text is redacted line by line: its lines, the last one ended, are the redacted lines. */
  lemma TextIsRedactedByLine(codec: JsonCodec, input: string)
    requires Lines(input) != [] && forall i :: 0 <= i < |Lines(input)| ==> IsOneLine(RedactLine(codec, Lines(input)[i]))
    ensures Lines(RedactText(codec, input) + "\n") == RedactLines(codec, Lines(input))
  {
    var redacted := RedactLines(codec, Lines(input));
    JoinIsUnline(redacted);
    LinesOfUnline(redacted);
  }

  predicate IsReturnedAsIs(codec: JsonCodec, line: string) {
    codec.parse(line) == None && !IsSensitiveLine(line)
  }

  lemma NeedlesAreWords()
    ensures forall n :: n in LineNeedles() ==> n != ""
  {
  }

  lemma EmptyIsNotSensitive()
    ensures !IsSensitiveLine("")
  {
    NeedlesAreWords();
    forall n | n in LineNeedles()
      ensures !Contains(ToLower(""), n)
    {
      assert !(n <= "");
    }
  }

  lemma RedactedLine(codec: JsonCodec, line: string)
    requires IsFaithful(codec)
    ensures IsReturnedAsIs(codec, line) ==> RedactLine(codec, line) == line
    ensures !IsReturnedAsIs(codec, line) ==>
              RedactLine(codec, line) != "" && !EndsWithChar(RedactLine(codec, line), '\r')
    ensures '\n' !in line ==> '\n' !in RedactLine(codec, line)
  {
    match codec.parse(line)
    case Some(v) => PrintedIs(codec, line);
    case None => MaskedEnds(line);
  }

  /** Each line stays as it is when redacted. */
  ghost predicate AreRedacted(codec: JsonCodec, lines: seq<string>) {
    forall i :: 0 <= i < |lines| ==> RedactLine(codec, lines[i]) == lines[i]
  }

  ghost predicate HaveNoNewline(lines: seq<string>) {
    forall i :: 0 <= i < |lines| ==> '\n' !in lines[i]
  }

  /** Joining these lines and splitting the text again gives the same lines. */
  predicate IsStable(lines: seq<string>) {
    && (|lines| >= 2 ==> lines[|lines| - 1] != "")
    && forall i :: 0 <= i < |lines| - 1 ==> !EndsWithChar(lines[i], '\r')
  }

  /** The lines of the joined text, redacted: all but the last lose a carriage return, and an empty last one is lost. */
  function Again(codec: JsonCodec, lines: seq<string>): seq<string> {
    if lines == [] || lines == [""] then []
    else if |lines| == 1 then [RedactLine(codec, lines[0])]
    else [RedactLine(codec, StripCarriageReturn(lines[0]))] + Again(codec, lines[1..])
  }

  lemma SingleLine(line: string)
    requires '\n' !in line
    ensures Lines(line) == if line == "" then [] else [line]
  {
  }

  lemma RedactCons(codec: JsonCodec, line: string, lines: seq<string>)
    ensures RedactLines(codec, [line] + lines) == [RedactLine(codec, line)] + RedactLines(codec, lines)
  {
  }

  lemma JoinedLines(lines: seq<string>)
    requires |lines| >= 2 && '\n' !in lines[0]
    ensures Lines(Join(lines)) == [StripCarriageReturn(lines[0])] + Lines(Join(lines[1..]))
  {
    FirstLine(lines[0], Join(lines[1..]));
  }

  lemma {:induction false} AgainIs(codec: JsonCodec, lines: seq<string>)
    requires HaveNoNewline(lines)
    ensures RedactLines(codec, Lines(Join(lines))) == Again(codec, lines)
  {
    if |lines| <= 1 {
      if lines != [] {
        SingleLine(lines[0]);
      }
    } else {
      JoinedLines(lines);
      RedactCons(codec, StripCarriageReturn(lines[0]), Lines(Join(lines[1..])));
      AgainIs(codec, lines[1..]);
    }
  }

  lemma StrippedOutput(x: string, out: string, asIs: bool)
    requires if asIs then out == x else !EndsWithChar(out, '\r')
    ensures out != x + "\r"
  {
  }

  lemma NoReturnIsGained(codec: JsonCodec, x: string)
    requires IsFaithful(codec)
    ensures RedactLine(codec, x) != x + "\r"
  {
    RedactedLine(codec, x);
    StrippedOutput(x, RedactLine(codec, x), IsReturnedAsIs(codec, x));
  }

  lemma StripIs(line: string)
    ensures if EndsWithChar(line, '\r') then StripCarriageReturn(line) + "\r" == line else StripCarriageReturn(line) == line
  {
  }

  /** Stripping a carriage return shows, whatever the line is redacted to. */
  lemma StrippedDiffers(codec: JsonCodec, line: string)
    requires IsFaithful(codec)
    ensures RedactLine(codec, StripCarriageReturn(line)) == line
       <==> !EndsWithChar(line, '\r') && RedactLine(codec, line) == line
  {
    StripIs(line);
    NoReturnIsGained(codec, StripCarriageReturn(line));
  }

  lemma HeadsEqual(a: string, x: string, b: string, y: string)
    requires '\n' !in a && '\n' !in b
    ensures a + "\n" + x == b + "\n" + y <==> a == b && x == y
  {
    SplitOnceIs(a, '\n', x);
    SplitOnceIs(b, '\n', y);
    assert a + "\n" + x == a + ['\n'] + x && b + "\n" + y == b + ['\n'] + y;
  }

  lemma JoinCons(line: string, rest: seq<string>)
    requires rest != []
    ensures Join([line] + rest) == line + "\n" + Join(rest)
  {
    assert ([line] + rest)[1..] == rest;
  }

  lemma StripIsShort(line: string)
    requires '\n' !in line
    ensures '\n' !in StripCarriageReturn(line)
  {
  }

  lemma NewlineInJoin(lines: seq<string>)
    requires |lines| >= 2
    ensures '\n' in Join(lines)
  {
    var text := Join(lines);
    assert text == lines[0] + "\n" + Join(lines[1..]);
    assert text[|lines[0]|] == '\n';
  }

  /** Redacting the joined lines once more changes nothing exactly if they split as they are and none changes. */
  lemma {:induction false} AgainIff(codec: JsonCodec, lines: seq<string>)
    requires IsFaithful(codec) && HaveNoNewline(lines)
    ensures Join(Again(codec, lines)) == Join(lines) <==> IsStable(lines) && AreRedacted(codec, lines)
    decreases |lines|
  {
    if |lines| <= 1 {
      EmptyIsReturned(codec);
      if lines != [] {
        SingleLine(lines[0]);
      }
    } else if lines[1..] == [""] {
      StripIsShort(lines[0]);
      RedactedLine(codec, StripCarriageReturn(lines[0]));
      LastIsLost(codec, lines);
    } else {
      AgainIff(codec, lines[1..]);
      AgainStep(codec, lines);
      RedactedRest(codec, lines);
      StableRest(lines);
    }
  }

  lemma RedactedRest(codec: JsonCodec, lines: seq<string>)
    requires lines != []
    ensures AreRedacted(codec, lines) <==> RedactLine(codec, lines[0]) == lines[0] && AreRedacted(codec, lines[1..])
  {
    assert forall i :: 1 <= i < |lines| ==> lines[i] == lines[1..][i - 1];
  }

  lemma JoinsEqualIff(redacted: string, again: seq<string>, first: string, rest: seq<string>)
    requires '\n' !in redacted && '\n' !in first && again != [] && rest != []
    ensures Join([redacted] + again) == Join([first] + rest) <==> redacted == first && Join(again) == Join(rest)
  {
    JoinCons(redacted, again);
    JoinCons(first, rest);
    HeadsEqual(redacted, Join(again), first, Join(rest));
  }

  lemma RedactedStep(codec: JsonCodec, first: string, rest: seq<string>, again: seq<string>)
    requires IsFaithful(codec) && '\n' !in first && again != [] && rest != []
    ensures Join([RedactLine(codec, StripCarriageReturn(first))] + again) == Join([first] + rest)
       <==> !EndsWithChar(first, '\r') && RedactLine(codec, first) == first && Join(again) == Join(rest)
  {
    StripIsShort(first);
    RedactedLine(codec, StripCarriageReturn(first));
    StrippedDiffers(codec, first);
    JoinsEqualIff(RedactLine(codec, StripCarriageReturn(first)), again, first, rest);
  }

  lemma AgainStep(codec: JsonCodec, lines: seq<string>)
    requires IsFaithful(codec) && HaveNoNewline(lines) && |lines| >= 2 && lines[1..] != [""]
    ensures Join(Again(codec, lines)) == Join(lines)
       <==> !EndsWithChar(lines[0], '\r') && RedactLine(codec, lines[0]) == lines[0]
            && Join(Again(codec, lines[1..])) == Join(lines[1..])
  {
    var first, rest := lines[0], lines[1..];
    assert '\n' !in first;
    RedactedStep(codec, first, rest, Again(codec, rest));
    assert lines == [first] + rest;
  }

  lemma EmptyIsReturned(codec: JsonCodec)
    requires IsFaithful(codec)
    ensures IsReturnedAsIs(codec, "") && RedactLine(codec, "") == ""
  {
    EmptyIsNotSensitive();
  }

  lemma LastIsLost(codec: JsonCodec, lines: seq<string>)
    requires |lines| == 2 && lines[1..] == [""]
    requires '\n' !in RedactLine(codec, StripCarriageReturn(lines[0]))
    ensures Join(Again(codec, lines)) != Join(lines)
  {
    assert Again(codec, [""]) == [];
    NewlineInJoin(lines);
  }

  lemma StableRest(lines: seq<string>)
    requires |lines| >= 2 && lines[1..] != [""]
    ensures IsStable(lines) <==> !EndsWithChar(lines[0], '\r') && IsStable(lines[1..])
  {
    var rest := lines[1..];
    assert forall i :: 0 <= i < |rest| ==> rest[i] == lines[i + 1];
    assert forall i :: 1 <= i < |lines| ==> lines[i] == rest[i - 1];
    assert |rest| == 1 ==> rest == [rest[0]];
  }

  // ---- When a text may be redacted twice ----

  /** The text's lines: the last of several is not empty, no earlier one keeps a carriage return, and numbers survive. */
  predicate SurvivesTwice(codec: JsonCodec, lines: seq<string>) {
    && SplitsAsJoined(codec, lines)
    && forall i :: 0 <= i < |lines| ==> NumbersSurvive(codec, lines[i])
  }

  predicate SplitsAsJoined(codec: JsonCodec, lines: seq<string>) {
    && (|lines| >= 2 ==> lines[|lines| - 1] != "")
    && forall i :: 0 <= i < |lines| - 1 ==> !(EndsWithChar(lines[i], '\r') && IsReturnedAsIs(codec, lines[i]))
  }

  lemma {:induction false} LinesHaveNoNewline(s: string, i: nat)
    requires i < |Lines(s)|
    ensures '\n' !in Lines(s)[i]
    decreases |s|
  {
    if '\n' in s {
      var line, rest := CutLine(s);
      FirstLine(line, rest);
      if i > 0 {
        LinesHaveNoNewline(rest, i - 1);
      }
    } else {
      SingleLine(s);
    }
  }

  lemma StableIff(codec: JsonCodec, lines: seq<string>)
    requires IsFaithful(codec)
    ensures IsStable(RedactLines(codec, lines)) <==> SplitsAsJoined(codec, lines)
  {
    EmptyIsReturned(codec);
    forall i | 0 <= i < |lines|
      ensures RedactLines(codec, lines)[i] == "" <==> lines[i] == ""
      ensures EndsWithChar(RedactLines(codec, lines)[i], '\r') <==> EndsWithChar(lines[i], '\r') && IsReturnedAsIs(codec, lines[i])
    {
      RedactedLine(codec, lines[i]);
    }
  }

  lemma RedactedIff(codec: JsonCodec, lines: seq<string>)
    requires IsFaithful(codec)
    ensures AreRedacted(codec, RedactLines(codec, lines))
       <==> forall i :: 0 <= i < |lines| ==> NumbersSurvive(codec, lines[i])
  {
    var redacted := RedactLines(codec, lines);
    forall i | 0 <= i < |lines|
      ensures RedactLine(codec, redacted[i]) == redacted[i] <==> NumbersSurvive(codec, lines[i])
    {
      LineIsIdempotentIff(codec, lines[i]);
    }
  }

  /**
    Redacting a whole text twice equals redacting it once exactly when its last line, if it has several, is not
    empty, no earlier line that is returned as it is ends with a carriage return, and every number left in a JSON line
    reads back as itself.
  */
  lemma TextIsIdempotentIff(codec: JsonCodec, input: string)
    requires IsFaithful(codec)
    ensures RedactText(codec, RedactText(codec, input)) == RedactText(codec, input) <==> SurvivesTwice(codec, Lines(input))
  {
    var lines := Lines(input);
    var redacted := RedactLines(codec, lines);
    forall i | 0 <= i < |lines|
      ensures '\n' !in redacted[i]
    {
      LinesHaveNoNewline(input, i);
      RedactedLine(codec, lines[i]);
    }
    AgainIs(codec, redacted);
    AgainIff(codec, redacted);
    StableIff(codec, lines);
    RedactedIff(codec, lines);
  }

  /** A text that ends with an empty line loses it on the second pass. */
  lemma TextIsNotIdempotent(codec: JsonCodec)
    requires IsFaithful(codec)
    ensures RedactText(codec, RedactText(codec, "a\n\n")) != RedactText(codec, "a\n\n")
  {
    FirstLine("a", "\n");
    FirstLine("", "");
    assert "a" + "\n" + "\n" == "a\n\n" && "" + "\n" + "" == "\n";
    assert Lines("a\n\n") == ["a", ""];
    TextIsIdempotentIff(codec, "a\n\n");
  }

  /** A line that is a number whose printed text reads as another number changes on the second pass. */
  lemma NumberLineChanges(codec: JsonCodec, line: string, digits: string)
    requires IsFaithful(codec) && '\n' !in line
    requires codec.parse(line) == Some(Number(digits)) && codec.reread(digits) != digits
    ensures RedactLine(codec, RedactLine(codec, line)) != RedactLine(codec, line)
    ensures RedactText(codec, RedactText(codec, line)) != RedactText(codec, line)
    ensures SplitsAsJoined(codec, Lines(line))
  {
    assert !NumbersSurvive(codec, line);
    LineIsIdempotentIff(codec, line);
    SingleLine(line);
    assert line != "" && Lines(line)[0] == line;
    TextIsIdempotentIff(codec, line);
  }
}
