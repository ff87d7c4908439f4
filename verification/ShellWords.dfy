/**
  Reading a shell-quoted directory back out of a scoped quality command: the SDK quotes it, the gate runner
  unquotes it, and a POSIX shell would read the same word.
*/
module ShellWords {
  import opened Text
  import opened Wrappers

  predicate IsPlainChar(c: char) {
    'a' <= c <= 'z' || 'A' <= c <= 'Z' || '0' <= c <= '9' || c == '/' || c == '.' || c == '_' || c == '-'
  }

  predicate IsPlainWord(s: string) {
    forall i :: 0 <= i < |s| ==> IsPlainChar(s[i])
  }

  /** `value.replace('\'', "'\\''")`. */
  function EscapeQuotes(value: string): string {
    if value == "" then ""
    else (if value[0] == '\'' then "'\\''" else [value[0]]) + EscapeQuotes(value[1..])
  }

  /** `shell_quote`. */
  function ShellQuote(value: string): string {
    if value != "" && IsPlainWord(value) then value else "'" + EscapeQuotes(value) + "'"
  }

  function Prepend(s: string, r: Option<string>): Option<string> {
    match r
    case None => None
    case Some(more) => Some(s + more)
  }

  /** Reads single-quoted stretches and escaped quotes, one after the other; None where the code refuses. */
  function ReadUnits(s: string, inQuotes: bool): Option<string>
    decreases |s|
  {
    if s == "" then if inQuotes then None else Some("")
    else if inQuotes then
      if s[0] == '\'' then ReadUnits(s[1..], false) else Prepend([s[0]], ReadUnits(s[1..], true))
    else if s[0] == '\'' then ReadUnits(s[1..], true)
    else if s[0] == '\\' && |s| >= 2 && s[1] == '\'' then Prepend("'", ReadUnits(s[2..], false))
    else None
  }

  function Unquoted(value: string): Option<string> {
    if value == "" then None
    else if IsPlainWord(value) then Some(value)
    else ReadUnits(value, false)
  }

  /** `unquote_shell_word`. */
  method UnquoteShellWord(value: string) returns (word: Option<string>)
    ensures word == Unquoted(value)
  {
    if value == "" {
      return None;
    }
    if IsPlainWord(value) {
      return Some(value);
    }
    var output := "";
    var i := 0;
    PrependEmpty(ReadUnits(value, false));
    assert value[0..] == value;
    while i < |value|
      invariant i <= |value|
      invariant ReadUnits(value, false) == Prepend(output, ReadUnits(value[i..], false))
    {
      var c := value[i];
      i := i + 1;
      assert value[i - 1..][1..] == value[i..];
      if c == '\'' {
        while true
          invariant i <= |value|
          invariant ReadUnits(value, false) == Prepend(output, ReadUnits(value[i..], true))
          decreases |value| - i
        {
          if i == |value| {
            return None;
          }
          c := value[i];
          i := i + 1;
          assert value[i - 1..][1..] == value[i..];
          if c == '\'' {
            break;
          }
          PrependsJoin(output, [c], ReadUnits(value[i..], true));
          output := output + [c];
        }
      } else if c == '\\' && i < |value| && value[i] == '\'' {
        assert value[i - 1..][2..] == value[i + 1..];
        i := i + 1;
        PrependsJoin(output, "'", ReadUnits(value[i..], false));
        output := output + "'";
      } else {
        return None;
      }
    }
    assert output + "" == output;
    word := Some(output);
  }

  lemma PrependEmpty(r: Option<string>)
    ensures Prepend("", r) == r
  {
    if r.Some? {
      assert "" + r.value == r.value;
    }
  }

  lemma PrependsJoin(a: string, b: string, r: Option<string>)
    ensures Prepend(a, Prepend(b, r)) == Prepend(a + b, r)
  {
    if r.Some? {
      assert a + (b + r.value) == a + b + r.value;
    }
  }

  /** Inside the quotation an escaped value and the closing quote read as the value. */
  lemma {:induction false} QuotedReadsBack(value: string)
    ensures ReadUnits(EscapeQuotes(value) + "'", true) == Some(value)
  {
    var s := EscapeQuotes(value) + "'";
    if value != "" {
      QuotedReadsBack(value[1..]);
      var tail := EscapeQuotes(value[1..]) + "'";
      assert [value[0]] + value[1..] == value;
      if value[0] == '\'' {
        assert s == "'\\''" + tail;
        EscapedQuoteReads(tail);
      } else {
        assert s == [value[0]] + tail && s[1..] == tail;
      }
    }
  }

  /** The escape of a quote closes the quotation, adds a quote and opens the next one. */
  lemma EscapedQuoteReads(tail: string)
    ensures ReadUnits("'\\''" + tail, true) == Prepend("'", ReadUnits(tail, true))
  {
    var s := "'\\''" + tail;
    var s1, s3 := s[1..], s[1..][2..];
    assert s[0] == '\'' && s1[0] == '\\' && s1[1] == '\'' && s3[0] == '\'' && s3[1..] == tail;
    assert ReadUnits(s, true) == ReadUnits(s1, false) == Prepend("'", ReadUnits(s3, false));
    assert ReadUnits(s3, false) == ReadUnits(tail, true);
  }

  /** Unquoting gives back every quoted string. */
  lemma UnquoteInvertsQuote(value: string)
    ensures Unquoted(ShellQuote(value)) == Some(value)
  {
    if value == "" || !IsPlainWord(value) {
      QuotedReadsBack(value);
      var quoted := ShellQuote(value);
      assert quoted[1..] == EscapeQuotes(value) + "'" && quoted[0] == '\'';
      assert !IsPlainChar(quoted[0]);
    }
  }

  // ---- What a POSIX shell reads ----

  /**
    Quote removal of the POSIX Shell Command Language (sections 2.2.1 to 2.2.3 and 2.6.7), without the
    expansions, none of which the accepted words contain; None for an unterminated quotation.
  */
  function PosixUnquote(s: string): Option<string>
    decreases |s|
  {
    if s == "" then Some("")
    else if s[0] == '\\' then
      if |s| == 1 then None
      else if s[1] == '\n' then PosixUnquote(s[2..])
      else Prepend([s[1]], PosixUnquote(s[2..]))
    else if s[0] == '\'' then PosixSingleQuoted(s[1..])
    else if s[0] == '"' then PosixDoubleQuoted(s[1..])
    else Prepend([s[0]], PosixUnquote(s[1..]))
  }

  /** Inside single quotes every character stands for itself. */
  function PosixSingleQuoted(s: string): Option<string>
    decreases |s|
  {
    if s == "" then None
    else if s[0] == '\'' then PosixUnquote(s[1..])
    else Prepend([s[0]], PosixSingleQuoted(s[1..]))
  }

  /** Inside double quotes a backslash escapes only `$`, a backquote, `"`, `\` and a newline. */
  function PosixDoubleQuoted(s: string): Option<string>
    decreases |s|
  {
    if s == "" then None
    else if s[0] == '"' then PosixUnquote(s[1..])
    else if s[0] == '\\' && |s| >= 2 && s[1] == '\n' then PosixDoubleQuoted(s[2..])
    else if s[0] == '\\' && |s| >= 2 && s[1] in {'$', '`', '"', '\\'} then Prepend([s[1]], PosixDoubleQuoted(s[2..]))
    else Prepend([s[0]], PosixDoubleQuoted(s[1..]))
  }

  lemma {:induction false} PlainReadsAsItself(s: string)
    requires IsPlainWord(s)
    ensures PosixUnquote(s) == Some(s)
  {
    if s != "" {
      assert IsPlainChar(s[0]);
      PlainReadsAsItself(s[1..]);
      assert [s[0]] + s[1..] == s;
    }
  }

  lemma {:induction false} UnitsReadAsPosix(s: string, inQuotes: bool)
    requires ReadUnits(s, inQuotes).Some?
    ensures ReadUnits(s, inQuotes) == if inQuotes then PosixSingleQuoted(s) else PosixUnquote(s)
    decreases |s|
  {
    if s != "" {
      if inQuotes {
        UnitsReadAsPosix(s[1..], s[0] != '\'');
      } else if s[0] == '\'' {
        UnitsReadAsPosix(s[1..], true);
      } else {
        UnitsReadAsPosix(s[2..], false);
      }
    }
  }

  /** Whatever word the code accepts, a POSIX shell reads the same text. */
  lemma AcceptedWordsArePosix(value: string)
    requires Unquoted(value).Some?
    ensures PosixUnquote(value) == Unquoted(value)
  {
    if IsPlainWord(value) {
      PlainReadsAsItself(value);
    } else {
      UnitsReadAsPosix(value, false);
    }
  }

  // ---- Scoped Go checks ----

  datatype GoCheck = Gofmt | ModTidy

  function CheckText(check: GoCheck): string {
    match check
    case Gofmt => "gofmt-check"
    case ModTidy => "go mod tidy-check"
  }

  function StripSuffix(s: string, suffix: string): Option<string> {
    if EndsWith(s, suffix) then Some(s[..|s| - |suffix|]) else None
  }

  function StripPrefix(s: string, prefix: string): Option<string> {
    if prefix <= s then Some(s[|prefix|..]) else None
  }

  /** `scoped_command`. */
  function ScopedCommand(dir: string, command: string): string {
    if dir == "." then command else "cd " + ShellQuote(dir) + (" && " + command)
  }

  function StripCheck(command: string): Option<(string, GoCheck)> {
    match StripSuffix(command, " && " + CheckText(Gofmt))
    case Some(prefix) => Some((prefix, Gofmt))
    case None =>
      match StripSuffix(command, " && " + CheckText(ModTidy))
      case Some(prefix) => Some((prefix, ModTidy))
      case None => None
  }

  /** `parse_scoped_go_logical_command`; the error is the one for an unreadable directory word. */
  function ParseScopedCheck(command: string): Result<Option<(string, GoCheck)>, ()> {
    match StripCheck(command)
    case None => Ok(None)
    case Some((cdPart, check)) =>
      match StripPrefix(cdPart, "cd ")
      case None => Ok(None)
      case Some(word) =>
        match Unquoted(word)
        case None => Err(())
        case Some(scope) => Ok(Some((scope, check)))
  }

  lemma StripSuffixIs(s: string, suffix: string)
    ensures StripSuffix(s + suffix, suffix) == Some(s)
  {
    assert (s + suffix)[|s|..] == suffix && (s + suffix)[..|s|] == s;
  }

  lemma ChecksEndDifferently(s: string)
    ensures !EndsWith(s + (" && " + CheckText(ModTidy)), " && " + CheckText(Gofmt))
  {
    var tidy, fmt := " && " + CheckText(ModTidy), " && " + CheckText(Gofmt);
    var t := s + tidy;
    assert t[|t| - 7] == tidy[|tidy| - 7] == 'y';
    assert fmt[|fmt| - 7] == 't';
    assert t[|t| - |fmt|..][|fmt| - 7] == t[|t| - 7];
  }

  /** A scoped Go check built by the SDK for any directory is recognised with that very directory. */
  lemma ScopedCheckRoundTrip(dir: string, check: GoCheck)
    requires dir != "."
    ensures ParseScopedCheck(ScopedCommand(dir, CheckText(check))) == Ok(Some((dir, check)))
  {
    var cdPart := "cd " + ShellQuote(dir);
    StripSuffixIs(cdPart, " && " + CheckText(check));
    if check == ModTidy {
      ChecksEndDifferently(cdPart);
    }
    assert cdPart[3..] == ShellQuote(dir);
    UnquoteInvertsQuote(dir);
  }
}
