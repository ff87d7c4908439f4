/** The string operations of the Rust standard library that the modelled code uses. */
module Text {
  import opened Sequences
  import opened Wrappers

  // ---- Searching ----

  ghost predicate OccursAt(s: string, needle: string, i: nat) {
    i + |needle| <= |s| && s[i..i + |needle|] == needle
  }

  lemma OccursInTail(s: string, needle: string, i: nat)
    requires 1 <= i <= |s|
    ensures OccursAt(s, needle, i) <==> OccursAt(s[1..], needle, i - 1)
  {
    if i + |needle| <= |s| {
      SliceOfDrop(s, 1, i - 1, i - 1 + |needle|);
    }
  }

  ghost predicate IsFirstOccurrence(s: string, needle: string, r: Option<nat>) {
    && (r.Some? ==> OccursAt(s, needle, r.value) && forall i :: 0 <= i < r.value ==> !OccursAt(s, needle, i))
    && (r.None? ==> forall i :: 0 <= i <= |s| ==> !OccursAt(s, needle, i))
  }

  lemma FoundInTail(s: string, needle: string, r: Option<nat>)
    requires s != "" && !(needle <= s) && IsFirstOccurrence(s[1..], needle, r)
    ensures IsFirstOccurrence(s, needle, match r case None => None case Some(i) => Some(i + 1))
  {
    assert !OccursAt(s, needle, 0);
    forall i | 1 <= i <= |s|
      ensures OccursAt(s, needle, i) <==> OccursAt(s[1..], needle, i - 1)
    {
      OccursInTail(s, needle, i);
    }
  }

  /** `str::find`: the first position of `needle`. */
  function Find(s: string, needle: string): (r: Option<nat>)
    ensures r.Some? ==> OccursAt(s, needle, r.value) && forall i :: 0 <= i < r.value ==> !OccursAt(s, needle, i)
    ensures r.None? ==> forall i :: 0 <= i <= |s| ==> !OccursAt(s, needle, i)
  {
    if needle <= s then assert OccursAt(s, needle, 0); Some(0)
    else if s == "" then None
    else
      var r := Find(s[1..], needle);
      FoundInTail(s, needle, r);
      match r
      case None => None
      case Some(i) => Some(i + 1)
  }

  predicate Contains(s: string, needle: string) {
    Find(s, needle).Some?
  }

  /** A position where `needle` occurs and no earlier one is what `Find` returns. */
  lemma FindIs(s: string, needle: string, i: nat)
    requires OccursAt(s, needle, i) && forall j :: 0 <= j < i ==> !OccursAt(s, needle, j)
    ensures Find(s, needle) == Some(i)
  {
    assert i <= |s|;
    assert Find(s, needle).Some? && !(i < Find(s, needle).value);
  }

  lemma PrefixOccurs(s: string, needle: string, prefix: string, i: nat)
    requires OccursAt(s, needle, i) && prefix <= needle
    ensures OccursAt(s, prefix, i)
  {
    assert s[i..][0..|needle|] == s[i..i + |needle|];
    SliceOfDrop(s, i, 0, |prefix|);
    assert forall j :: 0 <= j < |prefix| ==> s[i..i + |needle|][j] == s[i + j] == prefix[j];
    assert |s[i..i + |prefix|]| == |prefix|;
  }

  /** A text that contains a needle contains every prefix of it. */
  lemma ContainsPrefix(s: string, needle: string, prefix: string)
    requires Contains(s, needle) && prefix <= needle
    ensures Contains(s, prefix)
  {
    var i := Find(s, needle).value;
    PrefixOccurs(s, needle, prefix, i);
  }

  lemma SliceOfSlice(s: string, a: nat, b: nat, c: nat, d: nat)
    requires a <= b <= |s| && c <= d <= b - a
    ensures s[a..b][c..d] == s[a + c..a + d]
  {
    assert forall k :: 0 <= k < d - c ==> s[a..b][c..d][k] == s[a..b][c + k] == s[a + c..a + d][k];
  }

  /** What holds a needle holds each of its parts. */
  lemma ContainsPart(s: string, before: string, part: string, after: string)
    requires Contains(s, before + part + after)
    ensures Contains(s, part)
  {
    var needle := before + part + after;
    var i := Find(s, needle).value;
    assert s[i..i + |needle|] == needle;
    assert needle[|before|..|before| + |part|] == part;
    SliceOfSlice(s, i, i + |needle|, |before|, |before| + |part|);
    assert OccursAt(s, part, i + |before|);
  }

  lemma OccursAfter(prefix: string, rest: string, needle: string, i: nat)
    requires |prefix| <= i
    ensures OccursAt(prefix + rest, needle, i) <==> OccursAt(rest, needle, i - |prefix|)
  {
    var s := prefix + rest;
    assert s[|prefix|..] == rest;
    if i + |needle| <= |s| {
      SliceOfDrop(s, |prefix|, i - |prefix|, i - |prefix| + |needle|);
    }
  }

  lemma OccursInFront(s: string, rest: string, needle: string, i: nat)
    requires OccursAt(s, needle, i)
    ensures OccursAt(s + rest, needle, i) && Contains(s + rest, needle)
  {
    assert (s + rest)[i..i + |needle|] == s[i..i + |needle|];
    assert i <= |s + rest| && OccursAt(s + rest, needle, i);
  }

  predicate EndsWith(s: string, suffix: string) {
    |suffix| <= |s| && s[|s| - |suffix|..] == suffix
  }

  /** `str::split_once` on one character. */
  function SplitOnce(s: string, c: char): (r: Option<(string, string)>)
    ensures r.Some? ==> s == r.value.0 + [c] + r.value.1 && c !in r.value.0
    ensures r.None? <==> c !in s
  {
    if s == "" then None
    else if s[0] == c then Some(("", s[1..]))
    else
      match SplitOnce(s[1..], c)
      case None => None
      case Some((before, after)) => Some(([s[0]] + before, after))
  }

  lemma SplitOnceIs(before: string, c: char, after: string)
    requires c !in before
    ensures SplitOnce(before + [c] + after, c) == Some((before, after))
  {
    var s := before + [c] + after;
    assert s[|before|] == c;
    var r := SplitOnce(s, c).value;
    assert s[|r.0|] == c;
    assert forall i :: 0 <= i < |before| ==> s[i] == before[i];
    assert forall i :: 0 <= i < |r.0| ==> s[i] == r.0[i];
    assert |r.0| == |before|;
    assert r.0 == s[..|before|] == before && r.1 == s[|before| + 1..] == after;
  }

  // ---- White space ----

  /** `char::is_whitespace`: the Unicode White_Space property. */
  predicate IsWhitespace(c: char) {
    var n := c as int;
    9 <= n <= 13 || n == 0x20 || n == 0x85 || n == 0xA0 || n == 0x1680 || 0x2000 <= n <= 0x200A
    || n == 0x2028 || n == 0x2029 || n == 0x202F || n == 0x205F || n == 0x3000
  }

  predicate IsWord(s: string) {
    s != "" && forall c :: c in s ==> !IsWhitespace(c)
  }

  function TrimStart(s: string): (t: string)
    ensures |t| <= |s| && t == s[|s| - |t|..]
    ensures t != "" ==> !IsWhitespace(t[0])
    ensures forall i :: 0 <= i < |s| - |t| ==> IsWhitespace(s[i])
  {
    if s != "" && IsWhitespace(s[0]) then TrimStart(s[1..]) else s
  }

  function TrimEnd(s: string): (t: string)
    ensures t <= s
    ensures t != "" ==> !IsWhitespace(t[|t| - 1])
    ensures forall i :: |t| <= i < |s| ==> IsWhitespace(s[i])
  {
    if s != "" && IsWhitespace(s[|s| - 1]) then TrimEnd(s[..|s| - 1]) else s
  }

  function Trim(s: string): string {
    TrimEnd(TrimStart(s))
  }

  predicate IsBlank(s: string) {
    forall i :: 0 <= i < |s| ==> IsWhitespace(s[i])
  }

  predicate IsTrimmed(s: string) {
    s == "" || (!IsWhitespace(s[0]) && !IsWhitespace(s[|s| - 1]))
  }

  lemma TrimKeepsTrimmed(s: string)
    requires IsTrimmed(s)
    ensures Trim(s) == s
  {
  }

  lemma CutRejoins(s: string, n: nat)
    requires n <= |s|
    ensures s == s[..n] + s[n..]
  {
  }

  lemma StartParts(s: string) returns (before: string, rest: string)
    ensures rest == TrimStart(s) && s == before + rest && IsBlank(before) && (rest != "" ==> !IsWhitespace(rest[0]))
  {
    rest := TrimStart(s);
    before := s[..|s| - |rest|];
    CutRejoins(s, |s| - |rest|);
  }

  lemma EndParts(s: string) returns (t: string, after: string)
    ensures t == TrimEnd(s) && s == t + after && IsBlank(after) && (t != "" ==> !IsWhitespace(t[|t| - 1]))
  {
    t := TrimEnd(s);
    after := s[|t|..];
  }

  /** What `trim` keeps, with what it takes off in front and behind. */
  lemma TrimParts(s: string) returns (before: string, t: string, after: string)
    ensures t == Trim(s) && IsTrimmed(t) && s == before + t + after && IsBlank(before) && IsBlank(after)
  {
    var rest;
    before, rest := StartParts(s);
    t, after := EndParts(rest);
    assert t != "" ==> t[0] == rest[0];
    Reassociate(before, t, after);
  }

  lemma TrimTwice(s: string)
    ensures IsTrimmed(Trim(s)) && Trim(Trim(s)) == Trim(s)
  {
    var _, t, _ := TrimParts(s);
    TrimKeepsTrimmed(t);
  }

  /** White space around a trimmed text is what `trim` takes off. */
  lemma TrimPadded(before: string, core: string, after: string)
    requires IsTrimmed(core) && IsBlank(before) && IsBlank(after)
    ensures Trim(before + core + after) == core
  {
    var b, t, a := TrimParts(before + core + after);
    SameCore(before, core, after, b, t, a);
  }

  lemma SameCore(before: string, core: string, after: string, b: string, t: string, a: string)
    requires IsTrimmed(core) && IsTrimmed(t) && before + core + after == b + t + a
    requires IsBlank(before) && IsBlank(after) && IsBlank(b) && IsBlank(a)
    ensures core == t
  {
    var s := before + core + after;
    assert forall i :: 0 <= i < |before| ==> s[i] == before[i];
    assert forall i :: 0 <= i < |core| ==> s[|before| + i] == core[i];
    assert forall i :: 0 <= i < |after| ==> s[|before| + |core| + i] == after[i];
    assert forall i :: 0 <= i < |b| ==> s[i] == b[i];
    assert forall i :: 0 <= i < |t| ==> s[|b| + i] == t[i];
    assert forall i :: 0 <= i < |a| ==> s[|b| + |t| + i] == a[i];
    if core != "" && t != "" {
      assert IsWhitespace(s[|before|]) <==> IsWhitespace(core[0]);
      assert |before| == |b|;
      assert |core| == |t|;
      assert core == s[|before|..|before| + |core|];
      assert t == s[|b|..|b| + |t|];
    }
  }

  /** Length of the leading run of non-space characters. */
  function WordLength(s: string): (n: nat)
    ensures n <= |s| && (forall i :: 0 <= i < n ==> !IsWhitespace(s[i])) && (n < |s| ==> IsWhitespace(s[n]))
  {
    if s == "" || IsWhitespace(s[0]) then 0 else 1 + WordLength(s[1..])
  }

  /** `str::split_whitespace`. */
  function SplitWhitespace(s: string): seq<string>
    decreases |s|
  {
    var t := TrimStart(s);
    if t == "" then []
    else
      var n := WordLength(t);
      [t[..n]] + SplitWhitespace(t[n..])
  }

  /** Every word followed by one space. */
  function JoinSpaced(words: seq<string>): string {
    if words == [] then "" else words[0] + " " + JoinSpaced(words[1..])
  }

  lemma FirstWord(w: string, rest: string)
    requires IsWord(w)
    ensures SplitWhitespace(w + " " + rest) == [w] + SplitWhitespace(rest)
  {
    var s := w + " " + rest;
    assert s[0] == w[0] && s[0] in w && s[|w|] == ' ';
    assert TrimStart(s) == s;
    WordLengthIs(w, rest);
    assert s[..|w|] == w && s[|w|..] == " " + rest;
    SpaceIsSkipped(rest);
  }

  lemma {:induction false} WordLengthIs(w: string, rest: string)
    requires forall c :: c in w ==> !IsWhitespace(c)
    ensures WordLength(w + " " + rest) == |w|
  {
    var s := w + " " + rest;
    assert s[|w|] == ' ';
    assert forall i :: 0 <= i < |w| ==> s[i] == w[i] && s[i] in w;
  }

  lemma {:induction false} SplitJoined(words: seq<string>)
    requires forall w :: w in words ==> IsWord(w)
    ensures SplitWhitespace(JoinSpaced(words)) == words
  {
    if words != [] {
      FirstWord(words[0], JoinSpaced(words[1..]));
      SplitJoined(words[1..]);
    }
  }

  lemma SpaceIsTrimmed(rest: string)
    ensures TrimStart(" " + rest) == TrimStart(rest)
  {
    assert (" " + rest)[1..] == rest && IsWhitespace(' ');
  }

  lemma SpaceIsSkipped(rest: string)
    ensures SplitWhitespace(" " + rest) == SplitWhitespace(rest)
  {
    SpaceIsTrimmed(rest);
  }

  // ---- Lines ----

  function StripCarriageReturn(line: string): string {
    if line != "" && line[|line| - 1] == '\r' then line[..|line| - 1] else line
  }

  /** `str::lines`: a line ends with a newline, or a carriage return and a newline; the last one may be open. */
  function Lines(s: string): seq<string>
    decreases |s|
  {
    if s == "" then []
    else
      match SplitOnce(s, '\n')
      case None => [s]
      case Some((line, rest)) => [StripCarriageReturn(line)] + Lines(rest)
  }

  /** Every line followed by a newline. */
  function Unline(lines: seq<string>): string {
    if lines == [] then "" else lines[0] + "\n" + Unline(lines[1..])
  }

  /** A text that is one line and comes back from `Lines` as it is. */
  predicate IsOneLine(s: string) {
    '\n' !in s && (s == "" || s[|s| - 1] != '\r')
  }

  predicate EndsLine(s: string) {
    s == "" || s[|s| - 1] == '\n'
  }

  lemma FirstLine(line: string, rest: string)
    requires '\n' !in line
    ensures Lines(line + "\n" + rest) == [StripCarriageReturn(line)] + Lines(rest)
  {
    assert line + "\n" + rest == line + ['\n'] + rest;
    SplitOnceIs(line, '\n', rest);
  }

  lemma CutLine(s: string) returns (line: string, rest: string)
    requires '\n' in s
    ensures s == line + "\n" + rest && '\n' !in line
    ensures EndsLine(s) ==> EndsLine(rest)
  {
    var pair := SplitOnce(s, '\n').value;
    line, rest := pair.0, pair.1;
    assert rest != "" ==> rest[|rest| - 1] == s[|s| - 1];
  }

  /** Text that starts after a complete line is split on its own. */
  lemma {:induction false} LinesConcat(a: string, b: string)
    requires EndsLine(a)
    ensures Lines(a + b) == Lines(a) + Lines(b)
    decreases |a|
  {
    if a == "" {
      assert a + b == b;
    } else {
      var line, rest := CutLine(a);
      LinesConcat(rest, b);
      ConcatAfterLine(line, rest, b);
    }
  }

  lemma ConcatAfterLine(line: string, rest: string, b: string)
    requires '\n' !in line && Lines(rest + b) == Lines(rest) + Lines(b)
    ensures Lines((line + "\n" + rest) + b) == Lines(line + "\n" + rest) + Lines(b)
  {
    Reassociate(line + "\n", rest, b);
    FirstLine(line, rest);
    FirstLine(line, rest + b);
    Reassociate([StripCarriageReturn(line)], Lines(rest), Lines(b));
  }

  lemma {:induction false} LinesOfUnline(lines: seq<string>)
    requires forall i :: 0 <= i < |lines| ==> IsOneLine(lines[i])
    ensures Lines(Unline(lines)) == lines
  {
    if lines != [] {
      assert IsOneLine(lines[0]);
      FirstLine(lines[0], Unline(lines[1..]));
      LinesOfUnline(lines[1..]);
    }
  }

  lemma {:induction false} UnlineEnds(lines: seq<string>)
    ensures EndsLine(Unline(lines))
  {
    if lines != [] {
      UnlineEnds(lines[1..]);
    }
  }

  // ---- Order and case ----

  /** The order of Rust's `String`: lexicographic by character code. */
  predicate Less(a: string, b: string) {
    if b == "" then false
    else if a == "" then true
    else a[0] < b[0] || (a[0] == b[0] && Less(a[1..], b[1..]))
  }

  /** The texts agree up to place `n`, where `a` ends or has the smaller character. */
  ghost predicate IsSmallerAt(a: string, b: string, n: nat) {
    n <= |a| && n < |b| && a[..n] == b[..n] && (n < |a| ==> a[n] < b[n])
  }

  lemma {:induction false} LessIff(a: string, b: string)
    ensures Less(a, b) <==> exists n :: IsSmallerAt(a, b, n)
  {
    if a == "" || b == "" {
      assert b != "" ==> IsSmallerAt(a, b, 0);
    } else {
      LessIff(a[1..], b[1..]);
      assert a == [a[0]] + a[1..] && b == [b[0]] + b[1..];
      if a[0] < b[0] {
        assert IsSmallerAt(a, b, 0);
      }
      if n: nat :| a[0] == b[0] && IsSmallerAt(a[1..], b[1..], n) {
        assert a[..n + 1] == [a[0]] + a[1..][..n] && b[..n + 1] == [b[0]] + b[1..][..n];
        assert IsSmallerAt(a, b, n + 1);
      }
      if n: nat :| n > 0 && IsSmallerAt(a, b, n) {
        assert a[0] == a[..n][0] == b[..n][0] == b[0];
        assert a[1..][..n - 1] == a[..n][1..] && b[1..][..n - 1] == b[..n][1..];
        assert IsSmallerAt(a[1..], b[1..], n - 1);
      }
    }
  }

  lemma {:induction false} LessIsTransitive(a: string, b: string, c: string)
    requires Less(a, b) && Less(b, c)
    ensures Less(a, c)
  {
    if a != "" && a[0] == b[0] == c[0] {
      LessIsTransitive(a[1..], b[1..], c[1..]);
    }
  }

  lemma {:induction false} LessIsTotal(a: string, b: string)
    ensures (Less(a, b) || Less(b, a)) <==> a != b
    ensures !(Less(a, b) && Less(b, a))
  {
    if a != "" && b != "" {
      LessIsTotal(a[1..], b[1..]);
      assert a == [a[0]] + a[1..] && b == [b[0]] + b[1..];
    }
  }

  predicate IsDigit(c: char) {
    '0' <= c <= '9'
  }

  function LowerChar(c: char): char {
    if 'A' <= c <= 'Z' then (c as int + 32) as char else c
  }

  /** `to_ascii_lowercase`. */
  function ToLower(s: string): (t: string)
    ensures |t| == |s| && forall i :: 0 <= i < |s| ==> t[i] == LowerChar(s[i])
  {
    seq(|s|, i requires 0 <= i < |s| => LowerChar(s[i]))
  }
}
