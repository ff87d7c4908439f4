/**
  The compact printer of the JSON library: no white space, numbers as their text, control characters escaped.  No
  two values print the same text, so whatever redaction relies on is up to the parser alone.
*/
module CompactJson {
  import opened Redaction
  import opened Text
  import opened Wrappers

  function HexDigit(n: nat): char
    requires n < 16
  {
    if n < 10 then '0' + n as char else 'a' + (n - 10) as char
  }

  function EscapeChar(c: char): string {
    var n := c as int;
    if c == '"' then "\\\""
    else if c == '\\' then "\\\\"
    else if n == 8 then "\\b"
    else if n == 9 then "\\t"
    else if n == 10 then "\\n"
    else if n == 12 then "\\f"
    else if n == 13 then "\\r"
    else if n < 32 then ['\\', 'u', '0', '0', HexDigit(n / 16), HexDigit(n % 16)]
    else [c]
  }

  function HexValue(c: char): Option<nat> {
    if '0' <= c <= '9' then Some(c as int - '0' as int)
    else if 'a' <= c <= 'f' then Some(c as int - 'a' as int + 10)
    else if 'A' <= c <= 'F' then Some(c as int - 'A' as int + 10)
    else None
  }

  /** The character that an element of a JSON string stands for, by section 7 of RFC 8259, surrogates left out. */
  function ReadElement(e: string): Option<char> {
    if |e| == 1 then if e[0] == '"' || e[0] == '\\' || e[0] < ' ' then None else Some(e[0])
    else if |e| == 2 && e[0] == '\\' then
      match e[1]
      case '"' => Some('"')
      case '\\' => Some('\\')
      case '/' => Some('/')
      case 'b' => Some(8 as char)
      case 'f' => Some(12 as char)
      case 'n' => Some(10 as char)
      case 'r' => Some(13 as char)
      case 't' => Some(9 as char)
      case _ => None
    else if |e| == 6 && e[0] == '\\' && e[1] == 'u' then
      match (HexValue(e[2]), HexValue(e[3]), HexValue(e[4]), HexValue(e[5]))
      case (Some(a), Some(b), Some(c), Some(d)) =>
        var n := 4096 * a + 256 * b + 16 * c + d;
        if n < 0xD800 then Some(n as char) else None
      case _ => None
    else None
  }

  /** What the printer writes for a character is a JSON string element that stands for it. */
  lemma EscapeReadsBack(c: char)
    ensures ReadElement(EscapeChar(c)) == Some(c)
  {
    var n := c as int;
    if n < 32 {
      assert HexValue(HexDigit(n / 16)) == Some(n / 16) && HexValue(HexDigit(n % 16)) == Some(n % 16);
      assert n == 16 * (n / 16) + n % 16;
    }
  }

  /** The rest of a quoted text, its closing quote and what follows. */
  function TextOn(text: string, next: string): string {
    if text == "" then "\"" + next else EscapeChar(text[0]) + TextOn(text[1..], next)
  }

  /** A value, followed by `next`. */
  function RenderOn(v: Json, next: string): string
    decreases v
  {
    match v
    case Null => "null" + next
    case Bool(flag) => (if flag then "true" else "false") + next
    case Number(digits) => digits + next
    case Str(text) => "\"" + TextOn(text, next)
    case Arr(items) => "[" + ItemsOn(items, "", next)
    case Obj(fields) => "{" + FieldsOn(fields, "", next)
  }

  /** Items of which all but the first follow a comma, and the closing bracket. */
  function ItemsOn(items: seq<Json>, separator: string, next: string): string
    decreases items
  {
    if items == [] then "]" + next else separator + RenderOn(items[0], ItemsOn(items[1..], ",", next))
  }

  function FieldOn(field: (string, Json), next: string): string
    decreases field
  {
    "\"" + TextOn(field.0, ":" + RenderOn(field.1, next))
  }

  function FieldsOn(fields: seq<(string, Json)>, separator: string, next: string): string
    decreases fields
  {
    if fields == [] then "}" + next
    else separator + FieldOn(fields[0], FieldsOn(fields[1..], ",", next))
  }

  /** `serde_json::to_string`. */
  function Render(v: Json): string {
    RenderOn(v, "")
  }

  // ---- No two values print the same text ----

  lemma SameTail(a: string, x: string, y: string)
    requires a + x == a + y
    ensures x == y
  {
    assert x == (a + x)[|a|..] && y == (a + y)[|a|..];
  }

  lemma HexDigitsDiffer(m: nat, n: nat)
    requires m < 16 && n < 16 && HexDigit(m) == HexDigit(n)
    ensures m == n
  {
  }

  lemma EscapeShape(c: char)
    ensures var e := EscapeChar(c);
            && (c == '"' ==> e == ['\\', '"']) && (c == '\\' ==> e == ['\\', '\\'])
            && (c != '"' && c != '\\' && c as int >= 32 ==> e == [c])
            && (c as int < 32 ==> |e| >= 2 && e[0] == '\\' && e[1] !in {'"', '\\'})
  {
  }

  /** The escapes of the control characters are told apart by their second character, or by their digits. */
  lemma ControlEscapesDiffer(c: char, d: char, x: string, y: string)
    requires c as int < 32 && d as int < 32 && EscapeChar(c) + x == EscapeChar(d) + y
    ensures c == d
  {
    var e, f := EscapeChar(c), EscapeChar(d);
    var s := e + x;
    assert s[1] == e[1] == f[1];
    if e[1] == 'u' {
      assert s[4] == e[4] == f[4] && s[5] == e[5] == f[5];
      HexDigitsDiffer(c as int / 16, d as int / 16);
      HexDigitsDiffer(c as int % 16, d as int % 16);
    }
  }

  lemma EscapesDiffer(c: char, d: char, x: string, y: string)
    requires EscapeChar(c) + x == EscapeChar(d) + y
    ensures c == d && x == y
  {
    EscapeShape(c);
    EscapeShape(d);
    var s := EscapeChar(c) + x;
    assert s[0] == EscapeChar(c)[0] == EscapeChar(d)[0];
    if c as int < 32 && d as int < 32 {
      ControlEscapesDiffer(c, d, x, y);
    } else if s[0] == '\\' {
      assert s[1] == EscapeChar(c)[1] == EscapeChar(d)[1];
    }
    SameTail(EscapeChar(c), x, y);
  }

  lemma TextStart(text: string, next: string)
    ensures TextOn(text, next) != "" && (TextOn(text, next)[0] == '"' <==> text == "")
  {
    if text != "" {
      EscapeShape(text[0]);
    }
  }

  lemma {:induction false} TextsDiffer(s: string, t: string, x: string, y: string)
    requires TextOn(s, x) == TextOn(t, y)
    ensures s == t && x == y
  {
    TextStart(s, x);
    TextStart(t, y);
    if s == "" {
      SameTail("\"", x, y);
    } else {
      EscapesDiffer(s[0], t[0], TextOn(s[1..], x), TextOn(t[1..], y));
      TextsDiffer(s[1..], t[1..], x, y);
      assert s == [s[0]] + s[1..] && t == [t[0]] + t[1..];
    }
  }

  predicate IsNumberChar(c: char) {
    IsDigit(c) || c == '-' || c == '+' || c == '.' || c == 'e' || c == 'E'
  }

  /** Every number text of JSON is such a text. */
  predicate IsNumberText(s: string) {
    s != "" && (IsDigit(s[0]) || s[0] == '-') && IsDigit(s[|s| - 1]) && forall i :: 0 <= i < |s| ==> IsNumberChar(s[i])
  }

  /** What can follow a value: nothing, a comma or a closing bracket. */
  predicate IsFollow(s: string) {
    s == "" || s[0] == ',' || s[0] == ']' || s[0] == '}'
  }

  lemma NumbersDiffer(d: string, e: string, x: string, y: string)
    requires IsNumberText(d) && IsNumberText(e) && IsFollow(x) && IsFollow(y) && d + x == e + y
    ensures d == e && x == y
  {
    var s := d + x;
    assert forall i :: 0 <= i < |d| ==> s[i] == d[i];
    assert forall i :: 0 <= i < |e| ==> s[i] == e[i];
    assert |d| < |s| ==> s[|d|] == x[0];
    assert |e| < |s| ==> s[|e|] == y[0];
    assert |d| == |e|;
    assert d == s[..|d|] && e == s[..|e|] && x == s[|d|..] && y == s[|e|..];
  }

  /** A value as the JSON library holds it: its own number texts, and the keys of every object in ascending order. */
  predicate IsValue(holds: string -> bool, v: Json)
    decreases v
  {
    match v
    case Number(digits) => holds(digits)
    case Arr(items) => forall i :: 0 <= i < |items| ==> IsValue(holds, items[i])
    case Obj(fields) =>
      && (forall i, j :: 0 <= i < j < |fields| ==> Less(fields[i].0, fields[j].0))
      && forall i :: 0 <= i < |fields| ==> IsValue(holds, fields[i].1)
    case _ => true
  }

  ghost predicate IsNumeric(holds: string -> bool) {
    forall d :: holds(d) ==> IsNumberText(d)
  }

  /** The first character tells the kind of value. */
  predicate StartsLike(v: Json, c: char) {
    match v
    case Null => c == 'n'
    case Bool(flag) => c == if flag then 't' else 'f'
    case Number(_) => IsDigit(c) || c == '-'
    case Str(_) => c == '"'
    case Arr(_) => c == '['
    case Obj(_) => c == '{'
  }

  lemma RenderStart(holds: string -> bool, v: Json, next: string)
    requires IsNumeric(holds) && IsValue(holds, v)
    ensures RenderOn(v, next) != "" && StartsLike(v, RenderOn(v, next)[0])
  {
  }

  lemma LeavesDiffer(holds: string -> bool, v: Json, w: Json, x: string, y: string)
    requires IsNumeric(holds) && IsValue(holds, v) && IsValue(holds, w) && IsFollow(x) && IsFollow(y)
    requires RenderOn(v, x) == RenderOn(w, y) && !v.Arr? && !v.Obj?
    ensures v == w && x == y
  {
    RenderStart(holds, v, x);
    RenderStart(holds, w, y);
    match v
    case Null => SameTail("null", x, y);
    case Bool(flag) => SameTail(if flag then "true" else "false", x, y);
    case Number(digits) => NumbersDiffer(digits, w.digits, x, y);
    case Str(text) =>
      SameTail("\"", TextOn(text, x), TextOn(w.text, y));
      TextsDiffer(text, w.text, x, y);
  }

  lemma ListEnds(items: seq<Json>, fields: seq<(string, Json)>, next: string)
    ensures ItemsOn(items, ",", next) != "" && ItemsOn(items, ",", next)[0] == if items == [] then ']' else ','
    ensures FieldsOn(fields, ",", next) != "" && FieldsOn(fields, ",", next)[0] == if fields == [] then '}' else ','
  {
  }

  /** Printed values that agree, each followed by what can follow a value, are the same and followed by the same. */
  lemma {:induction false} ValuesDiffer(holds: string -> bool, v: Json, w: Json, x: string, y: string)
    requires IsNumeric(holds) && IsValue(holds, v) && IsValue(holds, w) && IsFollow(x) && IsFollow(y)
    requires RenderOn(v, x) == RenderOn(w, y)
    ensures v == w && x == y
    decreases v
  {
    RenderStart(holds, v, x);
    RenderStart(holds, w, y);
    match v
    case Arr(items) =>
      SameTail("[", ItemsOn(items, "", x), ItemsOn(w.items, "", y));
      ItemsDiffer(holds, items, w.items, "", x, y);
    case Obj(fields) =>
      SameTail("{", FieldsOn(fields, "", x), FieldsOn(w.fields, "", y));
      FieldsDiffer(holds, fields, w.fields, "", x, y);
    case _ => LeavesDiffer(holds, v, w, x, y);
  }

  ghost predicate AreValues(holds: string -> bool, items: seq<Json>) {
    forall i :: 0 <= i < |items| ==> IsValue(holds, items[i])
  }

  lemma ItemsStart(holds: string -> bool, items: seq<Json>, separator: string, next: string)
    requires IsNumeric(holds) && AreValues(holds, items) && (separator == "" || separator == ",")
    ensures ItemsOn(items, separator, next) != "" && (ItemsOn(items, separator, next)[0] == ']' <==> items == [])
  {
    if items != [] {
      RenderStart(holds, items[0], ItemsOn(items[1..], ",", next));
      if separator == "" {
        assert ItemsOn(items, separator, next) == RenderOn(items[0], ItemsOn(items[1..], ",", next));
      }
    }
  }

  lemma {:induction false} ItemsDiffer(holds: string -> bool, items: seq<Json>, others: seq<Json>, separator: string, x: string, y: string)
    requires IsNumeric(holds) && AreValues(holds, items) && AreValues(holds, others) && (separator == "" || separator == ",")
    requires ItemsOn(items, separator, x) == ItemsOn(others, separator, y)
    ensures items == others && x == y
    decreases items
  {
    ItemsStart(holds, items, separator, x);
    ItemsStart(holds, others, separator, y);
    if items == [] {
      SameTail("]", x, y);
    } else {
      var next, next' := ItemsOn(items[1..], ",", x), ItemsOn(others[1..], ",", y);
      ListEnds(items[1..], [], x);
      ListEnds(others[1..], [], y);
      SameTail(separator, RenderOn(items[0], next), RenderOn(others[0], next'));
      ValuesDiffer(holds, items[0], others[0], next, next');
      ItemsDiffer(holds, items[1..], others[1..], ",", x, y);
      assert items == [items[0]] + items[1..] && others == [others[0]] + others[1..];
    }
  }

  ghost predicate AreFields(holds: string -> bool, fields: seq<(string, Json)>) {
    forall i :: 0 <= i < |fields| ==> IsValue(holds, fields[i].1)
  }

  lemma FieldsStart(fields: seq<(string, Json)>, separator: string, next: string)
    requires separator == "" || separator == ","
    ensures FieldsOn(fields, separator, next) != "" && (FieldsOn(fields, separator, next)[0] == '}' <==> fields == [])
  {
    if fields != [] && separator == "" {
      assert FieldsOn(fields, separator, next) == FieldOn(fields[0], FieldsOn(fields[1..], ",", next));
    }
  }

  lemma {:induction false} FieldDiffer(holds: string -> bool, field: (string, Json), other: (string, Json), x: string, y: string)
    requires IsNumeric(holds) && IsValue(holds, field.1) && IsValue(holds, other.1) && IsFollow(x) && IsFollow(y)
    requires FieldOn(field, x) == FieldOn(other, y)
    ensures field == other && x == y
    decreases field
  {
    var value, value' := RenderOn(field.1, x), RenderOn(other.1, y);
    SameTail("\"", TextOn(field.0, ":" + value), TextOn(other.0, ":" + value'));
    TextsDiffer(field.0, other.0, ":" + value, ":" + value');
    SameTail(":", value, value');
    ValuesDiffer(holds, field.1, other.1, x, y);
  }

  lemma {:induction false} FieldsDiffer(holds: string -> bool, fields: seq<(string, Json)>, others: seq<(string, Json)>,
                                        separator: string, x: string, y: string)
    requires IsNumeric(holds) && AreFields(holds, fields) && AreFields(holds, others) && (separator == "" || separator == ",")
    requires FieldsOn(fields, separator, x) == FieldsOn(others, separator, y)
    ensures fields == others && x == y
    decreases fields
  {
    FieldsStart(fields, separator, x);
    FieldsStart(others, separator, y);
    if fields == [] {
      SameTail("}", x, y);
    } else {
      var next, next' := FieldsOn(fields[1..], ",", x), FieldsOn(others[1..], ",", y);
      ListEnds([], fields[1..], x);
      ListEnds([], others[1..], y);
      SameTail(separator, FieldOn(fields[0], next), FieldOn(others[0], next'));
      FieldDiffer(holds, fields[0], others[0], next, next');
      FieldsDiffer(holds, fields[1..], others[1..], ",", x, y);
      assert fields == [fields[0]] + fields[1..] && others == [others[0]] + others[1..];
    }
  }

  // ---- Printed text is one line and does not end like a replaced line ----

  predicate IsEnd(c: char) {
    c == 'l' || c == 'e' || c == '"' || c == ']' || c == '}' || IsDigit(c)
  }

  /** `text` goes on to the end of `next`, or ends with a value, and brings no newline of its own. */
  ghost predicate IsPrinted(text: string, next: string) {
    && text != ""
    && (if next == "" then IsEnd(text[|text| - 1]) else text[|text| - 1] == next[|next| - 1])
    && ('\n' !in next ==> '\n' !in text)
  }

  lemma PrintedBefore(head: string, text: string, next: string)
    requires IsPrinted(text, next) && '\n' !in head
    ensures IsPrinted(head + text, next)
  {
  }

  lemma PrintedEnd(head: string, next: string)
    requires head != "" && IsEnd(head[|head| - 1]) && '\n' !in head
    ensures IsPrinted(head + next, next)
  {
  }

  lemma PrintedWithin(text: string, middle: string, next: string)
    requires IsPrinted(text, middle) && IsPrinted(middle, next)
    ensures IsPrinted(text, next)
  {
  }

  lemma EscapeHasNoNewline(c: char)
    ensures '\n' !in EscapeChar(c)
  {
  }

  lemma {:induction false} TextIsPrinted(text: string, next: string)
    ensures IsPrinted(TextOn(text, next), next)
  {
    if text == "" {
      PrintedEnd("\"", next);
    } else {
      TextIsPrinted(text[1..], next);
      EscapeHasNoNewline(text[0]);
      PrintedBefore(EscapeChar(text[0]), TextOn(text[1..], next), next);
    }
  }

  lemma NumberIsPrinted(digits: string, next: string)
    requires IsNumberText(digits)
    ensures IsPrinted(digits + next, next)
  {
    PrintedEnd(digits, next);
  }

  lemma WordIsPrinted(v: Json, next: string)
    requires v.Null? || v.Bool?
    ensures IsPrinted(RenderOn(v, next), next)
  {
    PrintedEnd("null", next);
    PrintedEnd("true", next);
    PrintedEnd("false", next);
  }

  lemma {:induction false} ValueIsPrinted(holds: string -> bool, v: Json, next: string)
    requires IsNumeric(holds) && IsValue(holds, v)
    ensures IsPrinted(RenderOn(v, next), next)
    decreases v
  {
    match v
    case Number(digits) => NumberIsPrinted(digits, next);
    case Str(text) =>
      TextIsPrinted(text, next);
      PrintedBefore("\"", TextOn(text, next), next);
    case Arr(items) =>
      ItemsArePrinted(holds, items, "", next);
      PrintedBefore("[", ItemsOn(items, "", next), next);
    case Obj(fields) =>
      FieldsArePrinted(holds, fields, "", next);
      PrintedBefore("{", FieldsOn(fields, "", next), next);
    case _ => WordIsPrinted(v, next);
  }

  lemma {:induction false} ItemsArePrinted(holds: string -> bool, items: seq<Json>, separator: string, next: string)
    requires IsNumeric(holds) && AreValues(holds, items) && '\n' !in separator
    ensures IsPrinted(ItemsOn(items, separator, next), next)
    decreases items
  {
    if items == [] {
      PrintedEnd("]", next);
    } else {
      var rest := ItemsOn(items[1..], ",", next);
      ItemsArePrinted(holds, items[1..], ",", next);
      ValueIsPrinted(holds, items[0], rest);
      PrintedWithin(RenderOn(items[0], rest), rest, next);
      PrintedBefore(separator, RenderOn(items[0], rest), next);
    }
  }

  lemma {:induction false} FieldIsPrinted(holds: string -> bool, field: (string, Json), next: string)
    requires IsNumeric(holds) && IsValue(holds, field.1)
    ensures IsPrinted(FieldOn(field, next), next)
    decreases field
  {
    var value := ":" + RenderOn(field.1, next);
    ValueIsPrinted(holds, field.1, next);
    PrintedBefore(":", RenderOn(field.1, next), next);
    TextIsPrinted(field.0, value);
    PrintedWithin(TextOn(field.0, value), value, next);
    PrintedBefore("\"", TextOn(field.0, value), next);
  }

  lemma {:induction false} FieldsArePrinted(holds: string -> bool, fields: seq<(string, Json)>, separator: string, next: string)
    requires IsNumeric(holds) && AreFields(holds, fields) && '\n' !in separator
    ensures IsPrinted(FieldsOn(fields, separator, next), next)
    decreases fields
  {
    if fields == [] {
      PrintedEnd("}", next);
    } else {
      var rest := FieldsOn(fields[1..], ",", next);
      FieldsArePrinted(holds, fields[1..], ",", next);
      FieldIsPrinted(holds, fields[0], rest);
      PrintedWithin(FieldOn(fields[0], rest), rest, next);
      PrintedBefore(separator, FieldOn(fields[0], rest), next);
    }
  }

  // ---- What is left to the parser ----

  lemma PrintedShape(numbers: string -> bool, v: Json)
    requires IsNumeric(numbers) && IsValue(numbers, v)
    ensures Render(v) != "" && IsEnd(Render(v)[|Render(v)| - 1]) && IsOneLine(Render(v))
  {
    ValueIsPrinted(numbers, v, "");
  }

  /** What is asked of the parser beside the compact printer. */
  ghost predicate ReadsBack(codec: JsonCodec) {
    && (forall s :: codec.parse(s).Some? ==> codec.holds(codec.parse(s).value))
    && (forall v :: codec.holds(v) ==> codec.parse(Render(v)) == Some(Reread(codec.reread, v)))
    && codec.parse("") == None
    && (forall s :: EndsWithChar(s, '>') ==> codec.parse(s) == None)
  }

  /**
    A library with the compact printer meets what redaction relies on if and only if its parser does its part: that
    printed values are one line and that no two print alike holds by itself, for any values with number texts.
  */
  lemma CompactIsFaithfulIff(codec: JsonCodec, numbers: string -> bool)
    requires IsNumeric(numbers) && forall v :: codec.holds(v) ==> IsValue(numbers, v)
    requires forall v :: codec.holds(v) ==> codec.holds(Redact(v))
    requires forall v :: codec.render(v) == Render(v)
    ensures IsFaithful(codec) <==> ReadsBack(codec)
  {
    forall v | codec.holds(v)
      ensures IsOneLine(codec.render(v))
    {
      PrintedShape(numbers, v);
    }
    forall v, w | codec.holds(v) && codec.holds(w) && codec.render(v) == codec.render(w)
      ensures v == w
    {
      ValuesDiffer(numbers, v, w, "", "");
    }
    if IsFaithful(codec) {
      forall v | codec.holds(v)
        ensures codec.parse(Render(v)) == Some(Reread(codec.reread, v))
      {
        assert codec.render(v) == Render(v);
      }
    }
  }

  // ---- A library that limits nesting and changes numbers ----

  predicate NestsWithin(v: Json, limit: nat) {
    match v
    case Arr(items) => limit > 0 && forall i :: 0 <= i < |items| ==> NestsWithin(items[i], limit - 1)
    case Obj(fields) => limit > 0 && forall i :: 0 <= i < |fields| ==> NestsWithin(fields[i].1, limit - 1)
    case _ => true
  }

  predicate IsHeld(numbers: string -> bool, limit: nat, v: Json) {
    IsValue(numbers, v) && NestsWithin(v, limit)
  }

  lemma {:induction false} RedactedIsHeld(numbers: string -> bool, limit: nat, v: Json)
    requires IsHeld(numbers, limit, v)
    ensures IsHeld(numbers, limit, Redact(v))
    decreases v
  {
    match v
    case Arr(items) =>
      forall i | 0 <= i < |items|
        ensures IsHeld(numbers, limit - 1, Redact(items[i]))
      {
        RedactedIsHeld(numbers, limit - 1, items[i]);
      }
    case Obj(fields) =>
      forall i | 0 <= i < |fields|
        ensures IsSensitiveKey(fields[i].0) || IsHeld(numbers, limit - 1, Redact(fields[i].1))
      {
        RedactedIsHeld(numbers, limit - 1, fields[i].1);
      }
    case _ =>
  }

  lemma {:induction false} RereadIsHeld(numbers: string -> bool, reread: string -> string, limit: nat, v: Json)
    requires IsHeld(numbers, limit, v) && forall d :: numbers(d) ==> numbers(reread(d))
    ensures IsHeld(numbers, limit, Reread(reread, v))
    decreases v
  {
    match v
    case Arr(items) =>
      forall i | 0 <= i < |items|
        ensures IsHeld(numbers, limit - 1, Reread(reread, items[i]))
      {
        RereadIsHeld(numbers, reread, limit - 1, items[i]);
      }
    case Obj(fields) =>
      forall i | 0 <= i < |fields|
        ensures IsHeld(numbers, limit - 1, Reread(reread, fields[i].1))
      {
        RereadIsHeld(numbers, reread, limit - 1, fields[i].1);
      }
    case _ =>
  }

  /** A parser of printed values: their numbers are read as `reread` says, and what nests too deeply is refused. */
  ghost function Parsed(numbers: string -> bool, reread: string -> string, limit: nat, text: string): (r: Option<Json>)
    ensures r.Some? ==> exists v :: IsHeld(numbers, limit, v) && Render(v) == text && r.value == Reread(reread, v)
    ensures r.None? ==> forall v :: IsHeld(numbers, limit, v) ==> Render(v) != text
  {
    if v :| IsHeld(numbers, limit, v) && Render(v) == text then Some(Reread(reread, v)) else None
  }

  ghost function Compact(numbers: string -> bool, reread: string -> string, limit: nat): JsonCodec {
    JsonCodec(text => Parsed(numbers, reread, limit, text), Render, v => IsHeld(numbers, limit, v), reread)
  }

  lemma PrintedIsParsed(numbers: string -> bool, reread: string -> string, limit: nat, v: Json)
    requires IsNumeric(numbers) && IsHeld(numbers, limit, v)
    ensures Parsed(numbers, reread, limit, Render(v)) == Some(Reread(reread, v))
  {
    var r := Parsed(numbers, reread, limit, Render(v));
    assert r.Some?;
    var w :| IsHeld(numbers, limit, w) && Render(w) == Render(v) && r.value == Reread(reread, w);
    ValuesDiffer(numbers, w, v, "", "");
  }

  lemma ParsedIsHeld(numbers: string -> bool, reread: string -> string, limit: nat, text: string)
    requires IsNumeric(numbers) && (forall d :: numbers(d) ==> numbers(reread(d)))
    requires Parsed(numbers, reread, limit, text).Some?
    ensures IsHeld(numbers, limit, Parsed(numbers, reread, limit, text).value)
    ensures text != "" && IsEnd(text[|text| - 1])
  {
    var r := Parsed(numbers, reread, limit, text);
    var v :| IsHeld(numbers, limit, v) && Render(v) == text && r.value == Reread(reread, v);
    RereadIsHeld(numbers, reread, limit, v);
    PrintedShape(numbers, v);
  }

  /** Such a library meets what redaction relies on, whatever the limit and whatever becomes of the numbers. */
  lemma LossyLibraryIsFaithful(numbers: string -> bool, reread: string -> string, limit: nat)
    requires IsNumeric(numbers) && forall d :: numbers(d) ==> numbers(reread(d))
    ensures IsFaithful(Compact(numbers, reread, limit))
  {
    var codec := Compact(numbers, reread, limit);
    forall text | codec.parse(text).Some?
      ensures codec.holds(codec.parse(text).value) && text != "" && !EndsWithChar(text, '>')
    {
      ParsedIsHeld(numbers, reread, limit, text);
    }
    forall v | codec.holds(v)
      ensures codec.parse(Render(v)) == Some(Reread(codec.reread, v)) && codec.holds(Redact(v))
    {
      PrintedIsParsed(numbers, reread, limit, v);
      RedactedIsHeld(numbers, limit, v);
    }
    CompactIsFaithfulIff(codec, numbers);
  }

  // ---- A float that changes twice ----

  /** A written float, what it is printed as, and what that is printed as. */
  datatype Reading = Written | Once | Twice

  function FloatText(r: Reading): string {
    match r
    case Written => "14.5185888909472219"
    case Once => "14.518588890947223"
    case Twice => "14.518588890947225"
  }

  function NextReading(d: string): string {
    if d == FloatText(Written) then FloatText(Once) else if d == FloatText(Once) then FloatText(Twice) else d
  }

  predicate IsReading(d: string) {
    d == FloatText(Written) || d == FloatText(Once) || d == FloatText(Twice)
  }

  lemma FloatIsNumberText(r: Reading)
    ensures IsNumberText(FloatText(r))
  {
  }

  lemma ReadingsDiffer()
    ensures FloatText(Once) != FloatText(Written) && FloatText(Twice) != FloatText(Once)
  {
    assert FloatText(Once)[17] == '3' && FloatText(Twice)[17] == '5';
  }

  /** Floats that the library reads one place off make a JSON line, and a text of that line, change on the second pass. */
  lemma FloatLineChanges(codec: JsonCodec)
    requires IsFaithful(codec) && codec.parse(FloatText(Written)) == Some(Number(FloatText(Once)))
    requires codec.reread(FloatText(Once)) == FloatText(Twice)
    ensures var line := FloatText(Written);
            && RedactLine(codec, RedactLine(codec, line)) != RedactLine(codec, line)
            && RedactText(codec, RedactText(codec, line)) != RedactText(codec, line)
  {
    ReadingsDiffer();
    FloatIsNumberText(Written);
    assert '\n' !in FloatText(Written);
    NumberLineChanges(codec, FloatText(Written), FloatText(Once));
  }

  /** There is such a library. */
  lemma SomeLibraryChangesFloats(limit: nat) returns (codec: JsonCodec)
    ensures IsFaithful(codec) && codec.parse(FloatText(Written)) == Some(Number(FloatText(Once)))
    ensures codec.reread(FloatText(Once)) == FloatText(Twice)
  {
    codec := Compact(IsReading, NextReading, limit);
    FloatIsNumberText(Written); FloatIsNumberText(Once); FloatIsNumberText(Twice);
    LossyLibraryIsFaithful(IsReading, NextReading, limit);
    ReadingsDiffer();
    var v := Number(FloatText(Written));
    assert Render(v) == FloatText(Written) + "" == FloatText(Written);
    PrintedIsParsed(IsReading, NextReading, limit, v);
  }
}
