/**
  The two byte-size parsers: the memory controller's, which also knows `max` and tera units, and the one
  for launch limits.  An error of either is None; sizes are u64.
*/
module MemorySizes {
  import opened Text
  import opened Wrappers

  const U64_MAX: nat := 0xFFFF_FFFF_FFFF_FFFF

  const TERA: nat := 1024 * 1024 * 1024 * 1024

  predicate IsDigits(s: string) {
    forall i :: 0 <= i < |s| ==> IsDigit(s[i])
  }

  function DigitLength(s: string): (n: nat)
    ensures n <= |s| && IsDigits(s[..n]) && (n < |s| ==> !IsDigit(s[n]))
  {
    if s == "" || !IsDigit(s[0]) then 0 else 1 + DigitLength(s[1..])
  }

  function DigitsValue(s: string): nat
    requires IsDigits(s)
  {
    if s == "" then 0 else 10 * DigitsValue(s[..|s| - 1]) + (s[|s| - 1] as int - '0' as int)
  }

  /** `u64::to_string`. */
  function Decimal(n: nat): (s: string)
    ensures s != "" && IsDigits(s)
  {
    var digit := ['0' + (n % 10) as char];
    if n < 10 then digit else Decimal(n / 10) + digit
  }

  /** `parse::<u64>` on a text of ASCII digits. */
  function ParseU64(s: string): Option<nat>
    requires IsDigits(s)
  {
    if s == "" || DigitsValue(s) > U64_MAX then None else Some(DigitsValue(s))
  }

  function CheckedMul(a: nat, b: nat): Option<nat> {
    if a * b <= U64_MAX then Some(a * b) else None
  }

  /** The units both parsers know. */
  function CommonUnit(unit: string): Option<nat> {
    if unit == "" || unit == "b" then Some(1)
    else if unit == "k" || unit == "kb" || unit == "kib" then Some(1024)
    else if unit == "m" || unit == "mb" || unit == "mib" then Some(1024 * 1024)
    else if unit == "g" || unit == "gb" || unit == "gib" then Some(1024 * 1024 * 1024)
    else None
  }

  predicate IsTera(unit: string) {
    unit == "t" || unit == "tb" || unit == "tib"
  }

  function ControllerUnit(unit: string): Option<nat> {
    if IsTera(unit) then Some(TERA) else CommonUnit(unit)
  }

  function NumberPart(value: string): string {
    var t := Trim(value);
    t[..DigitLength(t)]
  }

  function UnitPart(value: string): string {
    var t := Trim(value);
    ToLower(Trim(t[DigitLength(t)..]))
  }

  predicate IsMax(value: string) {
    ToLower(Trim(value)) == "max"
  }

  function Scaled(number: string, multiplier: Option<nat>): Option<nat>
    requires IsDigits(number)
  {
    match ParseU64(number)
    case None => None
    case Some(n) =>
      match multiplier
      case None => None
      case Some(m) => CheckedMul(n, m)
  }

  /** `parse_memory_bytes` of the memory controller. */
  function ParseControllerBytes(value: string): Option<nat> {
    if IsMax(value) then Some(U64_MAX) else Scaled(NumberPart(value), ControllerUnit(UnitPart(value)))
  }

  /** `parse_memory_bytes` of the runtime launcher. */
  function ParseLaunchBytes(value: string): Option<nat> {
    if NumberPart(value) == "" then None else Scaled(NumberPart(value), CommonUnit(UnitPart(value)))
  }

  predicate IsLimitOff(trimmed: string) {
    trimmed == "" || ToLower(trimmed) == "disabled" || ToLower(trimmed) == "off"
  }

  /** `parse_optional_memory_limit`: the outer None is the parser's error, the inner one "no limit". */
  function ParseOptionalLimit(value: string): Option<Option<nat>> {
    var t := Trim(value);
    if IsLimitOff(t) then Some(None)
    else
      match ParseLaunchBytes(t)
      case None => None
      case Some(bytes) => Some(Some(bytes))
  }

  /** The text `write_cgroup_value` writes. */
  function RenderCgroupValue(bytes: nat): string {
    if bytes == U64_MAX then "max" else Decimal(bytes)
  }

  lemma {:induction false} DecimalRoundTrip(n: nat)
    ensures DigitsValue(Decimal(n)) == n
  {
    if n >= 10 {
      DecimalRoundTrip(n / 10);
      var s := Decimal(n);
      assert s[..|s| - 1] == Decimal(n / 10);
    }
  }

  lemma {:induction false} DigitLengthIs(digits: string, rest: string)
    requires IsDigits(digits) && (rest == "" || !IsDigit(rest[0]))
    ensures DigitLength(digits + rest) == |digits|
  {
    if digits == "" {
      assert digits + rest == rest;
    } else {
      assert (digits + rest)[1..] == digits[1..] + rest;
      DigitLengthIs(digits[1..], rest);
    }
  }

  lemma DigitsAreNotMax(digits: string, rest: string)
    requires IsDigits(digits) && digits != ""
    ensures ToLower(digits + rest) != "max"
  {
    assert (digits + rest)[0] == digits[0];
    assert ToLower(digits + rest)[0] == LowerChar(digits[0]);
  }

  lemma DigitIsNoSpace(c: char)
    requires IsDigit(c)
    ensures !IsWhitespace(c)
  {
  }

  lemma CoreIsTrimmed(digits: string, middle: string, unit: string)
    requires IsDigits(digits) && digits != "" && IsTrimmed(unit) && (unit == "" ==> middle == "")
    ensures IsTrimmed(digits + (middle + unit))
  {
    var s := digits + (middle + unit);
    DigitIsNoSpace(digits[0]);
    DigitIsNoSpace(digits[|digits| - 1]);
    assert s[0] == digits[0];
    assert s[|s| - 1] == if unit == "" then digits[|digits| - 1] else unit[|unit| - 1];
  }

  lemma CoreIsCut(digits: string, middle: string, unit: string)
    requires IsDigits(digits) && digits != "" && IsTrimmed(unit) && (unit != "" ==> !IsDigit(unit[0])) && IsBlank(middle)
    ensures var t := digits + (middle + unit);
            DigitLength(t) == |digits| && t[..|digits|] == digits && Trim(t[|digits|..]) == unit
  {
    var rest := middle + unit;
    if middle != "" {
      BlankIsNoDigit(middle);
    }
    DigitLengthIs(digits, rest);
    TrimPadded(middle, unit, "");
    assert middle + unit + "" == rest;
    assert (digits + rest)[|digits|..] == rest;
  }

  lemma BlankIsNoDigit(s: string)
    requires IsBlank(s) && s != ""
    ensures !IsDigit(s[0])
  {
    if IsDigit(s[0]) {
      DigitIsNoSpace(s[0]);
    }
  }

  lemma PartsOfTrimmed(value: string, t: string, n: nat, unit: string)
    requires Trim(value) == t && DigitLength(t) == n && Trim(t[n..]) == unit
    ensures NumberPart(value) == t[..n] && UnitPart(value) == ToLower(unit)
  {
  }

  lemma TrimmedIsNotMax(value: string, digits: string, rest: string)
    requires Trim(value) == digits + rest && IsDigits(digits) && digits != ""
    ensures !IsMax(value)
  {
    DigitsAreNotMax(digits, rest);
  }

  /** `value` is a number and a unit with white space around and between them. */
  ghost predicate IsSizeText(value: string, before: string, digits: string, middle: string, unit: string, after: string) {
    && value == before + (digits + (middle + unit)) + after
    && IsDigits(digits) && digits != "" && IsTrimmed(unit) && (unit != "" ==> !IsDigit(unit[0]))
    && IsBlank(before) && IsBlank(middle) && IsBlank(after) && (unit == "" ==> middle == "")
  }

  lemma SizeTextIsTrimmed(value: string, before: string, digits: string, middle: string, unit: string, after: string)
    requires IsSizeText(value, before, digits, middle, unit, after)
    ensures Trim(value) == digits + (middle + unit)
  {
    CoreIsTrimmed(digits, middle, unit);
    TrimPadded(before, digits + (middle + unit), after);
  }

  /** Where a number with a unit is cut. */
  lemma PartsAre(value: string, before: string, digits: string, middle: string, unit: string, after: string)
    requires IsSizeText(value, before, digits, middle, unit, after)
    ensures NumberPart(value) == digits && UnitPart(value) == ToLower(unit) && !IsMax(value)
  {
    var t := digits + (middle + unit);
    SizeTextIsTrimmed(value, before, digits, middle, unit, after);
    CoreIsCut(digits, middle, unit);
    PartsOfTrimmed(value, t, |digits|, unit);
    TrimmedIsNotMax(value, digits, middle + unit);
  }

  lemma TeraIsNotCommon(unit: string)
    ensures IsTera(unit) ==> CommonUnit(unit) == None
    ensures ControllerUnit(unit).Some? ==> ControllerUnit(unit).value >= 1
  {
  }

  lemma MultipleIsLarger(n: nat, m: nat)
    requires m >= 1
    ensures n <= n * m
  {
  }

  lemma ScaledIs(number: string, n: nat, m: nat)
    requires IsDigits(number) && number != "" && DigitsValue(number) == n && m >= 1
    ensures Scaled(number, Some(m)) == if n * m <= U64_MAX then Some(n * m) else None
  {
    MultipleIsLarger(n, m);
  }

  /** The number times the unit, if there are both and the product fits u64. */
  function ExactSize(number: string, unit: Option<nat>): Option<nat>
    requires IsDigits(number)
  {
    if number == "" || unit == None || DigitsValue(number) * unit.value > U64_MAX then None
    else Some(DigitsValue(number) * unit.value)
  }

  lemma ScaledIsExact(number: string, unit: Option<nat>)
    requires IsDigits(number) && (unit.Some? ==> unit.value >= 1)
    ensures Scaled(number, unit) == ExactSize(number, unit)
  {
    if number != "" && unit.Some? {
      ScaledIs(number, DigitsValue(number), unit.value);
    }
  }

  /**
    For every text both parsers give the exact product of the number and the unit in it, or an error when one is
    missing or the product does not fit u64: a result never wraps, although the number is checked before the product.
  */
  lemma SizesAreExact(value: string)
    ensures ParseControllerBytes(value)
         == if IsMax(value) then Some(U64_MAX) else ExactSize(NumberPart(value), ControllerUnit(UnitPart(value)))
    ensures ParseLaunchBytes(value) == ExactSize(NumberPart(value), CommonUnit(UnitPart(value)))
  {
    var number, unit := NumberPart(value), UnitPart(value);
    TeraIsNotCommon(unit);
    ScaledIsExact(number, ControllerUnit(unit));
    ScaledIsExact(number, CommonUnit(unit));
  }

  /** Any digits, leading zeros included, and a unit in any case, with white space around and between them. */
  lemma UnitsAreExact(value: string, before: string, digits: string, middle: string, unit: string, after: string, m: nat)
    requires IsSizeText(value, before, digits, middle, unit, after) && ControllerUnit(ToLower(unit)) == Some(m)
    ensures var size := DigitsValue(digits) * m;
            && ParseControllerBytes(value) == (if size <= U64_MAX then Some(size) else None)
            && ParseLaunchBytes(value) == if size <= U64_MAX && !IsTera(ToLower(unit)) then Some(size) else None
  {
    PartsAre(value, before, digits, middle, unit, after);
    SizesAreExact(value);
    TeraIsNotCommon(ToLower(unit));
  }

  function Pow1024(e: nat): nat {
    if e == 0 then 1 else 1024 * Pow1024(e - 1)
  }

  /** The letter of the `e`-th power of 1024, alone or followed by `b` or `ib`. */
  predicate IsPowerUnit(unit: string, e: nat) {
    1 <= e <= 4 && (unit == ["kmgt"[e - 1]] || unit == ["kmgt"[e - 1], 'b'] || unit == ["kmgt"[e - 1], 'i', 'b'])
  }

  lemma UnitTextsAre()
    ensures "b" == ['b'] && "k" == ['k'] && "kb" == ['k', 'b'] && "kib" == ['k', 'i', 'b']
    ensures "m" == ['m'] && "mb" == ['m', 'b'] && "mib" == ['m', 'i', 'b']
    ensures "g" == ['g'] && "gb" == ['g', 'b'] && "gib" == ['g', 'i', 'b']
    ensures "t" == ['t'] && "tb" == ['t', 'b'] && "tib" == ['t', 'i', 'b']
    ensures "kmgt"[0] == 'k' && "kmgt"[1] == 'm' && "kmgt"[2] == 'g' && "kmgt"[3] == 't'
  {
  }

  lemma Pow1024Is()
    ensures Pow1024(0) == 1 && Pow1024(1) == 1024 && Pow1024(2) == 1024 * 1024
    ensures Pow1024(3) == 1024 * 1024 * 1024 && Pow1024(4) == 1024 * 1024 * 1024 * 1024
  {
  }

  /** The controller knows bytes and four powers of 1024, each in three spellings; the launcher lacks the fourth. */
  lemma UnitsAre(unit: string, m: nat)
    ensures ControllerUnit(unit) == Some(m) <==>
              ((unit == "" || unit == "b") && m == 1) || exists e :: IsPowerUnit(unit, e) && m == Pow1024(e)
    ensures CommonUnit(unit) == Some(m) <==>
              ((unit == "" || unit == "b") && m == 1) || exists e :: IsPowerUnit(unit, e) && m == Pow1024(e) && e < 4
  {
    UnitTextsAre();
    Pow1024Is();
    assert IsPowerUnit(unit, 1) <==> unit == "k" || unit == "kb" || unit == "kib";
    assert IsPowerUnit(unit, 2) <==> unit == "m" || unit == "mb" || unit == "mib";
    assert IsPowerUnit(unit, 3) <==> unit == "g" || unit == "gb" || unit == "gib";
    assert IsPowerUnit(unit, 4) <==> IsTera(unit);
    assert forall e :: IsPowerUnit(unit, e) ==> e == 1 || e == 2 || e == 3 || e == 4;
  }

  lemma NoPadding(s: string)
    ensures "" + (s + ("" + "")) + "" == s
  {
  }

  lemma DigitsAreRead(digits: string)
    requires IsDigits(digits) && digits != ""
    ensures ParseControllerBytes(digits) == if DigitsValue(digits) <= U64_MAX then Some(DigitsValue(digits)) else None
  {
    EmptyIsByteUnit();
    NoPadding(digits);
    UnitsAreExact(digits, "", digits, "", "", "", 1);
  }

  lemma EmptyIsByteUnit()
    ensures ControllerUnit(ToLower("")) == Some(1)
  {
    assert ToLower("") == "";
  }

  /** Reading back a rendered cgroup value returns it, for every u64 and for the `max` sentinel. */
  lemma CgroupRoundTrip(bytes: nat)
    requires bytes <= U64_MAX
    ensures ParseControllerBytes(RenderCgroupValue(bytes)) == Some(bytes)
  {
    if bytes == U64_MAX {
      TrimKeepsTrimmed("max");
      assert ToLower("max") == "max";
    } else {
      DecimalRoundTrip(bytes);
      DigitsAreRead(Decimal(bytes));
    }
  }

  /**
    The two parsers give the same answer exactly on the inputs that are neither `max` nor a tera quantity
    that fits u64.
  */
  lemma ParsersAgreeIff(value: string)
    ensures ParseControllerBytes(value) == ParseLaunchBytes(value)
       <==> !IsMax(value)
            && !(IsTera(UnitPart(value)) && NumberPart(value) != ""
                 && DigitsValue(NumberPart(value)) * TERA <= U64_MAX)
  {
    SizesAreExact(value);
    TeraIsNotCommon(UnitPart(value));
    if IsMax(value) {
      MaxHasNoNumber(value);
    }
  }

  lemma MaxHasNoNumber(value: string)
    requires IsMax(value)
    ensures NumberPart(value) == ""
  {
    var t := Trim(value);
    assert ToLower(t)[0] == LowerChar(t[0]) == 'm';
  }

  lemma OffHasNoNumber(t: string)
    requires IsTrimmed(t) && IsLimitOff(t)
    ensures ParseLaunchBytes(t) == None
  {
    TrimKeepsTrimmed(t);
    if t != "" {
      assert ToLower(t)[0] == LowerChar(t[0]) && ToLower(t)[0] in {'d', 'o'};
    }
  }

  /** A limit is read exactly when its text is a size; the words for no limit are no sizes, so their test hides none. */
  lemma OptionalLimitIff(value: string, bytes: nat)
    ensures ParseOptionalLimit(value) == Some(Some(bytes)) <==> ParseLaunchBytes(value) == Some(bytes)
    ensures ParseOptionalLimit(value) == None <==> ParseLaunchBytes(value) == None && !IsLimitOff(Trim(value))
    ensures ParseOptionalLimit(value) == Some(None) <==>
              Trim(value) == "" || ToLower(Trim(value)) == "disabled" || ToLower(Trim(value)) == "off"
  {
    TrimTwice(value);
    if IsLimitOff(Trim(value)) {
      OffHasNoNumber(Trim(value));
    }
  }
}
