/** Integer arguments (typecoercer.cpp:29-158): sign and magnitude in 64 bits, ranges, and the
    conversion to the D-Bus integer types. The 64-bit types are newtypes, so every operation
    below is verified not to overflow. */
module Integers {
  import opened Wrappers
  import opened Json

  const TWO_63: int := 0x8000_0000_0000_0000
  const TWO_64: int := 0x1_0000_0000_0000_0000

  newtype int64 = x: int | -0x8000_0000_0000_0000 <= x < 0x8000_0000_0000_0000
  newtype uint64 = x: int | 0 <= x < 0x1_0000_0000_0000_0000

  datatype ParsedInteger = ParsedInteger(negative: bool, magnitude: uint64)
  datatype IntegerRange = IntegerRange(min: int64, max: uint64)

  // ------------------------------------------------------------ decimal text

  predicate IsDigit(c: char) {
    '0' <= c <= '9'
  }

  predicate AllDigits(s: string) {
    forall i | 0 <= i < |s| :: IsDigit(s[i])
  }

  function DigitValue(c: char): nat
    requires IsDigit(c)
  {
    c as int - '0' as int
  }

  /** The number a run of decimal digits stands for. */
  function DigitsValue(s: string): nat
    requires AllDigits(s)
  {
    if s == "" then 0 else 10 * DigitsValue(s[..|s| - 1]) + DigitValue(s[|s| - 1])
  }

  function Digits(n: nat): (s: string)
    ensures s != ""
  {
    if n < 10 then [n as char + '0'] else Digits(n / 10) + [(n % 10) as char + '0']
  }

  /** QString::number of an integer. */
  function Decimal(i: int): string {
    if i < 0 then "-" + Digits(-i) else Digits(i)
  }

  /** What QChar::isSpace accepts. */
  predicate IsSpace(c: char) {
    || c == ' ' || '\U{9}' <= c <= '\U{D}' || c == '\U{85}' || c == '\U{A0}' || c == '\U{1680}'
    || '\U{2000}' <= c <= '\U{200A}' || c == '\U{2028}' || c == '\U{2029}' || c == '\U{202F}'
    || c == '\U{205F}' || c == '\U{3000}'
  }

  function TrimLeft(s: string): string {
    if s != "" && IsSpace(s[0]) then TrimLeft(s[1..]) else s
  }

  function TrimRight(s: string): string {
    if s != "" && IsSpace(s[|s| - 1]) then TrimRight(s[..|s| - 1]) else s
  }

  function Trim(s: string): string {
    TrimRight(TrimLeft(s))
  }

  // ------------------------------------------------------------ the source's steps

  /** QString::toULongLong(&ok, 10). */
  function ToULongLong(s: string): Option<uint64> {
    if s != "" && AllDigits(s) && DigitsValue(s) < TWO_64 then Some(DigitsValue(s) as uint64) else None
  }

  /** QJsonValue::toInteger: the exact integer when the number is one in the int64 range. */
  function ToInteger(r: real, fallback: int64): int64 {
    if r.Floor as real == r && -TWO_63 <= r.Floor < TWO_63 then r.Floor as int64 else fallback
  }

  function FromSigned(x: int64): ParsedInteger {
    ParsedInteger(x < 0, if x < 0 then (-(x + 1)) as uint64 + 1 else x as uint64)
  }

  function ParseInteger(value: Json): Option<ParsedInteger> {
    match value
    case String(s) =>
      var text := Trim(s);
      var negative := text != "" && text[0] == '-';
      var body := if negative then text[1..] else text;
      if body != "" && IsDigit(body[0]) then
        var magnitude :- ToULongLong(body);
        Some(ParsedInteger(negative, magnitude))
      else None
    case Number(d) =>
      var exactA, exactB := ToInteger(d, 0), ToInteger(d, 1);
      if exactA == exactB then Some(FromSigned(exactA))
      else if d.Floor as real != d then None
      else if d >= TWO_63 as real || d <= -(TWO_63 as real) then None
      else assert false; None // the other integers
    case _ => None
  }

  predicate IsIntegerCode(code: char) {
    code == 'y' || code == 'n' || code == 'q' || code == 'i' || code == 'u' || code == 'x' || code == 't'
  }

  function RangeOf(code: char): Option<IntegerRange> {
    match code
    case 'y' => Some(IntegerRange(0, 255))
    case 'n' => Some(IntegerRange(-32768, 32767))
    case 'q' => Some(IntegerRange(0, 65535))
    case 'i' => Some(IntegerRange(-0x8000_0000, 0x7FFF_FFFF))
    case 'u' => Some(IntegerRange(0, 0xFFFF_FFFF))
    case 'x' => Some(IntegerRange(-0x8000_0000_0000_0000, 0x7FFF_FFFF_FFFF_FFFF))
    case 't' => Some(IntegerRange(0, 0xFFFF_FFFF_FFFF_FFFF))
    case _ => None
  }

  predicate InRange(n: ParsedInteger, range: IntegerRange) {
    if !n.negative || n.magnitude == 0 then n.magnitude <= range.max
    else if range.min >= 0 then false
    else n.magnitude <= (-(range.min + 1)) as uint64 + 1
  }

  /** A cast to an unsigned type of `modulus` values. */
  function Unsigned(m: uint64, modulus: int): int
    requires modulus > 0
  {
    m as int % modulus
  }

  /** A cast to a two's complement type of 2 * `half` values. */
  function Signed(x: int64, half: int): int
    requires half > 0
  {
    (x as int + half) % (2 * half) - half
  }

  /** Defined for the magnitudes int64 can hold, which is where the source calls it. */
  function SignedValue(n: ParsedInteger): int64
    requires if n.negative && n.magnitude != 0 then n.magnitude as int <= TWO_63 else n.magnitude as int < TWO_63
  {
    if !n.negative || n.magnitude == 0 then n.magnitude as int64 else -((n.magnitude - 1) as int64) - 1
  }

  function IntegerVariant(code: char, n: ParsedInteger): int
    requires IsIntegerCode(code) && InRange(n, RangeOf(code).value)
  {
    match code
    case 'y' => Unsigned(n.magnitude, 0x100)
    case 'n' => Signed(SignedValue(n), 0x8000)
    case 'q' => Unsigned(n.magnitude, 0x1_0000)
    case 'i' => Signed(SignedValue(n), 0x8000_0000)
    case 'u' => Unsigned(n.magnitude, 0x1_0000_0000)
    case 'x' => SignedValue(n) as int
    case _ => n.magnitude as int
  }

  function CoerceInteger(value: Json, code: char): Option<int>
    requires IsIntegerCode(code)
  {
    var n :- ParseInteger(value);
    if InRange(n, RangeOf(code).value) then Some(IntegerVariant(code, n)) else None
  }

  // ------------------------------------------------------------ what it computes

  /** The mathematical integer, without bounds, that a JSON value writes down. */
  ghost function MathValue(value: Json): Option<int> {
    match value
    case Number(r) => if r.Floor as real == r then Some(r.Floor) else None
    case String(s) =>
      var text := Trim(s);
      if text != "" && AllDigits(text) then Some(DigitsValue(text))
      else if |text| > 1 && text[0] == '-' && AllDigits(text[1..]) then var i: int := DigitsValue(text[1..]); Some(-i)
      else None
    case _ => None
  }

  function Lowest(code: char): int {
    match code
    case 'n' => -0x8000
    case 'i' => -0x8000_0000
    case 'x' => -TWO_63
    case _ => 0
  }

  function Highest(code: char): int {
    match code
    case 'y' => 0xFF
    case 'n' => 0x7FFF
    case 'q' => 0xFFFF
    case 'i' => 0x7FFF_FFFF
    case 'u' => 0xFFFF_FFFF
    case 'x' => TWO_63 - 1
    case _ => TWO_64 - 1
  }

  predicate Representable(code: char, i: int) {
    Lowest(code) <= i <= Highest(code)
  }

  ghost function SignedMagnitude(n: ParsedInteger): int {
    if n.negative then -(n.magnitude as int) else n.magnitude as int
  }

  lemma ParseIntegerValue(value: Json)
    ensures var n := ParseInteger(value);
            var i := MathValue(value);
            && (n.Some? ==> i == Some(SignedMagnitude(n.value)) && (value.Number? ==> -TWO_63 <= i.value < TWO_63))
            && (n.None? && i.Some? ==>
                 if value.Number? then !(-TWO_63 <= i.value < TWO_63) else !(-TWO_64 < i.value < TWO_64))
  {
    if value.String? {
      var text := Trim(value.text);
      if text != "" && text[0] == '-' {
        assert !IsDigit(text[0]);
        if |text| > 1 && AllDigits(text[1..]) { assert IsDigit(text[1..][0]); }
      } else if text != "" && AllDigits(text) {
        assert IsDigit(text[0]);
      }
    }
  }

  lemma VariantValue(code: char, n: ParsedInteger)
    requires IsIntegerCode(code)
    ensures InRange(n, RangeOf(code).value) <==> Representable(code, SignedMagnitude(n))
    ensures InRange(n, RangeOf(code).value) ==> IntegerVariant(code, n) == SignedMagnitude(n)
  {
  }

  /** Integer coercion is exact: it succeeds on precisely the integers of the target range, the
      value is the mathematical one, and a JSON number must also lie in the int64 range. */
  lemma {:induction false} CoerceIntegerExact(value: Json, code: char)
    requires IsIntegerCode(code)
    ensures CoerceInteger(value, code) ==
            match MathValue(value)
            case None => None
            case Some(i) =>
              if Representable(code, i) && (value.Number? ==> i < TWO_63) then Some(i) else None
  {
    ParseIntegerValue(value);
    if ParseInteger(value).Some? {
      VariantValue(code, ParseInteger(value).value);
    }
  }

  lemma {:induction false} DigitsRoundTrip(n: nat)
    ensures AllDigits(Digits(n)) && DigitsValue(Digits(n)) == n
  {
    var s := Digits(n);
    if n < 10 {
      assert s[..0] == "";
    } else {
      DigitsRoundTrip(n / 10);
      assert s[..|s| - 1] == Digits(n / 10);
    }
  }

  lemma NothingToTrim(s: string)
    requires s != "" && !IsSpace(s[0]) && !IsSpace(s[|s| - 1])
    ensures Trim(s) == s
  {
  }

  ghost predicate Blank(s: string) {
    forall i | 0 <= i < |s| :: IsSpace(s[i])
  }

  /** Spaces around a text do not count, and only those. */
  lemma {:induction false} TrimmedOnly(before: string, s: string, after: string)
    requires Blank(before) && Blank(after) && (s != "" ==> !IsSpace(s[0]) && !IsSpace(s[|s| - 1]))
    ensures Trim(before + s + after) == s
    decreases |before| + |after|
  {
    hide IsSpace;
    var whole := before + s + after;
    if before != "" {
      TrimmedOnly(before[1..], s, after);
      assert whole[1..] == before[1..] + s + after && whole[0] == before[0];
    } else if s == "" {
      AllTrimmed(after);
      assert whole == after;
    } else if after != "" {
      TrimmedOnly("", s, after[..|after| - 1]);
      assert whole == s + after;
      assert whole[..|whole| - 1] == "" + s + after[..|after| - 1] && whole[|whole| - 1] == after[|after| - 1];
    } else {
      assert whole == s;
      NothingToTrim(s);
    }
  }

  lemma {:induction false} AllTrimmed(s: string)
    requires Blank(s)
    ensures TrimLeft(s) == ""
  {
    hide IsSpace;
    if s != "" { AllTrimmed(s[1..]); }
  }

  /** The decimal text of an integer is read back as that integer. */
  lemma DecimalValue(i: int)
    ensures MathValue(String(Decimal(i))) == Some(i)
  {
    var n: nat := if i < 0 then -i else i;
    DigitsRoundTrip(n);
    var digits := Digits(n);
    var s := Decimal(i);
    assert IsDigit(digits[0]) && IsDigit(digits[|digits| - 1]);
    assert s[|s| - 1] == digits[|digits| - 1];
    NothingToTrim(s);
    if i < 0 { assert s[1..] == digits && !IsDigit(s[0]); }
  }

  /** Every integer of the range is accepted from its own decimal text. */
  lemma DecimalAccepted(code: char, i: int)
    requires IsIntegerCode(code) && Representable(code, i)
    ensures CoerceInteger(String(Decimal(i)), code) == Some(i)
  {
    DecimalValue(i);
    CoerceIntegerExact(String(Decimal(i)), code);
  }
}
