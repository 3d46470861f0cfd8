/** Python's built-in `int(x)` for the values a status field can hold,
    and `str(n)` for integers, which `int()` reads back. */
module IntCoercion {
  import opened PythonValues

  /** The three ways `int(x)` can end */
  datatype Coerced =
    | Converted(n: int)
    | RaisesValueError   // a str or bytes that is not an integer literal
    | RaisesTypeError    // None, a list, ...

  predicate IsSpace(c: char) {
    c == ' ' || c == '\t' || c == '\n' || c == '\U{B}' || c == '\U{C}' || c == '\r'
  }

  predicate IsDigit(c: char) {
    '0' <= c <= '9'
  }

  function DigitValue(c: char): (d: nat)
    requires IsDigit(c)
    ensures d < 10
  {
    c as int - '0' as int
  }

  function DigitChar(d: nat): (c: char)
    requires d < 10
    ensures IsDigit(c) && DigitValue(c) == d
  {
    ('0' as int + d) as char
  }

  function StripLeft(s: string): (t: string)
    ensures |t| <= |s|
    ensures t == s[|s| - |t|..]
    ensures t != [] ==> !IsSpace(t[0])
  {
    if s != [] && IsSpace(s[0]) then StripLeft(s[1..]) else s
  }

  function StripRight(s: string): (t: string)
    ensures |t| <= |s|
    ensures t == s[..|t|]
    ensures t != [] ==> !IsSpace(t[|t| - 1])
  {
    if s != [] && IsSpace(s[|s| - 1]) then StripRight(s[..|s| - 1]) else s
  }

  /** `s.strip()` over the ASCII whitespace characters */
  function Strip(s: string): string {
    StripRight(StripLeft(s))
  }

  /** A non-empty run of digits in which single underscores may separate
      two digits: "200", "1_000"; not "_1", "1_", "1__0". */
  predicate IsDigitGroups(s: string) {
    && s != []
    && IsDigit(s[0])
    && forall i :: 0 <= i < |s| ==>
         IsDigit(s[i]) || (s[i] == '_' && i + 1 < |s| && IsDigit(s[i + 1]))
  }

  /** The number the digits of `s` spell, underscores ignored */
  function DigitsValue(s: string): nat {
    if s == [] then 0
    else if IsDigit(s[|s| - 1]) then DigitsValue(s[..|s| - 1]) * 10 + DigitValue(s[|s| - 1])
    else DigitsValue(s[..|s| - 1])
  }

  /** Whether `s` is a base-10 integer literal as `int(s)` accepts it:
      surrounding whitespace, an optional sign, then digit groups. */
  predicate IsIntLiteral(s: string) {
    var t := Strip(s);
    var body := if t != [] && (t[0] == '-' || t[0] == '+') then t[1..] else t;
    IsDigitGroups(body)
  }

  /** `int(s)` for a str: the integer, or None where Python raises ValueError */
  function ParseInt(s: string): (r: Option<int>)
    ensures r.Some? <==> IsIntLiteral(s)
  {
    if !IsIntLiteral(s) then None
    else
      var t := Strip(s);
      if t[0] == '-' then Some(-(DigitsValue(t[1..]) as int))
      else if t[0] == '+' then Some(DigitsValue(t[1..]))
      else Some(DigitsValue(t))
  }

  /** Bytes read as Latin-1: every byte of 0x80 and above becomes a
      character that is neither whitespace, sign nor digit, so `int(b)`
      rejects it as Python does. */
  function BytesAsChars(b: seq<bv8>): (s: string)
    ensures |s| == |b|
    ensures forall i :: 0 <= i < |b| ==> s[i] as int == b[i] as int
  {
    if b == [] then [] else [(b[0] as int) as char] + BytesAsChars(b[1..])
  }

  /** `int(x)` */
  function ToInt(v: Value): Coerced {
    match v
    case NoneValue => RaisesTypeError
    case BoolValue(b) => Converted(if b then 1 else 0)
    case IntValue(i) => Converted(i)
    case StrValue(s) =>
      (match ParseInt(s) case Some(n) => Converted(n) case None => RaisesValueError)
    case BytesValue(b) =>
      (match ParseInt(BytesAsChars(b)) case Some(n) => Converted(n) case None => RaisesValueError)
    case ListValue(_) => RaisesTypeError
  }

  /** `str(n)` for n >= 0 */
  function NatToString(n: nat): (s: string)
    ensures s != []
  {
    if n < 10 then [DigitChar(n)] else NatToString(n / 10) + [DigitChar(n % 10)]
  }

  /** `str(n)` */
  function IntToString(n: int): string {
    if n < 0 then "-" + NatToString(-n) else NatToString(n)
  }

  lemma {:induction false} NatToStringDigits(n: nat)
    ensures forall i :: 0 <= i < |NatToString(n)| ==> IsDigit(NatToString(n)[i])
    ensures DigitsValue(NatToString(n)) == n
  {
    if n >= 10 {
      NatToStringDigits(n / 10);
      var s := NatToString(n / 10);
      var t := NatToString(n);
      assert t == s + [DigitChar(n % 10)];
      assert t[..|t| - 1] == s;
    }
  }

  /** `int(str(n)) == n`: the decimal form of every integer reads back
      as that integer. */
  lemma ParseIntOfIntToString(n: int)
    ensures ParseInt(IntToString(n)) == Some(n)
  {
    var m: nat := if n < 0 then -n else n;
    NatToStringDigits(m);
    var digits := NatToString(m);
    assert IsDigitGroups(digits);
    if n < 0 {
      ParseNegativeDigits(digits);
    } else {
      ParseDigits(digits);
    }
  }

  lemma ParseDigits(digits: string)
    requires IsDigitGroups(digits) && IsDigit(digits[|digits| - 1])
    ensures ParseInt(digits) == Some(DigitsValue(digits))
  {
    StripUnpadded(digits);
    assert digits[0] != '-' && digits[0] != '+';
  }

  lemma ParseNegativeDigits(digits: string)
    requires IsDigitGroups(digits) && IsDigit(digits[|digits| - 1])
    ensures ParseInt("-" + digits) == Some(-(DigitsValue(digits) as int))
  {
    var s := "-" + digits;
    StripUnpadded(s);
    assert s[1..] == digits;
  }

  lemma StripUnpadded(s: string)
    requires s != [] && !IsSpace(s[0]) && !IsSpace(s[|s| - 1])
    ensures Strip(s) == s
  {
  }

  lemma IntOfDecimalText(n: int)
    ensures ToInt(StrValue(IntToString(n))) == Converted(n)
  {
    ParseIntOfIntToString(n);
  }

  /** A text that holds no digit at all is never an integer literal. */
  lemma NoDigitNoInteger(s: string)
    requires forall i :: 0 <= i < |s| ==> !IsDigit(s[i])
    ensures ParseInt(s) == None
    ensures ToInt(StrValue(s)) == RaisesValueError
  {
  }
}
