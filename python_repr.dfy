/** Python's built-in `repr(x)`, which the non-integer status message
    embeds. Only str and bytes values ever reach that message (they are
    the values `int()` rejects with ValueError); the other cases keep the
    function total. */
module PythonRepr {
  import opened PythonValues
  import opened IntCoercion

  const HexDigits: string := "0123456789abcdef"

  /** `\xhh` for a code below 256 */
  function HexEscape(code: nat): (r: string)
    requires code < 256
    ensures |r| == 4 && r[..2] == "\\x"
  {
    "\\x" + [HexDigits[code / 16], HexDigits[code % 16]]
  }

  /** The quote repr() puts around a str or bytes: a double quote when the
      text holds a single quote and no double quote, a single quote otherwise. */
  function QuoteFor(codes: seq<int>): char {
    if '\'' as int in codes && '"' as int !in codes then '"' else '\''
  }

  function Codes(s: string): (r: seq<int>)
    ensures |r| == |s|
    ensures forall i :: 0 <= i < |s| ==> r[i] == s[i] as int
  {
    seq(|s|, i requires 0 <= i < |s| => s[i] as int)
  }

  /** The escapes repr() shares between str and bytes; None for every
      other character. */
  function CommonEscape(c: char, quote: char): Option<string> {
    if c == quote || c == '\\' then Some(['\\', c])
    else if c == '\t' then Some("\\t")
    else if c == '\n' then Some("\\n")
    else if c == '\r' then Some("\\r")
    else None
  }

  /** Characters of a str that repr() writes as `\xhh`: the C0 and C1
      control characters, DEL, no-break space and soft hyphen. */
  predicate IsHexEscapedChar(c: char) {
    c as int < 0x20 || 0x7f <= c as int <= 0xa0 || c as int == 0xad
  }

  function EscapeChar(c: char, quote: char): string {
    match CommonEscape(c, quote)
    case Some(e) => e
    case None => if IsHexEscapedChar(c) then HexEscape(c as int) else [c]
  }

  function EscapeText(s: string, quote: char): string {
    if s == [] then "" else EscapeChar(s[0], quote) + EscapeText(s[1..], quote)
  }

  function EscapeByte(b: bv8, quote: char): string {
    var c := (b as int) as char;
    match CommonEscape(c, quote)
    case Some(e) => e
    case None => if 0x20 <= b < 0x7f then [c] else HexEscape(b as int)
  }

  function EscapeBytes(b: seq<bv8>, quote: char): string {
    if b == [] then "" else EscapeByte(b[0], quote) + EscapeBytes(b[1..], quote)
  }

  function JoinReprs(items: seq<Value>): string
    decreases items
  {
    if items == [] then ""
    else if |items| == 1 then Repr(items[0])
    else Repr(items[0]) + ", " + JoinReprs(items[1..])
  }

  /** `repr(v)` */
  function Repr(v: Value): string
    decreases v
  {
    match v
    case NoneValue => "None"
    case BoolValue(b) => if b then "True" else "False"
    case IntValue(i) => IntToString(i)
    case StrValue(s) =>
      var q := QuoteFor(Codes(s));
      [q] + EscapeText(s, q) + [q]
    case BytesValue(b) =>
      var q := QuoteFor(Codes(BytesAsChars(b)));
      "b" + [q] + EscapeBytes(b, q) + [q]
    case ListValue(items) => "[" + JoinReprs(items) + "]"
  }

  /** Printable ASCII other than the quote and the backslash: repr()
      copies it as it is. */
  predicate IsPlainChar(c: char) {
    ' ' <= c <= '~' && c != '\'' && c != '\\'
  }

  lemma {:induction false} EscapePlainText(s: string, quote: char)
    requires quote == '\'' || quote == '"'
    requires forall i :: 0 <= i < |s| ==> IsPlainChar(s[i]) && s[i] != quote
    ensures EscapeText(s, quote) == s
  {
    if s != [] {
      EscapePlainText(s[1..], quote);
      assert [s[0]] + s[1..] == s;
    }
  }

  /** repr() of a text of plain characters is that text in single quotes,
      so a message built from it contains the text. */
  lemma ReprOfPlainText(s: string)
    requires forall i :: 0 <= i < |s| ==> IsPlainChar(s[i])
    ensures Repr(StrValue(s)) == "'" + s + "'"
  {
    assert '\'' as int !in Codes(s);
    EscapePlainText(s, '\'');
  }
}
