/**
 * JSON text for an array of strings, the format of the `categories` column:
 * an encoder that writes what `JSON.stringify` writes for a string array,
 * and a decoder for texts that denote one (section 2 whitespace, section 5
 * arrays and section 7 strings of RFC 8259). Text is a sequence of Unicode
 * scalar values (Dafny's `char`), not of UTF-16 code units, so a `\u`
 * escape of an unpaired surrogate half, which `JSON.parse` accepts, is
 * rejected here; so is every JSON text that is valid but denotes something
 * other than an array of strings.
 * The round trip Decode(Encode(xs)) == Some(xs) is proved for every list.
 */
module JsonStrings {
  import opened Wrappers

  /** A parsed value and the input that follows it. */
  datatype Parsed<T> = Parsed(value: T, rest: string)

  // ---------------------------------------------------------------- encoder

  function HexDigit(n: int): char
    requires 0 <= n < 16
  {
    if n < 10 then ('0' as int + n) as char else ('a' as int + n - 10) as char
  }

  /** How `JSON.stringify` writes one character inside a string: the two
      delimiters and the control characters are escaped, the short forms
      where RFC 8259 has one, `\u00xx` in lower-case hex otherwise. */
  function EscapeChar(c: char): string
  {
    if c == '"' then ['\\', '"']
    else if c == '\\' then ['\\', '\\']
    else if c as int == 0x08 then ['\\', 'b']
    else if c == '\t' then ['\\', 't']
    else if c == '\n' then ['\\', 'n']
    else if c as int == 0x0C then ['\\', 'f']
    else if c == '\r' then ['\\', 'r']
    else if c as int < 0x20 then ['\\', 'u', '0', '0', HexDigit(c as int / 16), HexDigit(c as int % 16)]
    else [c]
  }

  function EscapeAll(s: string): string
  {
    if |s| == 0 then "" else EscapeChar(s[0]) + EscapeAll(s[1..])
  }

  function EncodeString(s: string): (r: string)
    ensures |r| >= 2 && r[0] == '"'
  {
    "\"" + EscapeAll(s) + "\""
  }

  function JoinEncoded(xs: seq<string>): (r: string)
    ensures |xs| > 0 ==> |r| > 0 && r[0] == '"'
  {
    if |xs| == 0 then ""
    else if |xs| == 1 then EncodeString(xs[0])
    else EncodeString(xs[0]) + "," + JoinEncoded(xs[1..])
  }

  /** `JSON.stringify(xs)` for an array of strings. */
  function Encode(xs: seq<string>): (r: string)
    ensures |r| >= 2 && r[0] == '[' && r[|r| - 1] == ']'
  {
    "[" + JoinEncoded(xs) + "]"
  }

  // ---------------------------------------------------------------- decoder

  predicate IsJsonWs(c: char)
  {
    c == ' ' || c == '\t' || c == '\n' || c == '\r'
  }

  function SkipWs(s: string): (r: string)
    ensures |r| <= |s| && r == s[|s| - |r|..]
    ensures r == [] || !IsJsonWs(r[0])
  {
    if |s| > 0 && IsJsonWs(s[0]) then SkipWs(s[1..]) else s
  }

  function HexValue(c: char): Option<int>
  {
    if '0' <= c <= '9' then Some(c as int - '0' as int)
    else if 'a' <= c <= 'f' then Some(c as int - 'a' as int + 10)
    else if 'A' <= c <= 'F' then Some(c as int - 'A' as int + 10)
    else None
  }

  /** Four hex digits, as after `\u`. */
  function ParseHex4(s: string): (r: Option<Parsed<int>>)
    ensures r.Some? ==> |s| >= 4 && r.value.rest == s[4..] && 0 <= r.value.value < 0x10000
  {
    if |s| < 4 then None
    else
      match (HexValue(s[0]), HexValue(s[1]), HexValue(s[2]), HexValue(s[3]))
      case (Some(a), Some(b), Some(c), Some(d)) =>
        assert 0 <= a < 16 && 0 <= b < 16 && 0 <= c < 16 && 0 <= d < 16 by {
          assert HexValue(s[0]).Some? && HexValue(s[1]).Some?;
        }
        Some(Parsed(a * 4096 + b * 256 + c * 16 + d, s[4..]))
      case _ => None
  }

  /** The character an escape denotes; `s` follows the backslash. A `\u`
      escape of a surrogate half must be a high half followed by a `\u`
      low half, and the pair denotes one character. */
  function ParseEscape(s: string): (r: Option<Parsed<char>>)
    ensures r.Some? ==> |r.value.rest| < |s|
  {
    if |s| == 0 then None
    else if s[0] == '"' || s[0] == '\\' || s[0] == '/' then Some(Parsed(s[0], s[1..]))
    else if s[0] == 'b' then Some(Parsed(0x08 as char, s[1..]))
    else if s[0] == 'f' then Some(Parsed(0x0C as char, s[1..]))
    else if s[0] == 'n' then Some(Parsed('\n', s[1..]))
    else if s[0] == 'r' then Some(Parsed('\r', s[1..]))
    else if s[0] == 't' then Some(Parsed('\t', s[1..]))
    else if s[0] == 'u' then
      match ParseHex4(s[1..])
      case None => None
      case Some(Parsed(hi, rest)) =>
        if 0xD800 <= hi < 0xDC00 then
          if |rest| >= 2 && rest[0] == '\\' && rest[1] == 'u' then
            match ParseHex4(rest[2..])
            case Some(Parsed(lo, rest2)) =>
              if 0xDC00 <= lo < 0xE000 then
                Some(Parsed((0x10000 + (hi - 0xD800) * 0x400 + (lo - 0xDC00)) as char, rest2))
              else None
            case None => None
          else None
        else if 0xDC00 <= hi < 0xE000 then None
        else Some(Parsed(hi as char, rest))
    else None
  }

  function Prepend(c: char, r: Option<Parsed<string>>): Option<Parsed<string>>
  {
    match r
    case None => None
    case Some(Parsed(v, rest)) => Some(Parsed([c] + v, rest))
  }

  /** The characters of a string up to and including its closing quote. */
  function ParseStringBody(s: string): (r: Option<Parsed<string>>)
    ensures r.Some? ==> |r.value.rest| < |s|
    decreases |s|, 1
  {
    if |s| == 0 then None
    else if s[0] == '"' then Some(Parsed("", s[1..]))
    else if s[0] == '\\' then ParseEscaped(s[1..])
    else if (s[0] as int) < 0x20 then None
    else Prepend(s[0], ParseStringBody(s[1..]))
  }

  /** After a backslash: the escaped character, then the rest of the string. */
  function ParseEscaped(s: string): (r: Option<Parsed<string>>)
    ensures r.Some? ==> |r.value.rest| < |s|
    decreases |s|, 0
  {
    match ParseEscape(s)
    case None => None
    case Some(Parsed(c, rest)) => Prepend(c, ParseStringBody(rest))
  }

  function ParseString(s: string): (r: Option<Parsed<string>>)
    ensures r.Some? ==> |r.value.rest| < |s|
  {
    if |s| > 0 && s[0] == '"' then ParseStringBody(s[1..]) else None
  }

  /** One or more strings separated by commas, then the closing bracket. */
  function ParseElements(s: string): (r: Option<Parsed<seq<string>>>)
    decreases |s|
  {
    match ParseString(s)
    case None => None
    case Some(Parsed(v, rest)) => ParseAfterElement(v, SkipWs(rest))
  }

  /** What may follow an element `v`: the closing bracket or a comma and
      further elements. */
  function ParseAfterElement(v: string, t: string): (r: Option<Parsed<seq<string>>>)
    decreases |t|
  {
    if |t| > 0 && t[0] == ']' then Some(Parsed([v], t[1..]))
    else if |t| > 0 && t[0] == ',' then PrependElement(v, ParseElements(SkipWs(t[1..])))
    else None
  }

  function PrependElement(x: string, r: Option<Parsed<seq<string>>>): Option<Parsed<seq<string>>>
  {
    match r
    case None => None
    case Some(Parsed(vs, rest)) => Some(Parsed([x] + vs, rest))
  }

  /** `JSON.parse(text)` for a text that denotes an array of strings; any
      other text, valid JSON or not, gives `None`. */
  function Decode(text: string): Option<seq<string>>
  {
    var s := SkipWs(text);
    if |s| == 0 || s[0] != '[' then None else AtEnd(ParseArrayBody(SkipWs(s[1..])))
  }

  /** What follows the opening bracket: an empty array or its elements. */
  function ParseArrayBody(t: string): Option<Parsed<seq<string>>>
  {
    if |t| > 0 && t[0] == ']' then Some(Parsed([], t[1..])) else ParseElements(t)
  }

  /** Only whitespace may follow the value. */
  function AtEnd(r: Option<Parsed<seq<string>>>): Option<seq<string>>
  {
    match r
    case None => None
    case Some(Parsed(vs, rest)) => if SkipWs(rest) == "" then Some(vs) else None
  }

  // ------------------------------------------------------------- round trip

  lemma HexDigitValue(n: int)
    requires 0 <= n < 16
    ensures HexValue(HexDigit(n)) == Some(n)
  {
  }

  /** A `\u00xx` escape of a control character reads back as it. */
  lemma UnicodeEscapeParses(c: char, tail: string)
    requires c as int < 0x20
    ensures ParseEscape(['u', '0', '0', HexDigit(c as int / 16), HexDigit(c as int % 16)] + tail)
         == Some(Parsed(c, tail))
  {
    var n := c as int;
    var s := ['u', '0', '0', HexDigit(n / 16), HexDigit(n % 16)] + tail;
    HexDigitValue(n / 16);
    HexDigitValue(n % 16);
    assert s[1..][4..] == tail;
    assert ParseHex4(s[1..]) == Some(Parsed(n, tail));
  }

  /** An escape sequence continues the string after the escaped character. */
  lemma EscapeStep(s: string, c: char, tail: string)
    requires |s| > 0 && s[0] == '\\' && ParseEscape(s[1..]) == Some(Parsed(c, tail))
    ensures ParseStringBody(s) == Prepend(c, ParseStringBody(tail))
  {
    assert ParseStringBody(s) == ParseEscaped(s[1..]);
  }

  lemma {:induction false} EscapeCharParses(c: char, tail: string)
    ensures ParseStringBody(EscapeChar(c) + tail) == Prepend(c, ParseStringBody(tail))
  {
    if c == '"' || c == '\\' || c as int == 0x08 || c == '\t' || c == '\n' || c as int == 0x0C || c == '\r' {
      var e := EscapeChar(c)[1..];
      var s := EscapeChar(c) + tail;
      assert s[1..] == e + tail;
      assert (e + tail)[1..] == tail;
      EscapeStep(s, c, tail);
    } else if c as int < 0x20 {
      var e := ['u', '0', '0', HexDigit(c as int / 16), HexDigit(c as int % 16)];
      var s := EscapeChar(c) + tail;
      assert s[1..] == e + tail;
      UnicodeEscapeParses(c, tail);
      EscapeStep(s, c, tail);
    } else {
      assert (EscapeChar(c) + tail)[1..] == tail;
    }
  }

  lemma {:induction false} EscapeAllParses(x: string, rest: string)
    ensures ParseStringBody(EscapeAll(x) + "\"" + rest) == Some(Parsed(x, rest))
  {
    if |x| == 0 {
      assert EscapeAll(x) + "\"" + rest == "\"" + rest;
    } else {
      var tail := EscapeAll(x[1..]) + "\"" + rest;
      assert EscapeAll(x) + "\"" + rest == EscapeChar(x[0]) + tail;
      EscapeCharParses(x[0], tail);
      EscapeAllParses(x[1..], rest);
      assert [x[0]] + x[1..] == x;
    }
  }

  lemma {:induction false} EncodeStringParses(x: string, rest: string)
    ensures ParseString(EncodeString(x) + rest) == Some(Parsed(x, rest))
  {
    var s := EncodeString(x) + rest;
    assert s[1..] == EscapeAll(x) + "\"" + rest;
    EscapeAllParses(x, rest);
  }

  /** Whitespace skipping stops at the first other character. */
  lemma SkipWsStops(t: string)
    requires |t| > 0 && !IsJsonWs(t[0])
    ensures SkipWs(t) == t
  {
  }

  /** After one string, the parser looks at what follows it. */
  lemma ElementsStep(s: string, x: string, rest: string)
    requires ParseString(s) == Some(Parsed(x, rest))
    ensures ParseElements(s) == ParseAfterElement(x, SkipWs(rest))
  {
  }

  lemma AfterComma(x: string, more: string)
    ensures ParseAfterElement(x, "," + more) == PrependElement(x, ParseElements(SkipWs(more)))
  {
    assert ("," + more)[1..] == more;
  }

  lemma AfterBracket(x: string, rest: string)
    ensures ParseAfterElement(x, "]" + rest) == Some(Parsed([x], rest))
  {
    assert ("]" + rest)[1..] == rest;
  }

  /** After a string, a closing bracket ends the elements. */
  lemma ElementThenBracket(s: string, x: string, rest: string)
    requires ParseString(s) == Some(Parsed(x, "]" + rest))
    ensures ParseElements(s) == Some(Parsed([x], rest))
  {
    var r1 := "]" + rest;
    ElementsStep(s, x, r1);
    SkipWsStops(r1);
    AfterBracket(x, rest);
  }

  /** After a string, a comma continues with the elements that follow. */
  lemma ElementThenComma(s: string, x: string, more: string)
    requires |more| > 0 && more[0] == '"'
    requires ParseString(s) == Some(Parsed(x, "," + more))
    ensures ParseElements(s) == PrependElement(x, ParseElements(more))
  {
    var r1 := "," + more;
    ElementsStep(s, x, r1);
    assert ParseElements(s) == ParseAfterElement(x, SkipWs(r1));
    SkipWsStops(r1);
    AfterComma(x, more);
    SkipWsStops(more);
  }

  lemma JoinEncodedSplit(xs: seq<string>, rest: string)
    requires |xs| > 1
    ensures JoinEncoded(xs) + "]" + rest
         == EncodeString(xs[0]) + ("," + (JoinEncoded(xs[1..]) + "]" + rest))
  {
    var a, b := EncodeString(xs[0]), JoinEncoded(xs[1..]);
    assert JoinEncoded(xs) == a + "," + b;
    Regroup(a, ",", b, "]", rest);
  }

  lemma Regroup2(a: string, b: string, c: string)
    ensures a + b + c == a + (b + c)
  {
  }

  lemma Regroup3(a: string, b: string, c: string)
    ensures (a + b + c)[|a|..] == b + c
  {
  }

  lemma Regroup(a: string, b: string, c: string, d: string, e: string)
    ensures a + b + c + d + e == a + (b + (c + d + e))
  {
  }

  lemma JoinParsesSingle(xs: seq<string>, rest: string)
    requires |xs| == 1
    ensures ParseElements(JoinEncoded(xs) + "]" + rest) == Some(Parsed(xs, rest))
  {
    assert JoinEncoded(xs) == EncodeString(xs[0]);
    Regroup2(EncodeString(xs[0]), "]", rest);
    EncodeStringParses(xs[0], "]" + rest);
    ElementThenBracket(EncodeString(xs[0]) + ("]" + rest), xs[0], rest);
    assert [xs[0]] == xs;
  }

  /** A string, a comma and further elements parse as one list. */
  lemma ConsStep(s: string, x: string, more: string, vs: seq<string>, rest: string)
    requires |more| > 0 && more[0] == '"'
    requires ParseString(s) == Some(Parsed(x, "," + more))
    requires ParseElements(more) == Some(Parsed(vs, rest))
    ensures ParseElements(s) == Some(Parsed([x] + vs, rest))
  {
    ElementThenComma(s, x, more);
  }

  lemma StartsWithQuote(a: string, b: string)
    requires |a| > 0 && a[0] == '"'
    ensures |a + b| > 0 && (a + b)[0] == '"'
  {
  }

  lemma JoinParsesCons(xs: seq<string>, rest: string)
    requires |xs| > 1
    requires ParseElements(JoinEncoded(xs[1..]) + "]" + rest) == Some(Parsed(xs[1..], rest))
    ensures ParseElements(JoinEncoded(xs) + "]" + rest) == Some(Parsed(xs, rest))
  {
    var j := JoinEncoded(xs[1..]);
    var more := j + "]" + rest;
    var s := EncodeString(xs[0]) + ("," + more);
    assert ParseElements(s) == Some(Parsed(xs, rest)) by {
      StartsWithQuote(j, "]");
      StartsWithQuote(j + "]", rest);
      EncodeStringParses(xs[0], "," + more);
      ConsStep(s, xs[0], more, xs[1..], rest);
      assert [xs[0]] + xs[1..] == xs;
    }
    JoinEncodedSplit(xs, rest);
  }

  lemma {:induction false} JoinParses(xs: seq<string>, rest: string)
    requires |xs| > 0
    ensures ParseElements(JoinEncoded(xs) + "]" + rest) == Some(Parsed(xs, rest))
  {
    if |xs| == 1 {
      JoinParsesSingle(xs, rest);
    } else {
      JoinParses(xs[1..], rest);
      JoinParsesCons(xs, rest);
    }
  }

  lemma DecodeStep(text: string)
    requires |text| > 0 && text[0] == '['
    ensures Decode(text) == AtEnd(ParseArrayBody(SkipWs(text[1..])))
  {
    SkipWsStops(text);
  }

  lemma EncodeTail(xs: seq<string>)
    ensures Encode(xs)[1..] == JoinEncoded(xs) + "]"
  {
    Regroup3("[", JoinEncoded(xs), "]");
  }

  lemma BodyStartsClean(xs: seq<string>)
    ensures SkipWs(JoinEncoded(xs) + "]") == JoinEncoded(xs) + "]"
  {
    var t := JoinEncoded(xs) + "]";
    if |xs| == 0 {
      assert t == "]";
    } else {
      assert t[0] == '"';
    }
    SkipWsStops(t);
  }

  lemma DecodeOpens(xs: seq<string>)
    ensures Decode(Encode(xs)) == AtEnd(ParseArrayBody(JoinEncoded(xs) + "]"))
  {
    DecodeStep(Encode(xs));
    EncodeTail(xs);
    BodyStartsClean(xs);
  }

  lemma ArrayBodyParses(xs: seq<string>)
    ensures ParseArrayBody(JoinEncoded(xs) + "]") == Some(Parsed(xs, ""))
  {
    var t := JoinEncoded(xs) + "]";
    if |xs| == 0 {
      assert t == "]";
    } else {
      JoinParses(xs, "");
      assert t + "" == t;
    }
  }

  /** The text written for a list reads back as exactly that list: order,
      duplicates and every character of every entry are preserved. */
  lemma DecodeEncode(xs: seq<string>)
    ensures Decode(Encode(xs)) == Some(xs)
  {
    DecodeOpens(xs);
    ArrayBodyParses(xs);
    assert SkipWs("") == "";
  }

  /** Consequently the encoding is injective: two lists that serialise to
      the same text are the same list. */
  lemma EncodeInjective(xs: seq<string>, ys: seq<string>)
    requires Encode(xs) == Encode(ys)
    ensures xs == ys
  {
    DecodeEncode(xs);
    DecodeEncode(ys);
  }
}
