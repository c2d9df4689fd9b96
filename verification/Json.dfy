/** JSON (RFC 8259) as Go's encoding/json writes and reads it, on bytes. */
module Json {
  import opened Core
  import opened Decimal
  import opened Utf8

  datatype Json =
    | Null
    | Bool(b: bool)
    | Num(n: int)
    | Str(s: string)
    | Arr(elems: seq<Json>)
    | Obj(fields: seq<Field>)

  datatype Field = Field(name: string, value: Json)

  datatype Token =
    | OpenBrace | CloseBrace | OpenBracket | CloseBracket | Colon | Comma
    | NullToken | TrueToken | FalseToken
    | NumToken(n: int)
    | StrToken(s: string)

  // ---- Strings ----

  const QUOTE: Byte := 0x22
  const BACKSLASH: Byte := 0x5C

  function HexByte(n: int): (b: Byte)
    requires 0 <= n < 16
    ensures HexValue(b) == Some(n) && 0x20 < b < 0x80
  {
    if n < 10 then 0x30 + n else 0x61 + n - 10
  }

  function HexValue(b: Byte): (n: Option<int>)
    ensures n.Some? ==> 0 <= n.value < 16
  {
    if 0x30 <= b <= 0x39 then Some(b - 0x30)
    else if 0x61 <= b <= 0x66 then Some(b - 0x61 + 10)
    else if 0x41 <= b <= 0x46 then Some(b - 0x41 + 10)
    else None
  }

  function UnicodeEscape(n: int): seq<Byte>
    requires 0 <= n < 0x1_0000
  {
    [BACKSLASH, 0x75, HexByte(n / 4096), HexByte(n / 256 % 16), HexByte(n / 16 % 16), HexByte(n % 16)]
  }

  /** The letter after the backslash, for the characters that have a short escape. */
  function ShortEscape(c: char): Option<Byte> {
    if c == '"' then Some(QUOTE)
    else if c == '\\' then Some(BACKSLASH)
    else if c as int == 0x08 then Some(0x62)
    else if c as int == 0x0C then Some(0x66)
    else if c as int == 0x0A then Some(0x6E)
    else if c as int == 0x0D then Some(0x72)
    else if c as int == 0x09 then Some(0x74)
    else None
  }

  /** Written as a hexadecimal escape: control characters, what HTML cares about, and two line
      separators of JavaScript. */
  predicate EscapedByNumber(c: char) {
    c as int < 0x20 || c in "<>&" || c as int == 0x2028 || c as int == 0x2029
  }

  function CharBytes(c: char): (b: seq<Byte>)
    ensures b != [] && forall i :: 0 <= i < |b| ==> b[i] >= 0x20
  {
    if ShortEscape(c).Some? then [BACKSLASH, ShortEscape(c).value]
    else if EscapedByNumber(c) then UnicodeEscape(c as int)
    else Encode(c)
  }

  function StringBytes(s: string): (b: seq<Byte>)
    ensures forall i :: 0 <= i < |b| ==> b[i] >= 0x20
  {
    if s == [] then [] else CharBytes(s[0]) + StringBytes(s[1..])
  }

  function FourHex(b: seq<Byte>): (n: Option<int>)
    ensures n.Some? ==> |b| >= 4 && 0 <= n.value < 0x1_0000
  {
    if |b| < 4 || HexValue(b[0]).None? || HexValue(b[1]).None? || HexValue(b[2]).None? || HexValue(b[3]).None? then None
    else
      Some(HexValue(b[0]).value * 4096 + HexValue(b[1]).value * 256 + HexValue(b[2]).value * 16 + HexValue(b[3]).value)
  }

  /** The code unit of an escape `\uXXXX` at the head of `b`. */
  function EscapedUnit(b: seq<Byte>): (n: Option<int>)
    ensures n.Some? ==> |b| >= 6 && 0 <= n.value < 0x1_0000
  {
    if |b| >= 6 && b[0] == BACKSLASH && b[1] == 0x75 then FourHex(b[2..]) else None
  }

  /** A hexadecimal escape: a surrogate pair is one character, a lone surrogate a replacement. */
  function ReadUnicodeEscape(b: seq<Byte>): (r: Option<(char, seq<Byte>)>)
    ensures r.Some? ==> |r.value.1| < |b|
  {
    var first := EscapedUnit(b);
    if first.None? then None
    else if !(0xD800 <= first.value < 0xE000) then Some((first.value as char, b[6..]))
    else
      var second := EscapedUnit(b[6..]);
      if first.value < 0xDC00 && second.Some? && 0xDC00 <= second.value < 0xE000
      then Some(((0x1_0000 + (first.value - 0xD800) * 1024 + (second.value - 0xDC00)) as char, b[12..]))
      else Some((REPLACEMENT, b[6..]))
  }

  function ReadShortEscape(b: Byte): Option<char> {
    if b == QUOTE then Some('"')
    else if b == BACKSLASH then Some('\\')
    else if b == 0x2F then Some('/')
    else if b == 0x62 then Some(0x08 as char)
    else if b == 0x66 then Some(0x0C as char)
    else if b == 0x6E then Some(0x0A as char)
    else if b == 0x72 then Some(0x0D as char)
    else if b == 0x74 then Some(0x09 as char)
    else None
  }

  /** One character of a string literal. */
  function ReadChar(b: seq<Byte>): (r: Option<(char, seq<Byte>)>)
    ensures r.Some? ==> |r.value.1| < |b|
  {
    if b == [] || b[0] < 0x20 || b[0] == QUOTE then None
    else if b[0] != BACKSLASH then
      var (c, size) := DecodeFirst(b);
      Some((c, b[size..]))
    else if |b| < 2 then None
    else if b[1] == 0x75 then ReadUnicodeEscape(b)
    else if ReadShortEscape(b[1]).Some? then Some((ReadShortEscape(b[1]).value, b[2..]))
    else None
  }

  /** A string literal from after its opening quote; the rest starts after its closing one. */
  function ReadString(b: seq<Byte>): (r: Option<(string, seq<Byte>)>)
    ensures r.Some? ==> |r.value.1| < |b|
    decreases |b|
  {
    if b != [] && b[0] == QUOTE then Some(("", b[1..]))
    else
      var head := ReadChar(b);
      if head.None? then None
      else
        var tail := ReadString(head.value.1);
        if tail.None? then None else Some(([head.value.0] + tail.value.0, tail.value.1))
  }

  lemma HexDigits(n: int)
    requires 0 <= n < 0x1_0000
    ensures n / 4096 * 4096 + n / 256 % 16 * 256 + n / 16 % 16 * 16 + n % 16 == n
  {
    var a, b, c := n / 16, n / 256, n / 4096;
    assert a / 16 == b && b / 16 == c;
    assert n == 16 * a + n % 16 && a == 16 * b + a % 16 && b == 16 * c + b % 16;
  }

  lemma ReadBackUnit(n: int, rest: seq<Byte>)
    requires 0 <= n < 0x1_0000
    ensures EscapedUnit(UnicodeEscape(n) + rest) == Some(n) && (UnicodeEscape(n) + rest)[6..] == rest
  {
    var b := UnicodeEscape(n) + rest;
    var h := b[2..];
    assert h[0] == HexByte(n / 4096) && h[1] == HexByte(n / 256 % 16);
    assert h[2] == HexByte(n / 16 % 16) && h[3] == HexByte(n % 16);
    HexDigits(n);
  }

  lemma ReadBackUnicodeEscape(c: char, rest: seq<Byte>)
    requires c as int < 0x1_0000
    ensures ReadChar(UnicodeEscape(c as int) + rest) == Some((c, rest))
  {
    var b := UnicodeEscape(c as int) + rest;
    assert b[0] == BACKSLASH && b[1] == 0x75;
    ReadBackUnit(c as int, rest);
  }

  lemma ReadBackChar(c: char, rest: seq<Byte>)
    ensures ReadChar(CharBytes(c) + rest) == Some((c, rest))
    ensures (CharBytes(c) + rest)[0] != QUOTE
  {
    var b := CharBytes(c) + rest;
    if ShortEscape(c).Some? {
      assert b[2..] == rest;
    } else if EscapedByNumber(c) {
      ReadBackUnicodeEscape(c, rest);
    } else {
      DecodeEncode(c, rest);
      assert b[|Encode(c)|..] == rest;
    }
  }

  lemma {:induction false} ReadBackString(s: string, rest: seq<Byte>)
    ensures ReadString(StringBytes(s) + ([QUOTE] + rest)) == Some((s, rest))
    decreases |s|
  {
    if s == [] {
      assert ([QUOTE] + rest)[1..] == rest;
      assert StringBytes(s) + ([QUOTE] + rest) == [QUOTE] + rest;
    } else {
      var more := StringBytes(s[1..]) + ([QUOTE] + rest);
      assert StringBytes(s) + ([QUOTE] + rest) == CharBytes(s[0]) + more;
      ReadBackChar(s[0], more);
      ReadBackString(s[1..], rest);
      assert [s[0]] + s[1..] == s;
    }
  }

  // ---- Numbers ----

  function Ascii(s: string): (b: seq<Byte>)
    requires forall i :: 0 <= i < |s| ==> 0x20 <= s[i] as int < 0x80
    ensures |b| == |s| && forall i :: 0 <= i < |b| ==> b[i] == s[i] as int
  {
    if s == [] then [] else [s[0] as int] + Ascii(s[1..])
  }

  function NumBytes(n: int): (b: seq<Byte>)
    ensures b != [] && forall i :: 0 <= i < |b| ==> b[i] >= 0x20
  {
    if n < 0 then [0x2D] + Ascii(Itoa(-n)) else Ascii(Itoa(n))
  }

  /** The digits `b` starts with. */
  function LeadingDigits(b: seq<Byte>): (d: string)
    ensures |d| <= |b| && AllDigits(d)
  {
    if b == [] || !(0x30 <= b[0] <= 0x39) then ""
    else [b[0] as char] + LeadingDigits(b[1..])
  }

  /** An integer without superfluous zeros. */
  function ReadNatural(b: seq<Byte>): (r: Option<(int, seq<Byte>)>)
    ensures r.Some? ==> |r.value.1| < |b|
  {
    var d := LeadingDigits(b);
    if d == "" || (|d| > 1 && d[0] == '0') then None else Some((Value(d), b[|d|..]))
  }

  function ReadNumber(b: seq<Byte>): (r: Option<(int, seq<Byte>)>)
    ensures r.Some? ==> |r.value.1| < |b|
  {
    if b != [] && b[0] == 0x2D then
      var r := ReadNatural(b[1..]);
      if r.Some? then Some((-r.value.0, r.value.1)) else None
    else ReadNatural(b)
  }

  predicate StartsWithDigit(b: seq<Byte>) {
    b != [] && 0x30 <= b[0] <= 0x39
  }

  lemma {:induction false} LeadingDigitsOf(d: string, rest: seq<Byte>)
    requires AllDigits(d) && !StartsWithDigit(rest)
    ensures LeadingDigits(Ascii(d) + rest) == d
    decreases |d|
  {
    if d == [] {
      assert Ascii(d) + rest == rest;
    } else {
      assert Ascii(d) == [d[0] as int] + Ascii(d[1..]);
      ConsTail(d[0] as int, Ascii(d[1..]), rest);
      LeadingDigitsOf(d[1..], rest);
      assert [d[0]] + d[1..] == d;
    }
  }

  lemma ReadBackNatural(n: nat, rest: seq<Byte>)
    requires !StartsWithDigit(rest)
    ensures ReadNatural(Ascii(Itoa(n)) + rest) == Some((n, rest))
  {
    LeadingDigitsOf(Itoa(n), rest);
    assert n == 0 ==> Itoa(n) == "0";
    assert (Ascii(Itoa(n)) + rest)[|Itoa(n)|..] == rest;
  }

  lemma ReadMinus(digits: seq<Byte>, rest: seq<Byte>)
    ensures
      var r := ReadNatural(digits + rest);
      ReadNumber([0x2D] + digits + rest) == if r.Some? then Some((-r.value.0, r.value.1)) else None
  {
    assert ([0x2D] + digits + rest)[1..] == digits + rest;
  }

  lemma ReadPlus(d: string, rest: seq<Byte>)
    requires d != "" && AllDigits(d)
    ensures ReadNumber(Ascii(d) + rest) == ReadNatural(Ascii(d) + rest)
  {
    assert (Ascii(d) + rest)[0] == d[0] as int;
  }

  lemma ReadBackNegative(n: nat, rest: seq<Byte>)
    requires n > 0 && !StartsWithDigit(rest)
    ensures ReadNumber([0x2D] + Ascii(Itoa(n)) + rest) == Some((0 - n, rest))
  {
    ReadBackNatural(n, rest);
    ReadMinus(Ascii(Itoa(n)), rest);
  }

  lemma ReadBackNumber(n: int, rest: seq<Byte>)
    requires !StartsWithDigit(rest)
    ensures ReadNumber(NumBytes(n) + rest) == Some((n, rest))
  {
    if n < 0 {
      ReadBackNegative(-n, rest);
    } else {
      ReadBackNatural(n, rest);
      ReadPlus(Itoa(n), rest);
    }
  }

  // ---- Tokens ----

  const NULL_TEXT: seq<Byte> := [0x6E, 0x75, 0x6C, 0x6C]
  const TRUE_TEXT: seq<Byte> := [0x74, 0x72, 0x75, 0x65]
  const FALSE_TEXT: seq<Byte> := [0x66, 0x61, 0x6C, 0x73, 0x65]

  function TokenBytes(t: Token): (b: seq<Byte>)
    ensures b != [] && forall i :: 0 <= i < |b| ==> b[i] >= 0x20
  {
    match t
    case OpenBrace => [0x7B]
    case CloseBrace => [0x7D]
    case OpenBracket => [0x5B]
    case CloseBracket => [0x5D]
    case Colon => [0x3A]
    case Comma => [0x2C]
    case NullToken => NULL_TEXT
    case TrueToken => TRUE_TEXT
    case FalseToken => FALSE_TEXT
    case NumToken(n) => NumBytes(n)
    case StrToken(s) => [QUOTE] + (StringBytes(s) + [QUOTE])
  }

  function Print(ts: seq<Token>): (b: seq<Byte>)
    ensures forall i :: 0 <= i < |b| ==> b[i] >= 0x20
  {
    if ts == [] then [] else TokenBytes(ts[0]) + Print(ts[1..])
  }

  function Mark(b: Byte): Option<Token> {
    if b == 0x7B then Some(OpenBrace)
    else if b == 0x7D then Some(CloseBrace)
    else if b == 0x5B then Some(OpenBracket)
    else if b == 0x5D then Some(CloseBracket)
    else if b == 0x3A then Some(Colon)
    else if b == 0x2C then Some(Comma)
    else None
  }

  /** The tokens as the standard spells them (sections 2 and 3), and one escape of each form. */
  lemma Spelling()
    ensures TokenBytes(OpenBrace) == ['{' as int] && TokenBytes(CloseBrace) == ['}' as int]
    ensures TokenBytes(OpenBracket) == ['[' as int] && TokenBytes(CloseBracket) == [']' as int]
    ensures TokenBytes(Colon) == [':' as int] && TokenBytes(Comma) == [',' as int]
    ensures TokenBytes(NullToken) == ['n' as int, 'u' as int, 'l' as int, 'l' as int]
    ensures TokenBytes(TrueToken) == ['t' as int, 'r' as int, 'u' as int, 'e' as int]
    ensures TokenBytes(FalseToken) == ['f' as int, 'a' as int, 'l' as int, 's' as int, 'e' as int]
    ensures CharBytes('"') == ['\\' as int, '"' as int] && CharBytes('\n') == ['\\' as int, 'n' as int]
    ensures CharBytes('<') == ['\\' as int, 'u' as int, '0' as int, '0' as int, '3' as int, 'c' as int]
  {
  }

  function ReadToken(b: seq<Byte>): (r: Option<(Token, seq<Byte>)>)
    requires b != []
    ensures r.Some? ==> |r.value.1| < |b|
  {
    if Mark(b[0]).Some? then Some((Mark(b[0]).value, b[1..]))
    else if NULL_TEXT <= b then Some((NullToken, b[4..]))
    else if TRUE_TEXT <= b then Some((TrueToken, b[4..]))
    else if FALSE_TEXT <= b then Some((FalseToken, b[5..]))
    else if b[0] == QUOTE then
      var r := ReadString(b[1..]);
      if r.Some? then Some((StrToken(r.value.0), r.value.1)) else None
    else
      var r := ReadNumber(b);
      if r.Some? then Some((NumToken(r.value.0), r.value.1)) else None
  }

  predicate IsSpace(b: Byte) {
    b == 0x20 || b == 0x09 || b == 0x0A || b == 0x0D
  }

  /** All tokens, white space skipped. */
  function Lex(b: seq<Byte>): Option<seq<Token>>
    decreases |b|
  {
    if b == [] then Some([])
    else if IsSpace(b[0]) then Lex(b[1..])
    else
      var t := ReadToken(b);
      if t.None? then None
      else
        var more := Lex(t.value.1);
        if more.None? then None else Some([t.value.0] + more.value)
  }

  /** Two numbers in a row would be read as one. */
  predicate Lexable(ts: seq<Token>) {
    ts == [] || ((ts[0].NumToken? && |ts| > 1 ==> !ts[1].NumToken?) && Lexable(ts[1..]))
  }

  lemma TokenStart(t: Token)
    ensures !IsSpace(TokenBytes(t)[0])
    ensures StartsWithDigit(TokenBytes(t)) ==> t.NumToken?
    ensures t.NumToken? ==> 0x30 <= TokenBytes(t)[0] <= 0x39 || TokenBytes(t)[0] == 0x2D
  {
    if t.NumToken? {
      assert t.n >= 0 ==> Ascii(Itoa(t.n))[0] == Itoa(t.n)[0] as int;
    }
  }

  lemma PrintStart(ts: seq<Token>)
    ensures ts != [] ==> Print(ts) != [] && Print(ts)[0] == TokenBytes(ts[0])[0]
  {
  }

  lemma ReadBackWord(t: Token, rest: seq<Byte>)
    requires t.NullToken? || t.TrueToken? || t.FalseToken?
    ensures ReadToken(TokenBytes(t) + rest) == Some((t, rest))
  {
    var b := TokenBytes(t) + rest;
    assert b[0] == TokenBytes(t)[0];
    assert b[|TokenBytes(t)|..] == rest;
  }

  lemma ReadBackLiteral(s: string, rest: seq<Byte>)
    ensures ReadToken([QUOTE] + (StringBytes(s) + [QUOTE]) + rest) == Some((StrToken(s), rest))
  {
    var body := StringBytes(s) + [QUOTE];
    ConsTail(QUOTE, body, rest);
    Append3(StringBytes(s), [QUOTE], rest);
    ReadBackString(s, rest);
    assert NULL_TEXT[0] != QUOTE && TRUE_TEXT[0] != QUOTE && FALSE_TEXT[0] != QUOTE;
  }

  lemma ReadBackMark(t: Token, rest: seq<Byte>)
    requires |TokenBytes(t)| == 1 && Mark(TokenBytes(t)[0]) == Some(t)
    ensures ReadToken(TokenBytes(t) + rest) == Some((t, rest))
  {
    assert (TokenBytes(t) + rest)[0] == TokenBytes(t)[0];
    assert (TokenBytes(t) + rest)[1..] == rest;
  }

  lemma ReadBackNumberToken(n: int, rest: seq<Byte>)
    requires !StartsWithDigit(rest)
    ensures ReadToken(NumBytes(n) + rest) == Some((NumToken(n), rest))
  {
    TokenStart(NumToken(n));
    ReadBackNumber(n, rest);
    var b := NumBytes(n) + rest;
    assert b[0] == NumBytes(n)[0];
    NoPrefix(NULL_TEXT, b);
    NoPrefix(TRUE_TEXT, b);
    NoPrefix(FALSE_TEXT, b);
  }

  lemma NoPrefix(text: seq<Byte>, b: seq<Byte>)
    requires text != [] && b != [] && text[0] != b[0]
    ensures !(text <= b)
  {
  }

  lemma ReadBackToken(t: Token, rest: seq<Byte>)
    requires t.NumToken? ==> !StartsWithDigit(rest)
    ensures ReadToken(TokenBytes(t) + rest) == Some((t, rest))
  {
    match t
    case StrToken(s) => ReadBackLiteral(s, rest);
    case NumToken(n) => ReadBackNumberToken(n, rest);
    case NullToken | TrueToken | FalseToken => ReadBackWord(t, rest);
    case _ => ReadBackMark(t, rest);
  }

  lemma LexOne(t: Token, rest: seq<Byte>)
    requires t.NumToken? ==> !StartsWithDigit(rest)
    ensures Lex(TokenBytes(t) + rest) == if Lex(rest).None? then None else Some([t] + Lex(rest).value)
  {
    TokenStart(t);
    ReadBackToken(t, rest);
    assert (TokenBytes(t) + rest)[0] == TokenBytes(t)[0];
  }

  lemma DigitMeansNumber(ts: seq<Token>)
    ensures StartsWithDigit(Print(ts)) ==> ts[0].NumToken?
  {
    PrintStart(ts);
    if ts != [] {
      TokenStart(ts[0]);
    }
  }

  lemma {:induction false} LexPrint(ts: seq<Token>)
    requires Lexable(ts)
    ensures Lex(Print(ts)) == Some(ts)
    decreases |ts|
  {
    if ts == [] {
    } else {
      DigitMeansNumber(ts[1..]);
      LexOne(ts[0], Print(ts[1..]));
      LexPrint(ts[1..]);
      assert [ts[0]] + ts[1..] == ts;
    }
  }

  // ---- Values ----

  /** The tokens of a value, followed by `rest`. */
  function TokensOf(v: Json, rest: seq<Token>): (ts: seq<Token>)
    decreases v, 0
  {
    match v
    case Null => [NullToken] + rest
    case Bool(b) => [if b then TrueToken else FalseToken] + rest
    case Num(n) => [NumToken(n)] + rest
    case Str(s) => [StrToken(s)] + rest
    case Arr(elems) => [OpenBracket] + (if elems == [] then [CloseBracket] + rest else ElemsTokens(elems, rest))
    case Obj(fields) => [OpenBrace] + (if fields == [] then [CloseBrace] + rest else FieldsTokens(fields, rest))
  }

  function ElemsTokens(elems: seq<Json>, rest: seq<Token>): (ts: seq<Token>)
    requires elems != []
    decreases elems, 1
  {
    TokensOf(elems[0], if |elems| == 1 then [CloseBracket] + rest else [Comma] + ElemsTokens(elems[1..], rest))
  }

  function FieldsTokens(fields: seq<Field>, rest: seq<Token>): (ts: seq<Token>)
    requires fields != []
    decreases fields, 1
  {
    [StrToken(fields[0].name), Colon]
    + TokensOf(fields[0].value,
               if |fields| == 1 then [CloseBrace] + rest else [Comma] + FieldsTokens(fields[1..], rest))
  }

  function ReadValue(ts: seq<Token>): (r: Option<(Json, seq<Token>)>)
    ensures r.Some? ==> |r.value.1| < |ts|
    decreases |ts|, 0
  {
    if ts == [] then None
    else
      match ts[0]
      case NullToken => Some((Null, ts[1..]))
      case TrueToken => Some((Bool(true), ts[1..]))
      case FalseToken => Some((Bool(false), ts[1..]))
      case NumToken(n) => Some((Num(n), ts[1..]))
      case StrToken(s) => Some((Str(s), ts[1..]))
      case OpenBracket =>
        if |ts| > 1 && ts[1] == CloseBracket then Some((Arr([]), ts[2..]))
        else
          var r := ReadElems(ts[1..]);
          if r.Some? then Some((Arr(r.value.0), r.value.1)) else None
      case OpenBrace =>
        if |ts| > 1 && ts[1] == CloseBrace then Some((Obj([]), ts[2..]))
        else
          var r := ReadFields(ts[1..]);
          if r.Some? then Some((Obj(r.value.0), r.value.1)) else None
      case _ => None
  }

  function ReadElems(ts: seq<Token>): (r: Option<(seq<Json>, seq<Token>)>)
    ensures r.Some? ==> |r.value.1| < |ts|
    decreases |ts|, 1
  {
    var v := ReadValue(ts);
    if v.None? || v.value.1 == [] then None
    else if v.value.1[0] == CloseBracket then Some(([v.value.0], v.value.1[1..]))
    else if v.value.1[0] != Comma then None
    else
      var more := ReadElems(v.value.1[1..]);
      if more.Some? then Some(([v.value.0] + more.value.0, more.value.1)) else None
  }

  function ReadFields(ts: seq<Token>): (r: Option<(seq<Field>, seq<Token>)>)
    ensures r.Some? ==> |r.value.1| < |ts|
    decreases |ts|, 1
  {
    if |ts| < 2 || !ts[0].StrToken? || ts[1] != Colon then None
    else
      var v := ReadValue(ts[2..]);
      if v.None? || v.value.1 == [] then None
      else
        var field := Field(ts[0].s, v.value.0);
        if v.value.1[0] == CloseBrace then Some(([field], v.value.1[1..]))
        else if v.value.1[0] != Comma then None
        else
          var more := ReadFields(v.value.1[1..]);
          if more.Some? then Some(([field] + more.value.0, more.value.1)) else None
  }

  lemma TokensStart(v: Json, rest: seq<Token>)
    ensures TokensOf(v, rest) != []
    ensures var t := TokensOf(v, rest)[0]; t != CloseBracket && t != CloseBrace && t != Comma && t != Colon
  {
  }

  lemma {:induction false} ReadBackValue(v: Json, rest: seq<Token>)
    ensures ReadValue(TokensOf(v, rest)) == Some((v, rest))
    decreases v, 0
  {
    var ts := TokensOf(v, rest);
    match v {
      case Arr(elems) =>
        if elems != [] {
          assert ts[1..] == ElemsTokens(elems, rest);
          ReadBackElems(elems, rest);
          var next := if |elems| == 1 then [CloseBracket] + rest else [Comma] + ElemsTokens(elems[1..], rest);
          TokensStart(elems[0], next);
        } else {
          assert ts[2..] == rest;
        }
      case Obj(fields) =>
        if fields != [] {
          assert ts[1..] == FieldsTokens(fields, rest);
          ReadBackFields(fields, rest);
        } else {
          assert ts[2..] == rest;
        }
      case _ =>
        assert ts[1..] == rest;
    }
  }

  lemma {:induction false} ReadBackElems(elems: seq<Json>, rest: seq<Token>)
    requires elems != []
    ensures ReadElems(ElemsTokens(elems, rest)) == Some((elems, rest))
    decreases elems, 1
  {
    if |elems| == 1 {
      ReadBackValue(elems[0], [CloseBracket] + rest);
      assert ([CloseBracket] + rest)[1..] == rest;
      assert [elems[0]] == elems;
    } else {
      ReadBackValue(elems[0], [Comma] + ElemsTokens(elems[1..], rest));
      ReadBackElems(elems[1..], rest);
      assert ([Comma] + ElemsTokens(elems[1..], rest))[1..] == ElemsTokens(elems[1..], rest);
      assert [elems[0]] + elems[1..] == elems;
    }
  }

  lemma {:induction false} ReadBackFields(fields: seq<Field>, rest: seq<Token>)
    requires fields != []
    ensures ReadFields(FieldsTokens(fields, rest)) == Some((fields, rest))
    decreases fields, 1
  {
    if |fields| == 1 {
      ReadBackField(fields[0], [CloseBrace] + rest);
      assert ([CloseBrace] + rest)[1..] == rest;
      assert [fields[0]] == fields;
    } else {
      var next := [Comma] + FieldsTokens(fields[1..], rest);
      ReadBackField(fields[0], next);
      ReadBackFields(fields[1..], rest);
      assert next[1..] == FieldsTokens(fields[1..], rest);
      assert [fields[0]] + fields[1..] == fields;
    }
  }

  lemma {:induction false} ReadBackField(field: Field, next: seq<Token>)
    ensures
      var ts := [StrToken(field.name), Colon] + TokensOf(field.value, next);
      && |ts| >= 2 && ts[0] == StrToken(field.name) && ts[1] == Colon
      && ReadValue(ts[2..]) == Some((field.value, next)) && Field(field.name, field.value) == field
    decreases field, 0
  {
    var ts := [StrToken(field.name), Colon] + TokensOf(field.value, next);
    assert ts[2..] == TokensOf(field.value, next);
    ReadBackValue(field.value, next);
  }

  lemma {:induction false} TokensLexable(v: Json, rest: seq<Token>)
    requires Lexable(rest) && (rest == [] || !rest[0].NumToken?)
    ensures Lexable(TokensOf(v, rest))
    decreases v, 0
  {
    var ts := TokensOf(v, rest);
    match v {
      case Arr(elems) =>
        if elems != [] {
          assert ts[1..] == ElemsTokens(elems, rest);
          ElemsLexable(elems, rest);
        } else {
          assert ts[1..] == [CloseBracket] + rest && ts[1..][1..] == rest;
        }
      case Obj(fields) =>
        if fields != [] {
          assert ts[1..] == FieldsTokens(fields, rest);
          FieldsLexable(fields, rest);
        } else {
          assert ts[1..] == [CloseBrace] + rest && ts[1..][1..] == rest;
        }
      case _ =>
        assert ts[1..] == rest;
    }
  }

  lemma {:induction false} ElemsLexable(elems: seq<Json>, rest: seq<Token>)
    requires Lexable(rest) && elems != []
    ensures Lexable(ElemsTokens(elems, rest))
    decreases elems, 1
  {
    if |elems| == 1 {
      assert ([CloseBracket] + rest)[1..] == rest;
      TokensLexable(elems[0], [CloseBracket] + rest);
    } else {
      ElemsLexable(elems[1..], rest);
      var next := [Comma] + ElemsTokens(elems[1..], rest);
      assert next[1..] == ElemsTokens(elems[1..], rest);
      TokensLexable(elems[0], next);
    }
  }

  lemma {:induction false} FieldsLexable(fields: seq<Field>, rest: seq<Token>)
    requires Lexable(rest) && fields != []
    ensures Lexable(FieldsTokens(fields, rest))
    decreases fields, 1
  {
    var ts := FieldsTokens(fields, rest);
    var next := if |fields| == 1 then [CloseBrace] + rest else [Comma] + FieldsTokens(fields[1..], rest);
    assert next[1..] == if |fields| == 1 then rest else FieldsTokens(fields[1..], rest);
    if |fields| == 1 {
    } else {
      FieldsLexable(fields[1..], rest);
    }
    TokensLexable(fields[0].value, next);
    assert ts[1..][1..] == TokensOf(fields[0].value, next);
  }

  // ---- Marshal and Unmarshal ----

  function Marshal(v: Json): (b: seq<Byte>)
    ensures forall i :: 0 <= i < |b| ==> b[i] >= 0x20
  {
    Print(TokensOf(v, []))
  }

  /** One value and nothing after it but white space. */
  function Unmarshal(b: seq<Byte>): Option<Json> {
    var ts := Lex(b);
    if ts.None? then None
    else
      var r := ReadValue(ts.value);
      if r.Some? && r.value.1 == [] then Some(r.value.0) else None
  }

  lemma UnmarshalMarshal(v: Json)
    ensures Unmarshal(Marshal(v)) == Some(v)
  {
    TokensLexable(v, []);
    LexPrint(TokensOf(v, []));
    ReadBackValue(v, []);
  }
}
