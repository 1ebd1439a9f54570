// Reading JSON: the grammar of RFC 8259, written without reference to the engine's printer.
module JsonText {
  datatype Json =
    | Null
    | Bool(value: bool)
    | Number(numeral: string)
    | Str(text: string)
    | Array(items: seq<Json>)
    | Object(members: seq<(string, Json)>)

  datatype Read<T> = Bad | Good(value: T, rest: string)

  datatype Decoded = NotJson | Document(value: Json)

  // ---- Strings (section 7)

  // Characters section 7 does not allow unescaped, other than quote and backslash.
  predicate Control(c: char) {
    c as int < 0x20
  }

  function HexValue(c: char): (v: int)
    ensures -1 <= v < 16
  {
    if '0' <= c <= '9' then c as int - '0' as int
    else if 'a' <= c <= 'f' then c as int - 'a' as int + 10
    else if 'A' <= c <= 'F' then c as int - 'A' as int + 10
    else -1
  }

  // The number written by the four hexadecimal digits that s starts with, or -1.
  function FourHex(s: string): (v: int)
    ensures -1 <= v < 0x10000
    ensures v >= 0 ==> |s| >= 4
  {
    if |s| < 4 || HexValue(s[0]) < 0 || HexValue(s[1]) < 0 || HexValue(s[2]) < 0 || HexValue(s[3]) < 0 then -1
    else HexValue(s[0]) * 0x1000 + HexValue(s[1]) * 0x100 + HexValue(s[2]) * 0x10 + HexValue(s[3])
  }

  // What follows `\u`: one code unit, or a surrogate pair. A lone surrogate is no character.
  function ReadCodePoint(s: string): (r: Read<char>)
    ensures r.Good? ==> |r.rest| < |s|
  {
    var high := FourHex(s);
    if high < 0 then Bad
    else if high < 0xD800 || 0xE000 <= high then Good(high as char, s[4..])
    else
      var low := if |s| >= 6 && s[4] == '\\' && s[5] == 'u' then FourHex(s[6..]) else -1;
      if 0xD800 <= high < 0xDC00 && 0xDC00 <= low < 0xE000
      then Good((0x10000 + (high - 0xD800) * 0x400 + (low - 0xDC00)) as char, s[10..])
      else Bad
  }

  // What follows a backslash.
  function ReadEscape(s: string): (r: Read<char>)
    ensures r.Good? ==> |r.rest| < |s|
  {
    if s == "" then Bad
    else if s[0] == '"' || s[0] == '\\' || s[0] == '/' then Good(s[0], s[1..])
    else if s[0] == 'b' then Good(8 as char, s[1..])
    else if s[0] == 'f' then Good(12 as char, s[1..])
    else if s[0] == 'n' then Good('\n', s[1..])
    else if s[0] == 'r' then Good('\r', s[1..])
    else if s[0] == 't' then Good('\t', s[1..])
    else if s[0] == 'u' then ReadCodePoint(s[1..])
    else Bad
  }

  // What follows an opening quote, up to and including the closing one.
  function ReadChars(s: string): (r: Read<string>)
    ensures r.Good? ==> |r.rest| < |s|
    decreases |s|
  {
    if s == "" then Bad
    else if s[0] == '"' then Good("", s[1..])
    else if s[0] == '\\' then
      match ReadEscape(s[1..])
      case Bad => Bad
      case Good(c, rest) =>
        match ReadChars(rest)
        case Bad => Bad
        case Good(more, rest') => Good([c] + more, rest')
    else if Control(s[0]) then Bad
    else
      match ReadChars(s[1..])
      case Bad => Bad
      case Good(more, rest) => Good([s[0]] + more, rest)
  }

  // ---- Numbers (section 6)

  predicate IsDigit(c: char) {
    '0' <= c <= '9'
  }

  predicate AllDigits(s: string) {
    s != "" && forall c :: c in s ==> IsDigit(c)
  }

  // The longest prefix of digits.
  function DigitRun(s: string): (n: nat)
    ensures n <= |s|
  {
    if s != "" && IsDigit(s[0]) then 1 + DigitRun(s[1..]) else 0
  }

  predicate IsExponent(s: string) {
    s == "" || ((s[0] == 'e' || s[0] == 'E') &&
                AllDigits(if |s| > 1 && (s[1] == '+' || s[1] == '-') then s[2..] else s[1..]))
  }

  predicate IsFractionExponent(s: string) {
    if s != "" && s[0] == '.'
    then DigitRun(s[1..]) > 0 && IsExponent(s[1 + DigitRun(s[1..])..])
    else IsExponent(s)
  }

  predicate IsNumeral(s: string) {
    var u := if s != "" && s[0] == '-' then s[1..] else s;
    && DigitRun(u) > 0
    && (u[0] == '0' ==> DigitRun(u) == 1)
    && IsFractionExponent(u[DigitRun(u)..])
  }

  predicate NumeralChar(c: char) {
    IsDigit(c) || c == '-' || c == '+' || c == '.' || c == 'e' || c == 'E'
  }

  function NumeralRun(s: string): (n: nat)
    ensures n <= |s|
  {
    if s != "" && NumeralChar(s[0]) then 1 + NumeralRun(s[1..]) else 0
  }

  // ---- Values (sections 2 to 5)

  function SkipSpace(s: string): (t: string)
    ensures |t| <= |s|
  {
    if s != "" && (s[0] == ' ' || s[0] == '\t' || s[0] == '\n' || s[0] == '\r') then SkipSpace(s[1..]) else s
  }

  predicate StartsWith(s: string, word: string) {
    |word| <= |s| && s[..|word|] == word
  }

  function ReadLiteral(s: string): (r: Read<Json>)
    ensures r.Good? ==> |r.rest| < |s|
  {
    if StartsWith(s, "true") then Good(Bool(true), s[4..])
    else if StartsWith(s, "false") then Good(Bool(false), s[5..])
    else if StartsWith(s, "null") then Good(Null, s[4..])
    else
      var n := NumeralRun(s);
      if n > 0 && IsNumeral(s[..n]) then Good(Number(s[..n]), s[n..]) else Bad
  }

  function ReadValue(s: string): (r: Read<Json>)
    ensures r.Good? ==> |r.rest| < |s|
    decreases |s|, 0
  {
    var t := SkipSpace(s);
    if t == "" then Bad
    else if t[0] == '"' then
      match ReadChars(t[1..])
      case Bad => Bad
      case Good(text, rest) => Good(Str(text), rest)
    else if t[0] == '[' then ReadArray(t[1..])
    else if t[0] == '{' then ReadObject(t[1..])
    else ReadLiteral(t)
  }

  // What follows `[`.
  function ReadArray(s: string): (r: Read<Json>)
    ensures r.Good? ==> |r.rest| <= |s|
    decreases |s|, 2
  {
    var t := SkipSpace(s);
    if t != "" && t[0] == ']' then Good(Array([]), t[1..])
    else
      match ReadItems(s)
      case Bad => Bad
      case Good(items, rest) => Good(Array(items), rest)
  }

  function ReadItems(s: string): (r: Read<seq<Json>>)
    ensures r.Good? ==> |r.rest| <= |s|
    decreases |s|, 1
  {
    match ReadValue(s)
    case Bad => Bad
    case Good(item, rest) =>
      var t := SkipSpace(rest);
      if t != "" && t[0] == ']' then Good([item], t[1..])
      else if t != "" && t[0] == ',' then
        match ReadItems(t[1..])
        case Bad => Bad
        case Good(more, rest') => Good([item] + more, rest')
      else Bad
  }

  // What follows `{`.
  function ReadObject(s: string): (r: Read<Json>)
    ensures r.Good? ==> |r.rest| <= |s|
    decreases |s|, 3
  {
    var t := SkipSpace(s);
    if t != "" && t[0] == '}' then Good(Object([]), t[1..])
    else
      match ReadMembers(s)
      case Bad => Bad
      case Good(members, rest) => Good(Object(members), rest)
  }

  function ReadMembers(s: string): (r: Read<seq<(string, Json)>>)
    ensures r.Good? ==> |r.rest| <= |s|
    decreases |s|, 2
  {
    match ReadMember(s)
    case Bad => Bad
    case Good(member, rest) =>
      var t := SkipSpace(rest);
      if t != "" && t[0] == '}' then Good([member], t[1..])
      else if t != "" && t[0] == ',' then
        match ReadMembers(t[1..])
        case Bad => Bad
        case Good(more, rest') => Good([member] + more, rest')
      else Bad
  }

  function ReadMember(s: string): (r: Read<(string, Json)>)
    ensures r.Good? ==> |r.rest| < |s|
    decreases |s|, 1
  {
    var t := SkipSpace(s);
    if t == "" || t[0] != '"' then Bad
    else
      match ReadChars(t[1..])
      case Bad => Bad
      case Good(name, rest) =>
        var u := SkipSpace(rest);
        if u == "" || u[0] != ':' then Bad
        else
          match ReadValue(u[1..])
          case Bad => Bad
          case Good(v, rest') => Good((name, v), rest')
  }

  function Decode(s: string): Decoded {
    match ReadValue(s)
    case Bad => NotJson
    case Good(v, rest) => if SkipSpace(rest) == "" then Document(v) else NotJson
  }
}
