// The JSON text a search returns, and what a reader of JSON makes of it.
module Json {
  import J = JsonText
  import opened Recall

  // ---- Escaping

  // Every occurrence of one character replaced by a string.
  function Replace(s: string, from: char, to: string): string {
    if s == "" then "" else (if s[0] == from then to else [s[0]]) + Replace(s[1..], from, to)
  }

  // Two successive whole-string replacements.
  function Escaped(content: string): string {
    Replace(Replace(content, '\\', "\\\\"), '"', "\\\"")
  }

  function EscapeOne(c: char): string {
    if c == '\\' then "\\\\" else if c == '"' then "\\\"" else [c]
  }

  function EscapeEach(s: string): string {
    if s == "" then "" else EscapeOne(s[0]) + EscapeEach(s[1..])
  }

  lemma {:induction false} ReplaceConcat(s: string, t: string, from: char, to: string)
    ensures Replace(s + t, from, to) == Replace(s, from, to) + Replace(t, from, to)
  {
    if s == "" {
      assert s + t == t;
    } else {
      assert (s + t)[1..] == s[1..] + t;
      ReplaceConcat(s[1..], t, from, to);
    }
  }

  lemma ReplaceOne(c: char)
    ensures Replace(Replace([c], '\\', "\\\\"), '"', "\\\"") == EscapeOne(c)
  {
    assert [c][1..] == "";
    var once := if c == '\\' then "\\\\" else [c];
    assert Replace([c], '\\', "\\\\") == once;
    if c == '\\' {
      assert once[1..] == "\\" && once[1..][1..] == "";
      assert Replace(once[1..], '"', "\\\"") == "\\";
    }
  }

  // The two passes do not disturb each other: together they escape each character once.
  lemma {:induction false} TwoReplaces(content: string)
    ensures Escaped(content) == EscapeEach(content)
  {
    if content != "" {
      var c, more := content[0], content[1..];
      assert content == [c] + more;
      ReplaceConcat([c], more, '\\', "\\\\");
      ReplaceConcat(Replace([c], '\\', "\\\\"), Replace(more, '\\', "\\\\"), '"', "\\\"");
      ReplaceOne(c);
      TwoReplaces(more);
    }
  }

  predicate Clean(s: string) {
    forall c :: c in s ==> !J.Control(c)
  }

  predicate Plain(s: string) {
    forall c :: c in s ==> c != '"' && c != '\\' && !J.Control(c)
  }

  lemma {:induction false} PlainUnescaped(s: string)
    requires Plain(s)
    ensures EscapeEach(s) == s
  {
    if s != "" {
      PlainUnescaped(s[1..]);
      assert s[0] in s;
      assert s == [s[0]] + s[1..];
    }
  }

  // Where the string literal that starts here ends: the first quote no backslash escapes.
  function ClosingQuote(s: string): nat
    decreases |s|
  {
    if s == "" || s[0] == '"' then 0
    else if s[0] == '\\' && |s| > 1 then 2 + ClosingQuote(s[2..])
    else 1 + ClosingQuote(s[1..])
  }

  // No content can end its own literal early: the first unescaped quote is the closing one.
  lemma {:induction false} ClosesWhereItShould(content: string, tail: string)
    ensures ClosingQuote(EscapeEach(content) + "\"" + tail) == |EscapeEach(content)|
  {
    if content != "" {
      var head, more := EscapeOne(content[0]), EscapeEach(content[1..]);
      assert (head + more + "\"" + tail)[|head|..] == more + "\"" + tail;
      ClosesWhereItShould(content[1..], tail);
    }
  }

  lemma ReadOneChar(c: char, s: string)
    requires !J.Control(c)
    ensures J.ReadChars(EscapeOne(c) + s) ==
            match J.ReadChars(s) case Bad => J.Bad case Good(more, rest) => J.Good([c] + more, rest)
  {
    var t := EscapeOne(c) + s;
    if c == '\\' || c == '"' {
      assert t[1..] == [c] + s && t[1..][1..] == s;
    } else {
      assert t[1..] == s;
    }
  }

  // A literal is read back exactly when its content holds no control character.
  lemma {:induction false} LiteralReads(content: string, tail: string)
    ensures J.ReadChars(EscapeEach(content) + "\"" + tail) ==
            if Clean(content) then J.Good(content, tail) else J.Bad
  {
    if content == "" {
      assert EscapeEach(content) + "\"" + tail == "\"" + tail;
    } else {
      var c, more := content[0], content[1..];
      var rest := EscapeEach(more) + "\"" + tail;
      assert EscapeEach(content) + "\"" + tail == EscapeOne(c) + rest;
      assert content == [c] + more;
      if J.Control(c) {
        assert (EscapeOne(c) + rest)[0] == c;
      } else {
        ReadOneChar(c, rest);
        LiteralReads(more, tail);
        assert Clean(content) <==> Clean(more);
      }
    }
  }

  // ---- Numbers

  function Decimal(n: nat): string {
    if n < 10 then [(n + '0' as int) as char] else Decimal(n / 10) + [(n % 10 + '0' as int) as char]
  }

  function DecimalValue(digits: string): int {
    if digits == "" then 0
    else DecimalValue(digits[..|digits| - 1]) * 10 + (digits[|digits| - 1] as int - '0' as int)
  }

  lemma {:induction false} DecimalReads(n: nat)
    ensures J.AllDigits(Decimal(n)) && (n > 0 ==> Decimal(n)[0] != '0')
    ensures DecimalValue(Decimal(n)) == n
  {
    if n < 10 {
      assert Decimal(n)[..0] == "";
    } else {
      DecimalReads(n / 10);
      assert Decimal(n)[..|Decimal(n)| - 1] == Decimal(n / 10);
    }
  }

  lemma {:induction false} WholeDigitRun(s: string)
    requires forall c :: c in s ==> J.IsDigit(c)
    ensures J.DigitRun(s) == |s|
  {
    if s != "" {
      WholeDigitRun(s[1..]);
    }
  }

  lemma DecimalIsNumeral(n: nat)
    ensures J.IsNumeral(Decimal(n))
  {
    DecimalReads(n);
    WholeDigitRun(Decimal(n));
    assert Decimal(n)[|Decimal(n)|..] == "";
    assert J.IsDigit(Decimal(n)[0]);
    assert n == 0 ==> |Decimal(n)| == 1;
    assert J.IsFractionExponent("");
  }

  // ---- The printed text

  // How a score is written: four decimals in the source; here any way of writing JSON numerals.
  ghost predicate WritesNumerals(decimal: real -> string) {
    forall x :: J.IsNumeral(decimal(x))
  }

  function Quoted(s: string): string {
    "\"" + s + "\""
  }

  // One object, as the format string writes it.
  function RowText(row: Row, decimal: real -> string): string {
    "{\"node_id\":\"" + row.id + "\",\"content\":\"" + Escaped(row.content) + "\",\"cell_id\":" + Decimal(row.cell)
    + ",\"cosine\":" + decimal(row.cosine) + ",\"score\":" + decimal(row.score) + "}"
  }

  // All objects after the first i, each preceded by its comma unless it is the very first.
  function RowsText(rows: seq<Row>, decimal: real -> string): string {
    if rows == [] then ""
    else RowsText(rows[..|rows| - 1], decimal) + (if |rows| > 1 then "," else "") + RowText(rows[|rows| - 1], decimal)
  }

  // What the caller receives: text with an interior NUL cannot be handed over as a C string, and
  // an empty array stands in for it.
  function Returned(rows: seq<Row>, decimal: real -> string): string {
    var out := "[" + RowsText(rows, decimal) + "]";
    if 0 as char in out then "[]" else out
  }

  lemma RowsTextGrows(rows: seq<Row>, i: nat, decimal: real -> string)
    requires i < |rows|
    ensures "[" + RowsText(rows[..i + 1], decimal) ==
            "[" + RowsText(rows[..i], decimal) + (if i > 0 then "," else "") + RowText(rows[i], decimal)
  {
    assert rows[..i + 1][..i] == rows[..i];
    Regroup("[", RowsText(rows[..i], decimal), if i > 0 then "," else "", RowText(rows[i], decimal));
  }

  lemma Regroup(a: string, b: string, c: string, d: string)
    ensures a + (b + c + d) == a + b + c + d
  {
  }

  method Print(rows: seq<Row>, decimal: real -> string) returns (out: string)
    ensures out == Returned(rows, decimal)
  {
    out := "[";
    for i := 0 to |rows|
      invariant out == "[" + RowsText(rows[..i], decimal)
    {
      RowsTextGrows(rows, i, decimal);
      if i > 0 {
        out := out + ",";
      }
      var esc := Replace(Replace(rows[i].content, '\\', "\\\\"), '"', "\\\"");
      var printed := "{\"node_id\":\"" + rows[i].id + "\",\"content\":\"" + esc + "\",\"cell_id\":"
             + Decimal(rows[i].cell)
             + ",\"cosine\":" + decimal(rows[i].cosine) + ",\"score\":" + decimal(rows[i].score) + "}";
      out := out + printed;
    }
    assert rows[..|rows|] == rows;
    out := out + "]";
    if 0 as char in out {
      out := "[]";
    }
  }

  // ---- What the text means

  function RowValue(row: Row, decimal: real -> string): J.Json {
    J.Object([("node_id", J.Str(row.id)), ("content", J.Str(row.content)), ("cell_id", J.Number(Decimal(row.cell))),
              ("cosine", J.Number(decimal(row.cosine))), ("score", J.Number(decimal(row.score)))])
  }

  function RowValues(rows: seq<Row>, decimal: real -> string): seq<J.Json> {
    if rows == [] then [] else [RowValue(rows[0], decimal)] + RowValues(rows[1..], decimal)
  }

  // The objects of all rows from the front, separated by commas: the same text as RowsText.
  function Separated(rows: seq<Row>, decimal: real -> string): string {
    if rows == [] then ""
    else RowText(rows[0], decimal) + (if |rows| > 1 then "," else "") + Separated(rows[1..], decimal)
  }

  lemma {:induction false} SeparatedSnoc(rows: seq<Row>, last: Row, decimal: real -> string)
    ensures Separated(rows + [last], decimal) ==
            Separated(rows, decimal) + (if rows == [] then "" else ",") + RowText(last, decimal)
  {
    if rows == [] {
      assert [last][1..] == [];
    } else {
      assert (rows + [last])[1..] == rows[1..] + [last];
      SeparatedSnoc(rows[1..], last, decimal);
    }
  }

  lemma {:induction false} FrontOrBack(rows: seq<Row>, decimal: real -> string)
    ensures RowsText(rows, decimal) == Separated(rows, decimal)
  {
    if rows != [] {
      FrontOrBack(rows[..|rows| - 1], decimal);
      SeparatedSnoc(rows[..|rows| - 1], rows[|rows| - 1], decimal);
      assert rows == rows[..|rows| - 1] + [rows[|rows| - 1]];
    }
  }
}
