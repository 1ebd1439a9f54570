// What a reader of JSON makes of a search's reply: every field exactly, precisely when no stored
// content holds a control character.
module JsonReading {
  import opened Json
  import J = JsonText
  import opened Recall

  // ---- Numbers

  lemma {:induction false} DigitRunDigits(s: string)
    ensures forall i :: 0 <= i < J.DigitRun(s) ==> J.IsDigit(s[i])
  {
    if s != "" && J.IsDigit(s[0]) {
      DigitRunDigits(s[1..]);
    }
  }

  lemma ExponentChars(s: string)
    requires J.IsExponent(s)
    ensures forall c :: c in s ==> J.NumeralChar(c)
  {
    if s != "" {
      var digits := if |s| > 1 && (s[1] == '+' || s[1] == '-') then s[2..] else s[1..];
      forall c | c in s ensures J.NumeralChar(c) {
        assert c in s[..|s| - |digits|] || c in digits;
      }
    }
  }

  lemma FractionChars(s: string)
    requires J.IsFractionExponent(s)
    ensures forall c :: c in s ==> J.NumeralChar(c)
  {
    if s != "" && s[0] == '.' {
      var n := J.DigitRun(s[1..]);
      DigitRunDigits(s[1..]);
      ExponentChars(s[1 + n..]);
      forall c | c in s ensures J.NumeralChar(c) {
        assert s == ['.'] + s[1..][..n] + s[1 + n..];
      }
    } else {
      ExponentChars(s);
    }
  }

  lemma NumeralChars(s: string)
    requires J.IsNumeral(s)
    ensures s != "" && (s[0] == '-' || J.IsDigit(s[0]))
    ensures forall c :: c in s ==> J.NumeralChar(c)
  {
    var u := if s[0] == '-' then s[1..] else s;
    var n := J.DigitRun(u);
    DigitRunDigits(u);
    FractionChars(u[n..]);
    forall c | c in s ensures J.NumeralChar(c) {
      assert u == u[..n] + u[n..];
      assert c in u || c == '-';
    }
  }

  lemma {:induction false} WholeRun(s: string, tail: string)
    requires forall c :: c in s ==> J.NumeralChar(c)
    requires tail != "" && !J.NumeralChar(tail[0])
    ensures J.NumeralRun(s + tail) == |s|
  {
    if s == "" {
      assert s + tail == tail;
    } else {
      assert (s + tail)[1..] == s[1..] + tail;
      WholeRun(s[1..], tail);
    }
  }

  predicate Stop(tail: string) {
    tail != "" && (tail[0] == ',' || tail[0] == '}')
  }

  lemma NumberRoute(t: string)
    requires t != "" && (t[0] == '-' || J.IsDigit(t[0]))
    ensures J.ReadValue(t) == J.ReadLiteral(t)
  {
  }

  lemma LiteralReadsNumeral(t: string, n: nat)
    requires t != "" && (t[0] == '-' || J.IsDigit(t[0]))
    requires 0 < n <= |t| && J.NumeralRun(t) == n && J.IsNumeral(t[..n])
    ensures J.ReadLiteral(t) == J.Good(J.Number(t[..n]), t[n..])
  {
    NoWord(t);
  }

  lemma NumberReads(numeral: string, tail: string)
    requires J.IsNumeral(numeral) && Stop(tail)
    ensures J.ReadValue(numeral + tail) == J.Good(J.Number(numeral), tail)
  {
    NumeralChars(numeral);
    WholeRun(numeral, tail);
    var t := numeral + tail;
    assert t[0] == numeral[0];
    assert t[..|numeral|] == numeral && t[|numeral|..] == tail;
    NumberRoute(t);
    LiteralReadsNumeral(t, |numeral|);
  }

  lemma NoWord(t: string)
    requires t != "" && (t[0] == '-' || J.IsDigit(t[0]))
    ensures !J.StartsWith(t, "true") && !J.StartsWith(t, "false") && !J.StartsWith(t, "null")
  {
    assert |t| >= 4 ==> t[..4][0] == t[0];
    assert |t| >= 5 ==> t[..5][0] == t[0];
  }

  // ---- Strings

  lemma StringReads(content: string, tail: string)
    ensures J.ReadValue(Quoted(Escaped(content)) + tail) ==
            if Clean(content) then J.Good(J.Str(content), tail) else J.Bad
  {
    TwoReplaces(content);
    LiteralReads(content, tail);
    var t := Quoted(Escaped(content)) + tail;
    assert t[1..] == EscapeEach(content) + "\"" + tail;
    assert J.SkipSpace(t) == t;
  }

  lemma PlainReads(s: string, tail: string)
    requires Plain(s)
    ensures J.ReadValue(Quoted(s) + tail) == J.Good(J.Str(s), tail)
  {
    PlainUnescaped(s);
    TwoReplaces(s);
    StringReads(s, tail);
  }

  // ---- Members

  function MemberText(name: string, value: string): string {
    "\"" + name + "\":" + value
  }

  lemma NameReads(name: string, value: string, tail: string)
    requires Plain(name)
    ensures var t := MemberText(name, value) + tail;
            t[0] == '"' && J.ReadChars(t[1..]) == J.Good(name, ":" + value + tail)
  {
    PlainUnescaped(name);
    LiteralReads(name, ":" + value + tail);
    assert (MemberText(name, value) + tail)[1..] == EscapeEach(name) + "\"" + (":" + value + tail);
  }

  lemma MemberReads(name: string, value: string, tail: string)
    requires Plain(name)
    ensures J.ReadMember(MemberText(name, value) + tail) ==
            match J.ReadValue(value + tail) case Bad => J.Bad case Good(v, rest) => J.Good((name, v), rest)
  {
    var t, after := MemberText(name, value) + tail, ":" + value + tail;
    NameReads(name, value, tail);
    assert J.SkipSpace(t) == t && J.SkipSpace(after) == after;
    assert after[1..] == value + tail;
  }

  // A member whose value reads as r, with more members behind it.
  lemma MemberThen(name: string, value: string, v: J.Json, more: string)
    requires Plain(name) && J.ReadValue(value + ("," + more)) == J.Good(v, "," + more)
    ensures J.ReadMembers(MemberText(name, value) + ("," + more)) ==
            match J.ReadMembers(more) case Bad => J.Bad case Good(ms, rest) => J.Good([(name, v)] + ms, rest)
  {
    MemberReads(name, value, "," + more);
    assert J.SkipSpace("," + more) == "," + more;
    assert ("," + more)[1..] == more;
  }

  lemma MemberFails(name: string, value: string, tail: string)
    requires Plain(name) && J.ReadValue(value + tail) == J.Bad
    ensures J.ReadMembers(MemberText(name, value) + tail) == J.Bad
  {
    MemberReads(name, value, tail);
  }

  lemma MemberLast(name: string, value: string, v: J.Json, tail: string)
    requires Plain(name) && J.ReadValue(value + ("}" + tail)) == J.Good(v, "}" + tail)
    ensures J.ReadMembers(MemberText(name, value) + ("}" + tail)) == J.Good([(name, v)], tail)
  {
    MemberReads(name, value, "}" + tail);
    assert J.SkipSpace("}" + tail) == "}" + tail;
    assert ("}" + tail)[1..] == tail;
  }

  // ---- One row

  // The members after the content, and what follows the object.
  function NumbersText(row: Row, decimal: real -> string, tail: string): string {
    MemberText("cell_id", Decimal(row.cell)) + ("," +
    (MemberText("cosine", decimal(row.cosine)) + ("," + (MemberText("score", decimal(row.score)) + ("}" + tail)))))
  }

  function NumberMembers(row: Row, decimal: real -> string): seq<(string, J.Json)> {
    [("cell_id", J.Number(Decimal(row.cell)))] +
    ([("cosine", J.Number(decimal(row.cosine)))] + [("score", J.Number(decimal(row.score)))])
  }

  function MembersText(row: Row, decimal: real -> string, tail: string): string {
    MemberText("node_id", Quoted(row.id)) + ("," +
    (MemberText("content", Quoted(Escaped(row.content))) + ("," + NumbersText(row, decimal, tail))))
  }

  lemma NumberThen(name: string, numeral: string, more: string)
    requires Plain(name) && J.IsNumeral(numeral)
    ensures J.ReadMembers(MemberText(name, numeral) + ("," + more)) ==
            match J.ReadMembers(more)
            case Bad => J.Bad
            case Good(ms, rest) => J.Good([(name, J.Number(numeral))] + ms, rest)
  {
    NumberReads(numeral, "," + more);
    MemberThen(name, numeral, J.Number(numeral), more);
  }

  lemma NumberLast(name: string, numeral: string, tail: string)
    requires Plain(name) && J.IsNumeral(numeral)
    ensures J.ReadMembers(MemberText(name, numeral) + ("}" + tail)) == J.Good([(name, J.Number(numeral))], tail)
  {
    NumberReads(numeral, "}" + tail);
    MemberLast(name, numeral, J.Number(numeral), tail);
  }

  lemma ContentThen(content: string, more: string)
    ensures J.ReadMembers(MemberText("content", Quoted(Escaped(content))) + ("," + more)) ==
            if !Clean(content) then J.Bad
            else match J.ReadMembers(more)
                 case Bad => J.Bad
                 case Good(ms, rest) => J.Good([("content", J.Str(content))] + ms, rest)
  {
    StringReads(content, "," + more);
    if Clean(content) {
      MemberThen("content", Quoted(Escaped(content)), J.Str(content), more);
    } else {
      MemberFails("content", Quoted(Escaped(content)), "," + more);
    }
  }

  lemma ThreeNumbers(a: string, x: string, b: string, y: string, c: string, z: string, tail: string)
    requires Plain(a) && Plain(b) && Plain(c)
    requires J.IsNumeral(x) && J.IsNumeral(y) && J.IsNumeral(z)
    ensures J.ReadMembers(MemberText(a, x) + ("," + (MemberText(b, y) + ("," + (MemberText(c, z) + ("}" + tail)))))) ==
            J.Good([(a, J.Number(x))] + ([(b, J.Number(y))] + [(c, J.Number(z))]), tail)
  {
    NumberLast(c, z, tail);
    var last := MemberText(c, z) + ("}" + tail);
    NumberThen(b, y, last);
    NumberThen(a, x, MemberText(b, y) + ("," + last));
  }

  lemma NumbersRead(row: Row, decimal: real -> string, tail: string)
    requires WritesNumerals(decimal)
    ensures J.ReadMembers(NumbersText(row, decimal, tail)) == J.Good(NumberMembers(row, decimal), tail)
  {
    DecimalIsNumeral(row.cell);
    ThreeNumbers("cell_id", Decimal(row.cell), "cosine", decimal(row.cosine), "score", decimal(row.score), tail);
  }

  lemma TwoStrings(id: string, content: string, more: string, ms: seq<(string, J.Json)>, rest: string)
    requires Plain(id) && J.ReadMembers(more) == J.Good(ms, rest)
    ensures J.ReadMembers(MemberText("node_id", Quoted(id)) +
                          ("," + (MemberText("content", Quoted(Escaped(content))) + ("," + more)))) ==
            if Clean(content)
            then J.Good([("node_id", J.Str(id))] + ([("content", J.Str(content))] + ms), rest)
            else J.Bad
  {
    var behind := MemberText("content", Quoted(Escaped(content))) + ("," + more);
    ContentThen(content, more);
    PlainReads(id, "," + behind);
    MemberThen("node_id", Quoted(id), J.Str(id), behind);
  }

  lemma MembersRead(row: Row, decimal: real -> string, tail: string)
    requires WritesNumerals(decimal) && Plain(row.id)
    ensures J.ReadMembers(MembersText(row, decimal, tail)) ==
            if Clean(row.content)
            then J.Good([("node_id", J.Str(row.id))] +
                        ([("content", J.Str(row.content))] + NumberMembers(row, decimal)), tail)
            else J.Bad
  {
    NumbersRead(row, decimal, tail);
    TwoStrings(row.id, row.content, NumbersText(row, decimal, tail), NumberMembers(row, decimal), tail);
  }

  // ---- The format string, cut into members

  function Label(name: string): string {
    "\"" + name + "\":"
  }

  lemma Punctuation()
    ensures "{\"node_id\":\"" == "{" + (Label("node_id") + "\"")
    ensures "\",\"content\":\"" == "\"" + ("," + (Label("content") + "\""))
    ensures "\",\"cell_id\":" == "\"" + ("," + Label("cell_id"))
    ensures ",\"cosine\":" == "," + Label("cosine")
    ensures ",\"score\":" == "," + Label("score")
  {
  }

  // Concatenation associates: eleven pieces and what follows, nested to the right.
  lemma NestRight(a: string, b: string, c: string, d: string, e: string, f: string,
                  g: string, h: string, i: string, j: string, k: string, tail: string)
    ensures (a + b + c + d + e + f + g + h + i + j + k) + tail ==
            a + (b + (c + (d + (e + (f + (g + (h + (i + (j + (k + tail))))))))))
  {
    var abcdef := a + b + c + d + e + f;
    assert (abcdef + g + h + i + j + k) + tail == abcdef + (g + (h + (i + (j + (k + tail)))));
    NestRightShort(a, b, c, d, e, f, g + (h + (i + (j + (k + tail)))));
  }

  lemma NestRightShort(a: string, b: string, c: string, d: string, e: string, f: string, tail: string)
    ensures (a + b + c + d + e + f) + tail == a + (b + (c + (d + (e + (f + tail)))))
  {
  }

  lemma GlueNumber(name: string, value: string, tail: string)
    ensures ("," + Label(name)) + (value + tail) == "," + (MemberText(name, value) + tail)
  {
  }

  lemma GlueFirst(name: string, value: string, tail: string)
    ensures ("{" + (Label(name) + "\"")) + (value + ("\"" + tail)) == "{" + (MemberText(name, Quoted(value)) + tail)
  {
  }

  lemma GlueString(name: string, value: string, tail: string)
    ensures ("\"" + ("," + (Label(name) + "\""))) + (value + ("\"" + tail)) ==
            "\"" + ("," + (MemberText(name, Quoted(value)) + tail))
  {
  }

  lemma Requote(field: string, tail: string)
    ensures ("\"" + ("," + field)) + tail == "\"" + (("," + field) + tail)
  {
  }

  lemma NumbersTextIs(row: Row, decimal: real -> string, tail: string)
    ensures "\",\"cell_id\":" + (Decimal(row.cell) + (",\"cosine\":" + (decimal(row.cosine) +
            (",\"score\":" + (decimal(row.score) + ("}" + tail)))))) ==
            "\"" + ("," + NumbersText(row, decimal, tail))
  {
    Punctuation();
    GlueNumber("score", decimal(row.score), "}" + tail);
    var score := "," + (MemberText("score", decimal(row.score)) + ("}" + tail));
    GlueNumber("cosine", decimal(row.cosine), score);
    var cosine := "," + (MemberText("cosine", decimal(row.cosine)) + score);
    Requote(Label("cell_id"), Decimal(row.cell) + cosine);
    GlueNumber("cell_id", Decimal(row.cell), cosine);
  }

  lemma RowTextMembers(row: Row, decimal: real -> string, tail: string)
    ensures RowText(row, decimal) + tail == "{" + MembersText(row, decimal, tail)
  {
    NestRight("{\"node_id\":\"", row.id, "\",\"content\":\"", Escaped(row.content), "\",\"cell_id\":",
              Decimal(row.cell), ",\"cosine\":", decimal(row.cosine), ",\"score\":", decimal(row.score), "}", tail);
    NumbersTextIs(row, decimal, tail);
    var numbers := "," + NumbersText(row, decimal, tail);
    Punctuation();
    GlueString("content", Escaped(row.content), numbers);
    GlueFirst("node_id", row.id, "," + (MemberText("content", Quoted(Escaped(row.content))) + numbers));
  }

  lemma RowReads(row: Row, decimal: real -> string, tail: string)
    requires WritesNumerals(decimal) && Plain(row.id)
    ensures J.ReadValue(RowText(row, decimal) + tail) ==
            if Clean(row.content) then J.Good(RowValue(row, decimal), tail) else J.Bad
  {
    RowTextMembers(row, decimal, tail);
    MembersRead(row, decimal, tail);
    ObjectReads(MembersText(row, decimal, tail));
    RowMembers(row, decimal);
  }

  lemma RowMembers(row: Row, decimal: real -> string)
    ensures RowValue(row, decimal) ==
            J.Object([("node_id", J.Str(row.id))] + ([("content", J.Str(row.content))] + NumberMembers(row, decimal)))
  {
  }

  lemma ObjectReads(s: string)
    requires s != "" && s[0] == '"'
    ensures J.ReadValue("{" + s) ==
            match J.ReadMembers(s) case Bad => J.Bad case Good(ms, rest) => J.Good(J.Object(ms), rest)
  {
    assert ("{" + s)[1..] == s;
    assert J.SkipSpace("{" + s) == "{" + s && J.SkipSpace(s) == s;
  }

  // ---- The whole reply

  predicate AllClean(rows: seq<Row>) {
    forall row :: row in rows ==> Clean(row.content)
  }

  predicate PlainIds(rows: seq<Row>) {
    forall row :: row in rows ==> Plain(row.id)
  }

  lemma ItemsRead(first: string, v: J.Json, more: string)
    requires J.ReadValue(first + ("," + more)) == J.Good(v, "," + more)
    ensures J.ReadItems(first + ("," + more)) ==
            match J.ReadItems(more) case Bad => J.Bad case Good(vs, rest) => J.Good([v] + vs, rest)
  {
    assert J.SkipSpace("," + more) == "," + more;
    assert ("," + more)[1..] == more;
  }

  lemma LastItemReads(last: string, v: J.Json)
    requires J.ReadValue(last + "]") == J.Good(v, "]")
    ensures J.ReadItems(last + "]") == J.Good([v], "")
  {
    assert J.SkipSpace("]") == "]" && "]"[1..] == "";
  }

  lemma CleanSplit(rows: seq<Row>)
    requires rows != []
    ensures AllClean(rows) <==> Clean(rows[0].content) && AllClean(rows[1..])
    ensures PlainIds(rows) <==> Plain(rows[0].id) && PlainIds(rows[1..])
  {
    assert rows == [rows[0]] + rows[1..];
  }

  lemma LastRowReads(row: Row, decimal: real -> string)
    requires WritesNumerals(decimal) && Plain(row.id)
    ensures J.ReadItems(RowText(row, decimal) + "]") ==
            if Clean(row.content) then J.Good([RowValue(row, decimal)], "") else J.Bad
  {
    RowReads(row, decimal, "]");
    if Clean(row.content) {
      LastItemReads(RowText(row, decimal), RowValue(row, decimal));
    }
  }

  lemma RowThen(row: Row, decimal: real -> string, more: string)
    requires WritesNumerals(decimal) && Plain(row.id)
    ensures J.ReadItems(RowText(row, decimal) + ("," + more)) ==
            if !Clean(row.content) then J.Bad
            else match J.ReadItems(more)
                 case Bad => J.Bad
                 case Good(vs, rest) => J.Good([RowValue(row, decimal)] + vs, rest)
  {
    RowReads(row, decimal, "," + more);
    if Clean(row.content) {
      ItemsRead(RowText(row, decimal), RowValue(row, decimal), more);
    }
  }

  lemma OneRow(rows: seq<Row>, decimal: real -> string)
    requires |rows| == 1
    ensures Separated(rows, decimal) == RowText(rows[0], decimal)
    ensures RowValues(rows, decimal) == [RowValue(rows[0], decimal)]
    ensures AllClean(rows[1..])
  {
    assert rows[1..] == [];
    assert RowValues(rows[1..], decimal) == [] && Separated(rows[1..], decimal) == "";
  }

  lemma CommaBetween(first: string, rest: string)
    ensures (first + "," + rest) + "]" == first + ("," + (rest + "]"))
  {
  }

  lemma MoreRows(rows: seq<Row>, decimal: real -> string)
    requires |rows| > 1
    ensures Separated(rows, decimal) + "]" == RowText(rows[0], decimal) + ("," + (Separated(rows[1..], decimal) + "]"))
    ensures RowValues(rows, decimal) == [RowValue(rows[0], decimal)] + RowValues(rows[1..], decimal)
  {
    CommaBetween(RowText(rows[0], decimal), Separated(rows[1..], decimal));
  }

  lemma {:induction false} RowsRead(rows: seq<Row>, decimal: real -> string)
    requires WritesNumerals(decimal) && PlainIds(rows) && rows != []
    ensures J.ReadItems(Separated(rows, decimal) + "]") ==
            if AllClean(rows) then J.Good(RowValues(rows, decimal), "") else J.Bad
  {
    CleanSplit(rows);
    if |rows| == 1 {
      OneRow(rows, decimal);
      LastRowReads(rows[0], decimal);
    } else {
      MoreRows(rows, decimal);
      RowsRead(rows[1..], decimal);
      RowThen(rows[0], decimal, Separated(rows[1..], decimal) + "]");
    }
  }

  lemma ArrayReads(s: string)
    requires s != "" && s[0] == '{'
    ensures J.ReadValue("[" + s) ==
            match J.ReadItems(s) case Bad => J.Bad case Good(vs, rest) => J.Good(J.Array(vs), rest)
  {
    assert ("[" + s)[1..] == s;
    assert J.SkipSpace("[" + s) == "[" + s && J.SkipSpace(s) == s;
  }

  lemma EmptyReads()
    ensures J.Decode("[]") == J.Document(J.Array([]))
  {
    var s := "[]";
    assert s[1..] == "]" && s[1..][1..] == "";
    assert J.SkipSpace(s) == s && J.SkipSpace("]") == "]" && J.SkipSpace("") == "";
  }

  lemma StartsWithBrace(rows: seq<Row>, decimal: real -> string)
    requires rows != []
    ensures Separated(rows, decimal) != "" && Separated(rows, decimal)[0] == '{'
  {
    RowTextMembers(rows[0], decimal, "");
    assert RowText(rows[0], decimal) + "" == RowText(rows[0], decimal);
  }

  // The text before it becomes a C string.
  lemma TextReads(rows: seq<Row>, decimal: real -> string)
    requires WritesNumerals(decimal) && PlainIds(rows)
    ensures J.Decode("[" + RowsText(rows, decimal) + "]") ==
            if AllClean(rows) then J.Document(J.Array(RowValues(rows, decimal))) else J.NotJson
  {
    FrontOrBack(rows, decimal);
    var text := Separated(rows, decimal) + "]";
    assert "[" + RowsText(rows, decimal) + "]" == "[" + text;
    if rows == [] {
      assert "[" + text == "[]";
      EmptyReads();
    } else {
      StartsWithBrace(rows, decimal);
      ArrayReads(text);
      RowsRead(rows, decimal);
      assert J.SkipSpace("") == "";
    }
  }

  // ---- Interior NULs

  const NUL: char := 0 as char

  lemma {:induction false} EscapeKeepsNul(s: string)
    ensures NUL in EscapeEach(s) <==> NUL in s
  {
    if s != "" {
      EscapeKeepsNul(s[1..]);
      assert s == [s[0]] + s[1..];
    }
  }

  lemma NumeralHasNoNul(s: string)
    requires J.IsNumeral(s)
    ensures NUL !in s
  {
    NumeralChars(s);
  }

  lemma OnlyThere(x: char, a: string, b: string, c: string, d: string, e: string, f: string,
                  g: string, h: string, i: string, j: string, k: string)
    requires x !in a && x !in b && x !in c && x !in e && x !in f && x !in g && x !in h && x !in i && x !in j && x !in k
    ensures x in a + b + c + d + e + f + g + h + i + j + k <==> x in d
  {
    assert x in a + b + c + d <==> x in d;
    assert x !in e + f + g + h + i + j + k;
    assert a + b + c + d + e + f + g + h + i + j + k == (a + b + c + d) + (e + f + g + h + i + j + k);
  }

  lemma RowNul(row: Row, decimal: real -> string)
    requires WritesNumerals(decimal) && Plain(row.id)
    ensures NUL in RowText(row, decimal) <==> NUL in row.content
  {
    TwoReplaces(row.content);
    EscapeKeepsNul(row.content);
    DecimalIsNumeral(row.cell);
    NumeralHasNoNul(Decimal(row.cell));
    NumeralHasNoNul(decimal(row.cosine));
    NumeralHasNoNul(decimal(row.score));
    OnlyThere(NUL, "{\"node_id\":\"", row.id, "\",\"content\":\"", Escaped(row.content), "\",\"cell_id\":",
              Decimal(row.cell), ",\"cosine\":", decimal(row.cosine), ",\"score\":", decimal(row.score), "}");
  }

  predicate HasNul(rows: seq<Row>) {
    exists row :: row in rows && NUL in row.content
  }

  lemma {:induction false} RowsNul(rows: seq<Row>, decimal: real -> string)
    requires WritesNumerals(decimal) && PlainIds(rows)
    ensures NUL in RowsText(rows, decimal) <==> HasNul(rows)
  {
    if rows != [] {
      var front, last := rows[..|rows| - 1], rows[|rows| - 1];
      assert rows == front + [last];
      RowsNul(front, decimal);
      RowNul(last, decimal);
    }
  }

  // What a JSON reader makes of the reply to a search, in every case.
  lemma ReplyReads(rows: seq<Row>, decimal: real -> string)
    requires WritesNumerals(decimal) && PlainIds(rows)
    ensures J.Decode(Returned(rows, decimal)) ==
            if HasNul(rows) then J.Document(J.Array([]))
            else if AllClean(rows) then J.Document(J.Array(RowValues(rows, decimal)))
            else J.NotJson
  {
    RowsNul(rows, decimal);
    TextReads(rows, decimal);
    EmptyReads();
  }

  // The reply says exactly what was found if and only if no content holds a character below U+0020.
  lemma ReplyFaithful(rows: seq<Row>, decimal: real -> string)
    requires WritesNumerals(decimal) && PlainIds(rows)
    ensures J.Decode(Returned(rows, decimal)) == J.Document(J.Array(RowValues(rows, decimal))) <==> AllClean(rows)
  {
    ReplyReads(rows, decimal);
    if HasNul(rows) {
      var row :| row in rows && NUL in row.content;
      assert J.Control(NUL) && !Clean(row.content);
      assert RowValues(rows, decimal) != [];
    }
  }
}
