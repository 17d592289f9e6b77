/** The row encoding of tool results and its token budget (mcp/formatting.py). */
module Toon {
  import opened Text
  import opened Wrappers

  /** `str.isspace` for one character. */
  predicate IsPySpace(c: char) { IsSpace(c) || 0x1c <= c as int <= 0x1f }

  const SPECIAL := ",\"\n:[]{}"

  predicate NeedsQuote(s: string) {
    s == "" || IsPySpace(s[0]) || IsPySpace(s[|s| - 1]) || exists i :: 0 <= i < |s| && s[i] in SPECIAL
  }

  /** `s.replace(c, sub)` for a one-character pattern. */
  function Replace(s: string, c: char, sub: string): string {
    if s == "" then "" else (if s[0] == c then sub else [s[0]]) + Replace(s[1..], c, sub)
  }

  function Escaped(s: string): string {
    Replace(Replace(Replace(s, '\\', "\\\\"), '"', "\\\""), '\n', "\\n")
  }

  predicate IsNumeral(t: string) { t != "" && forall i :: 0 <= i < |t| ==> t[i] in "0123456789+-.einfa" }

  /** What `str` gives for an int or a float. */
  type Numeral = t: string | IsNumeral(t) witness "0"

  datatype Value = Null | Bool(b: bool) | Num(text: Numeral) | Str(s: string)

  function Scalar(v: Value): string {
    match v
    case Null => "null"
    case Bool(b) => if b then "true" else "false"
    case Num(text) => text
    case Str(s) => if NeedsQuote(s) then "\"" + Escaped(s) + "\"" else s
  }

  function Scalars(row: seq<Value>): seq<string> {
    seq(|row|, i requires 0 <= i < |row| => Scalar(row[i]))
  }

  function Row(row: seq<Value>): string { Join(Scalars(row), ",") }

  // ------------------------------------------------------------------ a decoder

  /** Read a quoted cell after its opening quote: its text, and what follows the closing quote. */
  function Unquote(s: string): Option<(string, string)> {
    if s == "" then None
    else if s[0] == '"' then Some(("", s[1..]))
    else if s[0] == '\\' && (|s| < 2 || s[1] !in "\\\"n") then None
    else
      var width := if s[0] == '\\' then 2 else 1;
      var c := if s[0] != '\\' then s[0] else if s[1] == 'n' then '\n' else s[1];
      match Unquote(s[width..])
      case None => None
      case Some((cell, rest)) => Some(([c] + cell, rest))
  }

  function FindComma(s: string): (i: int)
    ensures -1 <= i < |s|
    ensures i >= 0 ==> s[i] == ',' && ',' !in s[..i]
    ensures i < 0 ==> ',' !in s
  {
    if s == "" then -1
    else if s[0] == ',' then 0
    else var i := FindComma(s[1..]); if i < 0 then -1 else i + 1
  }

  function DecodeCells(s: string): Option<seq<string>>
    decreases |s|
  {
    if StartsWith(s, "\"") then
      match Unquote(s[1..])
      case None => None
      case Some((cell, rest)) =>
        if rest == "" then Some([cell])
        else if rest[0] != ',' || |rest| >= |s| then None
        else (match DecodeCells(rest[1..]) case None => None case Some(cells) => Some([cell] + cells))
    else
      var i := FindComma(s);
      if i < 0 then Some([s])
      else (match DecodeCells(s[i + 1..]) case None => None case Some(cells) => Some([s[..i]] + cells))
  }

  function DecodeRow(row: string): Option<seq<string>> { if row == "" then Some([]) else DecodeCells(row) }

  // ------------------------------------------------------------------ escaping

  function EscapeChar(c: char): string {
    if c == '\\' then "\\\\" else if c == '"' then "\\\"" else if c == '\n' then "\\n" else [c]
  }

  function EscapeEach(s: string): string {
    if s == "" then "" else EscapeChar(s[0]) + EscapeEach(s[1..])
  }

  lemma {:induction false} ReplaceAppend(a: string, b: string, c: char, sub: string)
    ensures Replace(a + b, c, sub) == Replace(a, c, sub) + Replace(b, c, sub)
  {
    if a == "" {
      assert a + b == b;
    } else {
      assert (a + b)[1..] == a[1..] + b;
      ReplaceAppend(a[1..], b, c, sub);
    }
  }

  lemma ReplaceShort(c: char, sub: string, x: char, y: char)
    ensures Replace([x], c, sub) == if x == c then sub else [x]
    ensures Replace([x, y], c, sub) == (if x == c then sub else [x]) + (if y == c then sub else [y])
  {
    assert [x][1..] == "" && [x, y][1..] == [y] && [y][1..] == "";
    assert Replace([x], c, sub) == (if x == c then sub else [x]) + "";
    assert Replace([y], c, sub) == (if y == c then sub else [y]) + "";
  }

  lemma EscapedChar(x: char)
    ensures Escaped([x]) == EscapeChar(x)
  {
    ReplaceShort('\\', "\\\\", x, x);
    ReplaceShort('"', "\\\"", x, x);
    ReplaceShort('"', "\\\"", '\\', '\\');
    ReplaceShort('\n', "\\n", x, x);
    ReplaceShort('\n', "\\n", '\\', '\\');
    ReplaceShort('\n', "\\n", '\\', '"');
    assert "\\\\" == ['\\', '\\'] && "\\\"" == ['\\', '"'];
  }

  /** The three replacements, one after the other, escape each character once. */
  lemma {:induction false} EscapedIsPerCharacter(s: string)
    ensures Escaped(s) == EscapeEach(s)
  {
    if s == "" {
    } else {
      var a, b := [s[0]], s[1..];
      assert s == a + b;
      ReplaceAppend(a, b, '\\', "\\\\");
      var a1, b1 := Replace(a, '\\', "\\\\"), Replace(b, '\\', "\\\\");
      ReplaceAppend(a1, b1, '"', "\\\"");
      ReplaceAppend(Replace(a1, '"', "\\\""), Replace(b1, '"', "\\\""), '\n', "\\n");
      EscapedChar(s[0]);
      EscapedIsPerCharacter(b);
    }
  }

  lemma UnquoteChar(c: char, tail: string, cell: string, rest: string)
    requires Unquote(tail) == Some((cell, rest))
    ensures Unquote(EscapeChar(c) + tail) == Some(([c] + cell, rest))
  {
    var whole := EscapeChar(c) + tail;
    assert whole[|EscapeChar(c)|..] == tail;
  }

  lemma {:induction false} UnquoteEscaped(s: string, rest: string)
    ensures Unquote(EscapeEach(s) + "\"" + rest) == Some((s, rest))
  {
    if s == "" {
      assert EscapeEach(s) + "\"" + rest == "\"" + rest;
      assert ("\"" + rest)[1..] == rest;
    } else {
      var tail := EscapeEach(s[1..]) + "\"" + rest;
      assert EscapeEach(s) + "\"" + rest == EscapeChar(s[0]) + tail;
      UnquoteEscaped(s[1..], rest);
      UnquoteChar(s[0], tail, s[1..], rest);
      assert [s[0]] + s[1..] == s;
    }
  }

  lemma {:induction false} EscapeFree(s: string)
    ensures '\n' !in EscapeEach(s)
  {
    if s == "" {
    } else {
      EscapeFree(s[1..]);
    }
  }

  // ------------------------------------------------------------------ rows are uniquely decodable

  function Strings(cells: seq<string>): seq<Value> {
    seq(|cells|, i requires 0 <= i < |cells| => Str(cells[i]))
  }

  /** What decoding gives when the first cell has been read and `after` is left. */
  function FirstThen(cell: string, after: string): Option<seq<string>>
    decreases |after|
  {
    if after == "" then Some([cell])
    else match DecodeCells(after[1..]) case None => None case Some(cells) => Some([cell] + cells)
  }

  lemma QuotedCell(s: string, cell: string, after: string)
    requires StartsWith(s, "\"") && Unquote(s[1..]) == Some((cell, after)) && |after| < |s|
    requires after == "" || after[0] == ','
    ensures DecodeCells(s) == FirstThen(cell, after)
  {}

  lemma QuotedText(escaped: string, after: string)
    ensures var s := "\"" + escaped + "\"" + after;
            StartsWith(s, "\"") && s[1..] == escaped + "\"" + after && |after| < |s|
  {}

  lemma DecodeQuoted(cell: string, after: string)
    requires after == "" || after[0] == ','
    ensures DecodeCells("\"" + EscapeEach(cell) + "\"" + after) == FirstThen(cell, after)
  {
    UnquoteEscaped(cell, after);
    QuotedText(EscapeEach(cell), after);
    QuotedCell("\"" + EscapeEach(cell) + "\"" + after, cell, after);
  }

  lemma {:induction false} CommaAfter(cell: string, after: string)
    requires ',' !in cell && (after == "" || after[0] == ',')
    ensures FindComma(cell + after) == if after == "" then -1 else |cell|
  {
    if cell == "" {
      assert cell + after == after;
    } else {
      assert (cell + after)[1..] == cell[1..] + after;
      CommaAfter(cell[1..], after);
    }
  }

  lemma PlainCell(s: string, cell: string, after: string)
    requires cell != "" && cell[0] != '"' && ',' !in cell && s == cell + after
    requires after == "" || after[0] == ','
    ensures DecodeCells(s) == FirstThen(cell, after)
  {
    CommaAfter(cell, after);
    assert s[0] == cell[0];
    assert !StartsWith(s, "\"");
    if after == "" {
      assert s == cell;
    } else {
      assert s[..|cell|] == cell && s[|cell| + 1..] == after[1..];
    }
  }

  lemma DecodePlain(cell: string, after: string)
    requires !NeedsQuote(cell) && (after == "" || after[0] == ',')
    ensures DecodeCells(cell + after) == FirstThen(cell, after)
  {
    assert cell[0] !in SPECIAL;
    assert '"' == SPECIAL[1] && ',' == SPECIAL[0];
    PlainCell(cell + after, cell, after);
  }

  /** A cell followed by the end, or by a comma and more cells, reads back as itself. */
  lemma DecodeFirst(cell: string, after: string)
    requires after == "" || after[0] == ','
    ensures DecodeCells(Scalar(Str(cell)) + after) == FirstThen(cell, after)
  {
    if NeedsQuote(cell) {
      EscapedIsPerCharacter(cell);
      DecodeQuoted(cell, after);
    } else {
      DecodePlain(cell, after);
    }
  }

  lemma RowCons(cells: seq<string>)
    requires cells != []
    ensures Row(Strings(cells)) ==
              Scalar(Str(cells[0])) + (if |cells| == 1 then "" else "," + Row(Strings(cells[1..])))
  {
    assert Scalars(Strings(cells))[1..] == Scalars(Strings(cells[1..]));
    var first, others := Scalar(Str(cells[0])), Row(Strings(cells[1..]));
    assert first + "," + others == first + ("," + others);
  }

  lemma FirstThenSome(cell: string, after: string, cells: seq<string>)
    requires after != "" && DecodeCells(after[1..]) == Some(cells)
    ensures FirstThen(cell, after) == Some([cell] + cells)
  {}

  lemma DecodeMore(cell: string, others: string, cells: seq<string>)
    requires DecodeCells(others) == Some(cells)
    ensures DecodeCells(Scalar(Str(cell)) + ("," + others)) == Some([cell] + cells)
  {
    var after := "," + others;
    assert after[1..] == others;
    DecodeFirst(cell, after);
    FirstThenSome(cell, after, cells);
  }

  lemma DecodeOne(cells: seq<string>)
    requires |cells| == 1
    ensures DecodeCells(Row(Strings(cells))) == Some(cells)
  {
    RowCons(cells);
    DecodeFirst(cells[0], "");
    assert cells == [cells[0]];
  }

  lemma {:induction false} DecodeAll(cells: seq<string>)
    requires cells != []
    ensures DecodeCells(Row(Strings(cells))) == Some(cells)
  {
    if |cells| == 1 {
      DecodeOne(cells);
    } else {
      var rest := cells[1..];
      DecodeAll(rest);
      DecodeMore(cells[0], Row(Strings(rest)), rest);
      RowCons(cells);
      assert [cells[0]] + rest == cells;
    }
  }

  lemma RowNotEmpty(cells: seq<string>)
    requires cells != []
    ensures Row(Strings(cells)) != ""
  {
    RowCons(cells);
  }

  lemma UnquotedIsOneLine(s: string)
    requires !NeedsQuote(s)
    ensures '\n' !in s
  {
    assert '\n' in SPECIAL;
  }

  lemma QuotedIsOneLine(s: string)
    ensures '\n' !in "\"" + Escaped(s) + "\""
  {
    EscapedIsPerCharacter(s);
    EscapeFree(s);
  }

  lemma NumeralIsOneLine(text: Numeral)
    ensures '\n' !in text
  {}

  lemma OtherScalarIsOneLine(v: Value)
    requires !v.Str?
    ensures '\n' !in Scalar(v)
  {
    if v.Num? {
      NumeralIsOneLine(v.text);
    } else {
      assert '\n' !in "null" && '\n' !in "true" && '\n' !in "false";
    }
  }

  lemma ScalarIsOneLine(v: Value)
    ensures '\n' !in Scalar(v)
  {
    if !v.Str? {
      OtherScalarIsOneLine(v);
    } else {
      QuotedIsOneLine(v.s);
      if !NeedsQuote(v.s) {
        UnquotedIsOneLine(v.s);
      }
    }
  }

  lemma RowIsOneLine(row: seq<Value>)
    ensures '\n' !in Row(row)
  {
    forall i | 0 <= i < |row| ensures '\n' !in Scalars(row)[i] {
      ScalarIsOneLine(row[i]);
    }
    JoinFree(Scalars(row), ",", '\n');
  }

  /** A decoder recovers every list of string cells from its row, and the row is one line. */
  lemma RowRoundTrip(cells: seq<string>)
    ensures DecodeRow(Row(Strings(cells))) == Some(cells)
    ensures '\n' !in Row(Strings(cells))
  {
    if cells != [] {
      DecodeAll(cells);
      RowNotEmpty(cells);
    }
    RowIsOneLine(Strings(cells));
  }

  /** The text a value is printed as, if strings were not quoted. */
  function TextOf(v: Value): string {
    match v
    case Null => "null"
    case Bool(b) => if b then "true" else "false"
    case Num(text) => text
    case Str(s) => s
  }

  function TextsOf(row: seq<Value>): seq<string> {
    seq(|row|, i requires 0 <= i < |row| => TextOf(row[i]))
  }

  lemma PlainChar(c: char)
    requires c in "0123456789+-.einfa"
    ensures c !in SPECIAL && !IsPySpace(c)
  {
    assert c in SPECIAL ==> c in {',', '"', '\n', ':', '[', ']', '{', '}'};
  }

  lemma NumeralNeedsNoQuote(t: Numeral)
    ensures !NeedsQuote(t)
  {
    forall i | 0 <= i < |t| ensures t[i] !in SPECIAL && !IsPySpace(t[i]) {
      PlainChar(t[i]);
    }
  }

  lemma ConstantsNeedNoQuote()
    ensures !NeedsQuote("null") && !NeedsQuote("true") && !NeedsQuote("false")
  {}

  lemma ScalarOfText(v: Value)
    ensures Scalar(v) == Scalar(Str(TextOf(v)))
  {
    if v.Num? {
      NumeralNeedsNoQuote(v.text);
    } else if !v.Str? {
      ConstantsNeedNoQuote();
    }
  }

  lemma RowOfTexts(row: seq<Value>)
    ensures Row(row) == Row(Strings(TextsOf(row)))
  {
    forall i | 0 <= i < |row| ensures Scalars(row)[i] == Scalars(Strings(TextsOf(row)))[i] {
      ScalarOfText(row[i]);
    }
    assert Scalars(row) == Scalars(Strings(TextsOf(row)));
  }

  /** Exactly what a row does not tell apart: values printed with the same text, such as null and
      the string "null", or 1 and the string "1". */
  lemma RowsAgreeIffTextsAgree(a: seq<Value>, b: seq<Value>)
    ensures Row(a) == Row(b) <==> TextsOf(a) == TextsOf(b)
  {
    RowOfTexts(a);
    RowOfTexts(b);
    RowRoundTrip(TextsOf(a));
    RowRoundTrip(TextsOf(b));
  }

  // ------------------------------------------------------------------ tables

  function Pad(indent: nat): (pad: string)
    ensures '\n' !in pad
  {
    if indent == 0 then "" else "  " + Pad(indent - 1)
  }

  /** Two spaces a level. */
  lemma {:induction false} PadIsTwoALevel(indent: nat)
    ensures |Pad(indent)| == 2 * indent && forall i :: 0 <= i < 2 * indent ==> Pad(indent)[i] == ' '
  {
    if indent == 0 {
    } else {
      PadIsTwoALevel(indent - 1);
    }
  }

  /** The line above a table: its key, if it stands under one, the number of rows, the field names. */
  function Header(indent: nat, key: string, fields: seq<string>, n: nat): string {
    Pad(indent) + key + "[" + Dec(n) + "]{" + Join(fields, ",") + "}:"
  }

  function RowLine(indent: nat, row: seq<Value>): string { Pad(indent) + "  " + Row(row) }

  function RowLines(indent: nat, rows: seq<seq<Value>>): seq<string> {
    seq(|rows|, i requires 0 <= i < |rows| => RowLine(indent, rows[i]))
  }

  /** The uniform-row branch of the encoder: a header line, then one line per record. */
  method EncodeTable(indent: nat, key: string, fields: seq<string>, rows: seq<seq<Value>>) returns (text: string)
    ensures text == Join([Header(indent, key, fields, |rows|)] + RowLines(indent, rows), "\n")
  {
    var pad := Pad(indent);
    var lines := [pad + key + "[" + Dec(|rows|) + "]{" + Join(fields, ",") + "}:"];
    for i := 0 to |rows|
      invariant lines == [Header(indent, key, fields, |rows|)] + RowLines(indent, rows[..i])
    {
      lines := lines + [pad + "  " + Row(rows[i])];
    }
    assert rows[..|rows|] == rows;
    text := Join(lines, "\n");
  }

  function DecodeLines(lines: seq<string>, drop: nat): (r: Option<seq<seq<string>>>)
    ensures r.Some? ==> |r.value| == |lines|
  {
    if lines == [] then Some([])
    else if |lines[0]| < drop then None
    else
      match DecodeRow(lines[0][drop..])
      case None => None
      case Some(cells) =>
        match DecodeLines(lines[1..], drop) case None => None case Some(rows) => Some([cells] + rows)
  }

  /** Read a table back: split into lines, drop the header and the padding, decode each row. */
  function DecodeTable(text: string, indent: nat): Option<seq<seq<string>>> {
    DecodeLines(Split(text, '\n')[1..], |Pad(indent)| + 2)
  }

  function AllTexts(rows: seq<seq<Value>>): seq<seq<string>> {
    seq(|rows|, i requires 0 <= i < |rows| => TextsOf(rows[i]))
  }

  lemma LineDecodes(indent: nat, row: seq<Value>)
    ensures var line := RowLine(indent, row); var drop := |Pad(indent)| + 2;
            '\n' !in line && drop <= |line| && DecodeRow(line[drop..]) == Some(TextsOf(row))
  {
    RowOfTexts(row);
    RowRoundTrip(TextsOf(row));
    assert RowLine(indent, row)[|Pad(indent)| + 2..] == Row(row);
  }

  lemma DecodeCons(line: string, lines: seq<string>, drop: nat, cells: seq<string>, rows: seq<seq<string>>)
    requires |line| >= drop && DecodeRow(line[drop..]) == Some(cells) && DecodeLines(lines, drop) == Some(rows)
    ensures DecodeLines([line] + lines, drop) == Some([cells] + rows)
  {
    assert ([line] + lines)[1..] == lines;
  }

  lemma TableCons(indent: nat, rows: seq<seq<Value>>)
    requires rows != []
    ensures RowLines(indent, rows) == [RowLine(indent, rows[0])] + RowLines(indent, rows[1..])
    ensures AllTexts(rows) == [TextsOf(rows[0])] + AllTexts(rows[1..])
  {}

  lemma {:induction false} LinesDecode(indent: nat, rows: seq<seq<Value>>)
    ensures DecodeLines(RowLines(indent, rows), |Pad(indent)| + 2) == Some(AllTexts(rows))
  {
    if rows == [] {
      assert RowLines(indent, rows) == [] && AllTexts(rows) == [];
    } else {
      LinesDecode(indent, rows[1..]);
      LineDecodes(indent, rows[0]);
      TableCons(indent, rows);
      DecodeCons(RowLine(indent, rows[0]), RowLines(indent, rows[1..]), |Pad(indent)| + 2,
                 TextsOf(rows[0]), AllTexts(rows[1..]));
    }
  }

  lemma {:induction false} SplitCounts(a: string, b: string)
    ensures |Split(a + "\n" + b, '\n')| == |Split(a, '\n')| + |Split(b, '\n')|
  {
    if a == "" {
      assert a + "\n" + b == "\n" + b;
      assert ("\n" + b)[1..] == b;
    } else {
      assert (a + "\n" + b)[1..] == a[1..] + "\n" + b;
      SplitCounts(a[1..], b);
    }
  }

  lemma {:induction false} SplitSeveral(a: string)
    ensures |Split(a, '\n')| > 1 <==> '\n' in a
  {
    if a == "" {
    } else {
      SplitSeveral(a[1..]);
    }
  }

  lemma RowLinesFree(indent: nat, rows: seq<seq<Value>>)
    ensures forall i :: 0 <= i < |rows| ==> '\n' !in RowLines(indent, rows)[i]
  {
    forall i | 0 <= i < |rows| ensures '\n' !in RowLines(indent, rows)[i] {
      LineDecodes(indent, rows[i]);
    }
  }

  /** Where the lines after the header begin, and that a header of several lines shifts them. */
  lemma TableSplits(header: string, lines: seq<string>)
    requires forall i :: 0 <= i < |lines| ==> '\n' !in lines[i]
    ensures var parts := Split(Join([header] + lines, "\n"), '\n');
            && ('\n' !in header ==> parts[1..] == lines)
            && ('\n' in header ==> |parts| > |lines| + 1)
  {
    if '\n' !in header {
      SplitJoin([header] + lines, '\n');
    } else {
      SplitSeveral(header);
      if lines == [] {
        assert Join([header], "\n") == header;
      } else {
        assert ([header] + lines)[1..] == lines;
        SplitCounts(header, Join(lines, "\n"));
        SplitJoin(lines, '\n');
      }
    }
  }

  lemma {:induction false} JoinHas(parts: seq<string>, sep: string, c: char, k: nat)
    requires k < |parts| && c in parts[k]
    ensures c in Join(parts, sep)
  {
    if |parts| == 1 || k == 0 {
    } else {
      JoinHas(parts[1..], sep, c, k - 1);
    }
  }

  lemma HeaderIsOneLineIff(indent: nat, key: string, fields: seq<string>, n: nat)
    ensures '\n' !in Header(indent, key, fields, n) <==>
            '\n' !in key && forall k :: 0 <= k < |fields| ==> '\n' !in fields[k]
  {
    var names := Join(fields, ",");
    DecIsOneLine(n);
    if forall k :: 0 <= k < |fields| ==> '\n' !in fields[k] {
      JoinFree(fields, ",", '\n');
    } else {
      var k :| 0 <= k < |fields| && '\n' in fields[k];
      JoinHas(fields, ",", '\n', k);
    }
    assert Header(indent, key, fields, n) == Pad(indent) + key + "[" + Dec(n) + "]{" + names + "}:";
  }

  /** The header names the number of rows and the fields. */
  lemma HeaderHoldsCountAndFields(indent: nat, key: string, fields: seq<string>, n: nat)
    requires fields != [] && forall k :: 0 <= k < |fields| ==> ',' !in fields[k]
    ensures exists count: string, names: string ::
              && Header(indent, key, fields, n) == Pad(indent) + key + "[" + count + "]{" + names + "}:"
              && (forall i :: 0 <= i < |count| ==> IsDigit(count[i])) && DecValue(count) == n
              && Split(names, ',') == fields
  {
    DecRoundTrip(n);
    SplitJoin(fields, ',');
    assert Header(indent, key, fields, n) == Pad(indent) + key + "[" + Dec(n) + "]{" + Join(fields, ",") + "}:";
  }

  /** A whole table decodes to the texts of its values, row by row, whatever these contain, exactly
      when its key and field names, which nothing quotes, are free of newlines. */
  lemma TableRoundTrip(indent: nat, key: string, fields: seq<string>, rows: seq<seq<Value>>)
    ensures DecodeTable(Join([Header(indent, key, fields, |rows|)] + RowLines(indent, rows), "\n"), indent) ==
            Some(AllTexts(rows))
       <==> '\n' !in key && forall k :: 0 <= k < |fields| ==> '\n' !in fields[k]
  {
    HeaderIsOneLineIff(indent, key, fields, |rows|);
    RowLinesFree(indent, rows);
    TableSplits(Header(indent, key, fields, |rows|), RowLines(indent, rows));
    LinesDecode(indent, rows);
  }

  // ------------------------------------------------------------------ the token budget

  const CHARS_PER_TOKEN := 4

  function EstimateTokens(text: string): nat { (|text| + CHARS_PER_TOKEN - 1) / CHARS_PER_TOKEN }

  /** Rows count by the plain texts of their values; Python's None, True and False are as long as
      null, true and false. */
  function RowCost(row: seq<Value>): nat { EstimateTokens(Join(TextsOf(row), ",")) }

  /** A row costs a quarter of its plain texts with a comma between them, rounded up. */
  lemma RowCostIsAQuarter(row: seq<Value>)
    ensures var length := |Join(TextsOf(row), ",")|; length <= 4 * RowCost(row) < length + 4
  {}

  function TotalCost(rows: seq<seq<Value>>): nat {
    if rows == [] then 0 else TotalCost(rows[..|rows| - 1]) + RowCost(rows[|rows| - 1])
  }

  /** `rows[:limit]`, where a negative limit counts from the end. */
  function Leading(n: nat, limit: int): nat {
    if limit >= 0 then (if limit < n then limit else n) else if n + limit > 0 then n + limit else 0
  }

  /** A limit cuts the rows after that many; a negative one leaves out as many at the end. */
  lemma LimitLeads(n: nat, limit: int)
    ensures limit >= n ==> Leading(n, limit) == n
    ensures 0 <= limit <= n ==> Leading(n, limit) == limit
    ensures limit < 0 ==> Leading(n, limit) == if n > -limit then n - (-limit) else 0
  {}

  /** The kept rows are the longest affordable leading ones, at least one if any is within the
      limit; `truncated` says exactly whether a row is missing. */
  method FitRows(rows: seq<seq<Value>>, limit: int, maxTokens: int) returns (kept: seq<seq<Value>>, truncated: bool)
    ensures kept <= rows && |kept| <= Leading(|rows|, limit)
    ensures Leading(|rows|, limit) > 0 ==> kept != []
    ensures |kept| > 1 ==> TotalCost(kept) <= maxTokens
    ensures |kept| < Leading(|rows|, limit) ==> TotalCost(rows[..|kept| + 1]) > maxTokens
    ensures truncated <==> kept != rows
  {
    kept := [];
    var spent := 0;
    var i := 0;
    while i < Leading(|rows|, limit)
      invariant 0 <= i <= Leading(|rows|, limit)
      invariant kept == rows[..i] && spent == TotalCost(kept)
      invariant i > 1 ==> spent <= maxTokens
    {
      var cost := RowCost(rows[i]);
      assert rows[..i + 1][..i] == rows[..i];
      if kept != [] && spent + cost > maxTokens {
        break;
      }
      kept := kept + [rows[i]];
      spent := spent + cost;
      i := i + 1;
    }
    truncated := |kept| < |rows|;
  }
}
