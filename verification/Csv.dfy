/** The spend report's CSV printer and the audit script's CSV parser (section 2 of RFC 4180). */
module Csv {
  import opened Basics

  const BOM: char := '\U{FEFF}'

  // ---- printing ---------------------------------------------------------------------------------------------

  predicate Formula(c: char) {
    c == '=' || c == '+' || c == '-' || c == '@' || c == '\t' || c == '\r'
  }

  /** The text a value is written as: nothing for null, and never the start of a formula. */
  function TextOf(value: Option<string>): (s: string)
    ensures s != "" ==> !Formula(s[0])
  {
    if value.None? then ""
    else if value.value != "" && Formula(value.value[0]) then "'" + value.value
    else value.value
  }

  predicate NeedsQuotes(s: string) {
    exists i :: 0 <= i < |s| && (s[i] == '"' || s[i] == ',' || s[i] == '\n' || s[i] == '\r')
  }

  function Doubled(s: string): string {
    if s == "" then "" else (if s[0] == '"' then "\"\"" else [s[0]]) + Doubled(s[1..])
  }

  function Quoted(s: string): string {
    if NeedsQuotes(s) then "\"" + Doubled(s) + "\"" else s
  }

  /** `csvField`. */
  function CsvField(value: Option<string>): string { Quoted(TextOf(value)) }

  /** `csvRow`. */
  function CsvRow(values: seq<Option<string>>): string {
    if values == [] then ""
    else if |values| == 1 then CsvField(values[0])
    else CsvField(values[0]) + "," + CsvRow(values[1..])
  }

  function Lines(rows: seq<seq<Option<string>>>): string {
    if rows == [] then "" else CsvRow(rows[0]) + "\n" + Lines(rows[1..])
  }

  /** `csvDocument`, the header being the first row. */
  function CsvDocument(header: seq<Option<string>>, rows: seq<seq<Option<string>>>): string {
    [BOM] + Lines([header] + rows)
  }

  // ---- parsing ----------------------------------------------------------------------------------------------

  function WithoutCr(field: string): string {
    if field != "" && field[|field| - 1] == '\r' then field[..|field| - 1] else field
  }

  /** The parser from the text still ahead, with its four variables. */
  function ParseFrom(t: string, rows: seq<seq<string>>, row: seq<string>, field: string, quoted: bool): seq<seq<string>>
    decreases |t|
  {
    if t == "" then (if field != "" || row != [] then rows + [row + [field]] else rows)
    else
      var c, rest := t[0], t[1..];
      if quoted then
        if c == '"' && rest != "" && rest[0] == '"' then ParseFrom(rest[1..], rows, row, field + "\"", true)
        else if c == '"' then ParseFrom(rest, rows, row, field, false)
        else ParseFrom(rest, rows, row, field + [c], true)
      else if c == '"' && field == "" then ParseFrom(rest, rows, row, field, true)
      else if c == ',' then ParseFrom(rest, rows, row + [field], "", false)
      else if c == '\n' then ParseFrom(rest, rows + [row + [WithoutCr(field)]], [], "", false)
      else ParseFrom(rest, rows, row, field + [c], false)
  }

  /** `parseCsv`. */
  method ParseCsv(text: string) returns (rows: seq<seq<string>>)
    ensures rows == ParseFrom(text, [], [], "", false)
  {
    rows := [];
    var row: seq<string>, field, quoted, i := [], "", false, 0;
    while i < |text|
      invariant 0 <= i <= |text|
      invariant ParseFrom(text[i..], rows, row, field, quoted) == ParseFrom(text, [], [], "", false)
    {
      var c := text[i];
      assert text[i..][1..] == text[i + 1..];
      if quoted {
        if c == '"' && i + 1 < |text| && text[i + 1] == '"' {
          assert text[i + 1..][1..] == text[i + 2..];
          field := field + "\"";
          i := i + 1;
        } else if c == '"' {
          quoted := false;
        } else {
          field := field + [c];
        }
      } else if c == '"' && |field| == 0 {
        quoted := true;
      } else if c == ',' {
        row := row + [field];
        field := "";
      } else if c == '\n' {
        rows := rows + [row + [WithoutCr(field)]];
        row := [];
        field := "";
      } else {
        field := field + [c];
      }
      i := i + 1;
    }
    assert text[|text|..] == "";
    if |field| > 0 || |row| > 0 {
      rows := rows + [row + [field]];
    }
  }

  // ---- the round trip -----------------------------------------------------------------------------------------

  lemma {:induction false} ParsePlain(s: string, rest: string, rows: seq<seq<string>>, row: seq<string>, field: string)
    requires forall i :: 0 <= i < |s| ==> s[i] != '"' && s[i] != ',' && s[i] != '\n'
    ensures ParseFrom(s + rest, rows, row, field, false) == ParseFrom(rest, rows, row, field + s, false)
    decreases |s|
  {
    if s == "" {
      assert s + rest == rest && field + s == field;
    } else {
      assert (s + rest)[1..] == s[1..] + rest;
      assert field + s == (field + [s[0]]) + s[1..];
      ParsePlain(s[1..], rest, rows, row, field + [s[0]]);
    }
  }

  lemma {:induction false} ParseDoubled(s: string, rest: string, rows: seq<seq<string>>, row: seq<string>,
                                        field: string)
    requires rest != "" && rest[0] != '"'
    ensures ParseFrom(Doubled(s) + ("\"" + rest), rows, row, field, true) == ParseFrom(rest, rows, row, field + s,
        false)
    decreases |s|
  {
    var tail := "\"" + rest;
    if s == "" {
      assert Doubled(s) + tail == tail && tail[1..] == rest && field + s == field;
    } else {
      ParseDoubled(s[1..], rest, rows, row, field + [s[0]]);
      assert field + s == (field + [s[0]]) + s[1..];
      var all, more := Doubled(s) + tail, Doubled(s[1..]) + tail;
      if s[0] == '"' {
        assert all == "\"\"" + more;
        assert all[1..] == "\"" + more && all[1..][1..] == more;
      } else {
        assert all == [s[0]] + more;
        assert all[1..] == more;
      }
    }
  }

  /** The parser reads a printed field back as its text, quoted or not. */
  lemma ParseField(s: string, rest: string, rows: seq<seq<string>>, row: seq<string>)
    requires rest != "" && rest[0] != '"'
    ensures ParseFrom(Quoted(s) + rest, rows, row, "", false) == ParseFrom(rest, rows, row, s, false)
  {
    assert "" + s == s;
    if NeedsQuotes(s) {
      ParseOpening(Doubled(s) + ("\"" + rest), rows, row);
      ParseDoubled(s, rest, rows, row, "");
      hide ParseFrom, Doubled, NeedsQuotes;
      assert "\"" + Doubled(s) + "\"" + rest == "\"" + (Doubled(s) + ("\"" + rest));
    } else {
      ParsePlain(s, rest, rows, row, "");
    }
  }

  lemma ParseOpening(rest: string, rows: seq<seq<string>>, row: seq<string>)
    ensures ParseFrom("\"" + rest, rows, row, "", false) == ParseFrom(rest, rows, row, "", true)
  {
    assert ("\"" + rest)[1..] == rest;
  }

  function Texts(values: seq<Option<string>>): (r: seq<string>)
    ensures |r| == |values|
    ensures forall i :: 0 <= i < |values| ==> r[i] == TextOf(values[i])
  {
    if values == [] then [] else [TextOf(values[0])] + Texts(values[1..])
  }

  /** What the parser makes of a printed row: a row of no fields becomes one of one empty field, and
      a carriage return before the line's end is dropped. */
  function Received(values: seq<Option<string>>): seq<string> {
    if values == [] then [""]
    else
      var texts := Texts(values);
      texts[..|texts| - 1] + [WithoutCr(texts[|texts| - 1])]
  }

  lemma ParseComma(rest: string, rows: seq<seq<string>>, row: seq<string>, field: string)
    ensures ParseFrom("," + rest, rows, row, field, false) == ParseFrom(rest, rows, row + [field], "", false)
  {
  }

  lemma ParseNewline(rest: string, rows: seq<seq<string>>, row: seq<string>, field: string)
    ensures ParseFrom("\n" + rest, rows, row, field, false) == ParseFrom(rest, rows + [row + [WithoutCr(field)]], [],
        "", false)
  {
  }

  lemma ReceivedTail(values: seq<Option<string>>)
    requires |values| > 1
    ensures Received(values) == [TextOf(values[0])] + Received(values[1..])
  {
  }

  lemma {:induction false} ParseRow(values: seq<Option<string>>, rest: string, rows: seq<seq<string>>, row: seq<string>)
    requires values != []
    ensures ParseFrom(CsvRow(values) + ("\n" + rest), rows, row, "", false)
         == ParseFrom(rest, rows + [row + Received(values)], [], "", false)
    decreases |values|
  {
    hide ParseFrom, Quoted, TextOf, WithoutCr;
    var end, text := "\n" + rest, TextOf(values[0]);
    if |values| == 1 {
      ParseField(text, end, rows, row);
      ParseNewline(rest, rows, row, text);
      assert Received(values) == [WithoutCr(text)];
    } else {
      var tail := CsvRow(values[1..]) + end;
      assert CsvRow(values) + end == CsvField(values[0]) + ("," + tail);
      ParseField(text, "," + tail, rows, row);
      ParseComma(tail, rows, row, text);
      ParseRow(values[1..], rest, rows, row + [text]);
      ReceivedTail(values);
      assert row + Received(values) == (row + [text]) + Received(values[1..]);
    }
  }

  function AllReceived(rows: seq<seq<Option<string>>>): (r: seq<seq<string>>)
    ensures |r| == |rows| && forall i :: 0 <= i < |rows| ==> r[i] == Received(rows[i])
  {
    if rows == [] then [] else [Received(rows[0])] + AllReceived(rows[1..])
  }

  lemma ParseLine(values: seq<Option<string>>, rest: string, done: seq<seq<string>>)
    ensures ParseFrom(CsvRow(values) + ("\n" + rest), done, [], "", false) == ParseFrom(rest, done + [Received(values)],
        [], "", false)
  {
    hide ParseFrom, CsvRow, WithoutCr, Received;
    if values == [] {
      EmptyRow();
      assert "" + ("\n" + rest) == "\n" + rest;
      ParseNewline(rest, done, [], "");
    } else {
      ParseRow(values, rest, done, []);
      assert [] + Received(values) == Received(values);
    }
  }

  lemma ParseNothing(done: seq<seq<string>>)
    ensures ParseFrom("", done, [], "", false) == done
  {
  }

  lemma {:induction false} ParseLines(rows: seq<seq<Option<string>>>, done: seq<seq<string>>)
    ensures ParseFrom(Lines(rows), done, [], "", false) == done + AllReceived(rows)
    decreases |rows|
  {
    hide ParseFrom, CsvRow, Received;
    if rows == [] {
      ParseNothing(done);
      assert done + [] == done;
    } else {
      var rest, got := Lines(rows[1..]), Received(rows[0]);
      assert Lines(rows) == CsvRow(rows[0]) + ("\n" + rest);
      ParseLine(rows[0], rest, done);
      ParseLines(rows[1..], done + [got]);
      assert done + [got] + AllReceived(rows[1..]) == done + ([got] + AllReceived(rows[1..]));
    }
  }

  lemma EmptyRow()
    ensures CsvRow([]) == "" && [] + [WithoutCr("")] == Received([])
  {
  }

  /** A row comes back as it was printed exactly when it has a field and its last field's text does
      not end in a carriage return. */
  predicate Kept(values: seq<Option<string>>) {
    values != [] && var last := TextOf(values[|values| - 1]); !(last != "" && last[|last| - 1] == '\r')
  }

  lemma KeptIff(values: seq<Option<string>>)
    ensures Received(values) == Texts(values) <==> Kept(values)
  {
  }

  function AllTexts(rows: seq<seq<Option<string>>>): (r: seq<seq<string>>)
    ensures |r| == |rows| && forall i :: 0 <= i < |rows| ==> r[i] == Texts(rows[i])
  {
    if rows == [] then [] else [Texts(rows[0])] + AllTexts(rows[1..])
  }

  /** Parsing a printed document without its byte-order mark gives back exactly the guarded field
      texts, if and only if every row has a field and none ends in a carriage return. */
  lemma DocumentRoundTrip(header: seq<Option<string>>, rows: seq<seq<Option<string>>>)
    ensures var all, parsed := [header] + rows, ParseFrom(CsvDocument(header, rows)[1..], [], [], "", false);
      parsed == AllTexts(all) <==> forall i :: 0 <= i < |all| ==> Kept(all[i])
  {
    var all := [header] + rows;
    assert CsvDocument(header, rows)[1..] == Lines(all);
    ParseLines(all, []);
    assert [] + AllReceived(all) == AllReceived(all);
    forall i | 0 <= i < |all|
      ensures AllReceived(all)[i] == AllTexts(all)[i] <==> Kept(all[i])
    {
      KeptIff(all[i]);
    }
    if AllReceived(all) == AllTexts(all) {
      forall i | 0 <= i < |all|
        ensures Kept(all[i])
      {
        assert AllReceived(all)[i] == AllTexts(all)[i];
      }
    }
  }

  /** No field read back from a printed document starts a formula, whatever the values were. */
  lemma NoParsedFormula(header: seq<Option<string>>, rows: seq<seq<Option<string>>>, i: nat, j: nat)
    requires var parsed := ParseFrom(CsvDocument(header, rows)[1..], [], [], "", false); i < |parsed| && j < |parsed[i]|
    ensures var field := ParseFrom(CsvDocument(header, rows)[1..], [], [], "", false)[i][j]; field != "" ==>
            !Formula(field[0])
  {
    hide ParseFrom, Lines, Received, Formula;
    var all := [header] + rows;
    assert CsvDocument(header, rows)[1..] == Lines(all);
    ParseLines(all, []);
    assert [] + AllReceived(all) == AllReceived(all);
    assert AllReceived(all)[i] == Received(all[i]);
    ReceivedPlain(all[i]);
  }

  lemma ReceivedPlain(values: seq<Option<string>>)
    ensures forall field :: field in Received(values) && field != "" ==> !Formula(field[0])
  {
  }
}
