/** The CSV writer's quoting and the CSV reader (section 2 of RFC 4180) undo each other. */
module CsvText {
  import opened Wrappers
  import opened Utf8

  type Text = seq<Byte>
  type Row = seq<Text>

  const QUOTE: Byte := 0x22
  const COMMA: Byte := 0x2C
  const CR: Byte := 0x0D
  const LF: Byte := 0x0A
  const BOM: Text := [0xEF, 0xBB, 0xBF]

  datatype Error = DatabaseInvalid

  // ---------------------------------------------------------------- writer

  predicate Special(b: Byte) {
    b == COMMA || b == QUOTE || b == CR || b == LF
  }

  predicate Plain(f: Text) {
    forall i | 0 <= i < |f| :: !Special(f[i])
  }

  function Doubled(f: Text): Text {
    if f == [] then [] else (if f[0] == QUOTE then [QUOTE, QUOTE] else [f[0]]) + Doubled(f[1..])
  }

  function Field(f: Text): Text {
    if Plain(f) then f else [QUOTE] + Doubled(f) + [QUOTE]
  }

  lemma {:induction false} DoubledAppend(f: Text, b: Byte)
    ensures Doubled(f + [b]) == Doubled(f) + (if b == QUOTE then [QUOTE, QUOTE] else [b])
  {
    if f == [] {
      assert f + [b] == [b] && [b][1..] == [];
    } else {
      assert (f + [b])[1..] == f[1..] + [b];
      DoubledAppend(f[1..], b);
    }
  }

  method CsvField(f: Text) returns (escaped: Text)
    ensures escaped == Field(f)
  {
    var k := 0;
    while k < |f| && !Special(f[k])
      invariant 0 <= k <= |f|
      invariant forall i | 0 <= i < k :: !Special(f[i])
    {
      k := k + 1;
    }
    if k == |f| {
      return f;
    }
    escaped := [QUOTE];
    var i := 0;
    while i < |f|
      invariant 0 <= i <= |f|
      invariant escaped == [QUOTE] + Doubled(f[..i])
    {
      assert f[..i + 1] == f[..i] + [f[i]];
      DoubledAppend(f[..i], f[i]);
      if f[i] == QUOTE {
        escaped := escaped + [QUOTE];
      }
      escaped := escaped + [f[i]];
      i := i + 1;
    }
    assert f[..i] == f;
    escaped := escaped + [QUOTE];
  }

  function RowText(r: Row): Text {
    if r == [] then []
    else if |r| == 1 then Field(r[0])
    else Field(r[0]) + ([COMMA] + RowText(r[1..]))
  }

  /** The text of a table with a chosen end after each row. */
  function Render(table: seq<Row>, ends: seq<Text>): Text
    requires |ends| == |table|
  {
    if table == [] then [] else RowText(table[0]) + (ends[0] + Render(table[1..], ends[1..]))
  }

  predicate RowEnd(e: Text) {
    e == [LF] || e == [CR] || e == [CR, LF]
  }

  /** Every row ends in LF, CR or CRLF, in any mixture; the last row's end may be missing. */
  predicate Ends(ends: seq<Text>) {
    ends == [] || ((RowEnd(ends[0]) || (|ends| == 1 && ends[0] == [])) && Ends(ends[1..]))
  }

  /** A row the reader can tell from a blank line. */
  predicate Proper(r: Row) {
    |r| > 1 || (|r| == 1 && r[0] != [])
  }

  predicate AllProper(table: seq<Row>) {
    table == [] || (Proper(table[0]) && AllProper(table[1..]))
  }

  // ---------------------------------------------------------------- reader

  datatype State = State(rows: seq<Row>, row: Row, field: Text, quoted: bool, quoteClosed: bool, atFieldStart: bool)

  function Fresh(rows: seq<Row>, row: Row): State {
    State(rows, row, [], false, false, true)
  }

  function FinishField(s: State): State {
    s.(row := s.row + [s.field], field := [], atFieldStart := true, quoteClosed := false)
  }

  function FinishRow(s: State): State {
    var t := FinishField(s);
    t.(rows := if t.row == [[]] then t.rows else t.rows + [t.row], row := [])
  }

  /** How many bytes the reader takes at once: a doubled quote and CRLF are two. */
  function Taken(text: Text, quoted: bool): nat
    requires text != []
    ensures 1 <= Taken(text, quoted) <= |text|
  {
    if |text| > 1 && (if quoted then text[0] == QUOTE && text[1] == QUOTE else text[0] == CR && text[1] == LF) then 2 else 1
  }

  function Read(text: Text, s: State): Result<State, Error>
    requires text != []
  {
    var c := text[0];
    if s.quoted then
      if c == QUOTE && Taken(text, true) == 1 then Ok(s.(quoted := false, quoteClosed := true))
      else Ok(s.(field := s.field + [c]))
    else if s.quoteClosed && c != COMMA && c != CR && c != LF then Err(DatabaseInvalid)
    else if c == QUOTE then
      if s.atFieldStart then Ok(s.(quoted := true, atFieldStart := false)) else Err(DatabaseInvalid)
    else if c == COMMA then Ok(FinishField(s))
    else if c == CR || c == LF then Ok(FinishRow(s))
    else Ok(s.(field := s.field + [c], atFieldStart := false))
  }

  function ReadAll(text: Text, s: State): Result<seq<Row>, Error>
    decreases |text|
  {
    if text == [] then
      if s.quoted then Err(DatabaseInvalid)
      else Ok(if s.field != [] || s.row != [] || s.quoteClosed then FinishRow(s).rows else s.rows)
    else
      match Read(text, s)
      case Ok(next) => ReadAll(text[Taken(text, s.quoted)..], next)
      case Err(e) => Err(e)
  }

  function Parsed(content: Text): Result<seq<Row>, Error> {
    if !ValidUtf8(content) then Err(DatabaseInvalid)
    else
      var r := ReadAll(if BOM <= content then content[3..] else content, Fresh([], []));
      if r == Ok([]) then Err(DatabaseInvalid) else r
  }

  lemma ReadNext(content: Text, index: nat, s: State)
    requires index < |content|
    ensures var rest := content[index..];
            ReadAll(rest, s) == if Read(rest, s).Ok? then ReadAll(content[index + Taken(rest, s.quoted)..], Read(rest, s).value)
                                else Err(DatabaseInvalid)
  {
    var rest := content[index..];
    assert rest[Taken(rest, s.quoted)..] == content[index + Taken(rest, s.quoted)..];
  }

  method ParseCsv(text: Text) returns (r: Result<seq<Row>, Error>)
    ensures r == Parsed(text)
  {
    var valid := IsValidUtf8(text);
    if !valid {
      return Err(DatabaseInvalid);
    }
    var content := text;
    if BOM <= content {
      content := content[3..];
    }
    var rows: seq<Row>, row: Row, field: Text := [], [], [];
    var quoted, quoteClosed, atFieldStart := false, false, true;
    var index := 0;
    assert content[0..] == content;
    while index < |content|
      invariant 0 <= index <= |content|
      invariant ReadAll(content, Fresh([], [])) ==
                ReadAll(content[index..], State(rows, row, field, quoted, quoteClosed, atFieldStart))
      decreases |content| - index
    {
      var character := content[index];
      ghost var before := State(rows, row, field, quoted, quoteClosed, atFieldStart);
      ReadNext(content, index, before);
      ghost var rest := content[index..];
      if quoted {
        if character == QUOTE {
          if index + 1 < |content| && content[index + 1] == QUOTE {
            field := field + [QUOTE];
            index := index + 1;
          } else {
            quoted, quoteClosed := false, true;
          }
        } else {
          field := field + [character];
        }
      } else if quoteClosed && character != COMMA && character != CR && character != LF {
        return Err(DatabaseInvalid);
      } else if character == QUOTE {
        if !atFieldStart {
          return Err(DatabaseInvalid);
        }
        quoted, atFieldStart := true, false;
      } else if character == COMMA {
        row, field, atFieldStart, quoteClosed := row + [field], [], true, false;
      } else if character == CR || character == LF {
        if character == CR && index + 1 < |content| && content[index + 1] == LF {
          index := index + 1;
        }
        row, field, atFieldStart, quoteClosed := row + [field], [], true, false;
        if !(|row| == 1 && row[0] == []) {
          rows := rows + [row];
        }
        row := [];
      } else {
        field, atFieldStart := field + [character], false;
      }
      index := index + 1;
      assert index == |content| - |rest| + Taken(rest, before.quoted);
      assert Read(rest, before) == Ok(State(rows, row, field, quoted, quoteClosed, atFieldStart));
    }
    if quoted {
      return Err(DatabaseInvalid);
    }
    if field != [] || row != [] || quoteClosed {
      row := row + [field];
      if !(|row| == 1 && row[0] == []) {
        rows := rows + [row];
      }
    }
    if rows == [] {
      return Err(DatabaseInvalid);
    }
    return Ok(rows);
  }

  // ---------------------------------------------------------------- round trip

  lemma Associates<T>(a: seq<T>, b: seq<T>, c: seq<T>)
    ensures a + b + c == a + (b + c)
  {
  }

  lemma HeadSplit<T>(a: seq<T>, t: seq<T>)
    requires t != []
    ensures a + [t[0]] + t[1..] == a + t
  {
    assert [t[0]] + t[1..] == t;
    Associates(a, [t[0]], t[1..]);
  }

  lemma ReadOne(c: Byte, rest: Text, s: State)
    requires s.quoted || c != CR || rest == [] || rest[0] != LF
    requires !s.quoted || c != QUOTE || rest == [] || rest[0] != QUOTE
    ensures var r := Read([c] + rest, s);
            ReadAll([c] + rest, s) == if r.Ok? then ReadAll(rest, r.value) else Err(r.error)
  {
    assert ([c] + rest)[1..] == rest;
  }

  lemma {:induction false} ReadPlain(f: Text, rest: Text, s: State)
    requires Plain(f) && !s.quoted && !s.quoteClosed
    ensures ReadAll(f + rest, s) ==
            ReadAll(rest, s.(field := s.field + f, atFieldStart := s.atFieldStart && f == []))
  {
    if f == [] {
      assert f + rest == rest && s.field + f == s.field;
    } else {
      assert f + rest == [f[0]] + (f[1..] + rest);
      assert !Special(f[0]);
      ReadOne(f[0], f[1..] + rest, s);
      ReadPlain(f[1..], rest, s.(field := s.field + [f[0]], atFieldStart := false));
      assert s.field + [f[0]] + f[1..] == s.field + f;
    }
  }

  lemma ReadDoubledQuote(rest: Text, s: State)
    requires s.quoted
    ensures ReadAll([QUOTE, QUOTE] + rest, s) == ReadAll(rest, s.(field := s.field + [QUOTE]))
  {
    assert ([QUOTE, QUOTE] + rest)[2..] == rest;
  }

  lemma DoubledSplit(f: Text, rest: Text)
    requires f != []
    ensures Doubled(f) + [QUOTE] + rest ==
            (if f[0] == QUOTE then [QUOTE, QUOTE] else [f[0]]) + (Doubled(f[1..]) + [QUOTE] + rest)
  {
    var head := if f[0] == QUOTE then [QUOTE, QUOTE] else [f[0]];
    Associates(head, Doubled(f[1..]), [QUOTE]);
    Associates(head, Doubled(f[1..]) + [QUOTE], rest);
  }

  lemma {:induction false} ReadQuoted(f: Text, rest: Text, s: State)
    requires s.quoted && (rest == [] || rest[0] != QUOTE)
    ensures ReadAll(Doubled(f) + [QUOTE] + rest, s) ==
            ReadAll(rest, s.(field := s.field + f, quoted := false, quoteClosed := true))
  {
    if f == [] {
      assert Doubled(f) + [QUOTE] == [QUOTE] && s.field + f == s.field;
      ReadOne(QUOTE, rest, s);
    } else {
      var tail := Doubled(f[1..]) + [QUOTE] + rest;
      DoubledSplit(f, rest);
      if f[0] == QUOTE {
        ReadDoubledQuote(tail, s);
      } else {
        ReadOne(f[0], tail, s);
      }
      ReadQuoted(f[1..], rest, s.(field := s.field + [f[0]]));
      HeadSplit(s.field, f);
    }
  }

  /** The reader's state just before a field is finished: how the field was written no longer matters. */
  function FieldRead(rows: seq<Row>, row: Row, f: Text): State {
    State(rows, row, f, false, !Plain(f), Plain(f) && f == [])
  }

  predicate Delimits(rest: Text) {
    rest == [] || rest[0] == COMMA || rest[0] == CR || rest[0] == LF
  }

  lemma ReadField(f: Text, rest: Text, rows: seq<Row>, row: Row)
    requires Delimits(rest)
    ensures ReadAll(Field(f) + rest, Fresh(rows, row)) == ReadAll(rest, FieldRead(rows, row, f))
  {
    var s := Fresh(rows, row);
    if Plain(f) {
      ReadPlain(f, rest, s);
      assert [] + f == f;
    } else {
      var body := Doubled(f) + [QUOTE] + rest;
      assert Field(f) + rest == [QUOTE] + body;
      ReadOne(QUOTE, body, s);
      ReadQuoted(f, rest, s.(quoted := true, atFieldStart := false));
      assert [] + f == f;
    }
  }

  lemma FieldStart(f: Text)
    ensures Field(f) == [] <==> f == []
    ensures Field(f) != [] ==> Field(f)[0] != LF
  {
    if f != [] && Plain(f) {
      assert !Special(f[0]);
    }
  }

  lemma RowTextStart(r: Row)
    requires Proper(r)
    ensures RowText(r) != [] && RowText(r)[0] != LF
  {
    FieldStart(r[0]);
  }

  lemma RowTextSplit(r: Row, rest: Text)
    requires |r| > 1
    ensures RowText(r) + rest == Field(r[0]) + ([COMMA] + (RowText(r[1..]) + rest))
  {
    Associates(Field(r[0]), [COMMA] + RowText(r[1..]), rest);
    Associates([COMMA], RowText(r[1..]), rest);
  }

  /** The reader's state after the fields of a row and before its end. */
  function RowRead(rows: seq<Row>, row: Row, r: Row): State
    requires r != []
    decreases |r|
  {
    if |r| == 1 then FieldRead(rows, row, r[0]) else RowRead(rows, row + [r[0]], r[1..])
  }

  lemma {:induction false} ReadRow(r: Row, rest: Text, rows: seq<Row>, row: Row)
    requires r != [] && (rest == [] || rest[0] == CR || rest[0] == LF)
    ensures ReadAll(RowText(r) + rest, Fresh(rows, row)) == ReadAll(rest, RowRead(rows, row, r))
    decreases |r|
  {
    if |r| == 1 {
      ReadField(r[0], rest, rows, row);
    } else {
      var tail := RowText(r[1..]) + rest;
      RowTextSplit(r, rest);
      ReadField(r[0], [COMMA] + tail, rows, row);
      ReadComma(rows, row, r[0], tail);
      ReadRow(r[1..], rest, rows, row + [r[0]]);
    }
  }

  lemma ReadComma(rows: seq<Row>, row: Row, f: Text, rest: Text)
    ensures ReadAll([COMMA] + rest, FieldRead(rows, row, f)) == ReadAll(rest, Fresh(rows, row + [f]))
  {
    ReadOne(COMMA, rest, FieldRead(rows, row, f));
  }

  lemma ReadRowEnd(s: State, end: Text, rest: Text)
    requires !s.quoted && RowEnd(end) && (rest == [] || rest[0] != LF)
    ensures ReadAll(end + rest, s) == ReadAll(rest, FinishRow(s))
  {
    if end == [CR, LF] {
      assert (end + rest)[2..] == rest && (end + rest)[0] == CR && (end + rest)[1] == LF;
    } else {
      ReadOne(end[0], rest, s);
    }
  }

  lemma {:induction false} FinishedRow(r: Row, rows: seq<Row>, row: Row)
    requires r != [] && Proper(row + r)
    ensures var read := RowRead(rows, row, r);
            && !read.quoted && (read.field != [] || read.row != [])
            && FinishRow(read) == Fresh(rows + [row + r], [])
    decreases |r|
  {
    if |r| == 1 {
      assert r == [r[0]];
    } else {
      HeadSplit(row, r);
      FinishedRow(r[1..], rows, row + [r[0]]);
    }
  }

  lemma RenderStart(table: seq<Row>, ends: seq<Text>)
    requires |ends| == |table| && AllProper(table)
    ensures Render(table, ends) != [] ==> Render(table, ends)[0] != LF
  {
    if table != [] {
      RowTextStart(table[0]);
    }
  }

  /** Reading a row and its end; a missing end is only read at the end of the text. */
  lemma ReadRowAndEnd(r: Row, end: Text, rest: Text, rows: seq<Row>)
    requires Proper(r) && (RowEnd(end) || (end == [] && rest == []))
    requires rest == [] || rest[0] != LF
    ensures ReadAll(RowText(r) + (end + rest), Fresh(rows, [])) == ReadAll(rest, Fresh(rows + [r], []))
  {
    ReadRow(r, end + rest, rows, []);
    assert [] + r == r;
    FinishedRow(r, rows, []);
    if end == [] {
      assert end + rest == [];
    } else {
      ReadRowEnd(RowRead(rows, [], r), end, rest);
    }
  }

  lemma {:induction false} ReadTable(table: seq<Row>, ends: seq<Text>, rows: seq<Row>)
    requires |ends| == |table| && Ends(ends) && AllProper(table)
    ensures ReadAll(Render(table, ends), Fresh(rows, [])) == Ok(rows + table)
    decreases |table|
  {
    if table == [] {
      assert rows + table == rows;
    } else {
      RenderStart(table[1..], ends[1..]);
      ReadRowAndEnd(table[0], ends[0], Render(table[1..], ends[1..]), rows);
      ReadTable(table[1..], ends[1..], rows + [table[0]]);
      HeadSplit(rows, table);
    }
  }

  /** Reading back what was written returns the same table, for every mixture of row ends. */
  lemma RoundTrip(table: seq<Row>, ends: seq<Text>)
    requires |ends| == |table| && Ends(ends)
    requires table != [] && AllProper(table)
    requires ValidUtf8(Render(table, ends)) && !(BOM <= Render(table, ends))
    ensures Parsed(Render(table, ends)) == Ok(table)
  {
    ReadTable(table, ends, []);
    assert [] + table == table;
  }

  // ---------------------------------------------------------------- and only then

  lemma {:induction false} ProperAppend(rows: seq<Row>, r: Row)
    requires AllProper(rows) && Proper(r)
    ensures AllProper(rows + [r])
  {
    if rows != [] {
      ProperAppend(rows[1..], r);
      assert (rows + [r])[1..] == rows[1..] + [r];
    }
  }

  lemma FinishRowIsProper(s: State)
    requires AllProper(s.rows)
    ensures AllProper(FinishRow(s).rows)
  {
    var r := s.row + [s.field];
    if r != [[]] {
      assert |r| == 1 ==> r == [r[0]];
      ProperAppend(s.rows, r);
    }
  }

  lemma {:induction false} RowsAreProper(text: Text, s: State)
    requires AllProper(s.rows)
    ensures var r := ReadAll(text, s); r.Ok? ==> AllProper(r.value)
    decreases |text|
  {
    FinishRowIsProper(s);
    if text != [] && Read(text, s).Ok? {
      RowsAreProper(text[Taken(text, s.quoted)..], Read(text, s).value);
    }
  }

  /** The reader strips a leading byte-order mark even when the first field begins with it. */
  lemma MarkIsLost(table: seq<Row>, ends: seq<Text>)
    requires |ends| == |table| && Ends(ends)
    requires table != [] && AllProper(table)
    requires BOM <= Render(table, ends)
    ensures ReadAll(Render(table, ends)[3..], Fresh([], [])) != Ok(table)
  {
    var r, rest := table[0], Render(table[1..], ends[1..]);
    RenderStart(table[1..], ends[1..]);
    MarkInFirstField(r, ends[0] + rest);
    var shorter: Row := [r[0][3..]] + r[1..];
    assert shorter[0] != r[0];
    if Proper(shorter) {
      ReadRowAndEnd(shorter, ends[0], rest, []);
      ReadTable(table[1..], ends[1..], [] + [shorter]);
      assert ([] + [shorter] + table[1..])[0] == shorter;
    } else {
      assert RowText(shorter) == [] && [] + (ends[0] + rest) == ends[0] + rest;
      ReadTable(table[1..], ends[1..], []);
      if ends[0] == [] {
        assert rest == [] && ends[0] + rest == [];
      } else {
        ReadRowEnd(Fresh([], []), ends[0], rest);
        assert |[] + table[1..]| < |table|;
      }
    }
  }

  /** Without its byte-order mark the row's text is that of a shorter first field. */
  lemma MarkInFirstField(r: Row, rest: Text)
    requires Proper(r) && Delimits(rest) && BOM <= RowText(r) + rest
    ensures BOM <= r[0] && (RowText(r) + rest)[3..] == RowText([r[0][3..]] + r[1..]) + rest
  {
    var f, tail := r[0], rest;
    if |r| > 1 {
      tail := [COMMA] + (RowText(r[1..]) + rest);
      RowTextSplit(r, rest);
    }
    MarkInField(f, tail);
    var shorter := [f[3..]] + r[1..];
    assert shorter[1..] == r[1..];
    if |r| > 1 {
      RowTextSplit(shorter, rest);
    }
  }

  lemma MarkInField(f: Text, tail: Text)
    requires Delimits(tail) && BOM <= Field(f) + tail
    ensures BOM <= f && (Field(f) + tail)[3..] == Field(f[3..]) + tail
  {
    var text := Field(f) + tail;
    assert text[0] == 0xEF && text[1] == 0xBB && text[2] == 0xBF;
    assert Plain(f);
    assert tail != [] ==> text[|f|] == tail[0];
    assert |f| >= 3;
    assert forall i | 0 <= i < |f| - 3 :: f[3..][i] == f[i + 3];
    assert Plain(f[3..]);
  }

  /** The reader returns the table that was written if and only if the text is valid UTF-8 without a
      leading byte-order mark and the table has rows, none of them empty or a single empty field. */
  lemma RoundTripExactly(table: seq<Row>, ends: seq<Text>)
    requires |ends| == |table| && Ends(ends)
    ensures var text := Render(table, ends);
            Parsed(text) == Ok(table) <==>
              table != [] && AllProper(table) && ValidUtf8(text) && !(BOM <= text)
  {
    var text := Render(table, ends);
    if Parsed(text) == Ok(table) {
      RowsAreProper(if BOM <= text then text[3..] else text, Fresh([], []));
      if BOM <= text {
        MarkIsLost(table, ends);
      }
    } else if table != [] && AllProper(table) && ValidUtf8(text) && !(BOM <= text) {
      RoundTrip(table, ends);
    }
  }

  // ---------------------------------------------------------------- malformed fields

  /** A quote inside a field that did not begin with one is refused. */
  lemma StrayQuoteIsRefused(f: Text, rest: Text, rows: seq<Row>, row: Row)
    requires Plain(f) && f != []
    ensures ReadAll(f + ([QUOTE] + rest), Fresh(rows, row)).Err?
  {
    ReadPlain(f, [QUOTE] + rest, Fresh(rows, row));
  }

  /** After a closing quote anything but a comma, a row end or the end of the text is refused. */
  lemma JunkAfterQuoteIsRefused(f: Text, c: Byte, rest: Text, rows: seq<Row>, row: Row)
    requires !Special(c)
    ensures ReadAll([QUOTE] + (Doubled(f) + [QUOTE] + ([c] + rest)), Fresh(rows, row)).Err?
  {
    var s := Fresh(rows, row);
    ReadOpening(Doubled(f) + [QUOTE] + ([c] + rest), s);
    ReadQuoted(f, [c] + rest, s.(quoted := true, atFieldStart := false));
  }

  /** A quoted field that is never closed is refused. */
  lemma OpenQuoteIsRefused(f: Text, rows: seq<Row>, row: Row)
    ensures ReadAll([QUOTE] + Doubled(f), Fresh(rows, row)).Err?
  {
    var s := Fresh(rows, row);
    ReadOpening(Doubled(f), s);
    StaysOpen(f, s.(quoted := true, atFieldStart := false));
  }

  lemma ReadOpening(rest: Text, s: State)
    requires !s.quoted && !s.quoteClosed && s.atFieldStart
    ensures ReadAll([QUOTE] + rest, s) == ReadAll(rest, s.(quoted := true, atFieldStart := false))
  {
    assert ([QUOTE] + rest)[1..] == rest;
  }

  lemma {:induction false} StaysOpen(f: Text, s: State)
    requires s.quoted
    ensures ReadAll(Doubled(f), s).Err?
  {
    if f != [] {
      if f[0] == QUOTE {
        ReadDoubledQuote(Doubled(f[1..]), s);
      } else {
        ReadOne(f[0], Doubled(f[1..]), s);
      }
      StaysOpen(f[1..], s.(field := s.field + [f[0]]));
    }
  }
}
