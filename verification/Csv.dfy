/** Comma-separated records as section 2 of RFC 4180 writes them, against the parser's reader. */
module Csv {
  import opened Wrappers
  import opened Strings
  import opened Decimals
  import opened InspectReport

  /** A field and whether the writer chose to quote it. */
  datatype Cell = Cell(text: string, quoted: bool) {
    /** No line breaks; a comma, a double quote or a carriage return forces the quotes. */
    predicate Valid() {
      && '\n' !in text
      && (!quoted ==> ',' !in text && '"' !in text && '\r' !in text)
    }
  }

  function Escape(text: string): string {
    if text == "" then ""
    else (if text[0] == '"' then "\"\"" else [text[0]]) + Escape(text[1..])
  }

  function PrintCell(cell: Cell): string {
    if cell.quoted then "\"" + Escape(cell.text) + "\"" else cell.text
  }

  function PrintRecord(cells: seq<Cell>): string
    requires |cells| >= 1
  {
    if |cells| == 1 then PrintCell(cells[0])
    else PrintCell(cells[0]) + "," + PrintRecord(cells[1..])
  }

  function Texts(cells: seq<Cell>): (r: seq<string>)
    ensures |r| == |cells|
    ensures forall i :: 0 <= i < |cells| ==> r[i] == cells[i].text
  {
    seq(|cells|, i requires 0 <= i < |cells| => cells[i].text)
  }

  predicate EndsField(rest: string) {
    rest == "" || rest[0] == ','
  }

  /** The fields of a field followed by the unread rest of the line. */
  function Continue(field: string, rest: string): Option<seq<string>>
    requires EndsField(rest)
  {
    if rest == "" then Some([field]) else Following(field, ParseFields(rest[1..]))
  }

  lemma {:induction false} ReadQuoted(text: string, field: string, rest: string)
    requires EndsField(rest)
    ensures ParseQuoted(Escape(text) + "\"" + rest, field) == Continue(field + text, rest)
    decreases |text|
  {
    var line := Escape(text) + "\"" + rest;
    if text == "" {
      assert line == "\"" + rest;
      assert field + text == field;
      if rest != "" {
        assert line[2..] == rest[1..];
      }
    } else if text[0] == '"' {
      assert line[0] == '"' && line[1] == '"';
      assert line[2..] == Escape(text[1..]) + "\"" + rest;
      ReadQuoted(text[1..], field + ['"'], rest);
      assert field + ['"'] + text[1..] == field + text;
    } else {
      assert line[0] == text[0];
      assert line[1..] == Escape(text[1..]) + "\"" + rest;
      ReadQuoted(text[1..], field + [text[0]], rest);
      assert field + [text[0]] + text[1..] == field + text;
    }
  }

  lemma {:induction false} BareFieldEnd(text: string, rest: string)
    requires ',' !in text && EndsField(rest)
    ensures FieldEnd(text + rest) == |text|
  {
    if text != "" {
      assert (text + rest)[1..] == text[1..] + rest;
      BareFieldEnd(text[1..], rest);
    } else {
      assert text + rest == rest;
    }
  }

  lemma ReadBare(text: string, rest: string)
    requires ',' !in text && '"' !in text && EndsField(rest)
    ensures ParseFields(text + rest) == Continue(text, rest)
  {
    var line := text + rest;
    BareFieldEnd(text, rest);
    assert line[..|text|] == text;
    if rest == "" {
      assert line == text;
    } else {
      assert line[|text| + 1..] == rest[1..];
      assert line[0] != '"';
    }
  }

  lemma ReadCell(cell: Cell, rest: string)
    requires cell.Valid() && EndsField(rest)
    ensures ParseFields(PrintCell(cell) + rest) == Continue(cell.text, rest)
  {
    if cell.quoted {
      var line := PrintCell(cell) + rest;
      assert line[0] == '"';
      assert line[1..] == Escape(cell.text) + "\"" + rest;
      ReadQuoted(cell.text, "", rest);
      assert "" + cell.text == cell.text;
    } else {
      ReadBare(cell.text, rest);
    }
  }

  /** Reading a written record gives back its fields, whichever of them were quoted. */
  lemma {:induction false} RecordRoundTrip(cells: seq<Cell>)
    requires |cells| >= 1
    requires forall cell :: cell in cells ==> cell.Valid()
    ensures ParseFields(PrintRecord(cells)) == Some(Texts(cells))
  {
    if |cells| == 1 {
      OneCell(cells[0]);
      assert cells == [cells[0]];
    } else {
      RecordRoundTrip(cells[1..]);
      MoreCells(cells[0], cells[1..]);
      assert cells == [cells[0]] + cells[1..];
    }
  }

  lemma OneCell(cell: Cell)
    requires cell.Valid()
    ensures ParseFields(PrintRecord([cell])) == Some(Texts([cell]))
  {
    hide ParseFields, PrintCell, Cell.Valid;
    ReadCell(cell, "");
    assert PrintCell(cell) + "" == PrintCell(cell);
    assert Texts([cell]) == [cell.text];
  }

  lemma MoreCells(first: Cell, others: seq<Cell>)
    requires first.Valid() && |others| >= 1
    requires ParseFields(PrintRecord(others)) == Some(Texts(others))
    ensures ParseFields(PrintRecord([first] + others)) == Some(Texts([first] + others))
  {
    hide *;
    var rest := "," + PrintRecord(others);
    AfterComma(first.text, PrintRecord(others));
    ReadCell(first, rest);
    PrintedFirst(first, others);
    FollowingTexts(first, others);
  }

  lemma AfterComma(field: string, more: string)
    ensures EndsField("," + more) && Continue(field, "," + more) == Following(field, ParseFields(more))
  {
    hide ParseFields;
    assert ("," + more)[1..] == more;
  }

  lemma FollowingTexts(first: Cell, others: seq<Cell>)
    ensures Following(first.text, Some(Texts(others))) == Some(Texts([first] + others))
  {
    assert Texts([first] + others) == [first.text] + Texts(others);
  }

  lemma PrintedFirst(first: Cell, others: seq<Cell>)
    requires |others| >= 1
    ensures PrintRecord([first] + others) == PrintCell(first) + ("," + PrintRecord(others))
  {
    hide PrintCell;
    assert ([first] + others)[1..] == others;
  }

  // ----- every line that is read -----

  /** A quoted field that could be read, as it stands in the line. */
  lemma {:induction false} QuotedShape(line: string, field: string) returns (text: string, rest: string)
    requires ParseQuoted(line, field).Some?
    ensures line == Escape(text) + "\"" + rest && EndsField(rest)
    ensures ParseQuoted(line, field) == Continue(field + text, rest)
    decreases |line|
  {
    hide ParseFields;
    if line[0] != '"' {
      text, rest := QuotedShape(line[1..], field + [line[0]]);
      assert field + [line[0]] + text == field + ([line[0]] + text);
      text := [line[0]] + text;
    } else if |line| == 1 || line[1] == ',' {
      text, rest := "", line[1..];
      assert field + text == field;
    } else {
      text, rest := QuotedShape(line[2..], field + ['"']);
      assert field + ['"'] + text == field + (['"'] + text);
      text := ['"'] + text;
    }
    assert line == Escape(text) + "\"" + rest by {
      EscapeFirst(text);
    }
  }

  ghost predicate SingleLine(line: string) {
    '\n' !in line && '\r' !in line
  }

  lemma {:induction false} EscapeKeepsLines(text: string)
    ensures forall c :: c in text ==> c in Escape(text)
  {
    if text != "" {
      EscapeKeepsLines(text[1..]);
    }
  }

  /** A line that could be read is the written form of what was read, with some of the fields quoted. */
  lemma {:induction false} RecordShape(line: string) returns (cells: seq<Cell>)
    requires SingleLine(line) && ParseFields(line).Some?
    ensures |cells| >= 1 && (forall cell: Cell :: cell in cells ==> cell.Valid())
    ensures PrintRecord(cells) == line && Texts(cells) == ParseFields(line).value
    decreases |line|
  {
    hide Escape, ParseQuoted;
    var first, rest := FirstShape(line);
    hide ParseFields, Cell.Valid, PrintCell;
    if rest == "" {
      cells := [first];
      assert PrintCell(first) + rest == PrintCell(first);
      assert Texts(cells) == [first.text];
    } else {
      assert rest == "," + rest[1..];
      assert SingleLine(rest[1..]) by {
        assert forall c :: c in rest[1..] ==> c in line;
      }
      var others := RecordShape(rest[1..]);
      cells := [first] + others;
      PrintedFirst(first, others);
      FollowingTexts(first, others);
    }
  }

  lemma FirstShape(line: string) returns (first: Cell, rest: string)
    requires SingleLine(line) && ParseFields(line).Some?
    ensures first.Valid() && EndsField(rest) && line == PrintCell(first) + rest
    ensures ParseFields(line) == Continue(first.text, rest)
  {
    hide *;
    if line != "" && line[0] == '"' {
      first, rest := QuotedFirst(line);
    } else {
      first, rest := BareFirst(line);
    }
  }

  lemma QuotedFirst(line: string) returns (first: Cell, rest: string)
    requires SingleLine(line) && ParseFields(line).Some? && line != "" && line[0] == '"'
    ensures first.Valid() && EndsField(rest) && line == PrintCell(first) + rest
    ensures ParseFields(line) == Continue(first.text, rest)
  {
    assert ParseFields(line) == ParseQuoted(line[1..], "");
    hide ParseQuoted, Escape, ParseFields, Continue;
    var text;
    text, rest := QuotedShape(line[1..], "");
    assert "" + text == text;
    first := Cell(text, true);
    QuotedText(line, text, rest);
  }

  lemma QuotedText(line: string, text: string, rest: string)
    requires SingleLine(line) && line != "" && line[0] == '"' && line[1..] == Escape(text) + "\"" + rest
    ensures line == PrintCell(Cell(text, true)) + rest && Cell(text, true).Valid()
  {
    EscapeKeepsLines(text);
    hide Escape;
    assert line == "\"" + line[1..];
    assert forall i :: 0 <= i < |Escape(text)| ==> Escape(text)[i] == line[i + 1];
  }

  lemma BareFirst(line: string) returns (first: Cell, rest: string)
    requires SingleLine(line) && ParseFields(line).Some? && (line == "" || line[0] != '"')
    ensures first.Valid() && EndsField(rest) && line == PrintCell(first) + rest
    ensures ParseFields(line) == Continue(first.text, rest)
  {
    var end := FieldEnd(line);
    first, rest := Cell(line[..end], false), line[end..];
    assert line == line[..end] + line[end..];
    assert forall c :: c in line[..end] ==> c in line;
    assert end == |line| ==> line[..end] == line;
    assert end < |line| ==> line[end..][1..] == line[end + 1..];
    hide FieldEnd;
  }

  /** The reader takes exactly the written forms of records of one line, for what they are written from. */
  lemma RecordExactly(line: string, fields: seq<string>)
    requires SingleLine(line)
    ensures ParseFields(line) == Some(fields)
       <==> exists cells: seq<Cell> :: |cells| >= 1 && (forall cell: Cell :: cell in cells ==> cell.Valid())
                            && PrintRecord(cells) == line && Texts(cells) == fields
  {
    hide ParseFields, PrintRecord, Texts, Cell.Valid;
    if ParseFields(line) == Some(fields) {
      var cells := RecordShape(line);
    }
    forall cells: seq<Cell> | |cells| >= 1 && (forall cell: Cell :: cell in cells ==> cell.Valid())
                   && PrintRecord(cells) == line && Texts(cells) == fields
      ensures ParseFields(line) == Some(fields) {
      RecordRoundTrip(cells);
    }
  }

  lemma EscapeFirst(text: string)
    ensures text != "" ==> Escape(text) == (if text[0] == '"' then "\"\"" else [text[0]]) + Escape(text[1..])
  {
  }

  // ----- white space around a line -----

  /** The text of a cell that ends a line whose trailing white space is cut off. */
  function Seen(cell: Cell): string {
    if cell.quoted then cell.text else TrimRight(cell.text)
  }

  function LastTrimmed(cells: seq<Cell>): (r: seq<Cell>)
    requires |cells| >= 1
    ensures |r| == |cells|
  {
    var last := cells[|cells| - 1];
    cells[|cells| - 1 := Cell(Seen(last), last.quoted)]
  }

  lemma LastTrimmedValid(cells: seq<Cell>)
    requires |cells| >= 1
    requires forall cell :: cell in cells ==> cell.Valid()
    ensures forall cell :: cell in LastTrimmed(cells) ==> cell.Valid()
  {
    var last := cells[|cells| - 1];
    assert last in cells && Seen(last) == last.text[..|Seen(last)|];
    assert Cell(Seen(last), last.quoted).Valid();
  }

  lemma {:induction false} TrimRightAfter(head: string, tail: string)
    requires head != "" && !IsSpace(head[|head| - 1])
    ensures TrimRight(head + tail) == head + TrimRight(tail)
    decreases |tail|
  {
    if tail == "" {
      assert head + tail == head;
    } else {
      var whole := head + tail;
      assert whole[..|whole| - 1] == head + tail[..|tail| - 1];
      if IsSpace(tail[|tail| - 1]) {
        TrimRightAfter(head, tail[..|tail| - 1]);
      }
    }
  }

  lemma {:induction false} PrintRecordLast(cells: seq<Cell>)
    requires |cells| >= 2
    ensures PrintRecord(cells) == PrintRecord(cells[..|cells| - 1]) + "," + PrintCell(cells[|cells| - 1])
  {
    hide PrintCell;
    if |cells| > 2 {
      PrintRecordLast(cells[1..]);
      assert cells[1..][..|cells| - 2] == cells[..|cells| - 1][1..];
    }
  }

  lemma TrimCell(cell: Cell)
    ensures TrimRight(PrintCell(cell)) == PrintCell(Cell(Seen(cell), cell.quoted))
  {
    if cell.quoted {
      var printed := PrintCell(cell);
      assert printed[|printed| - 1] == '"';
    }
  }

  /** Trimming a record that starts with a visible character trims its last field only. */
  lemma TrimRecord(cells: seq<Cell>)
    requires |cells| >= 2
    requires !cells[0].quoted && cells[0].text != "" && !IsSpace(cells[0].text[0])
    ensures TrimSpace(PrintRecord(cells)) == PrintRecord(LastTrimmed(cells))
  {
    hide PrintCell, TrimRight;
    var last := cells[|cells| - 1];
    var front := cells[..|cells| - 1];
    var head := PrintRecord(front) + ",";
    FirstCharacter(front);
    PrintRecordLast(cells);
    assert PrintRecord(cells) == head + PrintCell(last);
    TrimRightAfter(head, PrintCell(last));
    TrimCell(last);
    LastCellChanged(cells, Cell(Seen(last), last.quoted));
  }

  lemma FirstCharacter(cells: seq<Cell>)
    requires |cells| >= 1
    requires !cells[0].quoted && cells[0].text != ""
    ensures PrintRecord(cells) != "" && PrintRecord(cells)[0] == cells[0].text[0]
  {
  }

  lemma LastCellChanged(cells: seq<Cell>, last: Cell)
    requires |cells| >= 2
    ensures PrintRecord(cells[|cells| - 1 := last])
         == PrintRecord(cells[..|cells| - 1]) + "," + PrintCell(last)
  {
    hide PrintRecord, PrintCell;
    var changed := cells[|cells| - 1 := last];
    PrintRecordLast(changed);
    assert changed[..|cells| - 1] == cells[..|cells| - 1];
  }

  // ----- decimal numbers -----

  function Decimal(n: int): string {
    if n < 0 then "-" + Digits(-n) else Digits(n)
  }

  /** Every 64-bit integer is recovered from its decimal form. */
  lemma DecimalRoundTrip(n: int)
    requires Int64.InRange(n)
    ensures ParseInt(Decimal(n)) == Some(n)
    ensures NumberIn(Decimal(n)) == n
  {
    hide *;
    DecimalShape(n);
    DigitsRoundTrip(if n < 0 then -n else n);
    ParseSigned(n < 0, Digits(if n < 0 then -n else n));
    TrimFixed(Decimal(n));
    ParsedNumber(Decimal(n), n);
  }

  lemma DecimalShape(n: int)
    ensures var digits := Digits(if n < 0 then -n else n);
            Decimal(n) == (if n < 0 then ['-'] else []) + digits && AllDigits(digits)
    ensures Decimal(n) != "" && !IsSpace(Decimal(n)[0]) && !IsSpace(Decimal(n)[|Decimal(n)| - 1])
  {
    hide Digits;
    var digits := Digits(if n < 0 then -n else n);
    assert digits[0] in digits && digits[|digits| - 1] in digits;
  }

  lemma ParseSigned(negative: bool, digits: string)
    requires AllDigits(digits)
    ensures var value: int := if negative then 0 - DigitsValue(digits) else DigitsValue(digits);
            Int64.InRange(value) ==> ParseInt((if negative then ['-'] else []) + digits) == Some(value)
  {
    hide DigitsValue;
    assert (['-'] + digits)[1..] == digits && [] + digits == digits;
    assert digits[0] in digits;
  }

  lemma ParsedNumber(text: string, n: int)
    requires TrimSpace(text) == text && ParseInt(text) == Some(n)
    ensures NumberIn(text) == n
  {
    hide ParseInt, TrimSpace;
  }

  /** Anything but a decimal within 64 bits, with or without a sign, counts as 0. */
  lemma NumberOtherwise(text: string)
    requires NumberIn(text) != 0
    ensures exists digits ::
              && AllDigits(digits) && TrimSpace(text) in {digits, "+" + digits, "-" + digits}
              && NumberIn(text) == (if TrimSpace(text) == "-" + digits then 0 - DigitsValue(digits) else DigitsValue(digits))
  {
    hide TrimSpace;
    var digits := SignedDigits(TrimSpace(text));
  }

  lemma SignedDigits(s: string) returns (digits: string)
    requires ParseInt(s).Some?
    ensures AllDigits(digits) && s in {digits, "+" + digits, "-" + digits}
    ensures ParseInt(s).value == if s == "-" + digits then 0 - DigitsValue(digits) else DigitsValue(digits)
  {
    hide DigitsValue;
    digits := if s[0] == '-' || s[0] == '+' then s[1..] else s;
    assert digits != "" && forall c :: c in digits ==> IsDigit(c);
    assert s == [s[0]] + s[1..];
    assert digits[0] in digits;
  }

  lemma NumberIgnoresTail(text: string)
    ensures NumberIn(TrimRight(text)) == NumberIn(text)
  {
    hide TrimSpace, TrimRight, ParseInt;
    TrimIgnoresTail(text);
  }
}
