/**
 Printing an abstract inspection report and parsing the text: every row count,
 column total and extension list comes back.
 */
module InspectRoundTrip {
  import opened Wrappers
  import opened Strings
  import opened Decimals
  import opened InspectReport
  import opened Csv
  import opened Folds
  import Int64

  // ----- abstract reports -----

  datatype Table = Table(columns: seq<Cell>, rows: seq<seq<Cell>>) {
    ghost predicate Valid() {
      && |columns| >= 1
      && (forall cell :: cell in columns ==> cell.Valid())
      // A bare column name at the end of the line carries no trailing white space.
      && Seen(columns[|columns| - 1]) == columns[|columns| - 1].text
      && (forall i, j :: 0 <= i < j < |columns| ==> columns[i].text != columns[j].text)
      && (forall r :: 0 <= r < |rows| ==> ValidRow(rows[r]))
    }

    ghost predicate ValidRow(row: seq<Cell>) {
      |row| == |columns| && forall cell :: cell in row ==> cell.Valid()
    }
  }

  /** An overview pair besides the four that the parser knows. */
  datatype Extra = Extra(key: string, value: Cell) {
    ghost predicate Valid() {
      && value.Valid()
      && key != "" && key[0] != RULE && key !in KNOWN_KEYS && key != "key" && key != "#"
      && forall c :: c in key ==> !IsSpace(c) && c != ',' && c != '"'
    }
  }

  const KNOWN_KEYS: seq<string> := ["version", "generator", "extensionsUsed", "extensionsRequired"]

  datatype Report = Report(
    version: Cell,
    generator: Cell,
    extensionsUsed: seq<string>,
    extensionsRequired: seq<string>,
    extras: seq<Extra>,
    scenes: Table, meshes: Table, materials: Table, textures: Table, animations: Table)
  {
    ghost predicate Valid() {
      && version.Valid() && generator.Valid()
      && ValidNames(extensionsUsed) && ValidNames(extensionsRequired)
      && (forall extra :: extra in extras ==> extra.Valid())
      && scenes.Valid() && meshes.Valid() && materials.Valid() && textures.Valid() && animations.Valid()
    }
  }

  ghost predicate ValidName(name: string) {
    && name != "" && name != "none" && TrimSpace(name) == name
    && ',' !in name && '"' !in name && '\n' !in name && '\r' !in name
  }

  ghost predicate ValidNames(names: seq<string>) {
    forall name :: name in names ==> ValidName(name)
  }

  // ----- printing -----

  /** A list of names in one field: "none", the one name, or the names in quotes. */
  function ListCell(names: seq<string>): Cell {
    if names == [] then Cell("none", false) else Cell(Join(names, ", "), |names| >= 2)
  }

  function PairLine(key: string, value: Cell): string {
    PrintRecord([Cell(key, false), value])
  }

  function FirstPairs(report: Report): (r: seq<(string, Cell)>)
    ensures |r| == 4
  {
    [("version", report.version), ("generator", report.generator),
     ("extensionsUsed", ListCell(report.extensionsUsed)),
     ("extensionsRequired", ListCell(report.extensionsRequired))]
  }

  function Pairs(report: Report): (r: seq<(string, Cell)>)
    ensures |r| == 4 + |report.extras|
  {
    FirstPairs(report)
    + seq(|report.extras|, i requires 0 <= i < |report.extras| => (report.extras[i].key, report.extras[i].value))
  }

  function PairLines(pairs: seq<(string, Cell)>): (r: seq<string>)
    ensures |r| == |pairs|
  {
    seq(|pairs|, i requires 0 <= i < |pairs| => PairLine(pairs[i].0, pairs[i].1))
  }

  function RowRecord(index: nat, row: seq<Cell>): seq<Cell> {
    [Cell(Digits(index), false)] + row
  }

  function RowLines(rows: seq<seq<Cell>>): (r: seq<string>)
    ensures |r| == |rows|
  {
    seq(|rows|, i requires 0 <= i < |rows| => PrintRecord(RowRecord(i, rows[i])))
  }

  function HeaderLine(columns: seq<Cell>): string {
    PrintRecord([Cell("#", false)] + columns)
  }

  const RULER: string := " \U{2500}\U{2500}\U{2500}\U{2500}"
  const KEY_VALUE: string := "key,value"

  function TitleLines(title: string): seq<string> {
    [" " + title, RULER]
  }

  function TableLines(title: string, noun: string, table: Table): seq<string> {
    TitleLines(title)
    + (if table.rows == [] then ["No " + noun + " found."] else [HeaderLine(table.columns)] + RowLines(table.rows))
    + [""]
  }

  function OverviewLines(report: Report): seq<string> {
    TitleLines("OVERVIEW") + [KEY_VALUE] + PairLines(Pairs(report)) + [""]
  }

  function Lines(report: Report): seq<string> {
    OverviewLines(report)
    + TableLines("SCENES", "scenes", report.scenes)
    + TableLines("MESHES", "meshes", report.meshes)
    + TableLines("MATERIALS", "materials", report.materials)
    + TableLines("TEXTURES", "textures", report.textures)
    + TableLines("ANIMATIONS", "animations", report.animations)
  }

  function Print(report: Report): string {
    Join(Lines(report), "\n")
  }

  // ----- what should come back -----

  function ColumnOf(columns: seq<Cell>, name: string): (at: Option<nat>)
    ensures at.Some? ==> at.value < |columns| && columns[at.value].text == name
    ensures at.None? ==> forall i :: 0 <= i < |columns| ==> columns[i].text != name
  {
    if columns == [] then None
    else if columns[|columns| - 1].text == name then Some(|columns| - 1)
    else ColumnOf(columns[..|columns| - 1], name)
  }

  /** The number in the named column of a row; 0 without such a column. */
  function ValueIn(columns: seq<Cell>, row: seq<Cell>, name: string): int
    requires |row| == |columns|
  {
    var at := ColumnOf(columns, name);
    if at.None? then 0 else NumberIn(row[at.value].text)
  }

  ghost function ColumnTotal(columns: seq<Cell>, rows: seq<seq<Cell>>, name: string): int
    requires forall r :: 0 <= r < |rows| ==> |rows[r]| == |columns|
  {
    if rows == [] then 0
    else ColumnTotal(columns, rows[..|rows| - 1], name) + ValueIn(columns, rows[|rows| - 1], name)
  }

  ghost function Total(table: Table, name: string): int
    requires table.Valid()
  {
    Int64.Wrap(ColumnTotal(table.columns, table.rows, name))
  }

  // ----- what single lines mean -----

  lemma TrimIndented(t: string)
    requires t != "" && !IsSpace(t[0]) && !IsSpace(t[|t| - 1])
    ensures TrimSpace(" " + t) == t
  {
    assert (" " + t)[1..] == t;
    TrimFixed(t);
  }

  lemma TitleMeaning(title: string, section: Section)
    requires TitledBy(title) == section && section != Untitled
    requires !IsSkipped(title)
    requires title != "" && !IsSpace(title[0]) && !IsSpace(title[|title| - 1])
    ensures MeaningOf(" " + title) == Title(section)
  {
    hide TitledBy, IsSkipped, TrimSpace, ParseFields, IsSpace;
    TrimIndented(title);
  }

  lemma Titles()
    ensures MeaningOf(" " + "OVERVIEW") == Title(Overview)
    ensures MeaningOf(" " + "SCENES") == Title(Scenes)
    ensures MeaningOf(" " + "MESHES") == Title(Meshes)
    ensures MeaningOf(" " + "MATERIALS") == Title(Materials)
    ensures MeaningOf(" " + "TEXTURES") == Title(Textures)
    ensures MeaningOf(" " + "ANIMATIONS") == Title(Animations)
  {
    hide MeaningOf;
    var titles := ["OVERVIEW", "SCENES", "MESHES", "MATERIALS", "TEXTURES", "ANIMATIONS"];
    var sections := [Overview, Scenes, Meshes, Materials, Textures, Animations];
    forall i | 0 <= i < 6 ensures MeaningOf(" " + titles[i]) == Title(sections[i]) {
      assert titles[i][0] != 'N' && titles[i][0] != RULE;
      TitleMeaning(titles[i], sections[i]);
    }
    assert titles[0] == "OVERVIEW" && titles[1] == "SCENES" && titles[2] == "MESHES";
    assert titles[3] == "MATERIALS" && titles[4] == "TEXTURES" && titles[5] == "ANIMATIONS";
  }

  lemma SkippedMeaning(raw: string, line: string)
    requires TrimSpace(raw) == line && IsSkipped(line)
    ensures MeaningOf(raw) == Ignored
  {
  }

  lemma FillerMeaning(noun: string)
    ensures MeaningOf("") == Ignored
    ensures MeaningOf(RULER) == Ignored
    ensures MeaningOf("No " + noun + " found.") == Ignored
  {
    hide MeaningOf, TrimSpace;
    TrimFixed("");
    SkippedMeaning("", "");
    var rule := [RULE, RULE, RULE, RULE];
    assert RULER == " " + rule;
    TrimIndented(rule);
    SkippedMeaning(RULER, rule);
    var none := "No " + noun + " found.";
    TrimFixed(none);
    SkippedMeaning(none, none);
  }

  ghost predicate PlainStart(text: string) {
    && text != "" && text[0] != RULE
    && forall c :: c in text ==> !IsSpace(c) && c != ',' && c != '"'
  }

  lemma RecordIsNotSkipped(text: string, rest: string)
    requires PlainStart(text)
    ensures !IsSkipped(text + "," + rest)
    ensures TitledBy(text + "," + rest) == Untitled
  {
    var line := text + "," + rest;
    assert line[0] == text[0];
    assert line[|text|] == ',';
    assert |text| >= 3 ==> line[2] == text[2] && text[2] in text;
  }

  /** A written record that starts plainly means its fields, the last one as it is seen. */
  lemma RecordMeaning(cells: seq<Cell>)
    requires |cells| >= 2
    requires forall cell :: cell in cells ==> cell.Valid()
    requires !cells[0].quoted && PlainStart(cells[0].text)
    ensures var fields := Texts(LastTrimmed(cells));
            MeaningOf(PrintRecord(cells)) == if IsHeader(fields) then Header(fields) else Data(fields)
  {
    hide *;
    PlainStartVisible(cells[0].text);
    TrimRecord(cells);
    var kept := LastTrimmed(cells);
    LastTrimmedValid(cells);
    RecordRoundTrip(kept);
    RecordStart(cells);
    RecordIsNotSkipped(cells[0].text, PrintRecord(kept[1..]));
    PlainMeaning(PrintRecord(cells), PrintRecord(kept), Texts(kept));
  }

  lemma PlainStartVisible(text: string)
    requires PlainStart(text)
    ensures text != "" && !IsSpace(text[0])
  {
    assert text[0] in text;
  }

  lemma RecordStart(cells: seq<Cell>)
    requires |cells| >= 2 && !cells[0].quoted
    ensures PrintRecord(LastTrimmed(cells)) == cells[0].text + "," + PrintRecord(LastTrimmed(cells)[1..])
    ensures ',' in PrintRecord(LastTrimmed(cells))
  {
    hide TrimRight;
    assert LastTrimmed(cells)[0] == cells[0];
    assert PrintRecord(LastTrimmed(cells))[|cells[0].text|] == ',';
  }

  lemma PlainMeaning(raw: string, line: string, fields: seq<string>)
    requires TrimSpace(raw) == line && ParseFields(line) == Some(fields)
    requires ',' in line && !IsSkipped(line) && TitledBy(line) == Untitled
    ensures MeaningOf(raw) == if IsHeader(fields) then Header(fields) else Data(fields)
  {
    hide TrimSpace, ParseFields, IsSkipped, TitledBy, IsHeader;
  }

  // ----- what a table adds -----

  datatype Sums = Sums(renderVertices: int, uploadVertices: int, primitives: int, glPrimitives: int, size: int)

  /** The statistics after n rows of a section with these column sums. */
  function AfterRows(section: Section, stats: Inspection, n: nat, sums: Sums): Inspection {
    match section
    case Scenes =>
      stats.(
        sceneCount := stats.sceneCount + n,
        renderVertexCount := Int64.Wrap(stats.renderVertexCount + sums.renderVertices),
        uploadVertexCount := Int64.Wrap(stats.uploadVertexCount + sums.uploadVertices))
    case Meshes =>
      stats.(
        meshCount := stats.meshCount + n,
        meshPrimitiveCount := Int64.Wrap(stats.meshPrimitiveCount + sums.primitives),
        glPrimitiveCount := Int64.Wrap(stats.glPrimitiveCount + sums.glPrimitives),
        meshSizeBytes := Int64.Wrap(stats.meshSizeBytes + sums.size))
    case Materials => stats.(materialCount := stats.materialCount + n)
    case Textures => stats.(textureCount := stats.textureCount + n)
    case Animations => stats.(animationCount := stats.animationCount + n)
    case _ => stats
  }

  function Add(sums: Sums, cells: Cells): Sums {
    Sums(sums.renderVertices + cells.renderVertices, sums.uploadVertices + cells.uploadVertices,
         sums.primitives + cells.primitives, sums.glPrimitives + cells.glPrimitives, sums.size + cells.size)
  }

  lemma OneMoreRow(section: Section, stats: Inspection, n: nat, sums: Sums, cells: Cells)
    requires section != Overview && section != Untitled
    ensures Row(section, AfterRows(section, stats, n, sums), cells)
         == AfterRows(section, stats, n + 1, Add(sums, cells))
  {
    hide Int64.Wrap, OverviewRow;
    Int64.WrapSum(stats.renderVertexCount + sums.renderVertices, cells.renderVertices);
    Int64.WrapSum(stats.uploadVertexCount + sums.uploadVertices, cells.uploadVertices);
    Int64.WrapSum(stats.meshPrimitiveCount + sums.primitives, cells.primitives);
    Int64.WrapSum(stats.glPrimitiveCount + sums.glPrimitives, cells.glPrimitives);
    Int64.WrapSum(stats.meshSizeBytes + sums.size, cells.size);
  }

  ghost function SumsOf(table: Table, n: nat): Sums
    requires table.Valid() && n <= |table.rows|
  {
    var rows := table.rows[..n];
    Sums(ColumnTotal(table.columns, rows, RENDER_VERTICES), ColumnTotal(table.columns, rows, UPLOAD_VERTICES),
         ColumnTotal(table.columns, rows, MESH_PRIMITIVES), ColumnTotal(table.columns, rows, GL_PRIMITIVES),
         ColumnTotal(table.columns, rows, SIZE))
  }

  /** The header as it is seen, and what it says about a column. */
  function SeenHeader(columns: seq<Cell>): (r: seq<string>)
    ensures |r| == |columns| + 1
  {
    ["#"] + Texts(columns)
  }

  lemma HeaderCell(columns: seq<Cell>, i: nat)
    requires 1 <= i <= |columns|
    ensures SeenHeader(columns)[i] == columns[i - 1].text
  {
  }

  lemma NoSuchColumn(columns: seq<Cell>, name: string)
    requires name != "#" && ColumnOf(columns, name).None?
    ensures name !in HeaderIndex(SeenHeader(columns))
  {
    hide HeaderIndex, ColumnOf, SeenHeader;
    var header := SeenHeader(columns);
    if name in header {
      var i :| 0 <= i < |header| && header[i] == name;
      if i == 0 {
        FirstHeaderCell(columns);
      } else {
        HeaderCell(columns, i);
      }
    }
  }

  lemma FirstHeaderCell(columns: seq<Cell>)
    ensures SeenHeader(columns)[0] == "#"
  {
  }

  lemma HeaderPlaces(columns: seq<Cell>, name: string)
    requires name != "#" && ColumnOf(columns, name).Some?
    requires forall i, j :: 0 <= i < j < |columns| ==> columns[i].text != columns[j].text
    ensures name in HeaderIndex(SeenHeader(columns))
    ensures HeaderIndex(SeenHeader(columns))[name] == ColumnOf(columns, name).value + 1
  {
    hide HeaderIndex, ColumnOf, SeenHeader;
    var header := SeenHeader(columns);
    var at := ColumnOf(columns, name).value;
    HeaderCell(columns, at + 1);
    FirstHeaderCell(columns);
    assert header[at + 1] == name;
    var k := HeaderIndex(header)[name];
    assert header[k] == name && k != 0;
    HeaderCell(columns, k);
    assert columns[k - 1].text == columns[at].text;
  }

  lemma SeenFields(index: nat, row: seq<Cell>, i: nat)
    requires 1 <= i <= |row|
    ensures |Texts(LastTrimmed(RowRecord(index, row)))| == |row| + 1
    ensures NumberIn(Texts(LastTrimmed(RowRecord(index, row)))[i]) == NumberIn(row[i - 1].text)
  {
    hide NumberIn, Digits, TrimRight;
    NumberIgnoresTail(row[i - 1].text);
  }

  lemma FieldUnderHeader(table: Table, index: nat, row: seq<Cell>, name: string)
    requires table.Valid() && table.ValidRow(row) && name != "#"
    ensures IntField(Texts(LastTrimmed(RowRecord(index, row))), HeaderIndex(SeenHeader(table.columns)), name)
         == ValueIn(table.columns, row, name)
  {
    hide NumberIn, HeaderIndex, ColumnOf, SeenHeader, LastTrimmed, RowRecord, Texts;
    var at := ColumnOf(table.columns, name);
    if at.None? {
      NoSuchColumn(table.columns, name);
      EmptyIsZero();
    } else {
      HeaderPlaces(table.columns, name);
      SeenFields(index, row, at.value + 1);
    }
  }

  lemma EmptyIsZero()
    ensures NumberIn("") == 0
  {
    TrimFixed("");
  }

  lemma CellsUnderHeader(table: Table, index: nat, row: seq<Cell>)
    requires table.Valid() && table.ValidRow(row)
    ensures var cells := CellsOf(Texts(LastTrimmed(RowRecord(index, row))), HeaderIndex(SeenHeader(table.columns)));
            && cells.renderVertices == ValueIn(table.columns, row, RENDER_VERTICES)
            && cells.uploadVertices == ValueIn(table.columns, row, UPLOAD_VERTICES)
            && cells.primitives == ValueIn(table.columns, row, MESH_PRIMITIVES)
            && cells.glPrimitives == ValueIn(table.columns, row, GL_PRIMITIVES)
            && cells.size == ValueIn(table.columns, row, SIZE)
  {
    hide IntField, HeaderIndex, ValueIn, SeenHeader, LastTrimmed, RowRecord, Texts, Table.Valid, Table.ValidRow;
    FieldUnderHeader(table, index, row, RENDER_VERTICES);
    FieldUnderHeader(table, index, row, UPLOAD_VERTICES);
    FieldUnderHeader(table, index, row, MESH_PRIMITIVES);
    FieldUnderHeader(table, index, row, GL_PRIMITIVES);
    FieldUnderHeader(table, index, row, SIZE);
  }

  lemma RowRecordMeaning(index: nat, row: seq<Cell>)
    requires |row| >= 1 && forall cell :: cell in row ==> cell.Valid()
    ensures MeaningOf(PrintRecord(RowRecord(index, row))) == Data(Texts(LastTrimmed(RowRecord(index, row))))
  {
    hide MeaningOf, PrintRecord, Digits;
    var record := RowRecord(index, row);
    var digits := Digits(index);
    assert forall c :: c in digits ==> IsDigit(c);
    assert digits[0] in digits;
    assert Cell(digits, false).Valid();
    RecordMeaning(record);
    assert Texts(LastTrimmed(record))[0] == digits;
  }

  lemma HeaderLineMeaning(table: Table)
    requires table.Valid()
    ensures MeaningOf(HeaderLine(table.columns)) == Header(SeenHeader(table.columns))
  {
    hide MeaningOf, PrintRecord, TrimRight;
    var record := [Cell("#", false)] + table.columns;
    assert Cell("#", false).Valid();
    RecordMeaning(record);
    assert LastTrimmed(record) == record;
    assert Texts(record) == SeenHeader(table.columns);
  }

  lemma {:induction false} RowsRun(table: Table, section: Section, stats: Inspection, n: nat)
    requires table.Valid() && n <= |table.rows|
    requires section != Overview && section != Untitled
    requires InRange(stats)
    ensures var headers := HeaderIndex(SeenHeader(table.columns));
            Run(Apply, ParserState(stats, section, headers), Meanings(RowLines(table.rows))[..n])
            == Some(ParserState(AfterRows(section, stats, n, SumsOf(table, n)), section, headers))
  {
    hide Row, AfterRows, CellsOf, HeaderIndex, SeenHeader, MeaningOf;
    var headers := HeaderIndex(SeenHeader(table.columns));
    var meanings := Meanings(RowLines(table.rows));
    var start := ParserState(stats, section, headers);
    if n == 0 {
      NoRows(section, stats, SumsOf(table, 0));
    } else {
      var row := table.rows[n - 1];
      RowsRun(table, section, stats, n - 1);
      PrefixStep(meanings, n - 1);
      RunSnoc(Apply, start, meanings[..n - 1], meanings[n - 1]);
      RowRecordMeaning(n - 1, row);
      CellsUnderHeader(table, n - 1, row);
      var cells := CellsOf(Texts(LastTrimmed(RowRecord(n - 1, row))), headers);
      OneMoreRow(section, stats, n - 1, SumsOf(table, n - 1), cells);
      SumsGrow(table, n, cells);
    }
  }

  lemma SumsGrow(table: Table, n: nat, cells: Cells)
    requires table.Valid() && 1 <= n <= |table.rows|
    requires cells.renderVertices == ValueIn(table.columns, table.rows[n - 1], RENDER_VERTICES)
    requires cells.uploadVertices == ValueIn(table.columns, table.rows[n - 1], UPLOAD_VERTICES)
    requires cells.primitives == ValueIn(table.columns, table.rows[n - 1], MESH_PRIMITIVES)
    requires cells.glPrimitives == ValueIn(table.columns, table.rows[n - 1], GL_PRIMITIVES)
    requires cells.size == ValueIn(table.columns, table.rows[n - 1], SIZE)
    ensures SumsOf(table, n) == Add(SumsOf(table, n - 1), cells)
  {
    hide ValueIn;
    assert table.rows[..n][..n - 1] == table.rows[..n - 1];
  }

  predicate InRange(stats: Inspection) {
    && Int64.InRange(stats.renderVertexCount) && Int64.InRange(stats.uploadVertexCount)
    && Int64.InRange(stats.meshPrimitiveCount) && Int64.InRange(stats.glPrimitiveCount)
    && Int64.InRange(stats.meshSizeBytes)
  }

  lemma NoRows(section: Section, stats: Inspection, sums: Sums)
    requires InRange(stats) && sums == Sums(0, 0, 0, 0, 0)
    ensures AfterRows(section, stats, 0, sums) == stats
  {
  }

  /** A printed table advances the parser by its rows. */
  lemma TableRun(state: ParserState, title: string, noun: string, section: Section, table: Table)
    requires table.Valid() && InRange(state.stats)
    requires section != Overview && section != Untitled
    requires MeaningOf(" " + title) == Title(section)
    ensures var end := Run(Apply, state, Meanings(TableLines(title, noun, table)));
            && end.Some?
            && end.value.stats == AfterRows(section, state.stats, |table.rows|, SumsOf(table, |table.rows|))
  {
    hide Row, AfterRows, CellsOf, HeaderIndex, SeenHeader, MeaningOf, Meanings, TableLines, Apply, Run, Table.Valid;
    TableMeanings(title, noun, section, table);
    if table.rows == [] {
      NoRows(section, state.stats, SumsOf(table, 0));
      FourIgnored(state, section);
    } else {
      var rows := Meanings(RowLines(table.rows));
      RowsRun(table, section, state.stats, |table.rows|);
      assert rows[..|table.rows|] == rows;
      UnderHeader(state, section, SeenHeader(table.columns), rows);
    }
  }

  lemma TableMeanings(title: string, noun: string, section: Section, table: Table)
    requires table.Valid()
    requires MeaningOf(" " + title) == Title(section)
    ensures Meanings(TableLines(title, noun, table))
         == if table.rows == [] then [Title(section), Ignored, Ignored, Ignored]
            else [Title(section), Ignored, Header(SeenHeader(table.columns))] + Meanings(RowLines(table.rows)) + [Ignored]
  {
    hide SeenHeader, MeaningOf;
    FillerMeaning(noun);
    HeaderLineMeaning(table);
  }

  /** A title, an ignored line and a header set the section and the columns for what follows. */
  lemma UnderHeader(state: ParserState, section: Section, columns: seq<string>, body: seq<Meaning>)
    ensures Run(Apply, state, [Title(section), Ignored, Header(columns)] + body + [Ignored])
         == Run(Apply, ParserState(state.stats, section, HeaderIndex(columns)), body)
  {
    hide Row, CellsOf, HeaderIndex, Run;
    var header := [Title(section), Ignored, Header(columns)];
    HeaderRun(state, section, columns);
    RunConcat(Apply, state, header, body);
    RunSnoc(Apply, state, header + body, Ignored);
  }

  lemma FourIgnored(state: ParserState, section: Section)
    ensures Run(Apply, state, [Title(section), Ignored, Ignored, Ignored])
         == Some(ParserState(state.stats, section, map[]))
  {
    hide Row, CellsOf, HeaderIndex;
    var begun := ParserState(state.stats, section, map[]);
    RunOne(Apply, state, Title(section));
    RunSnoc(Apply, state, [Title(section)], Ignored);
    assert [Title(section)] + [Ignored] == [Title(section), Ignored];
    RunSnoc(Apply, state, [Title(section), Ignored], Ignored);
    assert [Title(section), Ignored] + [Ignored] == [Title(section), Ignored, Ignored];
    RunSnoc(Apply, state, [Title(section), Ignored, Ignored], Ignored);
    assert [Title(section), Ignored, Ignored] + [Ignored] == [Title(section), Ignored, Ignored, Ignored];
  }

  lemma HeaderRun(state: ParserState, section: Section, columns: seq<string>)
    ensures Run(Apply, state, [Title(section), Ignored, Header(columns)])
         == Some(ParserState(state.stats, section, HeaderIndex(columns)))
  {
    hide Row, CellsOf, HeaderIndex;
    RunOne(Apply, state, Title(section));
    RunSnoc(Apply, state, [Title(section)], Ignored);
    assert [Title(section)] + [Ignored] == [Title(section), Ignored];
    RunSnoc(Apply, state, [Title(section), Ignored], Header(columns));
    assert [Title(section), Ignored] + [Header(columns)] == [Title(section), Ignored, Header(columns)];
  }

  // ----- extension lists -----

  lemma TrimmedName(name: string, prefix: string)
    requires ValidName(name) && prefix in ["", " "]
    ensures TrimSpace(prefix + name) == name
    ensures TrimRight(name) == name
  {
    hide IsSpace, TrimLeft;
    var left := TrimLeft(name);
    assert name == TrimRight(left);
    assert |left| == |name| && left == name;
    assert !IsSpace(name[0]) && !IsSpace(name[|name| - 1]);
    TrimIndented(name);
    assert "" + name == name;
  }

  lemma {:induction false} NamesRoundTrip(names: seq<string>, prefix: string)
    requires |names| >= 1 && ValidNames(names) && prefix in ["", " "]
    ensures KeepNamed(Split(prefix + Join(names, ", "), ',')) == names
  {
    hide TrimSpace, Split, ValidName;
    var first := prefix + names[0];
    TrimmedName(names[0], prefix);
    NameWithoutComma(names[0], prefix);
    if |names| == 1 {
      assert Join(names, ", ") == names[0];
      KeepFirst(first, [], names[0]);
    } else {
      var rest := " " + Join(names[1..], ", ");
      NamesRoundTrip(names[1..], " ");
      assert prefix + Join(names, ", ") == first + [','] + rest;
      SplitConcat(first, ',', rest);
      KeepFirst(first, Split(rest, ','), names[0]);
    }
  }

  lemma NameWithoutComma(name: string, prefix: string)
    requires ValidName(name) && prefix in ["", " "]
    ensures Split(prefix + name, ',') == [prefix + name]
    ensures name != "" && name != "none"
  {
    SplitWithout(prefix + name, ',');
  }

  lemma KeepFirst(part: string, rest: seq<string>, name: string)
    requires TrimSpace(part) == name && name != "" && name != "none"
    ensures KeepNamed([part] + rest) == [name] + KeepNamed(rest)
  {
    hide TrimSpace;
    assert ([part] + rest)[1..] == rest;
  }

  lemma {:induction false} JoinedHas(names: seq<string>)
    requires |names| >= 2
    ensures ',' in Join(names, ", ")
  {
    assert Join(names, ", ") == names[0] + ", " + Join(names[1..], ", ");
    assert Join(names, ", ")[|names[0]|] == ',';
  }

  lemma {:induction false} JoinedWithout(names: seq<string>, c: char)
    requires c != ',' && c != ' '
    requires forall name :: name in names ==> c !in name
    ensures c !in Join(names, ", ")
  {
    if |names| >= 2 {
      JoinedWithout(names[1..], c);
    }
  }

  lemma NoNames()
    ensures SplitListOf(Seen(ListCell([]))) == []
    ensures ListCell([]).Valid()
  {
    assert TrimRight("none") == "none";
  }

  lemma ListText(text: string)
    requires ',' in text || (text != "" && text != "none")
    ensures SplitListOf(text) == KeepNamed(Split(text, ','))
  {
  }

  lemma ListRoundTrip(names: seq<string>)
    requires ValidNames(names)
    ensures ListCell(names).Valid()
    ensures SplitListOf(Seen(ListCell(names))) == names
  {
    NoNames();
    hide Split, KeepNamed, TrimSpace, TrimRight, IsSpace, SplitListOf;
    if names != [] {
      var text := Join(names, ", ");
      NamesRoundTrip(names, "");
      assert "" + text == text;
      JoinedWithout(names, '\n');
      if |names| >= 2 {
        JoinedHas(names);
      } else {
        TrimmedName(names[0], "");
      }
      ListText(text);
    }
  }

  // ----- the overview -----

  lemma PairMeaning(key: string, value: Cell)
    requires PlainStart(key) && value.Valid()
    ensures MeaningOf(PairLine(key, value))
         == if key == "key" || key == "#" then Header([key, Seen(value)]) else Data([key, Seen(value)])
  {
    hide MeaningOf, PrintRecord, TrimRight;
    var record := [Cell(key, false), value];
    assert IsSpace('\n') && IsSpace('\r');
    RecordMeaning(record);
    assert Texts(LastTrimmed(record)) == [key, Seen(value)];
  }

  /** Overview pairs, applied one after the other. */
  function WithPairs(stats: Inspection, pairs: seq<(string, Cell)>): Inspection {
    if pairs == [] then stats
    else
      var last := pairs[|pairs| - 1];
      OverviewRow(WithPairs(stats, pairs[..|pairs| - 1]), last.0, Seen(last.1))
  }

  ghost predicate ValidPairs(pairs: seq<(string, Cell)>) {
    forall i :: 0 <= i < |pairs| ==>
      PairKey(pairs[i].0) && pairs[i].1.Valid()
  }

  ghost predicate PairKey(key: string) {
    PlainStart(key) && key != "key" && key != "#"
  }

  lemma {:induction false} PairsRun(state: ParserState, pairs: seq<(string, Cell)>, n: nat)
    requires state.section == Overview && ValidPairs(pairs) && n <= |pairs|
    ensures Run(Apply, state, Meanings(PairLines(pairs))[..n])
         == Some(state.(stats := WithPairs(state.stats, pairs[..n])))
  {
    hide MeaningOf, OverviewRow, Seen, PairKey, Cell.Valid, CellsOf, HeaderIndex, Row;
    var meanings := Meanings(PairLines(pairs));
    if n > 0 {
      PairsRun(state, pairs, n - 1);
      PairKeyMeaning(pairs[n - 1].0, pairs[n - 1].1);
      PrefixStep(meanings, n - 1);
      PrefixStep(pairs, n - 1);
      RunSnoc(Apply, state, meanings[..n - 1], meanings[n - 1]);
      RowOfPair(WithPairs(state.stats, pairs[..n - 1]), pairs[n - 1], state.headers);
      assert pairs[..n][..n - 1] == pairs[..n - 1];
    }
  }

  lemma PairKeyMeaning(key: string, value: Cell)
    requires PairKey(key) && value.Valid()
    ensures MeaningOf(PairLine(key, value)) == Data([key, Seen(value)])
  {
    hide PlainStart, MeaningOf, PrintRecord, Cell.Valid, Seen;
    PairMeaning(key, value);
  }

  lemma RowOfPair(stats: Inspection, pair: (string, Cell), headers: map<string, nat>)
    ensures Row(Overview, stats, CellsOf([pair.0, Seen(pair.1)], headers)) == OverviewRow(stats, pair.0, Seen(pair.1))
  {
    hide IntField, OverviewRow, Seen;
  }

  function OverviewStats(report: Report, stats: Inspection): Inspection {
    stats.(version := Seen(report.version),
           generator := Seen(report.generator),
           extensionsUsed := report.extensionsUsed,
           extensionsRequired := report.extensionsRequired)
  }

  lemma KnownPairs(stats: Inspection, v: string)
    ensures OverviewRow(stats, "version", v) == stats.(version := v)
    ensures OverviewRow(stats, "generator", v) == stats.(generator := v)
    ensures OverviewRow(stats, "extensionsUsed", v) == stats.(extensionsUsed := SplitListOf(v))
    ensures OverviewRow(stats, "extensionsRequired", v) == stats.(extensionsRequired := SplitListOf(v))
  {
    hide SplitListOf;
  }

  lemma ExtraPair(stats: Inspection, extra: Extra)
    requires extra.Valid()
    ensures OverviewRow(stats, extra.key, Seen(extra.value)) == stats
    ensures PlainStart(extra.key)
  {
    hide SplitListOf, Seen, IsSpace;
  }

  lemma {:induction false} PairsStats(report: Report, stats: Inspection, n: nat)
    requires report.Valid() && 4 <= n <= |Pairs(report)|
    ensures WithPairs(stats, Pairs(report)[..n]) == OverviewStats(report, stats)
    decreases n
  {
    hide OverviewRow, SplitListOf, Seen, Extra.Valid, ValidNames, ListCell;
    var pairs := Pairs(report);
    PrefixStep(pairs, n - 1);
    assert pairs[..n][..n - 1] == pairs[..n - 1];
    if n == 4 {
      FourPairs(report, stats);
      assert pairs[..4] == FirstPairs(report);
    } else {
      PairsStats(report, stats, n - 1);
      assert report.extras[n - 5] in report.extras;
      ExtraPair(OverviewStats(report, stats), report.extras[n - 5]);
    }
  }

  lemma PairsSnoc(stats: Inspection, pairs: seq<(string, Cell)>, pair: (string, Cell))
    ensures WithPairs(stats, pairs + [pair]) == OverviewRow(WithPairs(stats, pairs), pair.0, Seen(pair.1))
  {
    hide OverviewRow, Seen;
    assert (pairs + [pair])[..|pairs|] == pairs;
  }

  lemma FourPairs(report: Report, stats: Inspection)
    requires report.Valid()
    ensures WithPairs(stats, FirstPairs(report)) == OverviewStats(report, stats)
  {
    hide OverviewRow, SplitListOf, Seen, ValidNames, ListCell, WithPairs;
    var p := FirstPairs(report);
    var s0 := WithPairs(stats, []);
    NoPairs(stats);
    PairsSnoc(stats, [], p[0]);
    PairsSnoc(stats, [p[0]], p[1]);
    PairsSnoc(stats, [p[0], p[1]], p[2]);
    PairsSnoc(stats, [p[0], p[1], p[2]], p[3]);
    assert [] + [p[0]] == [p[0]] && [p[0]] + [p[1]] == [p[0], p[1]];
    assert [p[0], p[1]] + [p[2]] == [p[0], p[1], p[2]] && [p[0], p[1], p[2]] + [p[3]] == p;
    KnownPairs(stats, Seen(report.version));
    var s1 := stats.(version := Seen(report.version));
    KnownPairs(s1, Seen(report.generator));
    var s2 := s1.(generator := Seen(report.generator));
    ListRoundTrip(report.extensionsUsed);
    KnownPairs(s2, Seen(ListCell(report.extensionsUsed)));
    var s3 := s2.(extensionsUsed := report.extensionsUsed);
    ListRoundTrip(report.extensionsRequired);
    KnownPairs(s3, Seen(ListCell(report.extensionsRequired)));
  }

  lemma NoPairs(stats: Inspection)
    ensures WithPairs(stats, []) == stats
  {
  }

  lemma OverviewRun(state: ParserState, report: Report)
    requires report.Valid()
    ensures var end := Run(Apply, state, Meanings(OverviewLines(report)));
            end.Some? && end.value.stats == OverviewStats(report, state.stats)
  {
    Titles();
    KeyValueMeaning();
    hide Row, CellsOf, HeaderIndex, MeaningOf, OverviewRow, ListCell, Extra.Valid;
    FillerMeaning("");
    var pairs := Pairs(report);
    var body := Meanings(PairLines(pairs));
    var header := [Title(Overview), Ignored, Header(["key", "value"])];
    assert Meanings(OverviewLines(report)) == header + body + [Ignored];
    var under := ParserState(state.stats, Overview, HeaderIndex(["key", "value"]));
    PairsAreValid(report);
    PairsRun(under, pairs, |pairs|);
    PairsStats(report, state.stats, |pairs|);
    assert body[..|pairs|] == body && pairs[..|pairs|] == pairs;
    UnderHeader(state, Overview, ["key", "value"], body);
  }

  lemma KeyValueMeaning()
    ensures MeaningOf(KEY_VALUE) == Header(["key", "value"])
  {
    var value := Cell("value", false);
    assert PairLine("key", value) == KEY_VALUE;
    assert TrimRight("value") == "value";
    hide MeaningOf, PrintRecord, TrimRight;
    PairMeaning("key", value);
  }

  lemma Word(key: string)
    requires |key| > 3
    requires forall i :: 0 <= i < |key| ==> 'A' <= key[i] <= 'z'
    ensures PairKey(key)
  {
  }

  lemma KnownKeysAreWords()
    ensures PairKey("version") && PairKey("generator")
    ensures PairKey("extensionsUsed") && PairKey("extensionsRequired")
  {
    hide PairKey;
    Word("version");
    Word("generator");
    Word("extensionsUsed");
    Word("extensionsRequired");
  }

  lemma FirstPairsAreValid(report: Report)
    requires report.Valid()
    ensures ValidPairs(FirstPairs(report))
  {
    ListRoundTrip(report.extensionsUsed);
    ListRoundTrip(report.extensionsRequired);
    KnownKeysAreWords();
    hide *;
    FourValidPairs(report.version, report.generator,
                   ListCell(report.extensionsUsed), ListCell(report.extensionsRequired));
  }

  lemma FourValidPairs(version: Cell, generator: Cell, used: Cell, required: Cell)
    requires version.Valid() && generator.Valid() && used.Valid() && required.Valid()
    requires PairKey("version") && PairKey("generator")
    requires PairKey("extensionsUsed") && PairKey("extensionsRequired")
    ensures ValidPairs([("version", version), ("generator", generator),
                        ("extensionsUsed", used), ("extensionsRequired", required)])
  {
    hide Cell.Valid, PairKey;
  }

  lemma PairsAreValid(report: Report)
    requires report.Valid()
    ensures ValidPairs(Pairs(report))
  {
    FirstPairsAreValid(report);
    hide ListCell, ValidNames, Cell.Valid, Table.Valid, PlainStart, FirstPairs;
    var pairs := Pairs(report);
    forall i | 4 <= i < |pairs|
      ensures PairKey(pairs[i].0) && pairs[i].1.Valid()
    {
      var extra := report.extras[i - 4];
      assert extra in report.extras;
      ExtraPair(EmptyInspection(""), extra);
    }
    assert forall i :: 0 <= i < 4 ==> pairs[i] == FirstPairs(report)[i];
  }

  // ----- the whole report -----

  /** Where a report's lines end, the parser knows everything the report holds. */
  lemma ReportRun(state: ParserState, report: Report)
    requires report.Valid() && InRange(state.stats)
    ensures var end := Run(Apply, state, Meanings(Lines(report)));
            end.Some? && end.value.stats == ReportStats(report, state.stats)
  {
    Titles();
    hide MeaningOf, Apply, Table.Valid, Cell.Valid, Extra.Valid, TableLines, OverviewLines, OverviewStats, AfterRows, Run, SumsOf;
    var overview := OverviewLines(report);
    OverviewRun(state, report);
    OverviewStays(report, state.stats);
    var r0 := Run(Apply, state, Meanings(overview)).value;
    var s2 := SectionRun(state, overview, r0, "SCENES", "scenes", Scenes, report.scenes);
    var l2 := overview + TableLines("SCENES", "scenes", report.scenes);
    var s3 := SectionRun(state, l2, s2, "MESHES", "meshes", Meshes, report.meshes);
    var l3 := l2 + TableLines("MESHES", "meshes", report.meshes);
    var s4 := SectionRun(state, l3, s3, "MATERIALS", "materials", Materials, report.materials);
    var l4 := l3 + TableLines("MATERIALS", "materials", report.materials);
    var s5 := SectionRun(state, l4, s4, "TEXTURES", "textures", Textures, report.textures);
    var l5 := l4 + TableLines("TEXTURES", "textures", report.textures);
    var s6 := SectionRun(state, l5, s5, "ANIMATIONS", "animations", Animations, report.animations);
  }

  ghost function Counted(section: Section, stats: Inspection, table: Table): Inspection
    requires table.Valid()
  {
    AfterRows(section, stats, |table.rows|, SumsOf(table, |table.rows|))
  }

  ghost function ReportStats(report: Report, stats: Inspection): Inspection
    requires report.Valid()
  {
    var s0 := OverviewStats(report, stats);
    var s1 := Counted(Scenes, s0, report.scenes);
    var s2 := Counted(Meshes, s1, report.meshes);
    var s3 := Counted(Materials, s2, report.materials);
    var s4 := Counted(Textures, s3, report.textures);
    Counted(Animations, s4, report.animations)
  }

  lemma OverviewStays(report: Report, stats: Inspection)
    requires InRange(stats)
    ensures InRange(OverviewStats(report, stats))
  {
  }

  lemma CountedStays(section: Section, stats: Inspection, table: Table)
    requires table.Valid() && InRange(stats)
    ensures InRange(Counted(section, stats, table))
  {
    hide SumsOf, Int64.Wrap;
  }

  /** One more table after the lines so far. */
  lemma SectionRun(state: ParserState, lines: seq<string>, reached: ParserState,
                   title: string, noun: string, section: Section, table: Table)
    returns (end: ParserState)
    requires Run(Apply, state, Meanings(lines)) == Some(reached)
    requires table.Valid() && InRange(reached.stats)
    requires section != Overview && section != Untitled
    requires MeaningOf(" " + title) == Title(section)
    ensures Run(Apply, state, Meanings(lines + TableLines(title, noun, table))) == Some(end)
    ensures end.stats == Counted(section, reached.stats, table) && InRange(end.stats)
  {
    hide MeaningOf, Apply, Table.Valid, TableLines, AfterRows, Run, SumsOf, Int64.InRange;
    TableRun(reached, title, noun, section, table);
    var more := TableLines(title, noun, table);
    assert Meanings(lines + more) == Meanings(lines) + Meanings(more);
    RunConcat(Apply, state, Meanings(lines), Meanings(more));
    end := Run(Apply, reached, Meanings(more)).value;
    CountedStays(section, reached.stats, table);
  }

  // ----- no line contains a line break -----

  ghost predicate OneLine(s: string) {
    '\n' !in s
  }

  ghost predicate AllOneLine(lines: seq<string>) {
    forall line :: line in lines ==> OneLine(line)
  }

  lemma {:induction false} EscapeOneLine(text: string)
    requires OneLine(text)
    ensures OneLine(Escape(text))
  {
    if text != "" {
      EscapeOneLine(text[1..]);
    }
  }

  lemma {:induction false} RecordOneLine(cells: seq<Cell>)
    requires |cells| >= 1 && forall cell :: cell in cells ==> cell.Valid()
    ensures OneLine(PrintRecord(cells))
  {
    assert cells[0] in cells && cells[0].Valid();
    EscapeOneLine(cells[0].text);
    hide Escape;
    if |cells| > 1 {
      RecordOneLine(cells[1..]);
    }
  }

  lemma TableOneLine(title: string, noun: string, table: Table)
    requires table.Valid() && OneLine(title) && OneLine(noun)
    ensures AllOneLine(TableLines(title, noun, table))
  {
    hide PrintRecord, Digits;
    assert Cell("#", false).Valid();
    RecordOneLine([Cell("#", false)] + table.columns);
    forall i | 0 <= i < |table.rows| ensures OneLine(RowLines(table.rows)[i]) {
      assert table.ValidRow(table.rows[i]);
      assert Cell(Digits(i), false).Valid();
      RecordOneLine(RowRecord(i, table.rows[i]));
    }
  }

  lemma OverviewOneLine(report: Report)
    requires report.Valid()
    ensures AllOneLine(OverviewLines(report))
  {
    PairsAreValid(report);
    hide PrintRecord, Pairs, Table.Valid;
    var pairs := Pairs(report);
    assert IsSpace('\n');
    forall i | 0 <= i < |pairs| ensures OneLine(PairLines(pairs)[i]) {
      PairOneLine(pairs[i].0, pairs[i].1);
    }
  }

  lemma PairOneLine(key: string, value: Cell)
    requires PairKey(key) && value.Valid()
    ensures OneLine(PairLine(key, value))
  {
    hide PrintRecord;
    assert IsSpace('\n') && IsSpace('\r');
    assert Cell(key, false).Valid();
    RecordOneLine([Cell(key, false), value]);
  }

  lemma LinesOneLine(report: Report)
    requires report.Valid()
    ensures AllOneLine(Lines(report))
  {
    hide TableLines, OverviewLines, Table.Valid, OneLine;
    TitlesOneLine();
    OverviewOneLine(report);
    TableOneLine("SCENES", "scenes", report.scenes);
    TableOneLine("MESHES", "meshes", report.meshes);
    TableOneLine("MATERIALS", "materials", report.materials);
    TableOneLine("TEXTURES", "textures", report.textures);
    TableOneLine("ANIMATIONS", "animations", report.animations);
  }

  lemma TitlesOneLine()
    ensures OneLine("SCENES") && OneLine("MESHES") && OneLine("MATERIALS") && OneLine("TEXTURES") && OneLine("ANIMATIONS")
    ensures OneLine("scenes") && OneLine("meshes") && OneLine("materials") && OneLine("textures") && OneLine("animations")
  {
  }

  // ----- the round trip -----

  /**
   Parsing the printed report succeeds and gives back the version, the
   generator, both extension lists, the number of rows of every table, every
   column total in 64 bits, and the compression flag.
   */
  lemma RoundTrip(report: Report)
    requires report.Valid()
    ensures Parsed(Print(report)).Some?
    ensures Recovers(Parsed(Print(report)).value, report)
    ensures Parsed(Print(report)).value.usesDracoCompression
       <==> "KHR_draco_mesh_compression" in report.extensionsUsed
            || "KHR_draco_mesh_compression" in report.extensionsRequired
  {
    var text := Print(report);
    LinesOneLine(report);
    hide MeaningOf, Apply, Table.Valid, TableLines, OverviewLines, Run, Total, ReportStats, Meanings;
    SplitJoin(Lines(report), '\n');
    ReportRun(Initial(text), report);
    StatsRecover(report, text);
  }

  /** The statistics say what the report holds. */
  ghost predicate Recovers(got: Inspection, report: Report)
    requires report.Valid()
  {
    && got.version == Seen(report.version) && got.generator == Seen(report.generator)
    && got.extensionsUsed == report.extensionsUsed
    && got.extensionsRequired == report.extensionsRequired
    && got.sceneCount == |report.scenes.rows| && got.meshCount == |report.meshes.rows|
    && got.materialCount == |report.materials.rows| && got.textureCount == |report.textures.rows|
    && got.animationCount == |report.animations.rows|
    && got.renderVertexCount == Total(report.scenes, "renderVertexCount")
    && got.uploadVertexCount == Total(report.scenes, "uploadVertexCount")
    && got.meshPrimitiveCount == Total(report.meshes, "meshPrimitives")
    && got.glPrimitiveCount == Total(report.meshes, "glPrimitives")
    && got.meshSizeBytes == Total(report.meshes, "size")
  }

  lemma StatsRecover(report: Report, text: string)
    requires report.Valid()
    ensures Recovers(ReportStats(report, EmptyInspection(text)), report)
  {
    hide Table.Valid, ColumnTotal, Int64.Wrap, Seen;
    assert report.scenes.rows[..|report.scenes.rows|] == report.scenes.rows;
    assert report.meshes.rows[..|report.meshes.rows|] == report.meshes.rows;
  }

  // ----- the order of columns -----

  /** The table with its columns in the order `order`. */
  function Reordered(table: Table, order: seq<nat>): Table
    requires forall i :: 0 <= i < |order| ==> order[i] < |table.columns|
    requires forall r :: 0 <= r < |table.rows| ==> |table.rows[r]| == |table.columns|
  {
    Table(Pick(table.columns, order),
          seq(|table.rows|, r requires 0 <= r < |table.rows| => Pick(table.rows[r], order)))
  }

  function Pick(cells: seq<Cell>, order: seq<nat>): (r: seq<Cell>)
    requires forall i :: 0 <= i < |order| ==> order[i] < |cells|
    ensures |r| == |order|
  {
    seq(|order|, i requires 0 <= i < |order| => cells[order[i]])
  }

  /** Every column once. */
  ghost predicate IsOrder(order: seq<nat>, n: nat) {
    && |order| == n
    && (forall i :: 0 <= i < n ==> order[i] < n)
    && (forall i, j :: 0 <= i < j < n ==> order[i] != order[j])
    && (forall k: nat :: k < n ==> k in order)
  }

  lemma ValueReordered(columns: seq<Cell>, row: seq<Cell>, order: seq<nat>, name: string)
    requires |row| == |columns| && IsOrder(order, |columns|)
    requires forall i, j :: 0 <= i < j < |columns| ==> columns[i].text != columns[j].text
    ensures ValueIn(Pick(columns, order), Pick(row, order), name) == ValueIn(columns, row, name)
  {
    hide NumberIn, ColumnOf;
    var at, moved := ColumnOf(columns, name), ColumnOf(Pick(columns, order), name);
    if at.Some? {
      assert at.value in order;
      var i :| 0 <= i < |order| && order[i] == at.value;
      assert Pick(columns, order)[i].text == name;
    }
    if moved.Some? {
      assert columns[order[moved.value]].text == name;
    }
  }

  lemma {:induction false} TotalReordered(columns: seq<Cell>, rows: seq<seq<Cell>>, order: seq<nat>,
                                          picked: seq<seq<Cell>>, name: string)
    requires forall r :: 0 <= r < |rows| ==> |rows[r]| == |columns|
    requires IsOrder(order, |columns|)
    requires forall i, j :: 0 <= i < j < |columns| ==> columns[i].text != columns[j].text
    requires |picked| == |rows|
    requires forall r :: 0 <= r < |rows| ==> picked[r] == Pick(rows[r], order) && |picked[r]| == |order|
    ensures ColumnTotal(Pick(columns, order), picked, name) == ColumnTotal(columns, rows, name)
    decreases |rows|
  {
    hide ValueIn, IsOrder, Pick;
    if rows != [] {
      var n := |rows| - 1;
      TotalReordered(columns, rows[..n], order, picked[..n], name);
      ValueReordered(columns, rows[n], order, name);
    }
  }

  /** The order of the header columns makes no difference to what is parsed. */
  lemma ColumnOrderIrrelevant(report: Report, other: Report, sceneOrder: seq<nat>, meshOrder: seq<nat>)
    requires report.Valid() && other.Valid()
    requires IsOrder(sceneOrder, |report.scenes.columns|) && IsOrder(meshOrder, |report.meshes.columns|)
    requires other.scenes == Reordered(report.scenes, sceneOrder)
    requires other.meshes == Reordered(report.meshes, meshOrder)
    requires other.(scenes := report.scenes, meshes := report.meshes) == report
    ensures Parsed(Print(other)).Some? && Parsed(Print(report)).Some?
    ensures Parsed(Print(other)).value.(rawReport := Print(report)) == Parsed(Print(report)).value
  {
    hide Parsed, Print, ColumnTotal, Seen, Int64.Wrap, IsOrder, Pick, Cell.Valid, Extra.Valid, ValidNames;
    RoundTrip(report);
    RoundTrip(other);
    RawReportKept(Print(report));
    RawReportKept(Print(other));
    var scenes, meshes := report.scenes, report.meshes;
    TotalReordered(scenes.columns, scenes.rows, sceneOrder, other.scenes.rows, RENDER_VERTICES);
    TotalReordered(scenes.columns, scenes.rows, sceneOrder, other.scenes.rows, UPLOAD_VERTICES);
    TotalReordered(meshes.columns, meshes.rows, meshOrder, other.meshes.rows, MESH_PRIMITIVES);
    TotalReordered(meshes.columns, meshes.rows, meshOrder, other.meshes.rows, GL_PRIMITIVES);
    TotalReordered(meshes.columns, meshes.rows, meshOrder, other.meshes.rows, SIZE);
  }

  lemma RawReportKept(report: string)
    requires Parsed(report).Some?
    ensures Parsed(report).value.rawReport == report
  {
    hide Apply, Split, Meanings;
    RunKeepsReport(Initial(report), Meanings(Split(report, '\n')));
  }

  lemma {:induction false} RunKeepsReport(state: ParserState, meanings: seq<Meaning>)
    requires Run(Apply, state, meanings).Some?
    ensures Run(Apply, state, meanings).value.stats.rawReport == state.stats.rawReport
    decreases |meanings|
  {
    hide CellsOf, HeaderIndex, SplitListOf, Int64.Wrap;
    if meanings != [] {
      RunKeepsReport(Apply(state, meanings[0]).value, meanings[1..]);
    }
  }
}
