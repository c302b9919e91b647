/**
 What any report says, told without a parser: which section title and which header
 row are in force at a line, and what its rows add up to.
 */
module InspectMeaning {
  import opened Wrappers
  import opened Strings
  import opened InspectReport
  import opened Folds
  import Int64
  import InspectLaws

  // ----- one line -----

  /** The kinds of lines, told by the trimmed text. */
  lemma LineMeans(raw: string)
    ensures var line, meaning := TrimSpace(raw), MeaningOf(raw);
            var skipped := line == "" || line[0] == '\U{2500}' || "No " <= line;
            var title := line in {"OVERVIEW", "SCENES", "MESHES", "MATERIALS", "TEXTURES", "ANIMATIONS"};
            var fields := ParseFields(line);
            && (meaning == Ignored <==> skipped || (!title && ',' !in line))
            && (meaning.Title? <==> title)
            && (meaning == Malformed <==> !skipped && ',' in line && fields.None?)
            && (meaning.Header? <==> !skipped && ',' in line && fields.Some? && fields.value[0] in {"key", "#"})
            && (meaning.Header? ==> Some(meaning.columns) == fields)
            && (meaning.Data? ==> Some(meaning.fields) == fields)
  {
    TitlesArePlain(TrimSpace(raw));
    SkippedText(TrimSpace(raw));
    hide TrimSpace, ParseFields, IsSkipped, HasPrefix, TitledBy;
  }

  lemma SkippedText(line: string)
    ensures IsSkipped(line) <==> line == "" || line[0] == '\U{2500}' || "No " <= line
  {
  }

  lemma TitlesArePlain(line: string)
    ensures TitledBy(line) != Untitled <==> line in {"OVERVIEW", "SCENES", "MESHES", "MATERIALS", "TEXTURES", "ANIMATIONS"}
    ensures TitledBy(line) != Untitled ==> ',' !in line && !IsSkipped(line)
  {
    SkippedText(line);
    hide IsSkipped;
    assert "No " <= line ==> line[0] == 'N';
  }

  /** Which section a title opens. */
  lemma TitleMeans(raw: string)
    ensures var line := TrimSpace(raw);
            && (MeaningOf(raw) == Title(Overview) <==> line == "OVERVIEW")
            && (MeaningOf(raw) == Title(Scenes) <==> line == "SCENES")
            && (MeaningOf(raw) == Title(Meshes) <==> line == "MESHES")
            && (MeaningOf(raw) == Title(Materials) <==> line == "MATERIALS")
            && (MeaningOf(raw) == Title(Textures) <==> line == "TEXTURES")
            && (MeaningOf(raw) == Title(Animations) <==> line == "ANIMATIONS")
            && MeaningOf(raw) != Title(Untitled)
  {
    TitlesArePlain(TrimSpace(raw));
    hide TrimSpace, ParseFields, IsSkipped;
  }

  // ----- a list in an overview cell -----

  lemma {:induction false} KeepNamedConcat(parts: seq<string>, more: seq<string>)
    ensures KeepNamed(parts + more) == KeepNamed(parts) + KeepNamed(more)
  {
    hide TrimSpace, IsNamed;
    if parts == [] {
      assert parts + more == more;
    } else {
      KeepNamedConcat(parts[1..], more);
      KeepNamedFirst(parts, more);
      KeepNamedFirst(parts, []);
      hide KeepNamed;
      assert parts + [] == parts && parts[1..] + [] == parts[1..];
    }
  }

  lemma KeepNamedFirst(parts: seq<string>, more: seq<string>)
    requires parts != []
    ensures KeepNamed(parts + more)
         == (if IsNamed(TrimSpace(parts[0])) then [TrimSpace(parts[0])] else []) + KeepNamed(parts[1..] + more)
  {
    hide TrimSpace, IsNamed;
    assert (parts + more)[1..] == parts[1..] + more;
  }

  /** A text without a comma is one name, unless it is blank or "none". */
  lemma OneName(text: string)
    requires ',' !in text
    ensures SplitListOf(text) == if TrimSpace(text) == "" || TrimSpace(text) == "none" then [] else [TrimSpace(text)]
  {
    hide TrimSpace, Split, KeepNamed, SplitListOf;
    SplitWithout(text, ',');
    PartsOf(text);
    KeepOne(text);
  }

  lemma KeepOne(text: string)
    ensures KeepNamed([text]) == if TrimSpace(text) == "" || TrimSpace(text) == "none" then [] else [TrimSpace(text)]
  {
    hide TrimSpace;
    assert [text][1..] == [];
  }

  lemma BlankTexts()
    ensures TrimSpace("") == "" && TrimSpace("none") == "none"
  {
  }

  /** Names on both sides of a comma are kept in their order. */
  lemma NamesOnBothSides(text: string, more: string)
    ensures SplitListOf(text + "," + more) == SplitListOf(text) + SplitListOf(more)
  {
    SplitConcat(text, ',', more);
    KeepNamedConcat(Split(text, ','), Split(more, ','));
    PartsOf(text);
    PartsOf(more);
    PartsOf(text + "," + more);
    hide Split, KeepNamed, SplitListOf;
    assert "," == [','];
  }

  lemma PartsOf(text: string)
    ensures SplitListOf(text) == KeepNamed(Split(text, ','))
  {
    hide Split, KeepNamed, TrimSpace;
    if text == "" || text == "none" {
      assert ',' !in text;
      SplitWithout(text, ',');
      KeepOne(text);
      BlankTexts();
    }
  }

  // ----- what is in force at a line -----

  /** The last title before line i. */
  ghost predicate TitleAt(m: seq<Meaning>, i: nat, t: nat) {
    t < i <= |m| && m[t].Title? && forall j :: t < j < i ==> !m[j].Title?
  }

  ghost predicate StandsIn(m: seq<Meaning>, i: nat, section: Section) {
    exists t: nat :: TitleAt(m, i, t) && m[t].section == section
  }

  /** The last header row before line i, with no title in between. */
  ghost predicate HeaderAt(m: seq<Meaning>, i: nat, h: nat) {
    h < i <= |m| && m[h].Header? && forall j :: h < j < i ==> !m[j].Header? && !m[j].Title?
  }

  /** The last column of this name. */
  ghost predicate ColumnAt(columns: seq<string>, name: string, c: nat) {
    c < |columns| && columns[c] == name && forall j :: c < j < |columns| ==> columns[j] != name
  }

  ghost predicate Placed(m: seq<Meaning>, i: nat, name: string, h: nat, c: nat) {
    HeaderAt(m, i, h) && ColumnAt(m[h].columns, name, c)
  }

  /** The text of a data row under a name; empty if there is no such column, or the row is too short. */
  ghost function CellUnder(m: seq<Meaning>, i: nat, name: string): string
    requires i < |m| && m[i].Data?
  {
    if exists h: nat, c: nat :: Placed(m, i, name, h, c) && c < |m[i].fields| then
      var h: nat, c: nat :| Placed(m, i, name, h, c) && c < |m[i].fields|;
      m[i].fields[c]
    else ""
  }

  ghost predicate IsRow(m: seq<Meaning>, i: nat, section: Section) {
    i < |m| && m[i].Data? && StandsIn(m, i, section)
  }

  /** The data rows of a section among the first n lines. */
  ghost function RowsIn(m: seq<Meaning>, n: nat, section: Section): nat {
    if n == 0 then 0 else RowsIn(m, n - 1, section) + if IsRow(m, n - 1, section) then 1 else 0
  }

  /** The numbers under a name, added up over the rows of a section. */
  ghost function SumIn(m: seq<Meaning>, n: nat, section: Section, name: string): int {
    if n == 0 then 0
    else SumIn(m, n - 1, section, name) + if IsRow(m, n - 1, section) then NumberIn(CellUnder(m, n - 1, name)) else 0
  }

  /** The value that the overview gives last for a key. */
  ghost function LastValue(m: seq<Meaning>, n: nat, key: string): string {
    if n == 0 then ""
    else if IsRow(m, n - 1, Overview) && |m[n - 1].fields| >= 2 && m[n - 1].fields[0] == key then m[n - 1].fields[1]
    else LastValue(m, n - 1, key)
  }

  datatype Column = RenderVertices | UploadVertices | Primitives | GlPrimitives | Size

  function ColumnName(column: Column): string {
    match column
    case RenderVertices => "renderVertexCount"
    case UploadVertices => "uploadVertexCount"
    case Primitives => "meshPrimitives"
    case GlPrimitives => "glPrimitives"
    case Size => "size"
  }

  datatype Key = Version | Generator | ExtensionsUsed | ExtensionsRequired

  function KeyName(key: Key): string {
    match key
    case Version => "version"
    case Generator => "generator"
    case ExtensionsUsed => "extensionsUsed"
    case ExtensionsRequired => "extensionsRequired"
  }

  ghost function Total(m: seq<Meaning>, n: nat, section: Section, column: Column): int {
    Int64.Wrap(SumIn(m, n, section, ColumnName(column)))
  }

  ghost predicate Says(m: seq<Meaning>, n: nat, stats: Inspection) {
    SaysKeys(m, n, stats) && SaysRows(m, n, stats) && SaysTotals(m, n, stats)
  }

  ghost predicate SaysKeys(m: seq<Meaning>, n: nat, stats: Inspection) {
    && stats.version == LastValue(m, n, KeyName(Version)) && stats.generator == LastValue(m, n, KeyName(Generator))
    && stats.extensionsUsed == SplitListOf(LastValue(m, n, KeyName(ExtensionsUsed)))
    && stats.extensionsRequired == SplitListOf(LastValue(m, n, KeyName(ExtensionsRequired)))
  }

  ghost predicate SaysRows(m: seq<Meaning>, n: nat, stats: Inspection) {
    && stats.sceneCount == RowsIn(m, n, Scenes) && stats.meshCount == RowsIn(m, n, Meshes)
    && stats.materialCount == RowsIn(m, n, Materials) && stats.textureCount == RowsIn(m, n, Textures)
    && stats.animationCount == RowsIn(m, n, Animations)
  }

  ghost predicate SaysTotals(m: seq<Meaning>, n: nat, stats: Inspection) {
    && stats.renderVertexCount == Total(m, n, Scenes, RenderVertices)
    && stats.uploadVertexCount == Total(m, n, Scenes, UploadVertices)
    && stats.meshPrimitiveCount == Total(m, n, Meshes, Primitives)
    && stats.glPrimitiveCount == Total(m, n, Meshes, GlPrimitives)
    && stats.meshSizeBytes == Total(m, n, Meshes, Size)
  }

  // ----- the parser's section and headers are those in force -----

  ghost predicate InForce(m: seq<Meaning>, n: nat, state: ParserState) {
    && n <= |m|
    && (forall section :: StandsIn(m, n, section) ==> state.section == section)
    && (state.section != Untitled ==> StandsIn(m, n, state.section))
    && HeadersIn(m, n, state.headers)
  }

  ghost predicate HeadersIn(m: seq<Meaning>, n: nat, headers: map<string, nat>) {
    && (forall name, h: nat, c: nat :: Placed(m, n, name, h, c) ==> name in headers && headers[name] == c)
    && (forall name :: name in headers ==> exists h: nat :: Placed(m, n, name, h, headers[name]))
  }

  lemma TitleNext(m: seq<Meaning>, n: nat, section: Section)
    requires n < |m|
    ensures m[n].Title? ==> (StandsIn(m, n + 1, section) <==> m[n].section == section)
    ensures !m[n].Title? ==> (StandsIn(m, n + 1, section) <==> StandsIn(m, n, section))
  {
    if m[n].Title? {
      assert TitleAt(m, n + 1, n);
    } else {
      if t: nat :| TitleAt(m, n, t) && m[t].section == section {
        assert TitleAt(m, n + 1, t);
      }
      if t: nat :| TitleAt(m, n + 1, t) && m[t].section == section {
        assert TitleAt(m, n, t);
      }
    }
  }

  lemma HeaderNext(m: seq<Meaning>, n: nat, name: string, h: nat, c: nat)
    requires n < |m|
    ensures m[n].Title? ==> !Placed(m, n + 1, name, h, c)
    ensures m[n].Header? ==> (Placed(m, n + 1, name, h, c) <==> h == n && ColumnAt(m[n].columns, name, c))
    ensures !m[n].Title? && !m[n].Header? ==> (Placed(m, n + 1, name, h, c) <==> Placed(m, n, name, h, c))
  {
  }

  lemma ColumnsOf(columns: seq<string>, name: string, c: nat)
    ensures ColumnAt(columns, name, c) ==> name in HeaderIndex(columns) && HeaderIndex(columns)[name] == c
    ensures name in HeaderIndex(columns) ==> ColumnAt(columns, name, HeaderIndex(columns)[name])
  {
    var index := HeaderIndex(columns);
    hide HeaderIndex;
  }

  lemma InForceNext(m: seq<Meaning>, n: nat, state: ParserState)
    requires InForce(m, n, state) && n < |m| && m[n] != Title(Untitled) && Apply(state, m[n]).Some?
    ensures InForce(m, n + 1, Apply(state, m[n]).value)
  {
    HeadersNext(m, n, state);
    hide Row, CellsOf, HeaderIndex, HeadersIn;
    var next := n + 1;
    forall section
      ensures StandsIn(m, next, section) <==> if m[n].Title? then m[n].section == section else StandsIn(m, n, section) {
      TitleNext(m, n, section);
    }
    hide StandsIn;
    assert forall section :: StandsIn(m, next, section) ==> Apply(state, m[n]).value.section == section;
    assert Apply(state, m[n]).value.section != Untitled ==> StandsIn(m, next, Apply(state, m[n]).value.section);
  }

  lemma HeadersNext(m: seq<Meaning>, n: nat, state: ParserState)
    requires InForce(m, n, state) && n < |m| && Apply(state, m[n]).Some?
    ensures HeadersIn(m, n + 1, Apply(state, m[n]).value.headers)
  {
    var headers, next := Apply(state, m[n]).value.headers, n + 1;
    hide Row, CellsOf, HeaderIndex, StandsIn;
    forall name, h: nat, c: nat | Placed(m, next, name, h, c) ensures name in headers && headers[name] == c {
      HeaderNext(m, n, name, h, c);
      if m[n].Header? {
        ColumnsOf(m[n].columns, name, c);
      }
    }
    forall name | name in headers ensures exists h: nat :: Placed(m, next, name, h, headers[name]) {
      if m[n].Header? {
        ColumnsOf(m[n].columns, name, 0);
        HeaderNext(m, n, name, n, headers[name]);
      } else {
        var h: nat :| Placed(m, n, name, h, headers[name]);
        HeaderNext(m, n, name, h, headers[name]);
      }
    }
  }

  lemma FieldInForce(m: seq<Meaning>, n: nat, state: ParserState, name: string)
    requires InForce(m, n, state) && n < |m| && m[n].Data?
    ensures StringField(m[n].fields, state.headers, name) == CellUnder(m, n, name)
  {
    hide StandsIn, Placed;
  }

  // ----- the statistics -----

  lemma SaysNext(m: seq<Meaning>, n: nat, state: ParserState)
    requires Says(m, n, state.stats) && InForce(m, n, state) && n < |m| && Apply(state, m[n]).Some?
    ensures Says(m, n + 1, Apply(state, m[n]).value.stats)
  {
    if m[n].Data? {
      hide Row, CellsOf, CellUnder, NumberIn, Says, InForce;
      DataNext(m, n, state);
    } else {
      NothingNext(m, n);
      hide RowsIn, LastValue, Total, Row, CellsOf, StandsIn, InForce, SplitListOf, HeaderIndex, KeyName, ColumnName;
    }
  }

  lemma NothingNext(m: seq<Meaning>, n: nat)
    requires n < |m| && !m[n].Data?
    ensures forall section :: RowsIn(m, n + 1, section) == RowsIn(m, n, section)
    ensures forall section, column :: Total(m, n + 1, section, column) == Total(m, n, section, column)
    ensures forall key :: LastValue(m, n + 1, key) == LastValue(m, n, key)
  {
    hide CellUnder, NumberIn, StandsIn, ColumnName;
  }

  /** The section of a data row, as the rows are counted. */
  lemma RowsHere(m: seq<Meaning>, n: nat, state: ParserState, section: Section)
    requires InForce(m, n, state) && n < |m| && m[n].Data? && section != Untitled
    ensures IsRow(m, n, section) <==> state.section == section
  {
    hide HeadersIn;
  }

  ghost function NumberUnder(m: seq<Meaning>, n: nat, column: Column): int
    requires n < |m| && m[n].Data?
  {
    NumberIn(CellUnder(m, n, ColumnName(column)))
  }

  lemma CellsHere(m: seq<Meaning>, n: nat, state: ParserState)
    requires InForce(m, n, state) && n < |m| && m[n].Data?
    ensures CellsOf(m[n].fields, state.headers)
         == Cells(m[n].fields, NumberUnder(m, n, RenderVertices), NumberUnder(m, n, UploadVertices),
                  NumberUnder(m, n, Primitives), NumberUnder(m, n, GlPrimitives), NumberUnder(m, n, Size))
  {
    CellsMean(m[n].fields, state.headers);
    hide InForce, StringField, CellUnder, NumberIn, CellsOf, ColumnName;
    FieldInForce(m, n, state, ColumnName(RenderVertices));
    FieldInForce(m, n, state, ColumnName(UploadVertices));
    FieldInForce(m, n, state, ColumnName(Primitives));
    FieldInForce(m, n, state, ColumnName(GlPrimitives));
    FieldInForce(m, n, state, ColumnName(Size));
  }

  lemma CellsMean(fields: seq<string>, headers: map<string, nat>)
    ensures CellsOf(fields, headers)
         == Cells(fields,
                  IntField(fields, headers, ColumnName(RenderVertices)), IntField(fields, headers, ColumnName(UploadVertices)),
                  IntField(fields, headers, ColumnName(Primitives)), IntField(fields, headers, ColumnName(GlPrimitives)),
                  IntField(fields, headers, ColumnName(Size)))
  {
    hide IntField;
  }

  lemma TotalNext(m: seq<Meaning>, n: nat, section: Section, column: Column)
    requires n < |m| && m[n].Data?
    ensures Total(m, n + 1, section, column)
         == if IsRow(m, n, section) then Int64.Wrap(Total(m, n, section, column) + NumberUnder(m, n, column))
            else Total(m, n, section, column)
  {
    hide IsRow, CellUnder, NumberIn, ColumnName, Int64.Wrap;
    Int64.WrapSum(SumIn(m, n, section, ColumnName(column)), NumberUnder(m, n, column));
  }

  lemma TotalsNext(m: seq<Meaning>, n: nat, section: Section, stats: Inspection, next: Inspection)
    requires SaysTotals(m, n, stats) && n < |m| && m[n].Data?
    requires forall s :: s != Untitled ==> (IsRow(m, n, s) <==> section == s)
    requires var cells := Cells(m[n].fields, NumberUnder(m, n, RenderVertices), NumberUnder(m, n, UploadVertices),
                                NumberUnder(m, n, Primitives), NumberUnder(m, n, GlPrimitives), NumberUnder(m, n, Size));
             next == Row(section, stats, cells)
    ensures SaysTotals(m, n + 1, next)
  {
    hide IsRow, Total, NumberUnder, OverviewRow, Int64.Wrap, ColumnName;
    TotalNext(m, n, Scenes, RenderVertices);
    TotalNext(m, n, Scenes, UploadVertices);
    TotalNext(m, n, Meshes, Primitives);
    TotalNext(m, n, Meshes, GlPrimitives);
    TotalNext(m, n, Meshes, Size);
    OverviewOnlyKeys(section, stats, m[n].fields);
  }

  lemma OverviewOnlyKeys(section: Section, stats: Inspection, fields: seq<string>)
    ensures |fields| >= 2 ==>
              var next := OverviewRow(stats, fields[0], fields[1]);
              InspectLaws.TotalsOf(next) == InspectLaws.TotalsOf(stats)
  {
    hide SplitListOf;
  }

  lemma RowsNext(m: seq<Meaning>, n: nat, section: Section, stats: Inspection, cells: Cells)
    requires SaysRows(m, n, stats) && n < |m| && m[n].Data? && cells.fields == m[n].fields
    requires forall s :: s != Untitled ==> (IsRow(m, n, s) <==> section == s)
    ensures SaysRows(m, n + 1, Row(section, stats, cells))
  {
    OverviewOnlyKeys(section, stats, m[n].fields);
    hide IsRow, OverviewRow, Int64.Wrap;
  }

  lemma OverviewMeans(stats: Inspection, key: string, value: string)
    ensures var next := OverviewRow(stats, key, value);
            && next.version == (if key == KeyName(Version) then value else stats.version)
            && next.generator == (if key == KeyName(Generator) then value else stats.generator)
            && next.extensionsUsed ==
                 (if key == KeyName(ExtensionsUsed) then SplitListOf(value) else stats.extensionsUsed)
            && next.extensionsRequired ==
                 (if key == KeyName(ExtensionsRequired) then SplitListOf(value) else stats.extensionsRequired)
  {
    hide SplitListOf;
  }

  lemma LastNext(m: seq<Meaning>, n: nat, key: string)
    requires n < |m| && m[n].Data?
    ensures LastValue(m, n + 1, key)
         == if IsRow(m, n, Overview) && |m[n].fields| >= 2 && m[n].fields[0] == key then m[n].fields[1]
            else LastValue(m, n, key)
  {
    hide IsRow;
  }

  lemma KeysNext(m: seq<Meaning>, n: nat, section: Section, stats: Inspection, cells: Cells)
    requires SaysKeys(m, n, stats) && n < |m| && m[n].Data? && cells.fields == m[n].fields
    requires IsRow(m, n, Overview) <==> section == Overview
    ensures SaysKeys(m, n + 1, Row(section, stats, cells))
  {
    LastNext(m, n, KeyName(Version));
    LastNext(m, n, KeyName(Generator));
    LastNext(m, n, KeyName(ExtensionsUsed));
    LastNext(m, n, KeyName(ExtensionsRequired));
    if |m[n].fields| >= 2 {
      OverviewMeans(stats, m[n].fields[0], m[n].fields[1]);
    }
    hide IsRow, LastValue, KeyName, OverviewRow, SplitListOf, Int64.Wrap;
  }

  lemma DataNext(m: seq<Meaning>, n: nat, state: ParserState)
    requires Says(m, n, state.stats) && InForce(m, n, state) && n < |m| && m[n].Data?
    ensures Says(m, n + 1, Apply(state, m[n]).value.stats)
  {
    hide InForce, IsRow, NumberUnder, CellsOf, SaysTotals, SaysRows, SaysKeys, Row, HeaderIndex;
    CellsHere(m, n, state);
    forall section | section != Untitled ensures IsRow(m, n, section) <==> state.section == section {
      RowsHere(m, n, state, section);
    }
    var cells := CellsOf(m[n].fields, state.headers);
    TotalsNext(m, n, state.section, state.stats, Row(state.section, state.stats, cells));
    RowsNext(m, n, state.section, state.stats, cells);
    KeysNext(m, n, state.section, state.stats, cells);
  }

  lemma AtFirst(m: seq<Meaning>, report: string)
    ensures InForce(m, 0, Initial(report)) && Says(m, 0, EmptyInspection(report))
  {
    assert SplitListOf("") == [];
    hide SplitListOf, KeyName, ColumnName;
  }

  lemma {:induction false} AlwaysSays(report: string, m: seq<Meaning>, n: nat)
    requires n <= |m| && Title(Untitled) !in m && Run(Apply, Initial(report), m).Some?
    ensures Run(Apply, Initial(report), m[..n]).Some?
    ensures InForce(m, n, Run(Apply, Initial(report), m[..n]).value)
    ensures Says(m, n, Run(Apply, Initial(report), m[..n]).value.stats)
  {
    hide Apply, InForce, Says;
    assert m == m[..n] + m[n..];
    RunConcat(Apply, Initial(report), m[..n], m[n..]);
    if n == 0 {
      AtFirst(m, report);
      assert m[..0] == [];
    } else {
      AlwaysSays(report, m, n - 1);
      PrefixStep(m, n - 1);
      RunSnoc(Apply, Initial(report), m[..n - 1], m[n - 1]);
      var state := Run(Apply, Initial(report), m[..n - 1]).value;
      InForceNext(m, n - 1, state);
      SaysNext(m, n - 1, state);
    }
  }

  /**
   What parsing any report gives, if it parses: the number of data rows below each
   section title; the sums, kept in 64 bits, of the columns that the header in force
   names; and the last value of each overview key.
   */
  lemma ParsedMeans(report: string)
    requires Parsed(report).Some?
    ensures var m, stats := Meanings(Split(report, '\n')), Parsed(report).value;
            Says(m, |m|, stats) && stats.rawReport == report
  {
    hide Split, MeaningOf, Apply, Run, Says, InForce;
    var m := Meanings(Split(report, '\n'));
    NoEmptyTitle(Split(report, '\n'));
    AlwaysSays(report, m, |m|);
    assert m[..|m|] == m;
    RunKeepsRaw(Initial(report), m);
    FinishedSays(m, |m|, Run(Apply, Initial(report), m).value.stats);
  }

  /** The Draco flag speaks for both extension lists, and for nothing else. */
  lemma DracoMeans(report: string)
    requires Parsed(report).Some?
    ensures var stats := Parsed(report).value;
            var name := "KHR_draco_mesh_compression";
            stats.usesDracoCompression <==> name in stats.extensionsUsed || name in stats.extensionsRequired
  {
    hide Split, Apply, Run;
  }

  lemma NoEmptyTitle(lines: seq<string>)
    ensures Title(Untitled) !in Meanings(lines)
  {
    forall i | 0 <= i < |lines| ensures Meanings(lines)[i] != Title(Untitled) {
      TitleMeans(lines[i]);
    }
  }

  lemma FinishedSays(m: seq<Meaning>, n: nat, stats: Inspection)
    requires Says(m, n, stats)
    ensures Says(m, n, Finished(stats))
  {
    hide RowsIn, Total, LastValue, SplitListOf, KeyName, ColumnName;
  }

  lemma {:induction false} RunKeepsRaw(state: ParserState, m: seq<Meaning>)
    requires Run(Apply, state, m).Some?
    ensures Run(Apply, state, m).value.stats.rawReport == state.stats.rawReport
    decreases |m|
  {
    hide CellsOf, SplitListOf, HeaderIndex;
    if m != [] {
      RunKeepsRaw(Apply(state, m[0]).value, m[1..]);
    }
  }
}
