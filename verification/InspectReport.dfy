/**
 The parser of the mesh inspection report (internal/optimizer/inspect.go): a
 state machine fed one line at a time, whose state is the statistics gathered so
 far, the section title last seen and the header row last seen.

 The functions specify it; the class InspectParser and the methods around it
 are the code's own loops and field updates.
 */
module InspectReport {
  import opened Wrappers
  import opened Strings
  import opened Decimals
  import Folds
  import Int64

  const DRACO: string := "KHR_draco_mesh_compression"
  const RENDER_VERTICES: string := "renderVertexCount"
  const UPLOAD_VERTICES: string := "uploadVertexCount"
  const MESH_PRIMITIVES: string := "meshPrimitives"
  const GL_PRIMITIVES: string := "glPrimitives"
  const SIZE: string := "size"
  const RULE: char := '\U{2500}'

  datatype Inspection = Inspection(
    version: string,
    generator: string,
    extensionsUsed: seq<string>,
    extensionsRequired: seq<string>,
    sceneCount: nat,
    meshCount: nat,
    materialCount: nat,
    textureCount: nat,
    animationCount: nat,
    renderVertexCount: int,
    uploadVertexCount: int,
    meshPrimitiveCount: int,
    glPrimitiveCount: int,
    meshSizeBytes: int,
    usesDracoCompression: bool,
    rawReport: string)

  function EmptyInspection(report: string): Inspection {
    Inspection("", "", [], [], 0, 0, 0, 0, 0, 0, 0, 0, 0, 0, false, report)
  }

  /** The section titles; Untitled stands for the empty title before the first one. */
  datatype Section = Untitled | Overview | Scenes | Meshes | Materials | Textures | Animations

  datatype ParserState = ParserState(stats: Inspection, section: Section, headers: map<string, nat>)

  // ----- one record of comma-separated values -----

  /** encoding/csv on one line without a line break; None when a quote is misplaced or unterminated. */
  function ParseFields(line: string): (fields: Option<seq<string>>)
    ensures fields.Some? ==> |fields.value| >= 1
    decreases |line|, 1
  {
    if line != "" && line[0] == '"' then
      ParseQuoted(line[1..], "")
    else
      var end := FieldEnd(line);
      if '"' in line[..end] then None
      else if end == |line| then Some([line])
      else Following(line[..end], ParseFields(line[end + 1..]))
  }

  /** The rest of a quoted field of which `field` has been read. */
  function ParseQuoted(line: string, field: string): (fields: Option<seq<string>>)
    ensures fields.Some? ==> |fields.value| >= 1
    decreases |line|, 0
  {
    if line == "" then None
    else if line[0] != '"' then ParseQuoted(line[1..], field + [line[0]])
    else if |line| == 1 then Some([field])
    else if line[1] == '"' then ParseQuoted(line[2..], field + ['"'])
    else if line[1] == ',' then Following(field, ParseFields(line[2..]))
    else None
  }

  function Following(field: string, rest: Option<seq<string>>): Option<seq<string>> {
    if rest.None? then None else Some([field] + rest.value)
  }

  function FieldEnd(line: string): (end: nat)
    ensures end <= |line|
    ensures ',' !in line[..end]
    ensures end < |line| ==> line[end] == ','
  {
    if line == "" || line[0] == ',' then 0 else 1 + FieldEnd(line[1..])
  }

  // ----- numbers -----

  /** strconv.ParseInt(s, 10, 64) */
  function ParseInt(s: string): (r: Option<int>)
    ensures r.Some? ==> Int64.InRange(r.value)
  {
    var negative := s != "" && s[0] == '-';
    var digits := if s != "" && (s[0] == '-' || s[0] == '+') then s[1..] else s;
    if digits == "" || exists c :: c in digits && !IsDigit(c) then None
    else
      var magnitude: int := DigitsValue(digits);
      var value: int := if negative then -magnitude else magnitude;
      if Int64.InRange(value) then Some(value) else None
  }

  /** The number a cell stands for: 0 unless the trimmed text is a 64-bit decimal. */
  function NumberIn(text: string): (r: int)
    ensures Int64.InRange(r)
  {
    var parsed := ParseInt(TrimSpace(text));
    if parsed.Some? then parsed.value else 0
  }

  function StringField(fields: seq<string>, headers: map<string, nat>, name: string): string {
    if name in headers && headers[name] < |fields| then fields[headers[name]] else ""
  }

  function IntField(fields: seq<string>, headers: map<string, nat>, name: string): int {
    NumberIn(StringField(fields, headers, name))
  }

  // ----- lists and headers -----

  predicate IsNamed(part: string) {
    part != "" && part != "none"
  }

  function KeepNamed(parts: seq<string>): seq<string> {
    if parts == [] then []
    else
      var part := TrimSpace(parts[0]);
      (if IsNamed(part) then [part] else []) + KeepNamed(parts[1..])
  }

  function SplitListOf(value: string): seq<string> {
    if value == "" || value == "none" then [] else KeepNamed(Split(value, ','))
  }

  /** The last column of each name. */
  function HeaderIndex(fields: seq<string>): (index: map<string, nat>)
    ensures forall name :: name in index <==> name in fields
    ensures forall name :: name in index ==> index[name] < |fields| && fields[index[name]] == name
    ensures forall name, i :: name in index && index[name] < i < |fields| ==> fields[i] != name
  {
    if fields == [] then map[]
    else
      var last := |fields| - 1;
      HeaderIndex(fields[..last])[fields[last] := last]
  }

  predicate IsHeader(fields: seq<string>) {
    |fields| > 0 && (fields[0] == "key" || fields[0] == "#")
  }

  /** The section a line is the title of, if it is one. */
  function TitledBy(line: string): Section {
    if line == "OVERVIEW" then Overview
    else if line == "SCENES" then Scenes
    else if line == "MESHES" then Meshes
    else if line == "MATERIALS" then Materials
    else if line == "TEXTURES" then Textures
    else if line == "ANIMATIONS" then Animations
    else Untitled
  }

  /** Lines skipped before anything is looked at: blank lines, rules and "No ... found." */
  predicate IsSkipped(line: string) {
    line == "" || HasPrefix(line, [RULE]) || HasPrefix(line, "No ")
  }

  // ----- one line -----

  function OverviewRow(stats: Inspection, key: string, value: string): Inspection {
    if key == "version" then stats.(version := value)
    else if key == "generator" then stats.(generator := value)
    else if key == "extensionsUsed" then stats.(extensionsUsed := SplitListOf(value))
    else if key == "extensionsRequired" then stats.(extensionsRequired := SplitListOf(value))
    else stats
  }

  function SceneRow(stats: Inspection, renderVertices: int, uploadVertices: int): Inspection {
    stats.(
      sceneCount := stats.sceneCount + 1,
      renderVertexCount := Int64.Wrap(stats.renderVertexCount + renderVertices),
      uploadVertexCount := Int64.Wrap(stats.uploadVertexCount + uploadVertices))
  }

  function MeshRow(stats: Inspection, primitives: int, glPrimitives: int, size: int): Inspection {
    stats.(
      meshCount := stats.meshCount + 1,
      meshPrimitiveCount := Int64.Wrap(stats.meshPrimitiveCount + primitives),
      glPrimitiveCount := Int64.Wrap(stats.glPrimitiveCount + glPrimitives),
      meshSizeBytes := Int64.Wrap(stats.meshSizeBytes + size))
  }

  /** What a data row holds under the header in force. */
  datatype Cells = Cells(
    fields: seq<string>,
    renderVertices: int, uploadVertices: int, primitives: int, glPrimitives: int, size: int)

  function CellsOf(fields: seq<string>, headers: map<string, nat>): Cells {
    Cells(fields,
          IntField(fields, headers, RENDER_VERTICES), IntField(fields, headers, UPLOAD_VERTICES),
          IntField(fields, headers, MESH_PRIMITIVES), IntField(fields, headers, GL_PRIMITIVES),
          IntField(fields, headers, SIZE))
  }

  function Row(section: Section, stats: Inspection, cells: Cells): Inspection {
    match section
    case Untitled => stats
    case Overview =>
      if |cells.fields| >= 2 then OverviewRow(stats, cells.fields[0], cells.fields[1]) else stats
    case Scenes => SceneRow(stats, cells.renderVertices, cells.uploadVertices)
    case Meshes => MeshRow(stats, cells.primitives, cells.glPrimitives, cells.size)
    case Materials => stats.(materialCount := stats.materialCount + 1)
    case Textures => stats.(textureCount := stats.textureCount + 1)
    case Animations => stats.(animationCount := stats.animationCount + 1)
  }

  /** What a line says, whatever came before it. */
  datatype Meaning =
    | Ignored
    | Title(section: Section)
    | Malformed
    | Header(columns: seq<string>)
    | Data(fields: seq<string>)

  function MeaningOf(rawLine: string): Meaning {
    var line := TrimSpace(rawLine);
    if IsSkipped(line) then Ignored
    else if TitledBy(line) != Untitled then Title(TitledBy(line))
    else if ',' !in line then Ignored
    else
      var fields := ParseFields(line);
      if fields.None? then Malformed
      else if IsHeader(fields.value) then Header(fields.value)
      else Data(fields.value)
  }

  function Apply(state: ParserState, meaning: Meaning): Option<ParserState> {
    match meaning
    case Ignored => Some(state)
    case Title(section) => Some(state.(section := section, headers := map[]))
    case Malformed => None
    case Header(columns) => Some(state.(headers := HeaderIndex(columns)))
    case Data(fields) => Some(state.(stats := Row(state.section, state.stats, CellsOf(fields, state.headers))))
  }

  function Meanings(lines: seq<string>): (r: seq<Meaning>)
    ensures |r| == |lines|
    ensures forall i :: 0 <= i < |lines| ==> r[i] == MeaningOf(lines[i])
  {
    seq(|lines|, i requires 0 <= i < |lines| => MeaningOf(lines[i]))
  }

  function Finished(stats: Inspection): Inspection {
    stats.(usesDracoCompression := DRACO in stats.extensionsUsed || DRACO in stats.extensionsRequired)
  }

  /** What the report says; None for a report with a malformed record. */
  function Parsed(report: string): Option<Inspection> {
    var end := Folds.Run(Apply, Initial(report), Meanings(Split(report, '\n')));
    if end.None? then None else Some(Finished(end.value.stats))
  }

  function Initial(report: string): ParserState {
    ParserState(EmptyInspection(report), Untitled, map[])
  }

  // ----- the code -----

  method IndexHeaders(fields: seq<string>) returns (index: map<string, nat>)
    ensures index == HeaderIndex(fields)
  {
    index := map[];
    for i := 0 to |fields|
      invariant index == HeaderIndex(fields[..i])
    {
      assert fields[..i + 1][..i] == fields[..i];
      index := index[fields[i] := i];
    }
    assert fields[..|fields|] == fields;
  }

  lemma NothingNamed(parts: seq<string>)
    requires parts == []
    ensures KeepNamed(parts) == []
  {
  }

  lemma KeepNamedFrom(parts: seq<string>, i: nat)
    requires i < |parts|
    ensures KeepNamed(parts[i..])
         == (if IsNamed(TrimSpace(parts[i])) then [TrimSpace(parts[i])] else []) + KeepNamed(parts[i + 1..])
  {
    hide TrimSpace, IsNamed;
    assert parts[i..][1..] == parts[i + 1..];
  }

  method SplitList(value: string) returns (out: seq<string>)
    ensures out == SplitListOf(value)
  {
    if value == "" || value == "none" {
      return [];
    }
    out := NamedParts(Split(value, ','));
  }

  method NamedParts(parts: seq<string>) returns (out: seq<string>)
    ensures out == KeepNamed(parts)
  {
    hide TrimSpace, IsNamed, KeepNamed;
    out := [];
    assert parts[0..] == parts;
    for i := 0 to |parts|
      invariant out + KeepNamed(parts[i..]) == KeepNamed(parts)
    {
      KeepNamedFrom(parts, i);
      var part := TrimSpace(parts[i]);
      if IsNamed(part) {
        out := out + [part];
      }
    }
    NothingNamed(parts[|parts|..]);
  }

  method Contains(values: seq<string>, needle: string) returns (found: bool)
    ensures found <==> needle in values
  {
    for i := 0 to |values|
      invariant needle !in values[..i]
    {
      if values[i] == needle {
        return true;
      }
    }
    return false;
  }

  class InspectParser {
    var stats: Inspection
    var section: Section
    var headers: map<string, nat>

    function State(): ParserState
      reads this
    {
      ParserState(stats, section, headers)
    }

    constructor (report: string)
      ensures State() == Initial(report)
    {
      stats, section, headers := EmptyInspection(report), Untitled, map[];
    }

    method ApplyOverviewField(key: string, value: string)
      modifies this`stats
      ensures stats == OverviewRow(old(stats), key, value)
    {
      if key == "version" {
        stats := stats.(version := value);
      } else if key == "generator" {
        stats := stats.(generator := value);
      } else if key == "extensionsUsed" {
        var list := SplitList(value);
        stats := stats.(extensionsUsed := list);
      } else if key == "extensionsRequired" {
        var list := SplitList(value);
        stats := stats.(extensionsRequired := list);
      }
    }

    method AddScene(renderVertices: int, uploadVertices: int)
      modifies this`stats
      ensures stats == SceneRow(old(stats), renderVertices, uploadVertices)
    {
      stats := stats.(sceneCount := stats.sceneCount + 1);
      stats := stats.(renderVertexCount := Int64.Wrap(stats.renderVertexCount + renderVertices));
      stats := stats.(uploadVertexCount := Int64.Wrap(stats.uploadVertexCount + uploadVertices));
    }

    method AddMesh(primitives: int, glPrimitives: int, size: int)
      modifies this`stats
      ensures stats == MeshRow(old(stats), primitives, glPrimitives, size)
    {
      stats := stats.(meshCount := stats.meshCount + 1);
      stats := stats.(meshPrimitiveCount := Int64.Wrap(stats.meshPrimitiveCount + primitives));
      stats := stats.(glPrimitiveCount := Int64.Wrap(stats.glPrimitiveCount + glPrimitives));
      stats := stats.(meshSizeBytes := Int64.Wrap(stats.meshSizeBytes + size));
    }

    method ApplyRow(fields: seq<string>)
      modifies this`stats
      ensures stats == Row(section, old(stats), CellsOf(fields, headers))
    {
      match section
      case Untitled =>
      case Overview =>
        if |fields| >= 2 {
          ApplyOverviewField(fields[0], fields[1]);
        }
      case Scenes =>
        AddScene(IntField(fields, headers, RENDER_VERTICES), IntField(fields, headers, UPLOAD_VERTICES));
      case Meshes =>
        AddMesh(IntField(fields, headers, MESH_PRIMITIVES),
                IntField(fields, headers, GL_PRIMITIVES),
                IntField(fields, headers, SIZE));
      case Materials => stats := stats.(materialCount := stats.materialCount + 1);
      case Textures => stats := stats.(textureCount := stats.textureCount + 1);
      case Animations => stats := stats.(animationCount := stats.animationCount + 1);
    }

    method Consume(rawLine: string) returns (ok: bool)
      modifies this
      ensures ok <==> Apply(old(State()), MeaningOf(rawLine)).Some?
      ensures ok ==> State() == Apply(old(State()), MeaningOf(rawLine)).value
    {
      hide Row, CellsOf, HeaderIndex, TitledBy, ParseFields, TrimSpace, IsSkipped;
      var line := TrimSpace(rawLine);
      if IsSkipped(line) {
        return true;
      }
      if TitledBy(line) != Untitled {
        section, headers := TitledBy(line), map[];
        return true;
      }
      if ',' !in line {
        return true;
      }
      var fields := ParseFields(line);
      if fields.None? {
        return false;
      }
      if IsHeader(fields.value) {
        headers := IndexHeaders(fields.value);
        return true;
      }
      ApplyRow(fields.value);
      return true;
    }
  }

  method ParseInspectCSV(report: string) returns (r: Option<Inspection>)
    ensures r == Parsed(report)
  {
    hide Apply, MeaningOf, Split;
    var parser := new InspectParser(report);
    var lines := Split(report, '\n');
    ghost var meanings := Meanings(lines);
    for i := 0 to |lines|
      invariant Folds.Run(Apply, Initial(report), meanings) == Folds.Run(Apply, parser.State(), meanings[i..])
    {
      Folds.RunFrom(Apply, parser.State(), meanings, i);
      var ok := parser.Consume(lines[i]);
      if !ok {
        return None;
      }
    }
    var used := Contains(parser.stats.extensionsUsed, DRACO);
    var required := Contains(parser.stats.extensionsRequired, DRACO);
    return Some(parser.stats.(usesDracoCompression := used || required));
  }
}
