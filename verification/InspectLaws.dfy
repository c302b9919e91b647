/**
 When parsing distributes over putting two reports one after the other, and
 which reports parse at all.
 */
module InspectLaws {
  import opened Strings
  import opened InspectReport
  import opened Folds
  import Int64

  datatype Totals = Totals(
    scenes: nat, meshes: nat, materials: nat, textures: nat, animations: nat,
    renderVertices: int, uploadVertices: int, primitives: int, glPrimitives: int, size: int)

  function TotalsOf(stats: Inspection): Totals {
    Totals(stats.sceneCount, stats.meshCount, stats.materialCount, stats.textureCount, stats.animationCount,
           stats.renderVertexCount, stats.uploadVertexCount,
           stats.meshPrimitiveCount, stats.glPrimitiveCount, stats.meshSizeBytes)
  }

  /** Counts and sums added up, the sums in 64 bits as the code keeps them. */
  function Plus(a: Totals, b: Totals): Totals {
    Totals(a.scenes + b.scenes, a.meshes + b.meshes, a.materials + b.materials,
           a.textures + b.textures, a.animations + b.animations,
           Int64.Wrap(a.renderVertices + b.renderVertices),
           Int64.Wrap(a.uploadVertices + b.uploadVertices),
           Int64.Wrap(a.primitives + b.primitives),
           Int64.Wrap(a.glPrimitives + b.glPrimitives),
           Int64.Wrap(a.size + b.size))
  }

  // ----- which reports parse -----

  lemma {:induction false} RunSucceeds(state: ParserState, meanings: seq<Meaning>)
    ensures Run(Apply, state, meanings).Some? <==> Malformed !in meanings
    decreases |meanings|
  {
    if meanings != [] {
      var next := Apply(state, meanings[0]);
      if next.Some? {
        RunSucceeds(next.value, meanings[1..]);
        assert meanings == [meanings[0]] + meanings[1..];
      }
    }
  }

  /** A report is refused exactly when one of its lines is a malformed record, wherever it stands. */
  lemma ParsedExactly(report: string)
    ensures Parsed(report).Some? <==> Malformed !in Meanings(Split(report, '\n'))
  {
    RunSucceeds(Initial(report), Meanings(Split(report, '\n')));
  }

  // ----- adding two reports -----

  /** Data rows before the first section title. */
  function StrayRows(meanings: seq<Meaning>): nat {
    if meanings == [] || meanings[0].Title? then 0
    else (if meanings[0].Data? then 1 else 0) + StrayRows(meanings[1..])
  }

  function StrayRowsOf(report: string): nat {
    StrayRows(Meanings(Split(report, '\n')))
  }

  lemma WrapSums(base: int, x: int, y: int)
    ensures Int64.Wrap(Int64.Wrap(base + x) + y) == Int64.Wrap(base + Int64.Wrap(x + y))
  {
    Int64.WrapSum(base + x, y);
    Int64.WrapSum(x + y, base);
  }

  lemma OverviewKeepsTotals(stats: Inspection, key: string, value: string)
    ensures TotalsOf(OverviewRow(stats, key, value)) == TotalsOf(stats)
  {
    hide SplitListOf;
  }

  /** A row adds the same to every parser that is in the same section under the same header. */
  lemma RowAdds(section: Section, p: Inspection, q: Inspection, cells: Cells, base: Totals)
    requires TotalsOf(p) == Plus(base, TotalsOf(q))
    ensures TotalsOf(Row(section, p, cells)) == Plus(base, TotalsOf(Row(section, q, cells)))
  {
    hide Int64.Wrap, OverviewRow, SceneRow, MeshRow;
    if section == Overview && |cells.fields| >= 2 {
      OverviewKeepsTotals(p, cells.fields[0], cells.fields[1]);
      OverviewKeepsTotals(q, cells.fields[0], cells.fields[1]);
    }
    SceneAdds(p, q, cells.renderVertices, cells.uploadVertices, base);
    MeshAdds(p, q, cells.primitives, cells.glPrimitives, cells.size, base);
  }

  lemma SceneAdds(p: Inspection, q: Inspection, renderVertices: int, uploadVertices: int, base: Totals)
    requires TotalsOf(p) == Plus(base, TotalsOf(q))
    ensures TotalsOf(SceneRow(p, renderVertices, uploadVertices))
         == Plus(base, TotalsOf(SceneRow(q, renderVertices, uploadVertices)))
  {
    hide Int64.Wrap;
    WrapSums(base.renderVertices, q.renderVertexCount, renderVertices);
    WrapSums(base.uploadVertices, q.uploadVertexCount, uploadVertices);
  }

  lemma MeshAdds(p: Inspection, q: Inspection, primitives: int, glPrimitives: int, size: int, base: Totals)
    requires TotalsOf(p) == Plus(base, TotalsOf(q))
    ensures TotalsOf(MeshRow(p, primitives, glPrimitives, size))
         == Plus(base, TotalsOf(MeshRow(q, primitives, glPrimitives, size)))
  {
    hide Int64.Wrap;
    WrapSums(base.primitives, q.meshPrimitiveCount, primitives);
    WrapSums(base.glPrimitives, q.glPrimitiveCount, glPrimitives);
    WrapSums(base.size, q.meshSizeBytes, size);
  }

  lemma {:induction false} SameSectionAdds(p: ParserState, q: ParserState, meanings: seq<Meaning>, base: Totals)
    requires p.section == q.section && p.headers == q.headers
    requires TotalsOf(p.stats) == Plus(base, TotalsOf(q.stats))
    requires Run(Apply, q, meanings).Some?
    ensures Run(Apply, p, meanings).Some?
    ensures TotalsOf(Run(Apply, p, meanings).value.stats) == Plus(base, TotalsOf(Run(Apply, q, meanings).value.stats))
    decreases |meanings|
  {
    if meanings != [] {
      if meanings[0].Data? {
        RowAdds(p.section, p.stats, q.stats, CellsOf(meanings[0].fields, p.headers), base);
      }
      SameSectionAdds(Apply(p, meanings[0]).value, Apply(q, meanings[0]).value, meanings[1..], base);
    }
  }

  lemma StrayRow(p: Inspection, q: Inspection, cells: Cells, base: Totals)
    requires TotalsOf(p) == Plus(base, TotalsOf(q))
    ensures TotalsOf(Row(Materials, p, cells))
         == Plus(base.(materials := base.materials + 1), TotalsOf(Row(Untitled, q, cells)))
  {
    hide Int64.Wrap;
  }

  /**
   A parser with no section yet (q) against one that has read a report before
   (p): they differ by what p had, plus the stray rows when p counts them.
   */
  lemma {:induction false} UntitledAdds(p: ParserState, q: ParserState, meanings: seq<Meaning>, base: Totals)
    requires q.section == Untitled
    requires TotalsOf(p.stats) == Plus(base, TotalsOf(q.stats))
    requires Run(Apply, q, meanings).Some?
    requires p.section == Materials || StrayRows(meanings) == 0
    ensures Run(Apply, p, meanings).Some?
    ensures TotalsOf(Run(Apply, p, meanings).value.stats)
         == Plus(base.(materials := base.materials + StrayRows(meanings)),
                 TotalsOf(Run(Apply, q, meanings).value.stats))
    decreases |meanings|
  {
    hide CellsOf, HeaderIndex, Plus;
    if meanings != [] {
      var p', q' := Apply(p, meanings[0]).value, Apply(q, meanings[0]).value;
      if meanings[0].Data? && p.section == Materials {
        var fields := meanings[0].fields;
        StrayRow(p.stats, q.stats, CellsOf(fields, p.headers), base);
        assert Row(Untitled, q.stats, CellsOf(fields, p.headers)) == Row(Untitled, q.stats, CellsOf(fields, q.headers));
      }
      hide Row;
      if meanings[0].Title? {
        SameSectionAdds(p', q', meanings[1..], base);
      } else {
        var stray := if meanings[0].Data? then 1 else 0;
        UntitledAdds(p', q', meanings[1..], base.(materials := base.materials + stray));
      }
    }
  }

  predicate Bounded(t: Totals) {
    && Int64.InRange(t.renderVertices) && Int64.InRange(t.uploadVertices)
    && Int64.InRange(t.primitives) && Int64.InRange(t.glPrimitives) && Int64.InRange(t.size)
  }

  lemma RowInRange(section: Section, stats: Inspection, cells: Cells)
    requires Bounded(TotalsOf(stats))
    ensures Bounded(TotalsOf(Row(section, stats, cells)))
  {
    hide Int64.Wrap, OverviewRow;
    if section == Overview && |cells.fields| >= 2 {
      OverviewKeepsTotals(stats, cells.fields[0], cells.fields[1]);
    }
  }

  lemma {:induction false} TotalsInRange(state: ParserState, meanings: seq<Meaning>)
    requires Bounded(TotalsOf(state.stats))
    requires Run(Apply, state, meanings).Some?
    ensures Bounded(TotalsOf(Run(Apply, state, meanings).value.stats))
    decreases |meanings|
  {
    hide Int64.Wrap, CellsOf, HeaderIndex;
    if meanings != [] {
      if meanings[0].Data? {
        RowInRange(state.section, state.stats, CellsOf(meanings[0].fields, state.headers));
      }
      hide Row;
      TotalsInRange(Apply(state, meanings[0]).value, meanings[1..]);
    }
  }

  lemma PlusNothing(none: Totals, t: Totals)
    requires none == TotalsOf(EmptyInspection("")) && Bounded(t)
    ensures Plus(none, t) == t == Plus(t, none)
  {
  }

  /** The text of the report is carried along and never looked at. */
  lemma RawReportIsCarried(report: string, other: string, meanings: seq<Meaning>)
    requires Run(Apply, Initial(report), meanings).Some?
    ensures Run(Apply, Initial(other), meanings).Some?
    ensures TotalsOf(Run(Apply, Initial(other), meanings).value.stats)
         == TotalsOf(Run(Apply, Initial(report), meanings).value.stats)
  {
    hide Int64.Wrap, Apply, Plus, Run;
    var none := TotalsOf(EmptyInspection(""));
    PlusNothing(none, none);
    SameSectionAdds(Initial(other), Initial(report), meanings, none);
    TotalsInRange(Initial(report), meanings);
    PlusNothing(none, TotalsOf(Run(Apply, Initial(report), meanings).value.stats));
  }

  function Concatenated(first: string, second: string): string {
    first + ['\n'] + second
  }

  lemma MeaningsOfConcatenated(first: string, second: string)
    ensures Meanings(Split(Concatenated(first, second), '\n'))
         == Meanings(Split(first, '\n')) + Meanings(Split(second, '\n'))
  {
    hide MeaningOf, Split;
    SplitConcat(first, '\n', second);
  }

  /** Adding the report `second` to any report adds its counts and totals. */
  ghost predicate Additive(second: string)
    requires Parsed(second).Some?
  {
    forall first :: Parsed(first).Some? ==> AdditiveAfter(first, second)
  }

  ghost predicate AdditiveAfter(first: string, second: string)
    requires Parsed(first).Some? && Parsed(second).Some?
  {
    && Parsed(Concatenated(first, second)).Some?
    && TotalsOf(Parsed(Concatenated(first, second)).value)
       == Plus(TotalsOf(Parsed(first).value), TotalsOf(Parsed(second).value))
  }

  lemma AdditiveWithoutStrays(first: string, second: string)
    requires Parsed(first).Some? && Parsed(second).Some?
    requires StrayRowsOf(second) == 0
    ensures AdditiveAfter(first, second)
  {
    hide Int64.Wrap, Apply, Plus, Run, MeaningOf, Meanings, Split, StrayRows;
    var whole := Concatenated(first, second);
    var ms, ns := Meanings(Split(first, '\n')), Meanings(Split(second, '\n'));
    MeaningsOfConcatenated(first, second);
    RunConcat(Apply, Initial(whole), ms, ns);
    RawReportIsCarried(first, whole, ms);
    var middle := Run(Apply, Initial(whole), ms).value;
    TotalsInRange(Initial(whole), ms);
    PlusNothing(TotalsOf(EmptyInspection("")), TotalsOf(middle.stats));
    UntitledAdds(middle, Initial(second), ns, TotalsOf(middle.stats));
  }

  const MATERIALS: string := "MATERIALS"

  lemma MaterialsTitle()
    ensures Meanings(Split(MATERIALS, '\n')) == [Title(Materials)]
  {
    MaterialsLine();
    hide Split, MeaningOf;
    PlainTitle(MATERIALS, Materials);
    assert Meanings([MATERIALS]) == [MeaningOf(MATERIALS)];
  }

  lemma MaterialsLine()
    ensures Split(MATERIALS, '\n') == [MATERIALS]
    ensures MATERIALS != "" && !IsSpace(MATERIALS[0]) && !IsSpace(MATERIALS[|MATERIALS| - 1])
    ensures TitledBy(MATERIALS) == Materials && !IsSkipped(MATERIALS)
  {
    hide Split;
    SplitWithout(MATERIALS, '\n');
    assert MATERIALS[0] != 'N' && MATERIALS[0] != RULE;
  }

  lemma PlainTitle(line: string, section: Section)
    requires line != "" && !IsSpace(line[0]) && !IsSpace(line[|line| - 1])
    requires TitledBy(line) == section && section != Untitled && !IsSkipped(line)
    ensures MeaningOf(line) == Title(section)
  {
    hide TitledBy, IsSkipped, TrimSpace, ParseFields, IsSpace;
    TrimFixed(line);
  }

  /** One stray row is enough for some report to be miscounted. */
  lemma StrayRowsAreCounted(second: string)
    requires Parsed(second).Some?
    requires StrayRowsOf(second) > 0
    ensures Parsed(MATERIALS).Some?
    ensures !AdditiveAfter(MATERIALS, second)
  {
    hide Int64.Wrap, Run, MeaningOf, Meanings, Split, StrayRows, Row, CellsOf, HeaderIndex;
    var whole := Concatenated(MATERIALS, second);
    var ms, ns := Meanings(Split(MATERIALS, '\n')), Meanings(Split(second, '\n'));
    MaterialsTitle();
    MeaningsOfConcatenated(MATERIALS, second);
    forall report ensures Run(Apply, Initial(report), ms) == Apply(Initial(report), Title(Materials)) {
      RunOne(Apply, Initial(report), Title(Materials));
    }
    RunConcat(Apply, Initial(whole), ms, ns);
    var middle := Run(Apply, Initial(whole), ms).value;
    PlusNothing(TotalsOf(EmptyInspection("")), TotalsOf(middle.stats));
    UntitledAdds(middle, Initial(second), ns, TotalsOf(middle.stats));
  }

  /**
   Counts and totals of two reports add up, for every report in front, exactly
   when the second has no data row before its first section title.
   */
  lemma AdditiveExactly(second: string)
    requires Parsed(second).Some?
    ensures Additive(second) <==> StrayRowsOf(second) == 0
  {
    if StrayRowsOf(second) == 0 {
      forall first | Parsed(first).Some? ensures AdditiveAfter(first, second) {
        AdditiveWithoutStrays(first, second);
      }
    } else {
      StrayRowsAreCounted(second);
    }
  }

  /** Within 64 bits the sums are those of the integers. */
  lemma PlusWithoutOverflow(a: Totals, b: Totals)
    requires Bounded(Totals(0, 0, 0, 0, 0,
                            a.renderVertices + b.renderVertices, a.uploadVertices + b.uploadVertices,
                            a.primitives + b.primitives, a.glPrimitives + b.glPrimitives, a.size + b.size))
    ensures Plus(a, b).renderVertices == a.renderVertices + b.renderVertices
    ensures Plus(a, b).uploadVertices == a.uploadVertices + b.uploadVertices
    ensures Plus(a, b).primitives == a.primitives + b.primitives
    ensures Plus(a, b).glPrimitives == a.glPrimitives + b.glPrimitives
    ensures Plus(a, b).size == a.size + b.size
  {
    Int64.WrapFits(a.renderVertices + b.renderVertices);
    Int64.WrapFits(a.uploadVertices + b.uploadVertices);
    Int64.WrapFits(a.primitives + b.primitives);
    Int64.WrapFits(a.glPrimitives + b.glPrimitives);
    Int64.WrapFits(a.size + b.size);
  }
}
