// The gene mapping of a Fast-LMM result: every effect the catalogue knows
// for a reported SNP becomes one line of the gene map (the effect's gene,
// position, type and carrier counts, then the SNP's row of the result), and
// the SNPs with no known effect are listed, with their rows, in a second
// file written only when there is at least one.

module GwasJoin {
  import opened Runtime
  import opened Text
  import opened Schema
  import opened Annotation

  /** The result column holding the SNP ids. */
  const SNP_COLUMN := "SNP"

  /** The names of the eight annotation columns, in output order. */
  const ANNOTATION_HEADERS: seq<string> := ["ID", "FlybaseID", "GeneSymbol", "Position", "Type",
    "NbOfLinesForMutationInGWAS", "NbOfLinesForMutationInDB", "TotalNbOfLinesinDB"]

  /** The header of the gene map: the annotation names, then the result's own header, tab-separated. */
  function HeaderLine(header: seq<string>): string
  {
    Join(ANNOTATION_HEADERS, "\t") + "\t" + Join(header, "\t") + "\n"
  }

  lemma AnnotationHeadersTabFree()
    ensures Free(ANNOTATION_HEADERS, '\t')
  {
    forall i | 0 <= i < |ANNOTATION_HEADERS|
      ensures '\t' !in ANNOTATION_HEADERS[i]
    {
      var name := ANNOTATION_HEADERS[i];
      assert forall j :: 0 <= j < |name| ==> 'A' <= name[j] <= 'z';
    }
  }

  /** Without the final newline, the header splits into the annotation names followed by the result's names. */
  lemma HeaderLineFields(header: seq<string>)
    requires |header| >= 1 && Free(header, '\t')
    ensures var line := HeaderLine(header);
            |line| >= 1 && line[|line| - 1] == '\n'
            && Split(line[..|line| - 1], '\t') == ANNOTATION_HEADERS + header
  {
    var names := ANNOTATION_HEADERS;
    var all := names + header;
    JoinConcat(names, header, "\t");
    var line := HeaderLine(header);
    var body := Join(names, "\t") + "\t" + Join(header, "\t");
    assert line == body + "\n";
    assert line[..|line| - 1] == body;
    AnnotationHeadersTabFree();
    FreeConcat(names, header, '\t');
    SplitJoin(all, '\t');
  }

  /** A gene-map line: the annotation, the variant's row fields, a newline. */
  function EffectLine(e: MutationEffect, used: nat, all: nat, total: nat, fields: seq<string>): string
  {
    AnnotationText(e, used, all, total) + TabFields(fields) + "\n"
  }

  /** With tab-free text, a gene-map line splits into the eight annotation fields and the row. */
  lemma EffectLineFields(e: MutationEffect, used: nat, all: nat, total: nat, fields: seq<string>)
    requires '\t' !in e.mutationId && '\t' !in e.flybaseId && '\t' !in e.symbol
    requires '\t' !in e.position && '\t' !in e.effectType && Free(fields, '\t')
    ensures var line := EffectLine(e, used, all, total, fields);
            |line| >= 1 && line[|line| - 1] == '\n'
            && Split(line[..|line| - 1], '\t') == AnnotationFields(e, used, all, total) + fields
  {
    var a := AnnotationFields(e, used, all, total);
    AnnotationTextJoin(e, used, all, total);
    TabFieldsJoin(a, fields);
    NatToStringTabFree(used);
    NatToStringTabFree(all);
    NatToStringTabFree(total);
    var line := EffectLine(e, used, all, total, fields);
    assert line[..|line| - 1] == Join(a + fields, "\t");
    FreeConcat(a, fields, '\t');
    SplitJoin(a + fields, '\t');
  }

  /**
   * The gene map's body for the effects in query order.  An effect whose
   * variant is not in the SNP column is skipped (the script's `except`
   * branch); otherwise the row is that of the variant's first occurrence.
   */
  function EffectLines(effects: seq<MutationEffect>, ids: seq<string>, used: seq<string>, catalog: Catalog,
                       header: seq<string>, col: Columns): (r: Result<seq<string>>)
    requires forall h :: h in header ==> h in col
    ensures r.Err? ==> r.error == IndexError
  {
    if |effects| == 0 then Ok([])
    else
      var e := effects[|effects| - 1];
      match EffectLines(effects[..|effects| - 1], ids, used, catalog, header, col)
      case Err(x) => Err(x)
      case Ok(lines) =>
        if e.mutationId !in ids then Ok(lines)
        else match RowFields(header, col, IndexOf(ids, e.mutationId))
          case Err(x) => Err(x)
          case Ok(fields) =>
            var id := e.mutationId;
            Ok(lines + [EffectLine(e, UsedLineCount(catalog, id, used), LineCount(catalog, id), TotalLines(catalog), fields)])
  }

  /** The row of a variant: the fields at its first position in the SNP column. */
  function VariantRow(ids: seq<string>, header: seq<string>, col: Columns, id: string): Result<seq<string>>
    requires forall h :: h in header ==> h in col
    requires id in ids
  {
    RowFields(header, col, IndexOf(ids, id))
  }

  /** The gene-map line of an effect whose variant's row is complete. */
  function AnnotatedLine(e: MutationEffect, ids: seq<string>, used: seq<string>, catalog: Catalog,
                         header: seq<string>, col: Columns): string
    requires forall h :: h in header ==> h in col
    requires e.mutationId in ids && VariantRow(ids, header, col, e.mutationId).Ok?
  {
    var id := e.mutationId;
    EffectLine(e, UsedLineCount(catalog, id, used), LineCount(catalog, id), TotalLines(catalog),
               VariantRow(ids, header, col, id).value)
  }

  /** The body for one more effect whose variant is in the column. */
  lemma EffectLinesSnoc(effects: seq<MutationEffect>, ids: seq<string>, used: seq<string>, catalog: Catalog,
                        header: seq<string>, col: Columns)
    requires forall h :: h in header ==> h in col
    requires |effects| > 0 && effects[|effects| - 1].mutationId in ids
    ensures var e := effects[|effects| - 1];
            var prev := EffectLines(effects[..|effects| - 1], ids, used, catalog, header, col);
            var row := VariantRow(ids, header, col, e.mutationId);
            EffectLines(effects, ids, used, catalog, header, col)
            == if prev.Err? then prev else if row.Err? then Err(row.error)
               else Ok(prev.value + [AnnotatedLine(e, ids, used, catalog, header, col)])
  {
  }

  /** The body is complete exactly when every effect's row is. */
  lemma {:induction false} EffectLinesSucceed(effects: seq<MutationEffect>, ids: seq<string>, used: seq<string>,
                                              catalog: Catalog, header: seq<string>, col: Columns)
    requires forall h :: h in header ==> h in col
    requires forall e :: e in effects ==> e.mutationId in ids
    ensures EffectLines(effects, ids, used, catalog, header, col).Ok?
            <==> forall e :: e in effects ==> VariantRow(ids, header, col, e.mutationId).Ok?
  {
    if |effects| > 0 {
      var n := |effects| - 1;
      var init, e := effects[..n], effects[n];
      assert forall x :: x in effects <==> x in init || x == e;
      EffectLinesSucceed(init, ids, used, catalog, header, col);
      EffectLinesSnoc(effects, ids, used, catalog, header, col);
    }
  }

  /** Every effect's variant is in the SNP column and its row is complete. */
  predicate RowsComplete(effects: seq<MutationEffect>, ids: seq<string>, header: seq<string>, col: Columns)
    requires forall h :: h in header ==> h in col
  {
    forall k :: 0 <= k < |effects| ==>
      effects[k].mutationId in ids && VariantRow(ids, header, col, effects[k].mutationId).Ok?
  }

  /** The reference body: the line of each effect, in order. */
  function AnnotatedLines(effects: seq<MutationEffect>, ids: seq<string>, used: seq<string>, catalog: Catalog,
                          header: seq<string>, col: Columns): seq<string>
    requires forall h :: h in header ==> h in col
    requires RowsComplete(effects, ids, header, col)
  {
    seq(|effects|, k requires 0 <= k < |effects| => AnnotatedLine(effects[k], ids, used, catalog, header, col))
  }

  /** Dropping the last effect keeps every row complete. */
  lemma RowsCompleteInit(effects: seq<MutationEffect>, ids: seq<string>, header: seq<string>, col: Columns)
    requires forall h :: h in header ==> h in col
    requires |effects| > 0 && RowsComplete(effects, ids, header, col)
    ensures RowsComplete(effects[..|effects| - 1], ids, header, col)
  {
    var init := effects[..|effects| - 1];
    forall k | 0 <= k < |init|
      ensures init[k].mutationId in ids && VariantRow(ids, header, col, init[k].mutationId).Ok?
    {
      assert init[k] == effects[k];
    }
  }

  lemma AnnotatedLinesSnoc(effects: seq<MutationEffect>, ids: seq<string>, used: seq<string>, catalog: Catalog,
                           header: seq<string>, col: Columns)
    requires forall h :: h in header ==> h in col
    requires |effects| > 0 && RowsComplete(effects, ids, header, col)
    ensures RowsComplete(effects[..|effects| - 1], ids, header, col)
    ensures AnnotatedLines(effects, ids, used, catalog, header, col)
            == AnnotatedLines(effects[..|effects| - 1], ids, used, catalog, header, col)
               + [AnnotatedLine(effects[|effects| - 1], ids, used, catalog, header, col)]
  {
    var n := |effects| - 1;
    var init := effects[..n];
    RowsCompleteInit(effects, ids, header, col);
    var whole := AnnotatedLines(effects, ids, used, catalog, header, col);
    var prev := AnnotatedLines(init, ids, used, catalog, header, col);
    var last := AnnotatedLine(effects[n], ids, used, catalog, header, col);
    forall k | 0 <= k < |effects|
      ensures whole[k] == (prev + [last])[k]
    {
      if k < n {
        assert init[k] == effects[k];
      }
    }
  }

  /** With every row complete, the body is the reference one. */
  lemma {:induction false} EffectLinesContent(effects: seq<MutationEffect>, ids: seq<string>, used: seq<string>,
                                              catalog: Catalog, header: seq<string>, col: Columns)
    requires forall h :: h in header ==> h in col
    requires RowsComplete(effects, ids, header, col)
    ensures EffectLines(effects, ids, used, catalog, header, col) == Ok(AnnotatedLines(effects, ids, used, catalog, header, col))
  {
    if |effects| == 0 {
      assert AnnotatedLines(effects, ids, used, catalog, header, col) == [];
    } else {
      var n := |effects| - 1;
      assert effects[n].mutationId in ids && VariantRow(ids, header, col, effects[n].mutationId).Ok?;
      AnnotatedLinesSnoc(effects, ids, used, catalog, header, col);
      EffectLinesContent(effects[..n], ids, used, catalog, header, col);
      EffectLinesSnoc(effects, ids, used, catalog, header, col);
    }
  }

  /**
   * When every effect's variant is in the SNP column, the body has one line
   * per effect, in order, each built from that effect's counts and row; it
   * fails exactly when one of those rows is cut short.
   */
  lemma EffectLinesOnePerEffect(effects: seq<MutationEffect>, ids: seq<string>, used: seq<string>,
                                catalog: Catalog, header: seq<string>, col: Columns)
    requires forall h :: h in header ==> h in col
    requires forall e :: e in effects ==> e.mutationId in ids
    ensures var r := EffectLines(effects, ids, used, catalog, header, col);
            (r.Ok? <==> forall e :: e in effects ==> VariantRow(ids, header, col, e.mutationId).Ok?)
            && (r.Ok? ==>
                |r.value| == |effects|
                && forall k :: 0 <= k < |effects| ==>
                     VariantRow(ids, header, col, effects[k].mutationId).Ok?
                     && r.value[k] == AnnotatedLine(effects[k], ids, used, catalog, header, col))
  {
    EffectLinesSucceed(effects, ids, used, catalog, header, col);
    if EffectLines(effects, ids, used, catalog, header, col).Ok? {
      assert RowsComplete(effects, ids, header, col) by {
        assert forall k :: 0 <= k < |effects| ==> effects[k] in effects;
      }
      EffectLinesContent(effects, ids, used, catalog, header, col);
    }
  }

  // ------------------------------------------------------ missing SNPs

  /** The variants of the SNP column that no retrieved effect names. */
  function MissingIds(ids: seq<string>, retrieved: seq<string>): set<string>
  {
    (set x | x in ids) - (set x | x in retrieved)
  }

  /** A missing-SNP line: each field followed by a tab, then a newline. */
  function MissingLine(fields: seq<string>): string
  {
    FieldsTabbed(fields) + "\n"
  }

  /** The field-then-tab layout leaves a trailing empty field when split. */
  lemma {:induction false} MissingLineFields(fields: seq<string>)
    requires |fields| >= 1 && Free(fields, '\t')
    ensures var line := MissingLine(fields);
            |line| >= 1 && line[|line| - 1] == '\n' && Split(line[..|line| - 1], '\t') == fields + [""]
  {
    FieldsTabbedJoin(fields);
    var line := MissingLine(fields);
    assert line[..|line| - 1] == Join(fields, "\t") + "\t" + "";
    JoinAppend(fields, "\t", "");
    assert Free(fields + [""], '\t') by {
      forall i | 0 <= i < |fields + [""]|
        ensures '\t' !in (fields + [""])[i]
      {
        if i < |fields| {
          assert (fields + [""])[i] == fields[i];
        }
      }
    }
    SplitJoin(fields + [""], '\t');
  }

  lemma {:induction false} FieldsTabbedJoin(fields: seq<string>)
    requires |fields| >= 1
    ensures FieldsTabbed(fields) == Join(fields, "\t") + "\t"
  {
    var init := fields[..|fields| - 1];
    var last := fields[|fields| - 1];
    if |fields| == 1 {
      assert FieldsTabbed(fields) == FieldsTabbed(init) + last + "\t";
    } else {
      FieldsTabbedJoin(init);
      JoinAppend(init, "\t", last);
      assert init + [last] == fields;
    }
  }

  /** The lines of the missing SNPs in the order given; ids outside the column are skipped. */
  function MissingLines(order: seq<string>, ids: seq<string>, header: seq<string>, col: Columns): (r: Result<seq<string>>)
    requires forall h :: h in header ==> h in col
    ensures r.Err? ==> r.error == IndexError
  {
    if |order| == 0 then Ok([])
    else
      var x := order[|order| - 1];
      match MissingLines(order[..|order| - 1], ids, header, col)
      case Err(e) => Err(e)
      case Ok(lines) =>
        if x !in ids then Ok(lines)
        else match RowFields(header, col, IndexOf(ids, x))
          case Err(e) => Err(e)
          case Ok(fields) => Ok(lines + [MissingLine(fields)])
  }

  /** The lines for one more SNP of the column. */
  lemma MissingLinesSnoc(order: seq<string>, ids: seq<string>, header: seq<string>, col: Columns)
    requires forall h :: h in header ==> h in col
    requires |order| > 0 && order[|order| - 1] in ids
    ensures var prev := MissingLines(order[..|order| - 1], ids, header, col);
            var row := VariantRow(ids, header, col, order[|order| - 1]);
            MissingLines(order, ids, header, col)
            == if prev.Err? then prev else if row.Err? then Err(row.error) else Ok(prev.value + [MissingLine(row.value)])
  {
  }

  /** The lines are complete exactly when every listed SNP's row is. */
  lemma {:induction false} MissingLinesSucceed(order: seq<string>, ids: seq<string>, header: seq<string>, col: Columns)
    requires forall h :: h in header ==> h in col
    requires forall x :: x in order ==> x in ids
    ensures MissingLines(order, ids, header, col).Ok?
            <==> forall x :: x in order ==> VariantRow(ids, header, col, x).Ok?
  {
    if |order| > 0 {
      var n := |order| - 1;
      var init, x := order[..n], order[n];
      assert forall y :: y in order <==> y in init || y == x;
      MissingLinesSucceed(init, ids, header, col);
      MissingLinesSnoc(order, ids, header, col);
    }
  }

  /** Every listed SNP is in the SNP column and its row is complete. */
  predicate SnpRowsComplete(order: seq<string>, ids: seq<string>, header: seq<string>, col: Columns)
    requires forall h :: h in header ==> h in col
  {
    forall k :: 0 <= k < |order| ==> order[k] in ids && VariantRow(ids, header, col, order[k]).Ok?
  }

  /** The reference lines: the row of each listed SNP, in order. */
  function RowLines(order: seq<string>, ids: seq<string>, header: seq<string>, col: Columns): seq<string>
    requires forall h :: h in header ==> h in col
    requires SnpRowsComplete(order, ids, header, col)
  {
    seq(|order|, k requires 0 <= k < |order| => MissingLine(VariantRow(ids, header, col, order[k]).value))
  }

  /** Dropping the last SNP keeps every row complete. */
  lemma SnpRowsCompleteInit(order: seq<string>, ids: seq<string>, header: seq<string>, col: Columns)
    requires forall h :: h in header ==> h in col
    requires |order| > 0 && SnpRowsComplete(order, ids, header, col)
    ensures SnpRowsComplete(order[..|order| - 1], ids, header, col)
  {
    var init := order[..|order| - 1];
    forall k | 0 <= k < |init|
      ensures init[k] in ids && VariantRow(ids, header, col, init[k]).Ok?
    {
      assert init[k] == order[k];
    }
  }

  lemma RowLinesSnoc(order: seq<string>, ids: seq<string>, header: seq<string>, col: Columns)
    requires forall h :: h in header ==> h in col
    requires |order| > 0 && SnpRowsComplete(order, ids, header, col)
    ensures SnpRowsComplete(order[..|order| - 1], ids, header, col)
    ensures RowLines(order, ids, header, col)
            == RowLines(order[..|order| - 1], ids, header, col)
               + [MissingLine(VariantRow(ids, header, col, order[|order| - 1]).value)]
  {
    var n := |order| - 1;
    var init := order[..n];
    SnpRowsCompleteInit(order, ids, header, col);
    var whole := RowLines(order, ids, header, col);
    var prev := RowLines(init, ids, header, col);
    var last := MissingLine(VariantRow(ids, header, col, order[n]).value);
    forall k | 0 <= k < |order|
      ensures whole[k] == (prev + [last])[k]
    {
      if k < n {
        assert init[k] == order[k];
      }
    }
  }

  /** With every row complete, the lines are the reference ones. */
  lemma {:induction false} MissingLinesContent(order: seq<string>, ids: seq<string>, header: seq<string>, col: Columns)
    requires forall h :: h in header ==> h in col
    requires SnpRowsComplete(order, ids, header, col)
    ensures MissingLines(order, ids, header, col) == Ok(RowLines(order, ids, header, col))
  {
    if |order| == 0 {
      assert RowLines(order, ids, header, col) == [];
    } else {
      var n := |order| - 1;
      assert order[n] in ids && VariantRow(ids, header, col, order[n]).Ok?;
      RowLinesSnoc(order, ids, header, col);
      MissingLinesContent(order[..n], ids, header, col);
      MissingLinesSnoc(order, ids, header, col);
    }
  }

  /**
   * When every listed SNP is in the column, there is one line per SNP, in
   * order, each its row in the field-then-tab layout; the file fails
   * exactly when one of those rows is cut short.
   */
  lemma MissingLinesOnePerSnp(order: seq<string>, ids: seq<string>, header: seq<string>, col: Columns)
    requires forall h :: h in header ==> h in col
    requires forall x :: x in order ==> x in ids
    ensures MissingLines(order, ids, header, col).Ok?
            <==> forall x :: x in order ==> VariantRow(ids, header, col, x).Ok?
    ensures var r := MissingLines(order, ids, header, col);
            r.Ok? ==> |r.value| == |order|
                      && forall k :: 0 <= k < |order| ==>
                           VariantRow(ids, header, col, order[k]).Ok?
                           && r.value[k] == MissingLine(VariantRow(ids, header, col, order[k]).value)
  {
    MissingLinesSucceed(order, ids, header, col);
    if MissingLines(order, ids, header, col).Ok? {
      assert SnpRowsComplete(order, ids, header, col) by {
        assert forall k :: 0 <= k < |order| ==> order[k] in order;
      }
      MissingLinesContent(order, ids, header, col);
    }
  }

  /** The missing-SNP file: nothing when no SNP is missing, else the result's header and one line per SNP. */
  function MissingReport(order: seq<string>, ids: seq<string>, header: seq<string>, col: Columns): (r: Result<seq<string>>)
    requires forall h :: h in header ==> h in col
    ensures r.Err? ==> r.error == IndexError
  {
    if |order| == 0 then Ok([])
    else match MissingLines(order, ids, header, col)
      case Err(e) => Err(e)
      case Ok(lines) => Ok([Join(header, "\t") + "\n"] + lines)
  }

  // ---------------------------------------------------------- the script

  /** The header of a non-empty result and its columns. */
  function Parsed(result: seq<seq<string>>): Columns
    requires |result| > 0
  {
    ColumnsOf(result[0], result[1..])
  }

  /** The SNP column of a result, empty when there is none. */
  function SnpIds(result: seq<seq<string>>): seq<string>
  {
    if |result| > 0 && SNP_COLUMN in Parsed(result) then Parsed(result)[SNP_COLUMN] else []
  }

  /** The effects the catalogue holds for the result's SNPs, in table order. */
  function RetrievedEffects(result: seq<seq<string>>, catalog: Catalog): seq<MutationEffect>
  {
    EffectsFor(catalog.effects, set x | x in SnpIds(result))
  }

  /**
   * The whole script, given the families rows, the tab-separated result
   * rows and the order in which the set of missing SNPs is visited.
   */
  function MapResult(families: seq<seq<string>>, result: seq<seq<string>>, catalog: Catalog, order: seq<string>): (r: Result<Report>)
    ensures UsedLines(families).Err? ==> r == Err(IndexError)
    ensures r == Err(StopIteration) <==> UsedLines(families).Ok? && |result| == 0
    ensures r == Err(KeyError(SNP_COLUMN)) <==>
              UsedLines(families).Ok? && |result| > 0 && SNP_COLUMN !in result[0]
    ensures r.Err? ==> r.error == IndexError || r.error == StopIteration || r.error == KeyError(SNP_COLUMN)
  {
    match UsedLines(families)
    case Err(e) => Err(e)
    case Ok(used) =>
      if |result| == 0 then Err(StopIteration)
      else
        var header := result[0];
        var col := Parsed(result);
        if SNP_COLUMN !in col then Err(KeyError(SNP_COLUMN))
        else
          var ids := col[SNP_COLUMN];
          match EffectLines(RetrievedEffects(result, catalog), ids, used, catalog, header, col)
          case Err(e) => Err(e)
          case Ok(lines) =>
            match MissingReport(order, ids, header, col)
            case Err(e) => Err(e)
            case Ok(missing) => Ok(Report([HeaderLine(header)] + lines, missing))
  }

  /** One step of the effect loop, in terms of its specification. */
  lemma EffectLinesStep(effects: seq<MutationEffect>, k: nat, ids: seq<string>, used: seq<string>, catalog: Catalog,
                        header: seq<string>, col: Columns, lines: seq<string>)
    requires forall h :: h in header ==> h in col
    requires k < |effects| && EffectLines(effects[..k], ids, used, catalog, header, col) == Ok(lines)
    ensures var e := effects[k];
            var next := EffectLines(effects[..k + 1], ids, used, catalog, header, col);
            if e.mutationId !in ids then next == Ok(lines)
            else
              var fields := RowFields(header, col, IndexOf(ids, e.mutationId));
              if fields.Err? then next == Err(fields.error)
              else next == Ok(lines + [EffectLine(e, UsedLineCount(catalog, e.mutationId, used),
                                                  LineCount(catalog, e.mutationId), TotalLines(catalog), fields.value)])
  {
    assert effects[..k + 1][..k] == effects[..k];
  }

  /**
   * The effect loop with its two count caches: the carriers of a variant are
   * queried once, the first time one of its effects comes up.
   */
  method AnnotateEffects(effects: seq<MutationEffect>, ids: seq<string>, used: seq<string>, catalog: Catalog,
                         header: seq<string>, col: Columns)
    returns (r: Result<seq<string>>, retrieved: seq<string>, ghost queries: nat)
    requires forall h :: h in header ==> h in col
    ensures r == EffectLines(effects, ids, used, catalog, header, col)
    ensures r.Ok? ==> retrieved == EffectIds(effects) && queries == |IdsOf(effects)|
  {
    var allCache: map<string, nat> := map[];
    var usedCache: map<string, nat> := map[];
    var lines: seq<string> := [];
    retrieved := [];
    queries := 0;
    var total := TotalLines(catalog);
    var k := 0;
    assert effects[..0] == [];
    assert EffectLines([], ids, used, catalog, header, col) == Ok([]);
    assert EffectLines(effects[..k], ids, used, catalog, header, col) == Ok(lines);
    while k < |effects|
      invariant 0 <= k <= |effects|
      invariant EffectLines(effects[..k], ids, used, catalog, header, col) == Ok(lines)
      invariant retrieved == EffectIds(effects[..k])
      invariant CountCaches(allCache, usedCache, effects[..k], catalog, used)
      invariant queries == |allCache.Keys|
    {
      var e := effects[k];
      var id := e.mutationId;
      EffectLinesStep(effects, k, ids, used, catalog, header, col, lines);
      EffectIdsSnoc(effects, k);
      retrieved := retrieved + [id];
      var all, usedCount;
      if id in allCache {
        all, usedCount := allCache[id], usedCache[id];
        CountCachesHit(allCache, usedCache, effects, k, catalog, used);
      } else {
        var lineNames := Renamed(CarrierLines(catalog.carriers, id));
        all, usedCount := |lineNames|, CountIn(lineNames, used);
        CountCachesMiss(allCache, usedCache, effects, k, catalog, used);
        allCache := allCache[id := all];
        usedCache := usedCache[id := usedCount];
        queries := queries + 1;
      }
      assert all == LineCount(catalog, id) && usedCount == UsedLineCount(catalog, id, used);
      if id in ids {
        var fields := RowFields(header, col, IndexOf(ids, id));
        if fields.Err? {
          EffectLinesPrefixError(effects, k + 1, ids, used, catalog, header, col);
          return Err(fields.error), retrieved, queries;
        }
        lines := lines + [EffectLine(e, usedCount, all, total, fields.value)];
      }
      assert EffectLines(effects[..k + 1], ids, used, catalog, header, col) == Ok(lines);
      k := k + 1;
      assert EffectLines(effects[..k], ids, used, catalog, header, col) == Ok(lines);
    }
    assert effects[..k] == effects;
    r := Ok(lines);
  }

  /** A failure on a prefix of the effects is a failure of the whole, with the same error. */
  lemma {:induction false} EffectLinesPrefixError(effects: seq<MutationEffect>, k: nat, ids: seq<string>, used: seq<string>,
                                                  catalog: Catalog, header: seq<string>, col: Columns)
    requires forall h :: h in header ==> h in col
    requires k <= |effects| && EffectLines(effects[..k], ids, used, catalog, header, col).Err?
    ensures EffectLines(effects, ids, used, catalog, header, col) == EffectLines(effects[..k], ids, used, catalog, header, col)
    decreases |effects| - k
  {
    if k < |effects| {
      assert effects[..k + 1][..k] == effects[..k];
      EffectLinesPrefixError(effects, k + 1, ids, used, catalog, header, col);
    } else {
      assert effects[..k] == effects;
    }
  }

  /** The loop writing the missing-SNP file, in the order given. */
  method WriteMissing(order: seq<string>, ids: seq<string>, header: seq<string>, col: Columns)
    returns (r: Result<seq<string>>)
    requires forall h :: h in header ==> h in col
    ensures r == MissingReport(order, ids, header, col)
  {
    if |order| == 0 {
      return Ok([]);
    }
    var lines: seq<string> := [];
    var k := 0;
    while k < |order|
      invariant 0 <= k <= |order|
      invariant MissingLines(order[..k], ids, header, col) == Ok(lines)
    {
      var x := order[k];
      assert order[..k + 1][..k] == order[..k];
      if x in ids {
        var fields := RowFields(header, col, IndexOf(ids, x));
        if fields.Err? {
          MissingLinesPrefixError(order, k + 1, ids, header, col);
          return Err(fields.error);
        }
        lines := lines + [MissingLine(fields.value)];
      }
      k := k + 1;
    }
    assert order[..k] == order;
    r := Ok([Join(header, "\t") + "\n"] + lines);
  }

  /** A failure on a prefix of the order is a failure of the whole. */
  lemma {:induction false} MissingLinesPrefixError(order: seq<string>, k: nat, ids: seq<string>, header: seq<string>, col: Columns)
    requires forall h :: h in header ==> h in col
    requires k <= |order| && MissingLines(order[..k], ids, header, col).Err?
    ensures MissingLines(order, ids, header, col) == MissingLines(order[..k], ids, header, col)
    decreases |order| - k
  {
    if k < |order| {
      assert order[..k + 1][..k] == order[..k];
      MissingLinesPrefixError(order, k + 1, ids, header, col);
    } else {
      assert order[..k] == order;
    }
  }

  /**
   * The script: read the families file, the result's header and columns,
   * write the gene map for the retrieved effects, then the missing SNPs in
   * the order returned.
   */
  method MapGwasResult(families: seq<seq<string>>, result: seq<seq<string>>, catalog: Catalog)
    returns (r: Result<Report>, order: seq<string>, ghost queries: nat)
    ensures r == MapResult(families, result, catalog, order)
    ensures r.Ok? ==> Enumerates(order, MissingIds(SnpIds(result), EffectIds(RetrievedEffects(result, catalog))))
    ensures r.Ok? ==> queries == |IdsOf(RetrievedEffects(result, catalog))|
  {
    order := [];
    queries := 0;
    var used := ReadUsedLines(families);
    if used.Err? {
      return Err(used.error), order, queries;
    }
    if |result| == 0 {
      return Err(StopIteration), order, queries;
    }
    var header := result[0];
    var col := ReadColumns(header, result[1..]);
    if SNP_COLUMN !in col {
      return Err(KeyError(SNP_COLUMN)), order, queries;
    }
    var ids := col[SNP_COLUMN];
    var effects := EffectsFor(catalog.effects, set x | x in ids);
    var lines, retrieved;
    lines, retrieved, queries := AnnotateEffects(effects, ids, used.value, catalog, header, col);
    if lines.Err? {
      return Err(lines.error), order, queries;
    }
    order := Enumerate(MissingIds(ids, retrieved));
    var missing := WriteMissing(order, ids, header, col);
    if missing.Err? {
      return Err(missing.error), order, queries;
    }
    r := Ok(Report([HeaderLine(header)] + lines.value, missing.value));
  }

  // ------------------------------------------------------------ properties

  /** A SNP is missing exactly when the catalogue has no effect for it. */
  lemma MissingMeansNoEffect(result: seq<seq<string>>, catalog: Catalog, x: string)
    ensures x in MissingIds(SnpIds(result), EffectIds(RetrievedEffects(result, catalog)))
            <==> x in SnpIds(result) && forall e :: e in catalog.effects ==> e.mutationId != x
  {
    var effects := RetrievedEffects(result, catalog);
    var retrieved := EffectIds(effects);
    if x in retrieved {
      var k :| 0 <= k < |retrieved| && retrieved[k] == x;
      assert effects[k] in effects;
    }
    if x in SnpIds(result) && exists e :: e in catalog.effects && e.mutationId == x {
      var e :| e in catalog.effects && e.mutationId == x;
      assert e in effects;
      var k :| 0 <= k < |effects| && effects[k] == e;
      assert retrieved[k] == x;
    }
  }

  /** The i-th field of every row, for a row long enough, makes a full column. */
  lemma {:induction false} FieldColumnFull(rows: seq<seq<string>>, i: nat)
    requires forall k :: 0 <= k < |rows| ==> i < |rows[k]|
    ensures |FieldColumn(rows, i)| == |rows|
  {
    if |rows| > 0 {
      FieldColumnFull(rows[..|rows| - 1], i);
    }
  }

  /**
   * A well-formed result (non-empty families rows, distinct header names
   * including "SNP", every data row as long as the header) never fails: the
   * only errors left are the ones a malformed input causes.
   */
  lemma WellFormedSucceeds(families: seq<seq<string>>, result: seq<seq<string>>, catalog: Catalog, order: seq<string>)
    requires forall i :: 0 <= i < |families| ==> |families[i]| > 0
    requires |result| > 0 && Distinct(result[0]) && SNP_COLUMN in result[0]
    requires forall k :: 1 <= k < |result| ==> |result[k]| >= |result[0]|
    requires forall x :: x in order ==> x in SnpIds(result)
    ensures MapResult(families, result, catalog, order).Ok?
  {
    var header := result[0];
    var rows := result[1..];
    var col := Parsed(result);
    forall j | 0 <= j < |header|
      ensures |col[header[j]]| == |rows|
    {
      ColumnsOfDistinct(header, rows, j);
      assert forall k :: 0 <= k < |rows| ==> rows[k] == result[k + 1];
      FieldColumnFull(rows, j);
    }
    var ids := col[SNP_COLUMN];
    assert |ids| == |rows| by {
      var j := IndexOf(header, SNP_COLUMN);
      assert header[j] == SNP_COLUMN;
    }
    forall x | x in ids
      ensures VariantRow(ids, header, col, x).Ok?
    {
      forall h | h in header
        ensures IndexOf(ids, x) < |col[h]|
      {
        var j := IndexOf(header, h);
        assert header[j] == h;
      }
    }
    var effects := RetrievedEffects(result, catalog);
    assert forall e :: e in effects ==> e.mutationId in ids;
    EffectLinesOnePerEffect(effects, ids, UsedLines(families).value, catalog, header, col);
    assert EffectLines(effects, ids, UsedLines(families).value, catalog, header, col).Ok?;
    MissingLinesOnePerSnp(order, ids, header, col);
    assert MissingReport(order, ids, header, col).Ok?;
  }

  /** A successful run: the parts it is made of, each complete. */
  lemma MapResultParts(families: seq<seq<string>>, result: seq<seq<string>>, catalog: Catalog, order: seq<string>)
    requires MapResult(families, result, catalog, order).Ok?
    ensures UsedLines(families).Ok? && |result| > 0 && SNP_COLUMN in Parsed(result)
    ensures SnpIds(result) == Parsed(result)[SNP_COLUMN]
    ensures var used := UsedLines(families).value;
            var col := Parsed(result);
            var lines := EffectLines(RetrievedEffects(result, catalog), SnpIds(result), used, catalog, result[0], col);
            var missing := MissingReport(order, SnpIds(result), result[0], col);
            lines.Ok? && missing.Ok?
            && MapResult(families, result, catalog, order).value == Report([HeaderLine(result[0])] + lines.value, missing.value)
  {
  }

  /**
   * A successful run writes the header, then one line per retrieved effect:
   * its annotation followed by its SNP's row.
   */
  lemma GenemapLayout(families: seq<seq<string>>, result: seq<seq<string>>, catalog: Catalog, order: seq<string>)
    requires MapResult(families, result, catalog, order).Ok?
    ensures var genemap := MapResult(families, result, catalog, order).value.genemap;
            var effects := RetrievedEffects(result, catalog);
            var ids := SnpIds(result);
            var col := Parsed(result);
            var used := UsedLines(families).value;
            |genemap| == 1 + |effects| && genemap[0] == HeaderLine(result[0])
            && forall k :: 0 <= k < |effects| ==>
                 effects[k].mutationId in ids && VariantRow(ids, result[0], col, effects[k].mutationId).Ok?
                 && genemap[k + 1] == AnnotatedLine(effects[k], ids, used, catalog, result[0], col)
  {
    MapResultParts(families, result, catalog, order);
    var effects := RetrievedEffects(result, catalog);
    var ids := SnpIds(result);
    var col := Parsed(result);
    var used := UsedLines(families).value;
    assert forall e :: e in effects ==> e.mutationId in ids;
    EffectLinesOnePerEffect(effects, ids, used, catalog, result[0], col);
    var lines := EffectLines(effects, ids, used, catalog, result[0], col).value;
    var genemap := MapResult(families, result, catalog, order).value.genemap;
    assert genemap == [HeaderLine(result[0])] + lines;
    forall k | 0 <= k < |effects|
      ensures effects[k].mutationId in ids && VariantRow(ids, result[0], col, effects[k].mutationId).Ok?
              && genemap[k + 1] == AnnotatedLine(effects[k], ids, used, catalog, result[0], col)
    {
      assert effects[k] in effects;
      assert genemap[k + 1] == lines[k];
    }
  }

  /** The missing-SNP file of complete rows: the header line, then one line per listed SNP. */
  lemma MissingReportLayout(order: seq<string>, ids: seq<string>, header: seq<string>, col: Columns)
    requires forall h :: h in header ==> h in col
    requires forall x :: x in order ==> x in ids
    requires MissingReport(order, ids, header, col).Ok?
    ensures var missing := MissingReport(order, ids, header, col).value;
            |missing| == (if |order| == 0 then 0 else 1 + |order|)
            && (|order| > 0 ==>
                  missing[0] == Join(header, "\t") + "\n"
                  && forall k :: 0 <= k < |order| ==>
                       VariantRow(ids, header, col, order[k]).Ok?
                       && missing[k + 1] == MissingLine(VariantRow(ids, header, col, order[k]).value))
  {
    if |order| > 0 {
      MissingLinesOnePerSnp(order, ids, header, col);
      var lines := MissingLines(order, ids, header, col).value;
      var missing := MissingReport(order, ids, header, col).value;
      assert missing == [Join(header, "\t") + "\n"] + lines;
      forall k | 0 <= k < |order|
        ensures VariantRow(ids, header, col, order[k]).Ok?
                && missing[k + 1] == MissingLine(VariantRow(ids, header, col, order[k]).value)
      {
        assert missing[k + 1] == lines[k];
      }
    }
  }

  /**
   * When some SNP is missing, a successful run writes the result's header
   * and one field-then-tab line per missing SNP, in the order visited.
   */
  lemma MissingLayout(families: seq<seq<string>>, result: seq<seq<string>>, catalog: Catalog, order: seq<string>)
    requires MapResult(families, result, catalog, order).Ok?
    requires forall x :: x in order ==> x in SnpIds(result)
    ensures var missing := MapResult(families, result, catalog, order).value.missing;
            var ids := SnpIds(result);
            var col := Parsed(result);
            |missing| == (if |order| == 0 then 0 else 1 + |order|)
            && (|order| > 0 ==>
                  missing[0] == Join(result[0], "\t") + "\n"
                  && forall k :: 0 <= k < |order| ==>
                       VariantRow(ids, result[0], col, order[k]).Ok?
                       && missing[k + 1] == MissingLine(VariantRow(ids, result[0], col, order[k]).value))
  {
    MapResultParts(families, result, catalog, order);
    MissingReportLayout(order, SnpIds(result), result[0], Parsed(result));
  }
}
