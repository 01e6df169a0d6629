// The gene mapping of a FastEpistasis result.  Each row of the result is a
// pair of SNPs; a pair whose two SNPs both have a known effect becomes one
// line of the gene map (the first SNP's annotation, the pair's eight
// result fields, the second SNP's annotation).  Any other pair is written to
// the missing file by appending its fields to the text of the previous
// output line, which the script never resets: the first such pair before
// any line fails with NameError, and each later one carries all the text
// written for earlier pairs.

module EpistasisJoin {
  import opened Runtime
  import opened Text
  import opened Schema
  import opened Annotation

  /** The result's column names, fixed by the script (the file repeats CHR and SNP). */
  const COLUMNS: seq<string> := ["1_CHR", "1_SNP", "N_SIG", "N_TOT", "PROP", "CHISQ", "2_CHR", "2_SNP"]
  const SNP_1 := "1_SNP"
  const SNP_2 := "2_SNP"

  const FIRST_HEADERS: seq<string> := ["1_ID", "1_FlybaseID", "1_GeneSymbol", "1_Position", "1_Type",
    "1_NbOfLinesForMutationInEpistasis", "1_NbOfLinesForMutationInDB", "1_TotalNbOfLinesinDB"]
  const SECOND_HEADERS: seq<string> := ["2_ID", "2_FlybaseID", "2_GeneSymbol", "2_Position", "2_Type",
    "2_NbOfLinesForMutationInEpistasis", "2_NbOfLinesForMutationInDB", "2_TotalNbOfLinesinDB"]

  /** The header of the gene map: first SNP's names, the result columns, second SNP's names. */
  function HeaderLine(): string
  {
    Join(FIRST_HEADERS, "\t") + "\t" + Join(COLUMNS, "\t") + "\t" + Join(SECOND_HEADERS, "\t") + "\n"
  }

  lemma FirstHeadersTabFree()
    ensures Free(FIRST_HEADERS, '\t')
  {
    forall i | 0 <= i < |FIRST_HEADERS|
      ensures '\t' !in FIRST_HEADERS[i]
    {
      var name := FIRST_HEADERS[i];
      assert forall j :: 0 <= j < |name| ==> '0' <= name[j] <= 'z';
    }
  }

  lemma ColumnsTabFree()
    ensures Free(COLUMNS, '\t')
  {
    forall i | 0 <= i < |COLUMNS|
      ensures '\t' !in COLUMNS[i]
    {
      var name := COLUMNS[i];
      assert forall j :: 0 <= j < |name| ==> '0' <= name[j] <= 'z';
    }
  }

  lemma SecondHeadersTabFree()
    ensures Free(SECOND_HEADERS, '\t')
  {
    forall i | 0 <= i < |SECOND_HEADERS|
      ensures '\t' !in SECOND_HEADERS[i]
    {
      var name := SECOND_HEADERS[i];
      assert forall j :: 0 <= j < |name| ==> '0' <= name[j] <= 'z';
    }
  }

  /** Three tab-joined blocks of tab-free names, tab-separated, split back into the names. */
  lemma ThreeBlocksFields(a: seq<string>, b: seq<string>, c: seq<string>)
    requires |a| >= 1 && |b| >= 1 && |c| >= 1
    requires Free(a, '\t') && Free(b, '\t') && Free(c, '\t')
    ensures Split(Join(a, "\t") + "\t" + Join(b, "\t") + "\t" + Join(c, "\t"), '\t') == a + b + c
  {
    JoinConcat(a, b, "\t");
    JoinConcat(a + b, c, "\t");
    FreeConcat(a, b, '\t');
    FreeConcat(a + b, c, '\t');
    SplitJoin(a + b + c, '\t');
  }

  /** Without its newline, the header splits into the twenty-four column names. */
  lemma HeaderLineFields()
    ensures var line := HeaderLine();
            |line| >= 1 && line[|line| - 1] == '\n'
            && Split(line[..|line| - 1], '\t') == FIRST_HEADERS + COLUMNS + SECOND_HEADERS
  {
    var line := HeaderLine();
    var body := Join(FIRST_HEADERS, "\t") + "\t" + Join(COLUMNS, "\t") + "\t" + Join(SECOND_HEADERS, "\t");
    assert line == body + "\n";
    assert line[..|line| - 1] == body;
    FirstHeadersTabFree();
    ColumnsTabFree();
    SecondHeadersTabFree();
    ThreeBlocksFields(FIRST_HEADERS, COLUMNS, SECOND_HEADERS);
  }

  // ----------------------------------------------------------- reading

  /** `filter(None, row)`: the row without its empty fields (runs of spaces). */
  function Filled(row: seq<string>): (r: seq<string>)
    ensures |r| <= |row|
    ensures forall k :: 0 <= k < |r| ==> r[k] != ""
  {
    if |row| == 0 then []
    else Filled(row[..|row| - 1]) + (if row[|row| - 1] == "" then [] else [row[|row| - 1]])
  }

  /** A row with no empty field is kept as it is. */
  lemma {:induction false} FilledKeeps(row: seq<string>)
    requires forall k :: 0 <= k < |row| ==> row[k] != ""
    ensures Filled(row) == row
  {
    if |row| > 0 {
      FilledKeeps(row[..|row| - 1]);
      assert row[..|row| - 1] + [row[|row| - 1]] == row;
    }
  }

  function FilledRows(rows: seq<seq<string>>): (r: seq<seq<string>>)
    ensures |r| == |rows| && forall k :: 0 <= k < |rows| ==> r[k] == Filled(rows[k])
  {
    seq(|rows|, k requires 0 <= k < |rows| => Filled(rows[k]))
  }

  // ------------------------------------------------------------ effects

  /** The first effect of each variant, in query order: `effect_for_mutation_dict`. */
  function FirstEffects(effects: seq<MutationEffect>): (r: map<string, MutationEffect>)
    ensures r.Keys == IdsOf(effects)
  {
    if |effects| == 0 then map[]
    else
      var e := effects[|effects| - 1];
      var m := FirstEffects(effects[..|effects| - 1]);
      IdsOfSnoc(effects, |effects| - 1);
      assert effects[..|effects|] == effects;
      if e.mutationId in m then m else m[e.mutationId := e]
  }

  /** One more effect: kept only when its variant has none yet. */
  lemma FirstEffectsSnoc(effects: seq<MutationEffect>, k: nat)
    requires k < |effects|
    ensures var m := FirstEffects(effects[..k]);
            var e := effects[k];
            FirstEffects(effects[..k + 1]) == if e.mutationId in m then m else m[e.mutationId := e]
  {
    assert effects[..k + 1][..k] == effects[..k];
  }

  /** Position j holds the first effect of variant id. */
  predicate FirstOccurrence(effects: seq<MutationEffect>, j: nat, id: string)
  {
    j < |effects| && effects[j].mutationId == id && forall i :: 0 <= i < j ==> effects[i].mutationId != id
  }

  /** The effect kept for a variant is its first effect in query order. */
  lemma {:induction false} FirstEffectsFirst(effects: seq<MutationEffect>, id: string)
    requires id in IdsOf(effects)
    ensures id in FirstEffects(effects)
    ensures exists j: nat :: FirstOccurrence(effects, j, id) && effects[j] == FirstEffects(effects)[id]
  {
    var n := |effects| - 1;
    var init := effects[..n];
    IdsOfSnoc(effects, n);
    assert effects[..n + 1] == effects;
    if id in IdsOf(init) {
      FirstEffectsFirst(init, id);
      var j: nat :| FirstOccurrence(init, j, id) && init[j] == FirstEffects(init)[id];
      FirstEffectsKept(effects, id, j);
    } else {
      FirstEffectsLast(effects, id);
      assert FirstOccurrence(effects, n, id);
    }
  }

  /** A variant already seen before the last effect keeps the effect it had. */
  lemma FirstEffectsKept(effects: seq<MutationEffect>, id: string, j: nat)
    requires |effects| > 0
    requires var init := effects[..|effects| - 1];
             id in FirstEffects(init) && FirstOccurrence(init, j, id) && init[j] == FirstEffects(init)[id]
    ensures id in FirstEffects(effects)
    ensures FirstOccurrence(effects, j, id) && effects[j] == FirstEffects(effects)[id]
  {
    var n := |effects| - 1;
    var init := effects[..n];
    FirstEffectsSnoc(effects, n);
    assert effects[..n + 1] == effects;
    assert effects[j] == init[j];
    forall i | 0 <= i < j
      ensures effects[i].mutationId != id
    {
      assert effects[i] == init[i];
    }
  }

  /** A variant first seen in the last effect gets that effect. */
  lemma FirstEffectsLast(effects: seq<MutationEffect>, id: string)
    requires |effects| > 0 && id in IdsOf(effects) && id !in IdsOf(effects[..|effects| - 1])
    ensures var n := |effects| - 1;
            effects[n].mutationId == id && id in FirstEffects(effects) && FirstEffects(effects)[id] == effects[n]
            && forall i :: 0 <= i < n ==> effects[i].mutationId != id
  {
    var n := |effects| - 1;
    var init := effects[..n];
    IdsOfSnoc(effects, n);
    FirstEffectsSnoc(effects, n);
    assert effects[..n + 1] == effects;
    forall i | 0 <= i < n
      ensures effects[i].mutationId != id
    {
      assert effects[i] == init[i] && init[i] in init;
    }
  }

  /** The annotation of a variant with a known effect: its first effect and its counts. */
  function Annotated(effects: seq<MutationEffect>, catalog: Catalog, used: seq<string>, id: string): string
    requires id in IdsOf(effects)
  {
    AnnotationText(FirstEffects(effects)[id], UsedLineCount(catalog, id, used), LineCount(catalog, id), TotalLines(catalog))
  }

  /** A gene-map line: both annotations around the pair's fields. */
  function PairLine(first: string, fields: seq<string>, second: string): string
  {
    first + TabFields(fields) + "\t" + second + "\n"
  }

  /** With tab-free text, a gene-map line splits into first annotation, fields, second annotation. */
  lemma PairLineFields(e1: MutationEffect, u1: nat, a1: nat, e2: MutationEffect, u2: nat, a2: nat, total: nat,
                       fields: seq<string>)
    requires '\t' !in e1.mutationId && '\t' !in e1.flybaseId && '\t' !in e1.symbol
    requires '\t' !in e1.position && '\t' !in e1.effectType
    requires '\t' !in e2.mutationId && '\t' !in e2.flybaseId && '\t' !in e2.symbol
    requires '\t' !in e2.position && '\t' !in e2.effectType
    requires Free(fields, '\t')
    ensures var line := PairLine(AnnotationText(e1, u1, a1, total), fields, AnnotationText(e2, u2, a2, total));
            |line| >= 1 && line[|line| - 1] == '\n'
            && Split(line[..|line| - 1], '\t')
               == AnnotationFields(e1, u1, a1, total) + fields + AnnotationFields(e2, u2, a2, total)
  {
    var f1 := AnnotationFields(e1, u1, a1, total);
    var f2 := AnnotationFields(e2, u2, a2, total);
    AnnotationTextJoin(e1, u1, a1, total);
    AnnotationTextJoin(e2, u2, a2, total);
    TabFieldsJoin(f1, fields);
    JoinConcat(f1 + fields, f2, "\t");
    var line := PairLine(AnnotationText(e1, u1, a1, total), fields, AnnotationText(e2, u2, a2, total));
    assert line[..|line| - 1] == Join(f1 + fields, "\t") + "\t" + Join(f2, "\t");
    AnnotationTabFree(e1, u1, a1, total);
    AnnotationTabFree(e2, u2, a2, total);
    FreeConcat(f1, fields, '\t');
    FreeConcat(f1 + fields, f2, '\t');
    SplitJoin(f1 + fields + f2, '\t');
  }

  // ---------------------------------------------------------- the pairs

  /** What the pair loop has written so far, and the value of `output_line` (None: not yet bound). */
  datatype Written = Written(genemap: seq<string>, missing: seq<string>, last: Option<string>)

  /** Both SNPs of a pair have a known effect. */
  predicate Resolved(ids: set<string>, snp1: string, snp2: string)
  {
    snp1 in ids && snp2 in ids
  }

  /** The number of resolved pairs among the first n. */
  function ResolvedCount(n: nat, list1: seq<string>, list2: seq<string>, ids: set<string>): nat
    requires n <= |list1| && n <= |list2|
  {
    if n == 0 then 0
    else ResolvedCount(n - 1, list1, list2, ids) + (if Resolved(ids, list1[n - 1], list2[n - 1]) then 1 else 0)
  }

  /**
   * One iteration of the pair loop, on what the earlier ones wrote.  A
   * second list shorter than the first raises IndexError; so does a pair
   * row whose fields fall short.
   */
  function PairStep(w: Written, i: nat, list1: seq<string>, list2: seq<string>, header: seq<string>, col: Columns,
                    effects: seq<MutationEffect>, catalog: Catalog, used: seq<string>): (r: Result<Written>)
    requires i < |list1|
    requires forall h :: h in header ==> h in col
    ensures r.Err? ==> r.error == IndexError || (r.error == NameError("output_line") && w.last.None?)
    ensures r.Ok? ==> i < |list2| && r.value.last.Some?
    ensures r.Ok? && Resolved(IdsOf(effects), list1[i], list2[i]) ==>
              r.value.genemap == w.genemap + [r.value.last.value] && r.value.missing == w.missing
    ensures r.Ok? && !Resolved(IdsOf(effects), list1[i], list2[i]) ==>
              r.value.genemap == w.genemap && r.value.missing == w.missing + [r.value.last.value]
    ensures r.Ok? && Resolved(IdsOf(effects), list1[i], list2[i]) ==>
              GenemapLineAt(r.value.last.value, i, list1, list2, header, col, effects, catalog, used)
    ensures r.Ok? && !Resolved(IdsOf(effects), list1[i], list2[i]) ==>
              w.last.Some? && RowFields(header, col, i).Ok? &&
              r.value.last.value == w.last.value + TabFields(RowFields(header, col, i).value)
  {
    if i >= |list2| then Err(IndexError)
    else
      var snp1, snp2 := list1[i], list2[i];
      if Resolved(IdsOf(effects), snp1, snp2) then
        match RowFields(header, col, i)
        case Err(e) => Err(e)
        case Ok(fields) =>
          var line := PairLine(Annotated(effects, catalog, used, snp1), fields, Annotated(effects, catalog, used, snp2));
          Ok(Written(w.genemap + [line], w.missing, Some(line)))
      else if w.last.None? then Err(NameError("output_line"))
      else
        match RowFields(header, col, i)
        case Err(e) => Err(e)
        case Ok(fields) =>
          var line := w.last.value + TabFields(fields);
          Ok(Written(w.genemap, w.missing + [line], Some(line)))
  }

  /**
   * `line` is the gene-map line of pair i: the first SNP's annotation, the
   * pair row's fields, then the second SNP's annotation.
   */
  predicate GenemapLineAt(line: string, i: nat, list1: seq<string>, list2: seq<string>, header: seq<string>, col: Columns,
                          effects: seq<MutationEffect>, catalog: Catalog, used: seq<string>)
  {
    i < |list1| && i < |list2| && Resolved(IdsOf(effects), list1[i], list2[i]) &&
    (forall h :: h in header ==> h in col) && RowFields(header, col, i).Ok? &&
    line == PairLine(Annotated(effects, catalog, used, list1[i]), RowFields(header, col, i).value,
                     Annotated(effects, catalog, used, list2[i]))
  }

  /** The first n iterations of the pair loop; `header` names the result's columns (`COLUMNS` in the script). */
  function PairRows(n: nat, list1: seq<string>, list2: seq<string>, header: seq<string>, col: Columns, effects: seq<MutationEffect>,
                    catalog: Catalog, used: seq<string>): (r: Result<Written>)
    requires n <= |list1|
    requires forall h :: h in header ==> h in col
    ensures r.Err? ==> r.error == IndexError || r.error == NameError("output_line")
    ensures r.Ok? ==> n <= |list2| && |r.value.genemap| + |r.value.missing| == n
    ensures r.Ok? ==> |r.value.genemap| == ResolvedCount(n, list1, list2, IdsOf(effects))
    ensures r.Ok? ==> (r.value.last.Some? <==> n > 0)
  {
    if n == 0 then Ok(Written([], [], None))
    else match PairRows(n - 1, list1, list2, header, col, effects, catalog, used)
      case Err(e) => Err(e)
      case Ok(w) => PairStep(w, n - 1, list1, list2, header, col, effects, catalog, used)
  }

  /** One more iteration of the pair loop, after successful ones. */
  lemma PairRowsNext(i: nat, list1: seq<string>, list2: seq<string>, header: seq<string>, col: Columns, effects: seq<MutationEffect>,
                     catalog: Catalog, used: seq<string>, w: Written)
    requires i < |list1|
    requires forall h :: h in header ==> h in col
    requires PairRows(i, list1, list2, header, col, effects, catalog, used) == Ok(w)
    ensures PairRows(i + 1, list1, list2, header, col, effects, catalog, used) == PairStep(w, i, list1, list2, header, col, effects, catalog, used)
  {
  }

  /** Once the pair loop fails, the run fails with that error. */
  lemma {:induction false} PairRowsFailed(n: nat, m: nat, list1: seq<string>, list2: seq<string>, header: seq<string>, col: Columns,
                                          effects: seq<MutationEffect>, catalog: Catalog, used: seq<string>)
    requires n <= m <= |list1|
    requires forall h :: h in header ==> h in col
    requires PairRows(n, list1, list2, header, col, effects, catalog, used).Err?
    ensures PairRows(m, list1, list2, header, col, effects, catalog, used) == PairRows(n, list1, list2, header, col, effects, catalog, used)
    decreases m - n
  {
    if n < m {
      PairRowsFailed(n, m - 1, list1, list2, header, col, effects, catalog, used);
    }
  }

  /** The indices of the resolved pairs among the first n, in increasing order. */
  function ResolvedIndices(n: nat, list1: seq<string>, list2: seq<string>, ids: set<string>): (r: seq<nat>)
    requires n <= |list1| && n <= |list2|
    ensures |r| == ResolvedCount(n, list1, list2, ids)
    ensures forall k :: 0 <= k < |r| ==> r[k] < n && Resolved(ids, list1[r[k]], list2[r[k]])
    ensures forall k, l :: 0 <= k < l < |r| ==> r[k] < r[l]
    ensures forall j :: 0 <= j < n && Resolved(ids, list1[j], list2[j]) ==> j in r
  {
    if n == 0 then []
    else ResolvedIndices(n - 1, list1, list2, ids) + (if Resolved(ids, list1[n - 1], list2[n - 1]) then [n - 1] else [])
  }

  /** The gene-map lines the pair loop writes are, in order, the lines of the resolved pairs. */
  lemma {:induction false} PairRowsGenemap(n: nat, list1: seq<string>, list2: seq<string>, header: seq<string>, col: Columns,
                                           effects: seq<MutationEffect>, catalog: Catalog, used: seq<string>)
    requires n <= |list1|
    requires forall h :: h in header ==> h in col
    requires PairRows(n, list1, list2, header, col, effects, catalog, used).Ok?
    ensures n <= |list2|
    ensures var g := PairRows(n, list1, list2, header, col, effects, catalog, used).value.genemap;
            var idx := ResolvedIndices(n, list1, list2, IdsOf(effects));
            |g| == |idx| &&
            forall k :: 0 <= k < |g| ==> GenemapLineAt(g[k], idx[k], list1, list2, header, col, effects, catalog, used)
  {
    if n > 0 {
      var before := PairRows(n - 1, list1, list2, header, col, effects, catalog, used);
      assert before.Ok?;
      PairRowsGenemap(n - 1, list1, list2, header, col, effects, catalog, used);
      var w := PairRows(n, list1, list2, header, col, effects, catalog, used).value;
      assert PairStep(before.value, n - 1, list1, list2, header, col, effects, catalog, used) == Ok(w);
    }
  }

  /** The indices of the unresolved pairs among the first n, in increasing order. */
  function UnresolvedIndices(n: nat, list1: seq<string>, list2: seq<string>, ids: set<string>): (r: seq<nat>)
    requires n <= |list1| && n <= |list2|
    ensures |r| == n - ResolvedCount(n, list1, list2, ids)
    ensures forall k :: 0 <= k < |r| ==> r[k] < n && !Resolved(ids, list1[r[k]], list2[r[k]])
    ensures forall k, l :: 0 <= k < l < |r| ==> r[k] < r[l]
    ensures forall j :: 0 <= j < n && !Resolved(ids, list1[j], list2[j]) ==> j in r
  {
    if n == 0 then []
    else UnresolvedIndices(n - 1, list1, list2, ids) + (if Resolved(ids, list1[n - 1], list2[n - 1]) then [] else [n - 1])
  }

  /**
   * `line` is the missing-file line of pair j: the line the loop held after
   * pair j - 1, whichever file it went to, followed by pair j's fields.
   */
  predicate MissingLineAt(line: string, j: nat, list1: seq<string>, list2: seq<string>, header: seq<string>, col: Columns,
                          effects: seq<MutationEffect>, catalog: Catalog, used: seq<string>)
  {
    1 <= j <= |list1| && (forall h :: h in header ==> h in col) &&
    var before := PairRows(j, list1, list2, header, col, effects, catalog, used);
    before.Ok? && before.value.last.Some? && RowFields(header, col, j).Ok? &&
    line == before.value.last.value + TabFields(RowFields(header, col, j).value)
  }

  /** The lines the pair loop writes to the missing file are, in order, those of the unresolved pairs. */
  lemma {:induction false} PairRowsMissing(n: nat, list1: seq<string>, list2: seq<string>, header: seq<string>, col: Columns,
                                           effects: seq<MutationEffect>, catalog: Catalog, used: seq<string>)
    requires n <= |list1|
    requires forall h :: h in header ==> h in col
    requires PairRows(n, list1, list2, header, col, effects, catalog, used).Ok?
    ensures n <= |list2|
    ensures var m := PairRows(n, list1, list2, header, col, effects, catalog, used).value.missing;
            var idx := UnresolvedIndices(n, list1, list2, IdsOf(effects));
            |m| == |idx| &&
            forall k :: 0 <= k < |m| ==> MissingLineAt(m[k], idx[k], list1, list2, header, col, effects, catalog, used)
  {
    if n > 0 {
      var before := PairRows(n - 1, list1, list2, header, col, effects, catalog, used);
      assert before.Ok?;
      PairRowsMissing(n - 1, list1, list2, header, col, effects, catalog, used);
      var w := PairRows(n, list1, list2, header, col, effects, catalog, used).value;
      assert PairStep(before.value, n - 1, list1, list2, header, col, effects, catalog, used) == Ok(w);
      var m0, idx0 := before.value.missing, UnresolvedIndices(n - 1, list1, list2, IdsOf(effects));
      var idx := UnresolvedIndices(n, list1, list2, IdsOf(effects));
      if Resolved(IdsOf(effects), list1[n - 1], list2[n - 1]) {
        assert w.missing == m0 && idx == idx0;
      } else {
        var line := before.value.last.value + TabFields(RowFields(header, col, n - 1).value);
        assert w.missing == m0 + [line] && idx == idx0 + [n - 1];
        assert MissingLineAt(line, n - 1, list1, list2, header, col, effects, catalog, used);
        MissingLinesSnoc(m0, line, idx0, n - 1, list1, list2, header, col, effects, catalog, used);
      }
    }
  }

  /** One more missing line, for one more unresolved index, keeps the lines matched to their pairs. */
  lemma MissingLinesSnoc(m: seq<string>, line: string, idx: seq<nat>, j: nat, list1: seq<string>, list2: seq<string>,
                         header: seq<string>, col: Columns, effects: seq<MutationEffect>, catalog: Catalog, used: seq<string>)
    requires |m| == |idx|
    requires forall k :: 0 <= k < |m| ==> MissingLineAt(m[k], idx[k], list1, list2, header, col, effects, catalog, used)
    requires MissingLineAt(line, j, list1, list2, header, col, effects, catalog, used)
    ensures forall k :: 0 <= k < |m| + 1 ==>
              MissingLineAt((m + [line])[k], (idx + [j])[k], list1, list2, header, col, effects, catalog, used)
  {
    assert (m + [line])[..|m|] == m && (idx + [j])[..|idx|] == idx;
    assert forall k :: 0 <= k < |m| ==> (m + [line])[k] == (m + [line])[..|m|][k] && (idx + [j])[k] == (idx + [j])[..|idx|][k];
  }

  // ----------------------------------------------------------- the script

  /** The columns of the pair rows: three lines skipped, empty fields dropped. */
  function PairColumns(result: seq<seq<string>>): (col: Columns)
    requires |result| >= 3
    ensures forall h :: h in COLUMNS ==> h in col
    ensures SNP_1 in col && SNP_2 in col
  {
    ColumnsOf(COLUMNS, FilledRows(result[3..]))
  }

  /** Reading the pair rows into their columns. */
  method ReadPairColumns(result: seq<seq<string>>) returns (col: Columns)
    requires |result| >= 3
    ensures col == PairColumns(result)
  {
    col := ReadColumns(COLUMNS, FilledRows(result[3..]));
  }

  /** `set(list_snp_ids_1 + list_snp_ids_2)`. */
  function PairIds(col: Columns): set<string>
    requires SNP_1 in col && SNP_2 in col
  {
    set x | x in col[SNP_1] + col[SNP_2]
  }

  /** The effects the catalogue holds for either SNP of any pair, in table order. */
  function PairEffects(result: seq<seq<string>>, catalog: Catalog): seq<MutationEffect>
    requires |result| >= 3
  {
    EffectsFor(catalog.effects, PairIds(PairColumns(result)))
  }

  /** The whole script, given the families rows and the space-separated result rows. */
  function MapPairs(families: seq<seq<string>>, result: seq<seq<string>>, catalog: Catalog): (r: Result<Report>)
    ensures UsedLines(families).Err? ==> r == Err(IndexError)
    ensures r == Err(StopIteration) <==> UsedLines(families).Ok? && |result| < 3
    ensures r.Ok? ==> |r.value.genemap| >= 1 && r.value.genemap[0] == HeaderLine()
  {
    match UsedLines(families)
    case Err(e) => Err(e)
    case Ok(used) =>
      if |result| < 3 then Err(StopIteration)
      else
        var col := PairColumns(result);
        var list1 := col[SNP_1];
        match PairRows(|list1|, list1, col[SNP_2], COLUMNS, col, PairEffects(result, catalog), catalog, used)
        case Err(e) => Err(e)
        case Ok(w) => Ok(Report([HeaderLine()] + w.genemap, w.missing))
  }

  /** The first effect and both counts of each variant, as the effect loop caches them. */
  ghost predicate Cached(effectFor: map<string, MutationEffect>, allCounts: map<string, nat>, usedCounts: map<string, nat>,
                         effects: seq<MutationEffect>, catalog: Catalog, used: seq<string>)
  {
    effectFor == FirstEffects(effects) && CountCaches(allCounts, usedCounts, effects, catalog, used)
  }

  /** A variant seen for the first time: its effect is remembered and its counts cached. */
  lemma CachedMiss(effectFor: map<string, MutationEffect>, allCounts: map<string, nat>, usedCounts: map<string, nat>,
                   effects: seq<MutationEffect>, k: nat, catalog: Catalog, used: seq<string>)
    requires k < |effects| && Cached(effectFor, allCounts, usedCounts, effects[..k], catalog, used)
    requires effects[k].mutationId !in allCounts
    ensures var id := effects[k].mutationId;
            var all := allCounts[id := LineCount(catalog, id)];
            Cached(effectFor[id := effects[k]], all, usedCounts[id := UsedLineCount(catalog, id, used)],
                   effects[..k + 1], catalog, used)
            && |all.Keys| == |allCounts.Keys| + 1
  {
    CountCachesMiss(allCounts, usedCounts, effects, k, catalog, used);
    FirstEffectsSnoc(effects, k);
  }

  /** A variant seen before: nothing changes. */
  lemma CachedHit(effectFor: map<string, MutationEffect>, allCounts: map<string, nat>, usedCounts: map<string, nat>,
                  effects: seq<MutationEffect>, k: nat, catalog: Catalog, used: seq<string>)
    requires k < |effects| && Cached(effectFor, allCounts, usedCounts, effects[..k], catalog, used)
    requires effects[k].mutationId in allCounts
    ensures Cached(effectFor, allCounts, usedCounts, effects[..k + 1], catalog, used)
  {
    CountCachesHit(allCounts, usedCounts, effects, k, catalog, used);
    FirstEffectsSnoc(effects, k);
  }

  /** The effect loop: remember each variant's first effect and query its counts once. */
  method CollectEffects(effects: seq<MutationEffect>, catalog: Catalog, used: seq<string>)
    returns (retrieved: seq<string>, effectFor: map<string, MutationEffect>, allCounts: map<string, nat>,
             usedCounts: map<string, nat>, ghost queries: nat)
    ensures retrieved == EffectIds(effects)
    ensures Cached(effectFor, allCounts, usedCounts, effects, catalog, used)
    ensures queries == |IdsOf(effects)|
  {
    retrieved, effectFor, allCounts, usedCounts := [], map[], map[], map[];
    queries := 0;
    var k := 0;
    while k < |effects|
      invariant 0 <= k <= |effects|
      invariant retrieved == EffectIds(effects[..k])
      invariant Cached(effectFor, allCounts, usedCounts, effects[..k], catalog, used)
      invariant queries == |allCounts.Keys|
    {
      var e := effects[k];
      var id := e.mutationId;
      EffectIdsSnoc(effects, k);
      retrieved := retrieved + [id];
      if id !in allCounts {
        var lineNames := Renamed(CarrierLines(catalog.carriers, id));
        CachedMiss(effectFor, allCounts, usedCounts, effects, k, catalog, used);
        effectFor := effectFor[id := e];
        allCounts := allCounts[id := |lineNames|];
        usedCounts := usedCounts[id := CountIn(lineNames, used)];
        queries := queries + 1;
      } else {
        CachedHit(effectFor, allCounts, usedCounts, effects, k, catalog, used);
      }
      k := k + 1;
    }
    assert effects[..k] == effects;
  }

  /** One resolved pair, from the caches: the line the script writes to the gene map. */
  method ResolvedLine(snp1: string, snp2: string, fields: seq<string>, effectFor: map<string, MutationEffect>,
                      allCounts: map<string, nat>, usedCounts: map<string, nat>, total: nat,
                      ghost effects: seq<MutationEffect>, ghost catalog: Catalog, ghost used: seq<string>)
    returns (line: string)
    requires Cached(effectFor, allCounts, usedCounts, effects, catalog, used) && total == TotalLines(catalog)
    requires snp1 in IdsOf(effects) && snp2 in IdsOf(effects)
    ensures line == PairLine(Annotated(effects, catalog, used, snp1), fields, Annotated(effects, catalog, used, snp2))
  {
    var first := AnnotationText(effectFor[snp1], usedCounts[snp1], allCounts[snp1], total);
    var second := AnnotationText(effectFor[snp2], usedCounts[snp2], allCounts[snp2], total);
    line := PairLine(first, fields, second);
  }

  /** One iteration of the pair loop, from the caches. */
  method WritePair(w: Written, i: nat, list1: seq<string>, list2: seq<string>, header: seq<string>, col: Columns, retrieved: seq<string>,
                   effectFor: map<string, MutationEffect>, allCounts: map<string, nat>, usedCounts: map<string, nat>,
                   total: nat, ghost effects: seq<MutationEffect>, ghost catalog: Catalog, ghost used: seq<string>)
    returns (r: Result<Written>)
    requires i < |list1|
    requires forall h :: h in header ==> h in col
    requires retrieved == EffectIds(effects)
    requires Cached(effectFor, allCounts, usedCounts, effects, catalog, used) && total == TotalLines(catalog)
    requires PairRows(i, list1, list2, header, col, effects, catalog, used) == Ok(w)
    ensures r == PairStep(w, i, list1, list2, header, col, effects, catalog, used)
    ensures r == PairRows(i + 1, list1, list2, header, col, effects, catalog, used)
  {
    PairRowsNext(i, list1, list2, header, col, effects, catalog, used, w);
    if i >= |list2| {
      return Err(IndexError);
    }
    var snp1, snp2 := list1[i], list2[i];
    EffectIdsMembers(effects, snp1);
    EffectIdsMembers(effects, snp2);
    if snp1 in retrieved && snp2 in retrieved {
      var fields := RowFields(header, col, i);
      if fields.Err? {
        return Err(fields.error);
      }
      var line := ResolvedLine(snp1, snp2, fields.value, effectFor, allCounts, usedCounts, total, effects, catalog, used);
      return Ok(Written(w.genemap + [line], w.missing, Some(line)));
    }
    if w.last.None? {
      return Err(NameError("output_line"));
    }
    var fields := RowFields(header, col, i);
    if fields.Err? {
      return Err(fields.error);
    }
    var line := w.last.value + TabFields(fields.value);
    return Ok(Written(w.genemap, w.missing + [line], Some(line)));
  }

  /** The pair loop over the rows of the result. */
  method WritePairs(list1: seq<string>, list2: seq<string>, header: seq<string>, col: Columns, retrieved: seq<string>,
                    effectFor: map<string, MutationEffect>, allCounts: map<string, nat>, usedCounts: map<string, nat>,
                    total: nat, ghost effects: seq<MutationEffect>, ghost catalog: Catalog, ghost used: seq<string>)
    returns (r: Result<Written>)
    requires forall h :: h in header ==> h in col
    requires retrieved == EffectIds(effects)
    requires Cached(effectFor, allCounts, usedCounts, effects, catalog, used) && total == TotalLines(catalog)
    ensures r == PairRows(|list1|, list1, list2, header, col, effects, catalog, used)
  {
    var w := Written([], [], None);
    var i := 0;
    while i < |list1|
      invariant 0 <= i <= |list1|
      invariant PairRows(i, list1, list2, header, col, effects, catalog, used) == Ok(w)
    {
      var step := WritePair(w, i, list1, list2, header, col, retrieved, effectFor, allCounts, usedCounts, total,
                            effects, catalog, used);
      if step.Err? {
        PairRowsFailed(i + 1, |list1|, list1, list2, header, col, effects, catalog, used);
        return step;
      }
      w := step.value;
      i := i + 1;
    }
    r := Ok(w);
  }

  /** The script: families, three header lines, the pair columns, the effects, the pairs. */
  method MapEpistasisResult(families: seq<seq<string>>, result: seq<seq<string>>, catalog: Catalog)
    returns (r: Result<Report>, ghost queries: nat)
    ensures r == MapPairs(families, result, catalog)
    ensures r.Ok? ==> queries == |IdsOf(PairEffects(result, catalog))|
  {
    queries := 0;
    var used := ReadUsedLines(families);
    if used.Err? {
      return Err(used.error), queries;
    }
    if |result| < 3 {
      return Err(StopIteration), queries;
    }
    var col := ReadPairColumns(result);
    var list1, list2 := col[SNP_1], col[SNP_2];
    var effects := EffectsFor(catalog.effects, set x | x in list1 + list2);
    var retrieved, effectFor, allCounts, usedCounts;
    retrieved, effectFor, allCounts, usedCounts, queries := CollectEffects(effects, catalog, used.value);
    var w := WritePairs(list1, list2, COLUMNS, col, retrieved, effectFor, allCounts, usedCounts, TotalLines(catalog),
                        effects, catalog, used.value);
    if w.Err? {
      return Err(w.error), queries;
    }
    r := Ok(Report([HeaderLine()] + w.value.genemap, w.value.missing));
  }

  // ------------------------------------------------------------ properties

  /** A first pair without two known effects finds `output_line` unbound: the run fails with NameError. */
  lemma UnresolvedFirstPairFails(families: seq<seq<string>>, result: seq<seq<string>>, catalog: Catalog)
    requires UsedLines(families).Ok? && |result| >= 3
    requires var col := PairColumns(result);
             |col[SNP_1]| > 0 && |col[SNP_2]| > 0
             && !Resolved(IdsOf(PairEffects(result, catalog)), col[SNP_1][0], col[SNP_2][0])
    ensures MapPairs(families, result, catalog) == Err(NameError("output_line"))
  {
    var col := PairColumns(result);
    var used := UsedLines(families).value;
    var effects := PairEffects(result, catalog);
    assert PairRows(1, col[SNP_1], col[SNP_2], COLUMNS, col, effects, catalog, used) == Err(NameError("output_line"));
    PairRowsFailed(1, |col[SNP_1]|, col[SNP_1], col[SNP_2], COLUMNS, col, effects, catalog, used);
  }

  /**
   * A resolved pair followed by an unresolved one: the missing file receives
   * the whole gene-map line of the first pair, newline included, with the
   * second pair's fields appended.
   */
  lemma StaleLineCarriedOver(list1: seq<string>, list2: seq<string>, header: seq<string>, col: Columns, effects: seq<MutationEffect>,
                             catalog: Catalog, used: seq<string>)
    requires 2 <= |list1| && 2 <= |list2|
    requires forall h :: h in header ==> h in col
    requires Resolved(IdsOf(effects), list1[0], list2[0]) && !Resolved(IdsOf(effects), list1[1], list2[1])
    requires PairRows(2, list1, list2, header, col, effects, catalog, used).Ok?
    ensures var w := PairRows(2, list1, list2, header, col, effects, catalog, used).value;
            |w.genemap| == 1 && |w.missing| == 1
            && w.genemap[0] == PairLine(Annotated(effects, catalog, used, list1[0]), RowFields(header, col, 0).value,
                                        Annotated(effects, catalog, used, list2[0]))
            && w.missing[0] == w.genemap[0] + TabFields(RowFields(header, col, 1).value)
  {
    var w0 := PairRows(0, list1, list2, header, col, effects, catalog, used);
    assert w0 == Ok(Written([], [], None));
    var w1 := PairRows(1, list1, list2, header, col, effects, catalog, used);
    var w2 := PairRows(2, list1, list2, header, col, effects, catalog, used);
    assert w1.Ok?;
    assert RowFields(header, col, 0).Ok?;
    var line := PairLine(Annotated(effects, catalog, used, list1[0]), RowFields(header, col, 0).value,
                         Annotated(effects, catalog, used, list2[0]));
    assert w1.value == Written([line], [], Some(line));
    assert RowFields(header, col, 1).Ok?;
  }

  /** A pair counts as resolved exactly when the gene map gets a line for it. */
  lemma GenemapLinesAreResolvedPairs(families: seq<seq<string>>, result: seq<seq<string>>, catalog: Catalog)
    requires MapPairs(families, result, catalog).Ok?
    ensures var col := PairColumns(result);
            var report := MapPairs(families, result, catalog).value;
            |col[SNP_1]| <= |col[SNP_2]|
            && |report.genemap| == 1 + ResolvedCount(|col[SNP_1]|, col[SNP_1], col[SNP_2], IdsOf(PairEffects(result, catalog)))
            && |report.genemap| - 1 + |report.missing| == |col[SNP_1]|
  {
    var col := PairColumns(result);
    var w := PairRows(|col[SNP_1]|, col[SNP_1], col[SNP_2], COLUMNS, col, PairEffects(result, catalog), catalog,
                      UsedLines(families).value);
    assert w.Ok? && MapPairs(families, result, catalog).value == Report([HeaderLine()] + w.value.genemap, w.value.missing);
  }

  /**
   * The gene-map file of a successful run: the fixed header, then, for each
   * pair whose two SNPs both have a known effect and in row order, the first
   * SNP's annotation, the pair row's columns and the second SNP's annotation.
   */
  lemma PairGenemapLayout(families: seq<seq<string>>, result: seq<seq<string>>, catalog: Catalog)
    requires MapPairs(families, result, catalog).Ok?
    ensures UsedLines(families).Ok? && |result| >= 3
    ensures var col := PairColumns(result);
            var effects := PairEffects(result, catalog);
            var genemap := MapPairs(families, result, catalog).value.genemap;
            |col[SNP_1]| <= |col[SNP_2]| &&
            var idx := ResolvedIndices(|col[SNP_1]|, col[SNP_1], col[SNP_2], IdsOf(effects));
            |genemap| == 1 + |idx| && genemap[0] == HeaderLine()
            && forall k :: 0 <= k < |idx| ==>
                 GenemapLineAt(genemap[k + 1], idx[k], col[SNP_1], col[SNP_2], COLUMNS, col, effects, catalog,
                               UsedLines(families).value)
  {
    var col := PairColumns(result);
    var effects := PairEffects(result, catalog);
    var used := UsedLines(families).value;
    var w := PairRows(|col[SNP_1]|, col[SNP_1], col[SNP_2], COLUMNS, col, effects, catalog, used);
    var genemap := MapPairs(families, result, catalog).value.genemap;
    assert w.Ok? && genemap == [HeaderLine()] + w.value.genemap;
    PairRowsGenemap(|col[SNP_1]|, col[SNP_1], col[SNP_2], COLUMNS, col, effects, catalog, used);
    HeaderThenPairLines(genemap, w.value.genemap, ResolvedIndices(|col[SNP_1]|, col[SNP_1], col[SNP_2], IdsOf(effects)), col[SNP_1], col[SNP_2], COLUMNS, col, effects, catalog, used);
  }

  /** The pair lines, behind the header, keep their positions shifted by one. */
  lemma HeaderThenPairLines(genemap: seq<string>, lines: seq<string>, idx: seq<nat>, list1: seq<string>,
                            list2: seq<string>, header: seq<string>, col: Columns, effects: seq<MutationEffect>,
                            catalog: Catalog, used: seq<string>)
    requires genemap == [HeaderLine()] + lines && |lines| == |idx|
    requires forall k :: 0 <= k < |lines| ==> GenemapLineAt(lines[k], idx[k], list1, list2, header, col, effects, catalog, used)
    ensures |genemap| == 1 + |idx| && genemap[0] == HeaderLine()
    ensures forall k :: 0 <= k < |idx| ==> GenemapLineAt(genemap[k + 1], idx[k], list1, list2, header, col, effects, catalog, used)
  {
    assert genemap[1..] == lines;
    assert forall k :: 0 <= k < |idx| ==> genemap[k + 1] == genemap[1..][k];
  }


}
