// What the two result-annotation scripts share: the in-memory catalogue
// that stands for the database they query, the list of lines used by the
// run (the first field of each row of the families file), the columns of a
// result file keyed by header, and the eight annotation fields written in
// front of a variant's row.

module Annotation {
  import opened Runtime
  import opened Text
  import opened Schema

  /** The columns of `mutation` the scripts filter on. */
  datatype MutationRow = MutationRow(mutationId: string, refCount: int, altCount: int, typeMutation: string)

  /** The catalogue tables the scripts query, each in table order. */
  datatype Catalog = Catalog(
    mutations: seq<MutationRow>,
    effects: seq<MutationEffect>,
    carriers: seq<AssociationMutationLine>)

  /** The lines a script writes to its gene map and to its file of unmapped variants. */
  datatype Report = Report(genemap: seq<string>, missing: seq<string>)

  // --------------------------------------------------------- families file

  /** The used lines: the first space-separated field of every row; an empty row raises IndexError. */
  function UsedLines(rows: seq<seq<string>>): (r: Result<seq<string>>)
    ensures r.Ok? <==> forall i :: 0 <= i < |rows| ==> |rows[i]| > 0
    ensures r.Ok? ==> |r.value| == |rows| && forall i :: 0 <= i < |rows| ==> r.value[i] == rows[i][0]
    ensures r.Err? ==> r.error == IndexError
  {
    if |rows| == 0 then Ok([])
    else
      var last := rows[|rows| - 1];
      match UsedLines(rows[..|rows| - 1])
      case Err(e) => Err(e)
      case Ok(init) => if |last| == 0 then Err(IndexError) else Ok(init + [last[0]])
  }

  /** The loop over the families file. */
  method ReadUsedLines(rows: seq<seq<string>>) returns (r: Result<seq<string>>)
    ensures r == UsedLines(rows)
  {
    var used: seq<string> := [];
    var k := 0;
    while k < |rows|
      invariant 0 <= k <= |rows|
      invariant UsedLines(rows[..k]) == Ok(used)
    {
      assert rows[..k + 1][..k] == rows[..k];
      if |rows[k]| == 0 {
        return Err(IndexError);
      }
      used := used + [rows[k][0]];
      k := k + 1;
    }
    assert rows[..k] == rows;
    return Ok(used);
  }

  // ------------------------------------------------------- result columns

  /** `column`: header name to the values read under it. */
  type Columns = map<string, seq<string>>

  function NoColumns(header: seq<string>): (r: Columns)
    ensures r.Keys == set h | h in header
  {
    map h | h in header :: []
  }

  /** `for h, v in zip(header, row): column[h].append(v)`. */
  function AddRow(col: Columns, header: seq<string>, row: seq<string>): (r: Columns)
    requires forall h :: h in header ==> h in col
    ensures r.Keys == col.Keys
    decreases |header|
  {
    if |header| == 0 || |row| == 0 then col
    else AddRow(col[header[0] := col[header[0]] + [row[0]]], header[1..], row[1..])
  }

  /** The columns after reading the data rows in order. */
  function ColumnsOf(header: seq<string>, rows: seq<seq<string>>): (r: Columns)
    ensures r.Keys == set h | h in header
  {
    if |rows| == 0 then NoColumns(header)
    else AddRow(ColumnsOf(header, rows[..|rows| - 1]), header, rows[|rows| - 1])
  }

  /** The loop filling `column`, one row at a time and one zipped pair at a time. */
  method ReadColumns(header: seq<string>, rows: seq<seq<string>>) returns (col: Columns)
    ensures col == ColumnsOf(header, rows)
  {
    col := map h | h in header :: [];
    var k := 0;
    while k < |rows|
      invariant 0 <= k <= |rows|
      invariant col == ColumnsOf(header, rows[..k])
    {
      var row := rows[k];
      ghost var start := col;
      var j := 0;
      while j < |header| && j < |row|
        invariant 0 <= j <= |header| && j <= |row|
        invariant col.Keys == start.Keys
        invariant AddRow(col, header[j..], row[j..]) == AddRow(start, header, row)
      {
        assert header[j..][1..] == header[j + 1..] && row[j..][1..] == row[j + 1..];
        col := col[header[j] := col[header[j]] + [row[j]]];
        j := j + 1;
      }
      assert rows[..k + 1][..k] == rows[..k];
      k := k + 1;
    }
    assert rows[..k] == rows;
  }

  predicate Distinct<T(==)>(s: seq<T>)
  {
    forall a, b :: 0 <= a < b < |s| ==> s[a] != s[b]
  }

  /** `order` lists the members of `s`, each once. */
  predicate Enumerates(order: seq<string>, s: set<string>)
  {
    Distinct(order) && (set x | x in order) == s
  }

  /** Iterating over a Python set: its members in some order, each once. */
  method Enumerate(s: set<string>) returns (order: seq<string>)
    ensures Enumerates(order, s)
  {
    var remaining := s;
    order := [];
    while remaining != {}
      invariant Distinct(order)
      invariant (set x | x in order) + remaining == s
      invariant forall x :: x in order ==> x !in remaining
      decreases remaining
    {
      var x :| x in remaining;
      assert (set y | y in order + [x]) == (set y | y in order) + {x};
      order := order + [x];
      remaining := remaining - {x};
    }
  }

  /** The i-th field of every row that has one, in row order. */
  function FieldColumn(rows: seq<seq<string>>, i: nat): seq<string>
  {
    if |rows| == 0 then []
    else FieldColumn(rows[..|rows| - 1], i) + (if i < |rows[|rows| - 1]| then [rows[|rows| - 1][i]] else [])
  }

  lemma {:induction false} AddRowDistinct(col: Columns, header: seq<string>, row: seq<string>, i: nat)
    requires forall h :: h in header ==> h in col
    requires Distinct(header) && i < |header|
    ensures AddRow(col, header, row)[header[i]] == col[header[i]] + (if i < |row| then [row[i]] else [])
    decreases |header|
  {
    if |header| == 0 || |row| == 0 {
    } else {
      var next := col[header[0] := col[header[0]] + [row[0]]];
      if i == 0 {
        AddRowUntouched(next, header[1..], row[1..], header[0]);
      } else {
        AddRowDistinct(next, header[1..], row[1..], i - 1);
        assert header[1..][i - 1] == header[i] && header[i] != header[0];
      }
    }
  }

  lemma {:induction false} AddRowUntouched(col: Columns, header: seq<string>, row: seq<string>, h: string)
    requires forall x :: x in header ==> x in col
    requires h !in header && h in col
    ensures AddRow(col, header, row)[h] == col[h]
    decreases |header|
  {
    if |header| > 0 && |row| > 0 {
      AddRowUntouched(col[header[0] := col[header[0]] + [row[0]]], header[1..], row[1..], h);
    }
  }

  /**
   * With distinct header names, the column under the i-th name holds the
   * i-th field of each row long enough to have one: short rows leave later
   * columns shorter, and fields past the header are dropped.
   */
  lemma {:induction false} ColumnsOfDistinct(header: seq<string>, rows: seq<seq<string>>, i: nat)
    requires Distinct(header) && i < |header|
    ensures ColumnsOf(header, rows)[header[i]] == FieldColumn(rows, i)
  {
    if |rows| > 0 {
      ColumnsOfDistinct(header, rows[..|rows| - 1], i);
      AddRowDistinct(ColumnsOf(header, rows[..|rows| - 1]), header, rows[|rows| - 1], i);
    }
  }

  /** `column[h][index]` for each header name in turn; a short column raises IndexError. */
  function RowFields(header: seq<string>, col: Columns, index: nat): (r: Result<seq<string>>)
    requires forall h :: h in header ==> h in col
    ensures r.Ok? <==> forall h :: h in header ==> index < |col[h]|
    ensures r.Ok? ==> |r.value| == |header| && forall k :: 0 <= k < |header| ==> r.value[k] == col[header[k]][index]
    ensures r.Err? ==> r.error == IndexError
  {
    if |header| == 0 then Ok([])
    else
      var h := header[|header| - 1];
      match RowFields(header[..|header| - 1], col, index)
      case Err(e) => Err(e)
      case Ok(init) =>
        assert forall x :: x in header <==> x in header[..|header| - 1] || x == h;
        if index < |col[h]| then Ok(init + [col[h][index]]) else Err(IndexError)
  }

  // ------------------------------------------------------- line layout

  /** `line + "\t" + f` for each field in turn. */
  function TabFields(fields: seq<string>): string
  {
    if |fields| == 0 then "" else TabFields(fields[..|fields| - 1]) + "\t" + fields[|fields| - 1]
  }

  /** `line + f + "\t"` for each field in turn. */
  function FieldsTabbed(fields: seq<string>): string
  {
    if |fields| == 0 then "" else FieldsTabbed(fields[..|fields| - 1]) + fields[|fields| - 1] + "\t"
  }

  /** Appending tab-prefixed fields to a tab-joined line tab-joins them all. */
  lemma {:induction false} TabFieldsJoin(first: seq<string>, fields: seq<string>)
    requires |first| >= 1
    ensures Join(first, "\t") + TabFields(fields) == Join(first + fields, "\t")
  {
    if |fields| > 0 {
      var init := fields[..|fields| - 1];
      var last := fields[|fields| - 1];
      TabFieldsJoin(first, init);
      JoinAppend(first + init, "\t", last);
      assert first + init + [last] == first + fields;
      assert fields[..|fields| - 1] == init;
      assert TabFields(fields) == TabFields(init) + "\t" + last;
      var j := Join(first, "\t");
      assert j + (TabFields(init) + "\t" + last) == (j + TabFields(init)) + "\t" + last;
    } else {
      assert first + fields == first;
    }
  }

  /** The eight annotation fields of a variant's effect. */
  function AnnotationFields(e: MutationEffect, used: nat, all: nat, total: nat): seq<string>
  {
    [e.mutationId, e.flybaseId, e.symbol, e.position, e.effectType,
     NatToString(used), NatToString(all), NatToString(total)]
  }

  /** The annotation written in front of (or after) a row: id, gene, position, type and the three counts. */
  function AnnotationText(e: MutationEffect, used: nat, all: nat, total: nat): string
  {
    e.mutationId + "\t" + e.flybaseId + "\t" + e.symbol + "\t" + e.position + "\t" + e.effectType
      + "\t" + NatToString(used) + "\t" + NatToString(all) + "\t" + NatToString(total)
  }

  lemma AnnotationTextJoin(e: MutationEffect, used: nat, all: nat, total: nat)
    ensures AnnotationText(e, used, all, total) == Join(AnnotationFields(e, used, all, total), "\t")
  {
    var f := AnnotationFields(e, used, all, total);
    JoinAppend(f[..1], "\t", f[1]);
    assert f[..1] + [f[1]] == f[..2];
    JoinAppend(f[..2], "\t", f[2]);
    assert f[..2] + [f[2]] == f[..3];
    JoinAppend(f[..3], "\t", f[3]);
    assert f[..3] + [f[3]] == f[..4];
    JoinAppend(f[..4], "\t", f[4]);
    assert f[..4] + [f[4]] == f[..5];
    JoinAppend(f[..5], "\t", f[5]);
    assert f[..5] + [f[5]] == f[..6];
    JoinAppend(f[..6], "\t", f[6]);
    assert f[..6] + [f[6]] == f[..7];
    JoinAppend(f[..7], "\t", f[7]);
    assert f[..7] + [f[7]] == f;
  }

  // ------------------------------------------------------------ queries

  /** The line ids carrying a variant, in table order. */
  function CarrierLines(carriers: seq<AssociationMutationLine>, id: string): (r: seq<string>)
    ensures |r| <= |carriers|
    ensures forall l :: l in r <==> AssociationMutationLine(id, l) in carriers
  {
    if |carriers| == 0 then []
    else
      var c := carriers[|carriers| - 1];
      var init := CarrierLines(carriers[..|carriers| - 1], id);
      assert forall x :: x in carriers <==> x in carriers[..|carriers| - 1] || x == c;
      if c.mutationId == id then init + [c.lineId] else init
  }

  /** `w.replace('dgrp', 'line_')`: catalogue line names to the names the run uses. */
  function RenameLine(w: string): string
  {
    Replace(w, "dgrp", "line_")
  }

  function Renamed(lines: seq<string>): (r: seq<string>)
    ensures |r| == |lines| && forall k :: 0 <= k < |lines| ==> r[k] == RenameLine(lines[k])
  {
    seq(|lines|, k requires 0 <= k < |lines| => RenameLine(lines[k]))
  }

  /** The number of catalogue lines carrying the variant. */
  function LineCount(catalog: Catalog, id: string): nat
  {
    |Renamed(CarrierLines(catalog.carriers, id))|
  }

  /** The number of those lines, once renamed, that the run used. */
  function UsedLineCount(catalog: Catalog, id: string, used: seq<string>): nat
  {
    CountIn(Renamed(CarrierLines(catalog.carriers, id)), used)
  }

  /** The used-line count never exceeds the catalogue count: it filters the same list. */
  lemma UsedAtMostAll(catalog: Catalog, id: string, used: seq<string>)
    ensures UsedLineCount(catalog, id, used) <= LineCount(catalog, id)
  {
  }

  /** The number of distinct line ids of the association table. */
  function TotalLines(catalog: Catalog): nat
  {
    |set c | c in catalog.carriers :: c.lineId|
  }

  /** The effects whose variant is one of `ids`, in table order. */
  function EffectsFor(effects: seq<MutationEffect>, ids: set<string>): (r: seq<MutationEffect>)
    ensures forall e :: e in r <==> e in effects && e.mutationId in ids
  {
    if |effects| == 0 then []
    else
      var e := effects[|effects| - 1];
      assert forall x :: x in effects <==> x in effects[..|effects| - 1] || x == e;
      EffectsFor(effects[..|effects| - 1], ids) + (if e.mutationId in ids then [e] else [])
  }

  /** The variants of a list of effects. */
  function IdsOf(effects: seq<MutationEffect>): set<string>
  {
    set e | e in effects :: e.mutationId
  }

  lemma IdsOfSnoc(effects: seq<MutationEffect>, k: nat)
    requires k < |effects|
    ensures IdsOf(effects[..k + 1]) == IdsOf(effects[..k]) + {effects[k].mutationId}
  {
    assert forall x :: x in effects[..k + 1] <==> x in effects[..k] || x == effects[k];
  }

  /** The variant of each effect, in order: the scripts' `retrieved_mutation_list`. */
  function EffectIds(effects: seq<MutationEffect>): (r: seq<string>)
    ensures |r| == |effects| && forall k :: 0 <= k < |effects| ==> r[k] == effects[k].mutationId
  {
    seq(|effects|, k requires 0 <= k < |effects| => effects[k].mutationId)
  }

  /** The two count caches hold the counts of exactly the variants seen so far. */
  ghost predicate CountCaches(allCache: map<string, nat>, usedCache: map<string, nat>, seen: seq<MutationEffect>,
                              catalog: Catalog, used: seq<string>)
  {
    allCache.Keys == IdsOf(seen) && usedCache.Keys == allCache.Keys
    && forall id :: id in allCache ==>
         allCache[id] == LineCount(catalog, id) && usedCache[id] == UsedLineCount(catalog, id, used)
  }

  lemma EffectIdsSnoc(effects: seq<MutationEffect>, k: nat)
    requires k < |effects|
    ensures EffectIds(effects[..k + 1]) == EffectIds(effects[..k]) + [effects[k].mutationId]
  {
  }

  /** A variant already cached leaves both caches as they are. */
  lemma CountCachesHit(allCache: map<string, nat>, usedCache: map<string, nat>, effects: seq<MutationEffect>, k: nat,
                       catalog: Catalog, used: seq<string>)
    requires k < |effects| && CountCaches(allCache, usedCache, effects[..k], catalog, used)
    requires effects[k].mutationId in allCache
    ensures CountCaches(allCache, usedCache, effects[..k + 1], catalog, used)
  {
    IdsOfSnoc(effects, k);
  }

  /** A variant seen for the first time is queried and cached with its counts. */
  lemma CountCachesMiss(allCache: map<string, nat>, usedCache: map<string, nat>, effects: seq<MutationEffect>, k: nat,
                        catalog: Catalog, used: seq<string>)
    requires k < |effects| && CountCaches(allCache, usedCache, effects[..k], catalog, used)
    requires effects[k].mutationId !in allCache
    ensures var id := effects[k].mutationId;
            CountCaches(allCache[id := LineCount(catalog, id)], usedCache[id := UsedLineCount(catalog, id, used)],
                        effects[..k + 1], catalog, used)
            && |allCache[id := LineCount(catalog, id)].Keys| == |allCache.Keys| + 1
  {
    IdsOfSnoc(effects, k);
    var id := effects[k].mutationId;
    var all := allCache[id := LineCount(catalog, id)];
    var usedCounts := usedCache[id := UsedLineCount(catalog, id, used)];
    assert all.Keys == allCache.Keys + {id};
    assert usedCounts.Keys == all.Keys;
    forall x | x in all
      ensures all[x] == LineCount(catalog, x) && usedCounts[x] == UsedLineCount(catalog, x, used)
    {
      if x != id {
        assert x in allCache && all[x] == allCache[x] && usedCounts[x] == usedCache[x];
      }
    }
  }

  lemma FreeConcat(a: seq<string>, b: seq<string>, c: char)
    requires Free(a, c) && Free(b, c)
    ensures Free(a + b, c)
  {
    forall i | 0 <= i < |a + b|
      ensures c !in (a + b)[i]
    {
      if i >= |a| {
        assert (a + b)[i] == b[i - |a|];
      } else {
        assert (a + b)[i] == a[i];
      }
    }
  }

  lemma NatToStringTabFree(n: nat)
    ensures '\t' !in NatToString(n)
  {
    var s := NatToString(n);
    assert forall j :: 0 <= j < |s| ==> IsDigit(s[j]);
  }

  /** A variant is in the retrieved list exactly when one of the effects names it. */
  lemma EffectIdsMembers(effects: seq<MutationEffect>, x: string)
    ensures x in EffectIds(effects) <==> x in IdsOf(effects)
  {
    if x in IdsOf(effects) {
      var e :| e in effects && e.mutationId == x;
      var k :| 0 <= k < |effects| && effects[k] == e;
      assert EffectIds(effects)[k] == x;
    }
  }

  /** The annotation fields are tab-free when the effect's text fields are. */
  lemma AnnotationTabFree(e: MutationEffect, used: nat, all: nat, total: nat)
    requires '\t' !in e.mutationId && '\t' !in e.flybaseId && '\t' !in e.symbol
    requires '\t' !in e.position && '\t' !in e.effectType
    ensures Free(AnnotationFields(e, used, all, total), '\t')
  {
    NatToStringTabFree(used);
    NatToStringTabFree(all);
    NatToStringTabFree(total);
  }
}
