// The Fast-LMM wrapper's file checks: the phenotype and covariable files
// are lined up with the family order of the genotype file, and the GWAS
// result is filtered down to its significant SNPs.

module FastLmm {
  import opened Runtime
  import opened Text
  import opened Families

  /** How many fields a data row must have. */
  datatype RowShape = Exactly(n: nat) | AtLeast(n: nat)

  /** Phenotype rows: family id, individual id and the value, separated by spaces. */
  const PHENOTYPE_ROW := Exactly(3)
  /** Covariable rows: family id, individual id and one or more covariables, separated by tabs. */
  const COVARIABLE_ROW := AtLeast(3)
  /** The field of a result line that holds the p-value. */
  const PVALUE_FIELD := 5

  predicate Fits(shape: RowShape, row: seq<string>)
  {
    match shape
    case Exactly(n) => |row| == n
    case AtLeast(n) => |row| >= n
  }

  /**
   * The data rows in file order; a row of the wrong shape raises the
   * wrapper's Exception.
   */
  function ReadTable(shape: RowShape, rows: seq<seq<string>>): (r: Result<Table>)
    requires shape.n >= 2
    ensures r.Ok? <==> forall i :: 0 <= i < |rows| ==> Fits(shape, rows[i])
    ensures r.Err? ==> r.error == Raised("Exception")
    ensures r.Ok? ==> |r.value.keys| == |rows|
  {
    if |rows| == 0 then Ok(EMPTY_TABLE)
    else
      var n := |rows| - 1;
      assert forall i :: 0 <= i < n ==> rows[..n][i] == rows[i];
      match ReadTable(shape, rows[..n])
      case Err(e) => Err(e)
      case Ok(t) => if !Fits(shape, rows[n]) then Err(Raised("Exception")) else Ok(AddRow(t, rows[n]))
  }

  /**
   * The table holds one key per row, in file order, stores a row under
   * every key and under nothing else, and remembers the last row's family id.
   */
  lemma {:induction false} ReadTableKeys(shape: RowShape, rows: seq<seq<string>>)
    requires shape.n >= 2 && ReadTable(shape, rows).Ok?
    ensures forall i :: 0 <= i < |rows| ==> |rows[i]| >= 2 && ReadTable(shape, rows).value.keys[i] == Key(rows[i][0], rows[i][1])
    ensures ReadTable(shape, rows).value.lastFid == (if |rows| == 0 then None else Some(rows[|rows| - 1][0]))
  {
    if |rows| > 0 {
      var n := |rows| - 1;
      var before := ReadTable(shape, rows[..n]).value;
      ReadTableKeys(shape, rows[..n]);
      var t := ReadTable(shape, rows).value;
      assert t.keys == before.keys + [Key(rows[n][0], rows[n][1])];
      forall i | 0 <= i < |rows|
        ensures |rows[i]| >= 2 && t.keys[i] == Key(rows[i][0], rows[i][1])
      {
        if i < n {
          assert rows[..n][i] == rows[i];
        }
      }
    }
  }

  /** A row is stored under every key read, and under nothing else. */
  lemma {:induction false} ReadTableStored(shape: RowShape, rows: seq<seq<string>>)
    requires shape.n >= 2 && ReadTable(shape, rows).Ok?
    ensures forall k :: k in ReadTable(shape, rows).value.lines <==> k in ReadTable(shape, rows).value.keys
  {
    if |rows| > 0 {
      var n := |rows| - 1;
      var before := ReadTable(shape, rows[..n]).value;
      ReadTableStored(shape, rows[..n]);
      var t := ReadTable(shape, rows).value;
      assert t == AddRow(before, rows[n]);
    }
  }

  /** A table read from one more row is the earlier table with that row added. */
  lemma ReadTableSnoc(shape: RowShape, rows: seq<seq<string>>)
    requires shape.n >= 2 && |rows| > 0 && ReadTable(shape, rows).Ok?
    ensures var n := |rows| - 1;
            ReadTable(shape, rows[..n]).Ok? && |rows[n]| >= 2
            && ReadTable(shape, rows).value == AddRow(ReadTable(shape, rows[..n]).value, rows[n])
  {
  }

  /** A key holds the row that came last among the rows with that key. */
  lemma {:induction false} StoredRowIsLast(shape: RowShape, rows: seq<seq<string>>, i: nat)
    requires shape.n >= 2 && ReadTable(shape, rows).Ok? && i < |rows|
    requires forall j :: i < j < |rows| ==> ReadTable(shape, rows).value.keys[j] != ReadTable(shape, rows).value.keys[i]
    ensures ReadTable(shape, rows).value.keys[i] in ReadTable(shape, rows).value.lines &&
            ReadTable(shape, rows).value.lines[ReadTable(shape, rows).value.keys[i]] == Join(rows[i], " ")
  {
    var n := |rows| - 1;
    var t := ReadTable(shape, rows).value;
    ReadTableSnoc(shape, rows);
    var before := ReadTable(shape, rows[..n]).value;
    assert |before.keys| == n;
    if i < n {
      forall j | i < j < n
        ensures before.keys[j] != before.keys[i]
      {
        assert before.keys[j] == t.keys[j] && before.keys[i] == t.keys[i];
      }
      StoredRowIsLast(shape, rows[..n], i);
      assert rows[..n][i] == rows[i];
      assert before.keys[i] == t.keys[i] && t.keys[i] != t.keys[n];
    }
  }

  /** Reading one more row of the file. */
  lemma ReadTablePrefix(shape: RowShape, rows: seq<seq<string>>, i: nat)
    requires shape.n >= 2 && i < |rows| && ReadTable(shape, rows[..i]).Ok?
    ensures ReadTable(shape, rows[..i + 1])
            == if Fits(shape, rows[i]) then Ok(AddRow(ReadTable(shape, rows[..i]).value, rows[i]))
               else Err(Raised("Exception"))
  {
    assert rows[..i + 1][..i] == rows[..i];
  }

  /** The reading loop, one row at a time. */
  method LoadTable(shape: RowShape, rows: seq<seq<string>>) returns (r: Result<Table>)
    requires shape.n >= 2
    ensures r == ReadTable(shape, rows)
  {
    var table := EMPTY_TABLE;
    for i := 0 to |rows|
      invariant ReadTable(shape, rows[..i]) == Ok(table)
    {
      ReadTablePrefix(shape, rows, i);
      if !Fits(shape, rows[i]) {
        assert !(forall k :: 0 <= k < |rows| ==> Fits(shape, rows[k]));
        return Err(Raised("Exception"));
      }
      table := AddRow(table, rows[i]);
    }
    assert rows[..|rows|] == rows;
    return Ok(table);
  }

  /**
   * `check_phenotype_file` and `check_covariable_file`: read the genotype
   * keys and the data rows, run the order check as written, and either
   * rewrite the rows in genotype order or copy the file unchanged.
   */
  function CheckFile(shape: RowShape, geno: seq<seq<string>>, rows: seq<seq<string>>): (r: Result<Ordered>)
    requires shape.n >= 2
    ensures FamilyNames(geno).Err? ==> r == Err(IndexError)
    ensures FamilyNames(geno).Ok? && ReadTable(shape, rows).Err? ==> r == Err(Raised("Exception"))
  {
    match FamilyNames(geno)
    case Err(e) => Err(e)
    case Ok(names) =>
      match ReadTable(shape, rows)
      case Err(e) => Err(e)
      case Ok(t) =>
        if t.keys == [] then Ok(Copied)
        else
          match OrderCheck(names, |t.keys|, t.lastFid.value)
          case Err(e) => Err(e)
          case Ok(differs) =>
            if !differs then Ok(Copied)
            else
              match Reordered(names, t.lines)
              case Err(e) => Err(e)
              case Ok(out) => Ok(Rewritten(out))
  }

  /**
   * A rewritten file has one line per genotype family, in genotype order,
   * each the last data row with that family's key, rejoined with spaces.
   */
  lemma RewrittenFollowsGenotype(shape: RowShape, geno: seq<seq<string>>, rows: seq<seq<string>>)
    requires shape.n >= 2 && CheckFile(shape, geno, rows).Ok? && CheckFile(shape, geno, rows).value.Rewritten?
    ensures FamilyNames(geno).Ok? && ReadTable(shape, rows).Ok?
    ensures forall i :: 0 <= i < |geno| ==> FamilyNames(geno).value[i] in ReadTable(shape, rows).value.keys
    ensures |CheckFile(shape, geno, rows).value.lines| == |geno|
    ensures forall i :: 0 <= i < |geno| ==>
              CheckFile(shape, geno, rows).value.lines[i]
              == Join(rows[LastIndexOf(ReadTable(shape, rows).value.keys, FamilyNames(geno).value[i])], " ") + "\n"
  {
    var names := FamilyNames(geno).value;
    var t := ReadTable(shape, rows).value;
    ReadTableStored(shape, rows);
    var out := CheckFile(shape, geno, rows).value.lines;
    assert Reordered(names, t.lines) == Ok(out);
    forall i | 0 <= i < |geno|
      ensures names[i] in t.keys
      ensures out[i] == Join(rows[LastIndexOf(t.keys, names[i])], " ") + "\n"
    {
      assert names[i] in t.lines;
      var j := LastIndexOf(t.keys, names[i]);
      StoredRowIsLast(shape, rows, j);
    }
  }

  /** With no data row there is nothing to compare, and the file is copied. */
  lemma NoRowsCopied(shape: RowShape, geno: seq<seq<string>>)
    requires shape.n >= 2 && FamilyNames(geno).Ok?
    ensures CheckFile(shape, geno, []) == Ok(Copied)
  {
  }

  /**
   * When the data rows follow the genotype order and their first key has an
   * id, the order check as written still finds a difference and the file is
   * rewritten.
   */
  lemma SameOrderRewritten(shape: RowShape, geno: seq<seq<string>>, rows: seq<seq<string>>)
    requires shape.n >= 2 && |rows| > 0 && FamilyNames(geno).Ok? && ReadTable(shape, rows).Ok?
    requires ReadTable(shape, rows).value.keys == FamilyNames(geno).value
    requires rows[0][0] != "" || rows[0][1] != ""
    requires rows[|rows| - 1][0] != ""
    ensures CheckFile(shape, geno, rows).Ok? && CheckFile(shape, geno, rows).value.Rewritten?
  {
    var names := FamilyNames(geno).value;
    var t := ReadTable(shape, rows).value;
    ReadTableKeys(shape, rows);
    ReadTableStored(shape, rows);
    SameOrderStillReordered(t.keys, rows[0][0], rows[0][1], t.lastFid.value);
    assert OrderCheck(names, |t.keys|, t.lastFid.value) == Ok(true);
    assert forall i :: 0 <= i < |names| ==> names[i] in t.lines;
    assert Reordered(names, t.lines).Ok?;
  }

  /** A line of the result file, cut at its tabs. */
  function Tokens(line: string): seq<string>
  {
    Split(line, '\t')
  }

  /** A line whose p-value field parses to a number strictly below `alpha`. */
  predicate Significant(line: string, parse: string -> Option<real>, alpha: real)
  {
    |Tokens(line)| > PVALUE_FIELD && parse(Tokens(line)[PVALUE_FIELD]).Some? &&
    parse(Tokens(line)[PVALUE_FIELD]).value < alpha
  }

  /** The significant lines, in file order: a reference to compare the filtering loop with. */
  function SignificantLines(lines: seq<string>, parse: string -> Option<real>, alpha: real): (r: seq<string>)
    ensures |r| <= |lines|
    ensures forall x :: x in r ==> x in lines && Significant(x, parse, alpha)
  {
    if |lines| == 0 then []
    else (if Significant(lines[0], parse, alpha) then [lines[0]] else []) + SignificantLines(lines[1..], parse, alpha)
  }

  lemma {:induction false} SignificantLinesSnoc(lines: seq<string>, line: string, parse: string -> Option<real>, alpha: real)
    ensures SignificantLines(lines + [line], parse, alpha)
            == SignificantLines(lines, parse, alpha) + (if Significant(line, parse, alpha) then [line] else [])
  {
    if |lines| > 0 {
      assert (lines + [line])[1..] == lines[1..] + [line];
      SignificantLinesSnoc(lines[1..], line, parse, alpha);
    } else {
      assert lines + [line] == [line];
    }
  }

  /** The header kept so far (the last line whose p-value did not parse) and the significant lines. */
  datatype Filtered = Filtered(header: string, kept: seq<string>)

  /**
   * `filterSignificantSNP`, line by line: a line with fewer than six fields
   * raises IndexError, a line whose p-value does not parse becomes the
   * header, and a significant line is kept.
   */
  function FilterLines(lines: seq<string>, parse: string -> Option<real>, alpha: real): (r: Result<Filtered>)
    ensures r.Ok? <==> forall i :: 0 <= i < |lines| ==> |Tokens(lines[i])| > PVALUE_FIELD
    ensures r.Err? ==> r.error == IndexError
  {
    if |lines| == 0 then Ok(Filtered("", []))
    else
      var n := |lines| - 1;
      assert forall i :: 0 <= i < n ==> lines[..n][i] == lines[i];
      match FilterLines(lines[..n], parse, alpha)
      case Err(e) => Err(e)
      case Ok(f) =>
        var tokens := Tokens(lines[n]);
        if |tokens| <= PVALUE_FIELD then Err(IndexError)
        else
          match parse(tokens[PVALUE_FIELD])
          case None => Ok(Filtered(lines[n], f.kept))
          case Some(p) => Ok(if p < alpha then Filtered(f.header, f.kept + [lines[n]]) else f)
  }

  /** The lines kept are exactly the significant ones, in file order. */
  lemma {:induction false} FilterKeepsSignificant(lines: seq<string>, parse: string -> Option<real>, alpha: real)
    requires FilterLines(lines, parse, alpha).Ok?
    ensures FilterLines(lines, parse, alpha).value.kept == SignificantLines(lines, parse, alpha)
  {
    if |lines| > 0 {
      var n := |lines| - 1;
      FilterKeepsSignificant(lines[..n], parse, alpha);
      assert lines[..n] + [lines[n]] == lines;
      SignificantLinesSnoc(lines[..n], lines[n], parse, alpha);
    }
  }

  /** A line whose p-value field is there but does not parse. */
  predicate Unparsed(line: string, parse: string -> Option<real>)
  {
    |Tokens(line)| > PVALUE_FIELD && parse(Tokens(line)[PVALUE_FIELD]).None?
  }

  /** With no line whose p-value fails to parse, the header stays empty. */
  lemma {:induction false} HeaderEmpty(lines: seq<string>, parse: string -> Option<real>, alpha: real)
    requires FilterLines(lines, parse, alpha).Ok?
    requires forall i :: 0 <= i < |lines| ==> !Unparsed(lines[i], parse)
    ensures FilterLines(lines, parse, alpha).value.header == ""
  {
    if |lines| > 0 {
      var n := |lines| - 1;
      assert forall i :: 0 <= i < n ==> lines[..n][i] == lines[i];
      HeaderEmpty(lines[..n], parse, alpha);
    }
  }

  /** The header is the last line whose p-value does not parse. */
  lemma {:induction false} HeaderIsLastUnparsed(lines: seq<string>, parse: string -> Option<real>, alpha: real, k: nat)
    requires FilterLines(lines, parse, alpha).Ok?
    requires k < |lines| && Unparsed(lines[k], parse)
    requires forall j :: k < j < |lines| ==> !Unparsed(lines[j], parse)
    ensures FilterLines(lines, parse, alpha).value.header == lines[k]
  {
    var n := |lines| - 1;
    if k < n {
      assert forall j :: k < j < n ==> lines[..n][j] == lines[j];
      assert lines[..n][k] == lines[k];
      HeaderIsLastUnparsed(lines[..n], parse, alpha, k);
      assert !Unparsed(lines[n], parse);
    }
  }

  /** The file written: the header line first, then the kept lines. */
  function SignificantFile(lines: seq<string>, parse: string -> Option<real>, alpha: real): Result<seq<string>>
  {
    match FilterLines(lines, parse, alpha)
    case Err(e) => Err(e)
    case Ok(f) => Ok([f.header] + f.kept)
  }

  /** The Fast-LMM wrapper's state that its checks and filter use. */
  class FastLmmWrapper {
    var phenotypeFileName: string
    var covariableFileName: string
    var alpha: real

    constructor (phenotypeFileName: string, covariableFileName: string, alpha: real)
      ensures this.phenotypeFileName == phenotypeFileName && this.covariableFileName == covariableFileName
      ensures this.alpha == alpha
    {
      this.phenotypeFileName := phenotypeFileName;
      this.covariableFileName := covariableFileName;
      this.alpha := alpha;
    }

    /** `check_phenotype_file`: on success the wrapper goes on with the ordered file. */
    method CheckPhenotypeFile(geno: seq<seq<string>>, rows: seq<seq<string>>, orderedPath: string)
      returns (r: Result<Ordered>)
      modifies this`phenotypeFileName
      ensures r == CheckFile(PHENOTYPE_ROW, geno, rows)
      ensures phenotypeFileName == (if r.Ok? then orderedPath else old(phenotypeFileName))
    {
      r := CheckRows(PHENOTYPE_ROW, geno, rows);
      if r.Ok? {
        phenotypeFileName := orderedPath;
      }
    }

    /** `check_covariable_file`: on success the wrapper goes on with the ordered file. */
    method CheckCovariableFile(geno: seq<seq<string>>, rows: seq<seq<string>>, orderedPath: string)
      returns (r: Result<Ordered>)
      modifies this`covariableFileName
      ensures r == CheckFile(COVARIABLE_ROW, geno, rows)
      ensures covariableFileName == (if r.Ok? then orderedPath else old(covariableFileName))
    {
      r := CheckRows(COVARIABLE_ROW, geno, rows);
      if r.Ok? {
        covariableFileName := orderedPath;
      }
    }

    /** `filterSignificantSNP`: the writes of the filtered file. */
    method FilterSignificantSnp(lines: seq<string>, parse: string -> Option<real>) returns (r: Result<seq<string>>)
      ensures r == SignificantFile(lines, parse, alpha)
    {
      var header := "";
      var significant: seq<string> := [];
      for i := 0 to |lines|
        invariant FilterLines(lines[..i], parse, alpha) == Ok(Filtered(header, significant))
      {
        assert lines[..i + 1][..i] == lines[..i];
        var tokens := Tokens(lines[i]);
        if |tokens| <= PVALUE_FIELD {
          assert FilterLines(lines, parse, alpha).Err?;
          return Err(IndexError);
        }
        var pvalue := parse(tokens[PVALUE_FIELD]);
        if pvalue.None? {
          header := lines[i];
        } else if pvalue.value < alpha {
          significant := significant + [lines[i]];
        }
      }
      assert lines[..|lines|] == lines;
      return Ok([header] + significant);
    }
  }

  /** The body the two checks share. */
  method CheckRows(shape: RowShape, geno: seq<seq<string>>, rows: seq<seq<string>>) returns (r: Result<Ordered>)
    requires shape.n >= 2
    ensures r == CheckFile(shape, geno, rows)
  {
    var names := ReadFamilyNames(geno);
    if names.Err? {
      return Err(names.error);
    }
    var table := LoadTable(shape, rows);
    if table.Err? {
      return Err(table.error);
    }
    if table.value.keys == [] {
      return Ok(Copied);
    }
    var differs := CheckOrder(names.value, |table.value.keys|, table.value.lastFid.value);
    if differs.Err? {
      return Err(differs.error);
    }
    if !differs.value {
      return Ok(Copied);
    }
    var out := WriteOrdered(names.value, table.value.lines);
    if out.Err? {
      return Err(out.error);
    }
    return Ok(Rewritten(out.value));
  }
}
