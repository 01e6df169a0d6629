// The FastEpistasis wrapper's phenotype check, which also recognises a
// "fid iid" header row, and the SNP-sets file it assembles from two lists.

module FastEpistasis {
  import opened Runtime
  import opened Text
  import opened Families

  const FAMILY_HEADER := "fid"
  const INDIVIDUAL_HEADER := "iid"
  const GENERIC_HEADERS: seq<string> := ["fid", "iid", "value"]
  /** The number of space-separated fields of every phenotype row. */
  const PHENOTYPE_FIELDS := 3

  /** The phenotype rows read so far, and the `missing_headers` flag once it has been set. */
  datatype Phenotypes = Phenotypes(table: Table, missingHeaders: Option<bool>)

  /** A row that starts with the family and individual column names. */
  predicate HeaderRow(row: seq<string>)
  {
    |row| >= 2 && row[0] == FAMILY_HEADER && row[1] == INDIVIDUAL_HEADER
  }

  /**
   * The phenotype rows, read in order.  Every row must have three fields.
   * While no data row has been stored, a header row is skipped (clearing the
   * flag) and any other row sets the flag before being stored.
   */
  function ReadPhenotypes(rows: seq<seq<string>>): (r: Result<Phenotypes>)
    ensures r.Ok? <==> forall i :: 0 <= i < |rows| ==> |rows[i]| == PHENOTYPE_FIELDS
    ensures r.Err? ==> r.error == Raised("Exception")
    ensures r.Ok? ==> |r.value.table.keys| <= |rows|
  {
    if |rows| == 0 then Ok(Phenotypes(EMPTY_TABLE, None))
    else
      var n := |rows| - 1;
      assert forall i :: 0 <= i < n ==> rows[..n][i] == rows[i];
      match ReadPhenotypes(rows[..n])
      case Err(e) => Err(e)
      case Ok(p) =>
        var row := rows[n];
        if |row| != PHENOTYPE_FIELDS then Err(Raised("Exception"))
        else if p.table.keys == [] then
          if HeaderRow(row) then Ok(Phenotypes(p.table, Some(false)))
          else Ok(Phenotypes(AddRow(p.table, row), Some(true)))
        else Ok(Phenotypes(AddRow(p.table, row), p.missingHeaders))
  }

  /** Once a data row has been stored the flag is set, whether or not a header row came first. */
  lemma {:induction false} StoredMeansMissingHeaders(rows: seq<seq<string>>)
    requires ReadPhenotypes(rows).Ok? && ReadPhenotypes(rows).value.table.keys != []
    ensures ReadPhenotypes(rows).value.missingHeaders == Some(true)
  {
    var n := |rows| - 1;
    var p := ReadPhenotypes(rows[..n]).value;
    if p.table.keys != [] {
      StoredMeansMissingHeaders(rows[..n]);
    }
  }

  /** A row read after a stored one, or a row that is not a header, is stored. */
  lemma ReadPhenotypesStep(rows: seq<seq<string>>)
    requires |rows| > 0 && ReadPhenotypes(rows).Ok?
    ensures var n := |rows| - 1;
            var before := ReadPhenotypes(rows[..n]);
            before.Ok? && |rows[n]| == PHENOTYPE_FIELDS
            && (before.value.table.keys != [] || !HeaderRow(rows[n]) ==>
                  ReadPhenotypes(rows).value.table == AddRow(before.value.table, rows[n]))
  {
  }

  /** A header row followed by rows of three fields: all of them have three fields. */
  lemma HeaderThenDataFit(header: seq<string>, data: seq<seq<string>>)
    requires |header| == PHENOTYPE_FIELDS
    requires forall i :: 0 <= i < |data| ==> |data[i]| == PHENOTYPE_FIELDS
    ensures ReadPhenotypes([header] + data).Ok?
  {
    var rows := [header] + data;
    forall i | 0 <= i < |rows| ensures |rows[i]| == PHENOTYPE_FIELDS {
      if i > 0 {
        assert rows[i] == data[i - 1];
      }
    }
  }

  /**
   * A file that opens with a header row followed by data rows stores every
   * data row, in order, and still reports the header as missing.
   */
  lemma {:induction false} HeaderThenData(header: seq<string>, data: seq<seq<string>>)
    requires |header| == PHENOTYPE_FIELDS && HeaderRow(header)
    requires |data| > 0 && !HeaderRow(data[0])
    requires forall i :: 0 <= i < |data| ==> |data[i]| == PHENOTYPE_FIELDS
    ensures ReadPhenotypes([header] + data).Ok?
    ensures ReadPhenotypes([header] + data).value.missingHeaders == Some(true)
    ensures |ReadPhenotypes([header] + data).value.table.keys| == |data|
    ensures forall i :: 0 <= i < |data| ==>
              ReadPhenotypes([header] + data).value.table.keys[i] == Key(data[i][0], data[i][1])
  {
    var rows := [header] + data;
    var n := |data| - 1;
    HeaderThenDataFit(header, data);
    ReadPhenotypesStep(rows);
    assert rows[..|rows| - 1] == [header] + data[..n];
    assert rows[|rows| - 1] == data[n];
    var before := ReadPhenotypes([header] + data[..n]).value;
    if n == 0 {
      assert [header] + data[..n] == [header] && [header][..0] == [];
      assert before == Phenotypes(EMPTY_TABLE, Some(false));
    } else {
      HeaderThenData(header, data[..n]);
      assert before.table.keys != [];
    }
    var p := ReadPhenotypes(rows).value;
    assert p.table == AddRow(before.table, data[n]);
    StoredMeansMissingHeaders(rows);
    forall i | 0 <= i < |data| ensures p.table.keys[i] == Key(data[i][0], data[i][1]) {
      if i < n {
        assert data[..n][i] == data[i];
      }
    }
  }

  /** The header line written ahead of the reordered rows when the flag is set. */
  const GENERIC_HEADER_LINE: string := "fid iid value\n"

  /**
   * `check_phenotype_file`: as in the Fast-LMM wrapper, but a file that is
   * not rewritten is passed to `copyfile`, a name this module never imports,
   * so that path raises NameError.
   */
  function CheckPhenotypes(geno: seq<seq<string>>, rows: seq<seq<string>>): (r: Result<Ordered>)
    ensures FamilyNames(geno).Err? ==> r == Err(IndexError)
    ensures FamilyNames(geno).Ok? && ReadPhenotypes(rows).Err? ==> r == Err(Raised("Exception"))
  {
    match FamilyNames(geno)
    case Err(e) => Err(e)
    case Ok(names) =>
      match ReadPhenotypes(rows)
      case Err(e) => Err(e)
      case Ok(p) =>
        if p.table.keys == [] then Err(NameError("copyfile"))
        else
          match OrderCheck(names, |p.table.keys|, p.table.lastFid.value)
          case Err(e) => Err(e)
          case Ok(differs) =>
            if !differs then Err(NameError("copyfile"))
            else
              match Reordered(names, p.table.lines)
              case Err(e) => Err(e)
              case Ok(out) =>
                Ok(Rewritten((if p.missingHeaders == Some(true) then [GENERIC_HEADER_LINE] else []) + out))
  }

  /**
   * The check never leaves a copy behind: when it succeeds the rows were
   * rewritten, and the rewritten file always opens with the generic header.
   */
  lemma RewrittenWithHeader(geno: seq<seq<string>>, rows: seq<seq<string>>)
    requires CheckPhenotypes(geno, rows).Ok?
    ensures CheckPhenotypes(geno, rows).value.Rewritten?
    ensures |CheckPhenotypes(geno, rows).value.lines| == |geno| + 1
    ensures CheckPhenotypes(geno, rows).value.lines[0] == GENERIC_HEADER_LINE
  {
    StoredMeansMissingHeaders(rows);
  }

  /** The header line is the generic column names joined with spaces. */
  lemma GenericHeaderLine()
    ensures GENERIC_HEADER_LINE == Join(GENERIC_HEADERS, " ") + "\n"
  {
    assert Join(GENERIC_HEADERS[2..], " ") == "value";
    assert Join(GENERIC_HEADERS[1..], " ") == "iid value";
  }

  /** The FastEpistasis wrapper's state that its check uses. */
  class FastEpistasisWrapper {
    var phenotypeFileName: string

    constructor (phenotypeFileName: string)
      ensures this.phenotypeFileName == phenotypeFileName
    {
      this.phenotypeFileName := phenotypeFileName;
    }

    /** On success the wrapper goes on with the ordered file; an exception leaves the name as it was. */
    method CheckPhenotypeFile(geno: seq<seq<string>>, rows: seq<seq<string>>, orderedPath: string)
      returns (r: Result<Ordered>)
      modifies this`phenotypeFileName
      ensures r == CheckPhenotypes(geno, rows)
      ensures phenotypeFileName == (if r.Ok? then orderedPath else old(phenotypeFileName))
    {
      var names := ReadFamilyNames(geno);
      if names.Err? {
        return Err(names.error);
      }
      var p := LoadPhenotypes(rows);
      if p.Err? {
        return Err(p.error);
      }
      if p.value.table.keys == [] {
        return Err(NameError("copyfile"));
      }
      var differs := CheckOrder(names.value, |p.value.table.keys|, p.value.table.lastFid.value);
      if differs.Err? {
        return Err(differs.error);
      }
      if !differs.value {
        return Err(NameError("copyfile"));
      }
      var out := WriteOrdered(names.value, p.value.table.lines);
      if out.Err? {
        return Err(out.error);
      }
      var header := if p.value.missingHeaders == Some(true) then [GENERIC_HEADER_LINE] else [];
      r := Ok(Rewritten(header + out.value));
      phenotypeFileName := orderedPath;
    }
  }

  /** The row loop, with its `count` and `missing_headers` variables. */
  method LoadPhenotypes(rows: seq<seq<string>>) returns (r: Result<Phenotypes>)
    ensures r == ReadPhenotypes(rows)
  {
    var table := EMPTY_TABLE;
    var missingHeaders: Option<bool> := None;
    var count := 0;
    for i := 0 to |rows|
      invariant ReadPhenotypes(rows[..i]) == Ok(Phenotypes(table, missingHeaders))
      invariant count == |table.keys|
    {
      assert rows[..i + 1][..i] == rows[..i];
      var row := rows[i];
      if |row| != PHENOTYPE_FIELDS {
        assert ReadPhenotypes(rows[..i + 1]).Err?;
        assert !(forall k :: 0 <= k < |rows| ==> |rows[k]| == PHENOTYPE_FIELDS);
        return Err(Raised("Exception"));
      }
      if count == 0 {
        if row[0] == FAMILY_HEADER && row[1] == INDIVIDUAL_HEADER {
          missingHeaders := Some(false);
          continue;
        } else {
          missingHeaders := Some(true);
        }
      }
      table := AddRow(table, row);
      count := count + 1;
    }
    assert rows[..|rows|] == rows;
    return Ok(Phenotypes(table, missingHeaders));
  }

  /** The writes of `concat_set_of_snp`: the two files' lines between their markers, with a blank line between the sets. */
  function SnpSetWrites(file1: seq<string>, file2: seq<string>): seq<string>
  {
    ["SET_A\n"] + file1 + ["END\n", "\n", "SET_B\n"] + file2 + ["END\n"]
  }

  /** `concat_set_of_snp`: each input file copied line by line between the markers. */
  method ConcatSetOfSnp(file1: seq<string>, file2: seq<string>) returns (writes: seq<string>)
    ensures writes == SnpSetWrites(file1, file2)
  {
    writes := ["SET_A\n"];
    for i := 0 to |file1|
      invariant writes == ["SET_A\n"] + file1[..i]
    {
      writes := writes + [file1[i]];
    }
    assert file1[..|file1|] == file1;
    writes := writes + ["END\n", "\n", "SET_B\n"];
    ghost var middle := writes;
    for i := 0 to |file2|
      invariant writes == middle + file2[..i]
    {
      writes := writes + [file2[i]];
    }
    assert file2[..|file2|] == file2;
    writes := writes + ["END\n"];
  }

  /**
   * Two files of newline-terminated SNP ids read back, line by line, as
   * SET_A, the first ids, END, a blank line, SET_B, the second ids, END and
   * the empty remainder after the final newline.
   */
  lemma SnpSetLines(a: seq<string>, b: seq<string>)
    requires Free(a, '\n') && Free(b, '\n')
    ensures Split(Concat(SnpSetWrites(Terminated(a), Terminated(b))), '\n')
            == ["SET_A"] + a + ["END", "", "SET_B"] + b + ["END", ""]
  {
    var lines := ["SET_A"] + a + ["END", "", "SET_B"] + b + ["END"];
    TerminatedConcat(["SET_A"], a);
    TerminatedConcat(["SET_A"] + a, ["END", "", "SET_B"]);
    TerminatedConcat(["SET_A"] + a + ["END", "", "SET_B"], b);
    TerminatedConcat(["SET_A"] + a + ["END", "", "SET_B"] + b, ["END"]);
    assert "SET_A" + "\n" == "SET_A\n" && "END" + "\n" == "END\n" && "" + "\n" == "\n" && "SET_B" + "\n" == "SET_B\n";
    assert Terminated(["SET_A"]) == ["SET_A\n"];
    assert Terminated(["END", "", "SET_B"]) == ["END\n", "\n", "SET_B\n"];
    assert Terminated(["END"]) == ["END\n"];
    assert SnpSetWrites(Terminated(a), Terminated(b)) == Terminated(lines);
    assert Free(lines, '\n') by {
      forall i | 0 <= i < |lines| ensures '\n' !in lines[i] {
        if i == 0 || i > |a| {
          assert forall j :: 0 <= j < |b| ==> '\n' !in b[j];
        }
      }
    }
    SplitTerminated(lines);
  }
}
