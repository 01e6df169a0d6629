// Building the SNP sets of the epistasis analysis: the focus set A holds
// the variant identifiers the per-phenotype GWAS files name, the kept set
// adds every common SNP of the catalogue, and two text files are written
// from them.

module SnpSets {
  import opened Runtime
  import opened Text
  import opened Annotation

  /** The column of a GWAS result file that names the variant. */
  const ID_COLUMN := "ID"
  /** The substring that marks a variant identifier as a SNP. */
  const SNP_MARK := "SNP"
  /** Both allele counts must reach this for a SNP to count as common (minor allele frequency above 5%). */
  const MIN_ALLELE_COUNT := 10

  /**
   * A tab-separated file read as csv rows: the first row names the columns,
   * and a row with no field at all stands for a blank line.
   */
  type CsvFile = seq<seq<string>>

  /** The text of the two files written: the kept SNPs and the two sets. */
  datatype SetFiles = SetFiles(kept: string, sets: string)

  /** The file names option: split on single spaces, each item stripped of surrounding whitespace. */
  function FileList(arg: string): (r: seq<string>)
    ensures |r| >= 1
    ensures forall k :: 0 <= k < |r| && |r[k]| > 0 ==> r[k][0] !in WHITESPACE && r[k][|r[k]| - 1] !in WHITESPACE
  {
    var parts := Split(arg, ' ');
    seq(|parts|, k requires 0 <= k < |parts| => Strip(parts[k], WHITESPACE))
  }

  /** A string with no surrounding whitespace is its own strip. */
  lemma StripClean(s: string)
    requires |s| > 0 ==> s[0] !in WHITESPACE && s[|s| - 1] !in WHITESPACE
    ensures Strip(s, WHITESPACE) == s
  {
  }

  /** File names without spaces and without surrounding whitespace come back from the joined option. */
  lemma FileListJoin(names: seq<string>)
    requires |names| >= 1 && Free(names, ' ')
    requires forall k :: 0 <= k < |names| && |names[k]| > 0 ==>
               names[k][0] !in WHITESPACE && names[k][|names[k]| - 1] !in WHITESPACE
    ensures FileList(Join(names, " ")) == names
  {
    SplitJoin(names, ' ');
    forall k | 0 <= k < |names| ensures Strip(names[k], WHITESPACE) == names[k] {
      StripClean(names[k]);
    }
  }

  /** The catalogue query: identifiers of SNPs whose reference and alternative counts both reach the minimum. */
  function BaseSet(catalog: Catalog): set<string>
  {
    set m | m in catalog.mutations && m.refCount >= MIN_ALLELE_COUNT && m.altCount >= MIN_ALLELE_COUNT
                                   && m.typeMutation == "SNP" :: m.mutationId
  }

  /**
   * `row["ID"]` on a DictReader row.  With no ID column the lookup raises
   * KeyError; a repeated ID column keeps its last position; a row too short
   * to reach it holds None there, which the substring test then rejects
   * with TypeError.
   */
  function RowId(header: seq<string>, row: seq<string>): (r: Result<string>)
    ensures r.Ok? ==> exists j :: 0 <= j < |header| && j < |row| && header[j] == ID_COLUMN && row[j] == r.value
    ensures r.Err? ==> r.error == KeyError(ID_COLUMN) || r.error == TypeError
    ensures r == Err(KeyError(ID_COLUMN)) <==> ID_COLUMN !in header
  {
    if ID_COLUMN !in header then Err(KeyError(ID_COLUMN))
    else
      var j := LastIndexOf(header, ID_COLUMN);
      if j < |row| then Ok(row[j]) else Err(TypeError)
  }

  /** A header with a single ID column reads that column of every row long enough. */
  lemma RowIdSingle(header: seq<string>, row: seq<string>, j: nat)
    requires j < |header| && header[j] == ID_COLUMN
    requires forall k :: 0 <= k < |header| && k != j ==> header[k] != ID_COLUMN
    ensures RowId(header, row) == (if j < |row| then Ok(row[j]) else Err(TypeError))
  {
  }

  /** What one file contributes to set A: the IDs of its non-blank rows that contain "SNP", rows read in order. */
  function FileSnps(header: seq<string>, rows: seq<seq<string>>): (r: Result<set<string>>)
    decreases |rows|
  {
    if |rows| == 0 then Ok({})
    else
      match FileSnps(header, rows[..|rows| - 1])
      case Err(e) => Err(e)
      case Ok(found) =>
        var row := rows[|rows| - 1];
        if row == [] then Ok(found)
        else
          match RowId(header, row)
          case Err(e) => Err(e)
          case Ok(id) => Ok(if Contains(id, SNP_MARK) then found + {id} else found)
  }

  /** The file reads without error exactly when every non-blank row has an ID. */
  lemma {:induction false} FileSnpsSucceeds(header: seq<string>, rows: seq<seq<string>>)
    ensures FileSnps(header, rows).Ok? <==> forall k :: 0 <= k < |rows| && rows[k] != [] ==> RowId(header, rows[k]).Ok?
  {
    if |rows| > 0 {
      var init := rows[..|rows| - 1];
      FileSnpsSucceeds(header, init);
      assert forall k :: 0 <= k < |init| ==> init[k] == rows[k];
    }
  }

  /** The members of a file's contribution: the IDs containing "SNP" of its non-blank rows. */
  lemma {:induction false} FileSnpsMembers(header: seq<string>, rows: seq<seq<string>>, x: string)
    requires FileSnps(header, rows).Ok?
    ensures x in FileSnps(header, rows).value <==>
              Contains(x, SNP_MARK) && exists k :: 0 <= k < |rows| && rows[k] != [] && RowId(header, rows[k]) == Ok(x)
  {
    if |rows| > 0 {
      var init := rows[..|rows| - 1];
      var last := |rows| - 1;
      FileSnpsMembers(header, init, x);
      assert forall k :: 0 <= k < |init| ==> init[k] == rows[k];
      if Contains(x, SNP_MARK) && (exists k :: 0 <= k < |rows| && rows[k] != [] && RowId(header, rows[k]) == Ok(x)) {
        var k :| 0 <= k < |rows| && rows[k] != [] && RowId(header, rows[k]) == Ok(x);
        if k < last {
          assert init[k] == rows[k];
        }
      }
    }
  }

  /** What one file contributes: an empty file has no rows, any other file has its header first. */
  function FileContribution(file: CsvFile): Result<set<string>>
  {
    if |file| == 0 then Ok({}) else FileSnps(file[0], file[1..])
  }

  /** Set A over the listed files, read in order: a name with no file raises IOError at `open`. */
  function SetA(names: seq<string>, files: map<string, CsvFile>): (r: Result<set<string>>)
    decreases |names|
  {
    if |names| == 0 then Ok({})
    else
      match SetA(names[..|names| - 1], files)
      case Err(e) => Err(e)
      case Ok(a) =>
        var name := names[|names| - 1];
        if name !in files then Err(Raised("IOError"))
        else
          match FileContribution(files[name])
          case Err(e) => Err(e)
          case Ok(found) => Ok(a + found)
  }

  /** The file behind `name` reads without error (a missing file does not). */
  predicate Readable(files: map<string, CsvFile>, name: string)
  {
    name in files && FileContribution(files[name]).Ok?
  }

  /** Set A is built exactly when every listed file exists and reads without error. */
  lemma {:induction false} SetASucceeds(names: seq<string>, files: map<string, CsvFile>)
    ensures SetA(names, files).Ok? <==> forall k :: 0 <= k < |names| ==> Readable(files, names[k])
  {
    if |names| > 0 {
      var init := names[..|names| - 1];
      SetASucceeds(init, files);
      assert forall k :: 0 <= k < |init| ==> init[k] == names[k];
    }
  }

  /** Set A is the union of the contributions of the listed files. */
  lemma {:induction false} SetAMembers(names: seq<string>, files: map<string, CsvFile>, x: string)
    requires SetA(names, files).Ok?
    ensures x in SetA(names, files).value <==>
              exists k :: 0 <= k < |names| && Readable(files, names[k]) && x in FileContribution(files[names[k]]).value
  {
    if |names| > 0 {
      var init := names[..|names| - 1];
      var last := |names| - 1;
      SetAMembers(init, files, x);
      assert forall k :: 0 <= k < |init| ==> init[k] == names[k];
      SetASucceeds(names, files);
      assert Readable(files, names[last]);
      if exists k :: 0 <= k < |names| && Readable(files, names[k]) && x in FileContribution(files[names[k]]).value {
        var k :| 0 <= k < |names| && Readable(files, names[k]) && x in FileContribution(files[names[k]]).value;
        if k < last {
          assert init[k] == names[k];
        }
      }
    }
  }

  /** Every member of set A names a SNP. */
  lemma {:induction false} SetAOnlySnps(names: seq<string>, files: map<string, CsvFile>, x: string)
    requires SetA(names, files).Ok? && x in SetA(names, files).value
    ensures Contains(x, SNP_MARK)
  {
    SetAMembers(names, files, x);
    var k :| 0 <= k < |names| && Readable(files, names[k]) && x in FileContribution(files[names[k]]).value;
    var file := files[names[k]];
    FileSnpsMembers(file[0], file[1..], x);
  }

  /** The kept set: the common SNPs of the catalogue together with set A. */
  function Kept(catalog: Catalog, a: set<string>): (r: set<string>)
    ensures a <= r && BaseSet(catalog) <= r
  {
    BaseSet(catalog) + a
  }

  /** A kept identifier is a common catalogue SNP or a member of set A, and nothing else. */
  lemma KeptMembers(catalog: Catalog, a: set<string>, x: string)
    ensures x in Kept(catalog, a) <==>
              x in a || exists m :: m in catalog.mutations && m.mutationId == x && m.typeMutation == "SNP" &&
                                   m.refCount >= MIN_ALLELE_COUNT && m.altCount >= MIN_ALLELE_COUNT
  {
  }

  /** The six writes of the sets file, in order. */
  function SetsWrites(orderA: seq<string>, orderAll: seq<string>): seq<string>
  {
    ["SET_A\n", Join(orderA, "\n") + "\n", "END\n", "SET_B\n", Join(orderAll, "\n") + "\n", "END\n"]
  }

  /** The lines a set occupies in the file: its members, or one empty line when it is empty. */
  function Block(order: seq<string>): (r: seq<string>)
    ensures |r| >= 1 && Join(r, "\n") == Join(order, "\n")
  {
    if |order| == 0 then [""] else order
  }

  /** The whole script: set A, the kept set, and the text of the two files for the given iteration orders. */
  function SnpSetFiles(catalog: Catalog, arg: string, files: map<string, CsvFile>,
                       orderA: seq<string>, orderAll: seq<string>): (r: Result<SetFiles>)
    ensures r.Err? <==> SetA(FileList(arg), files).Err?
    ensures r.Err? ==> r.error == SetA(FileList(arg), files).error
  {
    match SetA(FileList(arg), files)
    case Err(e) => Err(e)
    case Ok(_) => Ok(SetFiles(Join(orderAll, "\n"), Concat(SetsWrites(orderA, orderAll))))
  }

  /** Read back line by line, the kept file lists the kept identifiers (an empty set leaves one empty line). */
  lemma KeptFileLines(order: seq<string>)
    requires Free(order, '\n')
    ensures Split(Join(order, "\n"), '\n') == Block(order)
  {
    if |order| > 0 {
      SplitJoin(order, '\n');
    }
  }

  /** The text of the sets file: each write after the previous one. */
  lemma SetsWritesText(orderA: seq<string>, orderAll: seq<string>)
    ensures Concat(SetsWrites(orderA, orderAll))
            == "SET_A" + "\n" + (Join(Block(orderA), "\n") + "\n" + ("END" + "\n" + ("SET_B" + "\n" +
               (Join(Block(orderAll), "\n") + "\n" + ("END" + "\n" + "")))))
  {
    var w := SetsWrites(orderA, orderAll);
    var t6 := "END" + "\n" + "";
    var t5 := Join(Block(orderAll), "\n") + "\n" + t6;
    var t4 := "SET_B" + "\n" + t5;
    var t3 := "END" + "\n" + t4;
    var t2 := Join(Block(orderA), "\n") + "\n" + t3;
    assert Concat(w[5..]) == t6;
    assert Concat(w[4..]) == t5 by { assert w[4..][1..] == w[5..]; }
    assert Concat(w[3..]) == t4 by { assert w[3..][1..] == w[4..]; }
    assert Concat(w[2..]) == t3 by { assert w[2..][1..] == w[3..]; }
    assert Concat(w[1..]) == t2 by { assert w[1..][1..] == w[2..]; }
  }

  /**
   * Read back line by line, the sets file is the SET_A marker, the lines of
   * set A, END, the SET_B marker, the lines of the kept set, END, and the
   * empty remainder after the final newline.
   */
  lemma SetsFileLines(orderA: seq<string>, orderAll: seq<string>)
    requires Free(orderA, '\n') && Free(orderAll, '\n')
    ensures Split(Concat(SetsWrites(orderA, orderAll)), '\n')
            == ["SET_A"] + Block(orderA) + ["END", "SET_B"] + Block(orderAll) + ["END", ""]
  {
    var blockA, blockAll := Block(orderA), Block(orderAll);
    assert Free(blockA, '\n') && Free(blockAll, '\n');
    var t6 := "END" + "\n" + "";
    var t5 := Join(blockAll, "\n") + "\n" + t6;
    var t4 := "SET_B" + "\n" + t5;
    var t3 := "END" + "\n" + t4;
    var t2 := Join(blockA, "\n") + "\n" + t3;
    SetsWritesText(orderA, orderAll);
    SplitAfterFree("END", '\n', "");
    assert Split("", '\n') == [""];
    var s6 := Split(t6, '\n');
    assert s6 == ["END", ""];
    SplitJoinThen(blockAll, '\n', t6);
    SplitAfterFree("SET_B", '\n', t5);
    SplitAfterFree("END", '\n', t4);
    SplitJoinThen(blockA, '\n', t3);
    SplitAfterFree("SET_A", '\n', t2);
    Regroup("SET_A", blockA, "END", "SET_B", blockAll, s6);
  }

  /** Reassociating the pieces of the sets file. */
  lemma Regroup<T>(x: T, a: seq<T>, y: T, z: T, b: seq<T>, tail: seq<T>)
    ensures [x] + (a + ([y] + ([z] + (b + tail)))) == [x] + a + [y, z] + b + tail
  {
    assert [y] + [z] == [y, z];
  }

  /**
   * Set A as the script builds it: one set, to which every qualifying ID of
   * every listed file is added, file after file and row after row.
   */
  method CollectSetA(names: seq<string>, files: map<string, CsvFile>) returns (r: Result<set<string>>)
    ensures r == SetA(names, files)
  {
    var snps: set<string> := {};
    var i := 0;
    assert names[..0] == [];
    while i < |names|
      invariant 0 <= i <= |names|
      invariant SetA(names[..i], files) == Ok(snps)
    {
      assert names[..i + 1][..i] == names[..i];
      var name := names[i];
      if name !in files {
        assert SetA(names[..i + 1], files) == Err(Raised("IOError"));
        SetAPrefixError(names, files, i + 1);
        return Err(Raised("IOError"));
      }
      var file := files[name];
      ghost var before := snps;
      if |file| > 0 {
        var header, rows := file[0], file[1..];
        var k := 0;
        assert rows[..0] == [];
        while k < |rows|
          invariant 0 <= k <= |rows|
          invariant FileSnps(header, rows[..k]).Ok? && snps == before + FileSnps(header, rows[..k]).value
        {
          assert rows[..k + 1][..k] == rows[..k];
          var row := rows[k];
          if row != [] {
            var id := RowId(header, row);
            if id.Err? {
              assert FileSnps(header, rows[..k + 1]) == Err(id.error);
              FileSnpsPrefixError(header, rows, k + 1);
              assert rows[..|rows|] == rows;
              assert SetA(names[..i + 1], files) == Err(id.error);
              SetAPrefixError(names, files, i + 1);
              return Err(id.error);
            }
            if Contains(id.value, SNP_MARK) {
              snps := snps + {id.value};
            }
          }
          k := k + 1;
        }
        assert rows[..|rows|] == rows;
      } else {
        assert before + {} == snps;
      }
      assert FileContribution(file).Ok? && snps == before + FileContribution(file).value;
      assert SetA(names[..i + 1], files) == Ok(snps);
      i := i + 1;
    }
    assert names[..|names|] == names;
    return Ok(snps);
  }

  /** Once a prefix of the rows fails, the whole file fails the same way. */
  lemma {:induction false} FileSnpsPrefixError(header: seq<string>, rows: seq<seq<string>>, n: nat)
    requires n <= |rows| && FileSnps(header, rows[..n]).Err?
    ensures FileSnps(header, rows) == FileSnps(header, rows[..n])
    decreases |rows| - n
  {
    if n < |rows| {
      assert rows[..n + 1][..n] == rows[..n];
      FileSnpsPrefixError(header, rows, n + 1);
    } else {
      assert rows[..n] == rows;
    }
  }

  /** Once a prefix of the file names fails, the whole list fails the same way. */
  lemma {:induction false} SetAPrefixError(names: seq<string>, files: map<string, CsvFile>, n: nat)
    requires n <= |names| && SetA(names[..n], files).Err?
    ensures SetA(names, files) == SetA(names[..n], files)
    decreases |names| - n
  {
    if n < |names| {
      assert names[..n + 1][..n] == names[..n];
      SetAPrefixError(names, files, n + 1);
    } else {
      assert names[..n] == names;
    }
  }

  /**
   * The script end to end: the file list, set A, the kept set, and the two
   * files, each set written in the order the iteration over it yields.
   */
  method PrepareSnpSets(catalog: Catalog, arg: string, files: map<string, CsvFile>)
    returns (r: Result<SetFiles>, orderA: seq<string>, orderAll: seq<string>)
    ensures r == SnpSetFiles(catalog, arg, files, orderA, orderAll)
    ensures r.Ok? ==> Enumerates(orderA, SetA(FileList(arg), files).value)
    ensures r.Ok? ==> Enumerates(orderAll, Kept(catalog, SetA(FileList(arg), files).value))
  {
    var names := FileList(arg);
    var all := BaseSet(catalog);
    var a := CollectSetA(names, files);
    if a.Err? {
      return Err(a.error), [], [];
    }
    all := all + a.value;
    orderAll := Enumerate(all);
    var kept := Join(orderAll, "\n");
    orderA := Enumerate(a.value);
    var sets := Concat(SetsWrites(orderA, orderAll));
    r := Ok(SetFiles(kept, sets));
  }
}
