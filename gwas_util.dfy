// The Fast-LMM analysis definition file: a ';'-separated table whose first
// non-blank line names the parameters, and whose every other well-formed
// line describes one analysis to run.

module GwasUtil {
  import opened Runtime
  import opened Text

  /** The characters stripped from both ends of every line before it is looked at. */
  const LINE_BREAKS: set<char> := {'\n', '\r'}
  const SEPARATOR: char := ';'

  /** One analysis: each parameter name of the header mapped to the line's value in that column. */
  type Definition = map<string, string>

  /** Where the reading stands: the header once one has been read, and the analyses accepted so far. */
  datatype Reading = Reading(headers: Option<seq<string>>, definitions: seq<Definition>)

  /**
   * `{headers[i]: values[i]}` built column by column, so that a repeated
   * parameter name keeps the value of its last column.
   */
  function Zip(headers: seq<string>, values: seq<string>): (d: Definition)
    requires |headers| == |values|
    ensures d.Keys == set h | h in headers
  {
    if |headers| == 0 then map[]
    else
      var n := |headers| - 1;
      var before := Zip(headers[..n], values[..n]);
      assert (set h | h in headers) == (set h | h in headers[..n]) + {headers[n]} by {
        assert headers == headers[..n] + [headers[n]];
      }
      before[headers[n] := values[n]]
  }

  /** A parameter name holds the value of the last column it heads. */
  lemma {:induction false} ZipLastWins(headers: seq<string>, values: seq<string>, i: nat)
    requires |headers| == |values| && i < |headers|
    requires forall j :: i < j < |headers| ==> headers[j] != headers[i]
    ensures Zip(headers, values)[headers[i]] == values[i]
  {
    var n := |headers| - 1;
    assert Zip(headers, values) == Zip(headers[..n], values[..n])[headers[n] := values[n]];
    if i < n {
      assert headers[..n][i] == headers[i] && values[..n][i] == values[i];
      assert forall j :: i < j < n ==> headers[..n][j] == headers[j];
      ZipLastWins(headers[..n], values[..n], i);
    }
  }

  /** The dictionary of one line, built by the column loop of the reader. */
  method MakeDefinition(headers: seq<string>, values: seq<string>) returns (d: Definition)
    requires |headers| == |values|
    ensures d == Zip(headers, values)
  {
    d := map[];
    for i := 0 to |headers|
      invariant d == Zip(headers[..i], values[..i])
    {
      assert headers[..i + 1][..i] == headers[..i] && values[..i + 1][..i] == values[..i];
      d := d[headers[i] := values[i]];
    }
    assert headers[..|headers|] == headers && values[..|values|] == values;
  }

  /** The text of a line once its line breaks are stripped: a blank line is empty. */
  function Content(line: string): string
  {
    Strip(line, LINE_BREAKS)
  }

  /**
   * Reading one more line: a blank line is skipped, the first non-blank line
   * becomes the header, and a later line is accepted when it has as many
   * fields as the header and skipped otherwise.
   */
  function Step(state: Reading, line: string): (r: Reading)
    ensures state.headers.Some? ==> r.headers == state.headers
    ensures |state.definitions| <= |r.definitions| <= |state.definitions| + 1
    ensures r.definitions[..|state.definitions|] == state.definitions
  {
    var content := Content(line);
    if content == "" then state
    else if state.headers.None? then Reading(Some(Split(content, SEPARATOR)), state.definitions)
    else
      var values := Split(content, SEPARATOR);
      if |values| != |state.headers.value| then state
      else Reading(state.headers, state.definitions + [Zip(state.headers.value, values)])
  }

  /** The reading of the lines of the file, in order. */
  function Read(lines: seq<string>): (r: Reading)
    ensures |r.definitions| <= |lines|
    ensures r.definitions != [] ==> r.headers.Some?
  {
    if |lines| == 0 then Reading(None, []) else Step(Read(lines[..|lines| - 1]), lines[|lines| - 1])
  }

  /** Every analysis read sets exactly the parameters the header names. */
  lemma {:induction false} ReadKeys(lines: seq<string>)
    ensures Read(lines).headers.Some? ==>
              forall k :: 0 <= k < |Read(lines).definitions| ==>
                Read(lines).definitions[k].Keys == set h | h in Read(lines).headers.value
  {
    if |lines| > 0 {
      var before := Read(lines[..|lines| - 1]);
      ReadKeys(lines[..|lines| - 1]);
      var r := Read(lines);
      assert forall k :: 0 <= k < |before.definitions| ==> r.definitions[k] == before.definitions[k];
    }
  }

  lemma ConsSnoc(header: string, data: seq<string>)
    requires |data| > 0
    ensures [header] + data == ([header] + data[..|data| - 1]) + [data[|data| - 1]]
  {
    assert data[..|data| - 1] + [data[|data| - 1]] == data;
  }

  /** Reading one more line is one more step. */
  lemma ReadSnoc(lines: seq<string>, line: string)
    ensures Read(lines + [line]) == Step(Read(lines), line)
  {
    assert (lines + [line])[..|lines|] == lines;
  }

  /**
   * `read_fastlmm_gwas_analysis_definition`: the analyses of the file, one
   * per accepted line, in file order.  This is the body as its authors
   * intended it: the class it sits in derives from `ExecutionStrategy`,
   * which the module never imports, so loading the module raises NameError
   * before the method can be called.
   */
  method ReadDefinitions(lines: seq<string>) returns (definitions: seq<Definition>)
    ensures definitions == Read(lines).definitions
  {
    definitions := [];
    var firstLine := true;
    var headers: seq<string> := [];
    for n := 0 to |lines|
      invariant Read(lines[..n]).definitions == definitions
      invariant firstLine <==> Read(lines[..n]).headers.None?
      invariant !firstLine ==> Read(lines[..n]).headers == Some(headers)
    {
      assert lines[..n + 1][..n] == lines[..n];
      var line := Content(lines[n]);
      if line == "" {
        continue;
      }
      if firstLine {
        firstLine := false;
        headers := Split(line, SEPARATOR);
      } else {
        var values := Split(line, SEPARATOR);
        if |values| != |headers| {
          continue;
        }
        var current := MakeDefinition(headers, values);
        definitions := definitions + [current];
      }
    }
    assert lines[..|lines|] == lines;
  }

  /** The header is the split of the first line that is not blank; no later line changes it. */
  lemma {:induction false} HeaderIsFirstContent(lines: seq<string>, k: nat)
    requires k < |lines| && Content(lines[k]) != ""
    requires forall j :: 0 <= j < k ==> Content(lines[j]) == ""
    ensures Read(lines).headers == Some(Split(Content(lines[k]), SEPARATOR))
  {
    var n := |lines| - 1;
    var init := lines[..n];
    assert Read(lines) == Step(Read(init), lines[n]);
    if n == k {
      forall j | 0 <= j < k ensures Content(init[j]) == "" {
        assert init[j] == lines[j];
      }
      BlankPrefix(init);
    } else {
      assert init[k] == lines[k];
      forall j | 0 <= j < k ensures Content(init[j]) == "" {
        assert init[j] == lines[j];
      }
      HeaderIsFirstContent(init, k);
    }
  }

  /** Blank lines alone give neither a header nor an analysis. */
  lemma {:induction false} BlankPrefix(lines: seq<string>)
    requires forall j :: 0 <= j < |lines| ==> Content(lines[j]) == ""
    ensures Read(lines) == Reading(None, [])
  {
    if |lines| > 0 {
      BlankPrefix(lines[..|lines| - 1]);
    }
  }

  /** A line whose field count differs from the header's, or a blank one, adds no analysis. */
  lemma SkippedLine(lines: seq<string>, line: string)
    requires Read(lines).headers.Some?
    requires Content(line) == "" || |Split(Content(line), SEPARATOR)| != |Read(lines).headers.value|
    ensures Read(lines + [line]) == Read(lines)
  {
    assert (lines + [line])[..|lines|] == lines;
  }

  /** The fields of a line: its content split on the separator. */
  function Fields(line: string): seq<string>
  {
    Split(Content(line), SEPARATOR)
  }

  /** One analysis per line, in order, for lines that all have as many fields as the header. */
  function Expected(headers: seq<string>, data: seq<string>): (r: seq<Definition>)
    requires Fit(headers, data)
  {
    seq(|data|, k requires 0 <= k < |data| => Zip(headers, Fields(data[k])))
  }

  /** The expected analyses of one more line. */
  lemma ExpectedSnoc(headers: seq<string>, data: seq<string>)
    requires |data| > 0 && Fit(headers, data)
    ensures Fit(headers, data[..|data| - 1])
    ensures Expected(headers, data)
            == Expected(headers, data[..|data| - 1]) + [Zip(headers, Fields(data[|data| - 1]))]
  {
    var n := |data| - 1;
    var init := data[..n];
    forall k | 0 <= k < n ensures |Fields(init[k])| == |headers| {
      assert init[k] == data[k];
    }
    var left, right := Expected(headers, data), Expected(headers, init) + [Zip(headers, Fields(data[n]))];
    forall k | 0 <= k < |data| ensures left[k] == right[k] {
      if k < n {
        assert init[k] == data[k];
      }
    }
  }

  /** Every line has as many fields as the header. */
  predicate Fit(headers: seq<string>, data: seq<string>)
  {
    forall k :: 0 <= k < |data| ==> |Fields(data[k])| == |headers|
  }

  /**
   * After the header, each non-blank line with as many fields as the header
   * yields exactly one analysis, in file order, holding that line's values.
   */
  lemma {:induction false} OneDefinitionPerLine(header: string, data: seq<string>)
    requires Content(header) != ""
    requires forall k :: 0 <= k < |data| ==> Content(data[k]) != "" && |Fields(data[k])| == |Fields(header)|
    ensures Read([header] + data) == Reading(Some(Fields(header)), Expected(Fields(header), data))
  {
    var lines := [header] + data;
    if |data| == 0 {
      assert lines[..0] == [];
      assert Read(lines) == Step(Reading(None, []), header);
    } else {
      var n := |data| - 1;
      assert forall k :: 0 <= k < n ==> data[..n][k] == data[k];
      OneDefinitionPerLine(header, data[..n]);
      ExpectedSnoc(Fields(header), data);
      ConsSnoc(header, data);
      ReadSnoc([header] + data[..n], data[n]);
    }
  }
}
