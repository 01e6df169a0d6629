// Recognising the format of an input file from the extension in its name.

module FileUtils {
  import opened Runtime
  import opened Text
  import opened Constants

  /** The last element of a split: the text after the last separator, or the whole text without one. */
  function LastField(s: string, c: char): string
  {
    var parts := Split(s, c);
    parts[|parts| - 1]
  }

  /**
   * `find_extension`: the text after the last '.', upper-cased, when it is a
   * known extension.  Otherwise the code raises FileFormatException, whose
   * constructor names the undefined class `MeanException` in its `super`
   * call, so the exception that actually escapes is a NameError.
   */
  function FindExtension(path: string): (r: Result<string>)
    ensures r.Ok? ==> r.value in EXTENSION_LIST
    ensures r.Err? ==> r.error == NameError("MeanException")
  {
    var extension := Upper(LastField(path, '.'));
    if extension !in EXTENSION_LIST then Err(NameError("MeanException")) else Ok(extension)
  }

  /** What the check makes of a candidate extension once it is isolated. */
  function Recognised(extension: string): (r: Result<string>)
    ensures r.Ok? <==> Upper(extension) in EXTENSION_LIST
    ensures r.Ok? ==> r.value == Upper(extension)
  {
    if Upper(extension) in EXTENSION_LIST then Ok(Upper(extension)) else Err(NameError("MeanException"))
  }

  /** Whatever the rest of the path holds, only the text after its last dot decides. */
  lemma ExtensionAfterLastDot(stem: string, extension: string)
    requires '.' !in extension
    ensures FindExtension(stem + "." + extension) == Recognised(extension)
  {
    assert stem + "." + extension == stem + ['.'] + extension;
    SplitLastAfter(stem, '.', extension);
  }

  /** A path without a dot is its own candidate extension. */
  lemma NoDot(path: string)
    requires '.' !in path
    ensures FindExtension(path) == Recognised(path)
  {
    SplitFree(path, '.');
  }

  /** The known extensions are recognised whatever the case of their letters. */
  lemma KnownExtension(stem: string, extension: string)
    requires '.' !in extension && Upper(extension) in EXTENSION_LIST
    ensures FindExtension(stem + "." + extension) == Ok(Upper(extension))
  {
    ExtensionAfterLastDot(stem, extension);
  }

  /** Upper-casing leaves dots where they are. */
  lemma UpperKeepsDots(s: string)
    ensures '.' in Upper(s) <==> '.' in s
  {
    if '.' in s {
      var i :| 0 <= i < |s| && s[i] == '.';
      assert Upper(s)[i] == '.';
    }
    if '.' in Upper(s) {
      var i :| 0 <= i < |Upper(s)| && Upper(s)[i] == '.';
      assert s[i] == '.';
    }
  }

  /** Upper-casing a path with a last dot keeps the dot and upper-cases the parts on both sides. */
  lemma UpperSplitAtDot(stem: string, extension: string)
    ensures Upper(stem + "." + extension) == Upper(stem) + "." + Upper(extension)
  {
    UpperConcat(stem + ".", extension);
    UpperConcat(stem, ".");
    assert Upper(".") == [UpperChar('.')] == ".";
  }

  /** A path is split at its last dot into a stem and a dot-free extension. */
  lemma LastDot(path: string) returns (stem: string, extension: string)
    requires '.' in path
    ensures path == stem + "." + extension && '.' !in extension
  {
    var i := LastIndexOf(path, '.');
    stem, extension := path[..i], path[i + 1..];
    assert path == stem + "." + extension;
    forall j | 0 <= j < |extension|
      ensures extension[j] != '.'
    {
      assert extension[j] == path[i + 1 + j];
    }
  }

  /** A path and its upper-cased form have the same extension: the check ignores case. */
  lemma CaseInsensitive(path: string)
    ensures FindExtension(Upper(path)) == FindExtension(path)
  {
    UpperKeepsDots(path);
    UpperIdempotent(path);
    if '.' !in path {
      NoDot(path);
      NoDot(Upper(path));
    } else {
      var stem, extension := LastDot(path);
      ExtensionAfterLastDot(stem, extension);
      UpperSplitAtDot(stem, extension);
      UpperKeepsDots(extension);
      ExtensionAfterLastDot(Upper(stem), Upper(extension));
      UpperIdempotent(extension);
    }
  }
}
