// What the two analysis wrappers share when they line a phenotype or
// covariable file up with the genotype (.ped) file: the family key, the
// genotype family order, the table of data rows by key, the order check
// and the reordered output.

module Families {
  import opened Runtime
  import opened Text

  /** `getKey`: the family id and the individual id, separated by a colon. */
  function Key(fid: string, iid: string): (k: string)
    ensures |k| == |fid| + 1 + |iid| && ':' in k
  {
    fid + ":" + iid
  }

  /** Keys whose family ids hold no colon identify the pair they were built from. */
  lemma KeyInjective(fid1: string, iid1: string, fid2: string, iid2: string)
    requires ':' !in fid1 && ':' !in fid2
    requires Key(fid1, iid1) == Key(fid2, iid2)
    ensures fid1 == fid2 && iid1 == iid2
  {
    SplitAfterFree(fid1, ':', iid1);
    SplitAfterFree(fid2, ':', iid2);
    assert fid1 + ":" + iid1 == fid1 + [':'] + iid1;
    assert fid2 + ":" + iid2 == fid2 + [':'] + iid2;
    assert [fid1] + Split(iid1, ':') == [fid2] + Split(iid2, ':');
    assert fid1 == ([fid1] + Split(iid1, ':'))[0];
    assert iid1 == Key(fid1, iid1)[|fid1| + 1..];
  }

  /** The family keys of the genotype rows, in file order; a row with fewer than two fields raises IndexError. */
  function FamilyNames(geno: seq<seq<string>>): (r: Result<seq<string>>)
    ensures r.Ok? <==> forall i :: 0 <= i < |geno| ==> |geno[i]| >= 2
    ensures r.Err? ==> r.error == IndexError
    ensures r.Ok? ==> |r.value| == |geno| && forall i :: 0 <= i < |geno| ==> r.value[i] == Key(geno[i][0], geno[i][1])
  {
    if |geno| == 0 then Ok([])
    else
      var n := |geno| - 1;
      assert forall i :: 0 <= i < n ==> geno[..n][i] == geno[i];
      match FamilyNames(geno[..n])
      case Err(e) => Err(e)
      case Ok(names) => if |geno[n]| < 2 then Err(IndexError) else Ok(names + [Key(geno[n][0], geno[n][1])])
  }

  /** The loop over the genotype reader. */
  method ReadFamilyNames(geno: seq<seq<string>>) returns (r: Result<seq<string>>)
    ensures r == FamilyNames(geno)
  {
    var names: seq<string> := [];
    for i := 0 to |geno|
      invariant FamilyNames(geno[..i]) == Ok(names)
    {
      assert geno[..i + 1][..i] == geno[..i];
      if |geno[i]| < 2 {
        FamilyNamesPrefixError(geno, i + 1);
        return Err(IndexError);
      }
      names := names + [Key(geno[i][0], geno[i][1])];
    }
    assert geno[..|geno|] == geno;
    return Ok(names);
  }

  lemma FamilyNamesPrefixError(geno: seq<seq<string>>, n: nat)
    requires n <= |geno| && FamilyNames(geno[..n]).Err?
    ensures FamilyNames(geno).Err?
  {
    assert forall i :: 0 <= i < n ==> geno[..n][i] == geno[i];
  }

  /**
   * The data rows read so far: their keys in file order, the text stored
   * under each key (the fields rejoined with single spaces, a later row
   * replacing an earlier one with the same key), and the family id of the
   * last row, which the loop leaves behind in `fid`.
   */
  datatype Table = Table(keys: seq<string>, lines: map<string, string>, lastFid: Option<string>)

  const EMPTY_TABLE := Table([], map[], None)

  /** One more data row, of at least two fields. */
  function AddRow(t: Table, row: seq<string>): (r: Table)
    requires |row| >= 2
    ensures r.keys == t.keys + [Key(row[0], row[1])] && r.lastFid == Some(row[0])
    ensures r.lines.Keys == t.lines.Keys + {Key(row[0], row[1])}
    ensures r.lines[Key(row[0], row[1])] == Join(row, " ")
    ensures forall k :: k in t.lines && k != Key(row[0], row[1]) ==> r.lines[k] == t.lines[k]
  {
    var key := Key(row[0], row[1]);
    Table(t.keys + [key], t.lines[key := Join(row, " ")], Some(row[0]))
  }

  /**
   * The order check as written: for each index below `count` it compares the
   * genotype key at that index with the one-character string `lastFid[index]`,
   * stopping at the first difference.  Running past either sequence raises
   * IndexError.
   */
  function OrderCheckFrom(names: seq<string>, count: nat, lastFid: string, i: nat): (r: Result<bool>)
    requires i <= count
    decreases count - i
  {
    if i == count then Ok(false)
    else if i >= |names| || i >= |lastFid| then Err(IndexError)
    else if names[i] != [lastFid[i]] then Ok(true)
    else OrderCheckFrom(names, count, lastFid, i + 1)
  }

  function OrderCheck(names: seq<string>, count: nat, lastFid: string): (r: Result<bool>)
  {
    OrderCheckFrom(names, count, lastFid, 0)
  }

  /** The comparison at `index` finds the key equal to the one-character string of `lastFid` there. */
  predicate MatchesAt(names: seq<string>, lastFid: string, index: int)
  {
    0 <= index < |names| && index < |lastFid| && names[index] == [lastFid[index]]
  }

  /** The check passes only when each of the first `count` keys is the single character of `lastFid` at its index. */
  lemma {:induction false} OrderCheckPasses(names: seq<string>, count: nat, lastFid: string, i: nat)
    requires i <= count
    ensures OrderCheckFrom(names, count, lastFid, i) == Ok(false) <==>
              forall j :: i <= j < count ==> MatchesAt(names, lastFid, j)
    decreases count - i
  {
    if i < count {
      OrderCheckPasses(names, count, lastFid, i + 1);
      if !MatchesAt(names, lastFid, i) {
        assert OrderCheckFrom(names, count, lastFid, i) != Ok(false);
      }
    }
  }

  /**
   * A genotype key holds a colon, so it is a single character only when both
   * of its ids are empty: with any id present the first comparison differs,
   * and a reordered file is produced even when the two files already list
   * the families in the same order.
   */
  lemma SameOrderStillReordered(keys: seq<string>, fid: string, iid: string, lastFid: string)
    requires |keys| > 0 && keys[0] == Key(fid, iid) && (fid != "" || iid != "")
    requires |lastFid| > 0
    ensures OrderCheck(keys, |keys|, lastFid) == Ok(true)
  {
    assert |keys[0]| >= 2;
  }

  /** `for index in range(count)` with an early break. */
  method CheckOrder(names: seq<string>, count: nat, lastFid: string) returns (r: Result<bool>)
    ensures r == OrderCheck(names, count, lastFid)
  {
    var index := 0;
    while index < count
      invariant 0 <= index <= count
      invariant OrderCheckFrom(names, count, lastFid, index) == OrderCheck(names, count, lastFid)
    {
      if index >= |names| || index >= |lastFid| {
        return Err(IndexError);
      }
      if names[index] != [lastFid[index]] {
        return Ok(true);
      }
      index := index + 1;
    }
    return Ok(false);
  }

  /**
   * The rewritten file: for each genotype key in order, the stored row and a
   * newline; a key with no row raises the wrapper's Exception.
   */
  function Reordered(names: seq<string>, lines: map<string, string>): (r: Result<seq<string>>)
    ensures r.Ok? <==> forall i :: 0 <= i < |names| ==> names[i] in lines
    ensures r.Err? ==> r.error == Raised("Exception")
    ensures r.Ok? ==> |r.value| == |names| && forall i :: 0 <= i < |names| ==> r.value[i] == lines[names[i]] + "\n"
  {
    if |names| == 0 then Ok([])
    else
      var n := |names| - 1;
      assert forall i :: 0 <= i < n ==> names[..n][i] == names[i];
      match Reordered(names[..n], lines)
      case Err(e) => Err(e)
      case Ok(out) => if names[n] !in lines then Err(Raised("Exception")) else Ok(out + [lines[names[n]] + "\n"])
  }

  /** The writing loop, one write per genotype key. */
  method WriteOrdered(names: seq<string>, lines: map<string, string>) returns (r: Result<seq<string>>)
    ensures r == Reordered(names, lines)
  {
    var written: seq<string> := [];
    for i := 0 to |names|
      invariant Reordered(names[..i], lines) == Ok(written)
    {
      assert names[..i + 1][..i] == names[..i];
      if names[i] !in lines {
        assert !(names[i] in lines);
        assert Reordered(names, lines).Err?;
        return Err(Raised("Exception"));
      }
      written := written + [lines[names[i]] + "\n"];
    }
    assert names[..|names|] == names;
    return Ok(written);
  }

  /** What a check leaves in the ordered file: rows rewritten in genotype order, or a copy of the input. */
  datatype Ordered = Rewritten(lines: seq<string>) | Copied
}
