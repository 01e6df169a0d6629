// Flattening the rows a query returns into plain lists.

module SqlAlchemyUtil {
  import opened Runtime

  /**
   * `format_list_column`: the first column of every row, in row order; a row
   * with no column raises IndexError.
   */
  function FormatListColumn<T>(rows: seq<seq<T>>): (r: Result<seq<T>>)
    ensures r.Ok? <==> forall i :: 0 <= i < |rows| ==> |rows[i]| > 0
    ensures r.Err? ==> r.error == IndexError
    ensures r.Ok? ==> |r.value| == |rows| && forall i :: 0 <= i < |rows| ==> r.value[i] == rows[i][0]
  {
    if |rows| == 0 then Ok([])
    else if |rows[0]| == 0 then Err(IndexError)
    else
      match FormatListColumn(rows[1..])
      case Err(e) => Err(e)
      case Ok(rest) => Ok([rows[0][0]] + rest)
  }

  /** Rows of one column each are given back as the list of their values. */
  lemma {:induction false} SingleColumnRows<T>(values: seq<T>)
    ensures FormatListColumn(seq(|values|, i requires 0 <= i < |values| => [values[i]])) == Ok(values)
  {
    var rows := seq(|values|, i requires 0 <= i < |values| => [values[i]]);
    assert forall i :: 0 <= i < |rows| ==> rows[i] == [values[i]];
    var r := FormatListColumn(rows);
    assert r.Ok?;
    assert r.value == values;
  }

  /** `format_list_object`: a new list holding the same objects in the same order. */
  function FormatListObject<T>(objects: seq<T>): (r: seq<T>)
    ensures |r| == |objects| && forall i :: 0 <= i < |objects| ==> r[i] == objects[i]
  {
    if |objects| == 0 then [] else [objects[0]] + FormatListObject(objects[1..])
  }
}
