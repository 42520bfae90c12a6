/** The in-memory dataset a write receives (a pandas `DataFrame`): an ordered
    list of distinct columns, the dtype string of each (`dtype.str`, such as
    `<i8`, `<f8` or `|O`), and the records. A write stamps it in place. */
module Dataset {
  import opened Values

  predicate Distinct(cols: seq<Column>) {
    forall i, j :: 0 <= i < j < |cols| ==> cols[i] != cols[j]
  }

  /** The position of a column. */
  function IndexOf(cols: seq<Column>, name: Column): (i: nat)
    requires name in cols
    ensures i < |cols| && cols[i] == name && name !in cols[..i]
    decreases |cols|
  {
    if cols[0] == name then 0
    else
      var i := 1 + IndexOf(cols[1..], name);
      assert cols[..i] == [cols[0]] + cols[1..][..i - 1];
      i
  }

  /** The column list after `data[name] = value`: an existing column keeps
      its place, a new one is added last. */
  function WithColumn(cols: seq<Column>, name: Column): seq<Column> {
    if name in cols then cols else cols + [name]
  }

  /** The dtype list after `data[name] = value` for a value of dtype `dtype`. */
  function WithDtype(cols: seq<Column>, dtypes: seq<string>, name: Column, dtype: string): seq<string>
    requires |dtypes| == |cols|
  {
    if name in cols then dtypes[IndexOf(cols, name) := dtype] else dtypes + [dtype]
  }

  /** Every record with `name` set to `v`. */
  function Broadcast(rows: seq<Record>, name: Column, v: Value): seq<Record> {
    seq(|rows|, i requires 0 <= i < |rows| => rows[i][name := v])
  }

  /** Assigning a column keeps the columns distinct, keeps every other
      column where it was, and puts the column last when it is new. */
  lemma WithColumnPlacement(cols: seq<Column>, name: Column)
    requires Distinct(cols)
    ensures var after := WithColumn(cols, name);
            && Distinct(after)
            && name in after
            && (name !in cols ==> after == cols + [name] && after[|after| - 1] == name)
            && (name in cols ==> after == cols)
  {
  }

  class Frame {
    var columns: seq<Column>
    var dtypes: seq<string>
    var rows: seq<Record>

    ghost predicate Valid()
      reads this
    {
      && |dtypes| == |columns|
      && Distinct(columns)
      && forall i :: 0 <= i < |rows| ==> rows[i].Keys == (set c | c in columns)
    }

    /** `data[name] = value` for a scalar `value` of dtype `dtype`: the value
        is broadcast to every record. */
    method Assign(name: Column, value: Value, dtype: string)
      requires Valid()
      modifies this
      ensures Valid()
      ensures columns == WithColumn(old(columns), name)
      ensures dtypes == WithDtype(old(columns), old(dtypes), name, dtype)
      ensures rows == Broadcast(old(rows), name, value)
    {
      var before := columns;
      dtypes := WithDtype(columns, dtypes, name, dtype);
      columns := WithColumn(columns, name);
      rows := Broadcast(rows, name, value);
      WithColumnPlacement(before, name);
      assert (set c | c in columns) == (set c | c in before) + {name};
    }
  }
}
