/** The bulk `INSERT` the relational suppliers build (`Mssql._insert`,
    `Redshift._insert`): the column list, one placeholder per column chosen
    from the column's dtype, and the rows as tuples in column order. */
module BulkInsert {
  import opened Text
  import opened Values
  import opened Dataset

  /** The column every relational write stamps with the time of the write. */
  const InsertTimestamp: Column := "insert_timestamp"

  /** The dtype pandas gives a column assigned a string: `object`. */
  const ObjectDtype: string := "|O"

  /** `Mssql.options.get_option`: `%d` for a dtype string containing `i` or
      `f`, `%s` for any other. */
  function MssqlOption(dtype: string): string {
    if 'i' in dtype || 'f' in dtype then "%d" else "%s"
  }

  /** `Mssql.options`: one placeholder per column, in column order. */
  function MssqlOptions(dtypes: seq<string>): seq<string> {
    seq(|dtypes|, i requires 0 <= i < |dtypes| => MssqlOption(dtypes[i]))
  }

  /** `Redshift.options`: `%s` for every column. */
  function RedshiftOptions(dtypes: seq<string>): seq<string> {
    seq(|dtypes|, i requires 0 <= i < |dtypes| => "%s")
  }

  /** The bulk insert statement: the table, the comma-separated columns in
      parentheses, then the comma-separated placeholders in parentheses. */
  function InsertStatement(table: string, cols: seq<Column>, opts: seq<string>): string {
    "INSERT INTO " + table + " (" + Join(cols, ',') + ") VALUES (" + Join(opts, ',') + ")"
  }

  /** One record as a tuple in column order. */
  function RowTuple(cols: seq<Column>, r: Record): seq<Value>
    requires forall c :: c in cols ==> c in r
  {
    seq(|cols|, i requires 0 <= i < |cols| => r[cols[i]])
  }

  /** The rows of the insert: one tuple per record, in record order. */
  function RowTuples(cols: seq<Column>, rows: seq<Record>): seq<seq<Value>>
    requires forall j, c :: 0 <= j < |rows| && c in cols ==> c in rows[j]
  {
    seq(|rows|, j requires 0 <= j < |rows| => RowTuple(cols, rows[j]))
  }

  /** Reads a tuple back as a record, pairing its values with the columns. */
  function RecordOf(cols: seq<Column>, vals: seq<Value>): Record
    requires |vals| == |cols|
    decreases |cols|
  {
    if cols == [] then map[]
    else RecordOf(cols[..|cols| - 1], vals[..|vals| - 1])[cols[|cols| - 1] := vals[|vals| - 1]]
  }

  /** Each column gets `%d` exactly when its dtype string contains `i` or
      `f`, and `%s` otherwise; the Redshift supplier always uses `%s`. */
  lemma OptionsPerColumn(dtypes: seq<string>)
    ensures |MssqlOptions(dtypes)| == |RedshiftOptions(dtypes)| == |dtypes|
    ensures forall i :: 0 <= i < |dtypes| ==>
              && (MssqlOptions(dtypes)[i] == "%d" <==> 'i' in dtypes[i] || 'f' in dtypes[i])
              && (MssqlOptions(dtypes)[i] == "%s" <==> !('i' in dtypes[i] || 'f' in dtypes[i]))
              && RedshiftOptions(dtypes)[i] == "%s"
  {
  }

  /** After the stamp the timestamp column is bound with `%s` by both
      suppliers, wherever it stands. */
  lemma StampedColumnIsText(cols: seq<Column>, dtypes: seq<string>)
    requires |dtypes| == |cols|
    ensures var after := WithColumn(cols, InsertTimestamp);
            var k := IndexOf(after, InsertTimestamp);
            var types := WithDtype(cols, dtypes, InsertTimestamp, ObjectDtype);
            && |types| == |after|
            && MssqlOptions(types)[k] == "%s"
            && RedshiftOptions(types)[k] == "%s"
  {
    var after := WithColumn(cols, InsertTimestamp);
    var types := WithDtype(cols, dtypes, InsertTimestamp, ObjectDtype);
    var k := IndexOf(after, InsertTimestamp);
    if InsertTimestamp !in cols {
      assert after[|cols|] == InsertTimestamp;
      assert InsertTimestamp !in after[..|cols|];
      assert k == |cols|;
    }
    assert types[k] == ObjectDtype;
    assert 'i' !in ObjectDtype && 'f' !in ObjectDtype;
  }

  /** The statement built for a stamped dataset names the table, then lists
      the stamped columns and one placeholder per column, each list
      comma-separated in column order, so that splitting either list on
      commas gives it back (for column names without a comma). */
  lemma StampedStatementLists(table: string, cols: seq<Column>, dtypes: seq<string>)
    requires |dtypes| == |cols|
    requires forall i :: 0 <= i < |cols| ==> ',' !in cols[i]
    ensures var after := WithColumn(cols, InsertTimestamp);
            var types := WithDtype(cols, dtypes, InsertTimestamp, ObjectDtype);
            && |MssqlOptions(types)| == |RedshiftOptions(types)| == |after|
            && (exists c, o ::
                  && InsertStatement(table, after, MssqlOptions(types))
                       == "INSERT INTO " + table + " (" + c + ") VALUES (" + o + ")"
                  && Split(c, ',') == after && Split(o, ',') == MssqlOptions(types))
            && (exists c, o ::
                  && InsertStatement(table, after, RedshiftOptions(types))
                       == "INSERT INTO " + table + " (" + c + ") VALUES (" + o + ")"
                  && Split(c, ',') == after && Split(o, ',') == RedshiftOptions(types))
  {
    var after := WithColumn(cols, InsertTimestamp);
    var types := WithDtype(cols, dtypes, InsertTimestamp, ObjectDtype);
    var mssql, redshift := MssqlOptions(types), RedshiftOptions(types);
    assert ',' !in InsertTimestamp;
    assert forall i :: 0 <= i < |after| ==> ',' !in after[i];
    assert forall i :: 0 <= i < |mssql| ==> ',' !in mssql[i];
    assert forall i :: 0 <= i < |redshift| ==> ',' !in redshift[i];
    SplitJoin(after, ',');
    SplitJoin(mssql, ',');
    SplitJoin(redshift, ',');
    var c, o1, o2 := Join(after, ','), Join(mssql, ','), Join(redshift, ',');
    assert InsertStatement(table, after, mssql) == "INSERT INTO " + table + " (" + c + ") VALUES (" + o1 + ")";
    assert InsertStatement(table, after, redshift) == "INSERT INTO " + table + " (" + c + ") VALUES (" + o2 + ")";
  }

  lemma {:induction false} RecordOfRowTuple(cols: seq<Column>, r: Record)
    requires forall c :: c in cols ==> c in r
    ensures RecordOf(cols, RowTuple(cols, r)) == map c | c in cols :: r[c]
    decreases |cols|
  {
    if cols != [] {
      var init := cols[..|cols| - 1];
      RecordOfRowTuple(init, r);
      assert RowTuple(cols, r)[..|cols| - 1] == RowTuple(init, r);
    }
  }

  /** A row tuple holds the record's value for each column, in column order,
      and pairing it with the columns gives the record back. */
  lemma RowTupleRoundTrip(cols: seq<Column>, r: Record)
    requires r.Keys == set c | c in cols
    ensures |RowTuple(cols, r)| == |cols|
    ensures forall i :: 0 <= i < |cols| ==> RowTuple(cols, r)[i] == r[cols[i]]
    ensures RecordOf(cols, RowTuple(cols, r)) == r
  {
    RecordOfRowTuple(cols, r);
  }
}
