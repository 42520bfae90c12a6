/** The database suppliers (`dealer/supplier/database.py`): a key-value store
    supplier (`Dynamo`) that scans tables page by page and merges or updates
    records, and two relational suppliers (`Mssql`, `Redshift`) that stamp a
    dataset with the time of the write and bulk-insert it, after emptying the
    table for an overwrite. Each supplier records the calls it makes against
    its store client in `calls`; whether the store rejects a call is the
    given verdict `fails`. */
module Database {
  import opened Text
  import opened Values
  import opened Effects
  import opened Normalize
  import opened UpdateExpression
  import opened Pagination
  import opened Dataset
  import opened BulkInsert

  /** The projection a scan passes: the query when it is a non-empty
      string, none otherwise. */
  function Projection(query: Option<string>): Option<string> {
    if Truthy(query) then query else None
  }

  /** The `put_item` calls of a merge: one per record, encoded. */
  function PutRequests(rows: seq<Record>): seq<Result<Call>> {
    seq(|rows|, i requires 0 <= i < |rows| => Ok(Put(EncodeRecord(rows[i]))))
  }

  /** The `update_item` calls of an update: one per record, encoded, or the
      `KeyError` of a record that lacks a column the plan reads. */
  function UpdateRequests(plan: Plan, rows: seq<Record>): seq<Result<Call>> {
    seq(|rows|, i requires 0 <= i < |rows| => Request(plan, EncodeRecord(rows[i])))
  }

  /** A call whose rejection is caught, logged at error level and
      swallowed. */
  function Attempt(call: Call, fails: Call -> bool): seq<Call> {
    [call] + (if fails(call) then [Logged(Error)] else [])
  }

  /** The `executemany` call of `_insert`. */
  function InsertCall(table: string, cols: seq<Column>, opts: seq<string>, rows: seq<Record>): Call
    requires forall j, c :: 0 <= j < |rows| && c in cols ==> c in rows[j]
  {
    ExecuteMany(InsertStatement(table, cols, opts), RowTuples(cols, rows))
  }

  /** The statement that empties a table. */
  function TruncateCall(table: string): Call {
    Execute("TRUNCATE TABLE " + table)
  }

  /** The dataset after the `insert_timestamp` column is set to the text of
      the time of the write in every record. */
  predicate Stamped(cols0: seq<Column>, dtypes0: seq<string>, rows0: seq<Record>,
                    cols: seq<Column>, dtypes: seq<string>, rows: seq<Record>, now: Stamp)
    requires |dtypes0| == |cols0|
  {
    && cols == WithColumn(cols0, InsertTimestamp)
    && dtypes == WithDtype(cols0, dtypes0, InsertTimestamp, ObjectDtype)
    && rows == Broadcast(rows0, InsertTimestamp, Str(FormatTimestamp(now)))
  }

  /** A merge ends normally exactly when the store accepts every put; it then
      has put every record, in order, encoded, and no binary number or
      timestamp reaches the store. A rejected put is the last call made. */
  lemma MergePutsEncoded(rows: seq<Record>, fails: Call -> bool)
    ensures var run := Issue(PutRequests(rows), fails, GenericException);
      && |run.calls| <= |rows|
      && (forall i :: 0 <= i < |run.calls| ==>
            run.calls[i] == Put(EncodeRecord(rows[i])) && IsWireRecord(run.calls[i].item))
      && (run.outcome == Done <==> forall i :: 0 <= i < |rows| ==> !fails(Put(EncodeRecord(rows[i]))))
      && (run.outcome == Done ==> |run.calls| == |rows|)
      && (run.outcome != Done ==>
            run.outcome == Raised(GenericException) && |run.calls| >= 1 && fails(run.calls[|run.calls| - 1]))
  {
    var reqs := PutRequests(rows);
    var run := Issue(reqs, fails, GenericException);
    IssueInOrder(reqs, fails, GenericException);
    IssueStopsAtFirstFailure(reqs, fails, GenericException);
    forall i | 0 <= i < |run.calls|
      ensures run.calls[i] == Put(EncodeRecord(rows[i])) && IsWireRecord(run.calls[i].item)
    {
      assert reqs[i] == Ok(run.calls[i]);
      EncodeRecordWire(rows[i]);
    }
  }

  /** An update whose plan builds makes one `update_item` call per record, in
      order, each with the plan's set clause, the record's key columns and
      its values under the placeholders; it ends normally exactly when every
      record has the columns the plan reads and the store accepts every
      call. */
  lemma UpdateCallsPerRecord(plan: Plan, rows: seq<Record>, fails: Call -> bool)
    ensures var run := Issue(UpdateRequests(plan, rows), fails, BackendError);
      && |run.calls| <= |rows|
      && (forall i :: 0 <= i < |run.calls| ==>
            var item := EncodeRecord(rows[i]);
            && HasColumns(plan, item)
            && run.calls[i] == UpdateItem(KeyOf(plan.keys, item), SetClause(plan), ValuesOf(plan.bindings, item)))
      && (run.outcome == Done <==>
            forall i :: 0 <= i < |rows| ==>
              HasColumns(plan, EncodeRecord(rows[i])) && !fails(Request(plan, EncodeRecord(rows[i])).value))
      && (run.outcome == Done ==> |run.calls| == |rows|)
  {
    var reqs := UpdateRequests(plan, rows);
    var run := Issue(reqs, fails, BackendError);
    IssueInOrder(reqs, fails, BackendError);
    forall i | 0 <= i < |run.calls|
      ensures HasColumns(plan, EncodeRecord(rows[i]))
    {
      assert reqs[i] == Ok(run.calls[i]);
    }
    if run.outcome != Done {
      assert !forall i :: 0 <= i < |reqs| ==> reqs[i].Ok? && !fails(reqs[i].value);
      var i :| 0 <= i < |reqs| && !(reqs[i].Ok? && !fails(reqs[i].value));
      assert !(HasColumns(plan, EncodeRecord(rows[i])) && !fails(Request(plan, EncodeRecord(rows[i])).value));
    }
  }

  /** Whether every column a plan reads is among `cols`. */
  predicate ReadsWithin(plan: Plan, cols: set<Column>) {
    && (forall k :: k in plan.keys ==> k in cols)
    && (forall i :: 0 <= i < |plan.bindings| ==> plan.bindings[i].0 in cols)
  }

  /** The records of one dataset share its columns, so the columns a plan
      reads are checked at the first record: a plan that reads a column the
      dataset lacks fails with `KeyError` before any `update_item` call, and
      one that reads only the dataset's columns prepares every request and
      never fails with `KeyError`. */
  lemma UpdateChecksColumnsFirst(plan: Plan, cols: set<Column>, rows: seq<Record>, fails: Call -> bool)
    requires forall j :: 0 <= j < |rows| ==> rows[j].Keys == cols
    ensures var reqs := UpdateRequests(plan, rows);
            var run := Issue(reqs, fails, BackendError);
            && (!ReadsWithin(plan, cols) && |rows| > 0 ==> run == Run([], Raised(KeyError)))
            && (ReadsWithin(plan, cols) ==>
                  (forall i :: 0 <= i < |reqs| ==> reqs[i].Ok?) && run.outcome != Raised(KeyError))
  {
    var reqs := UpdateRequests(plan, rows);
    forall j | 0 <= j < |rows|
      ensures HasColumns(plan, EncodeRecord(rows[j])) <==> ReadsWithin(plan, cols)
    {
      EncodeRecordWire(rows[j]);
    }
    if ReadsWithin(plan, cols) {
      IssueStopsAtFirstFailure(reqs, fails, BackendError);
    }
  }

  /** The statement `_insert` builds for a stamped dataset has one
      placeholder per column, and both suppliers bind the stamp column as
      text. */
  lemma InsertBindsStampAsText(cols: seq<Column>, dtypes: seq<string>)
    requires |dtypes| == |cols| && Distinct(cols)
    ensures var after := WithColumn(cols, InsertTimestamp);
            var types := WithDtype(cols, dtypes, InsertTimestamp, ObjectDtype);
            var k := IndexOf(after, InsertTimestamp);
            && Distinct(after)
            && |MssqlOptions(types)| == |RedshiftOptions(types)| == |after|
            && MssqlOptions(types)[k] == "%s" && RedshiftOptions(types)[k] == "%s"
  {
    WithColumnPlacement(cols, InsertTimestamp);
    StampedColumnIsText(cols, dtypes);
  }

  /** The rows `_insert` sends for a stamped dataset: per record a tuple
      with the record's value for each column in column order and the stamp
      text in the stamp column, from which the stamped record can be read
      back; no other column of the record changes. */
  lemma InsertSendsStampedRows(cols: seq<Column>, rows: seq<Record>, now: Stamp)
    requires Distinct(cols)
    requires forall j :: 0 <= j < |rows| ==> rows[j].Keys == (set c | c in cols)
    ensures var after := WithColumn(cols, InsertTimestamp);
            var stamped := Broadcast(rows, InsertTimestamp, Str(FormatTimestamp(now)));
            var k := IndexOf(after, InsertTimestamp);
            && (forall j :: 0 <= j < |stamped| ==> stamped[j].Keys == (set c | c in after))
            && |RowTuples(after, stamped)| == |rows|
            && (forall j :: 0 <= j < |rows| ==>
                  && |RowTuples(after, stamped)[j]| == |after|
                  && RowTuples(after, stamped)[j][k] == Str(FormatTimestamp(now))
                  && RecordOf(after, RowTuples(after, stamped)[j]) == stamped[j]
                  && (forall c :: c in cols && c != InsertTimestamp ==> stamped[j][c] == rows[j][c]))
  {
    var after := WithColumn(cols, InsertTimestamp);
    var stamped := Broadcast(rows, InsertTimestamp, Str(FormatTimestamp(now)));
    assert (set c | c in after) == (set c | c in cols) + {InsertTimestamp};
    forall j | 0 <= j < |rows|
      ensures RecordOf(after, RowTuples(after, stamped)[j]) == stamped[j]
    {
      RowTupleRoundTrip(after, stamped[j]);
    }
  }

  /** The key-value store supplier. */
  class Dynamo {
    /** The pages successive scans of a table return, per projection. */
    const scans: (string, Option<string>) -> seq<Page>
    /** Whether the store rejects a call. */
    const fails: Call -> bool
    /** `self.table`: the table the supplier last connected to. */
    var table: Option<string>
    var calls: seq<Call>

    constructor (scans: (string, Option<string>) -> seq<Page>, fails: Call -> bool)
      ensures this.scans == scans && this.fails == fails
      ensures table == None && calls == []
    {
      this.scans := scans;
      this.fails := fails;
      table := None;
      calls := [];
    }

    /** `connect`: selects the table; the client makes no request for it. */
    method Connect(name: string)
      modifies this`table
      ensures table == Some(name)
    {
      table := Some(name);
    }

    /** `read`: a scan of the whole table, page by page, stopping early once
        the items gathered outnumber the limit, cut to the limit when one is
        given; a query type is not supported. */
    method Read(name: string, query: Option<string>, queryType: Option<string>, limit: Limit)
      returns (r: Result<seq<Record>>)
      requires !Truthy(queryType) ==> WellFormed(scans(name, Projection(query)))
      modifies this`table, this`calls
      ensures table == Some(name)
      ensures Truthy(queryType) ==>
                r == Err(NotImplementedError) && calls == old(calls) + [Logged(Error)]
      ensures !Truthy(queryType) ==>
                var pages := scans(name, Projection(query));
                && r == Ok(ScanResult(pages, limit))
                && calls == old(calls) + ScanCalls(pages, limit, Projection(query))
    {
      Connect(name);
      var projection := Projection(query);
      if Truthy(queryType) {
        calls := calls + [Logged(Error)];
        return Err(NotImplementedError);
      }
      var items := ScanPages(scans(name, projection), projection, limit);
      r := Ok(items);
    }

    /** The scan loop of `read` over the pages the table returns: the first
        scan, then one scan per continuation token until the last page or
        until the items gathered exceed the limit, then the cut to the
        limit. */
    method ScanPages(pages: seq<Page>, projection: Option<string>, limit: Limit) returns (items: seq<Record>)
      requires WellFormed(pages)
      modifies this`calls
      ensures items == ScanResult(pages, limit)
      ensures calls == old(calls) + ScanCalls(pages, limit, projection)
    {
      ghost var k := Fetched(pages, limit);
      var i := 0;
      var resp := pages[0];
      items := resp.items;
      calls := calls + [Scan(None, projection)];
      ConcatSnoc(pages, 0);
      while resp.next.Some?
        invariant 0 <= i < |pages| && resp == pages[i]
        invariant items == Concat(pages[..i + 1])
        invariant FetchedFrom(pages, i + 1, limit) == k
        invariant calls == old(calls) + Scans(pages, i, projection)
        decreases |pages| - i
      {
        if Exceeds(|items|, limit) {
          calls := calls + [Logged(Critical)];
          break;
        }
        var scan := Scan(resp.next, projection);
        calls := calls + [scan];
        ScansSnoc(pages, i, projection);
        ConcatSnoc(pages, i + 1);
        i := i + 1;
        resp := pages[i];
        items := items + resp.items;
      }
      assert i + 1 == k;
      if Truncates(limit) {
        items := Take(items, limit.n);
      }
    }

    /** `write`: dispatches on the load type. */
    method Write(data: Frame, name: string, loadType: string, key: Option<string>, expression: Option<string>)
      returns (outcome: Outcome)
      modifies this`table, this`calls
      ensures table == Some(name)
      ensures loadType == "merge" ==>
                var run := Issue(PutRequests(data.rows), fails, GenericException);
                calls == old(calls) + run.calls && outcome == run.outcome
      ensures loadType == "overwrite" ==>
                calls == old(calls) + [Logged(Error)] && outcome == Raised(NotImplementedError)
      ensures loadType == "update" && !Truthy(expression) && !Truthy(key) ==>
                calls == old(calls) + [Logged(Error)] && outcome == Raised(EnvironmentError)
      ensures loadType == "update" && (Truthy(expression) || Truthy(key)) ==>
                match BuildPlan(key, expression)
                case Err(e) => calls == old(calls) && outcome == Raised(e)
                case Ok(plan) =>
                  var run := Issue(UpdateRequests(plan, data.rows), fails, BackendError);
                  calls == old(calls) + run.calls && outcome == run.outcome
      ensures loadType != "merge" && loadType != "overwrite" && loadType != "update" ==>
                calls == old(calls) + [Logged(Critical)] && outcome == Done
    {
      Connect(name);
      if loadType == "merge" {
        outcome := Merge(data);
      } else if loadType == "overwrite" {
        calls := calls + [Logged(Error)];
        outcome := Raised(NotImplementedError);
      } else if loadType == "update" {
        if !Truthy(expression) && !Truthy(key) {
          calls := calls + [Logged(Error)];
          return Raised(EnvironmentError);
        }
        outcome := Update(data, key, expression);
      } else {
        calls := calls + [Logged(Critical)];
        outcome := Done;
      }
    }

    /** `_merge`: encodes every record, then puts them one by one; a
        rejected put ends the merge with a bare `Exception`. */
    method Merge(data: Frame) returns (outcome: Outcome)
      modifies this`calls
      ensures var run := Issue(PutRequests(data.rows), fails, GenericException);
              calls == old(calls) + run.calls && outcome == run.outcome
    {
      var items := EncodeAll(data.rows);
      assert PutRequests(data.rows) == seq(|items|, i requires 0 <= i < |items| => Ok(Put(items[i])));
      outcome := PutAll(items);
    }

    /** The put loop of `_merge`. */
    method PutAll(items: seq<Record>) returns (outcome: Outcome)
      modifies this`calls
      ensures var run := Issue(seq(|items|, i requires 0 <= i < |items| => Ok(Put(items[i]))), fails, GenericException);
              calls == old(calls) + run.calls && outcome == run.outcome
    {
      ghost var reqs := seq(|items|, i requires 0 <= i < |items| => Ok(Put(items[i])));
      ghost var made: seq<Call> := [];
      var n := 0;
      while n < |items|
        invariant 0 <= n <= |items|
        invariant calls == old(calls) + made
        invariant Issue(reqs, fails, GenericException)
                    == Run(made + Issue(reqs[n..], fails, GenericException).calls,
                           Issue(reqs[n..], fails, GenericException).outcome)
      {
        var put := Put(items[n]);
        IssueStep(reqs, n, fails, GenericException);
        calls := calls + [put];
        if fails(put) {
          return Raised(GenericException);
        }
        assert made + ([put] + Issue(reqs[n + 1..], fails, GenericException).calls)
            == (made + [put]) + Issue(reqs[n + 1..], fails, GenericException).calls;
        made := made + [put];
        n := n + 1;
      }
      assert reqs[n..] == [];
      outcome := Done;
    }

    /** `_update`: encodes every record, builds the plan from the key and
        expression specs, then makes one `update_item` call per record; a
        missing column or a rejected call ends the update. */
    method Update(data: Frame, key: Option<string>, expression: Option<string>) returns (outcome: Outcome)
      modifies this`calls
      ensures match BuildPlan(key, expression)
              case Err(e) => calls == old(calls) && outcome == Raised(e)
              case Ok(plan) =>
                var run := Issue(UpdateRequests(plan, data.rows), fails, BackendError);
                calls == old(calls) + run.calls && outcome == run.outcome
    {
      var items := EncodeAll(data.rows);
      var built := BuildPlan(key, expression);
      if built.Err? {
        return Raised(built.exc);
      }
      var plan := built.value;
      assert UpdateRequests(plan, data.rows)
          == seq(|items|, i requires 0 <= i < |items| => Request(plan, items[i]));
      outcome := UpdateAll(plan, items);
    }

    /** The `update_item` loop of `_update`. */
    method UpdateAll(plan: Plan, items: seq<Record>) returns (outcome: Outcome)
      modifies this`calls
      ensures var run := Issue(seq(|items|, i requires 0 <= i < |items| => Request(plan, items[i])), fails, BackendError);
              calls == old(calls) + run.calls && outcome == run.outcome
    {
      ghost var reqs := seq(|items|, i requires 0 <= i < |items| => Request(plan, items[i]));
      ghost var made: seq<Call> := [];
      var n := 0;
      while n < |items|
        invariant 0 <= n <= |items|
        invariant calls == old(calls) + made
        invariant Issue(reqs, fails, BackendError)
                    == Run(made + Issue(reqs[n..], fails, BackendError).calls,
                           Issue(reqs[n..], fails, BackendError).outcome)
      {
        var req := Request(plan, items[n]);
        assert reqs[n] == req;
        IssueStep(reqs, n, fails, BackendError);
        if req.Err? {
          return Raised(req.exc);
        }
        calls := calls + [req.value];
        if fails(req.value) {
          return Raised(BackendError);
        }
        assert made + ([req.value] + Issue(reqs[n + 1..], fails, BackendError).calls)
            == (made + [req.value]) + Issue(reqs[n + 1..], fails, BackendError).calls;
        made := made + [req.value];
        n := n + 1;
      }
      assert reqs[n..] == [];
      outcome := Done;
    }
  }

  /** The SQL Server supplier. */
  class Mssql {
    /** Whether the server rejects a call. */
    const fails: Call -> bool
    var calls: seq<Call>

    constructor (fails: Call -> bool)
      ensures this.fails == fails && calls == []
    {
      this.fails := fails;
      calls := [];
    }

    /** `connect`: opens a connection to the database; a refusal is
        re-raised. */
    method Connect(dbase: string) returns (ok: bool)
      modifies this`calls
      ensures calls == old(calls) + [Call.Connect(dbase)]
      ensures ok == !fails(Call.Connect(dbase))
    {
      calls := calls + [Call.Connect(dbase)];
      ok := !fails(Call.Connect(dbase));
    }

    /** `write`: needs a table name; dispatches on the load type and commits
        after an append or an overwrite. A rejected commit is not caught and
        ends the write with the driver's exception. */
    method Write(data: Frame, dbase: string, loadType: string, table: Option<string>, now: Stamp)
      returns (outcome: Outcome)
      requires data.Valid()
      modifies this`calls, data
      ensures data.Valid()
      ensures !Truthy(table) ==>
                outcome == Raised(ValueError) && calls == old(calls) + [Logged(Error)] && unchanged(data)
      ensures Truthy(table) && fails(Call.Connect(dbase)) ==>
                outcome == Raised(BackendError) && calls == old(calls) + [Call.Connect(dbase)] && unchanged(data)
      ensures Truthy(table) && !fails(Call.Connect(dbase)) && (loadType == "merge" || loadType == "update") ==>
                outcome == Raised(NotImplementedError) && calls == old(calls) + [Call.Connect(dbase)]
                && unchanged(data)
      ensures Truthy(table) && !fails(Call.Connect(dbase)) && (loadType == "append" || loadType == "overwrite") ==>
                && outcome == (if fails(Commit) then Raised(BackendError) else Done)
                && Stamped(old(data.columns), old(data.dtypes), old(data.rows),
                           data.columns, data.dtypes, data.rows, now)
                && calls == old(calls) + [Call.Connect(dbase)]
                            + (if loadType == "overwrite" then Attempt(TruncateCall(table.value), fails) else [])
                            + Attempt(InsertCall(table.value, data.columns, MssqlOptions(data.dtypes), data.rows), fails)
                            + [Commit]
      ensures Truthy(table) && !fails(Call.Connect(dbase))
              && loadType != "merge" && loadType != "append" && loadType != "overwrite" && loadType != "update" ==>
                outcome == Done && calls == old(calls) + [Call.Connect(dbase), Logged(Critical)] && unchanged(data)
    {
      if !Truthy(table) {
        calls := calls + [Logged(Error)];
        return Raised(ValueError);
      }
      var ok := Connect(dbase);
      if !ok {
        return Raised(BackendError);
      }
      var name := table.value;
      if loadType == "merge" {
        return Raised(NotImplementedError);
      } else if loadType == "append" {
        Append(data, name, now);
      } else if loadType == "overwrite" {
        Overwrite(data, name, now);
      } else if loadType == "update" {
        return Raised(NotImplementedError);
      } else {
        calls := calls + [Logged(Critical)];
        return Done;
      }
      calls := calls + [Commit];
      if fails(Commit) {
        return Raised(BackendError);
      }
      outcome := Done;
    }

    /** `_append`: inserts the dataset. */
    method Append(data: Frame, table: string, now: Stamp)
      requires data.Valid()
      modifies this`calls, data
      ensures data.Valid()
      ensures Stamped(old(data.columns), old(data.dtypes), old(data.rows),
                      data.columns, data.dtypes, data.rows, now)
      ensures calls == old(calls)
                       + Attempt(InsertCall(table, data.columns, MssqlOptions(data.dtypes), data.rows), fails)
    {
      Insert(data, table, now);
    }

    /** `_overwrite`: empties the table, then inserts the dataset, whether
        or not the table could be emptied. */
    method Overwrite(data: Frame, table: string, now: Stamp)
      requires data.Valid()
      modifies this`calls, data
      ensures data.Valid()
      ensures Stamped(old(data.columns), old(data.dtypes), old(data.rows),
                      data.columns, data.dtypes, data.rows, now)
      ensures calls == old(calls) + Attempt(TruncateCall(table), fails)
                       + Attempt(InsertCall(table, data.columns, MssqlOptions(data.dtypes), data.rows), fails)
    {
      Truncate(table);
      Insert(data, table, now);
    }

    /** `_insert`: stamps every record with the time of the write, then
        inserts all records in one `executemany`, binding each column by its
        dtype; a rejection is logged and swallowed. */
    method Insert(data: Frame, table: string, now: Stamp)
      requires data.Valid()
      modifies this`calls, data
      ensures data.Valid()
      ensures Stamped(old(data.columns), old(data.dtypes), old(data.rows),
                      data.columns, data.dtypes, data.rows, now)
      ensures calls == old(calls)
                       + Attempt(InsertCall(table, data.columns, MssqlOptions(data.dtypes), data.rows), fails)
    {
      data.Assign(InsertTimestamp, Str(FormatTimestamp(now)), ObjectDtype);
      var query := InsertStatement(table, data.columns, MssqlOptions(data.dtypes));
      var items := RowTuples(data.columns, data.rows);
      var call := ExecuteMany(query, items);
      calls := calls + [call];
      if fails(call) {
        calls := calls + [Logged(Error)];
      }
    }

    /** `_truncate`: empties the table; a rejection is logged and
        swallowed. */
    method Truncate(table: string)
      modifies this`calls
      ensures calls == old(calls) + Attempt(TruncateCall(table), fails)
    {
      var call := Execute("TRUNCATE TABLE " + table);
      calls := calls + [call];
      if fails(call) {
        calls := calls + [Logged(Error)];
      }
    }
  }

  /** The Redshift supplier. */
  class Redshift {
    /** Whether the cluster rejects a call. */
    const fails: Call -> bool
    var calls: seq<Call>

    constructor (fails: Call -> bool)
      ensures this.fails == fails && calls == []
    {
      this.fails := fails;
      calls := [];
    }

    /** `connect`: opens a connection to the database; a refusal is
        re-raised. */
    method Connect(dbase: string) returns (ok: bool)
      modifies this`calls
      ensures calls == old(calls) + [Call.Connect(dbase)]
      ensures ok == !fails(Call.Connect(dbase))
    {
      calls := calls + [Call.Connect(dbase)];
      ok := !fails(Call.Connect(dbase));
    }

    /** `write` for the load types the supplier defines: an append inserts
        and commits, any other load type is logged and nothing is
        committed. A rejected commit is not caught and ends the write with
        the driver's exception. */
    method Write(data: Frame, dbase: string, table: string, loadType: string, now: Stamp)
      returns (outcome: Outcome)
      requires data.Valid()
      requires loadType != "merge" && loadType != "overwrite" && loadType != "update"
      modifies this`calls, data
      ensures data.Valid()
      ensures fails(Call.Connect(dbase)) ==>
                outcome == Raised(BackendError) && calls == old(calls) + [Call.Connect(dbase)] && unchanged(data)
      ensures !fails(Call.Connect(dbase)) && loadType == "append" ==>
                && outcome == (if fails(Commit) then Raised(BackendError) else Done)
                && Stamped(old(data.columns), old(data.dtypes), old(data.rows),
                           data.columns, data.dtypes, data.rows, now)
                && calls == old(calls) + [Call.Connect(dbase)]
                            + Attempt(InsertCall(table, data.columns, RedshiftOptions(data.dtypes), data.rows), fails)
                            + [Commit]
      ensures !fails(Call.Connect(dbase)) && loadType != "append" ==>
                outcome == Done && calls == old(calls) + [Call.Connect(dbase), Logged(Critical)] && unchanged(data)
    {
      var ok := Connect(dbase);
      if !ok {
        return Raised(BackendError);
      }
      if loadType == "append" {
        Append(data, table, now);
      } else {
        calls := calls + [Logged(Critical)];
        return Done;
      }
      calls := calls + [Commit];
      if fails(Commit) {
        return Raised(BackendError);
      }
      outcome := Done;
    }

    /** `_append`: inserts the dataset. */
    method Append(data: Frame, table: string, now: Stamp)
      requires data.Valid()
      modifies this`calls, data
      ensures data.Valid()
      ensures Stamped(old(data.columns), old(data.dtypes), old(data.rows),
                      data.columns, data.dtypes, data.rows, now)
      ensures calls == old(calls)
                       + Attempt(InsertCall(table, data.columns, RedshiftOptions(data.dtypes), data.rows), fails)
    {
      Insert(data, table, now);
    }

    /** `_insert`: as the SQL Server supplier's, binding every column as
        text. */
    method Insert(data: Frame, table: string, now: Stamp)
      requires data.Valid()
      modifies this`calls, data
      ensures data.Valid()
      ensures Stamped(old(data.columns), old(data.dtypes), old(data.rows),
                      data.columns, data.dtypes, data.rows, now)
      ensures calls == old(calls)
                       + Attempt(InsertCall(table, data.columns, RedshiftOptions(data.dtypes), data.rows), fails)
    {
      data.Assign(InsertTimestamp, Str(FormatTimestamp(now)), ObjectDtype);
      var query := InsertStatement(table, data.columns, RedshiftOptions(data.dtypes));
      var items := RowTuples(data.columns, data.rows);
      var call := ExecuteMany(query, items);
      calls := calls + [call];
      if fails(call) {
        calls := calls + [Logged(Error)];
      }
    }
  }
}
