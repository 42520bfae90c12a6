# Database suppliers of data-dealer, modelled in Dafny

data-dealer moves tabular datasets between a process and its backing stores.
The database suppliers (`dealer/supplier/database.py`) are its load-strategy
engine for three stores:

- `Dynamo`, a key-value store supplier. It reads a table by scanning it page
  by page, up to an optional limit. It writes a dataset by `merge`, which puts
  every record, or by `update`, which makes one partial-attribute update per
  record from a key spec and a `target=source` expression spec. Before any
  record reaches the store, numbers are encoded as exact decimals and
  timestamps as `YYYY-MM-DD HH:MM:SS` strings.
- `Mssql` and `Redshift`, two relational suppliers. They stamp the dataset
  with an `insert_timestamp` column and bulk-insert it with a dynamically
  built `INSERT` statement. `overwrite` (SQL Server only) truncates the table
  first. An append or overwrite is committed.

`Mssql.columns` is the dataset's column list itself. `Mssql._merge` and
`Mssql._update` only raise `NotImplementedError`; they are the outcome of the
`merge` and `update` branches of `Database.Mssql.Write`.

The model records every call a supplier makes against its store client as a
trace (`calls`, a sequence of `Effects.Call`). Whether the store rejects a
call is a given verdict (`fails`). The pages a scan returns are a given
sequence of pages per table. Exceptions become the `Effects.Exc` of an
`Outcome` or `Result`. Logging is recorded at error and critical level, the
levels at which the suppliers report a failure or an unsupported request.

Modules, leaves first:

- `Text`: splitting and joining on a separator, digit texts of integers,
  zero padding.
- `Values`: cell values and timestamps.
- `Effects`: calls, exceptions, and `Issue`, the loop that makes prepared
  calls in order and stops at the first failure.
- `Normalize`: `_encode`.
- `UpdateExpression`: the plan `_update` builds from its specs, and each
  record's `update_item` request.
- `Pagination`: the scan loop of `read`.
- `Dataset`: the dataset and the in-place column assignment.
- `BulkInsert`: placeholders, the `INSERT` statement, and the row tuples.
- `Database`: the classes `Dynamo`, `Mssql` and `Redshift`.

Some descriptions of the system differ from the code. The model follows the
code:

- Update pairs beyond the 26th do not collide on a placeholder. Python 2's
  `zip` drops them: they are neither assigned nor bound
  (`UpdateExpression.PlanFromSpecs`, `UpdateExpression.PlanPlaceholdersDistinct`).
- `EnvironmentError` is raised only when both the key spec and the
  expression spec are missing or empty. When only one of them is missing,
  `.split` on `None` raises `AttributeError`.
- A column that the key spec or the expression spec names but the dataset
  lacks does not fail up front. It raises `KeyError` while the first
  record's request is prepared, when a column is looked up in the record. All
  records of a dataset share its columns, so no `update_item` call has been
  made by then (`Database.UpdateChecksColumnsFirst`).

## Model

| member | source | states |
|---|---|---|
| Text.SplitJoin | dealer/supplier/database.py:136-137 | splitting a comma-joined list of comma-free pieces on `,` gives the pieces back |
| Text.JoinSplit | dealer/supplier/database.py:136-137 | joining the pieces of a split with the separator gives the string back |
| Text.IntTextExact | dealer/supplier/database.py:108-109 | the text `str()` gives an integer reads back as that integer, so `Decimal(str(v))` is exact |
| Values.TimestampTextRoundTrip | dealer/supplier/database.py:110-111 | the `%Y-%m-%d %H:%M:%S` text of a timestamp reads back as the same date and time, with the fraction of a second dropped |
| Normalize.Encode | dealer/supplier/database.py:106-113 | the column-by-column rewrite, in any visiting order, gives the record with every cell encoded |
| Normalize.EncodeAll | dealer/supplier/database.py:118 | encoding a list of records encodes each record, in order |
| Normalize.EncodeValueKinds | dealer/supplier/database.py:107-111 | an int becomes a decimal denoting the same number; a float becomes the decimal of its text; a timestamp becomes its text to the second; any other value is kept |
| Normalize.EncodeRecordWire | dealer/supplier/database.py:106-113 | encoding keeps the columns and leaves no int, float or timestamp; a record is unchanged exactly when it holds none |
| Normalize.EncodeIdempotent | dealer/supplier/database.py:106-113 | encoding an encoded record changes nothing |
| UpdateExpression.Zip | dealer/supplier/database.py:140-141 | `zip` pairs elements by position, up to the length of the shorter list |
| UpdateExpression.PlanFromSpecs | dealer/supplier/database.py:136-141 | a plan is built exactly when both specs are present and every pair has a `=`; it keeps the key columns and pairs the first min(n, 26) targets and sources, in order, with `:a`, `:b`, ... |
| UpdateExpression.PlanPlaceholdersDistinct | dealer/supplier/database.py:140-141 | no two pairs of a plan share a placeholder, so no pair overwrites another in the value map |
| UpdateExpression.SetClauseLists | dealer/supplier/database.py:142-148 | the update expression is `set ` followed by one `target = placeholder` per assigned pair, comma-separated and in order |
| UpdateExpression.ValuesOfKeys | dealer/supplier/database.py:149 | the value map's keys are exactly the placeholders of the bindings |
| UpdateExpression.ValuesOfContents | dealer/supplier/database.py:149 | with distinct placeholders, each placeholder maps to the record's value for its source column |
| UpdateExpression.RequestContents | dealer/supplier/database.py:145-150 | a record's request is made exactly when it has every column read; the key maps exactly the key columns to the record's values, the expression is the set clause, and the value map sends each placeholder to its source value |
| UpdateExpression.TwoPairPlan | dealer/supplier/database.py:136-148 | one key column and two pairs give the placeholders `:a` and `:b` in order, and the clause `set t1 = :a,t2 = :b` |
| UpdateExpression.StatusCountExample | dealer/supplier/database.py:136-148 | key `id` and expression `status=new_status,count=new_count` give the plan and clause `set status = :a,count = :b` |
| Effects.IssueInOrder | dealer/supplier/database.py:145-150 | a call loop makes the first requests in order; it ends normally exactly when every request is prepared and accepted, and then it has made them all |
| Effects.IssueStopsAtFirstFailure | dealer/supplier/database.py:122-127 | a call loop stops at its first failure: every call but the last was accepted, and the exception is the failing request's own or the one for a rejected last call |
| Pagination.FetchedFrom | dealer/supplier/database.py:67-73 | the number of pages fetched is at least the number already fetched and at most the number of pages |
| Pagination.FetchedFromSpec | dealer/supplier/database.py:67-73 | the loop fetches another page only while the items gathered do not exceed the limit, and stops before the last page only once they do |
| Pagination.ScanStopsOnlyWhenExceeded | dealer/supplier/database.py:67-71 | every page before the last one fetched was requested within the limit; an early stop means the limit was exceeded |
| Pagination.ScanIsPrefix | dealer/supplier/database.py:62-80 | a scan returns a prefix of the items of all pages |
| Pagination.ScanReadsAllWithoutLimit | dealer/supplier/database.py:67-80 | without a limit, every page is fetched and all items are returned in order |
| Pagination.ScanWithPositiveLimit | dealer/supplier/database.py:67-80 | with a positive limit n the early stop loses nothing: the scan returns the first min(total, n) items of the table |
| Pagination.ScanWithNullLimit | dealer/supplier/database.py:67-80 | a limit passed as `None` stops the loop after the first page and does not cut it |
| Pagination.ThreePagesExample | dealer/supplier/database.py:62-80 | pages of 100, 100 and 50 items: 250 items with no limit; with limit 120, two scans, a critical log line and 120 items |
| Dataset.WithColumnPlacement | dealer/supplier/database.py:227 | assigning a column keeps the columns distinct; an existing column keeps its place and a new one goes last |
| Dataset.Frame.Assign | dealer/supplier/database.py:227 | `data[name] = value` adds or replaces the column, sets its dtype and sets the value in every record, keeping the dataset well formed |
| BulkInsert.OptionsPerColumn | dealer/supplier/database.py:171-178 | SQL Server binds a column with `%d` exactly when its dtype string contains `i` or `f`, and with `%s` otherwise; Redshift binds every column with `%s` |
| BulkInsert.StampedColumnIsText | dealer/supplier/database.py:227-233 | after the stamp, both suppliers bind the `insert_timestamp` column with `%s` |
| BulkInsert.StampedStatementLists | dealer/supplier/database.py:229-233 | for a stamped dataset whose column names have no comma, the statement is `INSERT INTO <table> (<c>) VALUES (<o>)` where `c` splits on `,` into the stamped columns and `o` into one placeholder per column, for both suppliers |
| BulkInsert.RowTupleRoundTrip | dealer/supplier/database.py:235-236 | a row tuple holds the record's value for each column, in column order, and pairing it with the columns gives the record back |
| Database.MergePutsEncoded | dealer/supplier/database.py:116-130 | a merge puts the records encoded and in order; it ends normally exactly when every put is accepted, and a rejected put ends it with `Exception` |
| Database.UpdateCallsPerRecord | dealer/supplier/database.py:133-152 | an update makes one `update_item` per record, in order; it ends normally exactly when every record has the plan's columns and every call is accepted |
| Database.UpdateChecksColumnsFirst | dealer/supplier/database.py:133-150 | when the records share a column set, a plan reading a column outside it fails with `KeyError` at the first record before any call; a plan reading only those columns prepares every request and never fails with `KeyError` |
| Database.InsertBindsStampAsText | dealer/supplier/database.py:226-233 | the stamped statement has one placeholder per column, and both suppliers bind the stamp column as text |
| Database.InsertSendsStampedRows | dealer/supplier/database.py:226-241 | each record is sent as a tuple in column order with the stamp text in the stamp column; the stamped record reads back from the tuple, and no other column changes |
| Database.Dynamo.constructor | dealer/supplier/database.py:36-45 | a new supplier has no table and has made no call |
| Database.Dynamo.Connect | dealer/supplier/database.py:47-48 | connecting selects the table |
| Database.Dynamo.Read | dealer/supplier/database.py:50-87 | a query type is logged and raises `NotImplementedError`; otherwise the read returns the scan result and makes the scan calls of the projection |
| Database.Dynamo.ScanPages | dealer/supplier/database.py:62-80 | the scan loop returns the scan result and makes exactly the scan calls |
| Database.Dynamo.Write | dealer/supplier/database.py:89-104 | `merge` merges; `overwrite` is logged and raises `NotImplementedError`; `update` with neither spec is logged and raises `EnvironmentError`, and otherwise updates; any other load type is logged as critical and nothing is written |
| Database.Dynamo.Merge | dealer/supplier/database.py:115-130 | the puts made and the outcome are those of the call loop over the encoded records |
| Database.Dynamo.PutAll | dealer/supplier/database.py:120-129 | the put loop makes the puts in order, up to and including the first rejected one, which raises `Exception` |
| Database.Dynamo.Update | dealer/supplier/database.py:132-152 | a plan that fails to build raises before any call; otherwise the calls and outcome are those of the call loop over the records' requests |
| Database.Dynamo.UpdateAll | dealer/supplier/database.py:145-150 | the update loop makes the requests in order; it stops at a missing column with `KeyError` or at a rejected call |
| Database.Mssql.constructor | dealer/supplier/database.py:155-160 | a new supplier has made no call |
| Database.Mssql.Connect | dealer/supplier/database.py:165-169 | the connection is attempted; it succeeds exactly when the server accepts it |
| Database.Mssql.Write | dealer/supplier/database.py:196-220 | a missing table raises `ValueError` before connecting; a refused connection raises; `merge` and `update` raise `NotImplementedError` without committing; `append` and `overwrite` stamp, insert and commit, and a rejected commit raises; any other load type is logged and nothing is committed |
| Database.Mssql.Append | dealer/supplier/database.py:222-224 | an append is one insert |
| Database.Mssql.Insert | dealer/supplier/database.py:226-244 | the dataset gains the stamp column; one `executemany` carries the statement over the stamped columns and the row tuples; a rejection is logged and swallowed |
| Database.Mssql.Overwrite | dealer/supplier/database.py:249-252 | an overwrite truncates, then inserts whether or not the truncate succeeded |
| Database.Mssql.Truncate | dealer/supplier/database.py:254-258 | `TRUNCATE TABLE <table>` is executed; a rejection is logged and swallowed |
| Database.Redshift.constructor | dealer/supplier/database.py:265-270 | a new supplier has made no call |
| Database.Redshift.Connect | dealer/supplier/database.py:275-279 | the connection is attempted; it succeeds exactly when the cluster accepts it |
| Database.Redshift.Write | dealer/supplier/database.py:303-322 | a refused connection raises; `append` stamps, inserts and commits, and a rejected commit raises; any other modelled load type is logged and nothing is committed |
| Database.Redshift.Append | dealer/supplier/database.py:324-326 | an append is one insert |
| Database.Redshift.Insert | dealer/supplier/database.py:328-346 | as SQL Server's insert, with every column bound as `%s` |

## Left out

- Client construction, credentials and sessions (`boto3`, `pymssql`, `psycopg2`) are not modelled. A store client is the trace of calls made against it plus the rejection verdict `fails`.
- The relational `read` methods (`Mssql.read`, `Redshift.read`) are not modelled. They pass a query to `pandas.read_sql` and read query files, and neither is part of this model.
- pandas is not modelled. A dataset is its column list, dtype strings and records. `DataFrame(items)` on the read path is the list of records itself.
- Log messages at debug and info level are not modelled, and neither is the `log_method` decorator. Log lines carry their level only, not their text. The `print` in `_merge` is not modelled.
- `batch_writer` buffering is not modelled: each put is modelled as made and judged when it is issued.
- Python's float to text conversion is not modelled (`str()` keeps 12 significant digits). A float carries the text `str()` gives for it.
- `bool` and `long` cells are not modelled. In Python 2 a `bool` is an `int`, and the decimal of its text `True` or `False` raises `InvalidOperation`, so a merge or update with a `bool` cell fails before any call. A `long` is not an `int` and reaches the store unencoded. Neither behaviour is captured.
- Timestamps are modelled for the years 1900 to 2262 only. Python 2's `strftime` rejects earlier years, and pandas has none later.
- A failing scan is not modelled; a scan's pages are given. The effect of a projection on item contents is left to those given pages.
- The commit and close done by the drivers' context managers when a `with` block ends are not modelled. The trace records the explicit `commit()` only.
- Database.Redshift.Write: requires a load type other than `merge`, `overwrite` and `update`. Those branches call `_merge`, `_overwrite` and `_update`, which `Redshift` does not define; `dealer/supplier/__init__.py` (the `Supplier` base) is not part of this model.
- The unreachable statement after `raise NotImplementedError` in `Mssql._update` is not modelled.
- `datetime.now()` is the parameter `now` of each relational write.
