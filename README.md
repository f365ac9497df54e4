# jsql in Dafny

jsql lets a client run a parametrised SQL `SELECT` against a remote
database over JSON-RPC and get back a list of rows, each row a map from
column name to value. This project models three parts of it:

- **The row materialiser and query executor** (`sql.go`, module `Sql` in
  `sql.dfy`). `SelectArgs.Select` opens a connection, runs the query and
  always closes the connection once the open has succeeded. `getRows`
  drains the cursor into a `Rowset`. `getRow` turns one row of scanned
  values into a `Row` map. The database drivers are replaced by an
  *oracle*: a pure description of what `sql.Open` and `Query` report. The
  `Backend` object that holds it logs every open, query and close, so
  their order can be stated.
- **The authenticated endpoint** `JSQL.Select` (`jsql.go:25-41`, module
  `Jsql` in `jsql.dfy`). It checks the request's `Auth` against the
  configured secret, then delegates and writes the rowset into the
  reply argument.
- **The Python client** (`jsql.py`, module `PyClient` in `client.dfy`).
  This covers the request id counter, the request object, the
  `end_marker` test, the `recv` loop and the checks `sql` makes on the
  response. The socket is a sequence of the chunks successive
  `recv(4096)` calls return. `json.loads` is a function parameter that
  returns `None` for input it rejects.

Shared vocabulary (`Option`, `Result` and the byte type `uint8`) lives in
`base.dfy`.

Go's nil and empty are kept apart. A `Row` is `NilRow` or `RowMap(m)`, and a
`Rowset` is `NilRowset` (a nil slice, JSON `null`) or `Slice(rows)`.
`Append` models Go's `append`.

Each imperative operation is proved against a specification function:

- `GetRows` against `Materialise` (the rows one per cursor row, in order);
- `GetRow` against `RowOf`/`Fields` (the map getRow writes);
- `Select` against `SelectOutcome` and `SelectTrace`;
- `Database.Recv` against `RecvFrom`/`RecvLoop`;
- `Database.Sql` against `SqlOutcome`/`CheckResponse`.

Lemmas then prove what the source promises about those functions.

Where the code and its documentation disagree, the model follows the code:

- `getRow` (`sql.go:78-82`) stores `b` in the else branch. After a failed
  type assertion `b` is the zero byte. So every value that is not a single
  byte is replaced by the byte 0. This goes against the function's comment
  (`sql.go:67-69`) and its evident intent, which is to keep every value and
  convert only bytes. `Stored` models this as written. `RowOfContents`
  states it, and `RowIgnoresNonByteValues` proves its consequence: rows
  that differ only in non-byte values produce the same map. The corrected
  conversion is `StoredAsIntended`; see "## Findings".
- A query that returns no rows yields a nil `Rowset`, not an empty list
  (`result` is never appended to, `sql.go:45,64`). It is JSON `null` on the
  wire, which the "Empty" case at `jsql_test.go:49-55` also expects. The
  Python client then returns `None`, although the docstring of `sql`
  (`jsql.py:66`) promises an array of rows.
- The `-password` flag defaults to `""` and is never nil. So the
  comparison at `jsql.go:34` enforces the empty password: a request carrying any
  other credential is refused (`DefaultSecretRejectsAnyCredential`). This
  matches the "Incorrect authentication" case at `jsql_test.go:34-40`,
  although the flag's help text (`jsql.go:19`) calls the password optional.
- `sql.go` declares `SelectArgs` without the `Auth` field that `jsql.go:34`
  reads. The endpoint uses the `SelectArgs` of the `lib` package, which is
  not part of this model. The model gives `SelectArgs` the `auth` field and
  takes lib's `Select` to be the one in `sql.go`. The Python client sends
  the keys `datasource_name` and `params` (`jsql.py:75,77`). Whether these
  match the Go field names under JSON-RPC decoding depends on that package
  and is not modelled.

## Model

| member | source | states |
|---|---|---|
| Sql.Append | sql.go:61 | `append` never yields nil, and the new slice is the old rows followed by the new row |
| Sql.Stored | sql.go:78-82 | a scanned value becomes a string exactly when it is a byte; any other value becomes the zero byte `b` |
| Sql.Fields | sql.go:70-86 | the map the loop builds column by column (a definition; its keys and contents are stated by `Sql.FieldsKeys` and `Sql.FieldsAt`) |
| Sql.RowOf | sql.go:70-86 | nil on a length mismatch, otherwise the map `Fields` (a definition; its contents are stated by `Sql.RowOfContents`) |
| Sql.FieldsKeys | sql.go:77-83 | the map getRow builds has exactly the column names as keys |
| Sql.FieldsAt | sql.go:77-83 | under a column name the map holds what was stored for the last column carrying that name (later writes win) |
| Sql.FieldsIgnoreNonBytes | sql.go:78-82 | two value vectors that agree wherever either holds a byte build the same map |
| Sql.RowIgnoresNonByteValues | sql.go:78-82 | getRow cannot tell apart rows that differ only in non-byte values: the loss of information caused by storing `b` |
| Sql.RowOfContents | sql.go:70-86 | when the lengths agree, the row is a non-nil map keyed by exactly the columns; a byte `b` is stored as the one-character string `string(b)`, any other value as the zero byte |
| Sql.StoredAsIntended | sql.go:67-69 | the else branch corrected, keeping the single-byte test of line 78: agrees with `Stored` exactly on bytes and keeps every other value unchanged |
| Sql.IntendedFieldsKeys | sql.go:77-83 | the map the corrected getRow builds has exactly the column names as keys |
| Sql.IntendedFieldsAt | sql.go:77-83 | under a column name the corrected map holds the converted value of the last column carrying that name |
| Sql.IntendedRowKeepsValues | sql.go:67-86 | the corrected Row is a non-nil map keyed by exactly the columns; it agrees with getRow's Row on every byte column and holds the scanned value itself under every other column |
| Sql.AsWrittenConflatesIntegers | sql.go:80-81 | as written, one column holding 5 and one holding 7 both give the row {"n": 0}, while the corrected rows differ |
| Sql.GetRow | sql.go:70-86 | the loop returns nil exactly when the column and value counts differ, and otherwise the map `RowOf` describes |
| Sql.Materialise | sql.go:45-64 | the rowset is nil exactly when there are no rows, and has one row per cursor row, row `i` being getRow's Row of cursor row `i` |
| Sql.MaterialisedRowsHaveColumns | sql.go:47-61 | when the scan buffer has one value per column, every materialised row is a non-nil map keyed by exactly the column names |
| Sql.MaterialiseStep | sql.go:61 | materialising one more cursor row appends that row's Row to the rowset |
| Sql.RowsetOutcome | sql.go:40-64 | an error is returned exactly when `Columns()` fails, and then with a nil rowset; otherwise the rowset is nil exactly when there are no rows and has one row per cursor row |
| Sql.Cursor.Columns | sql.go:40 | `Columns()` reports the cursor's column reply, error included |
| Sql.Cursor.Next | sql.go:52 | `Next` moves one row forward and reports true while rows remain, false once they are exhausted |
| Sql.Cursor.Scan | sql.go:53 | `Scan` fills the buffer with the current row's values |
| Sql.GetRows | sql.go:39-65 | a `Columns()` error is returned with a nil rowset; otherwise the cursor is drained and the result is `Materialise` of the remaining rows: one Row per cursor row, in cursor order, nil when there are none |
| Sql.Backend.Open | sql.go:23 | `sql.Open` is logged and either fails or returns a fresh open connection for the driver and data source |
| Sql.Conn.Query | sql.go:29 | `Query` is logged and returns either the driver's failure or a fresh cursor positioned before its first row |
| Sql.Conn.Close | sql.go:27 | `Close` marks the connection closed and is logged |
| Sql.SelectOutcome | sql.go:22-37 | an open error, a query error or a `Columns()` error is returned with a nil rowset; on success there is no error, and the rowset is nil exactly when there are no rows and otherwise has one row per cursor row |
| Sql.SelectReturnsCursorRows | sql.go:35 | on success row `i` of the result is the Row of cursor row `i`, and from a driver that keeps database/sql's contract a map keyed by exactly the columns |
| Sql.SelectTrace | sql.go:23-35 | the open comes first and happens once; on a failed open nothing else happens; otherwise exactly one query follows and the close happens once and last |
| Sql.Select | sql.go:22-37 | returns what `SelectOutcome` says and makes exactly the calls `SelectTrace` lists; a connection is opened exactly when `sql.Open` succeeds, and it is closed on every path |
| Jsql.Rejects | jsql.go:34 | a nil secret rejects nothing; a configured secret rejects exactly the credentials that differ from it |
| Jsql.Response | jsql.go:25-41 | a nil request leaves the reply alone and returns no error; a rejected credential leaves the reply alone and returns "incorrect password"; otherwise the reply and error are exactly the executor's, with a nil reply when there is an error |
| Jsql.Interactions | jsql.go:30-38 | the database layer is touched exactly when the request is present and its credential is accepted, and then with the executor's calls |
| Jsql.Select | jsql.go:25-41 | the reply cell and the error are those of `Response`; the backend log grows by `Interactions`; for each of the three cases the new reply, error and log are stated outright |
| Jsql.DefaultSecretRejectsAnyCredential | jsql.go:19 | with the flag's default secret `""`, every non-empty credential is rejected |
| Jsql.BackendOnlyAfterAuthentication | jsql.go:34-38 | whenever the endpoint touches the database layer, the request was present, its credential matched any configured secret, and the first call opens the requested driver and data source |
| PyClient.EndMarker | jsql.py:121-127 | true exactly when the data ends in "}\n"; raises IndexError exactly for empty data and for a lone line feed, because `data[-2]` is evaluated only after a final line feed |
| PyClient.RecvLoop | jsql.py:104-110 | the `while True` loop over the chunks (a definition; its result is stated by the three lemmas below) |
| PyClient.RecvFrom | jsql.py:100-111 | `recv` from a given chunk on (a definition; its result is stated by `RecvFailsOnlyOnFirstChunk`, `RecvReturnsConcatenation` and `RecvStopsAtFirstEndMarker`) |
| PyClient.RecvLoopConcatenates | jsql.py:104-111 | inside the loop end_marker never raises, and the loop returns the chunks read so far, concatenated |
| PyClient.RecvLoopEndsAtMarker | jsql.py:104-111 | the loop ends with data ending in "}\n", or at the first empty chunk: every chunk read before the last was non-empty |
| PyClient.RecvLoopPassesUnterminated | jsql.py:104-111 | no chunk boundary the loop passed before it ended had end_marker hold |
| PyClient.RecvFailsOnlyOnFirstChunk | jsql.py:100-111 | `recv` raises exactly when the first chunk is empty or a lone line feed, and then IndexError after a single read |
| PyClient.RecvReturnsConcatenation | jsql.py:100-111 | `recv` reads at least one chunk and returns the in-order concatenation of every chunk it read |
| PyClient.RecvStopsAtFirstEndMarker | jsql.py:100-111 | `recv` stops at the first chunk boundary where the data ends in "}\n", or at the first empty chunk: no earlier boundary was terminated and no earlier chunk was empty |
| PyClient.Socket.SendAll | jsql.py:80 | the message is appended to what the socket has sent |
| PyClient.Socket.Recv | jsql.py:101 | each `recv` returns the next chunk, or the empty chunk once the peer has nothing more |
| PyClient.Member | jsql.py:87-93 | `resp[key]` yields the member of an object that has it; KeyError for an object without it; TypeError for anything else |
| PyClient.SameId | jsql.py:87 | Python's `!=` between the parsed id and the request id: an integer id matches exactly the same integer, `True` exactly 1 and `False` exactly 0, anything else never |
| PyClient.CheckResponse | jsql.py:87-93 | the result is returned exactly when the response is an object whose id equals the request id (True counting as 1), whose error is null and which has a result; a differing id raises the id-mismatch exception; a non-null error is raised with the response's own error value, and an object with a matching id and a non-null error always raises it; a response that is not an object raises TypeError, and a missing `id`, `error` or `result` member, when reached, raises KeyError for that key |
| PyClient.SqlOutcome | jsql.py:83-93 | a receive error is passed on; input `json.loads` rejects gives ValueError; a parsed response gives exactly what the checks for the request id give: its result, the id-mismatch exception, or the server's error |
| PyClient.Database.constructor | jsql.py:59-62 | the client keeps its credentials and connection string, and the request id counter starts at 1 |
| PyClient.Database.SelectArgs | jsql.py:72-78 | the parameters object has exactly the keys auth, driver, datasource_name, statement and params, holding the client's password, driver, connection string and the call's statement and parameters |
| PyClient.Database.MakeRequest | jsql.py:95-98 | the request has exactly the keys id, params and method: the current id, a one-element list holding the parameters object, and "JSQL.Select" |
| PyClient.Database.Recv | jsql.py:100-111 | the loop returns what `RecvFrom` says and leaves the socket having delivered exactly the chunks `RecvFrom` reads |
| PyClient.Database.Sql | jsql.py:64-93 | one request is sent, carrying the id before the call; the id advances by one; the outcome is the checked response for that id, or the receive or decode error |
| PyClient.MatchingReplyAccepted | jsql.py:81-98 | a reply echoing the id `_make_request` sent, with a null error, yields its result; one carrying any other integer id is refused |

## Findings

| source | as written | input that shows it | evidently intended | confidence | as-written member | corrected member |
|---|---|---|---|---|---|---|
| sql.go:80-81 | the else branch stores `b`, which the failed type assertion left at the zero byte | columns ["n"] with values [5] and with values [7]: both rows are {"n": 0} | store the scanned value `row[i]` unchanged, converting only bytes, as the comment at sql.go:67-69 says | not executed | Sql.AsWrittenConflatesIntegers | Sql.IntendedRowKeepsValues |

`GetRow`, `GetRows` and `Select` model the code as written, so the
executor's rows hold the zero byte under every non-byte column. The
corrected definition `IntendedRowOf` is stated beside them, with its
properties proved, for comparison.

## Left out

- `jsql.go` `main` is not modelled: flag parsing, the TLS certificate set-up, the TCP listener and the goroutine per connection. These are I/O and concurrency. The secret is a parameter of `Jsql.Select`.
- `rpc.go` and `client/client.go` are not modelled. They are an earlier draft of the server and a Go client, not the core.
- JSON-RPC framing and JSON encoding on the server are not modelled. The Python client's `json.dumps` is not modelled either: the socket records the request object itself.
- `json.loads` is a parameter of `PyClient.Database.Sql`. The model does not define which byte strings it accepts.
- Floating-point values are opaque bit patterns and are never computed with.
- PyClient.CheckResponse: a float id is always treated as unequal to the request id. In Python a float id such as `1.0` compares equal to `1`, but floats are opaque here.
- Sql.Cursor.Scan: it is total. The `panic` at `sql.go:53-59` for a failed scan is not modelled, since the source itself says that branch cannot be reached with an `interface{}` buffer.
- The `valuesPtrs` indirection (`sql.go:48-51`) is not modelled: `Scan` writes into the `values` buffer directly.
- The real drivers and what they return are not modelled. The `Oracle` stands in for them. The rows a cursor yields are fixed when the query returns, and the requirement that each row has one value per column is the oracle's `WellFormed` predicate.
- Sql.Conn.Close: the error `Close` can return is not modelled, since the deferred call discards it.
- PyClient.Socket.SendAll: it always succeeds. Socket errors, timeouts and partial sends are not modelled.
- PyClient.Socket.Recv: once the listed chunks are used up, every further `recv` returns the empty chunk, as a peer that has closed the connection does. A peer that blocks is not modelled.
- Socket creation, SSL wrapping, `__del__` and the `__main__` block of `jsql.py` are I/O and are not modelled.
- Python 2 string semantics are assumed: `recv` returns `str`, so `data[-1]` and `data[-2]` are one-character strings. Under Python 3 the client breaks in three places, and none of this is modelled:
  - `ord(data[-1])` (`jsql.py:126`) is given an `int` and raises TypeError, so `end_marker` raises on every non-empty first chunk and `recv` never returns data;
  - `data[-2] == '}'` compares an `int` with a `str` and is always false;
  - `sendall(json.dumps(msg))` (`jsql.py:80`) is given a `str` and raises TypeError before `_id` advances.
- The default arguments `password=""` (`jsql.py:44`) and `params=[]` (`jsql.py:64`) are not modelled as defaults: callers of `PyClient.Database.constructor` and `PyClient.Database.Sql` pass every argument.
- `getRows` never consults `rows.Err()` after the loop (`sql.go:52-64`), so a cursor that stops early because of a driver error yields the rows read so far and no error. The oracle's cursors never fail mid-iteration, so this silent truncation is not modelled.
- The `lib` package of the repository is not part of this model. Its `SelectArgs` (the one with `Auth`) and its `Select` are taken to be those of `sql.go`, plus the `auth` field.
