/**
 * The row materialiser and query executor of the jsql server (sql.go).
 *
 * The database drivers are replaced by an oracle: a `Backend` object whose
 * `Oracle` says what `sql.Open` and `Query` report for given arguments, and
 * which logs every open, query and close. Everything that sql.go itself decides
 * (error sequencing, closing the connection, building the rows) is modelled
 * as written.
 */
module Sql {
  import opened Base

  newtype int64 = x: int | -0x8000_0000_0000_0000 <= x < 0x8000_0000_0000_0000

  /** A Go `error`, known by its message. */
  datatype Error = Error(message: string)

  /**
   * A value a driver scans into an `interface{}`, tagged with its dynamic
   * type. `Byte` is Go's `uint8`, the one type getRow singles out; a float is
   * kept as its IEEE-754 bit pattern and never computed with.
   */
  datatype Value =
    | Null
    | Bool(flag: bool)
    | Int(number: int64)
    | Float(bits: bv64)
    | Text(text: string)
    | Bytes(octets: seq<uint8>)
    | Byte(octet: uint8)

  /** The request: `SelectArgs` with the `Auth` field the endpoint reads. */
  datatype SelectArgs = SelectArgs(
    auth: string,
    driver: string,
    dataSourceName: string,
    statement: string,
    parameters: seq<Value>)

  /** `Row`, a Go map that may be nil. */
  datatype Row = NilRow | RowMap(fields: map<string, Value>)

  /** `Rowset`, a Go slice that may be nil (JSON `null`) or hold rows. */
  datatype Rowset = NilRowset | Slice(rows: seq<Row>)

  /** The rows of a rowset; a nil slice has none. */
  function Elements(rs: Rowset): seq<Row>
  {
    if rs.Slice? then rs.rows else []
  }

  /** Go's `append`: the result is never nil and ends with `r`. */
  function Append(rs: Rowset, r: Row): (t: Rowset)
    ensures t.Slice? && Elements(t) == Elements(rs) + [r]
  {
    Slice(Elements(rs) + [r])
  }

  // ---------------------------------------------------------------------
  // getRow
  // ---------------------------------------------------------------------

  /**
   * What getRow stores for one scanned value. `b, ok := v.(byte)` leaves
   * `b` zero when `v` is not a byte, and the else branch stores that `b`:
   * as written, every non-byte value is replaced by the byte 0, although
   * the function's own comment says only bytes are to be converted.
   */
  function Stored(v: Value): (r: Value)
    ensures r.Text? <==> v.Byte?
    ensures !v.Byte? ==> r == Byte(0)
  {
    match v
    case Byte(b) => Text([b as char])
    case _ => Byte(0)
  }

  /** Column `i` is the last one carrying its name, so its write to the map survives. */
  predicate LastOccurrence(columns: seq<string>, i: int)
    requires 0 <= i < |columns|
  {
    forall j :: i < j < |columns| ==> columns[j] != columns[i]
  }

  /** The map getRow builds, writing the columns from left to right. */
  function Fields(columns: seq<string>, row: seq<Value>): map<string, Value>
    requires |columns| == |row|
    decreases |columns|
  {
    if |columns| == 0 then map[]
    else
      var n := |columns| - 1;
      Fields(columns[..n], row[..n])[columns[n] := Stored(row[n])]
  }

  /** The Row getRow returns for a column list and a value vector. */
  function RowOf(columns: seq<string>, row: seq<Value>): Row
  {
    if |columns| != |row| then NilRow else RowMap(Fields(columns, row))
  }

  /** The keys of the map are exactly the column names. */
  lemma {:induction false} FieldsKeys(columns: seq<string>, row: seq<Value>)
    requires |columns| == |row|
    ensures forall k :: k in Fields(columns, row) <==> k in columns
  {
    if |columns| > 0 {
      var n := |columns| - 1;
      FieldsKeys(columns[..n], row[..n]);
      assert columns == columns[..n] + [columns[n]];
    }
  }

  /** The value under a column name is what getRow stores for its last column. */
  lemma {:induction false} FieldsAt(columns: seq<string>, row: seq<Value>, i: int)
    requires |columns| == |row| && 0 <= i < |columns| && LastOccurrence(columns, i)
    ensures columns[i] in Fields(columns, row)
    ensures Fields(columns, row)[columns[i]] == Stored(row[i])
  {
    var n := |columns| - 1;
    if i < n {
      assert columns[n] != columns[i];
      assert LastOccurrence(columns[..n], i);
      FieldsAt(columns[..n], row[..n], i);
    }
  }

  /** Value vectors that agree wherever either holds a byte build the same map. */
  lemma {:induction false} FieldsIgnoreNonBytes(columns: seq<string>, r1: seq<Value>, r2: seq<Value>)
    requires |columns| == |r1| == |r2|
    requires forall i :: 0 <= i < |r1| && (r1[i].Byte? || r2[i].Byte?) ==> r1[i] == r2[i]
    ensures Fields(columns, r1) == Fields(columns, r2)
  {
    if |columns| > 0 {
      var n := |columns| - 1;
      FieldsIgnoreNonBytes(columns[..n], r1[..n], r2[..n]);
      assert Stored(r1[n]) == Stored(r2[n]);
    }
  }

  /**
   * The consequence of storing `b` instead of `row[i]`: getRow keeps nothing
   * of a non-byte value, so rows that differ only in such values look the
   * same once materialised.
   */
  lemma RowIgnoresNonByteValues(columns: seq<string>, r1: seq<Value>, r2: seq<Value>)
    requires |r1| == |r2|
    requires forall i :: 0 <= i < |r1| && (r1[i].Byte? || r2[i].Byte?) ==> r1[i] == r2[i]
    ensures RowOf(columns, r1) == RowOf(columns, r2)
  {
    if |columns| == |r1| {
      FieldsIgnoreNonBytes(columns, r1, r2);
    }
  }

  /**
   * The Row getRow returns when the lengths agree: a non-nil map whose keys
   * are exactly the column names, holding under each name the one-character
   * string `string(b)` when the value was a byte `b`, and otherwise the zero
   * byte; under a repeated name, the last such column's value.
   */
  lemma RowOfContents(columns: seq<string>, row: seq<Value>)
    requires |columns| == |row|
    ensures RowOf(columns, row).RowMap?
    ensures forall k :: k in RowOf(columns, row).fields <==> k in columns
    ensures forall i :: 0 <= i < |columns| && LastOccurrence(columns, i) ==>
              columns[i] in RowOf(columns, row).fields &&
              (row[i].Byte? ==> RowOf(columns, row).fields[columns[i]] == Text([row[i].octet as char])) &&
              (!row[i].Byte? ==> RowOf(columns, row).fields[columns[i]] == Byte(0))
  {
    FieldsKeys(columns, row);
    forall i | 0 <= i < |columns| && LastOccurrence(columns, i)
      ensures columns[i] in Fields(columns, row) && Fields(columns, row)[columns[i]] == Stored(row[i])
    {
      FieldsAt(columns, row, i);
    }
  }

  // ---------------------------------------------------------------------
  // getRow as its comment intends it
  // ---------------------------------------------------------------------

  /**
   * getRow with its else branch corrected: a byte `b` converted to the
   * string `string(b)`, every other value kept as it is (`row[i]` in the
   * else branch). It agrees with `Stored` exactly on bytes. The single-byte
   * test of sql.go:78 is kept, although the comment's reason (encoding/json
   * cannot render bytes) fits a `[]byte` value better, since encoding/json
   * writes a lone `uint8` as a number.
   */
  function StoredAsIntended(v: Value): (r: Value)
    ensures v.Byte? <==> r == Stored(v)
    ensures !v.Byte? ==> r == v
  {
    match v
    case Byte(b) => Text([b as char])
    case _ => v
  }

  /** The map the intended getRow builds, writing the columns from left to right. */
  function IntendedFields(columns: seq<string>, row: seq<Value>): map<string, Value>
    requires |columns| == |row|
    decreases |columns|
  {
    if |columns| == 0 then map[]
    else
      var n := |columns| - 1;
      IntendedFields(columns[..n], row[..n])[columns[n] := StoredAsIntended(row[n])]
  }

  /** The Row the intended getRow returns. */
  function IntendedRowOf(columns: seq<string>, row: seq<Value>): Row
  {
    if |columns| != |row| then NilRow else RowMap(IntendedFields(columns, row))
  }

  /** The keys of the intended map are exactly the column names. */
  lemma {:induction false} IntendedFieldsKeys(columns: seq<string>, row: seq<Value>)
    requires |columns| == |row|
    ensures forall k :: k in IntendedFields(columns, row) <==> k in columns
  {
    if |columns| > 0 {
      var n := |columns| - 1;
      IntendedFieldsKeys(columns[..n], row[..n]);
      assert columns == columns[..n] + [columns[n]];
    }
  }

  /** Under a column name the intended map holds the converted value of its last column. */
  lemma {:induction false} IntendedFieldsAt(columns: seq<string>, row: seq<Value>, i: int)
    requires |columns| == |row| && 0 <= i < |columns| && LastOccurrence(columns, i)
    ensures columns[i] in IntendedFields(columns, row)
    ensures IntendedFields(columns, row)[columns[i]] == StoredAsIntended(row[i])
  {
    var n := |columns| - 1;
    if i < n {
      assert columns[n] != columns[i];
      assert LastOccurrence(columns[..n], i);
      IntendedFieldsAt(columns[..n], row[..n], i);
    }
  }

  /**
   * The corrected getRow: when the lengths agree, a non-nil map keyed by
   * exactly the column names, holding under each name `string(b)` for a
   * byte `b` and the scanned value itself otherwise, so that it agrees with
   * the as-written Row on every byte column and keeps every other value.
   */
  lemma IntendedRowKeepsValues(columns: seq<string>, row: seq<Value>)
    requires |columns| == |row|
    ensures IntendedRowOf(columns, row).RowMap?
    ensures forall k :: k in IntendedRowOf(columns, row).fields <==> k in columns
    ensures forall i :: 0 <= i < |columns| && LastOccurrence(columns, i) ==>
              columns[i] in IntendedRowOf(columns, row).fields &&
              columns[i] in RowOf(columns, row).fields &&
              (row[i].Byte? ==> IntendedRowOf(columns, row).fields[columns[i]] == RowOf(columns, row).fields[columns[i]]) &&
              (!row[i].Byte? ==> IntendedRowOf(columns, row).fields[columns[i]] == row[i])
  {
    IntendedFieldsKeys(columns, row);
    forall i | 0 <= i < |columns| && LastOccurrence(columns, i)
      ensures columns[i] in IntendedFields(columns, row) && IntendedFields(columns, row)[columns[i]] == StoredAsIntended(row[i])
      ensures columns[i] in Fields(columns, row) && Fields(columns, row)[columns[i]] == Stored(row[i])
    {
      IntendedFieldsAt(columns, row, i);
      FieldsAt(columns, row, i);
    }
  }

  /**
   * The input that shows the discrepancy: one column "n" holding the
   * integer 5 or 7. As written both rows come out as {"n": 0}; the
   * intended rows keep 5 and 7 apart.
   */
  lemma AsWrittenConflatesIntegers()
    ensures RowOf(["n"], [Int(5)]) == RowOf(["n"], [Int(7)]) == RowMap(map["n" := Byte(0)])
    ensures IntendedRowOf(["n"], [Int(5)]) != IntendedRowOf(["n"], [Int(7)])
  {
    assert ["n"][..0] == [];
    assert [Int(5)][..0] == [] && [Int(7)][..0] == [];
    assert IntendedRowOf(["n"], [Int(5)]).fields["n"] == Int(5);
  }

  /** getRow: nil on a length mismatch, otherwise the map of `RowOfContents`. */
  method GetRow(columns: seq<string>, row: seq<Value>) returns (r: Row)
    ensures r.NilRow? <==> |columns| != |row|
    ensures r == RowOf(columns, row)
  {
    var result: map<string, Value> := map[];
    if |columns| != |row| {
      return NilRow;
    }
    for i := 0 to |columns|
      invariant result == Fields(columns[..i], row[..i])
    {
      var b: uint8 := 0;
      var ok := row[i].Byte?;
      if ok {
        b := row[i].octet;
      }
      if ok {
        result := result[columns[i] := Text([b as char])];
      } else {
        result := result[columns[i] := Byte(b)];
      }
      assert columns[..i + 1][..i] == columns[..i];
      assert row[..i + 1][..i] == row[..i];
    }
    assert columns[..|columns|] == columns && row[..|row|] == row;
    return RowMap(result);
  }

  // ---------------------------------------------------------------------
  // getRows
  // ---------------------------------------------------------------------

  /**
   * The rowset getRows is meant to build from value vectors: nil when there
   * are none (no `append` ever ran), otherwise row `i` is the Row of vector
   * `i`, one per vector, in cursor order.
   */
  function Materialise(columns: seq<string>, data: seq<seq<Value>>): (rs: Rowset)
    ensures rs.NilRowset? <==> |data| == 0
    ensures |Elements(rs)| == |data|
    ensures forall i :: 0 <= i < |data| ==> Elements(rs)[i] == RowOf(columns, data[i])
  {
    if |data| == 0 then NilRowset
    else Slice(seq(|data|, i requires 0 <= i < |data| => RowOf(columns, data[i])))
  }

  /**
   * When every vector has one value per column (the scan buffer always has),
   * every row is a non-nil map keyed by exactly the column names.
   */
  lemma MaterialisedRowsHaveColumns(columns: seq<string>, data: seq<seq<Value>>, i: int)
    requires forall i | 0 <= i < |data| :: |data[i]| == |columns|
    requires 0 <= i < |data|
    ensures Elements(Materialise(columns, data))[i].RowMap?
    ensures forall k :: k in Elements(Materialise(columns, data))[i].fields <==> k in columns
  {
    FieldsKeys(columns, data[i]);
  }

  /** Materialising a window of cursor rows one row further appends that row's Row. */
  lemma MaterialiseStep(columns: seq<string>, data: seq<seq<Value>>, lo: nat, hi: nat)
    requires lo <= hi < |data|
    ensures Materialise(columns, data[lo..hi + 1]) == Append(Materialise(columns, data[lo..hi]), RowOf(columns, data[hi]))
  {
  }

  /** What getRows returns for the reply of `Columns()` and the remaining rows. */
  function RowsetOutcome(columns: Result<seq<string>, Error>, data: seq<seq<Value>>): (r: (Rowset, Option<Error>))
    ensures r.1.Some? <==> columns.Err?
    ensures columns.Err? ==> r == (NilRowset, Some(columns.error))
    ensures columns.Ok? ==> (r.0.NilRowset? <==> |data| == 0) && |Elements(r.0)| == |data|
  {
    match columns
    case Err(e) => (NilRowset, Some(e))
    case Ok(names) => (Materialise(names, data), None)
  }

  /**
   * A `*sql.Rows` cursor. `columns` is what `Columns()` reports, `data` the
   * rows `Next`/`Scan` yield, `pos` how many rows `Next` has moved past.
   */
  class Cursor {
    const columns: Result<seq<string>, Error>
    const data: seq<seq<Value>>
    var pos: nat

    /** database/sql's contract: each row has one value per reported column. */
    ghost predicate Valid()
      reads this
    {
      pos <= |data| &&
      (columns.Ok? ==> forall i | 0 <= i < |data| :: |data[i]| == |columns.value|)
    }

    constructor (columns: Result<seq<string>, Error>, data: seq<seq<Value>>)
      requires columns.Ok? ==> forall i | 0 <= i < |data| :: |data[i]| == |columns.value|
      ensures Valid()
      ensures this.columns == columns && this.data == data && pos == 0
    {
      this.columns := columns;
      this.data := data;
      pos := 0;
    }

    method Columns() returns (cols: Result<seq<string>, Error>)
      ensures cols == columns
    {
      cols := columns;
    }

    /** Moves to the next row; false once the rows are exhausted. */
    method Next() returns (more: bool)
      requires Valid()
      modifies this`pos
      ensures Valid()
      ensures more == (old(pos) < |data|)
      ensures pos == if more then old(pos) + 1 else old(pos)
    {
      more := pos < |data|;
      if more {
        pos := pos + 1;
      }
    }

    /** Copies the current row into the destination buffer (total, as the code assumes). */
    method Scan(dest: array<Value>)
      requires Valid() && 0 < pos && columns.Ok? && dest.Length == |columns.value|
      modifies dest
      ensures dest[..] == data[pos - 1]
    {
      var row := data[pos - 1];
      assert row in data;
      forall j | 0 <= j < dest.Length {
        dest[j] := row[j];
      }
      assert dest[..] == row;
    }
  }

  /**
   * getRows: a `Columns()` error is returned as is; otherwise the cursor is
   * drained and one row is appended per remaining cursor row, in order.
   */
  method GetRows(rows: Cursor) returns (rs: Rowset, err: Option<Error>)
    requires rows.Valid()
    modifies rows
    ensures rows.Valid()
    ensures (rs, err) == RowsetOutcome(rows.columns, rows.data[old(rows.pos)..])
    ensures rows.pos == if rows.columns.Ok? then |rows.data| else old(rows.pos)
  {
    var columns := rows.Columns();
    if columns.Err? {
      return NilRowset, Some(columns.error);
    }
    var names := columns.value;
    var result := NilRowset;
    // The Go code scans through a parallel slice of references into `values`;
    // Scan here writes into `values` directly.
    var values := new Value[|names|];
    ghost var data := rows.data;
    ghost var start := rows.pos;
    while true
      invariant rows.Valid() && start <= rows.pos && rows.data == data
      invariant values.Length == |names|
      invariant result == Materialise(names, data[start..rows.pos])
      decreases |data| - rows.pos
    {
      var more := rows.Next();
      if !more {
        break;
      }
      ghost var p := rows.pos - 1;
      rows.Scan(values);
      assert values[..] == data[p];
      var row := GetRow(names, values[..]);
      MaterialiseStep(names, data, start, p);
      result := Append(result, row);
    }
    assert data[start..rows.pos] == data[start..];
    return result, None;
  }

  // ---------------------------------------------------------------------
  // The backend and SelectArgs.Select
  // ---------------------------------------------------------------------

  /** A call the executor makes into the database layer. */
  datatype Event =
    | Opened(driver: string, dataSourceName: string)
    | Queried(statement: string, parameters: seq<Value>)
    | Closed

  /** What a query yields: a failure, or a cursor's column reply and rows. */
  datatype Answer =
    | Failed(failure: Error)
    | Answer(columns: Result<seq<string>, Error>, data: seq<seq<Value>>)
  {
    predicate WellFormed()
    {
      Answer? && columns.Ok? ==> forall i | 0 <= i < |data| :: |data[i]| == |columns.value|
    }
  }

  /**
   * The drivers seen from outside: whether `sql.Open(driver, dsn)` fails,
   * and what `Query(statement, parameters...)` answers on such a connection.
   */
  datatype Oracle = Oracle(
    open: (string, string) -> Option<Error>,
    query: (string, string, string, seq<Value>) -> Answer)
  {
    ghost predicate WellFormed()
    {
      forall d, s, st, p :: query(d, s, st, p).WellFormed()
    }
  }

  /** The database layer: an oracle and the log of calls made into it. */
  class Backend {
    const oracle: Oracle
    var log: seq<Event>

    constructor (oracle: Oracle)
      ensures this.oracle == oracle && log == []
    {
      this.oracle := oracle;
      log := [];
    }

    /** `sql.Open`. */
    method Open(driver: string, dataSourceName: string) returns (conn: Conn?, err: Option<Error>)
      modifies this
      ensures log == old(log) + [Opened(driver, dataSourceName)]
      ensures err == oracle.open(driver, dataSourceName)
      ensures conn != null <==> err.None?
      ensures conn != null ==> fresh(conn) && !conn.closed && conn.backend == this &&
                               conn.driver == driver && conn.dataSourceName == dataSourceName
    {
      log := log + [Opened(driver, dataSourceName)];
      err := oracle.open(driver, dataSourceName);
      if err.None? {
        conn := new Conn(this, driver, dataSourceName);
      } else {
        conn := null;
      }
    }
  }

  /** A `*sql.DB` handle with the flag its `Close` sets. */
  class Conn {
    const backend: Backend
    const driver: string
    const dataSourceName: string
    var closed: bool

    constructor (backend: Backend, driver: string, dataSourceName: string)
      ensures this.backend == backend && this.driver == driver
      ensures this.dataSourceName == dataSourceName && !closed
    {
      this.backend := backend;
      this.driver := driver;
      this.dataSourceName := dataSourceName;
      closed := false;
    }

    /** `Query`: either a failure or a fresh cursor before its first row. */
    method Query(statement: string, parameters: seq<Value>) returns (rows: Cursor?, err: Option<Error>)
      requires !closed && backend.oracle.WellFormed()
      modifies backend
      ensures backend.log == old(backend.log) + [Queried(statement, parameters)]
      ensures var a := backend.oracle.query(driver, dataSourceName, statement, parameters);
              (a.Failed? ==> rows == null && err == Some(a.failure)) &&
              (a.Answer? ==> err.None? && rows != null && fresh(rows) && rows.Valid() &&
                             rows.columns == a.columns && rows.data == a.data && rows.pos == 0)
    {
      backend.log := backend.log + [Queried(statement, parameters)];
      var a := backend.oracle.query(driver, dataSourceName, statement, parameters);
      assert a.WellFormed();
      if a.Failed? {
        rows, err := null, Some(a.failure);
      } else {
        rows := new Cursor(a.columns, a.data);
        err := None;
      }
    }

    method Close()
      modifies this, backend
      ensures closed && backend.log == old(backend.log) + [Closed]
    {
      closed := true;
      backend.log := backend.log + [Closed];
    }
  }

  /** What `Select` returns for a request against a backend. */
  function SelectOutcome(s: SelectArgs, o: Oracle): (r: (Rowset, Option<Error>))
    ensures r.1.Some? ==> r.0 == NilRowset
    ensures o.open(s.driver, s.dataSourceName).Some? ==> r.1 == o.open(s.driver, s.dataSourceName)
    ensures o.open(s.driver, s.dataSourceName).None? ==>
              var a := o.query(s.driver, s.dataSourceName, s.statement, s.parameters);
              (a.Failed? ==> r.1 == Some(a.failure)) &&
              (a.Answer? && a.columns.Err? ==> r.1 == Some(a.columns.error)) &&
              (a.Answer? && a.columns.Ok? ==>
                 r.1.None? && (r.0.NilRowset? <==> |a.data| == 0) && |Elements(r.0)| == |a.data|)
  {
    match o.open(s.driver, s.dataSourceName)
    case Some(e) => (NilRowset, Some(e))
    case None =>
      match o.query(s.driver, s.dataSourceName, s.statement, s.parameters)
      case Failed(e) => (NilRowset, Some(e))
      case Answer(columns, data) => RowsetOutcome(columns, data)
  }

  /**
   * On success row `i` of the result is the Row of cursor row `i`; from a
   * driver that keeps database/sql's contract it is a map keyed by exactly
   * the reported columns.
   */
  lemma SelectReturnsCursorRows(s: SelectArgs, o: Oracle, i: int)
    requires o.open(s.driver, s.dataSourceName).None?
    requires o.query(s.driver, s.dataSourceName, s.statement, s.parameters).Answer?
    requires o.query(s.driver, s.dataSourceName, s.statement, s.parameters).columns.Ok?
    requires 0 <= i < |o.query(s.driver, s.dataSourceName, s.statement, s.parameters).data|
    ensures var a := o.query(s.driver, s.dataSourceName, s.statement, s.parameters);
            Elements(SelectOutcome(s, o).0)[i] == RowOf(a.columns.value, a.data[i]) &&
            (a.WellFormed() ==>
               Elements(SelectOutcome(s, o).0)[i].RowMap? &&
               forall k :: k in Elements(SelectOutcome(s, o).0)[i].fields <==> k in a.columns.value)
  {
    var a := o.query(s.driver, s.dataSourceName, s.statement, s.parameters);
    if a.WellFormed() {
      MaterialisedRowsHaveColumns(a.columns.value, a.data, i);
    }
  }

  /** The calls `Select` makes into the database layer. */
  function SelectTrace(s: SelectArgs, o: Oracle): (t: seq<Event>)
    ensures |t| == if o.open(s.driver, s.dataSourceName).Some? then 1 else 3
    ensures |t| > 0 && t[0] == Opened(s.driver, s.dataSourceName)
    ensures o.open(s.driver, s.dataSourceName).None? ==> t[1] == Queried(s.statement, s.parameters)
    ensures Queried(s.statement, s.parameters) in t <==> o.open(s.driver, s.dataSourceName).None?
    ensures Closed in t <==> o.open(s.driver, s.dataSourceName).None?
    ensures Closed in t ==> t[|t| - 1] == Closed && multiset(t)[Closed] == 1
  {
    if o.open(s.driver, s.dataSourceName).Some? then [Opened(s.driver, s.dataSourceName)]
    else [Opened(s.driver, s.dataSourceName), Queried(s.statement, s.parameters), Closed]
  }

  /**
   * `SelectArgs.Select`: open, query, materialise, returning at the first
   * error; once the open succeeded the deferred `Close` runs on every path.
   * `conn` is the connection opened, if any.
   */
  method Select(s: SelectArgs, db: Backend) returns (rs: Rowset, err: Option<Error>, ghost conn: Conn?)
    requires db.oracle.WellFormed()
    modifies db
    ensures (rs, err) == SelectOutcome(s, db.oracle)
    ensures db.log == old(db.log) + SelectTrace(s, db.oracle)
    ensures conn != null <==> db.oracle.open(s.driver, s.dataSourceName).None?
    ensures conn != null ==> fresh(conn) && conn.closed
  {
    var c, e := db.Open(s.driver, s.dataSourceName);
    if e.Some? {
      return NilRowset, e, null;
    }
    conn := c;
    var rows, qe := c.Query(s.statement, s.parameters);
    if qe.Some? {
      c.Close();
      return NilRowset, qe, conn;
    }
    rs, err := GetRows(rows);
    c.Close();
  }
}
