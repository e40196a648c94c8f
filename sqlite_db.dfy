/** The `api_usages` table of a SQLite database file, as far as the statements of the two
    stores observe it: whether the table exists, which indexes exist, and its rows. The SQL
    engine is modelled by what it does with these statements: parameter binding, column type
    affinity, the NOT NULL and PRIMARY KEY checks, `LIMIT`, `COUNT(*)`, `SUM` and `GROUP BY`. */
module SqliteDb {
  import opened Wrappers
  import opened JsonValue
  import opened Exceptions
  import Text

  /** A value stored in a cell: NULL, INTEGER (64-bit) or TEXT. */
  datatype SqlValue = SqlNull | SqlInt(i: int) | SqlText(t: string)

  const Int64Min: int := -0x8000_0000_0000_0000
  const Int64Max: int := 0x7fff_ffff_ffff_ffff

  predicate InInt64(i: int) { Int64Min <= i <= Int64Max }

  const TableName: string := "api_usages"

  /** `db_path if db_path else fallback`, how both stores pick their file: None and the empty
      string are falsy. */
  function PathOrDefault(dbPath: Option<string>, fallback: string): string
  {
    if dbPath.Some? && dbPath.value != "" then dbPath.value else fallback
  }

  /** A path given by the caller is used unless it is falsy; the fallback is used otherwise. */
  lemma PathOrDefaultFallsBack(dbPath: Option<string>, fallback: string)
    requires fallback != ""
    ensures PathOrDefault(dbPath, fallback) == fallback <==> dbPath.None? || dbPath.value in {"", fallback}
    ensures PathOrDefault(dbPath, fallback) != ""
    ensures dbPath.Some? && dbPath.value != "" ==> PathOrDefault(dbPath, fallback) == dbPath.value
  {
  }

  /** The columns of `api_usages`, in declaration order. */
  const Columns: seq<string> := [
    "id", "created_at", "model", "system_fingerprint", "prompt", "completion",
    "prompt_tokens", "completion_tokens", "total_tokens",
    "cached_tokens", "cache_hit_tokens", "cache_miss_tokens",
    "finish_reason", "logprobs"]

  /** The number of columns of the table. */
  const ColumnCount: nat := 14

  lemma ColumnCountIsLength()
    ensures |Columns| == ColumnCount
  {
  }

  const IdColumn: nat := 0
  const ModelColumn: nat := 2
  const TotalTokensColumn: nat := 8

  /** The columns declared INTEGER; the others are declared TEXT. */
  predicate IntegerColumn(c: nat) { 6 <= c <= 11 }

  /** The columns declared NOT NULL. The TEXT PRIMARY KEY `id` is not one of them: SQLite
      lets a non-integer primary key hold NULL. */
  predicate NotNullColumn(c: nat) { c == 1 || c == 2 || 4 <= c <= 8 }

  type Row = r: seq<SqlValue> | |r| == ColumnCount witness seq(14, i => SqlNull)

  /** A row satisfies every NOT NULL constraint. */
  predicate RowFits(r: Row)
  {
    forall c: nat :: c < ColumnCount && NotNullColumn(c) ==> r[c] != SqlNull
  }

  /** No two rows share a non-NULL primary key. */
  predicate UniqueIds(rows: seq<Row>)
  {
    forall i, j :: 0 <= i < j < |rows| && rows[i][IdColumn] != SqlNull ==> rows[i][IdColumn] != rows[j][IdColumn]
  }

  /** What the schema guarantees of the rows of the table. */
  predicate TableInvariant(rows: seq<Row>)
  {
    (forall i :: 0 <= i < |rows| ==> RowFits(rows[i])) && UniqueIds(rows)
  }

  function NoSuchTable(): PyException
  {
    PyException(OperationalError, "no such table: " + TableName)
  }

  function NotNullFailed(column: string): PyException
  {
    PyException(IntegrityError, "NOT NULL constraint failed: " + TableName + "." + column)
  }

  function UniqueFailed(): PyException
  {
    PyException(IntegrityError, "UNIQUE constraint failed: " + TableName + ".id")
  }

  const WrongCountText: string := "Incorrect number of bindings supplied. The current statement uses 14, and there are "

  function WrongBindingCount(supplied: nat): PyException
  {
    PyException(ProgrammingError, WrongCountText + Text.NatToString(supplied) + " supplied.")
  }

  const IntTooLargeText: string := "Python int too large to convert to SQLite INTEGER"

  /** Binding one parameter (1-based position `pos`) of a statement, as the `sqlite3` module
      converts Python values: None, bool, int and str bind; an int outside 64 bits raises
      OverflowError (not a `sqlite3.Error`); a list or dict is refused. */
  function Bind(v: Json, pos: nat): (r: Result<SqlValue, PyException>)
    ensures r.Failure? <==> v.JArr? || v.JObj? || (v.JInt? && !InInt64(v.i))
    ensures r.Failure? ==> r.error.kind == (if v.JInt? then OverflowError else ProgrammingError)
  {
    match v
    case JNull => Success(SqlNull)
    case JBool(b) => Success(SqlInt(if b then 1 else 0))
    case JInt(i) =>
      if InInt64(i) then Success(SqlInt(i))
      else Failure(PyException(OverflowError, IntTooLargeText))
    case JStr(s) => Success(SqlText(s))
    case _ =>
      Failure(PyException(ProgrammingError, "Error binding parameter " + Text.NatToString(pos)
                                            + ": type '" + TypeName(v) + "' is not supported"))
  }

  /** Binding the parameters in order, from position `first`; the first refusal is raised. */
  function BindAll(params: seq<Json>, first: nat): (r: Result<seq<SqlValue>, PyException>)
    ensures r.Success? <==> forall i :: 0 <= i < |params| ==> Bind(params[i], first + i).Success?
    ensures r.Success? ==> (|r.value| == |params| &&
              forall i :: 0 <= i < |params| ==> Bind(params[i], first + i) == Success(r.value[i]))
    decreases |params|
  {
    if params == [] then Success([])
    else
      var v :- Bind(params[0], first);
      var rest :- BindAll(params[1..], first + 1);
      Success([v] + rest)
  }

  /** A text that SQLite's INTEGER affinity turns into an integer: optional sign, digits. */
  predicate IsIntegerText(t: string)
  {
    if |t| >= 1 && (t[0] == '-' || t[0] == '+') then |t| >= 2 && Text.IsDigits(t[1..])
    else |t| >= 1 && Text.IsDigits(t)
  }

  function IntegerTextValue(t: string): int
    requires IsIntegerText(t)
  {
    if t[0] == '-' then -(Text.DigitsValue(t[1..]) as int)
    else if t[0] == '+' then Text.DigitsValue(t[1..])
    else Text.DigitsValue(t)
  }

  /** The value a cell stores for a bound value: a TEXT column stores integers as their
      decimal text; an INTEGER column stores an integer-looking text as the integer. */
  function Affine(v: SqlValue, integerColumn: bool): (s: SqlValue)
    ensures s.SqlNull? <==> v.SqlNull?
    ensures !integerColumn ==> !s.SqlInt?
  {
    if integerColumn then
      if v.SqlText? && IsIntegerText(v.t) && InInt64(IntegerTextValue(v.t)) then SqlInt(IntegerTextValue(v.t)) else v
    else if v.SqlInt? then SqlText(Text.IntToString(v.i))
    else v
  }

  /** The row stored for the bound values of an INSERT naming every column in order. */
  function StoredRow(bound: seq<SqlValue>): (r: Row)
    requires |bound| == ColumnCount
    ensures forall c :: 0 <= c < ColumnCount ==> r[c] == Affine(bound[c], IntegerColumn(c))
  {
    seq(ColumnCount, c requires 0 <= c < ColumnCount => Affine(bound[c], IntegerColumn(c)))
  }

  /** The first NOT NULL column, from `c` on, that holds NULL; `ColumnCount` when none does. */
  function FirstNullViolation(r: Row, c: nat): (v: nat)
    requires c <= ColumnCount
    ensures c <= v <= ColumnCount
    ensures v < ColumnCount ==> NotNullColumn(v) && r[v] == SqlNull
    ensures forall k :: c <= k < v ==> !(NotNullColumn(k) && r[k] == SqlNull)
    decreases ColumnCount - c
  {
    if c == ColumnCount then c
    else if NotNullColumn(c) && r[c] == SqlNull then c
    else FirstNullViolation(r, c + 1)
  }

  /** Whether some row already holds primary key `id`. */
  predicate IdTaken(rows: seq<Row>, id: SqlValue)
  {
    exists i :: 0 <= i < |rows| && rows[i][IdColumn] == id
  }

  /** The constraint checks of an INSERT on the row it would store: the NOT NULL constraints
      column by column, then the primary key. */
  function RowOutcome(rows: seq<Row>, row: Row): (r: Result<Row, PyException>)
    ensures r.Success? ==> r.value == row && RowFits(row)
    ensures r.Success? && row[IdColumn] != SqlNull ==> !IdTaken(rows, row[IdColumn])
  {
    var nn := FirstNullViolation(row, 0);
    if nn < ColumnCount then
      ColumnCountIsLength();
      Failure(NotNullFailed(Columns[nn]))
    else if row[IdColumn] != SqlNull && IdTaken(rows, row[IdColumn]) then
      Failure(UniqueFailed())
    else
      Success(row)
  }

  /** The outcome of `INSERT INTO api_usages (every column) VALUES (?, ..., ?)`: the prepared
      statement needs the table; the parameter count is checked, then each parameter is bound;
      then the row that affinity makes of the bound values is checked. A failing statement
      inserts nothing. */
  function InsertOutcome(tableExists: bool, rows: seq<Row>, params: seq<Json>): (r: Result<Row, PyException>)
    ensures r.Success? ==> RowFits(r.value)
    ensures r.Success? && r.value[IdColumn] != SqlNull ==> !IdTaken(rows, r.value[IdColumn])
  {
    if !tableExists then Failure(NoSuchTable())
    else if |params| != ColumnCount then
      Failure(WrongBindingCount(|params|))
    else
      var bound :- BindAll(params, 1);
      RowOutcome(rows, StoredRow(bound))
  }

  /** A successful INSERT keeps the schema's guarantees. */
  lemma InsertKeepsInvariant(rows: seq<Row>, params: seq<Json>)
    requires TableInvariant(rows)
    requires InsertOutcome(true, rows, params).Success?
    ensures TableInvariant(rows + [InsertOutcome(true, rows, params).value])
  {
    var row := InsertOutcome(true, rows, params).value;
    var rows' := rows + [row];
    forall i, j | 0 <= i < j < |rows'| && rows'[i][IdColumn] != SqlNull
      ensures rows'[i][IdColumn] != rows'[j][IdColumn]
    {
      if j == |rows| {
        assert rows'[i] == rows[i];
        if rows'[i][IdColumn] == row[IdColumn] {
          assert IdTaken(rows, row[IdColumn]);
        }
      }
    }
  }

  /** An INSERT whose row would repeat a stored non-NULL primary key raises IntegrityError. */
  lemma InsertRejectsDuplicateId(rows: seq<Row>, params: seq<Json>, i: nat)
    requires |params| == ColumnCount && BindAll(params, 1).Success?
    requires RowFits(StoredRow(BindAll(params, 1).value))
    requires i < |rows| && rows[i][IdColumn] != SqlNull
    requires rows[i][IdColumn] == StoredRow(BindAll(params, 1).value)[IdColumn]
    ensures InsertOutcome(true, rows, params) == Failure(UniqueFailed())
  {
    var row := StoredRow(BindAll(params, 1).value);
    assert IdTaken(rows, row[IdColumn]);
    assert FirstNullViolation(row, 0) == ColumnCount;
  }

  /** A row with NULL in a NOT NULL column fails naming the first such column. */
  lemma RowRejectsNull(rows: seq<Row>, row: Row, c: nat)
    requires c < ColumnCount && NotNullColumn(c) && row[c] == SqlNull
    ensures FirstNullViolation(row, 0) <= c
    ensures RowOutcome(rows, row) == Failure(NotNullFailed(Columns[FirstNullViolation(row, 0)]))
  {
    ColumnCountIsLength();
  }

  /** Once every parameter binds, an INSERT into the table is decided by its row. */
  lemma InsertOutcomeOfBound(rows: seq<Row>, params: seq<Json>)
    requires |params| == ColumnCount && BindAll(params, 1).Success?
    ensures InsertOutcome(true, rows, params) == RowOutcome(rows, StoredRow(BindAll(params, 1).value))
  {
  }

  /** A NULL bound to a NOT NULL column raises IntegrityError naming the first NOT NULL
      column that holds NULL, which is that column or one before it. */
  lemma InsertRejectsNull(rows: seq<Row>, params: seq<Json>, c: nat)
    requires |params| == ColumnCount && BindAll(params, 1).Success?
    requires c < ColumnCount && NotNullColumn(c) && params[c] == JNull
    ensures var k := FirstNullViolation(StoredRow(BindAll(params, 1).value), 0);
            k <= c && NotNullColumn(k) && InsertOutcome(true, rows, params) == Failure(NotNullFailed(Columns[k]))
  {
    var bound := BindAll(params, 1).value;
    assert Bind(params[c], 1 + c) == Success(bound[c]);
    RowRejectsNull(rows, StoredRow(bound), c);
    InsertOutcomeOfBound(rows, params);
  }

  /** An INSERT whose values all bind, fill every NOT NULL column and carry a fresh (or NULL)
      primary key succeeds with the row that affinity makes of them. */
  lemma InsertAcceptsFreshRow(rows: seq<Row>, params: seq<Json>)
    requires |params| == ColumnCount && BindAll(params, 1).Success?
    requires RowFits(StoredRow(BindAll(params, 1).value))
    requires var id := StoredRow(BindAll(params, 1).value)[IdColumn]; id == SqlNull || !IdTaken(rows, id)
    ensures InsertOutcome(true, rows, params) == Success(StoredRow(BindAll(params, 1).value))
  {
    var row := StoredRow(BindAll(params, 1).value);
    assert FirstNullViolation(row, 0) == ColumnCount;
  }

  /** Two parameter lists that bind alike position by position (the same outcome, or both a
      success) bind alike as a whole, and fail with the same error. */
  lemma {:induction false} BindAllAgree(p: seq<Json>, q: seq<Json>, first: nat)
    requires |p| == |q|
    requires forall i :: 0 <= i < |p| ==>
               Bind(p[i], first + i) == Bind(q[i], first + i) || (Bind(p[i], first + i).Success? && Bind(q[i], first + i).Success?)
    ensures BindAll(p, first).Success? <==> BindAll(q, first).Success?
    ensures BindAll(p, first).Failure? ==> BindAll(p, first) == BindAll(q, first)
    decreases |p|
  {
    if p != [] {
      forall i | 0 <= i < |p[1..]|
        ensures Bind(p[1..][i], first + 1 + i) == Bind(q[1..][i], first + 1 + i) ||
                (Bind(p[1..][i], first + 1 + i).Success? && Bind(q[1..][i], first + 1 + i).Success?)
      {
        assert p[1..][i] == p[i + 1] && q[1..][i] == q[i + 1];
      }
      BindAllAgree(p[1..], q[1..], first + 1);
    }
  }

  /** Rows with NULL in the same columns violate NOT NULL in the same column. */
  lemma {:induction false} FirstNullViolationAgree(r1: Row, r2: Row, c: nat)
    requires c <= ColumnCount
    requires forall k :: 0 <= k < ColumnCount ==> (r1[k] == SqlNull <==> r2[k] == SqlNull)
    ensures FirstNullViolation(r1, c) == FirstNullViolation(r2, c)
    decreases ColumnCount - c
  {
    if c < ColumnCount {
      FirstNullViolationAgree(r1, r2, c + 1);
    }
  }

  /** Parameters that differ only in the text at `created_at` bind alike position by position. */
  lemma BindsAgreeOffCreatedAt(p: seq<Json>, q: seq<Json>)
    requires |p| == ColumnCount && |q| == ColumnCount && p[1].JStr? && q[1].JStr?
    requires forall c :: 0 <= c < ColumnCount && c != 1 ==> p[c] == q[c]
    ensures forall i :: 0 <= i < |p| ==>
              Bind(p[i], 1 + i) == Bind(q[i], 1 + i) || (Bind(p[i], 1 + i).Success? && Bind(q[i], 1 + i).Success?)
  {
    forall i | 0 <= i < |p|
      ensures Bind(p[i], 1 + i) == Bind(q[i], 1 + i) || (Bind(p[i], 1 + i).Success? && Bind(q[i], 1 + i).Success?)
    {
      if i != 1 {
        assert p[i] == q[i];
      }
    }
  }

  /** Their stored rows agree off `created_at`, which holds each one's text. */
  lemma StoredRowsAgreeOffCreatedAt(p: seq<Json>, q: seq<Json>)
    requires |p| == ColumnCount && |q| == ColumnCount && p[1].JStr? && q[1].JStr?
    requires forall c :: 0 <= c < ColumnCount && c != 1 ==> p[c] == q[c]
    requires BindAll(p, 1).Success? && BindAll(q, 1).Success?
    ensures var rp, rq := StoredRow(BindAll(p, 1).value), StoredRow(BindAll(q, 1).value);
            rp[1] == SqlText(p[1].s) && rq[1] == SqlText(q[1].s) &&
            forall k :: 0 <= k < ColumnCount ==> (rp[k] == SqlNull <==> rq[k] == SqlNull) && (k != 1 ==> rp[k] == rq[k])
  {
    var bp, bq := BindAll(p, 1).value, BindAll(q, 1).value;
    var rp, rq := StoredRow(bp), StoredRow(bq);
    forall k | 0 <= k < ColumnCount ensures (rp[k] == SqlNull <==> rq[k] == SqlNull) && (k != 1 ==> rp[k] == rq[k]) {
      assert Bind(p[k], 1 + k) == Success(bp[k]) && Bind(q[k], 1 + k) == Success(bq[k]);
      if k != 1 {
        assert p[k] == q[k];
      }
    }
    assert Bind(p[1], 2) == Success(bp[1]) && Bind(q[1], 2) == Success(bq[1]);
  }

  /** Two INSERTs whose parameters differ only in the text bound to `created_at` have the
      same outcome, up to that one cell. */
  lemma InsertOutcomeIgnoresCreatedAt(tableExists: bool, rows: seq<Row>, p: seq<Json>, q: seq<Json>)
    requires |p| == ColumnCount && |q| == ColumnCount && p[1].JStr? && q[1].JStr?
    requires forall c :: 0 <= c < ColumnCount && c != 1 ==> p[c] == q[c]
    ensures InsertOutcome(tableExists, rows, p).Success? <==> InsertOutcome(tableExists, rows, q).Success?
    ensures InsertOutcome(tableExists, rows, p).Failure? ==> InsertOutcome(tableExists, rows, p) == InsertOutcome(tableExists, rows, q)
    ensures InsertOutcome(tableExists, rows, p).Success? ==>
              InsertOutcome(tableExists, rows, p).value[1] == SqlText(p[1].s) &&
              InsertOutcome(tableExists, rows, q).value[1] == SqlText(q[1].s) &&
              forall c :: 0 <= c < ColumnCount && c != 1 ==>
                InsertOutcome(tableExists, rows, p).value[c] == InsertOutcome(tableExists, rows, q).value[c]
  {
    BindsAgreeOffCreatedAt(p, q);
    BindAllAgree(p, q, 1);
    if tableExists && BindAll(p, 1).Success? {
      var rp, rq := StoredRow(BindAll(p, 1).value), StoredRow(BindAll(q, 1).value);
      StoredRowsAgreeOffCreatedAt(p, q);
      FirstNullViolationAgree(rp, rq, 0);
      assert rp[IdColumn] == rq[IdColumn];
    }
  }

  /** A Python value as `sqlite3` returns a stored cell: NULL is None. */
  function CellValue(v: SqlValue): Json
  {
    match v
    case SqlNull => JNull
    case SqlInt(i) => JInt(i)
    case SqlText(t) => JStr(t)
  }

  /** A parameter that a column stores unchanged: a str for a TEXT column, a 64-bit int for
      an INTEGER column, or None. */
  predicate Canonical(v: Json, integerColumn: bool)
  {
    v.JNull? || (integerColumn && v.JInt? && InInt64(v.i)) || (!integerColumn && v.JStr?)
  }

  /** A canonical parameter binds, and its cell reads back as the parameter. */
  lemma CanonicalCellReadsBack(v: Json, pos: nat, integerColumn: bool)
    requires Canonical(v, integerColumn)
    ensures Bind(v, pos).Success? && CellValue(Affine(Bind(v, pos).value, integerColumn)) == v
  {
  }

  /** Reading back a stored row whose parameters were canonical gives the parameters. */
  lemma StoredRowReadsBack(params: seq<Json>)
    requires |params| == ColumnCount
    requires forall c :: 0 <= c < ColumnCount ==> Canonical(params[c], IntegerColumn(c))
    ensures BindAll(params, 1).Success?
    ensures forall c :: 0 <= c < ColumnCount ==> CellValue(StoredRow(BindAll(params, 1).value)[c]) == params[c]
  {
    forall c | 0 <= c < ColumnCount ensures Bind(params[c], 1 + c).Success? {
      CanonicalCellReadsBack(params[c], 1 + c, IntegerColumn(c));
    }
    var bound := BindAll(params, 1).value;
    forall c | 0 <= c < ColumnCount
      ensures CellValue(StoredRow(bound)[c]) == params[c]
    {
      CanonicalCellReadsBack(params[c], 1 + c, IntegerColumn(c));
      assert Bind(params[c], 1 + c) == Success(bound[c]);
    }
  }

  /** `SELECT * FROM api_usages LIMIT k`: a negative limit means no limit. */
  function Limited(rows: seq<Row>, k: int): (r: seq<Row>)
    ensures |r| == if k < 0 || k >= |rows| then |rows| else k
    ensures r <= rows
  {
    if k < 0 || k >= |rows| then rows else rows[..k]
  }

  /** How many rows have `m` in the `model` column. */
  function CountModel(rows: seq<Row>, m: SqlValue): (n: nat)
    ensures n <= |rows|
    decreases |rows|
  {
    if rows == [] then 0
    else CountModel(rows[..|rows| - 1], m) + (if rows[|rows| - 1][ModelColumn] == m then 1 else 0)
  }

  /** Whether some row has `m` in the `model` column. */
  predicate HasModel(rows: seq<Row>, m: SqlValue)
  {
    exists i :: 0 <= i < |rows| && rows[i][ModelColumn] == m
  }

  /** `sum(total_tokens)`: NULL when no row holds a value; integer arithmetic that fails with
      "integer overflow" once a partial sum leaves 64 bits. */
  function SumTotalTokens(rows: seq<Row>): (r: Result<Option<int>, PyException>)
    ensures r.Failure? ==> r.error == PyException(OperationalError, "integer overflow")
    decreases |rows|
  {
    if rows == [] then Success(None)
    else
      var prev :- SumTotalTokens(rows[..|rows| - 1]);
      var base := if prev.Some? then prev.value else 0;
      match rows[|rows| - 1][TotalTokensColumn]
      case SqlNull => Success(prev)
      case SqlInt(i) => if InInt64(base + i) then Success(Some(base + i)) else Failure(PyException(OperationalError, "integer overflow"))
      case SqlText(_) => Success(Some(base))
  }

  /** On a table whose `total_tokens` are all present, the sum is NULL exactly when the table
      is empty. */
  lemma {:induction false} SumIsNullOnlyWhenEmpty(rows: seq<Row>)
    requires forall i :: 0 <= i < |rows| ==> RowFits(rows[i])
    requires SumTotalTokens(rows).Success?
    ensures SumTotalTokens(rows).value.None? <==> rows == []
    decreases |rows|
  {
    if rows != [] {
      assert NotNullColumn(TotalTokensColumn);
      assert RowFits(rows[|rows| - 1]);
      SumIsNullOnlyWhenEmpty(rows[..|rows| - 1]);
    }
  }

  /** Adding one row of model `m` to the groups of a `GROUP BY model`. */
  function AddToGroup(groups: seq<(SqlValue, nat)>, m: SqlValue): seq<(SqlValue, nat)>
  {
    if groups == [] then [(m, 1)]
    else if groups[0].0 == m then [(m, groups[0].1 + 1)] + groups[1..]
    else [groups[0]] + AddToGroup(groups[1..], m)
  }

  /** `SELECT model, COUNT(*) FROM api_usages GROUP BY model`, one pair per model (here in
      order of first appearance; the statement promises no order). */
  function GroupByModel(rows: seq<Row>): seq<(SqlValue, nat)>
    decreases |rows|
  {
    if rows == [] then [] else AddToGroup(GroupByModel(rows[..|rows| - 1]), rows[|rows| - 1][ModelColumn])
  }

  /** The sum of the counts of the groups. */
  function SumCounts(groups: seq<(SqlValue, nat)>): nat
  {
    if groups == [] then 0 else groups[0].1 + SumCounts(groups[1..])
  }

  /** Whether `m` is the key of some group. */
  predicate InGroups(groups: seq<(SqlValue, nat)>, m: SqlValue)
  {
    groups != [] && (groups[0].0 == m || InGroups(groups[1..], m))
  }

  /** No key has two groups, as in the dict built from the pairs. */
  predicate DistinctGroups(groups: seq<(SqlValue, nat)>)
  {
    groups == [] || (!InGroups(groups[1..], groups[0].0) && DistinctGroups(groups[1..]))
  }

  /** `dict(pairs).get(m, 0)`: the count paired with `m`, or 0 when `m` has no group. */
  function GroupCount(groups: seq<(SqlValue, nat)>, m: SqlValue): nat
  {
    if groups == [] then 0 else if groups[0].0 == m then groups[0].1 else GroupCount(groups[1..], m)
  }

  lemma {:induction false} AddToGroupFacts(groups: seq<(SqlValue, nat)>, m: SqlValue)
    requires DistinctGroups(groups)
    ensures DistinctGroups(AddToGroup(groups, m))
    ensures forall x :: InGroups(AddToGroup(groups, m), x) <==> InGroups(groups, x) || x == m
    ensures forall x :: GroupCount(AddToGroup(groups, m), x) == GroupCount(groups, x) + (if x == m then 1 else 0)
    ensures SumCounts(AddToGroup(groups, m)) == SumCounts(groups) + 1
    decreases |groups|
  {
    if groups != [] && groups[0].0 != m {
      var g' := AddToGroup(groups, m);
      AddToGroupFacts(groups[1..], m);
      assert g'[0] == groups[0] && g'[1..] == AddToGroup(groups[1..], m);
    } else if groups != [] {
      var g' := AddToGroup(groups, m);
      assert g'[1..] == groups[1..];
    }
  }

  /** A key with a positive count has a group. */
  lemma {:induction false} PositiveCountInGroups(groups: seq<(SqlValue, nat)>, m: SqlValue)
    ensures GroupCount(groups, m) > 0 ==> InGroups(groups, m)
    decreases |groups|
  {
    if groups != [] && groups[0].0 != m {
      PositiveCountInGroups(groups[1..], m);
    }
  }

  /** `GROUP BY model` yields one group per model that occurs, whose count is the number of rows
      with that model; the counts add up to the number of rows. */
  lemma {:induction false} GroupByModelCounts(rows: seq<Row>)
    ensures DistinctGroups(GroupByModel(rows))
    ensures forall m :: InGroups(GroupByModel(rows), m) <==> CountModel(rows, m) > 0
    ensures forall m :: GroupCount(GroupByModel(rows), m) == CountModel(rows, m)
    ensures SumCounts(GroupByModel(rows)) == |rows|
    decreases |rows|
  {
    if rows != [] {
      var prefix := rows[..|rows| - 1];
      GroupByModelCounts(prefix);
      AddToGroupFacts(GroupByModel(prefix), rows[|rows| - 1][ModelColumn]);
    }
  }

  /** A model has a positive count exactly when some row has it. */
  lemma {:induction false} CountModelPositive(rows: seq<Row>, m: SqlValue)
    ensures CountModel(rows, m) > 0 <==> HasModel(rows, m)
    decreases |rows|
  {
    if rows != [] {
      var prefix := rows[..|rows| - 1];
      CountModelPositive(prefix, m);
      if HasModel(prefix, m) {
        var i :| 0 <= i < |prefix| && prefix[i][ModelColumn] == m;
        assert rows[i][ModelColumn] == m;
      }
      if HasModel(rows, m) && rows[|rows| - 1][ModelColumn] != m {
        var i :| 0 <= i < |rows| && rows[i][ModelColumn] == m;
        assert prefix[i][ModelColumn] == m;
      }
    }
  }

  /** A prefix of the rows holds no row more often than the table does. */
  lemma LimitedIsSubMultiset(rows: seq<Row>, k: int)
    ensures multiset(Limited(rows, k)) <= multiset(rows)
  {
    if !(k < 0 || k >= |rows|) {
      assert rows == rows[..k] + rows[k..];
    }
  }

  /** A database file, as the statements of the stores see it. */
  class Database {
    var tableExists: bool
    var indexes: set<string>
    var rows: seq<Row>

    /** No rows or indexes without the table, and the rows keep the schema's guarantees. */
    predicate Valid()
      reads this
    {
      (!tableExists ==> rows == [] && indexes == {}) && TableInvariant(rows)
    }

    /** A file in which the table has not been created. */
    constructor ()
      ensures Valid() && !tableExists && indexes == {} && rows == []
    {
      tableExists := false;
      indexes := {};
      rows := [];
    }

    /** `CREATE TABLE IF NOT EXISTS api_usages (...)`: an existing table is left as it is. */
    method CreateTableIfNotExists()
      requires Valid()
      modifies this
      ensures Valid() && tableExists && indexes == old(indexes) && rows == old(rows)
    {
      tableExists := true;
    }

    /** `CREATE INDEX IF NOT EXISTS name ON api_usages(...)`. */
    method CreateIndexIfNotExists(name: string) returns (err: Option<PyException>)
      requires Valid()
      modifies this
      ensures Valid() && tableExists == old(tableExists) && rows == old(rows)
      ensures old(tableExists) ==> err.None? && indexes == old(indexes) + {name}
      ensures !old(tableExists) ==>
                err == Some(PyException(OperationalError, "no such table: main." + TableName)) && indexes == old(indexes)
    {
      if tableExists {
        indexes := indexes + {name};
        err := None;
      } else {
        err := Some(PyException(OperationalError, "no such table: main." + TableName));
      }
    }

    /** `SELECT 1 FROM api_usages LIMIT 1`: fails exactly when the table is absent. */
    method Probe() returns (err: Option<PyException>)
      ensures err.None? <==> tableExists
      ensures err.Some? ==> err.value == NoSuchTable()
    {
      err := if tableExists then None else Some(NoSuchTable());
    }

    /** The INSERT of the stores; a failing statement leaves the table as it was. */
    method Insert(params: seq<Json>) returns (err: Option<PyException>)
      requires Valid()
      modifies this
      ensures Valid() && tableExists == old(tableExists) && indexes == old(indexes)
      ensures var outcome := InsertOutcome(old(tableExists), old(rows), params);
              err == (if outcome.Success? then None else Some(outcome.error)) &&
              rows == (if outcome.Success? then old(rows) + [outcome.value] else old(rows))
    {
      var outcome := InsertOutcome(tableExists, rows, params);
      if outcome.Success? {
        InsertKeepsInvariant(rows, params);
        rows := rows + [outcome.value];
        err := None;
      } else {
        err := Some(outcome.error);
      }
    }

    /** `SELECT * FROM api_usages`, with ` LIMIT k` when `limit` is `Some(k)`. The model
        returns the rows in the order they were inserted. */
    method Select(limit: Option<int>) returns (r: Result<seq<Row>, PyException>)
      ensures !tableExists ==> r == Failure(NoSuchTable())
      ensures tableExists ==> r == Success(if limit.Some? then Limited(rows, limit.value) else rows)
    {
      if !tableExists {
        r := Failure(NoSuchTable());
      } else if limit.Some? {
        r := Success(Limited(rows, limit.value));
      } else {
        r := Success(rows);
      }
    }

    /** `SELECT COUNT(*) FROM api_usages`. */
    method CountRows() returns (r: Result<nat, PyException>)
      ensures r == if tableExists then Success(|rows|) else Failure(NoSuchTable())
    {
      r := if tableExists then Success(|rows|) else Failure(NoSuchTable());
    }

    /** `SELECT SUM(total_tokens) FROM api_usages`; `None` is SQL NULL. */
    method SumTotal() returns (r: Result<Option<int>, PyException>)
      ensures r == if tableExists then SumTotalTokens(rows) else Failure(NoSuchTable())
    {
      r := if tableExists then SumTotalTokens(rows) else Failure(NoSuchTable());
    }

    /** `SELECT model, COUNT(*) as count FROM api_usages GROUP BY model`. */
    method CountByModel() returns (r: Result<seq<(SqlValue, nat)>, PyException>)
      ensures r == if tableExists then Success(GroupByModel(rows)) else Failure(NoSuchTable())
    {
      r := if tableExists then Success(GroupByModel(rows)) else Failure(NoSuchTable());
    }
  }
}
