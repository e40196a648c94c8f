/** `SQLiteRepository` of src/repositories/database_repository.py: the usage store that
    creates its table and two indexes itself, renders timestamps with their UTC offset, and
    answers listing and statistics queries. Each method opens a connection to the file at
    `dbPath`; here the file is the `Database` object `db`. */
module DatabaseRepository {
  import opened Wrappers
  import opened JsonValue
  import opened Exceptions
  import opened Timestamps
  import opened SqliteDb
  import opened UsageRecords
  import Text

  const DefaultDbPath: string := "api_usage.db"

  /** The indexes `_create_table` creates, in order. */
  const IndexNames: seq<string> := ["idx_model", "idx_created_at"]

  /** `_format_timestamp`: `%Y-%m-%d %H:%M:%S %z` of the time in the configured zone. */
  function FormatTimestamp(zone: Zone, ts: Json): (r: Result<string, PyException>)
    ensures r.Success? ==> |r.value| >= 25 && r.value[19] == ' '
  {
    var t :- FromTimestamp(zone, ts);
    FormatWithOffsetExtendsPlain(t);
    Success(FormatWithOffset(t))
  }

  /** What `insert_usage` does with the table: format the timestamp (its errors are raised
      before any connection is made), then run the INSERT. */
  function InsertResult(zone: Zone, tableExists: bool, rows: seq<Row>, record: UsageRecord): Result<Row, PyException>
  {
    var createdAt :- FormatTimestamp(zone, record.created);
    InsertOutcome(tableExists, rows, InsertParams(record, createdAt))
  }

  /** The `created_at` cell of an inserted row holds the formatted local time, not the epoch. */
  lemma InsertStoresFormattedTime(zone: Zone, rows: seq<Row>, record: UsageRecord)
    requires InsertResult(zone, true, rows, record).Success?
    ensures record.created.JInt? || record.created.JBool?
    ensures FromTimestamp(zone, record.created).Success?
    ensures InsertResult(zone, true, rows, record).value[1] ==
              SqlText(FormatWithOffset(FromTimestamp(zone, record.created).value))
  {
    var createdAt := FormatTimestamp(zone, record.created).value;
    var p := InsertParams(record, createdAt);
    var bound := BindAll(p, 1).value;
    assert Bind(p[1], 2) == Success(bound[1]);
  }

  /** With a fresh primary key, a complete well-typed record whose timestamp converts is
      appended; with a key that is already stored, the insert raises IntegrityError. */
  lemma InsertUsageByPrimaryKey(zone: Zone, rows: seq<Row>, record: UsageRecord)
    requires WellTyped(record) && FromTimestamp(zone, record.created).Success?
    requires record.usageId.JStr?
    requires !record.model.JNull? && !record.prompt.JNull? && !record.completion.JNull?
    requires !record.promptTokens.JNull? && !record.completionTokens.JNull? && !record.totalTokens.JNull?
    ensures IdTaken(rows, SqlText(record.usageId.s)) ==>
              InsertResult(zone, true, rows, record) == Failure(UniqueFailed())
    ensures !IdTaken(rows, SqlText(record.usageId.s)) ==>
              InsertResult(zone, true, rows, record).Success? &&
              InsertResult(zone, true, rows, record).value[IdColumn] == SqlText(record.usageId.s)
  {
    InsertByPrimaryKey(record, FormatTimestamp(zone, record.created).value, rows);
  }

  /** A `pandas.DataFrame` as far as the model observes it: its column names and its rows. */
  datatype Frame = Frame(columns: seq<string>, rows: seq<Row>)

  /** The dict `get_usage_stats` returns when its queries succeed. */
  datatype UsageStats = UsageStats(totalRequests: nat, totalTokens: int, modelsUsage: seq<(SqlValue, nat)>)

  /** How many rows a listing returns: `if limit:` adds ` LIMIT k` only for a non-zero k, and
      SQLite reads a negative limit as no limit. */
  function FetchCount(limit: Option<int>, n: nat): nat
  {
    if limit.Some? && limit.value > 0 && limit.value < n then limit.value else n
  }

  const SelectAll: string := "SELECT * FROM " + TableName

  /** The listing query: ` LIMIT k` is appended only when `if limit:` holds, for a non-zero k. */
  function FetchQuery(limit: Option<int>): (sql: string)
    ensures limit.None? || limit.value == 0 ==> sql == SelectAll
    ensures limit.Some? && limit.value != 0 ==> sql == SelectAll + " LIMIT " + Text.IntToString(limit.value)
  {
    if limit.Some? && limit.value != 0 then SelectAll + " LIMIT " + Text.IntToString(limit.value) else SelectAll
  }

  /** The `pandas.errors.DatabaseError` that `pd.read_sql_query` raises when executing `sql`
      on a sqlite3 connection fails with `e`. */
  function ReadSqlFailure(sql: string, e: PyException): (f: PyException)
    ensures f.kind == DatabaseError && !IsSqliteError(f.kind)
  {
    PyException(DatabaseError, "Execution failed on sql '" + sql + "': " + e.msg)
  }

  /** `cursor.fetchone()[0] or 0` on the result of `SUM`. */
  function OrZero(sum: Option<int>): (n: int)
    ensures sum.None? ==> n == 0
    ensures sum.Some? ==> n == sum.value
  {
    if sum.Some? then sum.value else 0
  }

  /** A row of the table with the given key, model and token total. */
  function UsageRow(id: string, model: string, totalTokens: int): Row
  {
    [SqlText(id), SqlText("2023-11-14 19:13:20 -0300"), SqlText(model), SqlNull, SqlText("p"), SqlText("c"),
     SqlInt(0), SqlInt(0), SqlInt(totalTokens), SqlInt(0), SqlInt(0), SqlInt(0), SqlNull, SqlNull]
  }

  /** Three rows with models "a", "a", "b" and token totals 10, 20, 5 sum to 35 tokens and
      group as two rows of "a" and one of "b". */
  lemma StatsOfThreeRows()
    ensures var rows := [UsageRow("1", "a", 10), UsageRow("2", "a", 20), UsageRow("3", "b", 5)];
            SumTotalTokens(rows) == Success(Some(35)) &&
            GroupByModel(rows) == [(SqlText("a"), 2), (SqlText("b"), 1)]
  {
    var r1, r2, r3 := UsageRow("1", "a", 10), UsageRow("2", "a", 20), UsageRow("3", "b", 5);
    var rows := [r1, r2, r3];
    assert rows[..2] == [r1, r2] && rows[..2][..1] == [r1] && [r1][..0] == [];
    assert r1[TotalTokensColumn] == SqlInt(10) && r2[TotalTokensColumn] == SqlInt(20) && r3[TotalTokensColumn] == SqlInt(5);
    assert r1[ModelColumn] == SqlText("a") && r2[ModelColumn] == SqlText("a") && r3[ModelColumn] == SqlText("b");
    assert SumTotalTokens([r1]) == Success(Some(10));
    assert SumTotalTokens([r1, r2]) == Success(Some(30));
    assert GroupByModel([r1]) == [(SqlText("a"), 1)];
    assert GroupByModel([r1, r2]) == [(SqlText("a"), 2)];
    assert SqlText("a") != SqlText("b");
    var g := [(SqlText("a"), 2)];
    assert g[1..] == [];
    assert AddToGroup(g, SqlText("b")) == [g[0]] + AddToGroup([], SqlText("b"));
    assert GroupByModel(rows) == AddToGroup(GroupByModel([r1, r2]), SqlText("b"));
  }

  class SQLiteRepository {
    const dbPath: string
    const db: Database
    const zone: Zone

    /** `SQLiteRepository(db_path)`: picks the path, then always runs `_create_table`. */
    constructor (dbPathArg: Option<string>, file: Database, zone: Zone)
      requires file.Valid()
      modifies file
      ensures dbPath == PathOrDefault(dbPathArg, DefaultDbPath) && db == file && this.zone == zone
      ensures file.Valid() && file.tableExists && file.rows == old(file.rows)
      ensures file.indexes == old(file.indexes) + {"idx_model", "idx_created_at"}
    {
      dbPath := PathOrDefault(dbPathArg, DefaultDbPath);
      db := file;
      this.zone := zone;
      new;
      CreateTable();
    }

    /** `_create_table`: the table if it is missing, then each index of `IndexNames` if it is
        missing. The rows are never touched, so running it again changes nothing. */
    method CreateTable()
      requires db.Valid()
      modifies db
      ensures db.Valid() && db.tableExists && db.rows == old(db.rows)
      ensures db.indexes == old(db.indexes) + {"idx_model", "idx_created_at"}
    {
      db.CreateTableIfNotExists();
      for i := 0 to |IndexNames|
        invariant db.Valid() && db.tableExists && db.rows == old(db.rows)
        invariant db.indexes == old(db.indexes) + set k | 0 <= k < i :: IndexNames[k]
      {
        var err := db.CreateIndexIfNotExists(IndexNames[i]);
        assert err.None?;
        assert (set k | 0 <= k < i + 1 :: IndexNames[k]) == (set k | 0 <= k < i :: IndexNames[k]) + {IndexNames[i]};
      }
      assert (set k | 0 <= k < 2 :: IndexNames[k]) == {"idx_model", "idx_created_at"} by {
        assert IndexNames[0] == "idx_model" && IndexNames[1] == "idx_created_at";
      }
    }

    /** `insert_usage(record)`: the exception raised, if any. On success exactly one row is
        appended; on any failure the table is unchanged. */
    method InsertUsage(record: UsageRecord) returns (raised: Option<PyException>)
      requires db.Valid()
      modifies db
      ensures db.Valid() && db.tableExists == old(db.tableExists) && db.indexes == old(db.indexes)
      ensures var outcome := InsertResult(zone, old(db.tableExists), old(db.rows), record);
              raised == (if outcome.Success? then None else Some(outcome.error)) &&
              db.rows == (if outcome.Success? then old(db.rows) + [outcome.value] else old(db.rows))
    {
      var createdAt := FormatTimestamp(zone, record.created);
      if createdAt.Failure? {
        raised := Some(createdAt.error);
        return;
      }
      raised := db.Insert(InsertParams(record, createdAt.value));
    }

    /** `fetch_records_as_dataframe(limit)`: the table's columns and at most `limit` of its
        rows (all of them when `limit` is None, 0 or negative). No ORDER BY is given, so only
        which rows, not their order, is promised. When the query fails, `pd.read_sql_query`
        raises `pandas.errors.DatabaseError`, which `except sqlite3.Error` does not catch, so
        the error reaches the caller and the empty frame of the handler is never returned. */
    method FetchRecordsAsDataframe(limit: Option<int>) returns (r: Result<Frame, PyException>)
      ensures r.Failure? <==> !db.tableExists
      ensures r.Failure? ==> r.error == ReadSqlFailure(FetchQuery(limit), NoSuchTable()) && !IsSqliteError(r.error.kind)
      ensures r.Success? ==> r.value.columns == Columns && |r.value.rows| == FetchCount(limit, |db.rows|)
      ensures r.Success? ==> multiset(r.value.rows) <= multiset(db.rows)
    {
      var clause := if limit.Some? && limit.value != 0 then limit else None;
      var q := db.Select(clause);
      if q.Failure? {
        r := Failure(ReadSqlFailure(FetchQuery(limit), q.error));
      } else {
        if clause.Some? {
          LimitedIsSubMultiset(db.rows, clause.value);
        }
        r := Success(Frame(Columns, q.value));
      }
    }

    /** The listing as the handler's comment intends it: an empty frame, not an exception,
        when the query fails. */
    method FetchRecordsOrEmpty(limit: Option<int>) returns (frame: Frame)
      ensures !db.tableExists ==> frame == Frame([], [])
      ensures db.tableExists ==> frame.columns == Columns && |frame.rows| == FetchCount(limit, |db.rows|)
      ensures multiset(frame.rows) <= multiset(db.rows)
    {
      var r := FetchRecordsAsDataframe(limit);
      frame := if r.Success? then r.value else Frame([], []);
    }

    /** `get_usage_stats()`: None stands for the empty dict returned when a query fails (the
        table is missing, or `SUM` overflows). Otherwise the row count, the token total (0 on
        an empty table) and the count of rows of each model, which add up to the row count. */
    method GetUsageStats() returns (stats: Option<UsageStats>)
      requires db.Valid()
      ensures stats.None? <==> !db.tableExists || SumTotalTokens(db.rows).Failure?
      ensures stats.Some? ==> stats.value.totalRequests == |db.rows|
      ensures stats.Some? ==> stats.value.totalTokens == OrZero(SumTotalTokens(db.rows).value)
      ensures stats.Some? && db.rows == [] ==> stats.value.totalTokens == 0 && stats.value.modelsUsage == []
      ensures stats.Some? ==> DistinctGroups(stats.value.modelsUsage)
      ensures stats.Some? ==> forall m :: GroupCount(stats.value.modelsUsage, m) == CountModel(db.rows, m)
      ensures stats.Some? ==> forall m :: InGroups(stats.value.modelsUsage, m) <==> CountModel(db.rows, m) > 0
      ensures stats.Some? ==> SumCounts(stats.value.modelsUsage) == stats.value.totalRequests
    {
      var count := db.CountRows();
      if count.Failure? {
        return None;
      }
      var sum := db.SumTotal();
      if sum.Failure? {
        return None;
      }
      var groups := db.CountByModel();
      if groups.Failure? {
        return None;
      }
      GroupByModelCounts(db.rows);
      stats := Some(UsageStats(count.value, OrZero(sum.value), groups.value));
    }
  }

  /** Opening a store twice on the same file: the second `_create_table` neither fails nor
      changes the rows, and the schema is the one the first left. */
  method OpenTwice(dbPathArg: Option<string>, file: Database, zone: Zone)
    returns (first: SQLiteRepository, second: SQLiteRepository)
    requires file.Valid()
    modifies file
    ensures file.Valid() && file.tableExists && file.rows == old(file.rows)
    ensures file.indexes == old(file.indexes) + {"idx_model", "idx_created_at"}
    ensures first.db == second.db == file
  {
    first := new SQLiteRepository(dbPathArg, file, zone);
    second := new SQLiteRepository(dbPathArg, file, zone);
  }
}
