/** `SQLiteRepository` of src/repositories/sqlite_repository.py: the usage store that reads its
    INSERT and CREATE TABLE statements from two `.sql` files, creates the table only when a
    probe finds it missing, renders timestamps without their UTC offset, and reports failures
    through `_error`. The directory `SQL_DIR` and the file system are parameters: the files
    are a map from path to entry, and the SQLite file is the `Database` object `db`. */
module SqliteRepository {
  import opened Wrappers
  import opened JsonValue
  import opened Exceptions
  import opened Text
  import opened Timestamps
  import opened SqliteDb
  import opened UsageRecords
  import DatabaseRepository

  const DefaultDbPath: string := "api_usages.db"

  /** The statement files: `insert_api_usages.sql` and `create_api_usages.sql`. */
  const InsertStem: string := "insert_api_usages"
  const CreateStem: string := "create_api_usages"
  const SqlExt: string := "sql"
  const InsertFileName: string := InsertStem + "." + SqlExt
  const CreateFileName: string := CreateStem + "." + SqlExt

  /** The `exc` argument of `_error`: omitted, an exception class, or an exception object. */
  datatype ExcArg = NoExc | ExcClass(kind: ExcKind) | ExcInstance(exc: PyException)

  /** The exception `_error(msg, exc, level)` raises; it never returns normally. `active` is
      the exception being handled where it is called (`sys.exc_info()[1]`), and `level` is a
      Python value (None is `JNull`). */
  function Error(msg: string, exc: ExcArg, level: Json, active: Option<PyException>): (raised: PyException)
    ensures !level.JNull? && !level.JStr? ==> raised == PyException(TypeError, "O nível de log deve ser uma string.")
    ensures (level.JNull? || level.JStr?) && exc.ExcClass? ==> raised == PyException(exc.kind, msg)
    ensures (level.JNull? || level.JStr?) && exc.ExcInstance? ==> raised == exc.exc
    ensures (level.JNull? || level.JStr?) && exc.NoExc? ==>
              raised == (if active.Some? then active.value else PyException(Exception, msg))
  {
    if !level.JNull? && !level.JStr? then PyException(TypeError, "O nível de log deve ser uma string.")
    else match exc
      case ExcClass(k) => PyException(k, msg)
      case ExcInstance(e) => e
      case NoExc => if active.Some? then active.value else PyException(Exception, msg)
  }

  /** Inside an `except` block and with no `exc`, `_error` re-raises the exception being
      handled, as a bare `raise` would; outside one it raises a plain `Exception(msg)`. */
  lemma ErrorReraisesActive(msg: string, level: Json, e: PyException)
    requires level.JNull? || level.JStr?
    ensures Error(msg, NoExc, level, Some(e)) == e
    ensures Error(msg, NoExc, level, None) == PyException(Exception, msg)
    ensures Error(msg, NoExc, level, Some(e)).kind != TypeError || e.kind == TypeError
  {
  }

  /** An entry of the file system. */
  datatype FileEntry = RegularFile(content: string) | Directory

  /** The index just past the last `/` of `p`, 0 when there is none. */
  function NameStart(p: string): (i: nat)
    ensures i <= |p|
    ensures i > 0 ==> p[i - 1] == '/'
    ensures forall k :: i <= k < |p| ==> p[k] != '/'
  {
    if p == [] then 0 else if p[|p| - 1] == '/' then |p| else NameStart(p[..|p| - 1])
  }

  /** `Path(p).name`: the last component. */
  function Name(p: string): (n: string)
    ensures '/' !in n && |n| <= |p|
    ensures p == p[..|p| - |n|] + n
  {
    var i := NameStart(p);
    assert p == p[..i] + p[i..];
    p[i..]
  }

  /** The index of the last `.` of `s`, -1 when there is none. */
  function LastDot(s: string): (i: int)
    ensures -1 <= i < |s|
    ensures i >= 0 ==> s[i] == '.'
    ensures forall k :: i < k < |s| ==> s[k] != '.'
  {
    if s == [] then -1 else if s[|s| - 1] == '.' then |s| - 1 else LastDot(s[..|s| - 1])
  }

  /** `Path(p).suffix`: from the last dot of the name, when that dot neither starts nor ends
      the name; otherwise empty. */
  function Suffix(p: string): string
  {
    var name := Name(p);
    var i := LastDot(name);
    if 0 < i < |name| - 1 then name[i..] else ""
  }

  /** A suffix is a dot and at least one more character, none of them a dot or a `/`; it
      ends the name, after a non-empty stem. It is empty exactly when the name has no dot
      after its first character and before its last. */
  lemma SuffixShape(p: string)
    ensures var x := Suffix(p);
            x != "" ==> |x| >= 2 && x[0] == '.' && '.' !in x[1..] && '/' !in x
    ensures var x := Suffix(p);
            x != "" ==> |x| < |Name(p)| && Name(p)[|Name(p)| - |x|..] == x
    ensures Suffix(p) == "" <==> LastDot(Name(p)) <= 0 || LastDot(Name(p)) == |Name(p)| - 1
  {
    if Suffix(p) != "" {
      NoDotAfterLast(Name(p));
    }
  }

  /** Nothing after the last dot is a dot. */
  lemma NoDotAfterLast(s: string)
    requires LastDot(s) >= 0
    ensures '.' !in s[LastDot(s) + 1..]
  {
  }

  /** A text without `/` is its own name. */
  lemma {:induction false} NameOfPlainName(s: string)
    requires '/' !in s
    ensures Name(s) == s
    decreases |s|
  {
    if s != [] {
      var q := s[..|s| - 1];
      assert s[|s| - 1] in s;
      assert forall c :: c in q ==> c in s;
      NameOfPlainName(q);
    }
  }

  /** The last dot of `stem.ext`, when `ext` has none, is the one before `ext`. */
  lemma {:induction false} LastDotBeforeExtension(stem: string, ext: string)
    requires '.' !in ext
    ensures LastDot(stem + "." + ext) == |stem|
    decreases |ext|
  {
    var s := stem + "." + ext;
    if ext == [] {
      assert s[|s| - 1] == '.';
    } else {
      var e := ext[..|ext| - 1];
      assert s[..|s| - 1] == stem + "." + e;
      assert ext[|ext| - 1] in ext;
      assert forall c :: c in e ==> c in ext;
      LastDotBeforeExtension(stem, e);
    }
  }

  /** The suffix of a path whose name is `stem.ext`, where `ext` has no dot. */
  lemma SuffixFromName(p: string, stem: string, ext: string)
    requires Name(p) == stem + "." + ext && '.' !in ext
    ensures Suffix(p) == if stem != "" && ext != "" then "." + ext else ""
  {
    LastDotBeforeExtension(stem, ext);
    assert Name(p)[|stem|..] == "." + ext;
  }

  /** A name made of two parts without `/` and a dot has no `/`. */
  lemma NoSlashInName(stem: string, ext: string)
    requires '/' !in stem && '/' !in ext
    ensures '/' !in stem + "." + ext
  {
  }

  /** `SQL_DIR / name`. */
  function SqlPath(dir: string, name: string): string
  {
    dir + "/" + name
  }

  /** The name of `dir / name` is `name`, whatever the directory. */
  lemma {:induction false} NameOfSqlPath(dir: string, name: string)
    requires '/' !in name
    ensures Name(SqlPath(dir, name)) == name
    decreases |name|
  {
    var p := SqlPath(dir, name);
    if name == [] {
      assert p[|p| - 1] == '/';
    } else {
      var q := name[..|name| - 1];
      assert p[..|p| - 1] == SqlPath(dir, q);
      assert p[|p| - 1] == name[|name| - 1];
      NameOfSqlPath(dir, q);
      assert NameStart(p) == NameStart(SqlPath(dir, q));
      assert p[NameStart(p)..] == SqlPath(dir, q)[NameStart(p)..] + [name[|name| - 1]];
      assert q + [name[|name| - 1]] == name;
    }
  }

  lemma InsertStemPlain()
    ensures InsertStem != "" && '/' !in InsertStem
  {
  }

  lemma CreateStemPlain()
    ensures CreateStem != "" && '/' !in CreateStem
  {
  }

  lemma SqlExtPlain()
    ensures SqlExt != "" && '/' !in SqlExt && '.' !in SqlExt && "." + SqlExt == ".sql"
  {
  }

  /** The two statement files pass the extension check in any directory. */
  lemma SqlFileSuffixes(dir: string)
    ensures Suffix(SqlPath(dir, InsertFileName)) == ".sql"
    ensures Suffix(SqlPath(dir, CreateFileName)) == ".sql"
  {
    InsertStemPlain();
    CreateStemPlain();
    SqlExtPlain();
    StatementFileSuffix(dir, InsertStem, SqlExt);
    StatementFileSuffix(dir, CreateStem, SqlExt);
  }

  /** A file `stem.ext` in any directory has the suffix `.ext`. */
  lemma StatementFileSuffix(dir: string, stem: string, ext: string)
    requires stem != "" && ext != "" && '/' !in stem && '/' !in ext && '.' !in ext
    ensures Suffix(SqlPath(dir, stem + "." + ext)) == "." + ext
  {
    NoSlashInName(stem, ext);
    NameOfSqlPath(dir, stem + "." + ext);
    SuffixFromName(SqlPath(dir, stem + "." + ext), stem, ext);
  }

  /** `str.lower` turns both spellings of the extension into `.sql`. */
  lemma LowerSql()
    ensures AsciiLower(".sql") == ".sql" && AsciiLower(".SQL") == ".sql"
  {
    assert AsciiLowerChar('.') == '.' && AsciiLowerChar('s') == 's' && AsciiLowerChar('q') == 'q' && AsciiLowerChar('l') == 'l';
    assert AsciiLowerChar('S') == 's' && AsciiLowerChar('Q') == 'q' && AsciiLowerChar('L') == 'l';
  }

  /** A name that starts with its only dot, such as `.sql`, has no suffix. */
  lemma HiddenNameHasNoSuffix(dir: string)
    ensures Suffix(SqlPath(dir, ".sql")) == ""
  {
    assert ".sql" == "" + "." + "sql";
    NameOfSqlPath(dir, ".sql");
    SuffixFromName(SqlPath(dir, ".sql"), "", "sql");
  }

  /** A name that ends with a dot has no suffix. */
  lemma TrailingDotHasNoSuffix()
    ensures Suffix("dump.sql.") == ""
  {
    assert "dump.sql." == "dump.sql" + "." + "";
    PlainNameSuffix("dump.sql", "");
  }

  /** Only the last of several suffixes counts. */
  lemma LastSuffixCounts()
    ensures Suffix("schema.tar.sql") == ".sql"
  {
    assert "schema.tar.sql" == "schema.tar" + "." + "sql";
    PlainNameSuffix("schema.tar", "sql");
  }

  /** The suffix keeps its case, and the check lowers it: `dump.SQL` is accepted. */
  lemma UpperCaseSuffixAccepted(stem: string)
    requires stem != "" && '/' !in stem
    ensures Suffix(stem + ".SQL") == ".SQL" && HasSqlExtension(stem + ".SQL")
  {
    assert stem + ".SQL" == stem + "." + "SQL";
    PlainNameSuffix(stem, "SQL");
    LowerSql();
  }

  lemma PlainNameSuffix(stem: string, ext: string)
    requires '/' !in stem && '/' !in ext && '.' !in ext
    ensures Suffix(stem + "." + ext) == if stem != "" && ext != "" then "." + ext else ""
  {
    NoSlashInName(stem, ext);
    NameOfPlainName(stem + "." + ext);
    SuffixFromName(stem + "." + ext, stem, ext);
  }

  function NotFoundMessage(path: string): string
  {
    "Arquivo não encontrado: '" + path + "'"
  }

  function BadExtensionMessage(path: string): string
  {
    "Extensão inválida para arquivo SQL: " + Suffix(path)
  }

  /** The `IsADirectoryError` that `read_text` raises on a directory. */
  function IsADirectory(path: string): PyException
  {
    PyException(IsADirectoryError, "[Errno 21] Is a directory: '" + path + "'")
  }

  /** `path.suffix.lower() == ".sql"`. */
  predicate HasSqlExtension(path: string)
  {
    AsciiLower(Suffix(path)) == ".sql"
  }

  /** `_read_sql_file(path)`: the file's text, or the exception `_error` raises. The three
      checks come in order: existence, then the (case-insensitive) `.sql` extension, then
      reading, whose error is re-raised as it is. */
  function ReadSqlFile(files: map<string, FileEntry>, path: string): (r: Result<string, PyException>)
    ensures r.Success? <==> path in files && HasSqlExtension(path) && files[path].RegularFile?
    ensures r.Success? ==> r.value == files[path].content
    ensures path !in files ==> r == Failure(PyException(FileNotFoundError, NotFoundMessage(path)))
    ensures path in files && !HasSqlExtension(path) ==>
              r == Failure(PyException(ValueError, BadExtensionMessage(path)))
    ensures path in files && HasSqlExtension(path) && files[path].Directory? ==>
              r == Failure(IsADirectory(path))
  {
    if path !in files then
      Failure(Error(NotFoundMessage(path), ExcClass(FileNotFoundError), JStr("error"), None))
    else if !HasSqlExtension(path) then
      Failure(Error(BadExtensionMessage(path), ExcClass(ValueError), JStr("error"), None))
    else match files[path]
      case RegularFile(content) => Success(content)
      case Directory => Failure(Error("Erro ao ler o arquivo SQL: " + path, NoExc, JNull, Some(IsADirectory(path))))
  }

  /** Once the extension is right, only existence and kind matter. */
  lemma ReadCheckedPath(files: map<string, FileEntry>, path: string)
    requires HasSqlExtension(path)
    ensures ReadSqlFile(files, path).Success? <==> path in files && files[path].RegularFile?
    ensures ReadSqlFile(files, path).Failure? ==>
              ReadSqlFile(files, path).error.kind == FileNotFoundError ||
              ReadSqlFile(files, path).error.kind == IsADirectoryError
  {
  }

  /** For the store's two files only existence and kind matter: their names always carry
      the `.sql` extension. */
  lemma ReadStatementFile(files: map<string, FileEntry>, dir: string, name: string)
    requires name == InsertFileName || name == CreateFileName
    ensures ReadSqlFile(files, SqlPath(dir, name)).Success? <==>
              SqlPath(dir, name) in files && files[SqlPath(dir, name)].RegularFile?
    ensures ReadSqlFile(files, SqlPath(dir, name)).Failure? ==>
              ReadSqlFile(files, SqlPath(dir, name)).error.kind in {FileNotFoundError, IsADirectoryError}
  {
    var path := SqlPath(dir, name);
    SqlFileSuffixes(dir);
    assert Suffix(path) == ".sql";
    LowerSql();
    ReadCheckedPath(files, path);
  }

  /** `_format_timestamp`: `%Y-%m-%d %H:%M:%S` of the time in the configured zone. */
  function FormatTimestamp(zone: Zone, ts: Json): (r: Result<string, PyException>)
    ensures r.Success? ==> |r.value| == 19 && r.value[10] == ' '
  {
    var t :- FromTimestamp(zone, ts);
    FormatPlainParses(t);
    Success(FormatPlain(t))
  }

  /** The two stores fail on the same timestamps, and this store's rendering is the other's
      without the trailing ` %z`. */
  lemma FormatTimestampIsOffsetFree(zone: Zone, ts: Json)
    ensures FormatTimestamp(zone, ts).Success? <==> DatabaseRepository.FormatTimestamp(zone, ts).Success?
    ensures FormatTimestamp(zone, ts).Failure? ==> FormatTimestamp(zone, ts).error == DatabaseRepository.FormatTimestamp(zone, ts).error
    ensures FormatTimestamp(zone, ts).Success? ==>
              DatabaseRepository.FormatTimestamp(zone, ts).value[..19] == FormatTimestamp(zone, ts).value
  {
    var t := FromTimestamp(zone, ts);
    if t.Success? {
      FormatWithOffsetExtendsPlain(t.value);
    }
  }

  /** What `insert_usage` does with the table: format the timestamp, then run the INSERT. */
  function InsertResult(zone: Zone, tableExists: bool, rows: seq<Row>, record: UsageRecord): Result<Row, PyException>
  {
    var createdAt :- FormatTimestamp(zone, record.created);
    InsertOutcome(tableExists, rows, InsertParams(record, createdAt))
  }

  /** Both stores accept and refuse the same records with the same exceptions, and store the
      same row except for `created_at`, where this one leaves out the UTC offset. */
  lemma StoresInsertAlike(zone: Zone, tableExists: bool, rows: seq<Row>, record: UsageRecord)
    ensures InsertResult(zone, tableExists, rows, record).Success? <==>
              DatabaseRepository.InsertResult(zone, tableExists, rows, record).Success?
    ensures InsertResult(zone, tableExists, rows, record).Failure? ==>
              InsertResult(zone, tableExists, rows, record) == DatabaseRepository.InsertResult(zone, tableExists, rows, record)
    ensures InsertResult(zone, tableExists, rows, record).Success? ==>
              var mine, other := InsertResult(zone, tableExists, rows, record).value,
                                 DatabaseRepository.InsertResult(zone, tableExists, rows, record).value;
              mine[1].SqlText? && other[1].SqlText? && |mine[1].t| == 19 && mine[1].t <= other[1].t &&
              forall c :: 0 <= c < ColumnCount && c != 1 ==> mine[c] == other[c]
  {
    FormatTimestampIsOffsetFree(zone, record.created);
    var plain := FormatTimestamp(zone, record.created);
    if plain.Success? {
      var offset := DatabaseRepository.FormatTimestamp(zone, record.created);
      InsertsDifferOnlyInCreatedAt(tableExists, rows, record, plain.value, offset.value);
    }
  }

  class SQLiteRepository {
    const sqliteDatabasePath: string
    const insertQuery: string
    const createTableQuery: string
    const db: Database
    const zone: Zone

    /** The part of `__init__` after both statement files are read: keep the queries, then
        run `_create_table`. */
    constructor (dbPathArg: Option<string>, insertQuery: string, createTableQuery: string, file: Database, zone: Zone)
      requires file.Valid()
      modifies file
      ensures sqliteDatabasePath == PathOrDefault(dbPathArg, DefaultDbPath) && db == file && this.zone == zone
      ensures this.insertQuery == insertQuery && this.createTableQuery == createTableQuery
      ensures file.Valid() && file.tableExists && file.rows == old(file.rows) && file.indexes == old(file.indexes)
    {
      sqliteDatabasePath := PathOrDefault(dbPathArg, DefaultDbPath);
      this.insertQuery := insertQuery;
      this.createTableQuery := createTableQuery;
      db := file;
      this.zone := zone;
      new;
      CreateTable();
    }

    /** `SQLiteRepository(db_path)`: reads the INSERT file, then the CREATE TABLE file (the
        first failure is raised and the database is not touched), then constructs. */
    static method Open(dbPathArg: Option<string>, files: map<string, FileEntry>, sqlDir: string, file: Database, zone: Zone)
      returns (r: Result<SQLiteRepository, PyException>)
      requires file.Valid()
      modifies file
      ensures var ins, cre := ReadSqlFile(files, SqlPath(sqlDir, InsertFileName)), ReadSqlFile(files, SqlPath(sqlDir, CreateFileName));
              (r.Success? <==> ins.Success? && cre.Success?) &&
              (ins.Failure? ==> r == Failure(ins.error)) &&
              (ins.Success? && cre.Failure? ==> r == Failure(cre.error)) &&
              (r.Success? ==> r.value.insertQuery == ins.value && r.value.createTableQuery == cre.value)
      ensures r.Failure? ==> unchanged(file)
      ensures r.Success? ==>
                fresh(r.value) && r.value.db == file && r.value.zone == zone &&
                r.value.sqliteDatabasePath == PathOrDefault(dbPathArg, DefaultDbPath)
      ensures r.Success? ==> file.Valid() && file.tableExists && file.rows == old(file.rows) && file.indexes == old(file.indexes)
    {
      var ins := ReadSqlFile(files, SqlPath(sqlDir, InsertFileName));
      if ins.Failure? {
        return Failure(ins.error);
      }
      var cre := ReadSqlFile(files, SqlPath(sqlDir, CreateFileName));
      if cre.Failure? {
        return Failure(cre.error);
      }
      var repo := new SQLiteRepository(dbPathArg, ins.value, cre.value, file, zone);
      r := Success(repo);
    }

    /** `_create_table`: probe with `SELECT 1 FROM api_usages LIMIT 1`; only when that fails
        with OperationalError is the CREATE TABLE statement run. No index is created, and an
        existing table is not touched at all. */
    method CreateTable()
      requires db.Valid()
      modifies db
      ensures db.Valid() && db.tableExists && db.rows == old(db.rows) && db.indexes == old(db.indexes)
      ensures old(db.tableExists) ==> unchanged(db)
    {
      var err := db.Probe();
      if err.Some? && err.value.kind == OperationalError {
        db.CreateTableIfNotExists();
      }
    }

    /** `insert_usage(record)`: the exception raised, if any. A failing statement is reported
        through `_error` inside the `except sqlite3.Error` block, which re-raises it; any other
        exception propagates. On success exactly one row is appended. */
    method InsertUsage(record: UsageRecord) returns (raised: Option<PyException>)
      requires db.Valid()
      modifies db
      ensures db.Valid() && db.tableExists == old(db.tableExists) && db.indexes == old(db.indexes)
      ensures var outcome := InsertResult(zone, old(db.tableExists), old(db.rows), record);
              raised == (if outcome.Success? then None else Some(outcome.error)) &&
              db.rows == (if outcome.Success? then old(db.rows) + [outcome.value] else old(db.rows))
    {
      var createdAt := FormatTimestamp(zone, record.created);
      if createdAt.Failure? {
        raised := Some(createdAt.error);
        return;
      }
      var err := db.Insert(InsertParams(record, createdAt.value));
      if err.Some? && IsSqliteError(err.value.kind) {
        raised := Some(Error("Erro ao inserir registro no banco de dados.", NoExc, JNull, err));
      } else {
        raised := err;
      }
    }
  }
}
