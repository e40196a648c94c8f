# Usage bookkeeping of a chat-completion client, in Dafny

This project is a verified model of the bookkeeping core of a small client for an
OpenAI-compatible chat-completion API. A response comes back from the API as a
JSON-like dict. Four pieces of the repository handle it:

- `ResultConverter.api_result_to_dict` flattens the response into a record of 15
  fields.
- A `SQLiteRepository` store (`src/repositories/database_repository.py`) keeps such
  records in table `api_usages`. It creates the table and two indexes itself, writes
  timestamps with their UTC offset, and answers listing and statistics queries.
- A second `SQLiteRepository` (`src/repositories/sqlite_repository.py`) stores the
  same records. It reads its statements from `.sql` files, probes for the table
  before it creates it, writes timestamps without an offset, and re-raises every
  database error through `_error`.
- `flatten_dict` (`teste.py`) flattens nested dicts and lists into a dict keyed by
  `sep`-joined paths.

Modules:

- `Wrappers`: `Option` and `Result`.
- `Text`: decimal digits, zero padding and ASCII lower case.
- `Quoting`: how `repr` writes a str: the quote it picks and the characters it
  escapes, with a reader of such literals as its partner.
- `JsonValue`: the Python values that occur, with `v[k]` subscription, `str` and
  `repr`. A dict is a sequence of pairs in insertion order. Floats are not among them.
- `Exceptions`: a Python exception is its class and its message.
- `Timestamps`: local times, and `strftime` for `%Y-%m-%d %H:%M:%S` and `%z`. The
  time-zone conversion is a parameter of type `Zone`.
- `ResultConverter`: the response mapper, written as 17 chains of subscriptions. Its
  first failing chain decides the TypeError raised.
- `UsageRecords`: the `UsageRecord` NamedTuple and the 14 INSERT parameters built
  from it.
- `SqliteDb`: the database file as a class `Database` with a table-exists flag, a set
  of index names and a sequence of rows. The SQL engine is modelled by what it does
  to these statements: parameter binding, column affinity, the NOT NULL and PRIMARY
  KEY checks, `LIMIT`, `COUNT(*)`, `SUM` and `GROUP BY`.
- `DatabaseRepository` and `SqliteRepository`: the two stores, each a class over a
  `Database`.
- `Flatten`: `flatten_dict`. It is a method with a loop over the dict's items and a
  loop over each list. It is proved equal to `Flatten`, which is its reference
  definition as the list of leaf writes applied last-write-wins.

Where the documentation and the code disagree, the model follows the code:

- The response example in the documentation has no `object` key. The code reads
  `result["object"]` and so rejects that example (`ResultConverter.MissingObjectRaises`).
- Neither store orders its listing. The model promises which rows come back, not in
  what order.
- The listing of the first store does not return an empty frame when its query fails,
  although its handler says so (see "## Findings").

## Model

| member | source | states |
|---|---|---|
| ResultConverter.ApiResultToDictByPaths | src/repositories/result_converter.py:20-44 | the conversion succeeds exactly when every one of the 15 subscription chains succeeds; the output then pairs each output key with the end of its chain |
| ResultConverter.FailureIsFirstFault | src/repositories/result_converter.py:22-44 | the conversion fails exactly when one of the 17 lookups, in Python's evaluation order, fails; the TypeError carries the text of the first failing lookup after the fixed prefix |
| ResultConverter.OutputFields | src/repositories/result_converter.py:25-41 | a successful output gives each of the 15 keys the value at the end of its chain, copied unchecked, so `total_tokens` is never compared with the other counts |
| ResultConverter.TopLevelPathsUnfolded | src/repositories/result_converter.py:26-31 | `usage_id`, `object`, `created`, `model`, `system_fingerprint` and `prompt` come from the top-level keys `id`, `object`, `created`, `model`, `system_fingerprint` and `prompt` |
| ResultConverter.ChoicePathsUnfolded | src/repositories/result_converter.py:24-40 | `completion`, `finish_reason` and `logprobs` come from `choices[0]` (`message.content`, `finish_reason`, `logprobs`) |
| ResultConverter.UsagePathsUnfolded | src/repositories/result_converter.py:33-38 | the token counts and the hit and miss counts come straight from `usage`; `cached_tokens` comes from `usage.prompt_tokens_details.cached_tokens` |
| ResultConverter.OnlyFirstChoiceMatters | src/repositories/result_converter.py:24-40 | two responses that agree on every top-level key except `choices`, and whose `choices[0]` lookups agree, convert to the same dict or the same error |
| ResultConverter.LaterChoicesIgnored | src/repositories/result_converter.py:24-40 | two `choices` lists with the same first element convert alike, whatever elements follow it |
| ResultConverter.DeterminedByLookups | src/repositories/result_converter.py:22-44 | the conversion depends on the response only through the outcomes of its 17 lookups |
| ResultConverter.EmptyChoicesRaise | src/repositories/result_converter.py:22-44 | an empty `choices` list, reached once `usage` is found, raises TypeError with the text of `IndexError: list index out of range` and returns no dict |
| ResultConverter.MissingUsageRaises | src/repositories/result_converter.py:22-44 | a response without `usage` raises TypeError with the text `'usage'` |
| ResultConverter.MissingObjectRaises | src/repositories/result_converter.py:22-44 | a response without `object`, whose earlier lookups succeed, raises TypeError with the text `'object'` |
| JsonValue.KeyErrorText | src/repositories/result_converter.py:42-44 | the text of `KeyError(k)` for a key of printable ASCII without quote or backslash is the key in single quotes |
| ResultConverter.FailureIsMalformed | src/repositories/result_converter.py:42-44 | any lookup fault turns into a TypeError carrying the fixed prefix followed by the fault's text |
| ResultConverter.OutputKeysDistinct | src/repositories/result_converter.py:25-41 | the 15 output keys are distinct, so the output dict holds all 15 |
| UsageRecords.OutputKeysAreRecordFieldsPlusObject | src/repositories/result_converter.py:25-41 | the output keys are the `UsageRecord` fields with `object` added after `usage_id`; `object` is not a record field |
| UsageRecords.RecordDefaults | src/repositories/database_repository.py:30-34 | the omitted fields default to 0, 0, 0, None and None |
| UsageRecords.LogprobsParam | src/repositories/database_repository.py:118 | `logprobs` is bound as NULL exactly when it is None, and otherwise as its `str`, with strings inside quoted and escaped as `repr` does |
| UsageRecords.StoredRecordReadsBack | src/repositories/database_repository.py:104-119 | the row stored for a well-typed record holds every field unchanged, the formatted timestamp in `created_at`, and `str(logprobs)` or NULL |
| Quoting.QuoteStrRoundTrip | src/repositories/database_repository.py:118 | reading back, between its quotes, the literal `repr` writes for a str gives the str back, whichever quote was picked |
| Quoting.UnescapeChar | src/repositories/database_repository.py:118 | each character `repr` escapes (a quote, a backslash, tab, newline, carriage return, or `\xhh` for one that is not printable) reads back as itself |
| Quoting.PlainQuote | src/repositories/database_repository.py:118 | a str of printable ASCII without single quote or backslash is written between single quotes as it is |
| Quoting.ApostropheQuote | src/repositories/database_repository.py:118 | a str holding a single quote and no double quote is written between double quotes |
| Quoting.EscapeExamples | src/repositories/database_repository.py:118 | a newline is written as `\n` and a backslash is doubled |
| UsageRecords.NullRequiredFieldRefused | src/repositories/database_repository.py:90-125 | None in `model`, `prompt`, `completion` or a token total is refused with IntegrityError |
| UsageRecords.CompleteRecordRow | src/repositories/database_repository.py:104-119 | a well-typed record with every NOT NULL field present yields a row that fits the schema, keyed by its `usage_id` |
| UsageRecords.InsertByPrimaryKey | src/repositories/database_repository.py:90-125 | with a fresh `usage_id` a complete record is stored as one row with that key; with a stored key it fails with the UNIQUE IntegrityError |
| UsageRecords.InsertsDifferOnlyInCreatedAt | src/repositories/database_repository.py:104-119 | two inserts of one record that differ only in the timestamp text have the same outcome except for the `created_at` cell |
| SqliteDb.PathOrDefaultFallsBack | src/repositories/database_repository.py:42 | a falsy path (None or "") gives the fallback; any other path is used as given |
| SqliteDb.Bind | src/repositories/database_repository.py:95-120 | a parameter binds unless it is a list, a dict or an int outside 64 bits; such an int raises OverflowError, and the others raise ProgrammingError |
| SqliteDb.BindAll | src/repositories/database_repository.py:104-119 | the parameters bind exactly when each binds at its position, in order |
| SqliteDb.StoredRow | src/repositories/database_repository.py:57-74 | each cell is its bound value after the affinity of its column |
| SqliteDb.Affine | src/repositories/database_repository.py:57-74 | affinity keeps NULL as NULL and puts no integer into a TEXT column |
| SqliteDb.RowOutcome | src/repositories/database_repository.py:59-67 | an accepted row is the row itself, fits every NOT NULL constraint, and carries a primary key not yet stored |
| SqliteDb.InsertOutcome | src/repositories/database_repository.py:95-120 | a successful INSERT yields a row that fits the schema and whose non-NULL key is new |
| SqliteDb.InsertKeepsInvariant | src/repositories/database_repository.py:57-74 | an accepted row keeps every row within the schema and the keys unique |
| SqliteDb.InsertRejectsDuplicateId | src/repositories/database_repository.py:59 | a row whose key is already stored is refused with the UNIQUE IntegrityError |
| SqliteDb.InsertRejectsNull | src/repositories/database_repository.py:60-67 | a NULL in a NOT NULL column is refused with the NOT NULL IntegrityError of the first such column |
| SqliteDb.InsertAcceptsFreshRow | src/repositories/database_repository.py:90-122 | a fitting row with a fresh or NULL key is accepted as it is |
| SqliteDb.InsertOutcomeIgnoresCreatedAt | src/repositories/database_repository.py:104-106 | the INSERT outcome does not depend on the `created_at` text except for that cell |
| SqliteDb.StoredRowReadsBack | src/repositories/database_repository.py:104-119 | parameters of the column's declared type bind and read back unchanged |
| SqliteDb.Limited | src/repositories/database_repository.py:132-133 | `LIMIT k` returns a prefix of the rows; there are k of them, or all the rows when k is negative or at least their number |
| SqliteDb.LimitedIsSubMultiset | src/repositories/database_repository.py:132-134 | a limited listing holds only stored rows |
| SqliteDb.CountModel | src/repositories/database_repository.py:154-159 | a model's count is at most the number of rows |
| SqliteDb.SumTotalTokens | src/repositories/database_repository.py:150-151 | if `SUM` fails, it fails with the `integer overflow` OperationalError |
| SqliteDb.SumIsNullOnlyWhenEmpty | src/repositories/database_repository.py:150-151 | on rows within the schema, `SUM(total_tokens)` is NULL exactly when the table is empty |
| SqliteDb.GroupByModelCounts | src/repositories/database_repository.py:154-159 | `GROUP BY model` lists each model once, lists exactly the models that occur, gives each its number of rows, and its counts add up to the row count |
| SqliteDb.CountModelPositive | src/repositories/database_repository.py:154-159 | a model's count is positive exactly when some row has that model |
| SqliteDb.Database.constructor | src/repositories/database_repository.py:53 | a new database file has no table, no index and no row |
| SqliteDb.Database.CreateTableIfNotExists | src/repositories/database_repository.py:81 | afterwards the table exists; the rows and indexes are unchanged |
| SqliteDb.Database.CreateIndexIfNotExists | src/repositories/database_repository.py:75-83 | with the table present the index is added; without it the call fails with `no such table` and changes nothing |
| SqliteDb.Database.Probe | src/repositories/sqlite_repository.py:83 | the probe fails exactly when the table is missing, with `no such table` |
| SqliteDb.Database.Insert | src/repositories/database_repository.py:94-125 | the INSERT appends the accepted row, or changes nothing and reports the error |
| SqliteDb.Database.Select | src/repositories/database_repository.py:131-134 | the listing returns the rows, limited when a limit is given, or fails when the table is missing |
| SqliteDb.Database.CountRows | src/repositories/database_repository.py:146-147 | `COUNT(*)` is the number of rows |
| SqliteDb.Database.SumTotal | src/repositories/database_repository.py:150-151 | `SUM(total_tokens)` over the rows |
| SqliteDb.Database.CountByModel | src/repositories/database_repository.py:154-159 | the model groups of the rows |
| DatabaseRepository.SQLiteRepository.constructor | src/repositories/database_repository.py:40-45 | the path falls back to `api_usage.db`; table creation always runs, so the table and both indexes exist and the rows are kept |
| DatabaseRepository.SQLiteRepository.CreateTable | src/repositories/database_repository.py:55-88 | afterwards the table, `idx_model` and `idx_created_at` exist; the rows are never touched |
| DatabaseRepository.OpenTwice | src/repositories/database_repository.py:40-45 | opening a store a second time on the same file neither fails nor changes the rows |
| DatabaseRepository.FormatTimestamp | src/repositories/database_repository.py:47-49 | the text is `%Y-%m-%d %H:%M:%S` followed by a space and the offset, so at least 25 characters |
| DatabaseRepository.InsertStoresFormattedTime | src/repositories/database_repository.py:92-106 | the stored `created_at` is the formatted local time, not the epoch |
| DatabaseRepository.InsertUsageByPrimaryKey | src/repositories/database_repository.py:90-125 | a complete record with a fresh key is stored under that key; a stored key raises the UNIQUE IntegrityError |
| DatabaseRepository.SQLiteRepository.InsertUsage | src/repositories/database_repository.py:90-125 | exactly one row is appended on success; on any error the exception is raised and the table is unchanged |
| DatabaseRepository.FetchQuery | src/repositories/database_repository.py:131-133 | ` LIMIT k` is appended to the query exactly when `limit` is a non-zero int |
| DatabaseRepository.ReadSqlFailure | src/repositories/database_repository.py:134-135 | the error `pd.read_sql_query` raises is a `pandas.errors.DatabaseError`, which `except sqlite3.Error` does not catch |
| DatabaseRepository.SQLiteRepository.FetchRecordsAsDataframe | src/repositories/database_repository.py:127-137 | the table's columns and at most `limit` stored rows for a truthy positive limit (all rows for None, 0 or a negative one); it fails exactly when the table is missing, and then raises the uncaught `DatabaseError` naming the query |
| DatabaseRepository.SQLiteRepository.FetchRecordsOrEmpty | src/repositories/database_repository.py:134-137 | the listing as the handler intends it: the same rows, or an empty frame when the table is missing |
| DatabaseRepository.OrZero | src/repositories/database_repository.py:151 | a NULL sum becomes 0 |
| DatabaseRepository.SQLiteRepository.GetUsageStats | src/repositories/database_repository.py:139-168 | the row count; the token sum, 0 on an empty table; each model's row count, adding up to the row count; `{}` when a query fails |
| DatabaseRepository.StatsOfThreeRows | src/repositories/database_repository.py:146-159 | on three sample rows the sum is 35 and the groups are two of "a" and one of "b" |
| Timestamps.FromTimestamp | src/repositories/database_repository.py:49 | an int converts through the zone; anything other than an int or a bool raises TypeError |
| Timestamps.FormatPlainParses | src/repositories/sqlite_repository.py:72 | `%Y-%m-%d %H:%M:%S` is 19 characters with the separators in place, and each field reads back as its value |
| Timestamps.OffsetPartParses | src/repositories/database_repository.py:49 | `%z` is the sign and then the hours and minutes of the offset, with seconds added only when the offset has them |
| Timestamps.FormatWithOffsetExtendsPlain | src/repositories/database_repository.py:49 | the `%z` format is the plain format, a space and the offset |
| SqliteRepository.SQLiteRepository.Open | src/repositories/sqlite_repository.py:39-54 | the insert file is read first and then the create file, and the first failure is raised with the file unchanged; otherwise the path falls back to `api_usages.db`, both statements are kept and the table exists |
| SqliteRepository.SQLiteRepository.constructor | src/repositories/sqlite_repository.py:41-54 | the fields are set, then the table is created when it is missing; rows and indexes are kept |
| SqliteRepository.SQLiteRepository.CreateTable | src/repositories/sqlite_repository.py:78-90 | the table exists afterwards; when it already existed nothing changes; no index is made |
| SqliteRepository.SQLiteRepository.InsertUsage | src/repositories/sqlite_repository.py:92-119 | the same row as the other store but with the offset-free time; on success one row is appended, and on error the error is re-raised and the table is unchanged |
| SqliteRepository.Error | src/repositories/sqlite_repository.py:56-65 | a `level` that is neither None nor a string raises TypeError; otherwise a class is raised with `msg`, an instance as it is, and no argument gives the active exception or `Exception(msg)` |
| SqliteRepository.ErrorReraisesActive | src/repositories/sqlite_repository.py:64-65 | with no exception given, the active exception is re-raised unchanged |
| SqliteRepository.SuffixShape | src/repositories/sqlite_repository.py:126 | a non-empty suffix is a dot and at least one further character, has no other dot, and ends the file name |
| SqliteRepository.HiddenNameHasNoSuffix | src/repositories/sqlite_repository.py:126 | a file named `.sql` has no suffix |
| SqliteRepository.TrailingDotHasNoSuffix | src/repositories/sqlite_repository.py:126 | a name ending in a dot has no suffix |
| SqliteRepository.LastSuffixCounts | src/repositories/sqlite_repository.py:126 | only the last suffix counts (`schema.tar.sql` has `.sql`) |
| SqliteRepository.UpperCaseSuffixAccepted | src/repositories/sqlite_repository.py:126 | `name.SQL` passes the extension check, since the suffix is lowered first |
| SqliteRepository.PlainNameSuffix | src/repositories/sqlite_repository.py:126 | `stem.ext` has suffix `.ext` when both parts are non-empty |
| SqliteRepository.SqlFileSuffixes | src/repositories/sqlite_repository.py:47-50 | both statement files the store opens have suffix `.sql` |
| SqliteRepository.ReadSqlFile | src/repositories/sqlite_repository.py:121-134 | a missing path raises FileNotFoundError, a wrong suffix ValueError and a directory IsADirectoryError; otherwise the content is returned |
| SqliteRepository.ReadCheckedPath | src/repositories/sqlite_repository.py:124-134 | with a `.sql` suffix the read succeeds exactly when a regular file is there |
| SqliteRepository.ReadStatementFile | src/repositories/sqlite_repository.py:121-134 | reading a statement file fails only with FileNotFoundError or IsADirectoryError |
| SqliteRepository.FormatTimestamp | src/repositories/sqlite_repository.py:67-72 | the text has 19 characters with a space at position 10 and no offset |
| SqliteRepository.FormatTimestampIsOffsetFree | src/repositories/sqlite_repository.py:72 | the text is the other store's timestamp without its offset, and both fail alike |
| SqliteRepository.StoresInsertAlike | src/repositories/sqlite_repository.py:94-119 | both stores bind the same 14 values and have the same outcome, except that `created_at` lacks the offset |
| Flatten.FlattenDict | teste.py:5-21 | the loop over the items ends in `Flatten(d, parentKey, sep)` |
| Flatten.FlattenList | teste.py:12-18 | the loop over a list applies its item writes, in order, to the dict built so far |
| Flatten.Put | teste.py:18-20 | an assignment sets one key and changes no other; a new key is added at the end |
| Flatten.PutAllGet | teste.py:11-20 | after a sequence of writes a key holds its last write, or its old value when it was not written |
| Flatten.UpdateWithBuiltDict | teste.py:11-16 | `update` with a dict built from writes equals applying those writes |
| Flatten.FlattenShape | teste.py:5-21 | the output has distinct keys, each holding the last write of its key; its keys are the keys written; every item is a leaf write and no value is a dict |
| Flatten.FlattenScalarItem | teste.py:9-20 | a scalar value is stored at `parent + sep + k`, or at `k` when `parent` is empty |
| Flatten.FlattenDictItem | teste.py:10-11 | a nested dict is flattened recursively under `new_key` |
| Flatten.FlattenListItem | teste.py:12-18 | a list contributes its item writes under `new_key` |
| Flatten.ListScalarItem | teste.py:17-18 | a list item that is not a dict, even a nested list, is stored as it is at `new_key + sep + idx` |
| Flatten.ListDictItem | teste.py:15-16 | a dict inside a list is flattened under `new_key + sep + idx` |
| Flatten.DictWritesAreLeaves | teste.py:10-20 | no write stores a dict |
| Flatten.DictWritesUnderPrefix | teste.py:9 | under a non-empty prefix every written key starts with `prefix + sep` |
| Flatten.EmptyContributesNothing | teste.py:7-14 | an empty dict flattens to nothing; an empty nested dict or list adds no key |
| Flatten.LastWriteFound | teste.py:11-20 | a key's last write is one of the writes; a key never written has none |
| Flatten.ResponseKeys | teste.py:24-49 | on a response of the sample's shape, `choices_0_message_content` holds the message and `usage_prompt_tokens_details_cached_tokens` the cached count |
| Flatten.SampleIsResponse | teste.py:24-47 | the sample has that shape, with content "Brasília." and cached tokens 0 |
| Flatten.SampleFlattens | teste.py:24-49 | flattening the sample gives `choices_0_message_content == "Brasília."` and `usage_prompt_tokens_details_cached_tokens == 0` |

## Left out

- The HTTP call, logging, `LoggerSingleton`, `BaseClass` and YAML loading: they are
  I/O or side channels only.
- The module-level read and print in `src/repositories/result_converter.py:47-50` and
  the print in `teste.py:51`: I/O.
- The SQLite engine: connections, transactions and SQL text are replaced by the
  abstract table of `SqliteDb.Database`. A failed INSERT changes nothing, as the
  `with conn:` rollback promises. Failures of the file system or the engine itself
  (locking, a full or corrupt disk) are not modelled.
- Concurrent access by several processes to one database file is not modelled.
- The SQL files of the second store are not part of this model. Its INSERT is taken
  to be the first store's INSERT, and its CREATE to be the first store's CREATE TABLE.
  `execute` runs a single statement, so that file can create no index. `SQL_DIR` is
  missing from `src/config/constants.py` and is a parameter here.
- The tz database: `ZoneInfo("America/Sao_Paulo")` and its DST history are the `Zone`
  parameter. A zone yields either a valid local time or the exception `fromtimestamp`
  raises for an out-of-range epoch. A float timestamp is not
  modelled.
- `SqliteRepository.FormatTimestamp`: the inverted `BRT` check only logs a warning. A
  `ZoneInfo` object is always truthy, so `BRT if BRT else "UTC"` at
  `src/repositories/sqlite_repository.py:69` always picks `BRT`; the `"UTC"` fallback is
  unreachable and the model always uses the configured zone.
- `Timestamps.DatePart`: years below 1000 are zero-padded to four digits. glibc's `%Y`,
  which older CPython versions pass through on Linux, prints them without padding. Such
  years need a timestamp more than a thousand years before the epoch.
- The file system is a map from paths to entries. Path normalisation (`..`, repeated
  slashes) is not modelled. Reading a file's content gives the stored text, so a
  `UnicodeDecodeError` of `read_text` is not modelled.
- `SqliteRepository.Suffix` follows `pathlib` as of Python 3.12 and earlier; a name
  ending in a dot has no suffix.
- `Text.AsciiLower`: `str.lower` is modelled on ASCII letters only.
- `DatabaseRepository.SQLiteRepository.FetchRecordsAsDataframe`: the pandas DataFrame
  is `Frame`, its column names and rows. Column dtypes are not modelled. No row order is
  claimed because the query has no ORDER BY. The only failure modelled is the missing
  table; a failure of `sqlite3.connect` itself, which the handler does catch, is not.
- Floats: `Json` has no float, so the floats `json.load` produces are outside the
  model. These include the `logprob` values inside `choices[0].logprobs` of real
  responses, and float counts or timestamps.
- `UsageRecords.LogprobsParam`: `str` of a `logprobs` value that holds floats is not
  modelled, since `Json` has no float; for the values it covers, strings inside are
  quoted and escaped as `repr` does, with the limit of `Quoting.Printable` below.
- `UsageRecords.StoredRecordReadsBack`: the stored `logprobs` text is `str` of a
  float-free value; `logprobs` holding floats is not covered.
- `Quoting.Printable`: `repr` escapes the characters Unicode does not class as
  printable. The model follows that class exactly up to U+00FF and takes every character
  above U+00FF as printable, so for example U+2028 is written unescaped.
- `SqliteDb.Affine`: INTEGER affinity converts only text of an optional sign and decimal
  digits. SQLite also converts text with surrounding spaces, a decimal point or an
  exponent (`' 12 '`, `'12.0'` and `'3.0e+5'` become integers) and stores a non-integral
  numeral such as `'12.5'` as a REAL. The model has no REAL and keeps such text as TEXT.
  Records whose counts are ints, which is what `WellTyped` asks, are not affected.
- `SqliteDb.SumTotalTokens`: a TEXT cell in `total_tokens` adds 0 and the sum stays an
  integer. SQLite reads such a cell by its numeric prefix, returns a float sum once any
  value is not an integer, and then raises no overflow. So `GetUsageStats`'s integer
  `total_tokens` matches SQLite only when every `total_tokens` cell is an integer, which
  holds for rows stored from well-typed records.
- `DatabaseRepository.SQLiteRepository.GetUsageStats`: `models_usage` is a list of
  (model, count) pairs instead of a dict. An overflowing `SUM` is modelled as the
  OperationalError SQLite raises, after which the method returns `{}`.
- `Flatten.FlattenList`: the inline list loop of `flatten_dict` is a separate method
  so that it can have its own loop invariant. The model keeps the source's order of
  writes.
- Python's `int` and `bool` overlap (`True == 1`). The model keeps them as separate
  values, and only `Timestamps.FromTimestamp` and `SqliteDb.Bind` treat a bool as a
  number.

## Findings

| source | as written | input that shows it | evidently intended | confidence | as-written member | corrected member |
|---|---|---|---|---|---|---|
| src/repositories/database_repository.py:134-137 | `pd.read_sql_query` wraps the SQLite error in `pandas.errors.DatabaseError`, a subclass of `OSError`; `except sqlite3.Error` does not catch it, so the call raises | a database file without the `api_usages` table, any `limit` | the handler's comment: an empty DataFrame when the query fails | not executed | DatabaseRepository.SQLiteRepository.FetchRecordsAsDataframe | DatabaseRepository.SQLiteRepository.FetchRecordsOrEmpty |
