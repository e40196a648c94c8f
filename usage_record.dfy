/** `UsageRecord`, the NamedTuple both stores persist (it is declared identically in both
    files), and the 14 parameters `insert_usage` binds for it. A NamedTuple does not check its
    annotations, so every field is an arbitrary Python value. */
module UsageRecords {
  import opened Wrappers
  import opened JsonValue
  import opened Exceptions
  import ResultConverter
  import opened SqliteDb

  datatype UsageRecord = UsageRecord(
    usageId: Json,
    created: Json,
    model: Json,
    systemFingerprint: Json,
    prompt: Json,
    completion: Json,
    promptTokens: Json,
    completionTokens: Json,
    totalTokens: Json,
    cachedTokens: Json := JInt(0),
    cacheHitTokens: Json := JInt(0),
    cacheMissTokens: Json := JInt(0),
    finishReason: Json := JNull,
    logprobs: Json := JNull)

  /** The field names of `UsageRecord`, in declaration order. */
  const RecordFields: seq<string> := [
    "usage_id", "created", "model", "system_fingerprint", "prompt", "completion",
    "prompt_tokens", "completion_tokens", "total_tokens", "cached_tokens", "cache_hit_tokens",
    "cache_miss_tokens", "finish_reason", "logprobs"]

  /** The converter's output keys are the record's fields with `object` inserted after
      `usage_id`; `object` is not a field, so the converter's output cannot be passed to
      `UsageRecord(**...)` as it is. */
  lemma OutputKeysAreRecordFieldsPlusObject()
    ensures ResultConverter.OutputKeys == [RecordFields[0], "object"] + RecordFields[1..]
    ensures "object" !in RecordFields
  {
  }

  /** The fields a caller may omit take their declared defaults. */
  lemma RecordDefaults(id: Json, created: Json, model: Json, fingerprint: Json, prompt: Json,
                       completion: Json, promptTokens: Json, completionTokens: Json, totalTokens: Json)
    ensures var r := UsageRecord(id, created, model, fingerprint, prompt, completion,
                                 promptTokens, completionTokens, totalTokens);
            r.cachedTokens == JInt(0) && r.cacheHitTokens == JInt(0) && r.cacheMissTokens == JInt(0) &&
            r.finishReason == JNull && r.logprobs == JNull
  {
  }

  /** `str(record.logprobs) if record.logprobs is not None else None`. */
  function LogprobsParam(v: Json): (p: Json)
    ensures p.JNull? <==> v.JNull?
    ensures !v.JNull? ==> p == JStr(Str(v))
  {
    if v.JNull? then JNull else JStr(Str(v))
  }

  /** The parameters of the INSERT, in column order: the record's fields, with the formatted
      timestamp in place of the epoch time and `logprobs` as text. */
  function InsertParams(record: UsageRecord, createdAt: string): (p: seq<Json>)
    ensures |p| == ColumnCount
  {
    [record.usageId, JStr(createdAt), record.model, record.systemFingerprint, record.prompt,
     record.completion, record.promptTokens, record.completionTokens, record.totalTokens,
     record.cachedTokens, record.cacheHitTokens, record.cacheMissTokens, record.finishReason,
     LogprobsParam(record.logprobs)]
  }

  /** A record whose fields have the annotated types (None where the annotation admits it),
      with the integers in 64 bits. `logprobs` may be anything. */
  predicate WellTyped(r: UsageRecord)
  {
    Canonical(r.usageId, false) && Canonical(r.model, false) && Canonical(r.systemFingerprint, false) &&
    Canonical(r.prompt, false) && Canonical(r.completion, false) &&
    Canonical(r.promptTokens, true) && Canonical(r.completionTokens, true) && Canonical(r.totalTokens, true) &&
    Canonical(r.cachedTokens, true) && Canonical(r.cacheHitTokens, true) && Canonical(r.cacheMissTokens, true) &&
    Canonical(r.finishReason, false)
  }

  /** The 14 parameters of a well-typed record are stored unchanged. */
  lemma WellTypedParamsCanonical(r: UsageRecord, createdAt: string)
    requires WellTyped(r)
    ensures forall c :: 0 <= c < ColumnCount ==> Canonical(InsertParams(r, createdAt)[c], IntegerColumn(c))
  {
    var p := InsertParams(r, createdAt);
    forall c | 0 <= c < ColumnCount ensures Canonical(p[c], IntegerColumn(c)) {
      if c < 7 {
        assert c == 0 || c == 1 || c == 2 || c == 3 || c == 4 || c == 5 || c == 6;
      } else {
        assert c == 7 || c == 8 || c == 9 || c == 10 || c == 11 || c == 12 || c == 13;
      }
    }
  }

  /** The cells of the row a successful INSERT stores for a well-typed record read back as
      the parameters. */
  lemma StoredCellsAreParams(r: UsageRecord, createdAt: string, rows: seq<Row>)
    requires WellTyped(r)
    requires InsertOutcome(true, rows, InsertParams(r, createdAt)).Success?
    ensures forall c :: 0 <= c < ColumnCount ==>
              CellValue(InsertOutcome(true, rows, InsertParams(r, createdAt)).value[c]) == InsertParams(r, createdAt)[c]
  {
    var p := InsertParams(r, createdAt);
    WellTypedParamsCanonical(r, createdAt);
    StoredRowReadsBack(p);
    assert InsertOutcome(true, rows, p).value == StoredRow(BindAll(p, 1).value);
  }

  /** The row a successful INSERT of a well-typed record stores: every field as it is, the
      formatted timestamp in `created_at`, and `logprobs` as its `str` (NULL for None). */
  lemma StoredRecordReadsBack(r: UsageRecord, createdAt: string, rows: seq<Row>)
    requires WellTyped(r)
    requires InsertOutcome(true, rows, InsertParams(r, createdAt)).Success?
    ensures var row := InsertOutcome(true, rows, InsertParams(r, createdAt)).value;
            CellValue(row[0]) == r.usageId && row[1] == SqlText(createdAt) &&
            CellValue(row[2]) == r.model && CellValue(row[3]) == r.systemFingerprint &&
            CellValue(row[4]) == r.prompt && CellValue(row[5]) == r.completion &&
            CellValue(row[6]) == r.promptTokens && CellValue(row[7]) == r.completionTokens &&
            CellValue(row[8]) == r.totalTokens && CellValue(row[9]) == r.cachedTokens &&
            CellValue(row[10]) == r.cacheHitTokens && CellValue(row[11]) == r.cacheMissTokens &&
            CellValue(row[12]) == r.finishReason &&
            row[13] == (if r.logprobs.JNull? then SqlNull else SqlText(Str(r.logprobs)))
  {
    var p := InsertParams(r, createdAt);
    var row := InsertOutcome(true, rows, p).value;
    StoredCellsAreParams(r, createdAt, rows);
    assert CellValue(row[0]) == p[0] && CellValue(row[1]) == p[1] && CellValue(row[2]) == p[2];
    assert CellValue(row[3]) == p[3] && CellValue(row[4]) == p[4] && CellValue(row[5]) == p[5];
    assert CellValue(row[6]) == p[6] && CellValue(row[7]) == p[7] && CellValue(row[8]) == p[8];
    assert CellValue(row[9]) == p[9] && CellValue(row[10]) == p[10] && CellValue(row[11]) == p[11];
    assert CellValue(row[12]) == p[12] && CellValue(row[13]) == p[13];
  }

  /** A record with None in a NOT NULL column (model, prompt, completion or a token total)
      is refused with an IntegrityError, whatever already is in the table. */
  lemma NullRequiredFieldRefused(r: UsageRecord, createdAt: string, rows: seq<Row>, c: nat)
    requires BindAll(InsertParams(r, createdAt), 1).Success?
    requires c == 2 || 4 <= c <= 8
    requires InsertParams(r, createdAt)[c] == JNull
    ensures InsertOutcome(true, rows, InsertParams(r, createdAt)).Failure?
    ensures InsertOutcome(true, rows, InsertParams(r, createdAt)).error.kind == IntegrityError
  {
    InsertRejectsNull(rows, InsertParams(r, createdAt), c);
  }

  /** A well-typed record with every NOT NULL field present: its row fits the schema and its
      key is the record's `usage_id`. */
  lemma CompleteRecordRow(r: UsageRecord, createdAt: string)
    requires WellTyped(r) && r.usageId.JStr?
    requires !r.model.JNull? && !r.prompt.JNull? && !r.completion.JNull?
    requires !r.promptTokens.JNull? && !r.completionTokens.JNull? && !r.totalTokens.JNull?
    ensures BindAll(InsertParams(r, createdAt), 1).Success?
    ensures RowFits(StoredRow(BindAll(InsertParams(r, createdAt), 1).value))
    ensures StoredRow(BindAll(InsertParams(r, createdAt), 1).value)[IdColumn] == SqlText(r.usageId.s)
  {
    var p := InsertParams(r, createdAt);
    WellTypedParamsCanonical(r, createdAt);
    StoredRowReadsBack(p);
    var row := StoredRow(BindAll(p, 1).value);
    assert CellValue(row[0]) == p[0];
    assert p[1] != JNull && p[2] != JNull && p[4] != JNull && p[5] != JNull;
    assert p[6] != JNull && p[7] != JNull && p[8] != JNull;
    forall c: nat | c < ColumnCount && NotNullColumn(c) ensures row[c] != SqlNull {
      assert CellValue(row[c]) == p[c];
      assert c == 1 || c == 2 || c == 4 || c == 5 || c == 6 || c == 7 || c == 8;
    }
  }

  /** With a fresh primary key, a complete well-typed record is accepted as one new row keyed
      by its `usage_id`; with a key that is already stored it is refused with IntegrityError. */
  lemma InsertByPrimaryKey(r: UsageRecord, createdAt: string, rows: seq<Row>)
    requires WellTyped(r) && r.usageId.JStr?
    requires !r.model.JNull? && !r.prompt.JNull? && !r.completion.JNull?
    requires !r.promptTokens.JNull? && !r.completionTokens.JNull? && !r.totalTokens.JNull?
    ensures IdTaken(rows, SqlText(r.usageId.s)) ==>
              InsertOutcome(true, rows, InsertParams(r, createdAt)) == Failure(UniqueFailed())
    ensures !IdTaken(rows, SqlText(r.usageId.s)) ==>
              InsertOutcome(true, rows, InsertParams(r, createdAt)).Success? &&
              InsertOutcome(true, rows, InsertParams(r, createdAt)).value[IdColumn] == SqlText(r.usageId.s)
  {
    var p := InsertParams(r, createdAt);
    CompleteRecordRow(r, createdAt);
    if IdTaken(rows, SqlText(r.usageId.s)) {
      var i :| 0 <= i < |rows| && rows[i][IdColumn] == SqlText(r.usageId.s);
      InsertRejectsDuplicateId(rows, p, i);
    } else {
      InsertAcceptsFreshRow(rows, p);
    }
  }

  /** Two INSERTs of one record with different `created_at` texts have the same outcome up
      to that cell. */
  lemma InsertsDifferOnlyInCreatedAt(tableExists: bool, rows: seq<Row>, r: UsageRecord, a: string, b: string)
    ensures InsertOutcome(tableExists, rows, InsertParams(r, a)).Success? <==>
              InsertOutcome(tableExists, rows, InsertParams(r, b)).Success?
    ensures InsertOutcome(tableExists, rows, InsertParams(r, a)).Failure? ==>
              InsertOutcome(tableExists, rows, InsertParams(r, a)) == InsertOutcome(tableExists, rows, InsertParams(r, b))
    ensures InsertOutcome(tableExists, rows, InsertParams(r, a)).Success? ==>
              var ra, rb := InsertOutcome(tableExists, rows, InsertParams(r, a)).value,
                            InsertOutcome(tableExists, rows, InsertParams(r, b)).value;
              ra[1] == SqlText(a) && rb[1] == SqlText(b) &&
              forall c :: 0 <= c < ColumnCount && c != 1 ==> ra[c] == rb[c]
  {
    InsertOutcomeIgnoresCreatedAt(tableExists, rows, InsertParams(r, a), InsertParams(r, b));
  }
}
